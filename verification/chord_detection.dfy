/**
 * The chord analyser's template matching: the key is the first pitch class
 * with the largest summed chroma; each of twelve major-triad templates is
 * scored by its dot product with the mean chroma; the templates are ranked
 * by a stable descending sort and the first four names are returned.
 *
 * Chroma values are reals; the audio loading, beat tracking and constant-Q
 * chroma extraction that produce them are inputs.
 */
module ChordDetection {
  import opened Base

  const PitchClasses := 12

  /** The names of the twelve pitch classes, which are also the chord names, in template order. */
  const KeyNames: seq<string> := ["C", "C#", "D", "D#", "E", "F", "F#", "G", "G#", "A", "A#", "B"]

  /** The major-triad templates, row `r` for the chord named `KeyNames[r]`. */
  const Templates: seq<seq<int>> := [
    [1, 0, 0, 0, 1, 0, 0, 1, 0, 0, 0, 0],
    [0, 1, 0, 0, 0, 1, 0, 0, 1, 0, 0, 0],
    [0, 0, 1, 0, 0, 0, 1, 0, 0, 1, 0, 0],
    [0, 0, 0, 1, 0, 0, 0, 1, 0, 0, 1, 0],
    [0, 0, 0, 0, 1, 0, 0, 0, 1, 0, 0, 1],
    [1, 0, 0, 0, 0, 1, 0, 0, 0, 1, 0, 0],
    [0, 1, 0, 0, 0, 0, 1, 0, 0, 0, 1, 0],
    [0, 0, 1, 0, 0, 0, 0, 1, 0, 0, 0, 1],
    [1, 0, 0, 1, 0, 0, 0, 0, 1, 0, 0, 0],
    [0, 1, 0, 0, 1, 0, 0, 0, 0, 1, 0, 0],
    [0, 0, 1, 0, 0, 1, 0, 0, 0, 0, 1, 0],
    [0, 0, 0, 1, 0, 0, 1, 0, 0, 0, 0, 1]
  ]

  /** The pitch classes of the major triad on root `r`: root, major third, fifth. */
  function Triad(r: nat): (t: set<nat>)
    requires r < PitchClasses
    ensures forall p :: p in t ==> p < PitchClasses
  {
    {r, (r + 4) % 12, (r + 7) % 12}
  }

  /** `row` is the indicator of the triad on `r`. */
  predicate IsTriadRow(row: seq<int>, r: nat)
    requires r < PitchClasses
  {
    |row| == PitchClasses &&
    forall p :: 0 <= p < PitchClasses ==> row[p] == if p == r || p == (r + 4) % 12 || p == (r + 7) % 12 then 1 else 0
  }

  /** One entry of the template table. */
  lemma TemplateEntry(r: nat, p: nat)
    requires r < PitchClasses && p < PitchClasses
    ensures |Templates| == PitchClasses && |Templates[r]| == PitchClasses
    ensures Templates[r][p] == if p == r || p == (r + 4) % 12 || p == (r + 7) % 12 then 1 else 0
  {
    var row := Templates[r];
    if r < 6 {
      if r < 3 {
        if r == 0 { assert row == [1, 0, 0, 0, 1, 0, 0, 1, 0, 0, 0, 0]; }
        else if r == 1 { assert row == [0, 1, 0, 0, 0, 1, 0, 0, 1, 0, 0, 0]; }
        else { assert row == [0, 0, 1, 0, 0, 0, 1, 0, 0, 1, 0, 0]; }
      } else {
        if r == 3 { assert row == [0, 0, 0, 1, 0, 0, 0, 1, 0, 0, 1, 0]; }
        else if r == 4 { assert row == [0, 0, 0, 0, 1, 0, 0, 0, 1, 0, 0, 1]; }
        else { assert row == [1, 0, 0, 0, 0, 1, 0, 0, 0, 1, 0, 0]; }
      }
    } else {
      if r < 9 {
        if r == 6 { assert row == [0, 1, 0, 0, 0, 0, 1, 0, 0, 0, 1, 0]; }
        else if r == 7 { assert row == [0, 0, 1, 0, 0, 0, 0, 1, 0, 0, 0, 1]; }
        else { assert row == [1, 0, 0, 1, 0, 0, 0, 0, 1, 0, 0, 0]; }
      } else {
        if r == 9 { assert row == [0, 1, 0, 0, 1, 0, 0, 0, 0, 1, 0, 0]; }
        else if r == 10 { assert row == [0, 0, 1, 0, 0, 1, 0, 0, 0, 0, 1, 0]; }
        else { assert row == [0, 0, 0, 1, 0, 0, 1, 0, 0, 0, 0, 1]; }
      }
    }
  }

  /** Every template is a major triad: ones exactly at r, r+4 and r+7 (mod 12). */
  lemma TemplatesAreTriads(r: nat)
    requires r < PitchClasses
    ensures |Templates| == PitchClasses && IsTriadRow(Templates[r], r)
  {
    TemplateEntry(r, 0);
    forall p | 0 <= p < PitchClasses
      ensures Templates[r][p] == if p == r || p == (r + 4) % 12 || p == (r + 7) % 12 then 1 else 0
    {
      TemplateEntry(r, p);
    }
  }

  /** A triad has three different pitch classes. */
  lemma TriadHasThreeNotes(r: nat)
    requires r < PitchClasses
    ensures r != (r + 4) % 12 && (r + 4) % 12 != (r + 7) % 12 && r != (r + 7) % 12
    ensures |Triad(r)| == 3
  {
  }

  lemma KeyNamesDistinct()
    ensures |KeyNames| == PitchClasses
    ensures forall i, j :: 0 <= i < j < PitchClasses ==> KeyNames[i] != KeyNames[j]
  {
  }

  // ---------------------------------------------------------------------------
  // Chroma

  /** A chroma matrix: twelve rows of equal, non-zero length. */
  predicate ValidChroma(chroma: seq<seq<real>>) {
    |chroma| == PitchClasses && |chroma[0]| > 0 && forall p :: 0 <= p < PitchClasses ==> |chroma[p]| == |chroma[0]|
  }

  type Chroma = c: seq<seq<real>> | ValidChroma(c) witness seq(12, _ => [0.0])

  function Sum(xs: seq<real>): real {
    if xs == [] then 0.0 else Sum(xs[..|xs| - 1]) + xs[|xs| - 1]
  }

  /** `np.sum(chroma, axis=1)`. */
  function SummedChroma(chroma: Chroma): (r: seq<real>)
    ensures |r| == PitchClasses && forall p :: 0 <= p < PitchClasses ==> r[p] == Sum(chroma[p])
  {
    seq(PitchClasses, p requires 0 <= p < PitchClasses => Sum(chroma[p]))
  }

  /** `np.mean(chroma, axis=1)`: each mean, times the number of frames, is that row's sum. */
  function MeanChroma(chroma: Chroma): (r: seq<real>)
    ensures |r| == PitchClasses
    ensures forall p :: 0 <= p < PitchClasses ==> r[p] * |chroma[0]| as real == SummedChroma(chroma)[p]
  {
    seq(PitchClasses, p requires 0 <= p < PitchClasses => Sum(chroma[p]) / |chroma[0]| as real)
  }

  /** Dividing by the same positive number keeps the order of two values. */
  lemma DivisionKeepsOrder(a: real, b: real, n: real)
    requires n > 0.0
    ensures a <= b <==> a / n <= b / n
    ensures a < b <==> a / n < b / n
  {
  }

  /** Two vectors have at most one first largest index. */
  lemma FirstArgMaxUnique(v: seq<real>, i: nat, k: nat)
    requires i < |v| && k < |v|
    requires forall j :: 0 <= j < |v| ==> v[j] <= v[i] && v[j] <= v[k]
    requires forall j :: 0 <= j < i ==> v[j] < v[i]
    requires forall j :: 0 <= j < k ==> v[j] < v[k]
    ensures i == k
  {
    assert v[i] <= v[k] && v[k] <= v[i];
  }

  /**
   * The key taken from the summed chroma is the one the mean chroma would
   * give: dividing every row by the same frame count keeps the first argmax.
   */
  lemma {:induction false} MeanAndSumShareArgMax(chroma: Chroma)
    ensures FirstArgMax(MeanChroma(chroma)) == FirstArgMax(SummedChroma(chroma))
  {
    var m, s := MeanChroma(chroma), SummedChroma(chroma);
    var n := |chroma[0]| as real;
    var i, k := FirstArgMax(m), FirstArgMax(s);
    forall j | 0 <= j < PitchClasses
      ensures m[j] == s[j] / n
    {
      assert m[j] == Sum(chroma[j]) / n;
    }
    forall j | 0 <= j < PitchClasses
      ensures m[j] <= m[k] && (j < k ==> m[j] < m[k])
    {
      DivisionKeepsOrder(s[j], s[k], n);
    }
    FirstArgMaxUnique(m, i, k);
  }

  /** `np.argmax`: the first index holding the largest value. */
  function FirstArgMax(v: seq<real>): (i: nat)
    requires |v| > 0
    ensures i < |v|
    ensures forall j :: 0 <= j < |v| ==> v[j] <= v[i]
    ensures forall j :: 0 <= j < i ==> v[j] < v[i]
  {
    if |v| == 1 then 0
    else
      var k := FirstArgMax(v[..|v| - 1]);
      if v[|v| - 1] > v[k] then |v| - 1 else k
  }

  // ---------------------------------------------------------------------------
  // Similarities

  /** `np.dot(a, t)` over the first `n` pitch classes. */
  function Dot(a: seq<real>, t: seq<int>, n: nat): real
    requires n <= |a| && n <= |t|
  {
    if n == 0 then 0.0 else Dot(a, t, n - 1) + a[n - 1] * t[n - 1] as real
  }

  /** The sum of `a` over the indices below `n` that lie in `s`. */
  function MaskedSum(a: seq<real>, s: set<nat>, n: nat): real
    requires n <= |a|
  {
    if n == 0 then 0.0 else MaskedSum(a, s, n - 1) + if n - 1 in s then a[n - 1] else 0.0
  }

  /** A dot product with an indicator row is the sum over the indicated positions. */
  lemma {:induction false} DotIndicator(a: seq<real>, t: seq<int>, s: set<nat>, n: nat)
    requires n <= |a| && n <= |t|
    requires forall p :: 0 <= p < n ==> t[p] == if p in s then 1 else 0
    ensures Dot(a, t, n) == MaskedSum(a, s, n)
  {
    if n > 0 {
      DotIndicator(a, t, s, n - 1);
    }
  }

  /** Summing over one position gives that position's value. */
  lemma {:induction false} MaskedSumSingle(a: seq<real>, p: nat, n: nat)
    requires n <= |a|
    ensures MaskedSum(a, {p}, n) == if p < n then a[p] else 0.0
  {
    if n > 0 {
      MaskedSumSingle(a, p, n - 1);
    }
  }

  /** Summing over two disjoint sets adds the two sums. */
  lemma {:induction false} MaskedSumUnion(a: seq<real>, s: set<nat>, u: set<nat>, n: nat)
    requires n <= |a| && s !! u
    ensures MaskedSum(a, s + u, n) == MaskedSum(a, s, n) + MaskedSum(a, u, n)
  {
    if n > 0 {
      MaskedSumUnion(a, s, u, n - 1);
    }
  }

  /** The sum over three different positions below `n`. */
  lemma MaskedSumTriple(a: seq<real>, x: nat, y: nat, z: nat, n: nat)
    requires x < n && y < n && z < n && n <= |a|
    requires x != y && y != z && x != z
    ensures MaskedSum(a, {x, y, z}, n) == a[x] + a[y] + a[z]
  {
    MaskedSumSingle(a, x, n);
    MaskedSumSingle(a, y, n);
    MaskedSumSingle(a, z, n);
    MaskedSumUnion(a, {x}, {y}, n);
    assert {x} + {y} == {x, y};
    MaskedSumUnion(a, {x, y}, {z}, n);
    assert {x, y} + {z} == {x, y, z};
  }

  /** A chord's similarity is the sum of the mean chroma at its root, third and fifth. */
  lemma TriadSimilarity(a: seq<real>, r: nat)
    requires |a| == PitchClasses && r < PitchClasses
    ensures Dot(a, Templates[r], PitchClasses) == a[r] + a[(r + 4) % 12] + a[(r + 7) % 12]
  {
    TemplatesAreTriads(r);
    TriadHasThreeNotes(r);
    DotIndicator(a, Templates[r], Triad(r), PitchClasses);
    MaskedSumTriple(a, r, (r + 4) % 12, (r + 7) % 12, PitchClasses);
  }

  /** The template score of each chord, as `np.dot(chroma_mean, template)`. */
  function Score(mean: seq<real>, r: nat): real
    requires |mean| == PitchClasses && r < PitchClasses
  {
    Dot(mean, Templates[r], PitchClasses)
  }

  /**
   * The `similarities` loop: one dot product per template, in template
   * order; each equals the triad sum of the mean chroma.
   */
  method Similarities(mean: seq<real>) returns (sims: seq<real>)
    requires |mean| == PitchClasses
    ensures |sims| == PitchClasses
    ensures forall r :: 0 <= r < PitchClasses ==> sims[r] == Score(mean, r)
    ensures forall r :: 0 <= r < PitchClasses ==> sims[r] == mean[r] + mean[(r + 4) % 12] + mean[(r + 7) % 12]
  {
    sims := [];
    for r := 0 to PitchClasses
      invariant |sims| == r
      invariant forall q :: 0 <= q < r ==> sims[q] == Score(mean, q)
      invariant forall q :: 0 <= q < r ==> sims[q] == mean[q] + mean[(q + 4) % 12] + mean[(q + 7) % 12]
    {
      TriadSimilarity(mean, r);
      sims := sims + [Dot(mean, Templates[r], PitchClasses)];
    }
  }

  // ---------------------------------------------------------------------------
  // Ranking

  /**
   * `x` comes before `y` in `sorted(..., key=score, reverse=True)`: a higher
   * score first, and on equal scores the earlier template first, because
   * the sort is stable.
   */
  predicate Before(sims: seq<real>, x: nat, y: nat)
    requires x < |sims| && y < |sims|
  {
    sims[x] > sims[y] || (sims[x] == sims[y] && x < y)
  }

  predicate ValidIndices(sims: seq<real>, xs: seq<nat>) {
    forall i :: 0 <= i < |xs| ==> xs[i] < |sims|
  }

  predicate Ranked(sims: seq<real>, xs: seq<nat>)
    requires ValidIndices(sims, xs)
  {
    forall i, j :: 0 <= i < j < |xs| ==> Before(sims, xs[i], xs[j])
  }

  /** Inserts `x` into a ranked list in front of the first entry it comes before. */
  function Insert(sims: seq<real>, x: nat, xs: seq<nat>): (r: seq<nat>)
    requires x < |sims| && ValidIndices(sims, xs)
    ensures ValidIndices(sims, r)
    ensures multiset(r) == multiset(xs) + multiset{x}
    ensures |r| == |xs| + 1
  {
    if xs == [] then [x]
    else if x == xs[0] || Before(sims, x, xs[0]) then [x] + xs
    else
      assert xs == [xs[0]] + xs[1..];
      [xs[0]] + Insert(sims, x, xs[1..])
  }

  /** Inserting an index that is not yet there keeps the list ranked. */
  lemma {:induction false} InsertRanked(sims: seq<real>, x: nat, xs: seq<nat>)
    requires x < |sims| && ValidIndices(sims, xs) && Ranked(sims, xs) && x !in xs
    ensures Ranked(sims, Insert(sims, x, xs))
  {
    if xs != [] && !Before(sims, x, xs[0]) {
      assert xs == [xs[0]] + xs[1..];
      InsertRanked(sims, x, xs[1..]);
      var r := Insert(sims, x, xs);
      var tail := Insert(sims, x, xs[1..]);
      assert multiset(tail) == multiset(xs[1..]) + multiset{x};
      forall k | 0 <= k < |tail|
        ensures Before(sims, xs[0], tail[k])
      {
        assert tail[k] in multiset(tail);
        if tail[k] != x {
          assert tail[k] in multiset(xs[1..]);
          var m :| 0 <= m < |xs[1..]| && xs[1..][m] == tail[k];
          assert xs[m + 1] == tail[k];
        }
      }
    }
  }

  /** Insertion sort by `Before`: the stable descending sort of the template scores. */
  function SortByScore(sims: seq<real>, xs: seq<nat>): (r: seq<nat>)
    requires ValidIndices(sims, xs)
    ensures ValidIndices(sims, r)
    ensures multiset(r) == multiset(xs)
    ensures |r| == |xs|
  {
    if xs == [] then []
    else
      assert xs == [xs[0]] + xs[1..];
      Insert(sims, xs[0], SortByScore(sims, xs[1..]))
  }

  /** Sorting a list without repeats ranks it. */
  lemma {:induction false} SortRanked(sims: seq<real>, xs: seq<nat>)
    requires ValidIndices(sims, xs)
    requires forall i, j :: 0 <= i < j < |xs| ==> xs[i] != xs[j]
    ensures Ranked(sims, SortByScore(sims, xs))
  {
    if xs != [] {
      assert xs == [xs[0]] + xs[1..];
      SortRanked(sims, xs[1..]);
      var rest := SortByScore(sims, xs[1..]);
      forall m | 0 <= m < |xs[1..]|
        ensures xs[1..][m] != xs[0]
      {
        assert xs[1..][m] == xs[m + 1];
      }
      assert xs[0] !in multiset(xs[1..]);
      assert xs[0] !in multiset(rest);
      InsertRanked(sims, xs[0], rest);
    }
  }

  /** The template indices in template order. */
  function AllTemplates(): (r: seq<nat>)
    ensures |r| == PitchClasses && forall i :: 0 <= i < PitchClasses ==> r[i] == i
  {
    seq(PitchClasses, i => i)
  }

  /** All templates, best first. */
  function Ranking(sims: seq<real>): (r: seq<nat>)
    requires |sims| == PitchClasses
    ensures |r| == PitchClasses && ValidIndices(sims, r)
    ensures multiset(r) == multiset(AllTemplates())
  {
    SortByScore(sims, AllTemplates())
  }

  /**
   * The ranking lists every template exactly once, in the order of the
   * stable descending sort.
   */
  lemma RankingIsStableDescending(sims: seq<real>)
    requires |sims| == PitchClasses
    ensures Ranked(sims, Ranking(sims))
    ensures forall c :: 0 <= c < PitchClasses <==> c in Ranking(sims)
    ensures forall i, j :: 0 <= i < j < PitchClasses ==> Ranking(sims)[i] != Ranking(sims)[j]
  {
    SortRanked(sims, AllTemplates());
    var r := Ranking(sims);
    forall c | 0 <= c < PitchClasses
      ensures c in r
    {
      assert AllTemplates()[c] == c;
      assert c in multiset(AllTemplates());
    }
    forall c | c in r
      ensures 0 <= c < PitchClasses
    {
      assert c in multiset(r);
    }
  }

  /** The first four entries of the ranking: `sorted_chords[:4]`. */
  function TopChords(sims: seq<real>): (r: seq<nat>)
    requires |sims| == PitchClasses
  {
    Ranking(sims)[..4]
  }

  /**
   * Four different templates come back, in non-increasing score order with
   * ties in template order, and each scores at least as high as every
   * template left out, which it also precedes under the same tie rule.
   */
  lemma TopChordsAreBest(sims: seq<real>)
    requires |sims| == PitchClasses
    ensures var top := TopChords(sims);
      && |top| == 4
      && (forall i :: 0 <= i < 4 ==> top[i] < PitchClasses)
      && (forall i, j :: 0 <= i < j < 4 ==> top[i] != top[j])
      && (forall i, j :: 0 <= i < j < 4 ==> sims[top[i]] >= sims[top[j]])
      && (forall i, j :: 0 <= i < j < 4 && sims[top[i]] == sims[top[j]] ==> top[i] < top[j])
      && (forall i, c :: 0 <= i < 4 && 0 <= c < PitchClasses && c !in top ==>
            sims[top[i]] >= sims[c] && Before(sims, top[i], c))
  {
    RankingIsStableDescending(sims);
    var r := Ranking(sims);
    var top := TopChords(sims);
    forall i, c | 0 <= i < 4 && 0 <= c < PitchClasses && c !in top
      ensures Before(sims, top[i], c)
    {
      assert c in r;
      var k :| 0 <= k < PitchClasses && r[k] == c;
      forall j | 0 <= j < 4
        ensures r[j] != c
      {
        assert r[j] == top[j];
      }
      assert r[i] == top[i];
    }
  }

  /** `detect_chords_from_chroma`: the names of the four best templates for the mean chroma. */
  method DetectChords(chroma: Chroma) returns (names: seq<string>)
    ensures |names| == 4
    ensures names == ChordNames(TopChords(Scores(MeanChroma(chroma))))
  {
    var sims := Similarities(MeanChroma(chroma));
    assert sims == Scores(MeanChroma(chroma));
    var top := TopChords(sims);
    RankingIsStableDescending(sims);
    names := ChordNames(top);
  }

  /** The twelve template scores of a mean chroma. */
  function Scores(mean: seq<real>): (r: seq<real>)
    requires |mean| == PitchClasses
    ensures |r| == PitchClasses && forall p :: 0 <= p < PitchClasses ==> r[p] == Score(mean, p)
  {
    seq(PitchClasses, p requires 0 <= p < PitchClasses => Score(mean, p))
  }

  /** `[chord for chord, _ in ...]`: the names of template indices. */
  function ChordNames(xs: seq<nat>): (r: seq<string>)
    requires forall i :: 0 <= i < |xs| ==> xs[i] < PitchClasses
    ensures |r| == |xs| && forall i :: 0 <= i < |xs| ==> r[i] == KeyNames[xs[i]]
    ensures forall i :: 0 <= i < |r| ==> r[i] in KeyNames
    ensures (forall i, j :: 0 <= i < j < |xs| ==> xs[i] != xs[j]) ==> forall i, j :: 0 <= i < j < |r| ==> r[i] != r[j]
  {
    KeyNamesDistinct();
    var r := seq(|xs|, i requires 0 <= i < |xs| => KeyNames[xs[i]]);
    assert forall i, j :: 0 <= i < |xs| && 0 <= j < |xs| && xs[i] != xs[j] ==> r[i] != r[j] by {
      forall i, j | 0 <= i < |xs| && 0 <= j < |xs| && xs[i] != xs[j]
        ensures r[i] != r[j]
      {
        if xs[i] < xs[j] {
          assert KeyNames[xs[i]] != KeyNames[xs[j]];
        } else {
          assert KeyNames[xs[j]] != KeyNames[xs[i]];
        }
      }
    }
    r
  }

  /** The four chord names returned are four different names of the twelve. */
  lemma DetectedNamesDistinct(chroma: Chroma)
    ensures var top := TopChords(Scores(MeanChroma(chroma)));
      var names := ChordNames(top);
      && |names| == 4
      && (forall i :: 0 <= i < 4 ==> names[i] in KeyNames)
      && (forall i, j :: 0 <= i < j < 4 ==> names[i] != names[j])
  {
    var sims := Scores(MeanChroma(chroma));
    TopChordsAreBest(sims);
  }

  // ---------------------------------------------------------------------------
  // analyze_song

  /** What loading the audio gives: the tempo and chroma, or the message of the exception raised. */
  datatype AudioLoad = Loaded(tempo: real, chroma: Chroma) | LoadFailed(message: string)

  /** The analyser's record: the analysis, or a record whose only key is `error`. */
  datatype SongAnalysis =
    | Analysis(tempo: real, key: string, scale: string, chords: seq<string>)
    | AnalysisError(error: string)

  /** `analyze_song`. */
  method AnalyzeSong(load: AudioLoad) returns (result: SongAnalysis)
    ensures load.LoadFailed? ==> result == AnalysisError(load.message)
    ensures load.Loaded? ==> result.Analysis?
    ensures load.Loaded? ==>
      && result.tempo == load.tempo
      && result.key == KeyNames[FirstArgMax(SummedChroma(load.chroma))]
      && result.scale == result.key + " Major"
      && result.chords == ChordNames(TopChords(Scores(MeanChroma(load.chroma))))
      && |result.chords| == 4
  {
    match load {
      case LoadFailed(message) =>
        return AnalysisError(message);
      case Loaded(tempo, chroma) =>
        var keyIndex := FirstArgMax(SummedChroma(chroma));
        var key := KeyNames[keyIndex];
        var chords := DetectChords(chroma);
        return Analysis(tempo, key, key + " Major", chords[..4]);
    }
  }

  /** The key is the first pitch class whose summed chroma is largest. */
  lemma KeyIsFirstLargest(chroma: Chroma)
    ensures var k := FirstArgMax(SummedChroma(chroma));
      && k < PitchClasses
      && (forall p :: 0 <= p < PitchClasses ==> Sum(chroma[p]) <= Sum(chroma[k]))
      && (forall p :: 0 <= p < k ==> Sum(chroma[p]) < Sum(chroma[k]))
  {
  }
}
