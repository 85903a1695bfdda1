/**
 * The multi-track player's mixer: per-stem volume, mute and solo maps kept
 * as component state, the loaded `Audio` element of each stem, and the
 * play/pause controls; plus the pure helpers it renders with (`formatTime`,
 * the stem source URL and the download file name).
 */
module MultiTrackPlayer {
  import opened Base
  import opened Strings

  /** The observable state of one loaded `Audio` element. */
  datatype Audio = Audio(volume: real, muted: bool, paused: bool)

  const InitialVolume: map<string, real> := map["vocals" := 0.8, "drums" := 0.6, "bass" := 0.7, "other" := 0.5]
  const NoFlags: map<string, bool> := map["vocals" := false, "drums" := false, "bass" := false, "other" := false]

  /** `m[k]` read as a boolean: a missing key is `undefined`, which is falsy. */
  predicate Flag(m: map<string, bool>, k: string) {
    k in m && m[k]
  }

  /** `{ ...prev, [k]: !prev[k] }`: the flag of `k` is inverted, every other entry is kept. */
  function Flip(m: map<string, bool>, k: string): (r: map<string, bool>)
    ensures r.Keys == m.Keys + {k}
    ensures Flag(r, k) == !Flag(m, k)
    ensures forall j :: j in m && j != k ==> r[j] == m[j]
  {
    m[k := !Flag(m, k)]
  }

  /** Flipping the same flag twice gives back the map it started from. */
  lemma FlipTwice(m: map<string, bool>, k: string)
    requires k in m
    ensures Flip(Flip(m, k), k) == m
  {
    assert Flip(Flip(m, k), k).Keys == m.Keys;
  }

  /** `Object.values(solo).some(isSolo => isSolo)`. */
  predicate AnySolo(solo: map<string, bool>) {
    exists k :: k in solo && solo[k]
  }

  /**
   * The mute a track gets from the solo rule: while any stem is soloed, every
   * stem that is not soloed is muted; otherwise each takes its own mute flag.
   */
  predicate EffectiveMute(solo: map<string, bool>, muted: map<string, bool>, t: string) {
    if AnySolo(solo) then !Flag(solo, t) else Flag(muted, t)
  }

  /** Every loaded track with its mute set by the solo rule, and nothing else changed. */
  function SoloMix(audio: map<string, Audio>, solo: map<string, bool>, muted: map<string, bool>): (r: map<string, Audio>)
    ensures r.Keys == audio.Keys
    ensures forall t :: t in r ==> r[t].volume == audio[t].volume && r[t].paused == audio[t].paused
    ensures AnySolo(solo) ==> forall t :: t in r ==> (r[t].muted <==> !Flag(solo, t))
    ensures !AnySolo(solo) ==> forall t :: t in r ==> r[t].muted == Flag(muted, t)
  {
    map t | t in audio :: audio[t].(muted := EffectiveMute(solo, muted, t))
  }

  /**
   * Soloing a stem and soloing it again leaves the tracks muted exactly as a
   * single pass of the solo rule over the original solo map would.
   */
  lemma SoloTwiceRestoresMix(audio: map<string, Audio>, solo: map<string, bool>, muted: map<string, bool>, k: string)
    requires k in solo
    ensures SoloMix(SoloMix(audio, Flip(solo, k), muted), Flip(Flip(solo, k), k), muted) == SoloMix(audio, solo, muted)
  {
    FlipTwice(solo, k);
  }

  /** The track of `stem`, if loaded, with its mute set to the stem's flag in `muted`. */
  function MuteTrack(audio: map<string, Audio>, muted: map<string, bool>, stem: string): (r: map<string, Audio>)
    ensures r.Keys == audio.Keys
    ensures stem in r ==> r[stem] == audio[stem].(muted := Flag(muted, stem))
    ensures forall t :: t in r && t != stem ==> r[t] == audio[t]
  {
    if stem in audio then audio[stem := audio[stem].(muted := Flag(muted, stem))] else audio
  }

  /**
   * Mute ignores solo: unmuting a track that is not soloed makes it audible
   * even while another stem is soloed, so the track no longer follows the
   * solo rule.
   */
  lemma MuteOverridesSolo(audio: map<string, Audio>, solo: map<string, bool>, muted: map<string, bool>, stem: string)
    requires stem in audio && AnySolo(solo) && !Flag(solo, stem) && Flag(muted, stem)
    ensures var r := MuteTrack(audio, Flip(muted, stem), stem);
      !r[stem].muted && EffectiveMute(solo, Flip(muted, stem), stem)
  {
  }

  /** Every volume within the range slider's bounds. */
  predicate VolumesInRange(volume: map<string, real>) {
    forall k :: k in volume ==> 0.0 <= volume[k] <= 1.0
  }

  /** A `canplaythrough` element: created at the stem's volume as loading read it, not muted, paused. */
  function NewTracks(volume: map<string, real>, ready: set<string>): (r: map<string, Audio>)
    requires ready <= volume.Keys
    ensures r.Keys == ready
    ensures forall t :: t in r ==> r[t] == Audio(volume[t], false, true)
  {
    map t | t in ready :: Audio(volume[t], false, true)
  }

  /** `pause()` on every element: all paused, volume and mute kept. */
  function PauseTracks(audio: map<string, Audio>): (r: map<string, Audio>)
    ensures r.Keys == audio.Keys
    ensures forall t :: t in r ==> r[t].paused && r[t].volume == audio[t].volume && r[t].muted == audio[t].muted
  {
    map t | t in audio :: audio[t].(paused := true)
  }

  /**
   * `play()` on every element, of which those in `started` resolved: an
   * element runs afterwards exactly when it ran before or it started.
   */
  function StartTracks(audio: map<string, Audio>, started: set<string>): (r: map<string, Audio>)
    ensures r.Keys == audio.Keys
    ensures forall t :: t in r ==> (!r[t].paused <==> !audio[t].paused || t in started)
    ensures forall t :: t in r ==> r[t].volume == audio[t].volume && r[t].muted == audio[t].muted
  {
    map t | t in audio :: audio[t].(paused := audio[t].paused && t !in started)
  }

  /** Pausing after a play leaves the elements as pausing straight away would. */
  lemma PauseUndoesPlay(audio: map<string, Audio>, started: set<string>)
    ensures PauseTracks(StartTracks(audio, started)) == PauseTracks(audio)
  {
  }

  /** Playing when every element started leaves none paused; playing when none started changes nothing. */
  lemma StartTracksExtremes(audio: map<string, Audio>)
    ensures forall t :: t in StartTracks(audio, audio.Keys) ==> !StartTracks(audio, audio.Keys)[t].paused
    ensures StartTracks(audio, {}) == audio
  {
  }

  class Mixer {
    var volume: map<string, real>
    var muted: map<string, bool>
    var solo: map<string, bool>
    var isLoaded: bool
    var isPlaying: bool
    /** Whether the interval and animation-frame time trackers are running. */
    var tracking: bool
    /** `audioRefs.current`: the stems whose element finished loading. */
    var audio: map<string, Audio>

    /**
     * Volumes stay within the range slider's bounds, the time trackers run
     * exactly while playing, and playing needs loaded tracks.
     */
    predicate Valid()
      reads this
    {
      && VolumesInRange(volume)
      && (forall t :: t in audio ==> 0.0 <= audio[t].volume <= 1.0)
      && isPlaying == tracking
      && (isPlaying ==> isLoaded && audio != map[])
    }

    /** The initial component state: fixed volumes, no mute, no solo, nothing loaded. */
    constructor()
      ensures Valid()
      ensures volume == InitialVolume && muted == NoFlags && solo == NoFlags
      ensures !isLoaded && !isPlaying && !tracking && audio == map[]
    {
      volume := InitialVolume;
      muted := NoFlags;
      solo := NoFlags;
      isLoaded := false;
      isPlaying := false;
      tracking := false;
      audio := map[];
    }

    /**
     * The end of `initializeAudio`: the elements that became ready are kept
     * by stem, and the player counts as loaded once at least one element is.
     * Each new element has the volume `startVolume` gave its stem: the
     * `volume` state as it was when `initializeAudio` began, which slider
     * moves during loading do not reach.
     */
    method FinishLoading(startVolume: map<string, real>, ready: set<string>)
      requires Valid()
      requires VolumesInRange(startVolume) && ready <= startVolume.Keys
      modifies this
      ensures Valid()
      ensures audio == old(audio) + NewTracks(startVolume, ready)
      ensures isLoaded == (old(isLoaded) || audio != map[])
      ensures volume == old(volume) && muted == old(muted) && solo == old(solo)
      ensures isPlaying == old(isPlaying) && tracking == old(tracking)
    {
      var added := NewTracks(startVolume, ready);
      assert forall t :: t in added ==> 0.0 <= added[t].volume <= 1.0;
      audio := audio + added;
      if audio != map[] {
        isLoaded := true;
      }
    }

    /** `handleVolumeChange`: only the named stem's volume changes, in the state and on its element. */
    method SetVolume(stem: string, v: real)
      requires Valid()
      requires 0.0 <= v <= 1.0
      modifies this
      ensures Valid()
      ensures volume == old(volume)[stem := v]
      ensures forall k :: k in old(volume) && k != stem ==> volume[k] == old(volume)[k]
      ensures audio.Keys == old(audio).Keys
      ensures stem in audio ==> audio[stem] == old(audio)[stem].(volume := v)
      ensures forall t :: t in audio && t != stem ==> audio[t] == old(audio)[t]
      ensures muted == old(muted) && solo == old(solo)
      ensures isLoaded == old(isLoaded) && isPlaying == old(isPlaying) && tracking == old(tracking)
    {
      volume := volume[stem := v];
      if stem in audio {
        audio := audio[stem := audio[stem].(volume := v)];
      }
    }

    /** `toggleMute`: the stem's flag is inverted and its element takes the new flag, whatever is soloed. */
    method ToggleMute(stem: string)
      requires Valid()
      modifies this
      ensures Valid()
      ensures muted == Flip(old(muted), stem)
      ensures audio == MuteTrack(old(audio), muted, stem)
      ensures volume == old(volume) && solo == old(solo)
      ensures isLoaded == old(isLoaded) && isPlaying == old(isPlaying) && tracking == old(tracking)
    {
      muted := Flip(muted, stem);
      if stem in audio {
        audio := audio[stem := audio[stem].(muted := Flag(muted, stem))];
      }
    }

    /**
     * Replaces every element by `f` of its stem and its current state, one
     * element at a time, as the `forEach` loops over `audioRefs.current` do.
     */
    method UpdateEach(f: (string, Audio) -> Audio)
      requires Valid()
      requires forall t: string, a: Audio :: 0.0 <= a.volume <= 1.0 ==> f(t, a).volume == a.volume
      modifies this
      ensures Valid()
      ensures audio.Keys == old(audio).Keys
      ensures forall t :: t in audio ==> audio[t] == f(t, old(audio)[t])
      ensures volume == old(volume) && muted == old(muted) && solo == old(solo)
      ensures isLoaded == old(isLoaded) && isPlaying == old(isPlaying) && tracking == old(tracking)
    {
      var todo := audio.Keys;
      while todo != {}
        invariant todo <= audio.Keys
        invariant Valid()
        invariant audio.Keys == old(audio).Keys
        invariant forall t :: t in audio && t !in todo ==> audio[t] == f(t, old(audio)[t])
        invariant forall t :: t in todo ==> audio[t] == old(audio)[t]
        invariant volume == old(volume) && muted == old(muted) && solo == old(solo)
        invariant isLoaded == old(isLoaded) && isPlaying == old(isPlaying) && tracking == old(tracking)
        decreases todo
      {
        var t :| t in todo;
        audio := audio[t := f(t, audio[t])];
        todo := todo - {t};
      }
    }

    /**
     * `toggleSolo`: the stem's solo flag is inverted; then, if any stem is
     * soloed, every loaded track is muted exactly when it is not soloed, and
     * otherwise each track takes its own mute flag.
     */
    method ToggleSolo(stem: string)
      requires Valid()
      modifies this
      ensures Valid()
      ensures solo == Flip(old(solo), stem)
      ensures audio == SoloMix(old(audio), solo, muted)
      ensures volume == old(volume) && muted == old(muted)
      ensures isLoaded == old(isLoaded) && isPlaying == old(isPlaying) && tracking == old(tracking)
    {
      var newSolo := Flip(solo, stem);
      var anySolo := false;
      var seen: set<string> := {};
      var keys := newSolo.Keys;
      while keys != {}
        invariant keys <= newSolo.Keys && seen == newSolo.Keys - keys
        invariant anySolo <==> exists k :: k in seen && newSolo[k]
        decreases keys
      {
        var k :| k in keys;
        if newSolo[k] {
          anySolo := true;
        }
        keys := keys - {k};
        seen := seen + {k};
      }
      assert anySolo == AnySolo(newSolo);
      var m := muted;
      UpdateEach((t, a: Audio) => a.(muted := if anySolo then !Flag(newSolo, t) else Flag(m, t)));
      solo := newSolo;
      assert audio == SoloMix(old(audio), solo, muted);
    }

    /**
     * `playAllTracks`: nothing happens unless the player is loaded and has a
     * track; then every element whose `play()` resolved (`started`) runs,
     * and the player is playing with the time trackers on even if none did.
     */
    method PlayAll(started: set<string>)
      requires Valid()
      modifies this
      ensures Valid()
      ensures !old(isLoaded) || old(audio) == map[] ==> audio == old(audio) && isPlaying == old(isPlaying) && tracking == old(tracking)
      ensures old(isLoaded) && old(audio) != map[] ==> isPlaying && tracking
      ensures old(isLoaded) && old(audio) != map[] ==> audio == StartTracks(old(audio), started)
      ensures volume == old(volume) && muted == old(muted) && solo == old(solo) && isLoaded == old(isLoaded)
    {
      if !isLoaded {
        return;
      }
      if |audio.Keys| == 0 {
        assert audio == map[];
        return;
      }
      UpdateEach((t, a: Audio) => a.(paused := a.paused && t !in started));
      assert audio == StartTracks(old(audio), started);
      isPlaying := true;
      tracking := true;
    }

    /** `pauseAllTracks`: every element is paused, the player stops playing and the trackers stop. */
    method PauseAll()
      requires Valid()
      modifies this
      ensures Valid()
      ensures audio == PauseTracks(old(audio))
      ensures !isPlaying && !tracking
      ensures volume == old(volume) && muted == old(muted) && solo == old(solo) && isLoaded == old(isLoaded)
    {
      UpdateEach((t, a: Audio) => a.(paused := true));
      assert audio == PauseTracks(old(audio));
      isPlaying := false;
      tracking := false;
    }

    /**
     * `togglePlay`: when playing, every element pauses and the player stops;
     * otherwise the player plays if it is loaded with a track, and nothing
     * changes if it is not.
     */
    method TogglePlay(started: set<string>)
      requires Valid()
      modifies this
      ensures Valid()
      ensures old(isPlaying) ==> audio == PauseTracks(old(audio)) && !isPlaying && !tracking
      ensures !old(isPlaying) && old(isLoaded) && old(audio) != map[] ==>
        audio == StartTracks(old(audio), started) && isPlaying && tracking
      ensures !old(isPlaying) && !(old(isLoaded) && old(audio) != map[]) ==>
        audio == old(audio) && !isPlaying && !tracking
      ensures volume == old(volume) && muted == old(muted) && solo == old(solo) && isLoaded == old(isLoaded)
    {
      if isPlaying {
        PauseAll();
      } else {
        PlayAll(started);
      }
    }
  }

  /** `n.toString().padStart(2, '0')` for a number below 100. */
  function Pad2(n: nat): (r: string)
    requires n < 100
    ensures |r| == 2 && AllDigits(r) && DecimalValue(r) == n
  {
    DecimalRoundTrip(n);
    if n < 10 then
      assert DecimalValue("0") == 0;
      "0" + Decimal(n)
    else
      assert Decimal(n) == Decimal(n / 10) + [DigitChar(n % 10)];
      Decimal(n)
  }

  /**
   * `formatTime` on whole seconds, `None` standing for `undefined` or `NaN`:
   * minutes, a colon and two-digit seconds below 60; a missing or zero time
   * gives `0:00`.
   */
  function FormatTime(time: Option<nat>): (r: string)
    ensures |r| >= 4 && r[|r| - 3] == ':'
    ensures AllDigits(r[..|r| - 3]) && AllDigits(r[|r| - 2..]) && DecimalValue(r[|r| - 2..]) < 60
  {
    if time.None? || time.value == 0 then
      ClockParts("0", "00");
      assert DecimalValue("00") == 0;
      "0:00"
    else
      var t := time.value;
      var minutes, seconds := Decimal(t / 60), Pad2(t % 60);
      ClockParts(minutes, seconds);
      minutes + ":" + seconds
  }

  /** `m + ":" + s` splits back into `m` and a two-character `s` around the colon. */
  lemma ClockParts(m: string, s: string)
    requires |m| >= 1 && |s| == 2
    ensures var r := m + ":" + s;
      |r| >= 4 && r[|r| - 3] == ':' && r[..|r| - 3] == m && r[|r| - 2..] == s
  {
  }

  /** Reads a `m:ss` clock back as a number of seconds. */
  function ClockSeconds(s: string): nat
    requires |s| >= 4 && AllDigits(s[..|s| - 3]) && AllDigits(s[|s| - 2..])
  {
    DecimalValue(s[..|s| - 3]) * 60 + DecimalValue(s[|s| - 2..])
  }

  /** The clock shows exactly the given number of seconds; a missing time shows as zero. */
  lemma FormatTimeRoundTrip(t: nat)
    ensures ClockSeconds(FormatTime(Some(t))) == t
    ensures FormatTime(None) == FormatTime(Some(0)) == "0:00"
  {
    if t == 0 {
      assert "0:00"[..1] == "0" && "0:00"[2..] == "00";
      assert DecimalValue("0") == 0 && DecimalValue("00") == 0;
    } else {
      var r := FormatTime(Some(t));
      assert r[..|r| - 3] == Decimal(t / 60) && r[|r| - 2..] == Pad2(t % 60);
      DecimalRoundTrip(t / 60);
    }
  }

  const DevServer := "http://localhost:5001"

  /** The URL a stem is loaded from: as given when it starts with `http`, else under the development server. */
  function ResolveUrl(src: string): (r: string)
    ensures IsPrefix("http", r)
    ensures IsSuffix(src, r)
    ensures IsPrefix("http", src) ==> r == src
  {
    if IsPrefix("http", src) then src else DevServer + src
  }

  /** Resolving a resolved URL changes nothing. */
  lemma ResolveUrlIdempotent(src: string)
    ensures ResolveUrl(ResolveUrl(src)) == ResolveUrl(src)
  {
  }

  /** The download link of `downloadStem`. */
  datatype Link = Link(href: string, download: string)

  /** `fileName?.replace('.mp3', '') || 'stem'`: the first `.mp3` removed, `'stem'` when that leaves nothing. */
  function DownloadBase(fileName: Option<string>): (r: string)
    ensures r != ""
    ensures fileName.None? ==> r == "stem"
    ensures fileName.Some? && fileName.value != "" && !Contains(fileName.value, ".mp3") ==> r == fileName.value
  {
    if fileName.Some? && ReplaceFirst(fileName.value, ".mp3", "") != "" then ReplaceFirst(fileName.value, ".mp3", "") else "stem"
  }

  /**
   * `downloadStem`: no link without a (non-empty) stem URL; otherwise the
   * URL under the development server, saved as `<base>_<stem>.mp3`.
   */
  function DownloadStem(stemUrl: Option<string>, fileName: Option<string>, stem: string): (r: Option<Link>)
    ensures r.Some? <==> stemUrl.Some? && stemUrl.value != ""
    ensures r.Some? ==> r.value.href == DevServer + stemUrl.value
    ensures r.Some? ==> r.value.download == DownloadBase(fileName) + "_" + stem + ".mp3"
    ensures r.Some? ==> IsSuffix("_" + stem + ".mp3", r.value.download)
  {
    if stemUrl.None? || stemUrl.value == "" then None
    else
      var name := DownloadBase(fileName) + "_" + stem + ".mp3";
      assert name[|name| - |"_" + stem + ".mp3"|..] == "_" + stem + ".mp3";
      Some(Link(DevServer + stemUrl.value, name))
  }

  /**
   * Only the first `.mp3` is removed: for a name `x + ".mp3" + y` where `x`
   * holds no `.mp3`, the download base is `x + y` (when that is not empty).
   */
  lemma DownloadBaseRemovesFirstMp3(x: string, y: string)
    requires !Contains(x, ".mp3")
    requires x + y != ""
    ensures DownloadBase(Some(x + ".mp3" + y)) == x + y
  {
    var w := ".mp3";
    var s := x + w + y;
    assert OccursAt(s, w, |x|) by {
      assert s[|x|..|x| + 4] == w;
    }
    forall j | 0 <= j < |x|
      ensures !OccursAt(s, w, j)
    {
      if j + 4 <= |x| {
        assert s[j..j + 4] == x[j..j + 4];
        assert !OccursAt(x, w, j);
      } else {
        assert s[|x|] == '.';
        assert s[j..j + 4][|x| - j] == s[|x|];
      }
    }
    var i := IndexOf(s, w);
    assert i == Some(|x|);
    assert s[..|x|] + "" + s[|x| + 4..] == x + y;
  }

  /**
   * Removing the first `.mp3` leaves nothing exactly for the empty name and
   * for `.mp3` itself, so those two, like a missing name, fall back to
   * `stem`; every other name keeps what the removal leaves.
   */
  lemma DownloadBaseFallback(name: string)
    ensures ReplaceFirst(name, ".mp3", "") == "" <==> name == "" || name == ".mp3"
    ensures name == "" || name == ".mp3" ==> DownloadBase(Some(name)) == "stem"
    ensures name != "" && name != ".mp3" ==> DownloadBase(Some(name)) == ReplaceFirst(name, ".mp3", "")
  {
    if name == ".mp3" {
      assert OccursAt(name, ".mp3", 0);
      assert IndexOf(name, ".mp3") == Some(0);
    }
    match IndexOf(name, ".mp3")
    case None =>
    case Some(i) =>
      assert name[i..i + 4] == ".mp3";
      if name[..i] + name[i + 4..] == "" {
        assert i == 0 && |name| == 4;
        assert name == name[i..i + 4];
      }
  }
}
