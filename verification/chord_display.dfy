/**
 * The chord display's lookup tables and keyboard: a guitar shape and a
 * piano triad per chord name, the fallbacks for unknown names, and which
 * keys of the one-octave keyboard light up.
 */
module ChordDisplay {
  import opened Base
  import opened ChordDetection

  /** One guitar chord for the diagram component: a fret and a finger per string, and the barred frets. */
  datatype Shape = Shape(frets: seq<int>, fingers: seq<int>, barres: seq<int>)

  /** The `guitarChords` table, in the order of `KeyNames`. */
  const GuitarShapes: seq<Shape> := [
    Shape([0, 3, 2, 0, 1, 0], [0, 3, 2, 0, 1, 0], []),
    Shape([-1, 4, 6, 6, 6, 4], [0, 1, 3, 4, 5, 2], []),
    Shape([-1, 0, 0, 2, 3, 2], [0, 0, 0, 1, 3, 2], []),
    Shape([-1, -1, 1, 3, 4, 3], [0, 0, 1, 2, 4, 3], []),
    Shape([0, 2, 2, 1, 0, 0], [0, 2, 3, 1, 0, 0], []),
    Shape([1, 3, 3, 2, 1, 1], [1, 3, 4, 2, 1, 1], [1]),
    Shape([2, 4, 4, 3, 2, 2], [1, 3, 4, 2, 1, 1], [2]),
    Shape([3, 2, 0, 0, 0, 3], [3, 2, 0, 0, 0, 4], []),
    Shape([4, 6, 6, 5, 4, 4], [1, 3, 4, 2, 1, 1], [4]),
    Shape([-1, 0, 2, 2, 2, 0], [0, 0, 1, 2, 3, 0], []),
    Shape([-1, 1, 3, 3, 3, 1], [0, 1, 3, 4, 5, 1], [1]),
    Shape([-1, 2, 4, 4, 4, 2], [0, 1, 3, 4, 5, 2], [])
  ]

  /** The `instrument` handed to the diagram component. */
  datatype Instrument = Instrument(strings: nat, fretsOnChord: nat, name: string, tuning: seq<string>)

  const Guitar := Instrument(6, 4, "Guitar", ["E", "A", "D", "G", "B", "E"])

  /** The `pianoChords` table, in the order of `KeyNames`. */
  const PianoChords: seq<seq<int>> := [
    [0, 4, 7], [1, 5, 8], [2, 6, 9], [3, 7, 10],
    [4, 8, 11], [5, 9, 0], [6, 10, 1], [7, 11, 2],
    [8, 0, 3], [9, 1, 4], [10, 2, 5], [11, 3, 6]
  ]

  /** The piano fallback `[0, 4, 7]`. */
  const DefaultPianoKeys: seq<int> := [0, 4, 7]

  /** The position of `name` among the table keys, if it is one. */
  function NameIndexFrom(name: string, from: nat): (r: Option<nat>)
    requires from <= |KeyNames|
    ensures r.Some? ==> from <= r.value < |KeyNames| && KeyNames[r.value] == name
    ensures r.None? ==> forall i :: from <= i < |KeyNames| ==> KeyNames[i] != name
    decreases |KeyNames| - from
  {
    if from == |KeyNames| then None
    else if KeyNames[from] == name then Some(from)
    else NameIndexFrom(name, from + 1)
  }

  /** Property lookup in one of the tables: the key's position, or nothing for an unknown name. */
  function NameIndex(name: string): (r: Option<nat>)
    ensures r.Some? ==> r.value < PitchClasses && KeyNames[r.value] == name
    ensures r.None? <==> name !in KeyNames
  {
    NameIndexFrom(name, 0)
  }

  /** Looking up a table key finds that key's own row. */
  lemma NameIndexOfKey(r: nat)
    requires r < PitchClasses
    ensures NameIndex(KeyNames[r]) == Some(r)
  {
    KeyNamesDistinct();
  }

  /** `guitarChords[chord] || guitarChords['C']`. */
  function GuitarShapeFor(name: string): (s: Shape)
    ensures name in KeyNames ==> exists r :: 0 <= r < PitchClasses && KeyNames[r] == name && s == GuitarShapes[r]
    ensures name !in KeyNames ==> s == GuitarShapes[0]
  {
    match NameIndex(name)
    case Some(r) => GuitarShapes[r]
    case None => GuitarShapes[0]
  }

  /** `pianoChords[chordName] || [0, 4, 7]`. */
  function PianoKeysFor(name: string): (keys: seq<int>)
    ensures name in KeyNames ==> exists r :: 0 <= r < PitchClasses && KeyNames[r] == name && keys == PianoChords[r]
    ensures name !in KeyNames ==> keys == DefaultPianoKeys
  {
    match NameIndex(name)
    case Some(r) => PianoChords[r]
    case None => DefaultPianoKeys
  }

  /** Both fallbacks are the C chord: the guitar shape is the table's `C`, and `[0, 4, 7]` is the C triad. */
  lemma FallbacksAreC(name: string)
    requires name !in KeyNames
    ensures GuitarShapeFor(name) == GuitarShapeFor("C")
    ensures PianoKeysFor(name) == PianoKeysFor("C") == PianoChords[0]
  {
    NameIndexOfKey(0);
  }

  /** The piano entry for the chord at index `r` is root, major third, fifth. */
  lemma PianoChordIsTriad(r: nat)
    requires r < PitchClasses
    ensures |PianoChords| == PitchClasses
    ensures PianoChords[r] == [r, (r + 4) % 12, (r + 7) % 12]
  {
  }

  /** As sets, the piano triads are the 1-positions of the analyser's template of the same name. */
  lemma PianoChordMatchesTemplate(r: nat, p: nat)
    requires r < PitchClasses && p < PitchClasses
    ensures p in PianoChords[r] <==> Templates[r][p] == 1
  {
    PianoChordIsTriad(r);
    TemplateEntry(r, p);
  }

  /** Every guitar shape fits the six-string instrument: a fret per string, -1 for a muted string. */
  lemma GuitarShapesFitInstrument(r: nat)
    requires r < PitchClasses
    ensures |GuitarShapes| == PitchClasses && |Guitar.tuning| == Guitar.strings
    ensures var s := GuitarShapes[r];
      && |s.frets| == Guitar.strings && |s.fingers| == Guitar.strings
      && (forall k :: 0 <= k < |s.frets| ==> s.frets[k] >= -1)
  {
  }

  /** Fingers are numbered 0 (none) to 5, and every barre lies on a fret the shape uses. */
  lemma GuitarFingersAndBarres(r: nat)
    requires r < PitchClasses
    ensures |GuitarShapes| == PitchClasses
    ensures var s := GuitarShapes[r];
      && (forall k :: 0 <= k < |s.fingers| ==> 0 <= s.fingers[k] <= 5)
      && (forall b :: b in s.barres ==> b >= 1 && b in s.frets)
  {
  }

  // ---------------------------------------------------------------------------
  // The keyboard

  /** The pitch classes of the seven white keys, left to right. */
  const WhiteKeys: seq<int> := [0, 2, 4, 5, 7, 9, 11]

  /** The black-key array read by slots 0 to 6; -1 marks the gap between E and F. */
  const BlackKeySlots: seq<int> := [1, 3, -1, 6, 8, 10]

  /** The number of slots the black-key row maps over. */
  const SlotCount := 7

  /** What one black-key slot reads: the gap marker, a pitch class, or `undefined` past the array's end. */
  datatype SlotValue = Gap | Pitch(p: int) | Undefined

  function BlackKeySlot(i: nat): (v: SlotValue)
    requires i < SlotCount
  {
    if i >= |BlackKeySlots| then Undefined
    else if BlackKeySlots[i] == -1 then Gap
    else Pitch(BlackKeySlots[i])
  }

  /** What a slot renders: a spacer, or a black key, lit or not. */
  datatype SlotView = Spacer | BlackKey(lit: bool)

  /** `keys.includes(v)`: never true for `undefined`, since the keys are numbers. */
  predicate IncludesSlot(keys: seq<int>, v: SlotValue) {
    v.Pitch? && v.p in keys
  }

  /** The rendered keyboard for a chord's keys: each white key's highlight, then each black slot. */
  datatype Keyboard = Keyboard(white: seq<bool>, black: seq<SlotView>)

  function RenderKeyboard(keys: seq<int>): (k: Keyboard)
    ensures |k.white| == |WhiteKeys| && |k.black| == SlotCount
    ensures forall w :: 0 <= w < |WhiteKeys| ==> (k.white[w] <==> WhiteKeys[w] in keys)
    ensures forall i :: 0 <= i < SlotCount ==>
      k.black[i] == if BlackKeySlot(i).Gap? then Spacer else BlackKey(IncludesSlot(keys, BlackKeySlot(i)))
  {
    Keyboard(seq(|WhiteKeys|, w requires 0 <= w < |WhiteKeys| => WhiteKeys[w] in keys),
             seq(SlotCount, i requires 0 <= i < SlotCount =>
               if BlackKeySlot(i).Gap? then Spacer else BlackKey(IncludesSlot(keys, BlackKeySlot(i)))))
  }

  /** The pitch classes the black keys show. */
  function BlackPitches(): set<int> {
    set i | 0 <= i < |BlackKeySlots| && BlackKeySlots[i] != -1 :: BlackKeySlots[i]
  }

  /** White and black keys are disjoint and together cover all twelve pitch classes. */
  lemma KeyboardPartition()
    ensures BlackPitches() == {1, 3, 6, 8, 10}
    ensures (set w | w in WhiteKeys) !! BlackPitches()
    ensures forall p :: 0 <= p < 12 <==> p in WhiteKeys || p in BlackPitches()
  {
    assert BlackKeySlots[0] == 1 && BlackKeySlots[1] == 3 && BlackKeySlots[3] == 6;
    assert BlackKeySlots[4] == 8 && BlackKeySlots[5] == 10;
  }

  /**
   * Slot 2 is the spacer between E and F; slot 6 reads past the array, so it
   * draws a black key that no chord ever lights; the other slots are lit
   * exactly when their pitch class is in the chord.
   */
  lemma SlotsRenderAsWritten(keys: seq<int>)
    ensures var k := RenderKeyboard(keys);
      && k.black[2] == Spacer
      && k.black[6] == BlackKey(false)
      && forall i :: 0 <= i < 6 && i != 2 ==> k.black[i] == BlackKey(BlackKeySlots[i] in keys)
  {
  }

  /** The white keys that show pitch class `p`. */
  function WhitePlaces(p: int): set<nat> {
    set w: nat | w < |WhiteKeys| && WhiteKeys[w] == p
  }

  /** The black-key slots that show pitch class `p`. */
  function BlackPlaces(p: int): set<nat> {
    set i: nat | i < SlotCount && BlackKeySlot(i) == Pitch(p)
  }

  /**
   * Every pitch class is shown by exactly one key of the keyboard, so a
   * chord's note lights exactly one key.
   */
  lemma PitchShownOnce(p: int)
    requires 0 <= p < 12
    ensures |WhitePlaces(p)| + |BlackPlaces(p)| == 1
  {
    if p in WhiteKeys {
      var w :| 0 <= w < |WhiteKeys| && WhiteKeys[w] == p;
      assert WhitePlaces(p) == {w};
      assert BlackPlaces(p) == {};
    } else {
      var i := if p == 1 then 0 else if p == 3 then 1 else if p == 6 then 3 else if p == 8 then 4 else 5;
      assert BlackKeySlot(i) == Pitch(p);
      assert WhitePlaces(p) == {};
      assert BlackPlaces(p) == {i};
    }
  }

  // ---------------------------------------------------------------------------
  // Diagrams

  datatype ViewMode = GuitarView | PianoView

  /** One card: the chord's name and its guitar shape or piano keyboard. */
  datatype Diagram = GuitarDiagram(title: string, shape: Shape) | PianoDiagram(title: string, keyboard: Keyboard)

  /** `result.chords.map(...)`: one card per detected chord, in order, drawn for the selected view. */
  function Diagrams(chords: seq<string>, mode: ViewMode): (r: seq<Diagram>)
    ensures |r| == |chords|
    ensures forall i :: 0 <= i < |chords| ==> r[i].title == chords[i]
    ensures forall i :: 0 <= i < |chords| ==>
      r[i] == if mode == GuitarView then GuitarDiagram(chords[i], GuitarShapeFor(chords[i]))
              else PianoDiagram(chords[i], RenderKeyboard(PianoKeysFor(chords[i])))
  {
    seq(|chords|, i requires 0 <= i < |chords| =>
      if mode == GuitarView then GuitarDiagram(chords[i], GuitarShapeFor(chords[i]))
      else PianoDiagram(chords[i], RenderKeyboard(PianoKeysFor(chords[i]))))
  }

  /** The piano card of a detected chord lights exactly the analyser's template notes among the white keys. */
  lemma PianoCardMatchesTemplate(r: nat, w: nat)
    requires r < PitchClasses && w < |WhiteKeys|
    ensures var k := RenderKeyboard(PianoKeysFor(KeyNames[r]));
      k.white[w] <==> Templates[r][WhiteKeys[w]] == 1
  {
    NameIndexOfKey(r);
    PianoChordMatchesTemplate(r, WhiteKeys[w]);
  }
}
