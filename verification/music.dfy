/** The musical objects the encoder and decoder handle: single notes and chords
    with their timing and loudness, the canonical form stored in the symbol
    dictionary, and the symbol key of `element_to_key`. */
module Music {

  /** A pitch as music21 reports it: its spelling (`str(pitch)`, e.g. "C4" or
      "E-4") and its MIDI number (`pitch.midi`). */
  datatype Pitch = Pitch(name: string, midi: int)

  /** What sounds: one pitch, or a chord of several. */
  datatype Sound = Note(pitch: Pitch) | Chord(pitches: seq<Pitch>)

  /** A note or chord placed in a stream: what sounds, when (offset in quarter
      lengths), for how long, how loudly and under which id. */
  datatype Element = Element(sound: Sound, offset: real, duration: real, velocity: int, id: string)

  /** The fields `stream_to_data` resets before storing a dictionary entry. */
  const CanonicalOffset: real := 0.0
  const CanonicalDuration: real := 1.0
  const CanonicalVelocity: int := 100
  const CanonicalId: string := "none"

  predicate IsNormalised(e: Element) {
    && e.offset == CanonicalOffset
    && e.duration == CanonicalDuration
    && e.velocity == CanonicalVelocity
    && e.id == CanonicalId
  }

  /** The canonical representative of an element: same sound, timing,
      loudness and id reset. */
  function Normalise(e: Element): (r: Element)
    ensures IsNormalised(r)
    ensures r.sound == e.sound
  {
    Element(e.sound, CanonicalOffset, CanonicalDuration, CanonicalVelocity, CanonicalId)
  }

  lemma NormaliseIdempotent(e: Element)
    ensures Normalise(Normalise(e)) == Normalise(e)
    ensures IsNormalised(e) ==> Normalise(e) == e
  {
  }

  predicate SortedByMidi(ps: seq<Pitch>) {
    forall i, j :: 0 <= i < j < |ps| ==> ps[i].midi <= ps[j].midi
  }

  /** No pitch of `ps` is below MIDI number `m`. */
  predicate AllAtLeast(m: int, ps: seq<Pitch>) {
    forall q | q in ps :: m <= q.midi
  }

  lemma AllAtLeastPermutation(m: int, a: seq<Pitch>, b: seq<Pitch>)
    requires multiset(a) == multiset(b)
    requires AllAtLeast(m, a)
    ensures AllAtLeast(m, b)
  {
    forall q | q in b ensures m <= q.midi {
      assert q in multiset(b);
      assert q in a;
    }
  }

  lemma SortedCons(x: Pitch, rest: seq<Pitch>)
    requires SortedByMidi(rest) && AllAtLeast(x.midi, rest)
    ensures SortedByMidi([x] + rest)
  {
    forall i, j | 0 <= i < j < |[x] + rest| ensures ([x] + rest)[i].midi <= ([x] + rest)[j].midi {
      if i == 0 {
        assert ([x] + rest)[j] == rest[j - 1];
        assert rest[j - 1] in rest;
      } else {
        assert ([x] + rest)[i] == rest[i - 1];
        assert ([x] + rest)[j] == rest[j - 1];
      }
    }
  }

  function InsertPitch(p: Pitch, ps: seq<Pitch>): (r: seq<Pitch>)
    requires SortedByMidi(ps)
    ensures SortedByMidi(r)
    ensures multiset(r) == multiset(ps) + multiset{p}
  {
    if |ps| == 0 || p.midi <= ps[0].midi then
      [p] + ps
    else
      var rest := InsertPitch(p, ps[1..]);
      assert ps == [ps[0]] + ps[1..];
      assert AllAtLeast(ps[0].midi, ps[1..] + [p]);
      AllAtLeastPermutation(ps[0].midi, ps[1..] + [p], rest);
      SortedCons(ps[0], rest);
      assert multiset([ps[0]] + rest) == multiset{ps[0]} + multiset(rest);
      [ps[0]] + rest
  }

  /** `chord.sortAscending()`, ordered here by MIDI number: a permutation of
      the chord's pitches from lowest to highest, equal MIDI numbers keeping
      their order. music21 orders by diatonic step first and pitch space
      second; the two orders agree on the one spelling per pitch class that
      MIDI import gives (C, C#, D, E-, E, F, F#, G, G#, A, B-, B). */
  function SortAscending(ps: seq<Pitch>): (r: seq<Pitch>)
    ensures SortedByMidi(r)
    ensures multiset(r) == multiset(ps)
  {
    if |ps| == 0 then []
    else
      assert ps == [ps[0]] + ps[1..];
      InsertPitch(ps[0], SortAscending(ps[1..]))
  }

  /** Concatenation of the pitch spellings, in order. */
  function PitchNames(ps: seq<Pitch>): string {
    if |ps| == 0 then "" else ps[0].name + PitchNames(ps[1..])
  }

  /** `element_to_key` on what sounds. */
  function SoundKey(s: Sound): string {
    match s
    case Note(p) => "Note" + p.name
    case Chord(ps) => "Chord" + PitchNames(SortAscending(ps))
  }

  /** `element_to_key`: the dictionary key of a note or chord. */
  function ElementKey(e: Element): string {
    SoundKey(e.sound)
  }

  /** The key depends on what sounds and on nothing else: offset, duration,
      velocity and id never change it; in particular normalising keeps it. */
  lemma KeyIgnoresPerformance(e1: Element, e2: Element)
    requires e1.sound == e2.sound
    ensures ElementKey(e1) == ElementKey(e2)
    ensures ElementKey(Normalise(e1)) == ElementKey(e1)
  {
  }

  /** No two different pitches of the chord share a MIDI number. */
  predicate ConsistentSpelling(ps: seq<Pitch>) {
    forall p, q | p in ps && q in ps && p.midi == q.midi :: p == q
  }

  lemma MultisetTail<T>(a: seq<T>)
    requires |a| > 0
    ensures multiset(a[1..]) == multiset(a) - multiset{a[0]}
  {
    assert a == [a[0]] + a[1..];
  }

  /** Two sorted arrangements of the same pitches start with the same pitch. */
  lemma SortedHeadsEqual(a: seq<Pitch>, b: seq<Pitch>)
    requires |a| > 0 && |b| > 0
    requires SortedByMidi(a) && SortedByMidi(b)
    requires multiset(a) == multiset(b)
    requires ConsistentSpelling(a)
    ensures a[0] == b[0]
  {
    assert a[0] in multiset(b);
    assert b[0] in multiset(a);
    var i :| 0 <= i < |b| && b[i] == a[0];
    var j :| 0 <= j < |a| && a[j] == b[0];
    assert b[0].midi <= a[0].midi;
    assert a[0].midi <= b[0].midi;
  }

  lemma SortedTail(a: seq<Pitch>)
    requires |a| > 0 && SortedByMidi(a)
    ensures SortedByMidi(a[1..])
  {
  }

  lemma ConsistentTail(a: seq<Pitch>)
    requires |a| > 0 && ConsistentSpelling(a)
    ensures ConsistentSpelling(a[1..])
  {
    assert forall p | p in a[1..] :: p in a;
  }

  lemma PermutationTails(a: seq<Pitch>, b: seq<Pitch>)
    requires |a| > 0 && |b| > 0 && a[0] == b[0]
    requires multiset(a) == multiset(b)
    ensures multiset(a[1..]) == multiset(b[1..])
  {
    MultisetTail(a);
    MultisetTail(b);
  }

  lemma HeadTailEqual(a: seq<Pitch>, b: seq<Pitch>)
    requires |a| > 0 && |b| > 0 && a[0] == b[0] && a[1..] == b[1..]
    ensures a == b
  {
    assert a == [a[0]] + a[1..];
    assert b == [b[0]] + b[1..];
  }

  lemma PermutationLength(a: seq<Pitch>, b: seq<Pitch>)
    requires multiset(a) == multiset(b)
    ensures |a| == |b|
  {
    assert |a| == |multiset(a)|;
    assert |b| == |multiset(b)|;
  }

  lemma {:induction false} SortedPermutationsEqual(a: seq<Pitch>, b: seq<Pitch>)
    requires SortedByMidi(a) && SortedByMidi(b)
    requires multiset(a) == multiset(b)
    requires ConsistentSpelling(a)
    ensures a == b
    decreases |a|
  {
    PermutationLength(a, b);
    if |a| > 0 {
      SortedHeadsEqual(a, b);
      SortedTail(a);
      SortedTail(b);
      ConsistentTail(a);
      PermutationTails(a, b);
      SortedPermutationsEqual(a[1..], b[1..]);
      HeadTailEqual(a, b);
    }
  }

  /** A chord's key does not depend on the order its pitches are listed in:
      two chords with the same pitches (no enharmonic duplicates) get one key. */
  lemma ChordKeyOrderIndependent(ps: seq<Pitch>, qs: seq<Pitch>)
    requires multiset(ps) == multiset(qs)
    requires ConsistentSpelling(ps)
    ensures SoundKey(Chord(ps)) == SoundKey(Chord(qs))
  {
    var a := SortAscending(ps);
    var b := SortAscending(qs);
    assert forall p | p in a :: p in ps by {
      forall p | p in a ensures p in ps {
        assert p in multiset(a);
      }
    }
    SortedPermutationsEqual(a, b);
  }

  /** A note's key never equals a chord's key, and two notes share a key only
      when their pitches are spelled alike. */
  lemma KeyKinds(p: Pitch, q: Pitch, ps: seq<Pitch>)
    ensures SoundKey(Note(p)) != SoundKey(Chord(ps))
    ensures SoundKey(Note(p)) == SoundKey(Note(q)) <==> p.name == q.name
  {
    assert SoundKey(Note(p))[0] == 'N';
    assert SoundKey(Chord(ps))[0] == 'C';
    if SoundKey(Note(p)) == SoundKey(Note(q)) {
      assert p.name == SoundKey(Note(p))[4..];
      assert q.name == SoundKey(Note(q))[4..];
    }
  }
}
