/** The symbol decoder of decode_data.py: each (x, y, delta) row of model
    output is resolved to the nearest vocabulary word, a copy of that word's
    canonical element is stamped with a sequential id and a running offset
    snapped to the sixteenth-note grid, and inserted into a fresh stream. */
module Decoder {
  import opened Results
  import opened Music
  import opened Decimal
  import opened Rounding
  import opened Vectors

  /** The `w2v_vocab` blob: coordinates and the words they belong to, as two
      parallel lists. */
  datatype Vocabulary = Vocabulary(coords: seq<Coord>, words: seq<string>)

  /** The exceptions that abort `data_to_stream`: `np.argmin` of an empty
      array, an index past the end of `words`, a word missing from the
      dictionary. */
  datatype DecodeError = EmptyVocabulary | WordIndexOutOfRange(index: nat) | UnknownSymbol(key: string)

  function SquaredDistance(a: Coord, b: Coord): real {
    (a.x - b.x) * (a.x - b.x) + (a.y - b.y) * (a.y - b.y)
  }

  /** `np.sum((coords - coord)**2, axis=1)`. */
  function Distances(q: Coord, coords: seq<Coord>): (ds: seq<real>)
    ensures |ds| == |coords|
    ensures forall j :: 0 <= j < |coords| ==> ds[j] == SquaredDistance(coords[j], q)
  {
    seq(|coords|, j requires 0 <= j < |coords| => SquaredDistance(coords[j], q))
  }

  /** `np.argmin`: the index of the smallest value; among equal smallest
      values, the first. */
  function ArgMin(ds: seq<real>): (i: nat)
    requires |ds| > 0
    ensures i < |ds|
    ensures forall j :: 0 <= j < |ds| ==> ds[i] <= ds[j]
    ensures forall j :: 0 <= j < i ==> ds[i] < ds[j]
  {
    if |ds| == 1 then 0
    else
      var i := ArgMin(ds[..|ds| - 1]);
      if ds[|ds| - 1] < ds[i] then |ds| - 1 else i
  }

  /** The index `name_closest_coord` picks: nearest to the query, and the
      lowest such index when several are equally near. */
  function ClosestIndex(q: Coord, coords: seq<Coord>): (i: nat)
    requires |coords| > 0
    ensures i < |coords|
    ensures forall j :: 0 <= j < |coords| ==> SquaredDistance(coords[i], q) <= SquaredDistance(coords[j], q)
    ensures forall j :: 0 <= j < i ==> SquaredDistance(coords[i], q) < SquaredDistance(coords[j], q)
  {
    ArgMin(Distances(q, coords))
  }

  /** The two properties of `ClosestIndex` pin it down: no other index has
      them, so the choice is deterministic, ties included. */
  lemma ClosestIndexUnique(q: Coord, coords: seq<Coord>, k: nat)
    requires k < |coords|
    requires forall j :: 0 <= j < |coords| ==> SquaredDistance(coords[k], q) <= SquaredDistance(coords[j], q)
    requires forall j :: 0 <= j < k ==> SquaredDistance(coords[k], q) < SquaredDistance(coords[j], q)
    ensures ClosestIndex(q, coords) == k
  {
  }

  /** `name_closest_coord`: the word of the nearest coordinate. */
  function NameClosestCoord(q: Coord, vocab: Vocabulary): (r: Result<string, DecodeError>)
    ensures |vocab.coords| == 0 ==> r == Failure(EmptyVocabulary)
    ensures 0 < |vocab.coords| <= |vocab.words| ==> r == Success(vocab.words[ClosestIndex(q, vocab.coords)])
    ensures r.Success? ==> r.value in vocab.words
  {
    if |vocab.coords| == 0 then Failure(EmptyVocabulary)
    else
      var i := ClosestIndex(q, vocab.coords);
      if i < |vocab.words| then Success(vocab.words[i]) else Failure(WordIndexOutOfRange(i))
  }

  /** A query strictly nearer to one vocabulary point than to all others
      returns that point's word. */
  lemma NameClosestUnique(q: Coord, vocab: Vocabulary, i: nat)
    requires i < |vocab.coords| <= |vocab.words|
    requires forall j | 0 <= j < |vocab.coords| && j != i ::
               SquaredDistance(vocab.coords[i], q) < SquaredDistance(vocab.coords[j], q)
    ensures NameClosestCoord(q, vocab) == Success(vocab.words[i])
  {
    var k := ClosestIndex(q, vocab.coords);
    assert SquaredDistance(vocab.coords[k], q) <= SquaredDistance(vocab.coords[i], q);
  }

  /** The offset after `n` rows: the running sum of their quantised steps,
      starting from 0. */
  function PrefixOffset(data: seq<Triple>, n: nat): (o: real)
    requires n <= |data|
    ensures OnGrid(o)
    ensures n == 0 ==> o == 0.0
  {
    if n == 0 then 0.0
    else
      var before := PrefixOffset(data, n - 1);
      var step := Quantise(data[n - 1].delta);
      OnGridArithmetic(before, step);
      before + step
  }
  /** Each row moves the running offset by its delta, snapped to the grid:
      never more than an eighth of a quarter away from the raw delta. */
  lemma PrefixOffsetStep(data: seq<Triple>, n: nat)
    requires 0 < n <= |data|
    ensures -0.125 <= PrefixOffset(data, n) - PrefixOffset(data, n - 1) - data[n - 1].delta <= 0.125
  {
    assert PrefixOffset(data, n) == PrefixOffset(data, n - 1) + Quantise(data[n - 1].delta);
  }


  /** The deep copy of a dictionary entry stamped with the row's id and
      offset; what sounds, its duration and velocity are copied unchanged. */
  function Stamp(entry: Element, k: nat, offset: real): (e: Element)
    ensures e.sound == entry.sound && e.duration == entry.duration && e.velocity == entry.velocity
    ensures e.id == NatToString(k) && e.offset == offset
  {
    Element(entry.sound, offset, entry.duration, entry.velocity, NatToString(k))
  }

  /** The word row `j` resolves to. */
  function SymbolAt(data: seq<Triple>, vocab: Vocabulary, j: nat): Result<string, DecodeError>
    requires j < |data|
  {
    NameClosestCoord(Coord(data[j].x, data[j].y), vocab)
  }

  /** Rows `j` whose word is found and is a dictionary key. */
  predicate Resolvable(data: seq<Triple>, dict: map<string, Element>, vocab: Vocabulary, j: nat)
    requires j < |data|
  {
    SymbolAt(data, vocab, j).Success? && SymbolAt(data, vocab, j).value in dict
  }

  /** The stamped element for row `j` of a resolvable row. */
  function Stamped(data: seq<Triple>, dict: map<string, Element>, vocab: Vocabulary, j: nat): Element
    requires j < |data| && Resolvable(data, dict, vocab, j)
  {
    Stamp(dict[SymbolAt(data, vocab, j).value], j, PrefixOffset(data, j + 1))
  }

  /** The loop of `data_to_stream` from row `k` on, with the running offset
      `current`, producing the element to insert for every row; the first
      row whose lookup raises aborts the whole decoding. */
  function Resolve(data: seq<Triple>, dict: map<string, Element>, vocab: Vocabulary, k: nat, current: real)
    : (r: Result<seq<Element>, DecodeError>)
    requires k <= |data|
    requires current == PrefixOffset(data, k)
    ensures r.Success? <==> forall j | k <= j < |data| :: Resolvable(data, dict, vocab, j)
    ensures r.Success? ==> |r.value| == |data| - k
    ensures r.Success? ==> forall j | 0 <= j < |r.value| :: r.value[j] == Stamped(data, dict, vocab, k + j)
    decreases |data| - k
  {
    if k == |data| then Success([])
    else
      var offset := current + Quantise(data[k].delta);
      var symbol := SymbolAt(data, vocab, k);
      if symbol.Failure? then
        assert !Resolvable(data, dict, vocab, k);
        Failure(symbol.error)
      else if symbol.value !in dict then
        assert !Resolvable(data, dict, vocab, k);
        Failure(UnknownSymbol(symbol.value))
      else
        var rest :- Resolve(data, dict, vocab, k + 1, offset);
        var e := Stamp(dict[symbol.value], k, offset);
        assert e == Stamped(data, dict, vocab, k);
        StampedCons(data, dict, vocab, k, rest);
        Success([e] + rest)
  }

  /** Putting row `k`'s element in front of the elements of rows `k + 1`
      on gives the elements of rows `k` on. */
  lemma StampedCons(data: seq<Triple>, dict: map<string, Element>, vocab: Vocabulary, k: nat, rest: seq<Element>)
    requires k < |data|
    requires forall j | k <= j < |data| :: Resolvable(data, dict, vocab, j)
    requires |rest| == |data| - (k + 1)
    requires forall j | 0 <= j < |rest| :: rest[j] == Stamped(data, dict, vocab, k + 1 + j)
    ensures forall j | 0 <= j < |data| - k :: ([Stamped(data, dict, vocab, k)] + rest)[j] == Stamped(data, dict, vocab, k + j)
  {
    forall j | 1 <= j < |data| - k ensures ([Stamped(data, dict, vocab, k)] + rest)[j] == Stamped(data, dict, vocab, k + j) {
      assert rest[j - 1] == Stamped(data, dict, vocab, k + 1 + (j - 1));
    }
  }

  /** Inserting into the music21 stream, one element after the other; an
      element the stream rejects (`accept` false) is skipped and decoding
      goes on. */
  function InsertAll(accept: (seq<Element>, Element) -> bool, stream: seq<Element>, items: seq<Element>)
    : (r: seq<Element>)
    ensures |stream| <= |r| <= |stream| + |items|
    ensures r[..|stream|] == stream
    ensures forall e | e in r[|stream|..] :: e in items
    ensures |items| > 0 && accept(stream, items[0]) ==> |r| > |stream| && r[|stream|] == items[0]
    ensures (forall s, e :: !accept(s, e)) ==> r == stream
    decreases |items|
  {
    if |items| == 0 then stream
    else
      var next := if accept(stream, items[0]) then stream + [items[0]] else stream;
      var r := InsertAll(accept, next, items[1..]);
      assert r[..|stream|] == r[..|next|][..|stream|];
      assert forall e | e in r[|stream|..] :: e in r[|next|..] || e == items[0] by {
        forall e | e in r[|stream|..] ensures e in r[|next|..] || e == items[0] {
          var t :| |stream| <= t < |r| && r[t] == e;
          if t >= |next| {
            assert r[|next|..][t - |next|] == e;
          }
        }
      }
      r
  }

  /** Inserting one more item: it is appended exactly when the stream built
      from the items before it accepts it. Together with `InsertAll(accept,
      stream, []) == stream` this pins down the result item by item. */
  lemma {:induction false} InsertAllSnoc(accept: (seq<Element>, Element) -> bool, stream: seq<Element>,
                                         items: seq<Element>, x: Element)
    ensures var before := InsertAll(accept, stream, items);
            InsertAll(accept, stream, items + [x]) == if accept(before, x) then before + [x] else before
    decreases |items|
  {
    if |items| > 0 {
      var next := if accept(stream, items[0]) then stream + [items[0]] else stream;
      assert (items + [x])[0] == items[0];
      assert (items + [x])[1..] == items[1..] + [x];
      InsertAllSnoc(accept, next, items[1..], x);
    }
  }

  /** When the stream accepts every element, nothing is skipped. */
  lemma {:induction false} InsertAllAcceptingEverything(accept: (seq<Element>, Element) -> bool, stream: seq<Element>, items: seq<Element>)
    requires forall s, e :: accept(s, e)
    ensures InsertAll(accept, stream, items) == stream + items
    decreases |items|
  {
    if |items| > 0 {
      InsertAllAcceptingEverything(accept, stream + [items[0]], items[1..]);
      assert stream + [items[0]] + items[1..] == stream + items;
    }
  }

  /** `data_to_stream`: resolve every row, then insert the stamped copies. */
  function DataToStream(data: seq<Triple>, dict: map<string, Element>, vocab: Vocabulary,
                        accept: (seq<Element>, Element) -> bool): (r: Result<seq<Element>, DecodeError>)
    ensures r.Success? <==> forall j | 0 <= j < |data| :: Resolvable(data, dict, vocab, j)
    ensures r.Success? ==> |r.value| <= |data|
  {
    var items :- Resolve(data, dict, vocab, 0, 0.0);
    Success(InsertAll(accept, [], items))
  }

  /** Every decoded element is the stamped copy made for some row `j`: it
      carries the id `str(j)`, sounds like the dictionary entry of the word
      its row resolved to, and sits on the sixteenth-note grid. */
  lemma DecodedElements(data: seq<Triple>, dict: map<string, Element>, vocab: Vocabulary,
                        accept: (seq<Element>, Element) -> bool, e: Element)
    requires DataToStream(data, dict, vocab, accept).Success?
    requires e in DataToStream(data, dict, vocab, accept).value
    ensures exists j | 0 <= j < |data| && Resolvable(data, dict, vocab, j) ::
              && e == Stamped(data, dict, vocab, j)
              && e.id == NatToString(j)
              && e.sound == dict[SymbolAt(data, vocab, j).value].sound
    ensures OnGrid(e.offset)
  {
    var items := Resolve(data, dict, vocab, 0, 0.0).value;
    var out := InsertAll(accept, [], items);
    assert out[0..] == out;
    var t :| 0 <= t < |items| && items[t] == e;
    assert e == Stamped(data, dict, vocab, t);
  }

  /** Ids of decoded elements are pairwise different. */
  lemma DecodedIdsDistinct(data: seq<Triple>, dict: map<string, Element>, vocab: Vocabulary,
                           accept: (seq<Element>, Element) -> bool, e1: Element, e2: Element)
    requires DataToStream(data, dict, vocab, accept).Success?
    requires e1 in DataToStream(data, dict, vocab, accept).value
    requires e2 in DataToStream(data, dict, vocab, accept).value
    requires e1.id == e2.id
    ensures e1 == e2
  {
    DecodedElements(data, dict, vocab, accept, e1);
    DecodedElements(data, dict, vocab, accept, e2);
    var j1 :| 0 <= j1 < |data| && Resolvable(data, dict, vocab, j1) && e1 == Stamped(data, dict, vocab, j1);
    var j2 :| 0 <= j2 < |data| && Resolvable(data, dict, vocab, j2) && e2 == Stamped(data, dict, vocab, j2);
    NatToStringInjective(j1, j2);
  }

  /** When the stream accepts everything, row `j` becomes the `j`-th element. */
  lemma DecodeAcceptingEverything(data: seq<Triple>, dict: map<string, Element>, vocab: Vocabulary,
                                  accept: (seq<Element>, Element) -> bool)
    requires forall s, e :: accept(s, e)
    requires forall j | 0 <= j < |data| :: Resolvable(data, dict, vocab, j)
    ensures DataToStream(data, dict, vocab, accept).Success?
    ensures |DataToStream(data, dict, vocab, accept).value| == |data|
    ensures forall j | 0 <= j < |data| :: DataToStream(data, dict, vocab, accept).value[j] == Stamped(data, dict, vocab, j)
  {
    var items := Resolve(data, dict, vocab, 0, 0.0).value;
    InsertAllAcceptingEverything(accept, [], items);
    assert [] + items == items;
  }
}
