/** The pipeline end to end: a stream encoded to symbol keys and offsets,
    turned into coordinate-and-step vectors, and decoded back by nearest
    word and summed, quantised steps, comes back with the same keys, the
    same offsets and ids `"0"`, `"1"`, ... — provided the offsets lie on the
    sixteenth-note grid and the vocabulary tells its words apart. */
module RoundTrip {
  import opened Results
  import opened Decimal
  import opened Rounding
  import opened Music
  import opened Encoder
  import opened Vectors
  import opened Decoder

  /** Offsets on the sixteenth-note grid. */
  ghost predicate AllOnGrid(offsets: seq<real>) {
    forall i :: 0 <= i < |offsets| ==> OnGrid(offsets[i])
  }

  /** The decoder's running offset after `n` rows is the offset of element
      `n - 1`: on the grid, quantising a step changes nothing and the steps
      telescope. */
  lemma {:induction false} OffsetsRoundTrip(symbols: seq<string>, offsets: seq<real>, coords: map<string, Coord>, n: nat)
    requires DeltaEncode(symbols, offsets, coords).Success?
    requires AllOnGrid(offsets)
    requires n <= |DeltaEncode(symbols, offsets, coords).value|
    ensures n > 0 ==> PrefixOffset(DeltaEncode(symbols, offsets, coords).value, n) == offsets[n - 1]
    ensures n == 0 ==> PrefixOffset(DeltaEncode(symbols, offsets, coords).value, n) == 0.0
  {
    var data := DeltaEncode(symbols, offsets, coords).value;
    if n > 0 {
      OffsetsRoundTrip(symbols, offsets, coords, n - 1);
      assert PrefixOffset(data, n - 1) == Previous(offsets, n - 1);
      var delta := data[n - 1].delta;
      assert delta == offsets[n - 1] - Previous(offsets, n - 1);
      OnGridArithmetic(offsets[n - 1], Previous(offsets, n - 1));
      QuantiseOnGrid(delta);
      assert PrefixOffset(data, n) == PrefixOffset(data, n - 1) + Quantise(delta);
    }
  }

  /** The words can be told apart: every two vocabulary points lie at a
      positive distance. */
  ghost predicate Separated(vocab: Vocabulary) {
    forall i, j :: 0 <= i < |vocab.coords| && 0 <= j < |vocab.coords| && i != j ==>
      SquaredDistance(vocab.coords[j], vocab.coords[i]) > 0.0
  }

  /** Word `i` sits at the coordinates the encoder gave its key. */
  ghost predicate Listed(vocab: Vocabulary, coords: map<string, Coord>, key: string) {
    exists i :: 0 <= i < |vocab.coords| && i < |vocab.words| && vocab.words[i] == key && key in coords && coords[key] == vocab.coords[i]
  }

  /** The query at a word's own point names that word. */
  lemma NameOwnPoint(vocab: Vocabulary, coords: map<string, Coord>, key: string)
    requires |vocab.coords| <= |vocab.words|
    requires Separated(vocab)
    requires Listed(vocab, coords, key)
    ensures NameClosestCoord(coords[key], vocab) == Success(key)
  {
    var i :| 0 <= i < |vocab.coords| && i < |vocab.words| && vocab.words[i] == key && key in coords && coords[key] == vocab.coords[i];
    var q := vocab.coords[i];
    assert SquaredDistance(q, q) == 0.0;
    NameClosestUnique(q, vocab, i);
  }

  /** Row `j` of the vectors of a stream decodes to the key of element `j`. */
  lemma RowResolves(stream: seq<Element>, dict: map<string, Element>, coords: map<string, Coord>, vocab: Vocabulary, j: nat)
    requires DeltaEncode(Keys(stream), Offsets(stream), coords).Success?
    requires j < |stream|
    requires |vocab.coords| <= |vocab.words| && Separated(vocab)
    requires Listed(vocab, coords, ElementKey(stream[j]))
    requires ElementKey(stream[j]) in dict
    ensures j < |DeltaEncode(Keys(stream), Offsets(stream), coords).value|
    ensures SymbolAt(DeltaEncode(Keys(stream), Offsets(stream), coords).value, vocab, j) == Success(ElementKey(stream[j]))
    ensures Resolvable(DeltaEncode(Keys(stream), Offsets(stream), coords).value, dict, vocab, j)
  {
    var data := DeltaEncode(Keys(stream), Offsets(stream), coords).value;
    var key := ElementKey(stream[j]);
    assert Keys(stream)[j] == key;
    assert Coord(data[j].x, data[j].y) == coords[key];
    NameOwnPoint(vocab, coords, key);
  }

  /** Encoding one stream into a canonical corpus, delta-encoding its keys
      and offsets and decoding the vectors again (into a stream that accepts
      every insertion) gives back one element per original element, with
      the same key, the same offset and the id of its position. */
  lemma EncodeDecodeRoundTrip(c: Corpus, stream: seq<Element>, coords: map<string, Coord>, vocab: Vocabulary,
                              accept: (seq<Element>, Element) -> bool)
    requires Canonical(c.dictionary)
    requires forall s, e :: accept(s, e)
    requires AllOnGrid(Offsets(stream))
    requires |vocab.coords| <= |vocab.words| && Separated(vocab)
    requires forall j :: 0 <= j < |stream| ==> Listed(vocab, coords, ElementKey(stream[j]))
    ensures DeltaEncode(Keys(stream), Offsets(stream), coords).Success?
    ensures var dict := StreamToData(c, stream).dictionary;
      var decoded := DataToStream(DeltaEncode(Keys(stream), Offsets(stream), coords).value, dict, vocab, accept);
      && decoded.Success?
      && |decoded.value| == |stream|
      && forall j :: 0 <= j < |stream| ==>
           && ElementKey(decoded.value[j]) == ElementKey(stream[j])
           && decoded.value[j].offset == stream[j].offset
           && decoded.value[j].id == NatToString(j)
  {
    var keys := Keys(stream);
    var offsets := Offsets(stream);
    forall i: nat ensures !Missing(keys, offsets, coords, i) {
      if i < |stream| {
        assert keys[i] == ElementKey(stream[i]);
      }
    }
    var data := DeltaEncode(keys, offsets, coords).value;
    var dict := StreamToData(c, stream).dictionary;
    AbsorbCanonical(c.dictionary, stream);
    forall j | 0 <= j < |data| ensures Resolvable(data, dict, vocab, j) {
      RowResolves(stream, dict, coords, vocab, j);
    }
    DecodeAcceptingEverything(data, dict, vocab, accept);
    var decoded := DataToStream(data, dict, vocab, accept).value;
    forall j | 0 <= j < |stream|
      ensures ElementKey(decoded[j]) == ElementKey(stream[j])
      ensures decoded[j].offset == stream[j].offset
      ensures decoded[j].id == NatToString(j)
    {
      RowDecodes(c, stream, coords, vocab, dict, data, decoded, j);
    }
  }

  /** The element decoded from row `j`. */
  lemma RowDecodes(c: Corpus, stream: seq<Element>, coords: map<string, Coord>, vocab: Vocabulary,
                   dict: map<string, Element>, data: seq<Triple>, decoded: seq<Element>, j: nat)
    requires Canonical(dict)
    requires dict == StreamToData(c, stream).dictionary
    requires AllOnGrid(Offsets(stream))
    requires |vocab.coords| <= |vocab.words| && Separated(vocab)
    requires j < |stream| && Listed(vocab, coords, ElementKey(stream[j]))
    requires DeltaEncode(Keys(stream), Offsets(stream), coords).Success?
    requires data == DeltaEncode(Keys(stream), Offsets(stream), coords).value
    requires |data| == |decoded| == |stream|
    requires forall k | 0 <= k < |data| :: Resolvable(data, dict, vocab, k)
    requires forall k | 0 <= k < |data| :: decoded[k] == Stamped(data, dict, vocab, k)
    ensures ElementKey(decoded[j]) == ElementKey(stream[j])
    ensures decoded[j].offset == stream[j].offset
    ensures decoded[j].id == NatToString(j)
  {
    var key := ElementKey(stream[j]);
    RowResolves(stream, dict, coords, vocab, j);
    OffsetsRoundTrip(Keys(stream), Offsets(stream), coords, j + 1);
    assert Offsets(stream)[j] == stream[j].offset;
    KeyIgnoresPerformance(decoded[j], dict[key]);
  }
}
