/** The symbol encoder of encode_data.py: every note or chord of a stream
    becomes its symbol key, the first element seen with a key is stored,
    normalised, as that key's canonical representative, and each stream
    contributes one list of keys and one parallel list of offsets. */
module Encoder {
  import opened Music

  /** The module-level state of encode_data.py, threaded explicitly:
      `master_dict` (key to canonical element) and the parallel lists
      `sequence_data` and `offset_data`, one entry per encoded stream. */
  datatype Corpus = Corpus(dictionary: map<string, Element>, sequences: seq<seq<string>>, offsets: seq<seq<real>>)

  /** The state before anything has been encoded. */
  const EmptyCorpus: Corpus := Corpus(map[], [], [])

  /** Keys of a stream's elements, position by position. */
  function Keys(stream: seq<Element>): (ks: seq<string>)
    ensures |ks| == |stream|
    ensures forall i :: 0 <= i < |stream| ==> ks[i] == ElementKey(stream[i])
  {
    seq(|stream|, i requires 0 <= i < |stream| => ElementKey(stream[i]))
  }

  /** Offsets of a stream's elements, position by position. */
  function Offsets(stream: seq<Element>): (os: seq<real>)
    ensures |os| == |stream|
    ensures forall i :: 0 <= i < |stream| ==> os[i] == stream[i].offset
  {
    seq(|stream|, i requires 0 <= i < |stream| => stream[i].offset)
  }

  ghost function KeySet(stream: seq<Element>): set<string> {
    set e | e in stream :: ElementKey(e)
  }

  /** No earlier element of the stream has the same key as element `i`. */
  predicate FirstWithKey(stream: seq<Element>, i: nat)
    requires i < |stream|
  {
    forall j :: 0 <= j < i ==> ElementKey(stream[j]) != ElementKey(stream[i])
  }

  /** Every entry is normalised and stored under its own key. */
  ghost predicate Canonical(dict: map<string, Element>) {
    forall k | k in dict :: ElementKey(dict[k]) == k && IsNormalised(dict[k])
  }

  /** Symbol and offset lists are parallel, stream by stream. */
  ghost predicate WellFormed(c: Corpus) {
    && |c.sequences| == |c.offsets|
    && forall i :: 0 <= i < |c.sequences| ==> |c.sequences[i]| == |c.offsets[i]|
  }

  /** The dictionary updates of one `stream_to_data` call: each element whose
      key is absent is normalised and stored; a present key is left alone. */
  function Absorb(dict: map<string, Element>, stream: seq<Element>): (d: map<string, Element>)
    ensures forall k | k in dict :: k in d && d[k] == dict[k]
    ensures d.Keys == dict.Keys + KeySet(stream)
    decreases |stream|
  {
    if |stream| == 0 then dict
    else
      var k := ElementKey(stream[0]);
      assert KeySet(stream) == {k} + KeySet(stream[1..]) by {
        assert stream == [stream[0]] + stream[1..];
      }
      Absorb(if k in dict then dict else dict[k := Normalise(stream[0])], stream[1..])
  }

  /** The entry stored for a new key is the normalised FIRST element of the
      stream that has that key; later elements with the key are not stored. */
  lemma {:induction false} AbsorbStoresFirst(dict: map<string, Element>, stream: seq<Element>, i: nat)
    requires i < |stream|
    requires ElementKey(stream[i]) !in dict
    requires FirstWithKey(stream, i)
    ensures Absorb(dict, stream)[ElementKey(stream[i])] == Normalise(stream[i])
    decreases |stream|, 1
  {
    if i == 0 {
      AbsorbStoresHead(dict, stream);
    } else {
      AbsorbStoresLater(dict, stream, i);
    }
  }

  lemma AbsorbStoresHead(dict: map<string, Element>, stream: seq<Element>)
    requires |stream| > 0
    requires ElementKey(stream[0]) !in dict
    ensures Absorb(dict, stream)[ElementKey(stream[0])] == Normalise(stream[0])
  {
    var k := ElementKey(stream[0]);
    var next := dict[k := Normalise(stream[0])];
    assert Absorb(dict, stream) == Absorb(next, stream[1..]);
  }

  lemma {:induction false} AbsorbStoresLater(dict: map<string, Element>, stream: seq<Element>, i: nat)
    requires 0 < i < |stream|
    requires ElementKey(stream[i]) !in dict
    requires FirstWithKey(stream, i)
    ensures Absorb(dict, stream)[ElementKey(stream[i])] == Normalise(stream[i])
    decreases |stream|, 0
  {
    var k := ElementKey(stream[0]);
    var next := if k in dict then dict else dict[k := Normalise(stream[0])];
    var rest := stream[1..];
    assert rest[i - 1] == stream[i];
    assert ElementKey(stream[i]) != k by {
      assert FirstWithKey(stream, i);
    }
    assert FirstWithKey(rest, i - 1) by {
      forall j | 0 <= j < i - 1 ensures ElementKey(rest[j]) != ElementKey(rest[i - 1]) {
        assert rest[j] == stream[j + 1];
      }
    }
    AbsorbStoresFirst(next, rest, i - 1);
    assert Absorb(dict, stream) == Absorb(next, rest);
  }

  /** Absorbing keeps the dictionary canonical. */
  lemma {:induction false} AbsorbCanonical(dict: map<string, Element>, stream: seq<Element>)
    requires Canonical(dict)
    ensures Canonical(Absorb(dict, stream))
    decreases |stream|
  {
    if |stream| > 0 {
      var k := ElementKey(stream[0]);
      KeyIgnoresPerformance(stream[0], stream[0]);
      var next := if k in dict then dict else dict[k := Normalise(stream[0])];
      assert Canonical(next);
      AbsorbCanonical(next, stream[1..]);
    }
  }

  /** `stream_to_data`: the dictionary absorbs the stream, and one key list and
      one offset list are appended. */
  function StreamToData(c: Corpus, stream: seq<Element>): (r: Corpus)
    ensures r.sequences == c.sequences + [Keys(stream)]
    ensures r.offsets == c.offsets + [Offsets(stream)]
    ensures forall i :: 0 <= i < |stream| ==> ElementKey(stream[i]) in r.dictionary
    ensures forall k | k in c.dictionary :: k in r.dictionary && r.dictionary[k] == c.dictionary[k]
    ensures r.dictionary.Keys == c.dictionary.Keys + KeySet(stream)
    ensures Canonical(c.dictionary) ==> Canonical(r.dictionary)
    ensures WellFormed(c) ==> WellFormed(r)
  {
    var d := Absorb(c.dictionary, stream);
    assert forall i :: 0 <= i < |stream| ==> ElementKey(stream[i]) in KeySet(stream);
    assert Canonical(c.dictionary) ==> Canonical(d) by {
      if Canonical(c.dictionary) {
        AbsorbCanonical(c.dictionary, stream);
      }
    }
    Corpus(d, c.sequences + [Keys(stream)], c.offsets + [Offsets(stream)])
  }

  /** The key lists of a list of streams. */
  function KeyLists(streams: seq<seq<Element>>): (kss: seq<seq<string>>)
    ensures |kss| == |streams|
    ensures forall i :: 0 <= i < |streams| ==> kss[i] == Keys(streams[i])
  {
    seq(|streams|, i requires 0 <= i < |streams| => Keys(streams[i]))
  }

  /** The offset lists of a list of streams. */
  function OffsetLists(streams: seq<seq<Element>>): (oss: seq<seq<real>>)
    ensures |oss| == |streams|
    ensures forall i :: 0 <= i < |streams| ==> oss[i] == Offsets(streams[i])
  {
    seq(|streams|, i requires 0 <= i < |streams| => Offsets(streams[i]))
  }

  lemma KeyListsOfTail(streams: seq<seq<Element>>)
    requires |streams| > 0
    ensures KeyLists(streams) == [Keys(streams[0])] + KeyLists(streams[1..])
  {
    var a := KeyLists(streams);
    var b := [Keys(streams[0])] + KeyLists(streams[1..]);
    forall i | 0 <= i < |a| ensures a[i] == b[i] {
      if i > 0 {
        assert streams[1..][i - 1] == streams[i];
      }
    }
  }

  lemma OffsetListsOfTail(streams: seq<seq<Element>>)
    requires |streams| > 0
    ensures OffsetLists(streams) == [Offsets(streams[0])] + OffsetLists(streams[1..])
  {
    var a := OffsetLists(streams);
    var b := [Offsets(streams[0])] + OffsetLists(streams[1..]);
    forall i | 0 <= i < |a| ensures a[i] == b[i] {
      if i > 0 {
        assert streams[1..][i - 1] == streams[i];
      }
    }
  }

  /** The keys of every element of every stream. */
  ghost function StreamKeys(streams: seq<seq<Element>>): set<string> {
    set i, j | 0 <= i < |streams| && 0 <= j < |streams[i]| :: ElementKey(streams[i][j])
  }

  lemma StreamKeysOfTail(streams: seq<seq<Element>>)
    requires |streams| > 0
    ensures StreamKeys(streams) == KeySet(streams[0]) + StreamKeys(streams[1..])
  {
    forall k | k in StreamKeys(streams) ensures k in KeySet(streams[0]) + StreamKeys(streams[1..]) {
      var i, j :| 0 <= i < |streams| && 0 <= j < |streams[i]| && k == ElementKey(streams[i][j]);
      if i == 0 {
        assert streams[0][j] in streams[0];
      } else {
        assert streams[1..][i - 1][j] == streams[i][j];
      }
    }
    forall k | k in KeySet(streams[0]) + StreamKeys(streams[1..]) ensures k in StreamKeys(streams) {
      if k in KeySet(streams[0]) {
        var e :| e in streams[0] && k == ElementKey(e);
        var j :| 0 <= j < |streams[0]| && streams[0][j] == e;
        assert ElementKey(streams[0][j]) in StreamKeys(streams);
      } else {
        var i, j :| 0 <= i < |streams[1..]| && 0 <= j < |streams[1..][i]| && k == ElementKey(streams[1..][i][j]);
        assert streams[1..][i][j] == streams[i + 1][j];
        assert ElementKey(streams[i + 1][j]) in StreamKeys(streams);
      }
    }
  }

  /** The loop of `prepare_data`: every stream of the corpus directory is
      encoded in turn into the same state; stream `i` contributes the
      `i`-th new key list and the `i`-th new offset list. */
  function EncodeAll(c: Corpus, streams: seq<seq<Element>>): (r: Corpus)
    ensures r.sequences == c.sequences + KeyLists(streams)
    ensures r.offsets == c.offsets + OffsetLists(streams)
    ensures forall k | k in c.dictionary :: k in r.dictionary && r.dictionary[k] == c.dictionary[k]
    ensures r.dictionary.Keys == c.dictionary.Keys + StreamKeys(streams)
    ensures forall i, j | 0 <= i < |streams| && 0 <= j < |streams[i]| :: ElementKey(streams[i][j]) in r.dictionary
    ensures Canonical(c.dictionary) ==> Canonical(r.dictionary)
    ensures WellFormed(c) ==> WellFormed(r)
    decreases |streams|
  {
    if |streams| == 0 then c
    else
      KeyListsOfTail(streams);
      OffsetListsOfTail(streams);
      StreamKeysOfTail(streams);
      EncodeAll(StreamToData(c, streams[0]), streams[1..])
  }

  /** Once every key of a stream is known, absorbing it changes nothing. */
  lemma AbsorbKnown(dict: map<string, Element>, stream: seq<Element>)
    requires forall e | e in stream :: ElementKey(e) in dict
    ensures Absorb(dict, stream) == dict
  {
    var d := Absorb(dict, stream);
    assert d.Keys == dict.Keys;
  }

  /** Encoding the same stream twice leaves the dictionary as after the first
      time: insertion is idempotent. */
  lemma AbsorbIdempotent(dict: map<string, Element>, stream: seq<Element>)
    ensures Absorb(Absorb(dict, stream), stream) == Absorb(dict, stream)
  {
    AbsorbKnown(Absorb(dict, stream), stream);
  }
}
