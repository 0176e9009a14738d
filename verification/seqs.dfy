/** Lists built up piece by piece with `+=`: pieces glued end to end, the
    parallel input and target lists of the training-set builders, and the
    multiset of everything in a list of lists. */
module Seqs {

  /** The pieces glued together in order. */
  function Concat<T>(xss: seq<seq<T>>): seq<T> {
    if |xss| == 0 then [] else Concat(xss[..|xss| - 1]) + xss[|xss| - 1]
  }

  lemma ConcatAppend<T>(xss: seq<seq<T>>, xs: seq<T>)
    ensures Concat(xss + [xs]) == Concat(xss) + xs
  {
    assert (xss + [xs])[..|xss|] == xss;
  }

  /** Everything held in the pieces, counted with multiplicity. */
  ghost function Bag<T>(xss: seq<seq<T>>): multiset<T> {
    if |xss| == 0 then multiset{} else multiset(xss[0]) + Bag(xss[1..])
  }

  /** Two parallel lists: inputs and the targets that go with them. */
  datatype Pairs<T> = Pairs(inputs: seq<T>, targets: seq<T>)

  /** The lists of several contributions appended one after the other, in
      order, as a loop of `inputs += …; targets += …` builds them. */
  function Join<T>(ps: seq<Pairs<T>>): Pairs<T> {
    if |ps| == 0 then Pairs([], [])
    else
      var front := Join(ps[..|ps| - 1]);
      Pairs(front.inputs + ps[|ps| - 1].inputs, front.targets + ps[|ps| - 1].targets)
  }

  lemma JoinAppend<T>(ps: seq<Pairs<T>>, p: Pairs<T>)
    ensures Join(ps + [p]) == Pairs(Join(ps).inputs + p.inputs, Join(ps).targets + p.targets)
  {
    assert (ps + [p])[..|ps|] == ps;
  }
}
