/** The per-source results of one run and the diff against the announced
    codes: which codes are new, and which sources reported them. */
module Diff {
  import opened StringOrder

  predicate Distinct(xs: seq<string>)
  {
    forall i, j :: 0 <= i < j < |xs| ==> xs[i] != xs[j]
  }

  /** xs is ys with some elements dropped and the rest kept in order. */
  predicate Subsequence(xs: seq<string>, ys: seq<string>)
    decreases |ys|
  {
    if xs == [] then true
    else if ys == [] then false
    else (xs[0] == ys[0] && Subsequence(xs[1..], ys[1..])) || Subsequence(xs, ys[1..])
  }

  /** The `per_source` dictionary: source name to the codes found there,
      with the names in insertion order. */
  datatype PerSource = PerSource(order: seq<string>, codes: map<string, set<string>>)
  {
    ghost predicate Valid()
    {
      Distinct(order) && forall n :: n in codes <==> n in order
    }

    /** Assigning the codes found under a name (scripts/fetch_codes.py:64, :67):
        a new name goes last, an existing name keeps its place and gets the
        new value. */
    function Put(name: string, found: set<string>): (p: PerSource)
      requires Valid()
      ensures p.Valid()
      ensures p.codes == codes[name := found]
      ensures name in order ==> p.order == order
      ensures name !in order ==> p.order == order + [name]
    {
      PerSource(if name in codes then order else order + [name], codes[name := found])
    }
  }

  const Empty: PerSource := PerSource([], map[])

  /** The union of the codes found at every source (scripts/fetch_codes.py:69). */
  function AllCodes(p: PerSource): (all: set<string>)
    ensures forall c :: c in all <==> exists n :: n in p.codes && c in p.codes[n]
  {
    set n, c | n in p.codes && c in p.codes[n] :: c
  }

  /** The codes found anywhere and not announced before, in ascending order
      (scripts/fetch_codes.py:70). */
  function NewCodes(p: PerSource, state: set<string>): (newCodes: seq<string>)
    ensures StrictlyAscending(newCodes)
    ensures forall c :: c in newCodes <==> c in AllCodes(p) && c !in state
  {
    SortSet(AllCodes(p) - state)
  }

  /** Some new code is among the codes found at a source (scripts/fetch_codes.py:76). */
  predicate Shares(found: set<string>, newCodes: seq<string>)
  {
    exists c :: c in newCodes && c in found
  }

  /** The names in `order`, kept in order, whose codes share one with the new codes. */
  function Hits(order: seq<string>, codes: map<string, set<string>>, newCodes: seq<string>): (hit: seq<string>)
    requires forall n :: n in order ==> n in codes
    ensures Subsequence(hit, order)
    ensures forall n :: n in hit <==> n in order && Shares(codes[n], newCodes)
  {
    if order == [] then []
    else
      var rest := Hits(order[1..], codes, newCodes);
      if Shares(codes[order[0]], newCodes) then [order[0]] + rest else rest
  }

  /** The sources, in dictionary order, that reported at least one of the new
      codes (scripts/fetch_codes.py:76). */
  function SourcesHit(p: PerSource, newCodes: seq<string>): (hit: seq<string>)
    requires p.Valid()
    ensures Subsequence(hit, p.order)
    ensures forall n :: n in hit <==> n in p.codes && Shares(p.codes[n], newCodes)
  {
    Hits(p.order, p.codes, newCodes)
  }

  /** The new codes share nothing with the announced set and are exactly the
      codes found anywhere that were not announced yet. */
  lemma NewCodesAreTheDifference(p: PerSource, state: set<string>)
    ensures (set c | c in NewCodes(p, state)) !! state
    ensures (set c | c in NewCodes(p, state)) == AllCodes(p) - state
  {
  }

  /** When there is anything new, some source is credited with it. */
  lemma SomeSourceHitWhenNew(p: PerSource, state: set<string>)
    requires p.Valid()
    requires NewCodes(p, state) != []
    ensures SourcesHit(p, NewCodes(p, state)) != []
  {
    var newCodes := NewCodes(p, state);
    var c := newCodes[0];
    assert c in AllCodes(p);
    var n :| n in p.codes && c in p.codes[n];
    assert Shares(p.codes[n], newCodes);
    assert n in SourcesHit(p, newCodes);
  }
}
