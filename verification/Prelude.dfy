/** What several components share: optional values, points, absolute values, and lists that
    lose single elements. */
module Prelude {

  datatype Option<+T> = None | Some(value: T)

  datatype Point = Point(x: real, y: real)

  function Abs(r: real): real {
    if r < 0.0 then -r else r
  }

  /** Removes the first occurrence, like QList::removeOne. */
  function RemoveOne<T(==)>(xs: seq<T>, x: T): seq<T> {
    if xs == [] then []
    else if x in xs[..|xs| - 1] then RemoveOne(xs[..|xs| - 1], x) + [xs[|xs| - 1]]
    else if xs[|xs| - 1] == x then xs[..|xs| - 1]
    else xs
  }

  function DropAt<T>(xs: seq<T>, k: nat): seq<T>
    requires k < |xs|
  {
    xs[..k] + xs[k + 1..]
  }

  function Count<T>(xs: seq<T>, p: T -> bool): nat {
    if xs == [] then 0 else Count(xs[..|xs| - 1], p) + if p(xs[|xs| - 1]) then 1 else 0
  }

  /** Being `x`, for counting. */
  function Is<T(==)>(x: T): T -> bool {
    y => y == x
  }

  lemma {:induction false} CountMembers<T>(xs: seq<T>, x: T)
    ensures x in xs <==> Count(xs, Is(x)) > 0
  {
    if xs != [] {
      CountMembers(xs[..|xs| - 1], x);
      assert xs == xs[..|xs| - 1] + [xs[|xs| - 1]];
    }
  }

  lemma {:induction false} DropCounts<T>(xs: seq<T>, k: nat, p: T -> bool)
    requires k < |xs|
    ensures Count(xs, p) == Count(DropAt(xs, k), p) + if p(xs[k]) then 1 else 0
  {
    var prior, dropped := xs[..|xs| - 1], DropAt(xs, k);
    if k == |xs| - 1 {
      assert dropped == prior;
    } else {
      DropCounts(prior, k, p);
      assert dropped[..|dropped| - 1] == DropAt(prior, k);
    }
  }

  /** Removing a listed element drops one position. */
  lemma {:induction false} RemoveOneDrops<T>(xs: seq<T>, x: T) returns (k: nat)
    requires x in xs
    ensures k < |xs| && xs[k] == x && RemoveOne(xs, x) == DropAt(xs, k)
  {
    var prior := xs[..|xs| - 1];
    assert xs == prior + [xs[|xs| - 1]];
    if x in prior {
      k := RemoveOneDrops(prior, x);
      assert RemoveOne(xs, x) == xs[..k] + (prior[k + 1..] + [xs[|xs| - 1]]);
    } else {
      k := |xs| - 1;
      assert xs[k + 1..] == [];
    }
  }

  /** Removing an element takes one occurrence of it, if there is one, and nothing else. */
  lemma {:induction false} RemoveCounts<T>(xs: seq<T>, x: T, p: T -> bool)
    ensures Count(RemoveOne(xs, x), p) == if x in xs && p(x) then Count(xs, p) - 1 else Count(xs, p)
    ensures x !in xs ==> RemoveOne(xs, x) == xs
  {
    if x in xs {
      var k := RemoveOneDrops(xs, x);
      DropCounts(xs, k, p);
    }
  }
}
