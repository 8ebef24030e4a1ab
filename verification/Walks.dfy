/** Walks named by link positions, in the order in which a depth-first traversal
    meets them. */
module Walks {
  import opened Graph

  type Path = seq<nat>

  /** Every position of `p` names a link of the node reached so far. */
  predicate IsPath<T>(g: map<T, seq<T>>, a: T, p: Path) {
    p == [] || (p[0] < |Kids(g, a)| && IsPath(g, Kids(g, a)[p[0]], p[1..]))
  }

  /** The node at the end of a path; a position that names no link ends it. */
  function EndOf<T>(g: map<T, seq<T>>, a: T, p: Path): T {
    if p == [] || p[0] >= |Kids(g, a)| then a else EndOf(g, Kids(g, a)[p[0]], p[1..])
  }

  /** Depth-first order: a path comes before its extensions, and where two paths part
      the smaller position comes first. */
  predicate Before(p: Path, q: Path) {
    if p == [] then q != []
    else q != [] && (p[0] < q[0] || (p[0] == q[0] && Before(p[1..], q[1..])))
  }

  /** Strictly ordered, so each path at most once. */
  ghost predicate InOrder(ps: seq<Path>) {
    forall i, j :: 0 <= i < j < |ps| ==> Before(ps[i], ps[j])
  }

  lemma {:induction false} NotBeforeItself(p: Path)
    ensures !Before(p, p)
  {
    if p != [] {
      NotBeforeItself(p[1..]);
    }
  }

  lemma OnceEach(ps: seq<Path>)
    requires InOrder(ps)
    ensures forall i, j :: 0 <= i < j < |ps| ==> ps[i] != ps[j]
  {
    forall i, j | 0 <= i < j < |ps| ensures ps[i] != ps[j] {
      NotBeforeItself(ps[i]);
    }
  }

  function Prefixed(k: nat, ps: seq<Path>): (qs: seq<Path>)
    ensures |qs| == |ps| && forall i :: 0 <= i < |ps| ==> qs[i] == [k] + ps[i]
  {
    seq(|ps|, i requires 0 <= i < |ps| => [k] + ps[i])
  }

  lemma InPrefixed(k: nat, ps: seq<Path>, q: Path)
    ensures q in Prefixed(k, ps) <==> q != [] && q[0] == k && q[1..] in ps
  {
    var qs := Prefixed(k, ps);
    if q in qs {
      var i :| 0 <= i < |qs| && qs[i] == q;
      assert q[1..] == ps[i];
    }
    if q != [] && q[0] == k && q[1..] in ps {
      var i :| 0 <= i < |ps| && ps[i] == q[1..];
      assert qs[i] == [k] + q[1..] == q;
    }
  }

  lemma InAppend(ps: seq<Path>, qs: seq<Path>, p: Path)
    ensures p in ps + qs <==> p in ps || p in qs
  {
  }

  lemma PrefixedOrder(k: nat, ps: seq<Path>)
    requires InOrder(ps)
    ensures InOrder(Prefixed(k, ps))
  {
    var qs := Prefixed(k, ps);
    forall i, j | 0 <= i < j < |qs| ensures Before(qs[i], qs[j]) {
      assert qs[i][1..] == ps[i] && qs[j][1..] == ps[j];
    }
  }

  /** Paths that start later come later. */
  lemma OrderThen(before: seq<Path>, k: nat, below: seq<Path>)
    requires InOrder(before) && InOrder(below) && forall i :: 0 <= i < |before| ==> before[i] != [] && before[i][0] < k
    ensures InOrder(before + Prefixed(k, below))
  {
    PrefixedOrder(k, below);
    var all := before + Prefixed(k, below);
    forall i, j | 0 <= i < j < |all| ensures Before(all[i], all[j]) {
      if i < |before| <= j {
        assert all[j] == [k] + below[j - |before|];
      }
    }
  }

  lemma EmptyFirst(ps: seq<Path>)
    requires InOrder(ps) && forall i :: 0 <= i < |ps| ==> ps[i] != []
    ensures InOrder([[]] + ps)
  {
  }

  // ---------------------------------------------------------------------------
  // The paths of bounded length

  /** One link less may follow; a negative number means any number of links. */
  function Less(left: int): int {
    if left < 0 then left else left - 1
  }

  predicate Fits(left: int, n: nat) {
    left < 0 || n <= left
  }

  ghost function Measure<T(!new)>(left: int, rank: T -> nat, n: T): nat {
    if left >= 0 then left else rank(n)
  }

  /** All paths of one or more links below `n`, as a traversal meets them. */
  ghost function PathsBelow<T(!new)>(g: map<T, seq<T>>, left: int, rank: T -> nat, n: T): seq<Path>
    requires left >= 0 || Ranked(g, rank)
    decreases Measure(left, rank, n), 1, 0
  {
    if left == 0 then [] else PathsVia(g, left, rank, n, |Kids(g, n)|)
  }

  /** Those that start with one of the first `k` links. */
  ghost function PathsVia<T(!new)>(g: map<T, seq<T>>, left: int, rank: T -> nat, n: T, k: nat): seq<Path>
    requires (left > 0 || (left < 0 && Ranked(g, rank))) && k <= |Kids(g, n)|
    decreases Measure(left, rank, n), 0, k
  {
    if k == 0 then []
    else
      PathsVia(g, left, rank, n, k - 1) +
      Prefixed(k - 1, [[]] + PathsBelow(g, Less(left), rank, Kids(g, n)[k - 1]))
  }

  lemma {:induction false} InBelow<T(!new)>(g: map<T, seq<T>>, left: int, rank: T -> nat, n: T, p: Path)
    requires left >= 0 || Ranked(g, rank)
    ensures p in PathsBelow(g, left, rank, n) <==> p != [] && IsPath(g, n, p) && Fits(left, |p|)
    decreases Measure(left, rank, n), 1, 0
  {
    if left != 0 {
      InVia(g, left, rank, n, |Kids(g, n)|, p);
    }
  }

  lemma {:induction false} InVia<T(!new)>(g: map<T, seq<T>>, left: int, rank: T -> nat, n: T, k: nat, p: Path)
    requires (left > 0 || (left < 0 && Ranked(g, rank))) && k <= |Kids(g, n)|
    ensures p in PathsVia(g, left, rank, n, k) <==> p != [] && p[0] < k && IsPath(g, n, p) && Fits(left, |p|)
    decreases Measure(left, rank, n), 0, k
  {
    if k > 0 {
      var kid := Kids(g, n)[k - 1];
      var below := PathsBelow(g, Less(left), rank, kid);
      InVia(g, left, rank, n, k - 1, p);
      InAppend(PathsVia(g, left, rank, n, k - 1), Prefixed(k - 1, [[]] + below), p);
      InPrefixed(k - 1, [[]] + below, p);
      if p != [] && p[0] == k - 1 {
        InBelow(g, Less(left), rank, kid, p[1..]);
        InAppend([[]], below, p[1..]);
        assert p[1..] in [[]] <==> p[1..] == [];
        assert IsPath(g, n, p) <==> IsPath(g, kid, p[1..]);
        assert Fits(left, |p|) <==> |p| == 1 || Fits(Less(left), |p[1..]|);
      }
    }
  }

  lemma {:induction false} BelowOrder<T(!new)>(g: map<T, seq<T>>, left: int, rank: T -> nat, n: T)
    requires left >= 0 || Ranked(g, rank)
    ensures InOrder(PathsBelow(g, left, rank, n))
    decreases Measure(left, rank, n), 1, 0
  {
    if left != 0 {
      ViaOrder(g, left, rank, n, |Kids(g, n)|);
    }
  }

  lemma {:induction false} ViaOrder<T(!new)>(g: map<T, seq<T>>, left: int, rank: T -> nat, n: T, k: nat)
    requires (left > 0 || (left < 0 && Ranked(g, rank))) && k <= |Kids(g, n)|
    ensures InOrder(PathsVia(g, left, rank, n, k))
    decreases Measure(left, rank, n), 0, k
  {
    if k > 0 {
      var before, below := PathsVia(g, left, rank, n, k - 1), PathsBelow(g, Less(left), rank, Kids(g, n)[k - 1]);
      ViaOrder(g, left, rank, n, k - 1);
      BelowOrder(g, Less(left), rank, Kids(g, n)[k - 1]);
      forall i | 0 <= i < |below| ensures below[i] != [] {
        InBelow(g, Less(left), rank, Kids(g, n)[k - 1], below[i]);
      }
      EmptyFirst(below);
      forall i | 0 <= i < |before| ensures before[i] != [] && before[i][0] < k - 1 {
        InVia(g, left, rank, n, k - 1, before[i]);
      }
      hide InOrder, Prefixed;
      OrderThen(before, k - 1, [[]] + below);
    }
  }

  /** A traversal meets every path of a fitting length exactly once, in order. */
  lemma PathsBelowExact<T(!new)>(g: map<T, seq<T>>, left: int, rank: T -> nat, n: T)
    requires left >= 0 || Ranked(g, rank)
    ensures InOrder(PathsBelow(g, left, rank, n))
    ensures forall p :: p in PathsBelow(g, left, rank, n) <==> p != [] && IsPath(g, n, p) && Fits(left, |p|)
  {
    BelowOrder(g, left, rank, n);
    forall p ensures p in PathsBelow(g, left, rank, n) <==> p != [] && IsPath(g, n, p) && Fits(left, |p|) {
      InBelow(g, left, rank, n, p);
    }
  }

  /** The paths from several roots: the root's number, then the links below it. */
  ghost function PathsFrom<T(!new)>(g: map<T, seq<T>>, left: int, rank: T -> nat, roots: seq<T>, k: nat): seq<Path>
    requires (left >= 0 || Ranked(g, rank)) && k <= |roots|
  {
    if k == 0 then []
    else PathsFrom(g, left, rank, roots, k - 1) + Prefixed(k - 1, PathsBelow(g, left, rank, roots[k - 1]))
  }

  predicate IsPathFrom<T>(g: map<T, seq<T>>, left: int, roots: seq<T>, k: nat, p: Path)
    requires k <= |roots|
  {
    |p| >= 2 && p[0] < k && IsPath(g, roots[p[0]], p[1..]) && Fits(left, |p| - 1)
  }

  lemma {:induction false} InFrom<T(!new)>(g: map<T, seq<T>>, left: int, rank: T -> nat, roots: seq<T>, k: nat, p: Path)
    requires (left >= 0 || Ranked(g, rank)) && k <= |roots|
    ensures p in PathsFrom(g, left, rank, roots, k) <==> IsPathFrom(g, left, roots, k, p)
  {
    if k > 0 {
      var below := PathsBelow(g, left, rank, roots[k - 1]);
      InFrom(g, left, rank, roots, k - 1, p);
      InAppend(PathsFrom(g, left, rank, roots, k - 1), Prefixed(k - 1, below), p);
      InPrefixed(k - 1, below, p);
      if p != [] && p[0] == k - 1 {
        InBelow(g, left, rank, roots[k - 1], p[1..]);
      }
    }
  }

  lemma {:induction false} FromOrder<T(!new)>(g: map<T, seq<T>>, left: int, rank: T -> nat, roots: seq<T>, k: nat)
    requires (left >= 0 || Ranked(g, rank)) && k <= |roots|
    ensures InOrder(PathsFrom(g, left, rank, roots, k))
  {
    if k > 0 {
      var before := PathsFrom(g, left, rank, roots, k - 1);
      FromOrder(g, left, rank, roots, k - 1);
      BelowOrder(g, left, rank, roots[k - 1]);
      forall i | 0 <= i < |before| ensures before[i] != [] && before[i][0] < k - 1 {
        InFrom(g, left, rank, roots, k - 1, before[i]);
      }
      hide InOrder, Prefixed;
      OrderThen(before, k - 1, PathsBelow(g, left, rank, roots[k - 1]));
    }
  }

  lemma PathsFromExact<T(!new)>(g: map<T, seq<T>>, left: int, rank: T -> nat, roots: seq<T>)
    requires left >= 0 || Ranked(g, rank)
    ensures var ps := PathsFrom(g, left, rank, roots, |roots|);
      InOrder(ps) && forall p :: p in ps <==> IsPathFrom(g, left, roots, |roots|, p)
  {
    FromOrder(g, left, rank, roots, |roots|);
    forall p ensures p in PathsFrom(g, left, rank, roots, |roots|) <==> IsPathFrom(g, left, roots, |roots|, p) {
      InFrom(g, left, rank, roots, |roots|, p);
    }
  }
}
