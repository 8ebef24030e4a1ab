/** Finite link graphs: a node maps to the ordered list of its links. A node
    outside the map has no links. Every traversal of the project is measured
    against the walks defined here. */
module Graph {

  function Kids<T>(g: map<T, seq<T>>, a: T): seq<T> {
    if a in g then g[a] else []
  }

  /** All nodes a walk can meet when it starts in `g` or in `roots`. */
  function Nodes<T>(g: map<T, seq<T>>, roots: set<T>): set<T> {
    roots + g.Keys + (set a, b | a in g && b in g[a] :: b)
  }

  /** A walk of exactly `n` links leads from `a` to `b`. */
  ghost predicate Steps<T(!new)>(g: map<T, seq<T>>, a: T, b: T, n: nat) {
    if n == 0 then a == b else exists m :: m in Kids(g, a) && Steps(g, m, b, n - 1)
  }

  ghost predicate Reach<T(!new)>(g: map<T, seq<T>>, a: T, b: T) {
    exists n: nat :: Steps(g, a, b, n)
  }

  ghost predicate ReachFrom<T(!new)>(g: map<T, seq<T>>, roots: set<T>, b: T) {
    exists r :: r in roots && Reach(g, r, b)
  }

  ghost predicate Closed<T(!new)>(g: map<T, seq<T>>, s: set<T>) {
    forall a, b :: a in s && b in Kids(g, a) ==> b in s
  }

  /** `a` lies on a cycle. */
  ghost predicate OnCycle<T(!new)>(g: map<T, seq<T>>, a: T) {
    exists n: nat :: n > 0 && Steps(g, a, a, n)
  }

  /** `rank` decreases along every link, so `g` has no cycle. */
  ghost predicate Ranked<T(!new)>(g: map<T, seq<T>>, rank: T -> nat) {
    forall a, b :: a in g && b in g[a] ==> rank(b) < rank(a)
  }

  lemma {:induction false} StepsConcat<T(!new)>(g: map<T, seq<T>>, a: T, b: T, c: T, m: nat, n: nat)
    requires Steps(g, a, b, m) && Steps(g, b, c, n)
    ensures Steps(g, a, c, m + n)
  {
    if m > 0 {
      var k :| k in Kids(g, a) && Steps(g, k, b, m - 1);
      StepsConcat(g, k, b, c, m - 1, n);
      assert Steps(g, k, c, m + n - 1);
    }
  }

  lemma StepsAppend<T(!new)>(g: map<T, seq<T>>, a: T, b: T, c: T, n: nat)
    requires Steps(g, a, b, n) && c in Kids(g, b)
    ensures Steps(g, a, c, n + 1)
  {
    assert Steps(g, c, c, 0);
    assert Steps(g, b, c, 1);
    StepsConcat(g, a, b, c, n, 1);
  }

  lemma ReachSelf<T(!new)>(g: map<T, seq<T>>, a: T)
    ensures Reach(g, a, a)
  {
    assert Steps(g, a, a, 0);
  }

  lemma ReachStep<T(!new)>(g: map<T, seq<T>>, a: T, b: T, c: T)
    requires Reach(g, a, b) && c in Kids(g, b)
    ensures Reach(g, a, c)
  {
    var n: nat :| Steps(g, a, b, n);
    StepsAppend(g, a, b, c, n);
  }

  lemma ReachCons<T(!new)>(g: map<T, seq<T>>, a: T, b: T, c: T)
    requires b in Kids(g, a) && Reach(g, b, c)
    ensures Reach(g, a, c)
  {
    var n: nat :| Steps(g, b, c, n);
    assert Steps(g, a, c, n + 1);
  }

  lemma ReachTrans<T(!new)>(g: map<T, seq<T>>, a: T, b: T, c: T)
    requires Reach(g, a, b) && Reach(g, b, c)
    ensures Reach(g, a, c)
  {
    var m: nat :| Steps(g, a, b, m);
    var n: nat :| Steps(g, b, c, n);
    StepsConcat(g, a, b, c, m, n);
  }

  /** Whatever starts in a closed set stays in it. */
  lemma {:induction false} StepsInClosed<T(!new)>(g: map<T, seq<T>>, s: set<T>, a: T, b: T, n: nat)
    requires Closed(g, s) && a in s && Steps(g, a, b, n)
    ensures b in s
  {
    if n > 0 {
      var k :| k in Kids(g, a) && Steps(g, k, b, n - 1);
      StepsInClosed(g, s, k, b, n - 1);
    }
  }

  lemma ReachInClosed<T(!new)>(g: map<T, seq<T>>, s: set<T>, a: T, b: T)
    requires Closed(g, s) && a in s && Reach(g, a, b)
    ensures b in s
  {
    var n: nat :| Steps(g, a, b, n);
    StepsInClosed(g, s, a, b, n);
  }

  /** A walk in a smaller graph is a walk in the larger one. */
  lemma {:induction false} StepsMono<T(!new)>(g: map<T, seq<T>>, h: map<T, seq<T>>, a: T, b: T, n: nat)
    requires Steps(g, a, b, n)
    requires forall x, y :: y in Kids(g, x) ==> y in Kids(h, x)
    ensures Steps(h, a, b, n)
  {
    if n > 0 {
      var k :| k in Kids(g, a) && Steps(g, k, b, n - 1);
      StepsMono(g, h, k, b, n - 1);
      assert k in Kids(h, a);
    }
  }
}
