/** What a marking walk adds to a set of already marked nodes. */
module Marking {
  import opened Graph

  /** `t` is `s` grown by a walk from `roots` that stops at the nodes of `s`:
      nothing is missing and nothing is added without a reason. */
  ghost predicate MarkedFrom<T(!new)>(g: map<T, seq<T>>, s: set<T>, roots: set<T>, t: set<T>) {
    && s <= t && roots <= t
    && (forall v, k :: v in t && v !in s && k in Kids(g, v) ==> k in t)
    && (forall v :: v in t && v !in s ==> ReachFrom(g - s, roots, v))
  }

  lemma MarkedNothing<T(!new)>(g: map<T, seq<T>>, s: set<T>)
    ensures MarkedFrom(g, s, {}, s)
  {
  }

  lemma ReachFromMono<T(!new)>(g: map<T, seq<T>>, h: map<T, seq<T>>, r: set<T>, q: set<T>, v: T)
    requires ReachFrom(g, r, v) && r <= q
    requires forall x, y :: y in Kids(g, x) ==> y in Kids(h, x)
    ensures ReachFrom(h, q, v)
  {
    var a :| a in r && Reach(g, a, v);
    var n: nat :| Steps(g, a, v, n);
    StepsMono(g, h, a, v, n);
    assert a in q && Reach(h, a, v);
  }

  /** Two walks in a row mark what one walk from both sets of roots marks. */
  lemma MarkedTwice<T(!new)>(g: map<T, seq<T>>, s: set<T>, r: set<T>, t: set<T>, q: set<T>, u: set<T>)
    requires MarkedFrom(g, s, r, t) && MarkedFrom(g, t, q, u)
    ensures MarkedFrom(g, s, r + q, u)
  {
    forall v | v in u && v !in s ensures ReachFrom(g - s, r + q, v) {
      if v in t {
        ReachFromMono(g - s, g - s, r, r + q, v);
      } else {
        ReachFromMono(g - t, g - s, q, r + q, v);
      }
    }
  }

  lemma MarkedExact<T(!new)>(g: map<T, seq<T>>, s: set<T>, roots: set<T>, t: set<T>, v: T)
    requires MarkedFrom(g, s, roots, t)
    ensures v in t <==> v in s || ReachFrom(g - s, roots, v)
  {
    hide Steps, Reach, ReachFrom;
    if ReachFrom(g - s, roots, v) {
      RootsInClosed(g - s, roots, t, v);
    }
  }

  lemma RootsInClosed<T(!new)>(g: map<T, seq<T>>, roots: set<T>, s: set<T>, v: T)
    requires Closed(g, s) && roots <= s && ReachFrom(g, roots, v)
    ensures v in s
  {
    var r :| r in roots && Reach(g, r, v);
    ReachInClosed(g, s, r, v);
  }

  /** Growing a closed set is growing it in the whole graph. */
  lemma MarkedFromClosed<T(!new)>(g: map<T, seq<T>>, s: set<T>, roots: set<T>, t: set<T>, v: T)
    requires MarkedFrom(g, s, roots, t) && Closed(g, s)
    ensures v in t <==> v in s || ReachFrom(g, roots, v)
  {
    MarkedExact(g, s, roots, t, v);
    if ReachFrom(g - s, roots, v) {
      ReachFromMono(g - s, g, roots, roots, v);
    }
    if ReachFrom(g, roots, v) {
      var r :| r in roots && Reach(g, r, v);
      ReachInClosed(g, t, r, v);
    }
  }

  /** The state of such a walk: `t` is marked so far and `waiting` is still to be
      visited. */
  ghost predicate Frontier<T(!new)>(g: map<T, seq<T>>, s: set<T>, roots: set<T>, t: set<T>, waiting: set<T>) {
    && s <= t
    && (forall v :: v in roots ==> v in t || v in waiting)
    && (forall v, k :: v in t && v !in s && k in Kids(g, v) ==> k in t || k in waiting)
    && (forall v :: v in t && v !in s ==> ReachFrom(g - s, roots, v))
    && (forall v :: v in waiting ==> ReachFrom(g - s, roots, v) && v in Nodes(g, roots))
  }

  lemma FrontierStart<T(!new)>(g: map<T, seq<T>>, s: set<T>, roots: set<T>)
    ensures Frontier(g, s, roots, s, roots)
  {
    forall v | v in roots ensures ReachFrom(g - s, roots, v) {
      ReachSelf(g - s, v);
    }
  }

  lemma FrontierKnown<T(!new)>(g: map<T, seq<T>>, s: set<T>, roots: set<T>, t: set<T>, waiting: set<T>, v: T)
    requires Frontier(g, s, roots, t, waiting) && v in waiting
    ensures v in Nodes(g, roots) && s <= t
  {
  }

  lemma FrontierSkip<T(!new)>(g: map<T, seq<T>>, s: set<T>, roots: set<T>, t: set<T>, waiting: set<T>, rest: set<T>)
    requires Frontier(g, s, roots, t, waiting) && rest <= waiting && waiting - rest <= t
    ensures Frontier(g, s, roots, t, rest)
  {
    hide ReachFrom, Nodes;
  }

  lemma FrontierVisit<T(!new)>(g: map<T, seq<T>>, s: set<T>, roots: set<T>, t: set<T>, waiting: set<T>, v: T,
                               rest: set<T>)
    requires Frontier(g, s, roots, t, waiting) && v in waiting && v !in t
    requires rest <= waiting + (set k | k in Kids(g, v)) && waiting - {v} <= rest
    requires forall k :: k in Kids(g, v) ==> k in rest
    ensures Frontier(g, s, roots, t + {v}, rest)
  {
    VisitedKids(g, s, roots, v);
    hide ReachFrom, Nodes, Kids;
  }

  lemma VisitedKids<T(!new)>(g: map<T, seq<T>>, s: set<T>, roots: set<T>, v: T)
    requires v !in s && ReachFrom(g - s, roots, v)
    ensures forall k :: k in Kids(g, v) ==> ReachFrom(g - s, roots, k) && k in Nodes(g, roots)
  {
    var r :| r in roots && Reach(g - s, r, v);
    forall k | k in Kids(g, v) ensures ReachFrom(g - s, roots, k) {
      ReachStep(g - s, r, v, k);
    }
  }

  lemma FrontierEnd<T(!new)>(g: map<T, seq<T>>, s: set<T>, roots: set<T>, t: set<T>)
    requires Frontier(g, s, roots, t, {})
    ensures MarkedFrom(g, s, roots, t)
  {
    hide ReachFrom, Nodes;
  }
}
