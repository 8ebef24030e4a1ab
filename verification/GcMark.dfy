/** The mark of the protocol, interleaved with everybody else: it keeps at least what
    the collection on its own would keep for the blocks stored when the mark began, and
    at most what it would keep for those stored when the sweep begins. */
module GcMark {
  import opened Graph
  import opened Cids
  import opened Marking
  import opened GcProtocol
  import opened GcSafety
  import opened GcRuns
  import GC = GarbageCollection
  import Collection = Sweep

  /** The repository that the collection sees when `blocks` are stored. */
  function StoreOf(w: World, blocks: set<Multihash>): GC.Store {
    GC.Store(blocks, w.links, w.insecure)
  }

  function RootsOf(s: State, best: set<Cid>): GC.Roots {
    GC.Roots(s.rec, best, s.direct, s.internal)
  }

  function LinksOf(w: World, blocks: set<Multihash>): map<Cid, seq<Cid>> {
    GC.LocalGraph(StoreOf(w, blocks))
  }

  lemma V1SeqSame(cs: seq<Cid>)
    requires AllV1(cs)
    ensures GC.V1Seq(cs) == cs
  {
    forall i | 0 <= i < |cs| ensures ToCidV1(cs[i]) == cs[i] {
      assert cs[i] in cs;
    }
  }

  lemma LocalKids(w: World, blocks: set<Multihash>, c: Cid)
    ensures Kids(LinksOf(w, blocks), c) == if c.codec != RAW && c.hash in blocks && c in w.links then w.links[c] else []
  {
    assert WellNamed(w);
    if c in w.links {
      V1SeqSame(w.links[c]);
    }
  }

  lemma MoreLinks(w: World, fewer: set<Multihash>, more: set<Multihash>)
    requires fewer <= more
    ensures forall x, y :: y in Kids(LinksOf(w, fewer), x) ==> y in Kids(LinksOf(w, more), x)
  {
    forall x, y | y in Kids(LinksOf(w, fewer), x) ensures y in Kids(LinksOf(w, more), x) {
      LocalKids(w, fewer, x);
      LocalKids(w, more, x);
    }
  }

  /** More links keep more: more is below the roots, so fewer direct pins are alone. */
  lemma KeptMono(g: map<Cid, seq<Cid>>, h: map<Cid, seq<Cid>>, r: GC.Roots, v: Cid)
    requires forall x, y :: y in Kids(g, x) ==> y in Kids(h, x)
    requires GC.Kept(g, r, v)
    ensures GC.Kept(h, r, v)
  {
    if GC.Core(g, r, v) {
      ReachFromMono(g, h, r.rec + r.best, r.rec + r.best, v);
    } else if v !in r.direct {
      forall d | d in GC.DirectOnly(h, r) ensures d in GC.DirectOnly(g, r) {
        if GC.Core(g, r, d) {
          ReachFromMono(g, h, r.rec + r.best, r.rec + r.best, d);
        }
      }
      var few, many := g - GC.DirectOnly(g, r), h - GC.DirectOnly(h, r);
      forall x, y | y in Kids(few, x) ensures y in Kids(many, x) {
        assert y in Kids(g, x) && x !in GC.DirectOnly(h, r);
      }
      ReachFromMono(few, many, r.internal, r.internal, v);
    }
  }

  // ---------------------------------------------------------------------------
  // At least

  function Met(m: Exclusive): set<Cid>
    requires m.Mark?
  {
    m.gcs + m.pending + m.todo
  }

  ghost predicate ClosedBut(g: map<Cid, seq<Cid>>, but: set<Cid>, a: set<Cid>, b: set<Cid>) {
    forall v, k :: v in a && v !in but && k in Kids(g, v) ==> k in b
  }

  /** Whatever hangs, in the graph `g` of the beginning, on what is coloured is
      coloured or waiting, except below direct pins that nothing else keeps. */
  ghost predicate MarksAll(g: map<Cid, seq<Cid>>, r: GC.Roots, m: Exclusive)
    requires m.Mark?
  {
    m.best == r.best && (m.errors ||
      match m.phase
      case Recursive => r.rec <= Met(m) && ClosedBut(g, {}, m.gcs, Met(m))
      case BestEffort => r.rec <= m.gcs && r.best <= Met(m) && ClosedBut(g, {}, m.gcs, Met(m))
      case Internal =>
        && (forall v :: GC.Core(g, r, v) ==> v in m.gcs)
        && r.direct <= m.gcs && r.internal <= Met(m) && ClosedBut(g, GC.DirectOnly(g, r), m.gcs, Met(m)))
  }

  lemma VisitAll(w: World, blocks: set<Multihash>, r: GC.Roots, s: State, c: Cid)
    requires s.excl.Mark? && c in s.excl.pending && blocks <= s.blocks
    requires MarksAll(LinksOf(w, blocks), r, s.excl)
    ensures MarksAll(LinksOf(w, blocks), r, Visit(w, s, c))
  {
    LocalKids(w, blocks, c);
    hide LinksOf, GC.Core, GC.DirectOnly;
    var m, v := s.excl, Visit(w, s, c);
    if !v.errors {
      assert !m.errors && v.phase == m.phase && v.best == m.best;
      assert Met(m) <= Met(v) && m.gcs <= v.gcs <= m.gcs + {c};
      forall k | c !in m.gcs && k in Kids(LinksOf(w, blocks), c) ensures k in Met(v) {
        assert k in v.pending;
      }
    }
  }

  lemma NextAll(w: World, blocks: set<Multihash>, s: State)
    requires s.excl.Mark? && s.excl.pending == {} && s.excl.todo == {} && !s.excl.phase.Internal?
    requires MarksAll(LinksOf(w, blocks), RootsOf(s, s.excl.best), s.excl)
    ensures MarksAll(LinksOf(w, blocks), RootsOf(s, s.excl.best), NextPhase(s))
  {
    var m, g, r := s.excl, LinksOf(w, blocks), RootsOf(s, s.excl.best);
    hide LinksOf;
    if !m.errors && m.phase.BestEffort? {
      assert Closed(g, m.gcs);
      forall v | GC.Core(g, r, v) ensures v in m.gcs {
        RootsInClosed(g, r.rec + r.best, m.gcs, v);
      }
      hide GC.Core;
      forall v | v in s.direct && v !in m.gcs ensures v in GC.DirectOnly(g, r) {
      }
    }
  }

  /** At the end of an error-free mark nothing is missing. */
  lemma EndAll(g: map<Cid, seq<Cid>>, r: GC.Roots, m: Exclusive, v: Cid)
    requires m.Mark? && MarksAll(g, r, m) && m.phase.Internal? && !m.errors && m.pending == {} && m.todo == {}
    requires GC.Kept(g, r, v)
    ensures v in m.gcs
  {
    if !GC.Core(g, r, v) && v !in r.direct {
      var lone := GC.DirectOnly(g, r);
      assert Closed(g - lone, m.gcs);
      RootsInClosed(g - lone, r.internal, m.gcs, v);
    }
  }

  // ---------------------------------------------------------------------------
  // At most

  /** Whatever is coloured or waiting is there for a reason, in the graph `g` of now. */
  ghost predicate MarksOnly(g: map<Cid, seq<Cid>>, r: GC.Roots, m: Exclusive)
    requires m.Mark?
  {
    m.best == r.best && (m.errors ||
      match m.phase
      case Recursive => forall v :: v in Met(m) ==> ReachFrom(g, r.rec, v)
      case BestEffort => forall v :: v in Met(m) ==> GC.Core(g, r, v)
      case Internal => r.direct <= m.gcs && forall v :: v in Met(m) ==> GC.Kept(g, r, v))
  }

  lemma KidsReached(g: map<Cid, seq<Cid>>, roots: set<Cid>, c: Cid, k: Cid)
    requires ReachFrom(g, roots, c) && k in Kids(g, c)
    ensures ReachFrom(g, roots, k)
  {
    var a :| a in roots && Reach(g, a, c);
    ReachStep(g, a, c, k);
  }

  lemma KidsKept(g: map<Cid, seq<Cid>>, r: GC.Roots, c: Cid, k: Cid)
    requires GC.Kept(g, r, c) && c !in r.direct && k in Kids(g, c)
    ensures GC.Kept(g, r, k)
  {
    if GC.Core(g, r, c) {
      KidsReached(g, r.rec + r.best, c, k);
    } else {
      KidsReached(g - GC.DirectOnly(g, r), r.internal, c, k);
    }
  }

  lemma VisitOnly(w: World, r: GC.Roots, s: State, c: Cid)
    requires s.excl.Mark? && c in s.excl.pending && MarksOnly(LinksOf(w, s.blocks), r, s.excl)
    ensures MarksOnly(LinksOf(w, s.blocks), r, Visit(w, s, c))
  {
    var m, v, g := s.excl, Visit(w, s, c), LinksOf(w, s.blocks);
    LocalKids(w, s.blocks, c);
    hide LinksOf, GC.Kept, ReachFrom;
    if !v.errors && c !in m.gcs {
      forall k | k in Met(v) && k !in Met(m) ensures k in Kids(g, c) {
      }
      forall k | k in Kids(g, c)
        ensures m.phase.Recursive? ==> ReachFrom(g, r.rec, k)
        ensures m.phase.BestEffort? ==> GC.Core(g, r, k)
        ensures m.phase.Internal? ==> GC.Kept(g, r, k)
      {
        match m.phase
        case Recursive => KidsReached(g, r.rec, c, k);
        case BestEffort => KidsReached(g, r.rec + r.best, c, k);
        case Internal => KidsKept(g, r, c, k);
      }
    }
  }

  lemma NextOnly(w: World, s: State)
    requires s.excl.Mark? && s.excl.pending == {} && s.excl.todo == {} && !s.excl.phase.Internal?
    requires MarksOnly(LinksOf(w, s.blocks), RootsOf(s, s.excl.best), s.excl)
    ensures MarksOnly(LinksOf(w, s.blocks), RootsOf(s, s.excl.best), NextPhase(s))
  {
    var m, g, r := s.excl, LinksOf(w, s.blocks), RootsOf(s, s.excl.best);
    hide LinksOf;
    if !m.errors {
      match m.phase
      case Recursive =>
        forall v | v in m.gcs ensures GC.Core(g, r, v) {
          ReachFromMono(g, g, r.rec, r.rec + r.best, v);
        }
        forall v | v in m.best ensures GC.Core(g, r, v) {
          ReachSelf(g, v);
          assert v in r.rec + r.best;
        }
      case BestEffort =>
        forall v | v in s.internal ensures GC.Kept(g, r, v) {
          ReachSelf(g - GC.DirectOnly(g, r), v);
        }
        hide GC.Core, GC.DirectOnly, ReachFrom;
    }
  }

  lemma OnlyMono(g: map<Cid, seq<Cid>>, h: map<Cid, seq<Cid>>, r: GC.Roots, m: Exclusive)
    requires forall x, y :: y in Kids(g, x) ==> y in Kids(h, x)
    requires m.Mark? && MarksOnly(g, r, m)
    ensures MarksOnly(h, r, m)
  {
    forall v | v in Met(m)
      ensures ReachFrom(g, r.rec, v) ==> ReachFrom(h, r.rec, v)
      ensures GC.Core(g, r, v) ==> GC.Core(h, r, v)
      ensures GC.Kept(g, r, v) ==> GC.Kept(h, r, v)
    {
      if ReachFrom(g, r.rec, v) {
        ReachFromMono(g, h, r.rec, r.rec, v);
      }
      if GC.Core(g, r, v) {
        ReachFromMono(g, h, r.rec + r.best, r.rec + r.best, v);
      }
      if GC.Kept(g, r, v) {
        KeptMono(g, h, r, v);
      }
    }
    hide GC.Core, GC.Kept, ReachFrom;
  }

  // ---------------------------------------------------------------------------
  // Steps and runs

  /** The mark as seen from its beginning, when `blocks` were stored. */
  ghost predicate MarkBounded(w: World, blocks: set<Multihash>, s: State, best: set<Cid>) {
    && s.excl.Mark? && blocks <= s.blocks
    && MarksAll(LinksOf(w, blocks), RootsOf(s, best), s.excl)
    && MarksOnly(LinksOf(w, s.blocks), RootsOf(s, best), s.excl)
  }

  /** The mark moves: `t` is `s` but for its own state. */
  lemma OwnBounded(w: World, blocks: set<Multihash>, s: State, a: Action, best: set<Cid>)
    requires MarkBounded(w, blocks, s, best) && ExclusiveEnabled(w, s, a) && ExclusiveNext(w, s, a).excl.Mark?
    requires a.MarkRoot? || a.MarkVisit? || a.MarkNext?
    ensures MarkBounded(w, blocks, ExclusiveNext(w, s, a), best)
  {
    hide LinksOf;
    match a
    case MarkRoot(c) =>
      hide GC.Core, GC.Kept, ReachFrom, GC.DirectOnly;
      assert {c} + (s.excl.todo - {c}) == s.excl.todo;
      assert Met(ExclusiveNext(w, s, a).excl) == Met(s.excl);
    case MarkVisit(c) =>
      hide MarksAll, MarksOnly;
      VisitMarks(w, s, c);
      VisitAll(w, blocks, RootsOf(s, best), s, c);
      VisitOnly(w, RootsOf(s, best), s, c);
    case MarkNext =>
      NextMarks(s);
      assert s.excl.best == best;
      hide MarksAll, MarksOnly;
      NextAll(w, blocks, s);
      NextOnly(w, s);
  }

  lemma VisitMarks(w: World, s: State, c: Cid)
    requires s.excl.Mark?
    ensures Visit(w, s, c).Mark?
  {
  }

  lemma NextMarks(s: State)
    requires s.excl.Mark? && NextPhase(s).Mark?
    ensures !s.excl.phase.Internal?
  {
  }

  /** A step of somebody else, who may have stored new blocks. */
  lemma OtherBounded(w: World, blocks: set<Multihash>, s: State, t: State, best: set<Cid>)
    requires MarkBounded(w, blocks, s, best) && t.excl == s.excl && s.blocks <= t.blocks
    requires t.rec == s.rec && t.direct == s.direct && t.internal == s.internal
    ensures MarkBounded(w, blocks, t, best)
  {
    hide LinksOf, MarksAll, MarksOnly;
    MoreLinks(w, s.blocks, t.blocks);
    OnlyMono(LinksOf(w, s.blocks), LinksOf(w, t.blocks), RootsOf(s, best), s.excl);
  }

  lemma SameMark(w: World, s: State, a: Action, t: State)
    requires Step(w, s, a, t) && s.excl.Mark? && t.excl.Mark?
    requires !(ExclusiveEnabled(w, s, a) && t == ExclusiveNext(w, s, a) && (a.MarkRoot? || a.MarkVisit? || a.MarkNext?))
    ensures t.excl == s.excl && s.blocks <= t.blocks
  {
    hide AdderEnabled, AdderNext, ClientEnabled, ClientNext, SharedHeld, Protected, Visit, NextPhase;
    StepFrames(w, s, a);
  }

  /** Every step of anybody keeps the mark between its bounds. */
  lemma MarkStepBounded(w: World, blocks: set<Multihash>, s: State, a: Action, t: State, best: set<Cid>)
    requires LockInv(s) && Step(w, s, a, t) && t.excl.Mark? && MarkBounded(w, blocks, s, best)
    ensures MarkBounded(w, blocks, t, best)
  {
    assert s.excl.Mark?;
    hide MarkBounded, SharedHeld, AdderEnabled, AdderNext, ClientEnabled, ClientNext, ExclusiveEnabled, ExclusiveNext;
    PinsFrozen(w, s, a, t);
    if ExclusiveEnabled(w, s, a) && t == ExclusiveNext(w, s, a) && (a.MarkRoot? || a.MarkVisit? || a.MarkNext?) {
      OwnBounded(w, blocks, s, a, best);
    } else {
      SameMark(w, s, a, t);
      OtherBounded(w, blocks, s, t, best);
    }
  }

  lemma LockBounded(w: World, s: State, best: set<Cid>, t: State)
    requires Step(w, s, GcLock(best), t)
    ensures MarkBounded(w, s.blocks, t, best)
  {
    hide LinksOf, GC.Core, GC.Kept, GC.DirectOnly;
    forall v | v in t.rec ensures ReachFrom(LinksOf(w, t.blocks), t.rec, v) {
      ReachSelf(LinksOf(w, t.blocks), v);
    }
  }

  lemma {:induction false} RunBounded(w: World, states: seq<State>, actions: seq<Action>, j: nat, k: nat,
                                      best: set<Cid>)
    requires IsRun(w, states, actions) && j < k < |states| && actions[j] == GcLock(best)
    requires forall m :: j < m <= k ==> states[m].excl.Mark?
    ensures MarkBounded(w, states[j].blocks, states[k], best)
    decreases k
  {
    assert Step(w, states[k - 1], actions[k - 1], states[k]);
    hide MarkBounded, Step, Inv;
    if k == j + 1 {
      LockBounded(w, states[j], best, states[k]);
    } else {
      RunBounded(w, states, actions, j, k - 1, best);
      RunInv(w, states, actions, k - 1);
      assert LockInv(states[k - 1]) by { InvLocks(w, states[k - 1]); }
      MarkStepBounded(w, states[j].blocks, states[k - 1], actions[k - 1], states[k], best);
    }
  }

  lemma InvLocks(w: World, s: State)
    requires Inv(w, s)
    ensures LockInv(s)
  {
    hide ClientInv, MarkInv;
  }

  lemma SweepStep(w: World, s: State, a: Action, t: State)
    requires Step(w, s, a, t) && s.excl.Mark? && t.excl.Sweep?
    ensures a.MarkNext? && s.excl.phase.Internal? && s.excl.pending == {} && s.excl.todo == {} && !s.excl.errors
    ensures t == s.(excl := Exclusive.Sweep(Hashes(s.excl.gcs)))
  {
    StepFrames(w, s, a);
    hide AdderEnabled, AdderNext, ClientEnabled, ClientNext, SharedHeld, Protected;
  }

  /** In every run, a mark that ends in a sweep keeps at least the hashes of what must
      be kept in the store of its beginning, and at most those of what must be kept
      in the store of the sweep, whoever stores blocks in between. */
  lemma SweepKeepsBetween(w: World, states: seq<State>, actions: seq<Action>, j: nat, k: nat, best: set<Cid>)
    requires IsRun(w, states, actions) && j < k < |actions| && actions[j] == GcLock(best)
    requires forall m :: j < m <= k ==> states[m].excl.Mark?
    requires states[k + 1].excl.Sweep?
    ensures var t := states[k + 1];
      forall h :: Collection.KeptHash(StoreOf(w, states[j].blocks), RootsOf(t, best), h) ==> h in t.excl.keep
    ensures var t := states[k + 1];
      forall h :: h in t.excl.keep ==> Collection.KeptHash(StoreOf(w, t.blocks), RootsOf(t, best), h)
  {
    var s, t := states[k], states[k + 1];
    RunBounded(w, states, actions, j, k, best);
    assert Step(w, s, actions[k], t);
    SweepStep(w, s, actions[k], t);
    assert RootsOf(t, best) == RootsOf(s, best);
    hide Step, IsRun;
    forall h | Collection.KeptHash(StoreOf(w, states[j].blocks), RootsOf(t, best), h) ensures h in t.excl.keep {
      KeptIsMarked(w, states[j].blocks, s, best, h);
    }
    forall h | h in t.excl.keep ensures Collection.KeptHash(StoreOf(w, t.blocks), RootsOf(t, best), h) {
      MarkedIsKept(w, s, best, h);
    }
  }

  lemma KeptIsMarked(w: World, blocks: set<Multihash>, s: State, best: set<Cid>, h: Multihash)
    requires s.excl.Mark? && MarksAll(LinksOf(w, blocks), RootsOf(s, best), s.excl)
    requires s.excl.phase.Internal? && !s.excl.errors && s.excl.pending == {} && s.excl.todo == {}
    requires Collection.KeptHash(StoreOf(w, blocks), RootsOf(s, best), h)
    ensures h in Hashes(s.excl.gcs)
  {
    var v: Cid :| v.hash == h && GC.Kept(GC.LocalGraph(StoreOf(w, blocks)), RootsOf(s, best), v);
    EndAll(LinksOf(w, blocks), RootsOf(s, best), s.excl, v);
  }

  lemma MarkedIsKept(w: World, s: State, best: set<Cid>, h: Multihash)
    requires s.excl.Mark? && MarksOnly(LinksOf(w, s.blocks), RootsOf(s, best), s.excl)
    requires s.excl.phase.Internal? && !s.excl.errors && h in Hashes(s.excl.gcs)
    ensures Collection.KeptHash(StoreOf(w, s.blocks), RootsOf(s, best), h)
  {
    var v :| v in s.excl.gcs && v.hash == h;
    assert v in Met(s.excl) && GC.Kept(LinksOf(w, s.blocks), RootsOf(s, best), v);
    hide GC.Kept;
  }

  /** In every run, a mark during which no block was stored and which ends in a sweep
      keeps exactly the hashes of what must be kept, what best-effort roots and
      internal pins keep included. */
  lemma SweepKeepsExactly(w: World, states: seq<State>, actions: seq<Action>, j: nat, k: nat, best: set<Cid>)
    requires IsRun(w, states, actions) && j < k < |actions| && actions[j] == GcLock(best)
    requires forall m :: j < m <= k ==> states[m].excl.Mark?
    requires states[k + 1].excl.Sweep? && states[k + 1].blocks == states[j].blocks
    ensures var t := states[k + 1];
      forall h :: h in t.excl.keep <==> Collection.KeptHash(StoreOf(w, t.blocks), RootsOf(t, best), h)
  {
    SweepKeepsBetween(w, states, actions, j, k, best);
  }
}
