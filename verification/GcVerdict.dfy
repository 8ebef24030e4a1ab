/** How the protocol's mark ends: in a sweep exactly when the repository is healthy,
    and once it has begun every collection can run to its end. */
module GcVerdict {
  import opened Graph
  import opened Cids
  import opened Marking
  import opened GcProtocol
  import opened GcSafety
  import opened GcRuns
  import opened GcExposure
  import opened GcMark
  import GC = GarbageCollection
  import Collection = Sweep

  // ---------------------------------------------------------------------------
  // The error flag

  /** A visit of an uncoloured node raises the flag exactly when the node is faulty. */
  lemma VisitErrors(w: World, s: State, c: Cid)
    requires s.excl.Mark?
    ensures var m, v := s.excl, Visit(w, s, c);
      && v.Mark? && v.phase == m.phase && v.best == m.best
      && v.gcs == m.gcs + {c}
      && (v.errors <==>
            m.errors || (c !in m.gcs && GC.Faulty(StoreOf(w, s.blocks), m.phase.BestEffort?, c)))
  {
  }

  /** Nothing coloured so far was faulty, nor was anything that the finished phases
      had to visit. */
  ghost predicate Checked(store: GC.Store, r: GC.Roots, m: Exclusive)
    requires m.Mark?
  {
    var g := GC.LocalGraph(store);
    match m.phase
    case Recursive => forall v :: v in m.gcs ==> !GC.Faulty(store, false, v)
    case BestEffort =>
      && (forall v :: ReachFrom(g, r.rec, v) ==> v in m.gcs && !GC.Faulty(store, false, v))
      && (forall v :: v in m.gcs ==> !GC.Faulty(store, true, v))
    case Internal =>
      && (forall v :: ReachFrom(g, r.rec, v) ==> !GC.Faulty(store, false, v))
      && (forall v :: ReachFrom(g, r.best, v) ==> !GC.Faulty(store, true, v))
      && (forall v :: v in m.gcs && v !in r.direct && !GC.Core(g, r, v) ==> !GC.Faulty(store, false, v))
  }

  /** The flag is up only in an unhealthy repository, and while it is down all is
      well so far. */
  ghost predicate Verdict(store: GC.Store, r: GC.Roots, m: Exclusive)
    requires m.Mark?
  {
    if m.errors then !GC.Healthy(store, r) else Checked(store, r, m)
  }

  lemma FaultMeansUnhealthy(w: World, r: GC.Roots, s: State, c: Cid)
    requires s.excl.Mark? && !s.excl.errors && c in s.excl.pending && c !in s.excl.gcs
    requires MarksAll(LinksOf(w, s.blocks), r, s.excl) && MarksOnly(LinksOf(w, s.blocks), r, s.excl)
    requires Checked(StoreOf(w, s.blocks), r, s.excl)
    requires GC.Faulty(StoreOf(w, s.blocks), s.excl.phase.BestEffort?, c)
    ensures !GC.Healthy(StoreOf(w, s.blocks), r)
  {
    var g, store := LinksOf(w, s.blocks), StoreOf(w, s.blocks);
    hide GC.Faulty, GC.LocalGraph, GC.DirectOnly, Reach;
    assert c in Met(s.excl);
    match s.excl.phase
    case Recursive => assert ReachFrom(g, r.rec, c);
    case BestEffort =>
      assert !ReachFrom(g, r.rec, c);
      assert ReachFrom(g, r.best, c);
    case Internal =>
      assert !GC.Core(g, r, c) && c !in r.direct;
      assert ReachFrom(g - GC.DirectOnly(g, r), r.internal, c);
  }

  lemma VisitVerdict(w: World, r: GC.Roots, s: State, c: Cid)
    requires s.excl.Mark? && c in s.excl.pending
    requires MarksAll(LinksOf(w, s.blocks), r, s.excl) && MarksOnly(LinksOf(w, s.blocks), r, s.excl)
    requires Verdict(StoreOf(w, s.blocks), r, s.excl)
    ensures Visit(w, s, c).Mark? && Verdict(StoreOf(w, s.blocks), r, Visit(w, s, c))
  {
    var m, v, store := s.excl, Visit(w, s, c), StoreOf(w, s.blocks);
    VisitErrors(w, s, c);
    if !m.errors && v.errors {
      FaultMeansUnhealthy(w, r, s, c);
    }
    hide GC.LocalGraph, GC.Healthy, GC.Core, ReachFrom, MarksAll, MarksOnly, Visit;
  }

  lemma NextVerdict(w: World, s: State)
    requires s.excl.Mark? && s.excl.pending == {} && s.excl.todo == {} && !s.excl.phase.Internal?
    requires MarksAll(LinksOf(w, s.blocks), RootsOf(s, s.excl.best), s.excl)
    requires MarksOnly(LinksOf(w, s.blocks), RootsOf(s, s.excl.best), s.excl)
    requires Verdict(StoreOf(w, s.blocks), RootsOf(s, s.excl.best), s.excl)
    ensures NextPhase(s).Mark? && Verdict(StoreOf(w, s.blocks), RootsOf(s, s.excl.best), NextPhase(s))
  {
    var m, g, r, store := s.excl, LinksOf(w, s.blocks), RootsOf(s, s.excl.best), StoreOf(w, s.blocks);
    hide GC.LocalGraph, GC.Healthy;
    if !m.errors {
      match m.phase
      case Recursive =>
        forall v | ReachFrom(g, r.rec, v) ensures v in m.gcs {
          RootsInClosed(g, r.rec, m.gcs, v);
        }
      case BestEffort =>
        forall v | ReachFrom(g, r.rec + r.best, v) ensures v in m.gcs {
          RootsInClosed(g, r.rec + r.best, m.gcs, v);
        }
        forall v | ReachFrom(g, r.best, v) ensures v in m.gcs {
          ReachFromMono(g, g, r.best, r.rec + r.best, v);
        }
        assert m.gcs <= Met(m);
    }
  }

  /** At its end the flag is up if and only if the repository is unhealthy. */
  lemma EndVerdict(w: World, r: GC.Roots, s: State)
    requires s.excl.Mark? && s.excl.pending == {} && s.excl.todo == {} && s.excl.phase.Internal?
    requires MarksAll(LinksOf(w, s.blocks), r, s.excl)
    requires Verdict(StoreOf(w, s.blocks), r, s.excl)
    ensures s.excl.errors <==> !GC.Healthy(StoreOf(w, s.blocks), r)
  {
    var g := LinksOf(w, s.blocks);
    if !s.excl.errors {
      forall v | ReachFrom(g - GC.DirectOnly(g, r), r.internal, v) && !GC.Core(g, r, v) && v !in r.direct
        ensures v in s.excl.gcs
      {
        EndAll(g, r, s.excl, v);
      }
      hide GC.LocalGraph, GC.Core, GC.Faulty, ReachFrom, MarksAll, GC.DirectOnly;
    }
  }

  // ---------------------------------------------------------------------------
  // Every run

  /** The mark that found and still finds `blocks` stored. */
  ghost predicate Judged(w: World, blocks: set<Multihash>, s: State, best: set<Cid>) {
    && MarkBounded(w, blocks, s, best)
    && (s.blocks == blocks ==> Verdict(StoreOf(w, blocks), RootsOf(s, best), s.excl))
  }

  lemma LockJudged(w: World, s: State, best: set<Cid>, t: State)
    requires Step(w, s, GcLock(best), t)
    ensures Judged(w, s.blocks, t, best)
  {
    LockBounded(w, s, best, t);
  }

  lemma OwnJudged(w: World, blocks: set<Multihash>, s: State, a: Action, best: set<Cid>)
    requires Judged(w, blocks, s, best) && ExclusiveEnabled(w, s, a) && ExclusiveNext(w, s, a).excl.Mark?
    requires a.MarkRoot? || a.MarkVisit? || a.MarkNext?
    ensures Judged(w, blocks, ExclusiveNext(w, s, a), best)
  {
    OwnBounded(w, blocks, s, a, best);
    hide GC.LocalGraph, GC.Healthy, GC.Faulty, GC.Core, ReachFrom;
    if s.blocks == blocks {
      match a
      case MarkRoot(c) => hide MarksAll, MarksOnly;
      case MarkVisit(c) =>
        hide MarksAll, MarksOnly, Verdict;
        VisitVerdict(w, RootsOf(s, best), s, c);
      case MarkNext =>
        NextMarks(s);
        assert s.excl.best == best;
        hide MarksAll, MarksOnly, Verdict;
        NextVerdict(w, s);
    }
  }

  lemma JudgedStep(w: World, blocks: set<Multihash>, s: State, a: Action, t: State, best: set<Cid>)
    requires LockInv(s) && Step(w, s, a, t) && t.excl.Mark? && Judged(w, blocks, s, best)
    ensures Judged(w, blocks, t, best)
  {
    MarkStepBounded(w, blocks, s, a, t, best);
    hide SharedHeld, AdderEnabled, AdderNext, ClientEnabled, ClientNext, ExclusiveEnabled, ExclusiveNext;
    hide MarksAll, MarksOnly, Verdict;
    PinsFrozen(w, s, a, t);
    if ExclusiveEnabled(w, s, a) && t == ExclusiveNext(w, s, a) && (a.MarkRoot? || a.MarkVisit? || a.MarkNext?) {
      OwnJudged(w, blocks, s, a, best);
    } else {
      SameMark(w, s, a, t);
    }
  }

  lemma {:induction false} RunJudged(w: World, states: seq<State>, actions: seq<Action>, j: nat, k: nat,
                                     best: set<Cid>)
    requires IsRun(w, states, actions) && j < k < |states| && actions[j] == GcLock(best)
    requires forall m :: j < m <= k ==> states[m].excl.Mark?
    ensures Judged(w, states[j].blocks, states[k], best)
    decreases k
  {
    assert Step(w, states[k - 1], actions[k - 1], states[k]);
    hide Judged, Step, Inv;
    if k == j + 1 {
      LockJudged(w, states[j], best, states[k]);
    } else {
      RunJudged(w, states, actions, j, k - 1, best);
      RunInv(w, states, actions, k - 1);
      assert LockInv(states[k - 1]) by { InvLocks(w, states[k - 1]); }
      JudgedStep(w, states[j].blocks, states[k - 1], actions[k - 1], states[k], best);
    }
  }

  /** In every run, a mark during which no block was stored and which nobody called
      off ends in a sweep if and only if the repository was healthy when it began. */
  lemma SweepsIffHealthy(w: World, states: seq<State>, actions: seq<Action>, j: nat, k: nat, best: set<Cid>)
    requires IsRun(w, states, actions) && j < k < |actions| && actions[j] == GcLock(best)
    requires forall m :: j < m <= k ==> states[m].excl.Mark?
    requires actions[k] == MarkNext && !states[k + 1].excl.Mark? && states[k + 1].blocks == states[j].blocks
    ensures states[k + 1].excl.Sweep? <==>
            GC.Healthy(StoreOf(w, states[j].blocks), RootsOf(states[j], best))
    ensures !states[k + 1].excl.Sweep? ==> states[k + 1].excl.Free?
  {
    RunJudged(w, states, actions, j, k, best);
    RunPins(w, states, actions, j, k, best);
    var s, t := states[k], states[k + 1];
    assert Step(w, s, MarkNext, t);
    hide IsRun, GC.LocalGraph, GC.Healthy;
    EndVerdict(w, RootsOf(s, best), s);
    hide MarksAll, MarksOnly;
  }

  /** Nobody changes the pins between the beginning of a mark and its end. */
  lemma {:induction false} RunPins(w: World, states: seq<State>, actions: seq<Action>, j: nat, k: nat,
                                   best: set<Cid>)
    requires IsRun(w, states, actions) && j < k < |states| && actions[j] == GcLock(best)
    requires forall m :: j < m <= k ==> states[m].excl.Mark?
    ensures RootsOf(states[k], best) == RootsOf(states[j], best)
    decreases k
  {
    assert Step(w, states[k - 1], actions[k - 1], states[k]);
    if k == j + 1 {
      hide IsRun;
    } else {
      RunPins(w, states, actions, j, k - 1, best);
      RunInv(w, states, actions, k - 1);
      hide Step, IsRun;
      InvLocks(w, states[k - 1]);
      PinsFrozen(w, states[k - 1], actions[k - 1], states[k]);
    }
  }

  // ---------------------------------------------------------------------------
  // A run to the end

  /** All that this mark can ever meet. */
  function Universe(w: World, s: State, best: set<Cid>): set<Cid> {
    Nodes(w.links, s.rec + best + s.direct + s.internal)
  }

  /** `r` leads from `s` to `t`, in which the mark has met only known nodes and nothing
      but the mark itself has changed. */
  ghost predicate Underway(w: World, s: State, best: set<Cid>, r: Run, t: State) {
    && Leads(w, s, r, t) && r.actions != [] && r.actions[0] == GcLock(best)
    && s.gcWaiting > 0 && t == s.(gcWaiting := s.gcWaiting - 1, excl := t.excl)
    && Judged(w, s.blocks, t, best) && Met(t.excl) <= Universe(w, s, best)
  }

  lemma MetKnown(w: World, s: State, best: set<Cid>, t: State, a: Action)
    requires t.excl.Mark? && ExclusiveEnabled(w, t, a) && ExclusiveNext(w, t, a).excl.Mark?
    requires a.MarkRoot? || a.MarkVisit? || a.MarkNext?
    requires t.excl.best == best && t.direct == s.direct && t.internal == s.internal
    requires Met(t.excl) <= Universe(w, s, best)
    ensures Met(ExclusiveNext(w, t, a).excl) <= Universe(w, s, best)
  {
  }

  lemma MarkOn(w: World, s: State, best: set<Cid>, r: Run, t: State, a: Action) returns (q: Run, u: State)
    requires Underway(w, s, best, r, t) && ExclusiveEnabled(w, t, a) && ExclusiveNext(w, t, a).excl.Mark?
    requires a.MarkRoot? || a.MarkVisit? || a.MarkNext?
    ensures Underway(w, s, best, q, u) && u == ExclusiveNext(w, t, a)
  {
    hide Judged, Leads, Universe;
    u := ExclusiveNext(w, t, a);
    assert t.excl.best == best by { JudgedBest(w, s, t, best); }
    OwnJudged(w, s.blocks, t, a, best);
    MetKnown(w, s, best, t, a);
    hide Visit, NextPhase;
    q := Extended(w, s, r, t, a, u);
  }

  lemma JudgedBest(w: World, s: State, t: State, best: set<Cid>)
    requires Judged(w, s.blocks, t, best)
    ensures t.excl.Mark? && t.excl.best == best
  {
    hide ReachFrom, ClosedBut, GC.Core, GC.Kept, LinksOf, Verdict;
  }

  function PhasesLeft(phase: Phase): nat {
    match phase
    case Recursive => 2
    case BestEffort => 1
    case Internal => 0
  }

  /** Left alone, a mark comes to its end: every step of it finishes a phase, or
      colours a node, or takes up a root, or drops a node it has coloured before. */
  lemma {:induction false} MarkEnds(w: World, s: State, best: set<Cid>, r: Run, t: State) returns (q: Run, u: State)
    requires Underway(w, s, best, r, t) && t.excl.Mark?
    ensures Underway(w, s, best, q, u) && u.excl.Mark?
    ensures u.excl.phase.Internal? && u.excl.pending == {} && u.excl.todo == {}
    decreases PhasesLeft(t.excl.phase), Universe(w, s, best) - t.excl.gcs, t.excl.todo, t.excl.pending
  {
    hide Judged, Leads, Universe;
    var m := t.excl;
    if m.pending != {} {
      var c :| c in m.pending;
      VisitErrors(w, t, c);
      q, u := MarkOn(w, s, best, r, t, MarkVisit(c));
      assert c in Universe(w, s, best);
      q, u := MarkEnds(w, s, best, q, u);
    } else if m.todo != {} {
      var c :| c in m.todo;
      q, u := MarkOn(w, s, best, r, t, MarkRoot(c));
      q, u := MarkEnds(w, s, best, q, u);
    } else if !m.phase.Internal? {
      q, u := MarkOn(w, s, best, r, t, MarkNext);
      q, u := MarkEnds(w, s, best, q, u);
    } else {
      q, u := r, t;
    }
  }

  lemma MarkBegins(w: World, s: State, best: set<Cid>) returns (q: Run, u: State)
    requires ExclusiveEnabled(w, s, GcLock(best))
    ensures Underway(w, s, best, q, u) && u.excl.Mark?
  {
    u := ExclusiveNext(w, s, GcLock(best));
    assert Step(w, s, GcLock(best), u);
    LockJudged(w, s, best, u);
    assert Met(u.excl) == s.rec;
    hide Judged, Step, ExclusiveEnabled, ExclusiveNext;
    assert KeepsPins(s, u);
    q := Extended(w, s, Run([s], []), s, GcLock(best), u);
  }

  /** The blocks of `s` that a collection from `best` leaves. */
  ghost function LeftOf(w: World, s: State, best: set<Cid>): set<Multihash> {
    set h | h in s.blocks && Collection.KeptHash(StoreOf(w, s.blocks), RootsOf(s, best), h)
  }

  /** Left alone, a sweep deletes whatever it need not keep. */
  lemma {:induction false} SweepEnds(w: World, s: State, r: Run, t: State) returns (q: Run, u: State)
    requires Leads(w, s, r, t) && t.excl.Sweep? && r.actions != []
    ensures Leads(w, s, q, u) && q.actions != [] && q.actions[0] == r.actions[0]
    ensures u == t.(blocks := t.blocks * t.excl.keep)
    decreases t.blocks - t.excl.keep
  {
    if t.blocks - t.excl.keep != {} {
      var h :| h in t.blocks - t.excl.keep;
      var v := ExclusiveNext(w, t, SweepKey(h, true));
      assert Step(w, t, SweepKey(h, true), v);
      assert KeepsPins(t, v);
      hide Leads, Step, KeepsPins;
      q := Extended(w, s, r, t, SweepKey(h, true), v);
      q, u := SweepEnds(w, s, q, v);
      assert v.blocks * t.excl.keep == t.blocks * t.excl.keep;
    } else {
      q, u := r, t;
      forall h | h in t.blocks ensures h in t.excl.keep {
        assert h !in t.blocks - t.excl.keep;
      }
      assert t.blocks * t.excl.keep == t.blocks;
    }
  }

  /** What such a mark has coloured at its end. */
  lemma EndKeeps(w: World, s: State, best: set<Cid>, t: State)
    requires Judged(w, s.blocks, t, best) && t.blocks == s.blocks && RootsOf(t, best) == RootsOf(s, best)
    requires t.excl.phase.Internal? && t.excl.pending == {} && t.excl.todo == {}
    ensures t.excl.errors <==> !GC.Healthy(StoreOf(w, s.blocks), RootsOf(s, best))
    ensures !t.excl.errors ==> s.blocks * Hashes(t.excl.gcs) == LeftOf(w, s, best)
  {
    EndVerdict(w, RootsOf(t, best), t);
    hide GC.LocalGraph, GC.Healthy, GC.Kept, Verdict, LinksOf, MarksAll, MarksOnly, Collection.KeptHash;
    if !t.excl.errors {
      forall h ensures h in Hashes(t.excl.gcs) <==> Collection.KeptHash(StoreOf(w, s.blocks), RootsOf(s, best), h) {
        if h in Hashes(t.excl.gcs) {
          MarkedIsKept(w, t, best, h);
        }
        if Collection.KeptHash(StoreOf(w, s.blocks), RootsOf(s, best), h) {
          KeptIsMarked(w, s.blocks, t, best, h);
        }
      }
    }
  }

  lemma Finish(w: World, s: State, best: set<Cid>, r: Run, t: State) returns (q: Run, u: State)
    requires Underway(w, s, best, r, t) && t.excl.Mark?
    requires t.excl.phase.Internal? && t.excl.pending == {} && t.excl.todo == {}
    ensures Leads(w, s, q, u) && q.actions != [] && q.actions[0] == GcLock(best)
    ensures u == s.(gcWaiting := s.gcWaiting - 1, excl := u.excl)
    ensures if GC.Healthy(StoreOf(w, s.blocks), RootsOf(s, best))
            then u.excl.Sweep? && s.blocks * u.excl.keep == LeftOf(w, s, best)
            else u.excl.Free?
  {
    hide Judged, Leads, LeftOf, GC.Healthy, Universe, AdderEnabled, AdderNext, ClientEnabled, ClientNext;
    EndKeeps(w, s, best, t);
    u := ExclusiveNext(w, t, MarkNext);
    q := Extended(w, s, r, t, MarkNext, u);
  }

  lemma SweepAndUnlock(w: World, s: State, r: Run, t: State) returns (q: Run, u: State)
    requires Leads(w, s, r, t) && t.excl.Sweep? && r.actions != []
    ensures Leads(w, s, q, u) && q.actions != [] && q.actions[0] == r.actions[0]
    ensures u == t.(blocks := t.blocks * t.excl.keep, excl := Free)
  {
    hide Leads, AdderEnabled, AdderNext, ClientEnabled, ClientNext, SharedHeld, Protected;
    var v;
    q, v := SweepEnds(w, s, r, t);
    u := ExclusiveNext(w, v, ExclusiveUnlock);
    q := Extended(w, s, q, v, ExclusiveUnlock, u);
  }

  /** Whenever nobody holds the lock, a waiting collection can run to its end: a
      healthy repository is left with exactly the blocks that must be kept, and an
      unhealthy one as it was. */
  lemma CollectionCanFinish(w: World, s: State, best: set<Cid>) returns (q: Run, u: State)
    requires s.gcWaiting > 0 && s.excl.Free? && !SharedHeld(s)
    ensures Leads(w, s, q, u) && q.actions != [] && q.actions[0] == GcLock(best)
    ensures u == s.(gcWaiting := s.gcWaiting - 1,
                    blocks := if GC.Healthy(StoreOf(w, s.blocks), RootsOf(s, best)) then LeftOf(w, s, best)
                              else s.blocks)
  {
    var r, t := MarkBegins(w, s, best);
    r, t := MarkEnds(w, s, best, r, t);
    r, t := Finish(w, s, best, r, t);
    q, u := r, t;
    if t.excl.Sweep? {
      hide Leads, LeftOf, GC.Healthy;
      q, u := SweepAndUnlock(w, s, r, t);
    }
  }
}
