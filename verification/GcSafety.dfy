/** Safety of the lock protocol over every interleaving. */
module GcSafety {
  import opened Graph
  import opened Cids
  import opened Marking
  import opened GcProtocol

  lemma AdderFrame(w: World, s: State, a: Action)
    requires AdderEnabled(w, s, a)
    ensures var t := AdderNext(w, s, a);
            && t.clients == s.clients && t.excl == s.excl && t.direct == s.direct && t.internal == s.internal
            && s.blocks <= t.blocks && s.rec <= t.rec
    ensures !a.ClientStep? && !a.SweepKey? && !a.RmBlock? && !a.UnlockedWrite?
    ensures a.AdderStart? || a.AdderRelock? || (a.i in s.adders && Holding(s.adders[a.i]))
    ensures (a.AdderStart? || a.AdderRelock?) ==> s.excl.Free?
    ensures var t := AdderNext(w, s, a);
            forall i :: i in s.adders && i != a.i ==> i in t.adders && t.adders[i] == s.adders[i]
    ensures AdderNext(w, s, a).adders.Keys == s.adders.Keys + {a.i}
  {
    hide Under, Reach;
  }

  lemma ClientFrame(w: World, s: State, a: Action)
    requires ClientEnabled(w, s, a)
    ensures var t := ClientNext(s, a);
            t.adders == s.adders && t.excl == s.excl && t.internal == s.internal && s.blocks <= t.blocks
    ensures a.ClientStart? || (a.i in s.clients && (a.ClientStep? || a.ClientUnlock?))
    ensures a.ClientStart? ==> s.excl.Free?
  {
    hide Reach;
  }

  lemma ExclusiveFrame(w: World, s: State, a: Action)
    requires ExclusiveEnabled(w, s, a)
    ensures var t := ExclusiveNext(w, s, a);
            && t.adders == s.adders && t.clients == s.clients
            && t.rec == s.rec && t.direct == s.direct && t.internal == s.internal
            && (!(s.blocks <= t.blocks) ==> (a.SweepKey? || a.RmBlock?) && t == s.(blocks := t.blocks))
            && (s.excl.Free? ==> s.blocks <= t.blocks && (!t.excl.Free? ==> !SharedHeld(s)))
    ensures !a.ClientStep?
  {
    hide Under, Visit, NextPhase;
  }

  /** Without an exclusive holder no step deletes a block; with one, only its two
      deleting actions do, and they change nothing else. */
  lemma OnlyExclusiveDeletes(w: World, s: State, a: Action, t: State)
    requires Step(w, s, a, t)
    ensures s.excl.Free? ==> s.blocks <= t.blocks
    ensures !(s.blocks <= t.blocks) ==>
      && (a.SweepKey? || a.RmBlock?) && ExclusiveEnabled(w, s, a)
      && t == ExclusiveNext(w, s, a) && t == s.(blocks := t.blocks)
  {
    StepFrames(w, s, a);
    hide AdderEnabled, AdderNext, ClientEnabled, ClientNext, ExclusiveEnabled, ExclusiveNext;
  }

  lemma StepFrames(w: World, s: State, a: Action)
    ensures AdderEnabled(w, s, a) ==>
      var t := AdderNext(w, s, a);
      && t.clients == s.clients && t.excl == s.excl && t.direct == s.direct && t.internal == s.internal
      && s.blocks <= t.blocks && s.rec <= t.rec
    ensures ClientEnabled(w, s, a) ==>
      var t := ClientNext(s, a);
      t.adders == s.adders && t.excl == s.excl && t.internal == s.internal && s.blocks <= t.blocks
    ensures ExclusiveEnabled(w, s, a) ==>
      var t := ExclusiveNext(w, s, a);
      && t.adders == s.adders && t.clients == s.clients
      && t.rec == s.rec && t.direct == s.direct && t.internal == s.internal
      && (!(s.blocks <= t.blocks) ==> (a.SweepKey? || a.RmBlock?) && t == s.(blocks := t.blocks))
      && (s.excl.Free? ==> s.blocks <= t.blocks)
  {
    hide AdderEnabled, AdderNext, ClientEnabled, ClientNext, ExclusiveEnabled, ExclusiveNext;
    if AdderEnabled(w, s, a) { AdderFrame(w, s, a); }
    if ClientEnabled(w, s, a) { ClientFrame(w, s, a); }
    if ExclusiveEnabled(w, s, a) { ExclusiveFrame(w, s, a); }
  }

  lemma LockStep(w: World, s: State, a: Action, t: State)
    requires LockInv(s) && Step(w, s, a, t)
    ensures LockInv(t)
  {
    hide AdderEnabled, AdderNext, ClientEnabled, ClientNext, ExclusiveEnabled, ExclusiveNext;
    if AdderEnabled(w, s, a) && t == AdderNext(w, s, a) {
      AdderFrame(w, s, a);
      assert !(a.AdderStart? || a.AdderRelock?) ==> SharedHeld(s);
    } else if ClientEnabled(w, s, a) && t == ClientNext(s, a) {
      ClientFrame(w, s, a);
    } else if ExclusiveEnabled(w, s, a) && t == ExclusiveNext(w, s, a) {
      ExclusiveFrame(w, s, a);
    }
  }

  lemma ClientOkMono(b: set<Multihash>, c: set<Multihash>, client: Client)
    requires ClientOk(b, client) && b <= c
    ensures ClientOk(c, client)
  {
  }

  lemma ClientAdvanceOk(s: State, i: nat, hs: set<Multihash>)
    requires i in s.clients && ClientOk(s.blocks, s.clients[i])
    ensures var t := ClientAdvance(s, i, hs);
            i in t.clients && ClientOk(t.blocks, t.clients[i]) && s.blocks <= t.blocks
    ensures var t := ClientAdvance(s, i, hs);
            forall j :: j in t.clients && j != i ==> j in s.clients && t.clients[j] == s.clients[j]
  {
    match s.clients[i]
    case ManyPinning(nds, k, visited) =>
      if k < |nds| {
        assert nds[..k + 1] == nds[..k] + [nds[k]];
      }
    case _ =>
  }

  lemma ClientNextOk(w: World, s: State, a: Action)
    requires ClientInv(s) && ClientEnabled(w, s, a)
    ensures ClientInv(ClientNext(s, a))
  {
    hide ClientOk, ClientAdvance, Reach;
    var t := ClientNext(s, a);
    ClientFrame(w, s, a);
    if a.ClientStart? {
      InitialOk(t.blocks, a.client);
    } else if a.ClientStep? {
      ClientAdvanceOk(s, a.i, a.w);
    }
    forall i | i in t.clients && i != a.i ensures ClientOk(t.blocks, t.clients[i]) {
      ClientOkMono(s.blocks, t.blocks, s.clients[i]);
    }
  }

  lemma InitialOk(b: set<Multihash>, c: Client)
    requires c.PutLocked? || c.ManyLocked? || c.PinLocked? || c.UnpinLocked? || c.UpdateLocked?
    ensures ClientOk(b, c)
  {
  }

  lemma ClientStepOk(w: World, s: State, a: Action, t: State)
    requires LockInv(s) && ClientInv(s) && Step(w, s, a, t)
    ensures ClientInv(t)
  {
    StepFrames(w, s, a);
    OnlyExclusiveDeletes(w, s, a, t);
    hide ClientOk, AdderEnabled, AdderNext, ClientEnabled, ClientNext, ExclusiveEnabled, ExclusiveNext;
    if ClientEnabled(w, s, a) && t == ClientNext(s, a) {
      ClientNextOk(w, s, a);
    } else {
      forall i | i in t.clients ensures ClientOk(t.blocks, t.clients[i]) {
        assert SharedHeld(s);
        ClientOkMono(s.blocks, t.blocks, s.clients[i]);
      }
    }
  }

  lemma RawHasNoKids(w: World, c: Cid)
    ensures c.codec == RAW ==> Kids(w.links, c) == []
  {
    assert WellNamed(w);
  }

  /** Marking itself: one visit or phase change keeps the colour invariant. */
  lemma MarkVisitOk(w: World, s: State, c: Cid)
    requires s.excl.Mark? && MarkInv(w, s) && c in s.excl.pending
    ensures MarkInv(w, s.(excl := Visit(w, s, c)))
  {
    hide Under, Reach, WellNamed;
    var m := s.excl;
    RawHasNoKids(w, c);
    if !m.errors && c !in m.gcs && c.hash !in w.insecure && c.codec != RAW && m.phase.Recursive? {
      forall v, k | v in m.gcs + {c} && k in Kids(w.links, v) && c.hash in s.blocks && c in w.links
        ensures k in m.gcs + {c} || k in m.pending - {c} + (set l | l in w.links[c])
      {
        if v == c {
          assert k in w.links[c];
        }
      }
    }
  }

  lemma MarkNextOk(w: World, s: State)
    requires s.excl.Mark? && MarkInv(w, s) && s.excl.pending == {} && s.excl.todo == {}
    ensures MarkInv(w, s.(excl := NextPhase(s)))
  {
    var m := s.excl;
    if !m.errors && m.phase.Recursive? {
      assert Closed(w.links, m.gcs);
      forall x | Under(w, s.rec, x) ensures x in m.gcs {
        RootsInClosed(w.links, s.rec, m.gcs, x);
      }
    }
    if !m.errors && m.phase.Internal? {
      forall h | Protected(w, s, h) ensures h in Hashes(m.gcs) {
        var x: Cid :| x.hash == h && (Under(w, s.rec, x) || x in s.direct || x in s.internal);
        assert x in m.gcs;
      }
    }
    hide Under;
  }

  lemma MarkLockOk(w: World, s: State, best: set<Cid>)
    ensures MarkInv(w, s.(excl := Mark(Recursive, s.rec, {}, {}, best, false)))
  {
  }

  lemma MarkStep(w: World, s: State, a: Action, t: State)
    requires LockInv(s) && MarkInv(w, s) && Step(w, s, a, t)
    ensures MarkInv(w, t)
  {
    if ExclusiveEnabled(w, s, a) && t == ExclusiveNext(w, s, a) {
      hide Step;
      MarkOwnStep(w, s, a);
    } else {
      hide AdderNext, ClientNext, AdderEnabled, ClientEnabled, ExclusiveNext, ExclusiveEnabled, Protected, Under;
      StepFrames(w, s, a);
      if !s.excl.Free? {
        PinsFrozen(w, s, a, t);
        SameProtected(w, s, t);
      }
    }
  }

  lemma SameProtected(w: World, s: State, t: State)
    requires t.rec == s.rec && t.direct == s.direct && t.internal == s.internal
    ensures forall h :: Protected(w, t, h) <==> Protected(w, s, h)
  {
    hide Under;
  }

  lemma MarkOwnStep(w: World, s: State, a: Action)
    requires MarkInv(w, s) && ExclusiveEnabled(w, s, a)
    ensures MarkInv(w, ExclusiveNext(w, s, a))
  {
    hide Visit, NextPhase, Protected, Under;
    match a
    case GcLock(best) => MarkLockOk(w, s.(gcWaiting := s.gcWaiting - 1), best);
    case MarkVisit(c) => MarkVisitOk(w, s, c);
    case MarkNext => MarkNextOk(w, s);
    case _ => SameProtected(w, s, ExclusiveNext(w, s, a));
  }

  /** Under the exclusive lock nobody else changes the pins. */
  lemma PinsFrozen(w: World, s: State, a: Action, t: State)
    requires LockInv(s) && !s.excl.Free? && Step(w, s, a, t)
    ensures t.rec == s.rec && t.direct == s.direct && t.internal == s.internal
  {
    hide AdderEnabled, AdderNext, ClientEnabled, ClientNext, ExclusiveEnabled, ExclusiveNext;
    assert !SharedHeld(s);
    if AdderEnabled(w, s, a) {
      AdderFrame(w, s, a);
    }
    if ClientEnabled(w, s, a) {
      ClientFrame(w, s, a);
    }
    if ExclusiveEnabled(w, s, a) {
      ExclusiveFrame(w, s, a);
    }
  }

  lemma InvStep(w: World, s: State, a: Action, t: State)
    requires Inv(w, s) && Step(w, s, a, t)
    ensures Inv(w, t)
  {
    LockStep(w, s, a, t);
    ClientStepOk(w, s, a, t);
    MarkStep(w, s, a, t);
  }

  /** Safety of one step: a deleted block has no pinned name at all, and nobody
      holds the pin lock when it goes. */
  lemma DeletionSafe(w: World, s: State, a: Action, t: State, h: Multihash)
    requires Inv(w, s) && Step(w, s, a, t) && h in s.blocks && h !in t.blocks
    ensures !Protected(w, s, h)
    ensures !s.excl.Free? && !SharedHeld(s) && t == s.(blocks := t.blocks)
  {
    OnlyExclusiveDeletes(w, s, a, t);
    hide Protected, Reach, ClientOk, Visit, NextPhase, AdderEnabled, AdderNext, ClientNext, ClientEnabled, Step;
  }

  /** The CID that a client step takes out of the recursive pins, if any. */
  function Unpins(s: State, a: Action): set<Cid> {
    if a.ClientStep? && a.i in s.clients then
      match s.clients[a.i]
      case UnpinLocked(c, recursive) => if recursive then {c} else {}
      case UpdateLocked(from, to, unpin) => if unpin && from != to then {from} else {}
      case _ => {}
    else {}
  }

  /** The step unpins a root that adder `i` relies on. */
  ghost predicate Disturbs(s: State, a: Action, i: nat) {
    i in s.adders && exists c :: c in Unpins(s, a) && WaitingRoot(s.adders[i], c)
  }

  lemma UnderOne(w: World, c: Cid, x: Cid)
    ensures Under(w, {c}, x) <==> Reach(w.links, c, x)
  {
    if Reach(w.links, c, x) {
      assert c in {c};
    }
  }

  lemma WriteOk(w: World, b: set<Multihash>, ad: Adder, files: set<Cid>, dirs: set<Cid>, hs: set<Multihash>)
    requires AdderShape(w, ad) && (ad.pc.Running? || ad.pc.Resumed?)
    requires forall x :: Under(w, files + dirs, x) ==> x.hash in hs || Under(w, ad.stored, x)
    ensures AdderShape(w, ad.(pc := Running, files := ad.files + files, stored := ad.stored + files + dirs))
    ensures AdderStored(w, b, ad) ==>
      AdderStored(w, b + hs, ad.(pc := Running, files := ad.files + files, stored := ad.stored + files + dirs))
  {
    var stored := ad.stored + files + dirs;
    forall x | Under(w, stored, x) ensures x.hash in hs || Under(w, ad.stored, x) {
      var a :| a in stored && Reach(w.links, a, x);
      if a in ad.stored {
        assert Under(w, ad.stored, x);
      } else {
        assert Under(w, files + dirs, x);
      }
    }
    forall f | f in ad.files + files ensures Under(w, stored, f) {
      if f in ad.files {
        ReachFromMono(w.links, w.links, ad.stored, stored, f);
      } else {
        ReachSelf(w.links, f);
      }
    }
  }

  /** Pinning a root below which everything is stored or written now, and all
      files lie, makes that root stand for the adder's whole state. */
  lemma RootOk(w: World, b: set<Multihash>, ad: Adder, root: Cid, hs: set<Multihash>, pc: AdderPc, ps: set<Cid>)
    requires AdderShape(w, ad) && ad.pc.Running?
    requires (pc == RootPinned(root) && root in ps) || pc == FinalPinned(root)
    requires forall f :: f in ad.files ==> Reach(w.links, root, f)
    requires forall x :: Reach(w.links, root, x) ==> x.hash in hs || Under(w, ad.stored, x)
    ensures AdderShape(w, ad.(pc := pc, stored := {root}, pauses := ps))
    ensures AdderStored(w, b, ad) ==>
      AdderStored(w, b + hs + {root.hash}, ad.(pc := pc, stored := {root}, pauses := ps))
  {
    forall x ensures Under(w, {root}, x) <==> Reach(w.links, root, x) {
      UnderOne(w, root, x);
    }
    hide Under, Reach;
  }

  /** Pinning the only entry of the root directory instead of the directory still
      covers every file. */
  lemma CurRootCovers(w: World, top: Cid, files: set<Cid>)
    requires forall f :: f in files ==> exists k :: k in Kids(w.links, top) && Reach(w.links, k, f)
    ensures forall f :: f in files ==> Reach(w.links, CurRoot(w, top), f)
    ensures Reach(w.links, top, CurRoot(w, top))
  {
    ReachSelf(w.links, top);
    var rn := CurRoot(w, top);
    if rn != top {
      ReachStep(w.links, top, top, rn);
    }
    forall f | f in files ensures Reach(w.links, rn, f) {
      var k :| k in Kids(w.links, top) && Reach(w.links, k, f);
      if |Kids(w.links, top)| != 1 {
        ReachCons(w.links, top, k, f);
      }
    }
  }

  /** An adder's own step keeps its shape, and keeps stored what it builds on. */
  lemma OwnStepOk(w: World, s: State, a: Action)
    requires AdderEnabled(w, s, a) && (a.AdderStart? || AdderShape(w, s.adders[a.i]))
    ensures var t := AdderNext(w, s, a);
            && a.i in t.adders && AdderShape(w, t.adders[a.i])
            && (a.AdderStart? || AdderStored(w, s.blocks, s.adders[a.i]) ==> AdderStored(w, t.blocks, t.adders[a.i]))
  {
    match a
    case AdderWrite(i, files, dirs, hs) => WriteOk(w, s.blocks, s.adders[i], files, dirs, hs);
    case AdderPinRoot(i, top, hs) =>
      var rn := CurRoot(w, top);
      CurRootCovers(w, top, s.adders[i].files);
      forall x | Reach(w.links, rn, x) ensures x.hash in hs || Under(w, s.adders[i].stored, x) {
        ReachTrans(w.links, top, rn, x);
      }
      RootOk(w, s.blocks, s.adders[i], rn, hs, RootPinned(rn), s.adders[i].pauses + {rn});
    case AdderFinish(i, root, hs) => RootOk(w, s.blocks, s.adders[i], root, hs, FinalPinned(root), s.adders[i].pauses);
    case AdderReturn(i) => hide Reach, ReachFrom;
    case _ => hide Under;
  }

  /** A step changes at most the adder that takes it, and no adder disappears. */
  lemma StepAdders(w: World, s: State, a: Action, t: State)
    requires Step(w, s, a, t)
    ensures s.adders.Keys <= t.adders.Keys
    ensures forall i :: i in t.adders ==>
      (i in s.adders && t.adders[i] == s.adders[i]) || (AdderEnabled(w, s, a) && t == AdderNext(w, s, a) && a.i == i)
  {
    hide AdderNext, AdderEnabled, ClientNext, ClientEnabled, ExclusiveNext, ExclusiveEnabled;
    StepFrames(w, s, a);
    if AdderEnabled(w, s, a) {
      AdderFrame(w, s, a);
    }
  }

  /** Every step keeps the shape of every adder. */
  lemma ShapeStep(w: World, s: State, a: Action, t: State, i: nat)
    requires Step(w, s, a, t) && i in t.adders && (i in s.adders ==> AdderShape(w, s.adders[i]))
    ensures AdderShape(w, t.adders[i])
  {
    hide AdderShape, AdderStored, AdderNext, AdderEnabled, ClientNext, ClientEnabled, ExclusiveNext, ExclusiveEnabled;
    StepAdders(w, s, a, t);
    if !(i in s.adders && t.adders[i] == s.adders[i]) {
      NewAdder(w, s, a);
      OwnStepOk(w, s, a);
    }
  }

  lemma NewAdder(w: World, s: State, a: Action)
    requires AdderEnabled(w, s, a)
    ensures a.AdderStart? <==> a.i !in s.adders
  {
    hide Under, Reach;
  }

  /** Every step leaves an adder with what it builds on, unless the step finds
      the adder exposed. No other adder has a part in this. */
  lemma StoredStep(w: World, s: State, a: Action, t: State, i: nat)
    requires Inv(w, s) && Step(w, s, a, t) && i in t.adders && !Exposed(w, s, i)
    requires i in s.adders ==> AdderShape(w, s.adders[i]) && AdderStored(w, s.blocks, s.adders[i])
    ensures AdderStored(w, t.blocks, t.adders[i])
  {
    hide AdderShape, AdderStored, AdderNext, AdderEnabled, ClientNext, ClientEnabled, ExclusiveNext, ExclusiveEnabled;
    hide Inv, Exposed;
    StepAdders(w, s, a, t);
    if i in s.adders && t.adders[i] == s.adders[i] {
      OtherStep(w, s, a, t, i);
    } else {
      NewAdder(w, s, a);
      OwnStepOk(w, s, a);
    }
  }

  lemma OtherStep(w: World, s: State, a: Action, t: State, i: nat)
    requires Inv(w, s) && Step(w, s, a, t) && i in s.adders && !Exposed(w, s, i)
    requires AdderStored(w, s.blocks, s.adders[i])
    ensures AdderStored(w, t.blocks, s.adders[i])
  {
    hide Inv, Step, Under, Protected;
    if h :| h in s.blocks && h !in t.blocks {
      DeletionSafe(w, s, a, t, h);
      assert !Holding(s.adders[i]);
      forall x | s.adders[i].pc.Paused? && Under(w, s.adders[i].stored, x) ensures x.hash in t.blocks {
        if x.hash !in t.blocks {
          DeletionSafe(w, s, a, t, x.hash);
        }
      }
    }
  }

  /** A recursive pin disappears only in a step that unpins it. */
  lemma OnlyUnpinned(w: World, s: State, a: Action, t: State, c: Cid)
    requires Step(w, s, a, t) && c in s.rec && c !in Unpins(s, a)
    ensures c in t.rec
  {
    StepFrames(w, s, a);
    hide AdderNext, AdderEnabled, ExclusiveNext, ExclusiveEnabled, Reach;
  }

  /** A root that an adder waits on stays pinned until somebody unpins it. */
  lemma WaitingStep(w: World, s: State, a: Action, t: State, i: nat, c: Cid)
    requires Step(w, s, a, t) && i in t.adders && WaitingRoot(t.adders[i], c) && !Disturbs(s, a, i)
    requires i in s.adders && WaitingRoot(s.adders[i], c) ==> c in s.rec
    ensures c in t.rec
  {
    hide AdderNext, AdderEnabled, ClientNext, ClientEnabled, ExclusiveNext, ExclusiveEnabled;
    StepAdders(w, s, a, t);
    if i in s.adders && t.adders[i] == s.adders[i] {
      hide Step;
      OnlyUnpinned(w, s, a, t, c);
    } else {
      OwnWaiting(w, s, a, c);
    }
  }

  lemma OwnWaiting(w: World, s: State, a: Action, c: Cid)
    requires AdderEnabled(w, s, a)
    requires a.i in s.adders && WaitingRoot(s.adders[a.i], c) ==> c in s.rec
    ensures var t := AdderNext(w, s, a); a.i in t.adders && WaitingRoot(t.adders[a.i], c) ==> c in t.rec
  {
    hide Under, Reach;
  }

  /** An adder whose root is pinned is not exposed. */
  lemma PinnedNotExposed(w: World, s: State, i: nat)
    requires i in s.adders && s.adders[i].pc.Paused? ==> AdderShape(w, s.adders[i]) && s.adders[i].pc.root in s.rec
    ensures !Exposed(w, s, i)
  {
    if i in s.adders && s.adders[i].pc.Paused? {
      forall x | Under(w, s.adders[i].stored, x) ensures Protected(w, s, x.hash) {
        ReachFromMono(w.links, w.links, s.adders[i].stored, s.rec, x);
      }
    }
  }
}
