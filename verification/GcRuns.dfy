/** The lock protocol over whole runs: what every interleaving guarantees, and
    the one interference it does not survive. */
module GcRuns {
  import opened Graph
  import opened Cids
  import opened GcProtocol
  import opened GcSafety

  /** Any finite interleaving from a state in which nobody is at work. */
  ghost predicate IsRun(w: World, states: seq<State>, actions: seq<Action>) {
    && |states| == |actions| + 1
    && Init(states[0])
    && (forall k :: 0 <= k < |actions| ==> Step(w, states[k], actions[k], states[k + 1]))
  }

  lemma {:induction false} RunInv(w: World, states: seq<State>, actions: seq<Action>, k: nat)
    requires IsRun(w, states, actions) && k < |states|
    ensures Inv(w, states[k])
  {
    if k > 0 {
      RunInv(w, states, actions, k - 1);
      InvStep(w, states[k - 1], actions[k - 1], states[k]);
    }
  }

  /** In every run at all, what an adder has added lies below what it has stored,
      and below its root while it waits and when it has returned. */
  lemma {:induction false} RunShape(w: World, states: seq<State>, actions: seq<Action>, k: nat, i: nat)
    requires IsRun(w, states, actions) && k < |states| && i in states[k].adders
    ensures AdderShape(w, states[k].adders[i])
  {
    if k > 0 {
      hide Step, AdderShape, Init;
      if i in states[k - 1].adders {
        RunShape(w, states, actions, k - 1, i);
      }
      ShapeStep(w, states[k - 1], actions[k - 1], states[k], i);
    }
  }

  /** Whenever the lock was held exclusively while adder `i` had given it up, all
      that the adder builds on had pinned names. */
  ghost predicate NeverExposed(w: World, states: seq<State>, i: nat, k: nat)
    requires k <= |states|
  {
    forall j :: 0 <= j < k ==> !Exposed(w, states[j], i)
  }

  /** Nobody has unpinned a root while adder `i` relied on it. */
  ghost predicate Undisturbed(states: seq<State>, actions: seq<Action>, i: nat, k: nat)
    requires |states| == |actions| + 1 && k <= |actions|
  {
    forall j :: 0 <= j < k ==> !Disturbs(states[j], actions[j], i)
  }

  /** In every run, an adder that was never exposed has all it builds on. */
  lemma {:induction false} RunStored(w: World, states: seq<State>, actions: seq<Action>, k: nat, i: nat)
    requires IsRun(w, states, actions) && k < |states| && i in states[k].adders && NeverExposed(w, states, i, k)
    ensures AdderStored(w, states[k].blocks, states[k].adders[i])
  {
    if k > 0 {
      hide Step, Inv, AdderShape, AdderStored, Exposed, Init;
      RunInv(w, states, actions, k - 1);
      if i in states[k - 1].adders {
        RunShape(w, states, actions, k - 1, i);
        RunStored(w, states, actions, k - 1, i);
      }
      StoredStep(w, states[k - 1], actions[k - 1], states[k], i);
    }
  }

  /** In every run, a root that an adder waits on is pinned unless it was unpinned
      while the adder waited. */
  lemma {:induction false} RunWaiting(w: World, states: seq<State>, actions: seq<Action>, k: nat, i: nat, c: Cid)
    requires IsRun(w, states, actions) && k < |states| && Undisturbed(states, actions, i, k)
    requires i in states[k].adders && WaitingRoot(states[k].adders[i], c)
    ensures c in states[k].rec
  {
    if k > 0 {
      hide Step, Disturbs, Init;
      if i in states[k - 1].adders && WaitingRoot(states[k - 1].adders[i], c) {
        RunWaiting(w, states, actions, k - 1, i, c);
      }
      WaitingStep(w, states[k - 1], actions[k - 1], states[k], i, c);
    }
  }

  /** Unpinning is the only way to expose an adder: one whose roots were left
      alone was never exposed, whatever happened to other adders. */
  lemma UndisturbedNotExposed(w: World, states: seq<State>, actions: seq<Action>, k: nat, i: nat)
    requires IsRun(w, states, actions) && k <= |actions| && Undisturbed(states, actions, i, k)
    ensures NeverExposed(w, states, i, k)
  {
    hide Step, Exposed, AdderShape, Disturbs, Init;
    forall j | 0 <= j < k ensures !Exposed(w, states[j], i) {
      if i in states[j].adders && states[j].adders[i].pc.Paused? {
        RunShape(w, states, actions, j, i);
        RunWaiting(w, states, actions, j, i, states[j].adders[i].pc.root);
      }
      PinnedNotExposed(w, states[j], i);
    }
  }

  /** In every run, no step deletes a block that has a pinned name at that moment:
      one below a recursive pin, or pinned directly or internally. */
  lemma PinnedNeverDeleted(w: World, states: seq<State>, actions: seq<Action>, k: nat, h: Multihash)
    requires IsRun(w, states, actions) && k < |actions|
    requires Protected(w, states[k], h) && h in states[k].blocks
    ensures h in states[k + 1].blocks
  {
    RunInv(w, states, actions, k);
    if h !in states[k + 1].blocks {
      DeletionSafe(w, states[k], actions[k], states[k + 1], h);
    }
  }

  /** In every run, a block that a pin holder has put is there while it holds the
      lock, and a put that reached its pin has both. */
  lemma PutStaysStored(w: World, states: seq<State>, actions: seq<Action>, k: nat, i: nat, c: Cid)
    requires IsRun(w, states, actions) && k < |actions| && i in states[k].clients
    requires states[k].clients[i] == PutStored(c) || states[k].clients[i] == PutPinned(c)
    ensures c.hash in states[k].blocks
    ensures actions[k].ClientStep? && actions[k].i == i ==> c in states[k + 1].rec && c.hash in states[k + 1].blocks
  {
    RunInv(w, states, actions, k);
    assert ClientOk(states[k].blocks, states[k].clients[i]);
    hide Under, Reach, MarkInv;
  }

  /** In every run, all that a never exposed adder at work has stored and builds on
      is present, also while it has given up the lock. */
  lemma AdderBlocksStay(w: World, states: seq<State>, actions: seq<Action>, k: nat, i: nat, x: Cid)
    requires IsRun(w, states, actions) && k < |states| && NeverExposed(w, states, i, k)
    requires i in states[k].adders && (Holding(states[k].adders[i]) || states[k].adders[i].pc.Paused?)
    requires Under(w, states[k].adders[i].stored, x)
    ensures x.hash in states[k].blocks
  {
    RunStored(w, states, actions, k, i);
  }

  /** In every run, when an adder returns without error every file it added lies
      below its root, and if it was never exposed every block below the root is
      present, however often it gave up the lock and whatever happened to others. */
  lemma AddIsComplete(w: World, states: seq<State>, actions: seq<Action>, k: nat, i: nat, root: Cid)
    requires IsRun(w, states, actions) && k < |actions|
    requires actions[k] == AdderReturn(i) && i in states[k + 1].adders && states[k + 1].adders[i].pc == Done(root)
    ensures forall f :: f in states[k + 1].adders[i].files ==> Reach(w.links, root, f)
    ensures NeverExposed(w, states, i, k) ==> Complete(w, states[k + 1], root)
  {
    var s, t := states[k], states[k + 1];
    assert Step(w, s, actions[k], t);
    RunShape(w, states, actions, k + 1, i);
    RunShape(w, states, actions, k, i);
    if NeverExposed(w, states, i, k) {
      RunStored(w, states, actions, k, i);
    }
    forall x ensures Under(w, {root}, x) <==> Reach(w.links, root, x) {
      UnderOne(w, root, x);
    }
    hide Under, Reach, NeverExposed;
  }

  /** Every block below `c` is present. */
  ghost predicate Complete(w: World, s: State, c: Cid) {
    forall x :: Reach(w.links, c, x) ==> x.hash in s.blocks
  }

  /** In every run in which nobody unpins a root while this adder relies on it, the
      adder returns with its root pinned and everything below it present. */
  lemma UndisturbedAddIsComplete(w: World, states: seq<State>, actions: seq<Action>, k: nat, i: nat, root: Cid)
    requires IsRun(w, states, actions) && k < |actions| && Undisturbed(states, actions, i, k)
    requires actions[k] == AdderReturn(i) && i in states[k + 1].adders && states[k + 1].adders[i].pc == Done(root)
    ensures root in states[k + 1].rec && Complete(w, states[k + 1], root)
  {
    UndisturbedNotExposed(w, states, actions, k, i);
    AddIsComplete(w, states, actions, k, i, root);
    assert Step(w, states[k], actions[k], states[k + 1]);
    assert WaitingRoot(states[k].adders[i], root);
    RunWaiting(w, states, actions, k, i, root);
    hide Reach, Under;
  }

  /** In every run, disturbed or not, an adder that has never given up the lock
      returns with everything below its root present. */
  lemma UnpausedAddIsComplete(w: World, states: seq<State>, actions: seq<Action>, k: nat, i: nat, root: Cid)
    requires IsRun(w, states, actions) && k < |actions|
    requires forall j :: 0 <= j < k && i in states[j].adders ==> !states[j].adders[i].pc.Paused?
    requires actions[k] == AdderReturn(i) && i in states[k + 1].adders && states[k + 1].adders[i].pc == Done(root)
    ensures Complete(w, states[k + 1], root)
  {
    AddIsComplete(w, states, actions, k, i, root);
  }

  datatype Run = Run(states: seq<State>, actions: seq<Action>)

  ghost predicate RunsTo(w: World, r: Run, s: State) {
    IsRun(w, r.states, r.actions) && r.states[|r.actions|] == s
  }

  lemma Extend(w: World, r: Run, s: State, a: Action, t: State) returns (q: Run)
    requires RunsTo(w, r, s) && Step(w, s, a, t)
    ensures RunsTo(w, q, t)
  {
    hide Step;
    q := Run(r.states + [t], r.actions + [a]);
  }

  /** The content of the example: a file `f` with one chunk `c`, a file `g`, and the
      directories `top` with `f` and `dir` with both files. */
  ghost predicate Example(w: World, top: Cid, dir: Cid, f: Cid, c: Cid, g: Cid) {
    && w.links == map[top := [f], dir := [f, g], f := [c], c := [], g := []]
    && w.dirs == {top, dir} && w.insecure == {}
    && c.hash !in {top.hash, dir.hash, f.hash, g.hash}
    && top != dir && f !in {top, dir, c, g} && c !in {top, dir, g} && g !in {top, dir}
  }

  lemma ExampleReach(w: World, top: Cid, dir: Cid, f: Cid, c: Cid, g: Cid)
    requires Example(w, top, dir, f, c, g)
    ensures Reach(w.links, f, f) && Reach(w.links, dir, f) && Reach(w.links, dir, c) && Reach(w.links, dir, g)
    ensures forall x :: Reach(w.links, top, x) ==> x == top || x == f || x == c
    ensures forall x :: Reach(w.links, dir, x) ==> x == dir || x == f || x == c || x == g
    ensures forall x :: Listed(w, dir, x) ==> x == dir || x == f || x == g
    ensures !Reach(w.links, f, dir)
  {
    ReachSelf(w.links, f);
    ReachSelf(w.links, c);
    ReachSelf(w.links, g);
    ReachCons(w.links, f, c, c);
    ReachCons(w.links, dir, f, f);
    ReachCons(w.links, dir, f, c);
    ReachCons(w.links, dir, g, g);
    forall x | Reach(w.links, top, x) ensures x in {top, f, c} {
      ReachInClosed(w.links, {top, f, c}, top, x);
    }
    forall x | Reach(w.links, dir, x) ensures x in {dir, f, c, g} {
      ReachInClosed(w.links, {dir, f, c, g}, dir, x);
    }
    forall x | Listed(w, dir, x) ensures x in {dir, f, g} {
      ReachInClosed(DirLinks(w), {dir, f, g}, dir, x);
    }
    if Reach(w.links, f, dir) {
      ReachInClosed(w.links, {f, c}, f, dir);
    }
  }

  lemma ExampleUnder(w: World, top: Cid, dir: Cid, f: Cid, c: Cid, g: Cid)
    requires Example(w, top, dir, f, c, g)
    ensures forall x :: Under(w, {f}, x) <==> x == f || x == c
    ensures forall x :: Under(w, {g}, x) <==> x == g
    ensures forall x :: Under(w, {f, g}, x) <==> x == f || x == c || x == g
  {
    ReachSelf(w.links, f);
    ReachSelf(w.links, c);
    ReachSelf(w.links, g);
    ReachCons(w.links, f, c, c);
    forall x ensures Reach(w.links, f, x) <==> x == f || x == c {
      if Reach(w.links, f, x) {
        ReachInClosed(w.links, {f, c}, f, x);
      }
    }
    forall x ensures Reach(w.links, g, x) <==> x == g {
      if Reach(w.links, g, x) {
        ReachInClosed(w.links, {g}, g, x);
      }
    }
    hide Reach;
    assert f in {f, g} && g in {f, g} && f in {f} && g in {g};
  }

  /** The adder adds `f`, and a collection asks for the lock. */
  lemma ExampleStart(w: World, f: Cid, c: Cid) returns (r: Run, s: State)
    requires forall x :: Under(w, {f}, x) <==> x == f || x == c
    ensures RunsTo(w, r, s)
    ensures s == State({f.hash, c.hash}, {}, {}, {}, map[0 := Adder(Running, {f}, {f}, {})], map[], 1, Free)
  {
    hide Reach, Under, RunsTo, ClientEnabled, ClientNext, Listed;
    s := State({}, {}, {}, {}, map[], map[], 0, Free);
    r := StartRun(w, s);
    var t := AdderNext(w, s, AdderStart(0));
    r := Extend(w, r, s, AdderStart(0), t);
    var a := AdderWrite(0, {f}, {}, {f.hash, c.hash});
    assert {f} + {} == {f} && {} + {f} + {} == {f} && {} + {f} == {f};
    assert f in {f} + {};
    s := AdderNext(w, t, a);
    r := Extend(w, r, t, a, s);
    t := ExclusiveNext(w, s, GcRequest);
    r := Extend(w, r, s, GcRequest, t);
    s := t;
  }

  /** The adder pauses for the waiting collection. */
  lemma ExamplePause(w: World, top: Cid, dir: Cid, f: Cid, c: Cid, g: Cid, r0: Run, s0: State)
    returns (r: Run, s: State)
    requires Example(w, top, dir, f, c, g) && RunsTo(w, r0, s0)
    requires s0 == State({f.hash, c.hash}, {}, {}, {}, map[0 := Adder(Running, {f}, {f}, {})], map[], 1, Free)
    ensures RunsTo(w, r, s)
    ensures s == s0.(blocks := {f.hash, c.hash, top.hash}, rec := {f},
                     adders := map[0 := Adder(Paused(f), {f}, {f}, {f})])
  {
    ExampleReach(w, top, dir, f, c, g);
    ExampleUnder(w, top, dir, f, c, g);
    assert Kids(w.links, top) == [f] && f in Kids(w.links, top);
    hide Reach, Under, RunsTo, ClientEnabled, ClientNext, ExclusiveEnabled, ExclusiveNext, Example, Listed;
    var a := AdderPinRoot(0, top, {top.hash});
    assert AdderEnabled(w, s0, a);
    var t := AdderNext(w, s0, a);
    r := Extend(w, r0, s0, a, t);
    s := AdderNext(w, t, AdderUnlock(0));
    r := Extend(w, r, t, AdderUnlock(0), s);
    assert s.blocks == {f.hash, c.hash, top.hash} && s.rec == {f} && s.adders[0] == Adder(Paused(f), {f}, {f}, {f});
  }

  lemma StartRun(w: World, s: State) returns (r: Run)
    requires Init(s)
    ensures RunsTo(w, r, s)
  {
    r := Run([s], []);
  }

  /** A client unpins `f`. */
  lemma ExampleUnpin(w: World, f: Cid, r0: Run, s0: State) returns (r: Run, s: State)
    requires RunsTo(w, r0, s0) && s0.rec == {f} && s0.clients == map[] && s0.excl == Free
    ensures RunsTo(w, r, s) && s == s0.(rec := {})
  {
    hide Reach, Under, RunsTo, AdderEnabled, AdderNext, ExclusiveEnabled, ExclusiveNext;
    var t := ClientNext(s0, ClientStart(1, UnpinLocked(f, true)));
    r := Extend(w, r0, s0, ClientStart(1, UnpinLocked(f, true)), t);
    s := ClientNext(t, ClientStep(1, {}));
    r := Extend(w, r, t, ClientStep(1, {}), s);
    t := ClientNext(s, ClientUnlock(1));
    r := Extend(w, r, s, ClientUnlock(1), t);
    s := t;
  }

  /** A client pins `f` directly. */
  lemma ExampleRepin(w: World, f: Cid, r0: Run, s0: State) returns (r: Run, s: State)
    requires RunsTo(w, r0, s0) && s0.rec == {} && s0.direct == {} && s0.clients == map[] && s0.excl == Free
    requires f.hash in s0.blocks
    ensures RunsTo(w, r, s) && s == s0.(direct := {f})
  {
    hide Reach, Under, RunsTo, AdderEnabled, AdderNext, ExclusiveEnabled, ExclusiveNext;
    s := ClientNext(s0, ClientStart(2, PinLocked(f, false)));
    r := Extend(w, r0, s0, ClientStart(2, PinLocked(f, false)), s);
    var t := ClientNext(s, ClientStep(2, {}));
    r := Extend(w, r, s, ClientStep(2, {}), t);
    s := ClientNext(t, ClientUnlock(2));
    r := Extend(w, r, t, ClientUnlock(2), s);
  }

  /** A collection keeps `f` and deletes its chunk. */
  lemma ExampleSweep(w: World, f: Cid, c: Cid, r0: Run, s0: State) returns (r: Run, s: State)
    requires RunsTo(w, r0, s0) && s0.rec == {} && s0.direct == {f} && s0.internal == {} && s0.clients == map[]
    requires s0.adders == map[0 := Adder(Paused(f), {f}, {f}, {f})] && s0.gcWaiting == 1 && s0.excl == Free
    requires c.hash in s0.blocks && c.hash != f.hash
    ensures RunsTo(w, r, s) && s == s0.(blocks := s0.blocks - {c.hash}, gcWaiting := 0)
  {
    hide Reach, Under, RunsTo, AdderEnabled, AdderNext, ClientEnabled, ClientNext, Protected;
    r, s := r0, s0;
    var t := ExclusiveNext(w, s, GcLock({}));
    assert !SharedHeld(s);
    r := Extend(w, r, s, GcLock({}), t);
    s := t;
    for i := 0 to 3
      invariant RunsTo(w, r, s) && s == s0.(gcWaiting := 0, excl := s.excl)
      invariant s.excl == if i == 0 then Mark(Recursive, {}, {}, {}, {}, false)
                     else if i == 1 then Mark(BestEffort, {}, {}, {}, {}, false)
                     else if i == 2 then Mark(Internal, {}, {}, {f}, {}, false) else Sweep({f.hash})
    {
      t := ExclusiveNext(w, s, MarkNext);
      assert {} + {f} == {f} && Hashes({f}) == {f.hash};
      r := Extend(w, r, s, MarkNext, t);
      s := t;
    }
    t := ExclusiveNext(w, s, SweepKey(c.hash, true));
    r := Extend(w, r, s, SweepKey(c.hash, true), t);
    s := ExclusiveNext(w, t, ExclusiveUnlock);
    r := Extend(w, r, t, ExclusiveUnlock, s);
  }

  /** The adder takes the lock again and adds `g`. */
  lemma ExampleResume(w: World, f: Cid, g: Cid, r0: Run, s0: State) returns (r: Run, s: State)
    requires RunsTo(w, r0, s0) && s0.excl == Free && forall x :: Under(w, {g}, x) <==> x == g
    requires s0.adders == map[0 := Adder(Paused(f), {f}, {f}, {f})]
    ensures RunsTo(w, r, s)
    ensures s == s0.(blocks := s0.blocks + {g.hash}, adders := map[0 := Adder(Running, {f, g}, {f, g}, {f})])
  {
    hide Reach, Under, RunsTo, ClientEnabled, ClientNext, ExclusiveEnabled, ExclusiveNext, Listed;
    var t := AdderNext(w, s0, AdderRelock(0));
    r := Extend(w, r0, s0, AdderRelock(0), t);
    var a := AdderWrite(0, {g}, {}, {g.hash});
    assert g in {g} + {} && {g} + {} == {g} && {f} + {g} + {} == {f, g} && {f} + {g} == {f, g};
    s := AdderNext(w, t, a);
    r := Extend(w, r, t, a, s);
  }

  /** The adder returns the directory of both files. */
  lemma ExampleReturn(w: World, top: Cid, dir: Cid, f: Cid, c: Cid, g: Cid, r0: Run, s0: State)
    returns (r: Run, s: State)
    requires Example(w, top, dir, f, c, g) && RunsTo(w, r0, s0)
    requires f.hash in s0.blocks && g.hash in s0.blocks && c.hash !in s0.blocks
    requires s0.adders == map[0 := Adder(Running, {f, g}, {f, g}, {f})]
    ensures RunsTo(w, r, s) && 0 in s.adders && s.adders[0].pc == Done(dir) && s.adders[0].files == {f, g}
    ensures c.hash !in s.blocks
  {
    ExampleReach(w, top, dir, f, c, g);
    ExampleUnder(w, top, dir, f, c, g);
    assert c.hash != dir.hash;
    hide Reach, Under, RunsTo, ClientEnabled, ClientNext, ExclusiveEnabled, ExclusiveNext, Example, Listed;
    var a := AdderFinish(0, dir, {dir.hash});
    assert AdderEnabled(w, s0, a);
    var t := AdderNext(w, s0, a);
    r := Extend(w, r0, s0, a, t);
    s := AdderNext(w, t, AdderReturn(0));
    r := Extend(w, r, t, AdderReturn(0), s);
  }

  /** A disturbed run really loses data: between a pause and the end of an add a
      client unpins the root of the pause and pins it directly, and a collection
      takes the chunks of a file, which the final listing does not read. The adder
      returns without error although its file cannot be read. */
  lemma DisturbedAddLosesFile()
    ensures exists w: World, r: Run, s: State, root, f, c ::
      RunsTo(w, r, s) && 0 in s.adders && s.adders[0].pc == Done(root) && f in s.adders[0].files &&
      c in Kids(w.links, f) && Reach(w.links, root, c) && c.hash !in s.blocks
  {
    var f, top, dir := Cid(1, DAG_PB, "f"), Cid(1, DAG_PB, "top"), Cid(1, DAG_PB, "dir");
    var c, g := Cid(1, RAW, "c"), Cid(1, RAW, "g");
    var w: World := Facts(map[top := [f], dir := [f, g], f := [c], c := [], g := []], {top, dir}, {});
    assert Example(w, top, dir, f, c, g);
    ExampleReach(w, top, dir, f, c, g);
    ExampleUnder(w, top, dir, f, c, g);
    hide Reach, RunsTo, Under;
    var r, s := ExampleStart(w, f, c);
    r, s := ExamplePause(w, top, dir, f, c, g, r, s);
    r, s := ExampleUnpin(w, f, r, s);
    r, s := ExampleRepin(w, f, r, s);
    r, s := ExampleSweep(w, f, c, r, s);
    r, s := ExampleResume(w, f, g, r, s);
    r, s := ExampleReturn(w, top, dir, f, c, g, r, s);
    assert RunsTo(w, r, s) && s.adders[0].pc == Done(dir) && f in s.adders[0].files;
    assert c in Kids(w.links, f) && Reach(w.links, dir, c) && c.hash !in s.blocks;
  }
}
