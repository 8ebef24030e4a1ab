/** When a paused adder is safe: the exact condition, on blocks, under which every
    way things can go on leaves it complete. */
module GcExposure {
  import opened Graph
  import opened Cids
  import opened Marking
  import opened GcProtocol
  import opened GcSafety
  import opened GcRuns

  /** No pin is taken away; a direct pin may become a recursive one. */
  ghost predicate KeepsPins(s: State, t: State) {
    s.rec <= t.rec && s.direct <= t.direct + t.rec
  }

  /** `r` leads from `s` to `t` and takes no pin away. */
  ghost predicate Leads(w: World, s: State, r: Run, t: State) {
    && |r.states| == |r.actions| + 1 && r.states[0] == s && r.states[|r.actions|] == t
    && (forall k :: 0 <= k < |r.actions| ==>
          Step(w, r.states[k], r.actions[k], r.states[k + 1]) && KeepsPins(r.states[k], r.states[k + 1]))
  }

  /** Every time the adder takes the lock again, all it had built is there. */
  ghost predicate ResumesComplete(w: World, s: State, i: nat, root: Cid) {
    forall r, t :: Leads(w, s, r, t) && r.actions != [] && r.actions[|r.actions| - 1] == AdderRelock(i) ==>
      Complete(w, t, root)
  }

  /** Whenever the adder has returned, everything below its root is there. */
  ghost predicate ReturnsComplete(w: World, s: State, i: nat) {
    forall r, t, root :: Leads(w, s, r, t) && i in t.adders && t.adders[i].pc == Done(root) ==> Complete(w, t, root)
  }

  /** The adder may still return `root`: its files are below it, and the tree has
      grown since all pauses. */
  ghost predicate MayReturn(w: World, a: Adder, root: Cid) {
    (forall f :: f in a.files ==> Reach(w.links, root, f)) && Grown(w, a.pauses, root)
  }

  /** Returning `last` after a pause with `root` reads the block again, because it
      lists it, or writes it again, because it is not part of the old tree. */
  ghost predicate Renewed(w: World, root: Cid, last: Cid, h: Multihash) {
    exists y: Cid :: y.hash == h && Reach(w.links, last, y) && (Listed(w, last, y) || !Reach(w.links, root, y))
  }

  /** The block is present and has a pinned name. */
  ghost predicate Guarded(w: World, s: State, h: Multihash) {
    h in s.blocks && Protected(w, s, h)
  }

  // ---------------------------------------------------------------------------
  // What is guarded stays

  lemma ProtectedMono(w: World, s: State, t: State, h: Multihash)
    requires Protected(w, s, h) && KeepsPins(s, t) && t.internal == s.internal
    ensures Protected(w, t, h)
  {
    var x: Cid :| x.hash == h && (Under(w, s.rec, x) || x in s.direct || x in s.internal);
    if Under(w, s.rec, x) {
      var r :| r in s.rec && Reach(w.links, r, x);
      assert r in t.rec && Under(w, t.rec, x);
    } else if x in t.rec {
      ReachSelf(w.links, x);
      assert Under(w, t.rec, x);
    }
  }

  lemma GuardedStep(w: World, s: State, a: Action, t: State, h: Multihash)
    requires Inv(w, s) && Step(w, s, a, t) && KeepsPins(s, t) && Guarded(w, s, h)
    ensures Guarded(w, t, h)
  {
    hide Inv, Protected, AdderEnabled, AdderNext, ClientEnabled, ClientNext, ExclusiveEnabled, ExclusiveNext;
    StepFrames(w, s, a);
    ProtectedMono(w, s, t, h);
    if h !in t.blocks {
      DeletionSafe(w, s, a, t, h);
    }
  }

  lemma {:induction false} LeadsInv(w: World, s: State, r: Run, t: State, k: nat)
    requires Inv(w, s) && Leads(w, s, r, t) && k < |r.states|
    ensures Inv(w, r.states[k])
  {
    if k > 0 {
      hide Inv, Step;
      LeadsInv(w, s, r, t, k - 1);
      InvStep(w, r.states[k - 1], r.actions[k - 1], r.states[k]);
    }
  }

  lemma {:induction false} GuardedStays(w: World, s: State, r: Run, t: State, j: nat, k: nat, h: Multihash)
    requires Inv(w, s) && Leads(w, s, r, t) && j <= k < |r.states| && Guarded(w, r.states[j], h)
    ensures Guarded(w, r.states[k], h)
    decreases k
  {
    if j < k {
      hide Inv, Step, Guarded, KeepsPins;
      LeadsInv(w, s, r, t, k - 1);
      GuardedStays(w, s, r, t, j, k - 1, h);
      GuardedStep(w, r.states[k - 1], r.actions[k - 1], r.states[k], h);
    }
  }

  /** From a pause with `root` on: what adder `i` builds on, or returns, lacks at
      most blocks of the old tree, and none that the return has renewed. `was` is
      the adder at the pause. */
  ghost predicate OnlyOldMissing(w: World, was: Adder, root: Cid, s: State, i: nat) {
    i in s.adders && var a := s.adders[i];
    && AdderShape(w, a) && was.files <= a.files && was.pauses <= a.pauses
    && ((Holding(a) && !a.pc.FinalPinned?) || a.pc.Paused? ==>
          forall y :: Under(w, a.stored, y) ==> y.hash in s.blocks || Reach(w.links, root, y))
    && (a.pc.RootPinned? || a.pc.Paused? ==> a.pc.root in s.rec || a.pc.root == root)
    && (a.pc.FinalPinned? || a.pc.Done? ==> MayReturn(w, was, a.pc.root) && a.pc.root in s.rec)
    && (a.pc.FinalPinned? || a.pc.Done? ==>
          forall y :: Reach(w.links, a.pc.root, y) ==> y.hash in s.blocks || OldUnlisted(w, root, a.pc.root, y))
  }

  ghost predicate OldUnlisted(w: World, root: Cid, last: Cid, y: Cid) {
    Reach(w.links, root, y) && !Listed(w, last, y)
  }

  /** Nothing below a pinned root is deleted. */
  lemma PinnedStays(w: World, s: State, a: Action, t: State, roots: set<Cid>, y: Cid)
    requires Inv(w, s) && Step(w, s, a, t) && roots <= s.rec && Under(w, roots, y) && y.hash in s.blocks
    ensures y.hash in t.blocks
  {
    hide Inv, Step, Reach;
    assert Under(w, s.rec, y) by {
      ReachFromMono(w.links, w.links, roots, s.rec, y);
    }
    if y.hash !in t.blocks {
      DeletionSafe(w, s, a, t, y.hash);
    }
  }

  lemma OldMissingOther(w: World, was: Adder, root: Cid, s: State, a: Action, t: State, i: nat)
    requires Inv(w, s) && Step(w, s, a, t) && KeepsPins(s, t) && OnlyOldMissing(w, was, root, s, i)
    requires i in t.adders && t.adders[i] == s.adders[i]
    ensures OnlyOldMissing(w, was, root, t, i)
  {
    hide Inv, Step, AdderShape, MayReturn, OldUnlisted, Under, Reach, Protected;
    var ad := s.adders[i];
    if Holding(ad) {
      HolderKeeps(w, s, a, t, i);
    }
    if ad.pc.Paused? {
      PausedStored(w, ad);
      forall y | Under(w, ad.stored, y) && !Reach(w.links, root, y) ensures y.hash in t.blocks {
        UnderOne(w, ad.pc.root, y);
        PinnedStays(w, s, a, t, {ad.pc.root}, y);
      }
    }
    if ad.pc.Done? {
      forall y | Reach(w.links, ad.pc.root, y) && y.hash in s.blocks ensures y.hash in t.blocks {
        UnderOne(w, ad.pc.root, y);
        PinnedStays(w, s, a, t, {ad.pc.root}, y);
      }
    }
  }

  lemma HolderKeeps(w: World, s: State, a: Action, t: State, i: nat)
    requires Inv(w, s) && Step(w, s, a, t) && i in s.adders && Holding(s.adders[i])
    ensures s.blocks <= t.blocks
  {
    assert SharedHeld(s);
    hide Inv, Step, Protected, SharedHeld;
    if h :| h in s.blocks && h !in t.blocks {
      DeletionSafe(w, s, a, t, h);
    }
  }

  lemma PausedStored(w: World, a: Adder)
    requires AdderShape(w, a) && (a.pc.RootPinned? || a.pc.Paused? || a.pc.FinalPinned?)
    ensures a.stored == {a.pc.root}
  {
    hide Under;
  }

  lemma OldMissingOwn(w: World, was: Adder, root: Cid, s: State, a: Action)
    requires AdderEnabled(w, s, a) && OnlyOldMissing(w, was, root, s, a.i)
    requires KeepsPins(s, AdderNext(w, s, a))
    ensures OnlyOldMissing(w, was, root, AdderNext(w, s, a), a.i)
  {
    var ad, t := s.adders[a.i], AdderNext(w, s, a);
    OwnStepOk(w, s, a);
    match a
    case AdderWrite(i, files, dirs, hs) =>
      hide AdderShape, MayReturn, Reach;
      forall y | Under(w, t.adders[i].stored, y) ensures y.hash in t.blocks || Reach(w.links, root, y) {
        WrittenUnder(w, ad.stored, files, dirs, y);
      }
    case AdderPinRoot(i, top, hs) =>
      OldPinRoot(w, was, root, s, i, top, hs);
    case AdderFinish(i, last, hs) =>
      hide AdderShape, Under, Reach, Listed;
      GrownLess(w, was.pauses, ad.pauses, last);
    case AdderReturn(i) => hide AdderShape, MayReturn, Reach, Under, Listed;
    case _ => hide AdderShape, MayReturn, Reach, Under, Listed;
  }

  lemma GrownLess(w: World, fewer: set<Cid>, more: set<Cid>, root: Cid)
    requires fewer <= more && Grown(w, more, root)
    ensures Grown(w, fewer, root)
  {
    hide Reach;
  }

  lemma WrittenUnder(w: World, stored: set<Cid>, files: set<Cid>, dirs: set<Cid>, y: Cid)
    requires Under(w, stored + files + dirs, y)
    ensures Under(w, stored, y) || Under(w, files + dirs, y)
  {
    var r :| r in stored + files + dirs && Reach(w.links, r, y);
    if r !in stored {
      assert r in files + dirs;
    }
  }

  lemma OldPinRoot(w: World, was: Adder, root: Cid, s: State, i: nat, top: Cid, hs: set<Multihash>)
    requires AdderEnabled(w, s, AdderPinRoot(i, top, hs)) && OnlyOldMissing(w, was, root, s, i)
    requires AdderShape(w, AdderNext(w, s, AdderPinRoot(i, top, hs)).adders[i])
    ensures OnlyOldMissing(w, was, root, AdderNext(w, s, AdderPinRoot(i, top, hs)), i)
  {
    var t, rn := AdderNext(w, s, AdderPinRoot(i, top, hs)), CurRoot(w, top);
    CurRootCovers(w, top, s.adders[i].files);
    forall y | Under(w, {rn}, y) ensures y.hash in t.blocks || Reach(w.links, root, y) {
      UnderOne(w, rn, y);
      ReachTrans(w.links, top, rn, y);
    }
    hide AdderShape, MayReturn, Reach, Under, Listed;
  }

  lemma OldMissingStep(w: World, was: Adder, root: Cid, s: State, a: Action, t: State, i: nat)
    requires Inv(w, s) && Step(w, s, a, t) && KeepsPins(s, t) && OnlyOldMissing(w, was, root, s, i)
    ensures OnlyOldMissing(w, was, root, t, i)
  {
    assert i in s.adders;
    hide Inv, OnlyOldMissing, KeepsPins;
    hide AdderEnabled, AdderNext, ClientEnabled, ClientNext, ExclusiveEnabled, ExclusiveNext;
    StepAdders(w, s, a, t);
    if t.adders[i] == s.adders[i] {
      OldMissingOther(w, was, root, s, a, t, i);
    } else {
      OldMissingOwn(w, was, root, s, a);
    }
  }

  lemma OldMissingStart(w: World, s: State, i: nat)
    requires i in s.adders && s.adders[i].pc.Paused? && AdderShape(w, s.adders[i])
    ensures OnlyOldMissing(w, s.adders[i], s.adders[i].pc.root, s, i)
  {
    forall y | Under(w, s.adders[i].stored, y) ensures Reach(w.links, s.adders[i].pc.root, y) {
      UnderOne(w, s.adders[i].pc.root, y);
    }
    hide Under, Reach;
  }

  lemma {:induction false} LeadsOldMissing(w: World, s: State, r: Run, t: State, k: nat, i: nat)
    requires Inv(w, s) && Leads(w, s, r, t) && k < |r.states|
    requires i in s.adders && s.adders[i].pc.Paused? && AdderShape(w, s.adders[i])
    ensures OnlyOldMissing(w, s.adders[i], s.adders[i].pc.root, r.states[k], i)
  {
    hide Inv, Step, OnlyOldMissing, AdderShape, KeepsPins;
    if k == 0 {
      OldMissingStart(w, s, i);
    } else {
      LeadsOldMissing(w, s, r, t, k - 1, i);
      LeadsInv(w, s, r, t, k - 1);
      OldMissingStep(w, s.adders[i], s.adders[i].pc.root, r.states[k - 1], r.actions[k - 1], r.states[k], i);
    }
  }

  // ---------------------------------------------------------------------------
  // What is not guarded can be lost

  lemma Extended(w: World, s: State, r: Run, t: State, a: Action, u: State) returns (q: Run)
    requires Leads(w, s, r, t) && Step(w, t, a, u) && KeepsPins(t, u)
    ensures Leads(w, s, q, u) && q.actions == r.actions + [a]
  {
    hide Step, KeepsPins;
    q := Run(r.states + [u], r.actions + [a]);
  }

  /** All operations end, one after the other. */
  lemma {:induction false} ReleaseClients(w: World, s: State, r: Run, t: State) returns (q: Run)
    requires Leads(w, s, r, t)
    ensures Leads(w, s, q, t.(clients := map[]))
    decreases |t.clients|
  {
    if t.clients == map[] {
      q := r;
    } else {
      var i :| i in t.clients;
      var u := ClientNext(t, ClientUnlock(i));
      hide Leads;
      q := Extended(w, s, r, t, ClientUnlock(i), u);
      FewerClients(t.clients, i);
      q := ReleaseClients(w, s, q, u);
    }
  }

  lemma FewerClients(m: map<nat, Client>, i: nat)
    requires i in m
    ensures |m - {i}| < |m|
  {
    assert (m - {i}).Keys == m.Keys - {i};
  }

  function Holders(s: State): set<nat> {
    set j | j in s.adders && Holding(s.adders[j])
  }

  /** All adders that hold the lock fail, one after the other; paused ones stay. */
  lemma {:induction false} ReleaseAdders(w: World, s: State, r: Run, t: State) returns (q: Run, u: State)
    requires Leads(w, s, r, t)
    ensures Leads(w, s, q, u) && u == t.(adders := u.adders) && Holders(u) == {}
    ensures forall j :: j in t.adders && !Holding(t.adders[j]) ==> j in u.adders && u.adders[j] == t.adders[j]
    decreases |Holders(t)|
  {
    if Holders(t) == {} {
      q, u := r, t;
    } else {
      var j :| j in Holders(t);
      var v := AdderNext(w, t, AdderFail(j));
      assert Holders(v) == Holders(t) - {j};
      assert v == t.(adders := v.adders) && KeepsPins(t, v);
      assert Step(w, t, AdderFail(j), v);
      hide Leads, Step, AdderNext, KeepsPins;
      q := Extended(w, s, r, t, AdderFail(j), v);
      q, u := ReleaseAdders(w, s, q, v);
    }
  }

  /** From any state everybody can let go of the lock while `i` stays paused. */
  lemma ReleaseAll(w: World, s: State, i: nat) returns (q: Run, u: State)
    requires i in s.adders && s.adders[i].pc.Paused?
    ensures Leads(w, s, q, u) && u.excl.Free? && u.clients == map[] && Holders(u) == {}
    ensures i in u.adders && u.adders[i] == s.adders[i]
    ensures u.blocks == s.blocks && u.rec == s.rec && u.direct == s.direct && u.internal == s.internal
  {
    q := Run([s], []);
    var t := s;
    if !s.excl.Free? {
      t := ExclusiveNext(w, s, ExclusiveUnlock);
      assert Step(w, s, ExclusiveUnlock, t);
      q := Extended(w, s, q, s, ExclusiveUnlock, t);
    }
    hide Leads, Step, ExclusiveNext;
    q := ReleaseClients(w, s, q, t);
    q, u := ReleaseAdders(w, s, q, t.(clients := map[]));
  }

  lemma SamePins(w: World, s: State, t: State, h: Multihash)
    requires !Protected(w, s, h) && t.rec == s.rec && t.direct == s.direct && t.internal == s.internal
    ensures !Protected(w, t, h)
  {
    hide Under;
  }

  /** With nobody holding the lock, an unprotected block can be removed. */
  lemma LoseBlock(w: World, s: State, r: Run, t: State, h: Multihash) returns (q: Run, u: State)
    requires Leads(w, s, r, t) && t.excl.Free? && t.clients == map[] && Holders(t) == {} && !Protected(w, t, h)
    ensures Leads(w, s, q, u) && u == t.(blocks := t.blocks - {h})
  {
    hide Leads, Protected, AdderEnabled, AdderNext, ClientEnabled, ClientNext;
    assert !SharedHeld(t) by {
      forall j | j in t.adders ensures !Holding(t.adders[j]) {
        assert j !in Holders(t);
      }
    }
    u := ExclusiveNext(w, t, RmLock({h}));
    q := Extended(w, s, r, t, RmLock({h}), u);
    var v := ExclusiveNext(w, u, RmBlock(h));
    q := Extended(w, s, q, u, RmBlock(h), v);
    u := ExclusiveNext(w, v, ExclusiveUnlock);
    q := Extended(w, s, q, v, ExclusiveUnlock, u);
  }

  /** A paused adder can resume without an unguarded block. */
  lemma ResumeWithout(w: World, s: State, i: nat, h: Multihash) returns (q: Run, u: State)
    requires i in s.adders && s.adders[i].pc.Paused? && !Guarded(w, s, h)
    ensures Leads(w, s, q, u) && q.actions != [] && q.actions[|q.actions| - 1] == AdderRelock(i)
    ensures i in u.adders && u.adders[i] == s.adders[i].(pc := Resumed) && h !in u.blocks
  {
    var t;
    q, t := ReleaseAll(w, s, i);
    hide Leads, Protected, ClientEnabled, ClientNext, ExclusiveEnabled, ExclusiveNext;
    if h in s.blocks {
      SamePins(w, s, t, h);
      q, t := LoseBlock(w, s, q, t, h);
    }
    u := AdderNext(w, t, AdderRelock(i));
    q := Extended(w, s, q, t, AdderRelock(i), u);
  }

  ghost function NewHashes(w: World, root: Cid, last: Cid): set<Multihash> {
    set y | y in Nodes(w.links, {last}) && Reach(w.links, last, y) && !Reach(w.links, root, y) :: y.hash
  }

  ghost function ListedHashes(w: World, last: Cid): set<Multihash> {
    set y | y in Nodes(w.links, {last}) && Listed(w, last, y) :: y.hash
  }

  lemma {:induction false} StepsInNodes(g: map<Cid, seq<Cid>>, a: Cid, b: Cid, n: nat, roots: set<Cid>)
    requires Steps(g, a, b, n) && a in Nodes(g, roots)
    ensures b in Nodes(g, roots)
    decreases n
  {
    if n > 0 {
      var k :| k in Kids(g, a) && Steps(g, k, b, n - 1);
      StepsInNodes(g, k, b, n - 1, roots);
    }
  }

  lemma ReachInNodes(w: World, root: Cid, y: Cid)
    requires Reach(w.links, root, y)
    ensures y in Nodes(w.links, {root})
  {
    var n: nat :| Steps(w.links, root, y, n);
    StepsInNodes(w.links, root, y, n, {root});
  }

  lemma ListedReach(w: World, root: Cid, y: Cid)
    requires Listed(w, root, y)
    ensures Reach(w.links, root, y)
  {
    var n: nat :| Steps(DirLinks(w), root, y, n);
    StepsMono(DirLinks(w), w.links, root, y, n);
  }

  /** What a return writes and reads again. */
  lemma RenewedHashes(w: World, root: Cid, last: Cid, h: Multihash)
    requires !Renewed(w, root, last, h)
    ensures h !in NewHashes(w, root, last) && h !in ListedHashes(w, last) && h != last.hash
    ensures forall y :: Reach(w.links, last, y) ==> y.hash in NewHashes(w, root, last) || Reach(w.links, root, y)
    ensures forall y :: Listed(w, last, y) ==> y.hash in ListedHashes(w, last)
  {
    ReachSelf(w.links, last);
    ReachSelf(DirLinks(w), last);
    forall y | Reach(w.links, last, y) ensures y in Nodes(w.links, {last}) {
      ReachInNodes(w, last, y);
    }
    forall y | Listed(w, last, y) ensures Reach(w.links, last, y) {
      ListedReach(w, last, y);
    }
    hide Reach, Listed, Nodes;
  }

  /** ... and return without it any root for which the block is not renewed. */
  lemma ReturnWithout(w: World, s: State, i: nat, last: Cid, h: Multihash) returns (q: Run, u: State)
    requires i in s.adders && s.adders[i].pc.Paused? && AdderShape(w, s.adders[i]) && !Guarded(w, s, h)
    requires MayReturn(w, s.adders[i], last) && !Renewed(w, s.adders[i].pc.root, last, h)
    ensures Leads(w, s, q, u) && i in u.adders && u.adders[i].pc == Done(last) && h !in u.blocks
  {
    var was, root := s.adders[i], s.adders[i].pc.root;
    var t;
    q, t := ResumeWithout(w, s, i, h);
    RenewedHashes(w, root, last, h);
    forall x ensures Under(w, {root}, x) <==> Reach(w.links, root, x) {
      UnderOne(w, root, x);
    }
    forall x ensures Under(w, {last}, x) <==> Reach(w.links, last, x) {
      UnderOne(w, last, x);
    }
    PausedStored(w, was);
    hide Leads, Reach, Under, Guarded, Listed, NewHashes, ListedHashes, AdderShape, KeepsPins;
    q, t := WriteLast(w, s, q, t, i, root, last);
    q, u := FinishLast(w, s, q, t, i, root, last);
  }

  /** The adder writes what is new in the tree below `last`. */
  lemma WriteLast(w: World, s: State, r: Run, t: State, i: nat, root: Cid, last: Cid) returns (q: Run, u: State)
    requires Leads(w, s, r, t) && i in t.adders && t.adders[i].pc.Resumed? && t.adders[i].stored == {root}
    requires forall x :: Under(w, {root}, x) <==> Reach(w.links, root, x)
    requires forall x :: Under(w, {last}, x) <==> Reach(w.links, last, x)
    requires forall y :: Reach(w.links, last, y) ==> y.hash in NewHashes(w, root, last) || Reach(w.links, root, y)
    ensures Leads(w, s, q, u) && u.blocks == t.blocks + NewHashes(w, root, last)
    ensures i in u.adders && u.adders[i] == t.adders[i].(pc := Running, stored := {root, last})
  {
    hide Leads, Reach, Under, Listed, NewHashes, ClientEnabled, ClientNext, ExclusiveEnabled, ExclusiveNext;
    var a := AdderWrite(i, {}, {last}, NewHashes(w, root, last));
    assert {} + {last} == {last} && last in {last} && {root} + {} + {last} == {root, last};
    assert AdderEnabled(w, t, a);
    u := AdderNext(w, t, a);
    assert u.adders[i].files == t.adders[i].files;
    q := Extended(w, s, r, t, a, u);
  }

  /** The adder lists the tree at `last`, pins it and returns. */
  lemma FinishLast(w: World, s: State, r: Run, t: State, i: nat, root: Cid, last: Cid) returns (q: Run, u: State)
    requires Leads(w, s, r, t) && i in t.adders && t.adders[i].pc.Running? && t.adders[i].stored == {root, last}
    requires MayReturn(w, t.adders[i], last)
    requires forall x :: Under(w, {last}, x) <==> Reach(w.links, last, x)
    requires forall y :: Listed(w, last, y) ==> y.hash in ListedHashes(w, last)
    ensures Leads(w, s, q, u) && u.blocks == t.blocks + ListedHashes(w, last) + {last.hash}
    ensures i in u.adders && u.adders[i].pc == Done(last)
  {
    var a := AdderFinish(i, last, ListedHashes(w, last));
    forall x | Reach(w.links, last, x) ensures Under(w, {root, last}, x) {
      assert Under(w, {last}, x);
      ReachFromMono(w.links, w.links, {last}, {root, last}, x);
    }
    hide Leads, Reach, Under, Listed, ListedHashes, ClientEnabled, ClientNext, ExclusiveEnabled, ExclusiveNext;
    assert AdderEnabled(w, t, a);
    var v := AdderNext(w, t, a);
    q := Extended(w, s, r, t, a, v);
    u := AdderNext(w, v, AdderReturn(i));
    q := Extended(w, s, q, v, AdderReturn(i), u);
  }

  lemma ResumesWithout(w: World, s: State, i: nat, root: Cid, x: Cid)
    requires i in s.adders && s.adders[i].pc == Paused(root) && Reach(w.links, root, x) && !Guarded(w, s, x.hash)
    ensures !ResumesComplete(w, s, i, root)
  {
    var q, u := ResumeWithout(w, s, i, x.hash);
    hide Leads, Reach;
    assert Leads(w, s, q, u) && !Complete(w, u, root);
  }

  lemma ReturnsWithout(w: World, s: State, i: nat, last: Cid, x: Cid)
    requires i in s.adders && s.adders[i].pc.Paused? && AdderShape(w, s.adders[i]) && MayReturn(w, s.adders[i], last)
    requires Reach(w.links, last, x) && !Guarded(w, s, x.hash) && !Renewed(w, s.adders[i].pc.root, last, x.hash)
    ensures !ReturnsComplete(w, s, i)
  {
    var q, u := ReturnWithout(w, s, i, last, x.hash);
    hide Leads, Reach;
    assert Leads(w, s, q, u) && !Complete(w, u, last);
  }

  // ---------------------------------------------------------------------------
  // The exact conditions

  /** In every reachable state, a paused adder will find all it had built whenever
      it takes the lock again, whatever happens short of taking pins away, if and
      only if each of these blocks is present and has a pinned name now. */
  lemma ResumesCompleteIff(w: World, states: seq<State>, actions: seq<Action>, i: nat, root: Cid)
    requires IsRun(w, states, actions)
    requires i in states[|actions|].adders && states[|actions|].adders[i].pc == Paused(root)
    ensures ResumesComplete(w, states[|actions|], i, root) <==>
            forall x :: Reach(w.links, root, x) ==> Guarded(w, states[|actions|], x.hash)
  {
    var s := states[|actions|];
    RunInv(w, states, actions, |actions|);
    hide IsRun, Reach, Inv, Guarded, Leads;
    if ResumesComplete(w, s, i, root) {
      forall x | Reach(w.links, root, x) ensures Guarded(w, s, x.hash) {
        if !Guarded(w, s, x.hash) {
          ResumesWithout(w, s, i, root, x);
        }
      }
    }
    if forall x :: Reach(w.links, root, x) ==> Guarded(w, s, x.hash) {
      forall r, t | Leads(w, s, r, t) ensures Complete(w, t, root) {
        StaysComplete(w, s, r, t, root, {});
      }
    }
  }

  lemma StaysComplete(w: World, s: State, r: Run, t: State, root: Cid, but: set<Multihash>)
    requires Inv(w, s) && Leads(w, s, r, t)
    requires forall x :: Reach(w.links, root, x) ==> x.hash in but || Guarded(w, s, x.hash)
    ensures forall x :: Reach(w.links, root, x) ==> x.hash in but || x.hash in t.blocks
  {
    hide Reach, Inv, Protected;
    forall x | Reach(w.links, root, x) && x.hash !in but ensures x.hash in t.blocks {
      GuardedStays(w, s, r, t, 0, |r.actions|, x.hash);
    }
  }

  /** In every reachable state, a paused adder will return a complete tree, whatever
      happens short of taking pins away, if and only if every block that is part of
      what it had built and of a tree it may return is present and has a pinned name
      now, or is read or written again by returning that tree. */
  lemma ReturnsCompleteIff(w: World, states: seq<State>, actions: seq<Action>, i: nat, root: Cid)
    requires IsRun(w, states, actions)
    requires i in states[|actions|].adders && states[|actions|].adders[i].pc == Paused(root)
    ensures var s := states[|actions|];
            ReturnsComplete(w, s, i) <==>
            forall last, x :: MayReturn(w, s.adders[i], last) && Reach(w.links, root, x) && Reach(w.links, last, x) ==>
              Guarded(w, s, x.hash) || Renewed(w, root, last, x.hash)
  {
    var s := states[|actions|];
    RunInv(w, states, actions, |actions|);
    RunShape(w, states, actions, |actions|, i);
    hide IsRun, Reach, Inv, Guarded, Renewed, Leads, AdderShape, MayReturn;
    if ReturnsComplete(w, s, i) {
      forall last, x | MayReturn(w, s.adders[i], last) && Reach(w.links, root, x) && Reach(w.links, last, x)
        ensures Guarded(w, s, x.hash) || Renewed(w, root, last, x.hash)
      {
        if !Guarded(w, s, x.hash) && !Renewed(w, root, last, x.hash) {
          ReturnsWithout(w, s, i, last, x);
        }
      }
    }
    if forall last, x :: MayReturn(w, s.adders[i], last) && Reach(w.links, root, x) && Reach(w.links, last, x) ==>
         Guarded(w, s, x.hash) || Renewed(w, root, last, x.hash)
    {
      forall r, t, last | Leads(w, s, r, t) && i in t.adders && t.adders[i].pc == Done(last)
        ensures Complete(w, t, last)
      {
        ReturnedComplete(w, s, r, t, i, last);
      }
    }
  }

  lemma MissingNotRenewed(w: World, blocks: set<Multihash>, root: Cid, last: Cid, x: Cid)
    requires forall y :: Reach(w.links, last, y) ==> y.hash in blocks || OldUnlisted(w, root, last, y)
    requires Reach(w.links, last, x) && x.hash !in blocks
    ensures Reach(w.links, root, x) && !Renewed(w, root, last, x.hash)
  {
    hide Reach, Listed;
    assert OldUnlisted(w, root, last, x);
    forall y: Cid | Reach(w.links, last, y) && y.hash == x.hash ensures OldUnlisted(w, root, last, y) {
    }
  }

  lemma ReturnedComplete(w: World, s: State, r: Run, t: State, i: nat, last: Cid)
    requires Inv(w, s) && Leads(w, s, r, t)
    requires i in s.adders && s.adders[i].pc.Paused? && AdderShape(w, s.adders[i])
    requires i in t.adders && t.adders[i].pc == Done(last)
    requires MayReturn(w, s.adders[i], last) ==> forall x ::
      Reach(w.links, s.adders[i].pc.root, x) && Reach(w.links, last, x) ==>
        Guarded(w, s, x.hash) || Renewed(w, s.adders[i].pc.root, last, x.hash)
    ensures Complete(w, t, last)
  {
    var root := s.adders[i].pc.root;
    LeadsOldMissing(w, s, r, t, |r.actions|, i);
    assert OnlyOldMissing(w, s.adders[i], root, t, i);
    hide Inv, Step, Protected, KeepsPins, Reach, Listed, AdderShape, MayReturn;
    forall x | Reach(w.links, last, x) ensures x.hash in t.blocks {
      if x.hash !in t.blocks {
        MissingNotRenewed(w, t.blocks, root, last, x);
        GuardedStays(w, s, r, t, 0, |r.actions|, x.hash);
      }
    }
  }
}
