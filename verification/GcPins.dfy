/** What pinning operations achieve over whole runs: complete pins stay complete,
    and a batch add pins all its nodes. */
module GcPins {
  import opened Graph
  import opened Cids
  import opened GcProtocol
  import opened GcSafety
  import opened GcRuns
  import opened GcExposure

  /** In every run, a recursive pin below which everything is present stays that
      way for as long as it stays pinned, whatever everybody else does. */
  lemma {:induction false} CompletePinStays(w: World, states: seq<State>, actions: seq<Action>, k: nat, m: nat, c: Cid)
    requires IsRun(w, states, actions) && k <= m < |states|
    requires forall j :: k <= j < m ==> c in states[j].rec
    requires Complete(w, states[k], c)
    ensures Complete(w, states[m], c)
    decreases m
  {
    if k < m {
      hide Step, Init, Inv;
      CompletePinStays(w, states, actions, k, m - 1, c);
      forall x | Reach(w.links, c, x) ensures x.hash in states[m].blocks {
        assert Under(w, states[m - 1].rec, x);
        PinnedNeverDeleted(w, states, actions, m - 1, x.hash);
      }
    }
  }

  /** The step pins `c` recursively, as a new pin or in place of another. */
  predicate Pins(s: State, i: nat, c: Cid) {
    i in s.clients && (
      s.clients[i] == PinLocked(c, true) || (
        s.clients[i].UpdateLocked? && s.clients[i].to == c && s.clients[i].from in s.rec && s.clients[i].from != c))
  }

  /** In every run, after a recursive pin add, or a pin update from a complete pin,
      everything below the new pin is present, and stays present while the pin
      does. An update fetches only what the old pin does not hold. */
  lemma PinAddIsComplete(w: World, states: seq<State>, actions: seq<Action>, k: nat, m: nat, i: nat, c: Cid)
    requires IsRun(w, states, actions) && k < |actions| && actions[k].ClientStep? && actions[k].i == i
    requires Pins(states[k], i, c)
    requires states[k].clients[i].UpdateLocked? ==> Complete(w, states[k], states[k].clients[i].from)
    requires k < m < |states| && forall j :: k < j < m ==> c in states[j].rec
    ensures c in states[k + 1].rec
    ensures Complete(w, states[m], c)
  {
    assert Step(w, states[k], actions[k], states[k + 1]);
    PinStep(w, states[k], actions[k], states[k + 1], c);
    CompletePinStays(w, states, actions, k + 1, m, c);
  }

  lemma PinStep(w: World, s: State, a: Action, t: State, c: Cid)
    requires Step(w, s, a, t) && a.ClientStep? && Pins(s, a.i, c)
    requires s.clients[a.i].UpdateLocked? ==> Complete(w, s, s.clients[a.i].from)
    ensures c in t.rec && Complete(w, t, c)
  {
    hide Reach;
  }

  /** What a batch add has visited is pinned. */
  ghost predicate VisitedPinned(s: State, i: nat) {
    i in s.clients && s.clients[i].ManyPinning? ==> s.clients[i].visited <= s.rec
  }

  /** The step unpins a node that the batch add has visited. */
  ghost predicate UnpinsVisited(s: State, a: Action, i: nat) {
    i in s.clients && s.clients[i].ManyPinning? && exists c :: c in Unpins(s, a) && c in s.clients[i].visited
  }

  lemma BatchOwnStep(s: State, i: nat, hs: set<Multihash>)
    requires i in s.clients && VisitedPinned(s, i)
    ensures VisitedPinned(ClientAdvance(s, i, hs), i)
  {
  }

  /** Another participant's step neither moves the batch add nor unpins what it
      has visited. */
  lemma BatchOtherStep(w: World, s: State, a: Action, t: State, i: nat)
    requires Step(w, s, a, t) && VisitedPinned(s, i) && !UnpinsVisited(s, a, i)
    requires i in t.clients && i in s.clients && t.clients[i] == s.clients[i]
    ensures VisitedPinned(t, i)
  {
    hide Step;
    if s.clients[i].ManyPinning? {
      forall c | c in s.clients[i].visited ensures c in t.rec {
        OnlyUnpinned(w, s, a, t, c);
      }
    }
  }

  lemma BatchStep(w: World, s: State, a: Action, t: State, i: nat)
    requires Step(w, s, a, t) && VisitedPinned(s, i) && !UnpinsVisited(s, a, i)
    ensures VisitedPinned(t, i)
  {
    StepFrames(w, s, a);
    hide AdderEnabled, AdderNext, ExclusiveEnabled, ExclusiveNext, Reach, VisitedPinned, UnpinsVisited;
    if ClientEnabled(w, s, a) && t == ClientNext(s, a) {
      if a.ClientStart? && a.i == i {
        StartedPinned(t, i);
      } else if a.ClientStep? && a.i == i {
        BatchOwnStep(s, i, a.w);
      } else if i in t.clients {
        OtherClients(w, s, a, i);
        BatchOtherStep(w, s, a, t, i);
      } else {
        GonePinned(t, i);
      }
    } else if i in t.clients {
      BatchOtherStep(w, s, a, t, i);
    } else {
      GonePinned(t, i);
    }
  }

  lemma StartedPinned(s: State, i: nat)
    requires i in s.clients && !s.clients[i].ManyPinning?
    ensures VisitedPinned(s, i)
  {
  }

  lemma GonePinned(s: State, i: nat)
    requires i !in s.clients
    ensures VisitedPinned(s, i)
  {
  }

  lemma OtherClients(w: World, s: State, a: Action, i: nat)
    requires ClientEnabled(w, s, a) && a.i != i && i in ClientNext(s, a).clients
    ensures i in s.clients && ClientNext(s, a).clients[i] == s.clients[i]
  {
    hide Reach;
  }

  lemma {:induction false} RunVisitedPinned(w: World, states: seq<State>, actions: seq<Action>, k: nat, i: nat)
    requires IsRun(w, states, actions) && k < |states|
    requires forall j :: 0 <= j < k ==> !UnpinsVisited(states[j], actions[j], i)
    ensures VisitedPinned(states[k], i)
  {
    if k > 0 {
      hide Step, UnpinsVisited, VisitedPinned;
      RunVisitedPinned(w, states, actions, k - 1, i);
      BatchStep(w, states[k - 1], actions[k - 1], states[k], i);
    }
  }

  /** In every run in which nobody unpins a node that the batch add has already
      pinned, all its nodes are pinned and stored when it has gone through them. */
  lemma AddManyIsComplete(w: World, states: seq<State>, actions: seq<Action>, k: nat, i: nat)
    requires IsRun(w, states, actions) && k < |states| && i in states[k].clients && states[k].clients[i].ManyPinning?
    requires states[k].clients[i].i == |states[k].clients[i].nds|
    requires forall j :: 0 <= j < k ==> !UnpinsVisited(states[j], actions[j], i)
    ensures forall c :: c in states[k].clients[i].nds ==> c in states[k].rec && c.hash in states[k].blocks
  {
    RunInv(w, states, actions, k);
    RunVisitedPinned(w, states, actions, k, i);
    var client := states[k].clients[i];
    assert ClientOk(states[k].blocks, client);
    assert client.nds[..client.i] == client.nds;
    hide Under, MarkInv, LockInv;
  }

  // ---------------------------------------------------------------------------
  // What each operation does when it is left alone

  /** An operation as a client hands it in. */
  predicate Fresh(op: Client) {
    op.PutLocked? || op.ManyLocked? || op.PinLocked? || op.UnpinLocked? || op.UpdateLocked?
  }

  /** What `op` promises: which blocks and pins there are after it. */
  ghost predicate Achieves(w: World, op: Client, s: State, t: State) {
    match op
    case PutLocked(c) => t.blocks == s.blocks + {c.hash} && t.rec == s.rec + {c} && t.direct == s.direct
    case ManyLocked(nds) =>
      && (forall h :: h in t.blocks <==> h in s.blocks || exists c :: c in nds && c.hash == h)
      && (forall c :: c in t.rec <==> c in s.rec || c in nds) && t.direct == s.direct
    case PinLocked(c, true) =>
      && (forall h :: h in t.blocks <==> h in s.blocks || exists x: Cid :: Reach(w.links, c, x) && x.hash == h)
      && t.rec == s.rec + {c} && t.direct == s.direct - {c}
    case PinLocked(c, false) =>
      // what is pinned recursively needs no direct pin
      && t.blocks == s.blocks + {c.hash} && t.rec == s.rec
      && t.direct == if c in s.rec then s.direct else s.direct + {c}
    case UnpinLocked(c, recursive) =>
      // a recursive pin is only removed when asked for
      && t.blocks == s.blocks && (c in s.rec ==> t.direct == s.direct)
      && t.rec == (if recursive then s.rec - {c} else s.rec)
      && (c !in s.rec ==> t.direct == s.direct - {c})
    case UpdateLocked(from, to, unpin) =>
      // what is below the old pin is not fetched again
      && t.direct == s.direct
      && if from !in s.rec || from == to then t.rec == s.rec && t.blocks == s.blocks
         else
           && t.rec == s.rec + {to} - (if unpin then {from} else {})
           && forall h :: h in t.blocks <==>
                (h in s.blocks || exists x: Cid :: Reach(w.links, to, x) && !Reach(w.links, from, x) && x.hash == h)
    case _ => true
  }

  /** The nodes below `c` that are not below anything in `but`. */
  ghost function HashesBelow(w: World, c: Cid, but: set<Cid>): (hs: set<Multihash>)
    ensures forall h :: h in hs <==> exists x: Cid :: Reach(w.links, c, x) && !Under(w, but, x) && x.hash == h
  {
    var below := set x | x in Nodes(w.links, {c}) && Reach(w.links, c, x) && !Under(w, but, x);
    assert forall x :: x in below <==> Reach(w.links, c, x) && !Under(w, but, x) by {
      forall x | Reach(w.links, c, x) ensures x in Nodes(w.links, {c}) {
        ReachInNodes(w, c, x);
      }
    }
    Hashes(below)
  }

  /** `t` is `s` but for blocks and pins, and client `i` is at `at`. */
  ghost predicate Working(w: World, r: Run, s: State, t: State, i: nat, at: Client) {
    && RunsTo(w, r, t) && i !in s.clients
    && t == s.(blocks := t.blocks, rec := t.rec, direct := t.direct, clients := s.clients[i := at])
  }

  lemma Advance(w: World, r: Run, s: State, t: State, i: nat, at: Client, hs: set<Multihash>)
    returns (q: Run, u: State)
    requires Working(w, r, s, t, i, at) && ClientEnabled(w, t, ClientStep(i, hs))
    requires !at.PutPinned? && !at.Finished?
    ensures u == ClientAdvance(t, i, hs) && i in u.clients && Working(w, q, s, u, i, u.clients[i])
  {
    hide RunsTo, Reach, AdderEnabled, AdderNext, ExclusiveEnabled, ExclusiveNext;
    u := ClientNext(t, ClientStep(i, hs));
    q := Extend(w, r, t, ClientStep(i, hs), u);
  }

  lemma PutDone(w: World, r: Run, s: State, t: State, i: nat, c: Cid) returns (q: Run, u: State)
    requires Working(w, r, s, t, i, PutLocked(c)) && t.blocks == s.blocks && t.rec == s.rec && t.direct == s.direct
    ensures i in u.clients && Working(w, q, s, u, i, u.clients[i]) && Achieves(w, PutLocked(c), s, u)
  {
    hide RunsTo, Reach;
    q, u := Advance(w, r, s, t, i, PutLocked(c), {});
    q, u := Advance(w, q, s, u, i, PutStored(c), {});
  }

  lemma BatchDone(w: World, r: Run, s: State, t: State, i: nat, nds: seq<Cid>) returns (q: Run, u: State)
    requires Working(w, r, s, t, i, ManyLocked(nds)) && t.blocks == s.blocks && t.rec == s.rec && t.direct == s.direct
    ensures i in u.clients && Working(w, q, s, u, i, u.clients[i]) && Achieves(w, ManyLocked(nds), s, u)
  {
    hide Reach;
    q, u := Advance(w, r, s, t, i, ManyLocked(nds), {});
    var k, visited, blocks := 0, {}, u.blocks;
    while k < |nds|
      invariant k <= |nds| && Working(w, q, s, u, i, ManyPinning(nds, k, visited))
      invariant u.blocks == blocks && u.direct == s.direct
      invariant visited == (set c | c in nds[..k]) && u.rec == s.rec + visited
    {
      hide Working;
      assert nds[..k + 1] == nds[..k] + [nds[k]];
      var c := nds[k];
      hide ClientEnabled;
      assert ClientEnabled(w, u, ClientStep(i, {})) by { BatchEnabled(w, q, s, u, i, nds, k, visited); }
      q, u := Advance(w, q, s, u, i, ManyPinning(nds, k, visited), {});
      k, visited := k + 1, visited + {c};
    }
    assert nds[..k] == nds;
  }

  lemma BatchEnabled(w: World, r: Run, s: State, t: State, i: nat, nds: seq<Cid>, k: nat, visited: set<Cid>)
    requires Working(w, r, s, t, i, ManyPinning(nds, k, visited))
    ensures i in t.clients && t.clients[i] == ManyPinning(nds, k, visited)
    ensures ClientEnabled(w, t, ClientStep(i, {}))
  {
    hide RunsTo, Reach;
  }

  lemma PinDone(w: World, r: Run, s: State, t: State, i: nat, op: Client) returns (q: Run, u: State)
    requires Working(w, r, s, t, i, op) && t.blocks == s.blocks && t.rec == s.rec && t.direct == s.direct
    requires op.PinLocked? || op.UnpinLocked? || op.UpdateLocked?
    ensures i in u.clients && Working(w, q, s, u, i, u.clients[i]) && Achieves(w, op, s, u)
  {
    hide RunsTo, Reach, Under;
    match op
    case PinLocked(c, recursive) =>
      forall x ensures !Under(w, {}, x) { NothingUnder(w, x); }
      assert Reach(w.links, c, c) by { ReachSelf(w.links, c); }
      q, u := Advance(w, r, s, t, i, op, if recursive then HashesBelow(w, c, {}) else {c.hash});
    case UnpinLocked(c, recursive) =>
      q, u := Advance(w, r, s, t, i, op, {});
    case UpdateLocked(from, to, unpin) =>
      forall x ensures Under(w, {from}, x) <==> Reach(w.links, from, x) { UnderOne(w, from, x); }
      q, u := Advance(w, r, s, t, i, op, HashesBelow(w, to, {from}));
  }

  lemma NothingUnder(w: World, x: Cid)
    ensures !Under(w, {}, x)
  {
  }

  /** Whenever nobody holds the lock exclusively, an operation can run to its end, and
      then it has done exactly what it promises and nothing else has changed. */
  lemma OperationCanFinish(w: World, r: Run, s: State, i: nat, op: Client) returns (q: Run, u: State)
    requires RunsTo(w, r, s) && s.excl.Free? && i !in s.clients && Fresh(op)
    ensures RunsTo(w, q, u) && Achieves(w, op, s, u)
    ensures u == s.(blocks := u.blocks, rec := u.rec, direct := u.direct)
  {
    hide RunsTo, Reach, AdderEnabled, AdderNext, ExclusiveEnabled, ExclusiveNext, Achieves;
    var t := ClientNext(s, ClientStart(i, op));
    q := Extend(w, r, s, ClientStart(i, op), t);
    match op {
      case PutLocked(c) => q, u := PutDone(w, q, s, t, i, c);
      case ManyLocked(nds) => q, u := BatchDone(w, q, s, t, i, nds);
      case _ => q, u := PinDone(w, q, s, t, i, op);
    }
    assert u.clients - {i} == s.clients;
    t := ClientNext(u, ClientUnlock(i));
    q := Extend(w, q, u, ClientUnlock(i), t);
    AchievesFrame(w, op, s, u, t);
    u := t;
  }

  lemma AchievesFrame(w: World, op: Client, s: State, t: State, u: State)
    requires Achieves(w, op, s, t) && u.blocks == t.blocks && u.rec == t.rec && u.direct == t.direct
    ensures Achieves(w, op, s, u)
  {
    hide Reach;
  }
}
