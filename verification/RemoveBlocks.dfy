/** `ipfs block rm`: deleting named blocks under the exclusive lock. Pins are
    looked up by CID while blocks are stored under the hash alone. */
module BlockRemoval {
  import opened Cids

  /** The pinner's answer for one CID; a direct, recursive, internal or indirect
      pin all count as pinned. */
  datatype Pinned = Pinned(key: Cid, pinned: bool)

  datatype Reply = CheckFailed | Checked(res: seq<Pinned>)

  datatype Reason = IsPinned | HasFailed | NotFound | DeleteFailed

  datatype RemovedBlock = Removed(c: Cid) | Kept(c: Cid, reason: Reason) | Aborted

  /** The pinner answers for exactly the CIDs it was asked about, truthfully, in
      any order. */
  ghost predicate Truthful(reply: Reply, cids: seq<Cid>, pins: set<Cid>) {
    reply.Checked? ==>
      && (forall p :: p in reply.res ==> p.key in cids && (p.pinned <==> p.key in pins))
      && (forall c :: c in cids ==> Pinned(c, c in pins) in reply.res)
  }

  /** The hashes that a removal deletes: those of the unpinned CIDs it was asked
      for, unless the store fails on them. */
  function Doomed(cids: seq<Cid>, pins: set<Cid>, failing: set<Multihash>): set<Multihash> {
    set c | c in cids && c !in pins && c.hash !in failing :: c.hash
  }

  function Unpinned(cids: seq<Cid>, pins: set<Cid>): set<Cid> {
    set c | c in cids && c !in pins
  }

  /** An asked-for CID that is not pinned names the same block as `p`. */
  predicate Aliased(cids: seq<Cid>, pins: set<Cid>, p: Cid) {
    exists c :: c in cids && c !in pins && c.hash == p.hash
  }

  /** Exactly the pinned blocks with such a second name are lost. */
  lemma PinnedLostIff(blocks: set<Multihash>, cids: seq<Cid>, pins: set<Cid>, failing: set<Multihash>, p: Cid)
    requires p in pins && p.hash in blocks
    ensures p.hash !in blocks - Doomed(cids, pins, failing) <==> Aliased(cids, pins, p) && p.hash !in failing
  {
    if Aliased(cids, pins, p) && p.hash !in failing {
      var c :| c in cids && c !in pins && c.hash == p.hash;
      assert c.hash in Doomed(cids, pins, failing);
    }
  }

  /** With one name per block no pinned block is lost. */
  lemma OneNameSafe(blocks: set<Multihash>, cids: seq<Cid>, pins: set<Cid>, failing: set<Multihash>)
    requires forall c, p :: c in cids && p in pins && c.hash == p.hash ==> c == p
    ensures forall p :: p in pins && p.hash in blocks ==> p.hash in blocks - Doomed(cids, pins, failing)
  {
    forall p | p in pins && p.hash in blocks ensures p.hash in blocks - Doomed(cids, pins, failing) {
      PinnedLostIff(blocks, cids, pins, failing, p);
    }
  }

  /** It does happen with two names: the version 0 and the version 1 name of one
      block, the first pinned, the second removed. */
  lemma SecondNameLosesPinned()
    ensures exists blocks: set<Multihash>, cids: seq<Cid>, pins: set<Cid>, p: Cid ::
      p in pins && p.hash in blocks && p.hash !in blocks - Doomed(cids, pins, {})
  {
    var p, c := Cid(0, 0x70, "h"), Cid(1, 0x70, "h");
    assert c in [c] && c.hash == p.hash;
    PinnedLostIff({"h"}, [c], {p}, {}, p);
    assert p in {p} && p.hash in {"h"};
  }

  /** Unless quiet, each removal is reported, and nothing else is reported removed. */
  ghost predicate Reported(done: set<Cid>, was: set<Multihash>, now: set<Multihash>, force: bool, quiet: bool,
                           out: seq<RemovedBlock>)
  {
    && (quiet ==> forall c :: Removed(c) !in out)
    && (!quiet ==> forall h :: h in was && h !in now ==> exists c: Cid :: c.hash == h && Removed(c) in out)
    && (forall c :: Removed(c) in out ==> c in done && c.hash !in now && (force || c.hash in was))
    && now <= was
  }

  lemma ReportedStep(done: set<Cid>, c: Cid, was: set<Multihash>, now: set<Multihash>, force: bool, quiet: bool,
                     out: seq<RemovedBlock>)
    requires Reported(done, was, now, force, quiet, out)
    ensures forall e :: Reported(done + {c}, was, now, force, quiet, out + [Kept(c, e)])
    ensures c.hash in now || force ==>
      Reported(done + {c}, was, now - {c.hash}, force, quiet, if quiet then out else out + [Removed(c)])
  {
    forall e ensures Reported(done + {c}, was, now, force, quiet, out + [Kept(c, e)]) {
      var more := out + [Kept(c, e)];
      assert forall r :: r in more <==> r in out || r == Kept(c, e);
    }
    var more := if quiet then out else out + [Removed(c)];
    assert forall r :: r in more <==> r in out || (!quiet && r == Removed(c));
  }

  /** Why the blocks of the CIDs in `done` are still there: the store could not be
      asked, or it failed to delete, or there was no block. */
  ghost predicate Explained(done: set<Cid>, was: set<Multihash>, now: set<Multihash>, hasFails: set<Multihash>,
                            deleteFails: set<Multihash>, force: bool, out: seq<RemovedBlock>)
  {
    && now <= was && (forall h :: h in was && h in deleteFails ==> h in now)
    && (forall c :: Kept(c, HasFailed) in out <==> c in done && c.hash in hasFails)
    && (forall c :: Kept(c, DeleteFailed) in out <==>
          c in done && c.hash !in hasFails && c.hash in deleteFails && (force || c.hash in was))
    && (forall c :: Kept(c, NotFound) in out ==> c in done && c.hash !in hasFails && !force && c.hash !in now)
    && (!force ==> forall c :: c in done && c.hash !in hasFails && c.hash !in was ==> Kept(c, NotFound) in out)
  }

  lemma ExplainedStep(done: set<Cid>, c: Cid, was: set<Multihash>, now: set<Multihash>, hasFails: set<Multihash>,
                      deleteFails: set<Multihash>, force: bool, out: seq<RemovedBlock>)
    requires Explained(done, was, now, hasFails, deleteFails, force, out)
    ensures c.hash in hasFails ==>
      Explained(done + {c}, was, now, hasFails, deleteFails, force, out + [Kept(c, HasFailed)])
    ensures c.hash !in hasFails && c.hash !in now && !force ==>
      Explained(done + {c}, was, now, hasFails, deleteFails, force, out + [Kept(c, NotFound)])
    ensures c.hash !in hasFails && (c.hash in now || force) && c.hash in deleteFails ==>
      Explained(done + {c}, was, now, hasFails, deleteFails, force, out + [Kept(c, DeleteFailed)])
    ensures c.hash !in hasFails && (c.hash in now || force) && c.hash !in deleteFails ==>
      && Explained(done + {c}, was, now - {c.hash}, hasFails, deleteFails, force, out)
      && Explained(done + {c}, was, now - {c.hash}, hasFails, deleteFails, force, out + [Removed(c)])
  {
  }

  class Blockstore {
    var blocks: set<Multihash>

    constructor (blocks: set<Multihash>)
      ensures this.blocks == blocks
    {
      this.blocks := blocks;
    }

    /** Reports the pinned CIDs and returns the others. */
    method FilterPinned(reply: Reply) returns (stillOkay: seq<Cid>, out: seq<RemovedBlock>)
      ensures reply.CheckFailed? ==> stillOkay == [] && out == [Aborted]
      ensures reply.Checked? ==> |stillOkay| + |out| == |reply.res|
      ensures reply.Checked? ==> forall c :: c in stillOkay <==> Pinned(c, false) in reply.res
      ensures reply.Checked? ==>
        forall r :: r in out <==> r.Kept? && r.reason == IsPinned && Pinned(r.c, true) in reply.res
    {
      stillOkay, out := [], [];
      if reply.CheckFailed? {
        return [], [Aborted];
      }
      for i := 0 to |reply.res|
        invariant |stillOkay| + |out| == i
        invariant forall c :: c in stillOkay <==> Pinned(c, false) in reply.res[..i]
        invariant forall r :: r in out <==> r.Kept? && r.reason == IsPinned && Pinned(r.c, true) in reply.res[..i]
      {
        var r := reply.res[i];
        assert reply.res[..i + 1] == reply.res[..i] + [r];
        if !r.pinned {
          stillOkay := stillOkay + [r.key];
        } else {
          out := out + [Kept(r.key, IsPinned)];
        }
      }
      assert reply.res[..|reply.res|] == reply.res;
    }

    /** Removes the blocks of the unpinned CIDs. A failed pin check removes
        nothing; otherwise exactly the blocks of the unpinned CIDs go, except
        where the store fails, every pinned CID is reported as such, and unless
        quiet a block is gone exactly when some name of it is reported removed
        (with `force`, also a name whose block was absent). */
    method RmBlocks(cids: seq<Cid>, reply: Reply, ghost pins: set<Cid>, hasFails: set<Multihash>,
                    deleteFails: set<Multihash>, force: bool, quiet: bool)
      returns (out: seq<RemovedBlock>)
      requires Truthful(reply, cids, pins)
      modifies this
      ensures reply.CheckFailed? ==> blocks == old(blocks) && out == [Aborted]
      ensures reply.Checked? ==> blocks == old(blocks) - Doomed(cids, pins, hasFails + deleteFails)
      ensures reply.Checked? ==> forall c :: Kept(c, IsPinned) in out <==> c in cids && c in pins
      ensures reply.Checked? ==> Reported(Unpinned(cids, pins), old(blocks), blocks, force, quiet, out)
      ensures reply.Checked? ==>
        Explained(Unpinned(cids, pins), old(blocks), blocks, hasFails, deleteFails, force, out)
    {
      var stillOkay;
      stillOkay, out := FilterPinned(reply);
      ghost var notices, failing := out, hasFails + deleteFails;
      UnpinnedNone();
      for i := 0 to |stillOkay|
        invariant Removing(stillOkay[..i], notices, old(blocks), blocks, hasFails, deleteFails, force, quiet, out)
      {
        hide Removing;
        var c := stillOkay[i];
        assert stillOkay[..i + 1] == stillOkay[..i] + [c];
        RemovingStep(stillOkay[..i], c, notices, old(blocks), blocks, hasFails, deleteFails, force, quiet, out);
        if c.hash in hasFails {
          out := out + [Kept(c, HasFailed)];
          continue;
        }
        if c.hash !in blocks && !force {
          out := out + [Kept(c, NotFound)];
          continue;
        }
        if c.hash in deleteFails {
          out := out + [Kept(c, DeleteFailed)];
          continue;
        }
        blocks := blocks - {c.hash};
        if !quiet {
          out := out + [Removed(c)];
        }
      }
      assert stillOkay[..|stillOkay|] == stillOkay;
      hide Explained, Reported;
      if reply.Checked? {
        assert forall c :: c in stillOkay <==> c in cids && c !in pins;
        assert Unpinned(stillOkay, {}) == Unpinned(cids, pins);
        assert Doomed(stillOkay, {}, failing) == Doomed(cids, pins, failing);
      }
    }
  }

  /** After the notices about pinned CIDs come others. */
  ghost predicate FollowedBy(notices: seq<RemovedBlock>, out: seq<RemovedBlock>) {
    && (forall r :: r in notices ==> r in out)
    && (forall r :: r in out ==> r in notices || r.Removed? || (r.Kept? && r.reason != IsPinned))
  }

  lemma FollowedByOne(notices: seq<RemovedBlock>, out: seq<RemovedBlock>, c: Cid)
    requires FollowedBy(notices, out)
    ensures FollowedBy(notices, out + [Removed(c)])
    ensures forall e :: e != IsPinned ==> FollowedBy(notices, out + [Kept(c, e)])
  {
  }

  /** The state of a removal that has dealt with the unpinned CIDs in `done`. */
  ghost predicate Removing(done: seq<Cid>, notices: seq<RemovedBlock>, was: set<Multihash>, now: set<Multihash>,
                           hasFails: set<Multihash>, deleteFails: set<Multihash>, force: bool, quiet: bool,
                           out: seq<RemovedBlock>)
  {
    && now == was - Doomed(done, {}, hasFails + deleteFails)
    && FollowedBy(notices, out) && (done == [] ==> out == notices)
    && Reported(Unpinned(done, {}), was, now, force, quiet, out)
    && Explained(Unpinned(done, {}), was, now, hasFails, deleteFails, force, out)
  }

  lemma RemovingStep(done: seq<Cid>, c: Cid, notices: seq<RemovedBlock>, was: set<Multihash>, now: set<Multihash>,
                     hasFails: set<Multihash>, deleteFails: set<Multihash>, force: bool, quiet: bool,
                     out: seq<RemovedBlock>)
    requires Removing(done, notices, was, now, hasFails, deleteFails, force, quiet, out)
    ensures
      var (later, more) :=
        if c.hash in hasFails then (now, [Kept(c, HasFailed)])
        else if c.hash !in now && !force then (now, [Kept(c, NotFound)])
        else if c.hash in deleteFails then (now, [Kept(c, DeleteFailed)])
        else (now - {c.hash}, if quiet then [] else [Removed(c)]);
      Removing(done + [c], notices, was, later, hasFails, deleteFails, force, quiet, out + more)
  {
    hide Doomed, Explained, Reported, Unpinned, FollowedBy;
    UnpinnedAppend(done, c, hasFails + deleteFails, was);
    ReportedStep(Unpinned(done, {}), c, was, now, force, quiet, out);
    ExplainedStep(Unpinned(done, {}), c, was, now, hasFails, deleteFails, force, out);
    FollowedByOne(notices, out, c);
    assert out + [] == out;
  }

  lemma UnpinnedNone()
    ensures Unpinned([], {}) == {}
  {
  }

  lemma UnpinnedAppend(cids: seq<Cid>, c: Cid, failing: set<Multihash>, was: set<Multihash>)
    ensures Unpinned(cids + [c], {}) == Unpinned(cids, {}) + {c}
    ensures var now, later := was - Doomed(cids, {}, failing), was - Doomed(cids + [c], {}, failing);
      if c.hash in failing || c.hash !in now then later == now else later == now - {c.hash}
  {
    var both := cids + [c];
    assert c in both && forall d :: d in both <==> d in cids || d == c;
    assert Doomed(both, {}, failing) == Doomed(cids, {}, failing) + (if c.hash in failing then {} else {c.hash});
    hide Doomed;
  }
}
