/** The whole collection: mark, then delete what is not marked; and the consumer
    of its result stream. */
module Sweep {
  import opened Graph
  import opened Cids
  import opened Marking
  import opened GarbageCollection
  import opened Wrappers

  /** The hash of some CID that must be kept, whatever its version or codec. */
  ghost predicate KeptHash(s: Store, r: Roots, h: Multihash) {
    exists v: Cid :: v.hash == h && Kept(LocalGraph(s), r, v)
  }

  /** A run that may mark and delete: unbroken streams, and no unreadable node
      where reading is required. */
  ghost predicate MarkSucceeds(s: Store, rkeys: seq<StreamedPin>, best: seq<Cid>, dkeys: seq<StreamedPin>,
                               ikeys: seq<StreamedPin>)
  {
    Unbroken(rkeys) && Unbroken(dkeys) && Unbroken(ikeys) && Healthy(s, RootsOf(rkeys, best, dkeys, ikeys))
  }

  /** A missing raw leaf does not stop a run: its block is not read, the rest of
      the file is kept, and garbage goes. */
  lemma MissingRawLeafTolerated(root: Cid, leaf: Cid, junk: Multihash)
    requires root.version == 1 && root.codec == DAG_PB && leaf == RawCid(leaf.hash)
    requires root.hash != leaf.hash && root.hash != junk && junk != leaf.hash
    ensures var s := Store({root.hash, junk}, map[root := [leaf]], {});
            var r := RootsOf([Key(root)], [], [], []);
            MarkSucceeds(s, [Key(root)], [], [], []) && KeptHash(s, r, root.hash) && !KeptHash(s, r, junk)
  {
    var s, r := Store({root.hash, junk}, map[root := [leaf]], {}), RootsOf([Key(root)], [], [], []);
    var g := LocalGraph(s);
    assert Key(root) in [Key(root)] && r == Roots({root}, {}, {}, {});
    forall v | ReachFrom(g, {root}, v) ensures v in {root, leaf} {
      RootsInClosed(g, {root}, {root, leaf}, v);
    }
    ReachSelf(g, root);
    assert root in r.rec + r.best && Kept(g, r, root);
    assert r.rec + r.best == {root};
  }

  /** An absent block that a walk must read does not stop a run when only the MFS
      root leads to it, but it does when a recursive pin leads there. */
  lemma AbsentBelowMfs(root: Cid, gone: Cid, junk: Multihash)
    requires root.version == 1 && root.codec == DAG_PB && gone.version == 1 && gone.codec == DAG_PB
    requires root.hash != gone.hash && root.hash != junk && junk != gone.hash
    ensures var s := Store({root.hash, junk}, map[root := [gone], gone := []], {});
            var r := RootsOf([], [root], [], []);
            && MarkSucceeds(s, [], [root], [], []) && KeptHash(s, r, root.hash) && !KeptHash(s, r, junk)
            && !MarkSucceeds(s, [Key(root)], [root], [], [])
  {
    var s := Store({root.hash, junk}, map[root := [gone], gone := []], {});
    var g, r, q := LocalGraph(s), RootsOf([], [root], [], []), RootsOf([Key(root)], [root], [], []);
    assert V1Seq([gone]) == [gone] && V1Seq([]) == [];
    assert (set b | b in [root]) == {root} && V1Set({root}) == {root};
    var none: seq<Cid> := [];
    assert (set b | b in none) == {};
    assert Key(root) in [Key(root)];
    assert r == Roots({}, {root}, {}, {}) && q == Roots({root}, {root}, {}, {});
    assert g == map[root := [gone]];
    ReachSelf(g, root);
    ReachStep(g, root, root, gone);
    assert r.rec + r.best == {root} && ReachFrom(g, q.rec, gone) && ReachFrom(g, {root}, root);
    forall v | ReachFrom(g, {root}, v) ensures v in {root, gone} {
      RootsInClosed(g, {root}, {root, gone}, v);
    }
    assert Faulty(s, false, gone);
    hide Reach, V1Set, V1Seq;
  }

  predicate NothingFailed(output: seq<Result>) {
    forall i :: 0 <= i < |output| ==> output[i].KeyRemoved?
  }

  lemma FailureStays(output: seq<Result>, e: GcError)
    ensures !NothingFailed(output + [Failed(e)])
  {
    assert (output + [Failed(e)])[|output|].Failed?;
  }

  ghost predicate RemovedOnce(output: seq<Result>) {
    forall i, j :: 0 <= i < j < |output| && output[i].KeyRemoved? ==> output[i] != output[j]
  }

  /** Gives every CID of a set the raw codec, keeping its hash. */
  method ToRawCids(gcs: set<Cid>) returns (raw: set<Cid>)
    ensures forall h :: RawCid(h) in raw <==> exists v: Cid :: v in gcs && v.hash == h
  {
    raw := {};
    var rest := gcs;
    while rest != {}
      invariant rest <= gcs
      invariant forall h :: RawCid(h) in raw <==> exists v: Cid :: v in gcs - rest && v.hash == h
    {
      var v :| v in rest;
      assert gcs - (rest - {v}) == (gcs - rest) + {v};
      raw := raw + {RawCid(v.hash)};
      rest := rest - {v};
    }
    assert gcs - rest == gcs;
  }

  class Repository {
    var blocks: set<Multihash>
    const decode: map<Cid, seq<Cid>>
    const insecure: set<Multihash>

    constructor (blocks: set<Multihash>, decode: map<Cid, seq<Cid>>, insecure: set<Multihash>)
      ensures this.blocks == blocks && this.decode == decode && this.insecure == insecure
    {
      this.blocks, this.decode, this.insecure := blocks, decode, insecure;
    }

    function Offline(): Store
      reads this`blocks
    {
      Store(blocks, decode, insecure)
    }

    /** Deletes the stored blocks whose raw name is not in `gcs`, in any order.
        `undeletable` are the hashes whose deletion fails; `stopAfter` cancels
        the loop after that many keys. */
    method SweepKeys(gcs: set<Cid>, undeletable: set<Multihash>, stopAfter: Option<nat>)
      returns (output: seq<Result>, errors: bool)
      modifies this`blocks
      ensures forall h :: h in blocks ==> h in old(blocks)
      ensures forall h :: h in old(blocks) && (RawCid(h) in gcs || h in undeletable) ==> h in blocks
      ensures stopAfter.None? ==> forall h :: h in blocks ==> RawCid(h) in gcs || h in undeletable
      ensures forall h :: KeyRemoved(RawCid(h)) in output <==> h in old(blocks) && h !in blocks
      ensures RemovedOnce(output)
      ensures !errors ==> NothingFailed(output)
      ensures stopAfter.None? ==> (errors <==> exists h :: h in old(blocks) && h in undeletable && RawCid(h) !in gcs)
      ensures forall h :: Failed(CannotDeleteBlock(RawCid(h))) in output ==>
        h in old(blocks) && h in undeletable && RawCid(h) !in gcs
      ensures stopAfter.None? ==> forall h :: h in old(blocks) && h in undeletable && RawCid(h) !in gcs ==>
        Failed(CannotDeleteBlock(RawCid(h))) in output
    {
      errors, output := false, [];
      var keychan, handled := blocks, 0;
      while keychan != {} && stopAfter != Some(handled)
        invariant keychan <= old(blocks) && forall h :: h in blocks ==> h in old(blocks)
        invariant forall h :: h in old(blocks) && (h in keychan || RawCid(h) in gcs || h in undeletable) ==> h in blocks
        invariant forall h :: h in blocks ==> h in keychan || RawCid(h) in gcs || h in undeletable
        invariant forall h :: KeyRemoved(RawCid(h)) in output <==> h in old(blocks) && h !in blocks
        invariant forall i :: 0 <= i < |output| && output[i].KeyRemoved? ==> output[i].c == RawCid(output[i].c.hash)
        invariant RemovedOnce(output)
        invariant !errors ==> NothingFailed(output)
        invariant errors <==> exists h :: h in old(blocks) && h !in keychan && h in undeletable && RawCid(h) !in gcs
        invariant forall h :: Failed(CannotDeleteBlock(RawCid(h))) in output <==>
          h in old(blocks) && h !in keychan && h in undeletable && RawCid(h) !in gcs
        decreases keychan
      {
        var h :| h in keychan;
        keychan := keychan - {h};
        handled := handled + 1;
        if RawCid(h) !in gcs {
          if h in undeletable {
            errors := true;
            output := output + [Failed(CannotDeleteBlock(RawCid(h)))];
          } else {
            blocks := blocks - {h};
            output := output + [KeyRemoved(RawCid(h))];
          }
        }
      }
    }

    /** A full run. When marking fails nothing is deleted; an uncancelled sweep
        leaves exactly the kept and the undeletable blocks; every removal is
        reported once; and the run is free of errors exactly when marking
        succeeded, every garbage block could be deleted and the datastore agreed. */
    method GC(rkeys: seq<StreamedPin>, best: seq<Cid>, dkeys: seq<StreamedPin>, ikeys: seq<StreamedPin>,
              keysOk: bool, undeletable: set<Multihash>, datastoreOk: bool, stopAfter: Option<nat>)
      returns (output: seq<Result>)
      modifies this`blocks
      ensures blocks <= old(blocks)
      ensures !(keysOk && MarkSucceeds(old(Offline()), rkeys, best, dkeys, ikeys)) ==> blocks == old(blocks)
      ensures keysOk && MarkSucceeds(old(Offline()), rkeys, best, dkeys, ikeys) ==>
        forall h :: h in old(blocks) ==>
          (KeptHash(old(Offline()), RootsOf(rkeys, best, dkeys, ikeys), h) || h in undeletable ==> h in blocks) &&
          (stopAfter.None? && h in blocks ==>
             KeptHash(old(Offline()), RootsOf(rkeys, best, dkeys, ikeys), h) || h in undeletable)
      ensures forall h :: KeyRemoved(RawCid(h)) in output <==> h in old(blocks) && h !in blocks
      ensures RemovedOnce(output)
      ensures stopAfter.None? ==>
        (NothingFailed(output) <==>
          && keysOk && MarkSucceeds(old(Offline()), rkeys, best, dkeys, ikeys) && datastoreOk
          && forall h :: h in old(blocks) && h in undeletable ==>
               KeptHash(old(Offline()), RootsOf(rkeys, best, dkeys, ikeys), h))
    {
      hide Healthy, Kept, RootsOf, LocalGraph;
      ghost var s, r := Offline(), RootsOf(rkeys, best, dkeys, ikeys);
      var collector := new Collector(Offline());
      var err := collector.ColoredSet(rkeys, best, dkeys, ikeys);
      output := collector.output;
      if err.Some? {
        output := output + [Failed(err.value)];
        assert output[|output| - 1].Failed?;
        return;
      }
      var gcs := ToRawCids(collector.gcs);
      forall h ensures RawCid(h) in gcs <==> KeptHash(s, r, h) {
      }
      if !keysOk {
        output := output + [Failed(KeysUnavailable)];
        assert output[|output| - 1].Failed?;
        return;
      }
      var removed, errors := SweepKeys(gcs, undeletable, stopAfter);
      output := output + removed;
      if errors {
        FailureStays(output, CannotDeleteSomeBlocks);
        output := output + [Failed(CannotDeleteSomeBlocks)];
      }
      if !datastoreOk {
        FailureStays(output, DatastoreGcFailed);
        output := output + [Failed(DatastoreGcFailed)];
      }
      if stopAfter.None? {
        assert errors <==> exists h :: h in old(blocks) && h in undeletable && !KeptHash(s, r, h);
      }
    }

    /** `ipfs repo gc`: the MFS root is the only best-effort root, and the result
        stream is drained into one error. The caller sees no error exactly when
        the collection was free of errors, and then only what must be kept is left. */
    method GarbageCollect(rkeys: seq<StreamedPin>, mfsRoot: Cid, dkeys: seq<StreamedPin>, ikeys: seq<StreamedPin>,
                          keysOk: bool, undeletable: set<Multihash>, datastoreOk: bool)
      returns (err: CollectError)
      modifies this`blocks
      ensures err.NoError? <==>
        && keysOk && MarkSucceeds(old(Offline()), rkeys, [mfsRoot], dkeys, ikeys) && datastoreOk
        && forall h :: h in old(blocks) && h in undeletable ==>
             KeptHash(old(Offline()), RootsOf(rkeys, [mfsRoot], dkeys, ikeys), h)
      ensures err.NoError? ==>
        forall h :: h in blocks <==>
          h in old(blocks) && KeptHash(old(Offline()), RootsOf(rkeys, [mfsRoot], dkeys, ikeys), h)
    {
      hide Healthy, Kept, RootsOf, LocalGraph;
      var output := GC(rkeys, [mfsRoot], dkeys, ikeys, keysOk, undeletable, datastoreOk, None);
      var removed;
      err, removed := CollectResult(output);
    }
  }

  /** No error, the error itself, or all errors with the last one as summary. */
  datatype CollectError = NoError | Single(e: GcError) | Multi(errors: seq<GcError>, summary: GcError)

  function ErrorsOf(output: seq<Result>): seq<GcError> {
    if output == [] then []
    else ErrorsOf(output[..|output| - 1]) + (match output[|output| - 1] case Failed(e) => [e] case KeyRemoved(_) => [])
  }

  function RemovedOf(output: seq<Result>): seq<Cid> {
    if output == [] then []
    else RemovedOf(output[..|output| - 1]) + (match output[|output| - 1] case Failed(_) => [] case KeyRemoved(c) => [c])
  }

  /** A stream is drained piece by piece: every removal contributes its key, every
      failure its error, in the order of the stream. */
  lemma {:induction false} DrainedInOrder(a: seq<Result>, r: Result, b: seq<Result>)
    ensures RemovedOf(a + [r] + b) == RemovedOf(a) + (if r.KeyRemoved? then [r.c] else []) + RemovedOf(b)
    ensures ErrorsOf(a + [r] + b) == ErrorsOf(a) + (if r.Failed? then [r.e] else []) + ErrorsOf(b)
    decreases |b|
  {
    var s := a + [r] + b;
    if b == [] {
      assert s == a + [r] && s[..|s| - 1] == a;
    } else {
      var init := b[..|b| - 1];
      assert s[..|s| - 1] == a + [r] + init && s[|s| - 1] == b[|b| - 1];
      DrainedInOrder(a, r, init);
    }
  }

  /** All errors that `err` carries, in order. */
  function Carried(err: CollectError): seq<GcError> {
    match err
    case NoError => []
    case Single(e) => [e]
    case Multi(errors, summary) => errors + [summary]
  }

  lemma {:induction false} ErrorsOfEmpty(output: seq<Result>)
    ensures ErrorsOf(output) == [] <==> NothingFailed(output)
  {
    if output != [] {
      var init := output[..|output| - 1];
      ErrorsOfEmpty(init);
      if NothingFailed(init) && output[|output| - 1].KeyRemoved? {
        assert forall i :: 0 <= i < |output| ==> i < |init| ==> output[i] == init[i];
      }
      if NothingFailed(output) {
        assert forall i :: 0 <= i < |init| ==> output[i] == init[i];
      }
    }
  }

  /** Drains the stream: every error is carried by the result, every removed key
      is passed on, both in the order of the stream. */
  method CollectResult(gcOut: seq<Result>) returns (err: CollectError, removed: seq<Cid>)
    ensures Carried(err) == ErrorsOf(gcOut) && removed == RemovedOf(gcOut)
    ensures (err.NoError? <==> NothingFailed(gcOut)) && (err.Single? <==> |ErrorsOf(gcOut)| == 1)
  {
    var errors: seq<GcError> := [];
    removed := [];
    for i := 0 to |gcOut|
      invariant errors == ErrorsOf(gcOut[..i]) && removed == RemovedOf(gcOut[..i])
    {
      assert gcOut[..i + 1][..i] == gcOut[..i];
      match gcOut[i] {
        case Failed(e) => errors := errors + [e];
        case KeyRemoved(c) => removed := removed + [c];
      }
    }
    assert gcOut[..|gcOut|] == gcOut;
    ErrorsOfEmpty(gcOut);
    err := if |errors| == 0 then NoError
           else if |errors| == 1 then Single(errors[0])
           else Multi(errors[..|errors| - 1], errors[|errors| - 1]);
  }

  /** One link further from a kept node, internal pins being the start. */
  lemma KeptStep(g: map<Cid, seq<Cid>>, r: Roots, x: Cid, y: Cid)
    requires Kept(g, r, x) && y in Kids(g, x)
    requires x in DirectOnly(g, r) ==> Kept(g, r, y)
    ensures Kept(g, r, y)
  {
    var lone := DirectOnly(g, r);
    if Core(g, r, x) {
      var a :| a in r.rec + r.best && Reach(g, a, x);
      ReachStep(g, a, x, y);
    } else if x !in lone {
      var a :| a in r.internal && Reach(g - lone, a, x);
      ReachStep(g - lone, a, x, y);
    }
  }

  lemma {:induction false} KeptAlong(g: map<Cid, seq<Cid>>, r: Roots, i: Cid, x: Cid, v: Cid, n: nat)
    requires i in r.internal && Reach(g, i, x) && Kept(g, r, x) && Steps(g, x, v, n)
    requires forall d, k :: d in DirectOnly(g, r) && ReachFrom(g, r.internal, d) && k in Kids(g, d) ==> Kept(g, r, k)
    ensures Kept(g, r, v)
    decreases n
  {
    if n > 0 {
      var y :| y in Kids(g, x) && Steps(g, y, v, n - 1);
      assert ReachFrom(g, r.internal, x);
      KeptStep(g, r, x, y);
      ReachStep(g, i, x, y);
      KeptAlong(g, r, i, y, v, n - 1);
    }
  }

  /** Everything below internal pins is kept exactly when no lone direct pin
      below them has a link to a node that is not kept. */
  lemma InternalClosedIff(g: map<Cid, seq<Cid>>, r: Roots)
    ensures (forall v :: ReachFrom(g, r.internal, v) ==> Kept(g, r, v)) <==>
            (forall d, k :: d in DirectOnly(g, r) && ReachFrom(g, r.internal, d) && k in Kids(g, d) ==> Kept(g, r, k))
  {
    hide Kept, DirectOnly;
    if forall v :: ReachFrom(g, r.internal, v) ==> Kept(g, r, v) {
      forall d, k | d in DirectOnly(g, r) && ReachFrom(g, r.internal, d) && k in Kids(g, d) ensures Kept(g, r, k) {
        var i :| i in r.internal && Reach(g, i, d);
        ReachStep(g, i, d, k);
        assert ReachFrom(g, r.internal, k);
      }
    }
    if forall d, k :: d in DirectOnly(g, r) && ReachFrom(g, r.internal, d) && k in Kids(g, d) ==> Kept(g, r, k) {
      forall v | ReachFrom(g, r.internal, v) ensures Kept(g, r, v) {
        var i :| i in r.internal && Reach(g, i, v);
        var n: nat :| Steps(g, i, v, n);
        InternalRootKept(g, r, i);
        ReachSelf(g, i);
        KeptAlong(g, r, i, i, v, n);
      }
    }
  }

  lemma InternalRootKept(g: map<Cid, seq<Cid>>, r: Roots, i: Cid)
    requires i in r.internal
    ensures Kept(g, r, i)
  {
    ReachSelf(g - DirectOnly(g, r), i);
  }

  /** It does happen: below an internal pin `a -> b -> c`, all of them stored and
      readable, with `b` pinned directly, marking succeeds and `c` is not kept. */
  lemma InternalNotClosed()
    ensures exists s: Store, a: Cid, b: Cid, c: Cid ::
      var r := RootsOf([], [], [Key(b)], [Key(a)]);
      && MarkSucceeds(s, [], [], [Key(b)], [Key(a)])
      && Reach(LocalGraph(s), a, c) && c.hash in s.blocks && !KeptHash(s, r, c.hash)
  {
    var a, b, c := Cid(1, DAG_PB, "a"), Cid(1, DAG_PB, "b"), Cid(1, DAG_PB, "c");
    var s := Store({"a", "b", "c"}, map[a := [b], b := [c], c := []], {});
    assert V1Seq([b]) == [b] && V1Seq([c]) == [c] && V1Seq([]) == [];
    assert LocalGraph(s) == map[a := [b], b := [c], c := []];
    ChainRoots(a, b);
    ChainNotClosed(s, a, b, c);
    hide Healthy, LocalGraph, Reach, RootsOf, KeptHash;
    assert MarkSucceeds(s, [], [], [Key(b)], [Key(a)]) && c.hash in s.blocks;
  }

  lemma ChainNotClosed(s: Store, a: Cid, b: Cid, c: Cid)
    requires LocalGraph(s) == map[a := [b], b := [c], c := []] && s.insecure == {}
    requires a.hash != b.hash && b.hash != c.hash && a.hash != c.hash
    ensures Healthy(s, Roots({}, {}, {b}, {a})) && Reach(LocalGraph(s), a, c)
    ensures !KeptHash(s, Roots({}, {}, {b}, {a}), c.hash)
  {
    var g, r := LocalGraph(s), Roots({}, {}, {b}, {a});
    ChainKept(g, a, b, c);
    ReachSelf(g, a);
    ReachStep(g, a, a, b);
    ReachStep(g, a, b, c);
    ChainHealthy(s, a, b, c);
    hide Kept, Healthy, LocalGraph, Reach;
    forall v: Cid | v.hash == c.hash ensures !Kept(g, r, v) {
      assert v != a && v != b;
    }
  }

  lemma ChainRoots(a: Cid, b: Cid)
    requires a.version == b.version == 1
    ensures RootsOf([], [], [Key(b)], [Key(a)]) == Roots({}, {}, {b}, {a})
  {
    assert Key(a) in [Key(a)] && Key(b) in [Key(b)];
    var none: seq<Cid> := [];
    assert V1Set(set x | x in none) == {};
  }

  lemma ChainKept(g: map<Cid, seq<Cid>>, a: Cid, b: Cid, c: Cid)
    requires g == map[a := [b], b := [c], c := []] && a != b && b != c && a != c
    ensures forall v :: Kept(g, Roots({}, {}, {b}, {a}), v) ==> v == a || v == b
    ensures forall v :: ReachFrom(g - DirectOnly(g, Roots({}, {}, {b}, {a})), {a}, v) ==> v == a || v == b
    ensures forall v :: !Core(g, Roots({}, {}, {b}, {a}), v)
  {
    var r := Roots({}, {}, {b}, {a});
    assert r.rec + r.best == {};
    assert b in DirectOnly(g, r);
    assert Closed(g - DirectOnly(g, r), {a, b});
    forall v | ReachFrom(g - DirectOnly(g, r), {a}, v) ensures v in {a, b} {
      RootsInClosed(g - DirectOnly(g, r), {a}, {a, b}, v);
    }
  }

  lemma ChainHealthy(s: Store, a: Cid, b: Cid, c: Cid)
    requires LocalGraph(s) == map[a := [b], b := [c], c := []] && a != b && b != c && a != c && s.insecure == {}
    ensures Healthy(s, Roots({}, {}, {b}, {a}))
  {
    var g := LocalGraph(s);
    ChainKept(g, a, b, c);
    assert a in g && !Faulty(s, false, a);
    hide Reach, Core, DirectOnly;
  }
}
