/** `ipfs pin ls`: classifying CIDs as recursively, directly or indirectly pinned,
    with one set that prevents repeated output and one that prunes the walks. */
module PinListing {
  import opened Graph
  import opened Cids
  import opened Marking
  import opened Strings

  datatype PinType = Recursive | Direct | Indirect

  datatype PinInfo = PinInfo(c: Cid, pinType: PinType, name: string)

  datatype ListType = All | OnlyDirect | OnlyIndirect | OnlyRecursive

  /** The pinner: names by CID for each mode, and the pins whose reading fails. */
  datatype Pinner = Pinner(rec: map<Cid, string>, direct: map<Cid, string>, broken: set<Cid>)

  predicate Matches(filter: string, name: string) {
    filter == "" || Contains(name, filter)
  }

  /** `c` is at least one link below a recursive pin. */
  ghost predicate Below(dag: map<Cid, seq<Cid>>, roots: set<Cid>, c: Cid) {
    exists r, n: nat :: r in roots && n > 0 && Steps(dag, r, c, n)
  }

  predicate WantsRecursive(t: ListType) { t.OnlyRecursive? || t.All? }
  predicate WantsDirect(t: ListType) { t.OnlyDirect? || t.All? }
  predicate WantsIndirect(t: ListType) { t.OnlyIndirect? || t.All? }

  /** The reference: what a listing of type `t` with a name filter shows. The type
      of a CID is the first that applies of recursive, direct, indirect. */
  ghost predicate Shown(dag: map<Cid, seq<Cid>>, p: Pinner, t: ListType, filter: string, info: PinInfo) {
    match info.pinType
    case Recursive =>
      WantsRecursive(t) && info.c in p.rec && info.name == p.rec[info.c] && Matches(filter, info.name)
    case Direct =>
      WantsDirect(t) && info.c in p.direct && (t.All? ==> info.c !in p.rec) &&
      info.name == p.direct[info.c] && Matches(filter, info.name)
    case Indirect =>
      WantsIndirect(t) && Below(dag, p.rec.Keys, info.c) && info.c !in p.rec && info.c !in p.direct &&
      info.name == "" && Matches(filter, "")
  }

  /** The reference: when a listing runs to its end. */
  ghost predicate Readable(dag: map<Cid, seq<Cid>>, p: Pinner, t: ListType) {
    && (!t.OnlyDirect? ==> p.broken !! p.rec.Keys)
    && (!t.OnlyRecursive? ==> p.broken !! p.direct.Keys)
    && (WantsIndirect(t) ==> forall x :: ReachFrom(dag, p.rec.Keys, x) ==> x in dag)
  }

  /** The children of some nodes. */
  function KidSet(dag: map<Cid, seq<Cid>>, cs: set<Cid>): set<Cid> {
    set c, k | c in cs && k in Kids(dag, c) :: k
  }

  lemma BelowKids(dag: map<Cid, seq<Cid>>, roots: set<Cid>, c: Cid)
    ensures Below(dag, roots, c) <==> ReachFrom(dag, KidSet(dag, roots), c)
  {
    if Below(dag, roots, c) {
      var r, n: nat :| r in roots && n > 0 && Steps(dag, r, c, n);
      var k :| k in Kids(dag, r) && Steps(dag, k, c, n - 1);
      assert k in KidSet(dag, roots) && Reach(dag, k, c);
    }
    if ReachFrom(dag, KidSet(dag, roots), c) {
      var k :| k in KidSet(dag, roots) && Reach(dag, k, c);
      var r :| r in roots && k in Kids(dag, r);
      var n: nat :| Steps(dag, k, c, n);
      assert Steps(dag, r, c, n + 1);
    }
  }

  /** A node reached from a pin is the pin or below it. */
  lemma ReachIsPinOrBelow(dag: map<Cid, seq<Cid>>, roots: set<Cid>, c: Cid)
    ensures ReachFrom(dag, roots, c) <==> c in roots || Below(dag, roots, c)
  {
    if c in roots {
      ReachSelf(dag, c);
    }
    if Below(dag, roots, c) {
      var r, n: nat :| r in roots && n > 0 && Steps(dag, r, c, n);
      assert Reach(dag, r, c);
    }
    if ReachFrom(dag, roots, c) {
      var r :| r in roots && Reach(dag, r, c);
      var n: nat :| Steps(dag, r, c, n);
      if n == 0 {
        assert r == c;
      }
    }
  }

  ghost predicate EachOnce(out: seq<PinInfo>) {
    forall i, j :: 0 <= i < j < |out| ==> out[i].c != out[j].c
  }

  /** Output never repeats and only shows CIDs recorded as emitted. */
  ghost predicate OutInv(out: seq<PinInfo>, emitted: set<Cid>) {
    EachOnce(out) && forall i :: 0 <= i < |out| ==> out[i].c in emitted
  }

  class Lister {
    const dag: map<Cid, seq<Cid>>  // what the link getter answers: raw nodes have no links and are not read
    const pinner: Pinner
    const filter: string
    var emittedSet: set<Cid>
    var walkingSet: set<Cid>
    var out: seq<PinInfo>

    constructor (dag: map<Cid, seq<Cid>>, pinner: Pinner, filter: string)
      ensures this.dag == dag && this.pinner == pinner && this.filter == filter
      ensures emittedSet == {} && walkingSet == {} && out == []
    {
      this.dag, this.pinner, this.filter := dag, pinner, filter;
      emittedSet, walkingSet, out := {}, {}, [];
    }

    method AddToResultKeys(info: PinInfo)
      requires OutInv(out, emittedSet)
      modifies this`emittedSet, this`out
      ensures OutInv(out, emittedSet) && emittedSet == old(emittedSet) + {info.c}
      ensures forall x :: x in out <==>
        x in old(out) || (x == info && info.c !in old(emittedSet) && Matches(filter, info.name))
    {
      if info.c !in emittedSet {
        emittedSet := emittedSet + {info.c};
        if filter == "" || Contains(info.name, filter) {
          out := out + [info];
        }
      }
    }

    /** Streams the pins of one mode, emitting each or only recording it. */
    method Stream(pins: map<Cid, string>, pinType: PinType, emit: bool) returns (ok: bool)
      requires OutInv(out, emittedSet)
      modifies this`emittedSet, this`out
      ensures OutInv(out, emittedSet)
      ensures ok <==> pinner.broken !! pins.Keys
      ensures ok ==> emittedSet == old(emittedSet) + pins.Keys
      ensures ok ==> forall x :: x in out <==> (x in old(out) ||
        (emit && x.c in pins && x.c !in old(emittedSet) &&
         x == PinInfo(x.c, pinType, pins[x.c]) && Matches(filter, x.name)))
    {
      var rest := pins.Keys;
      while rest != {}
        invariant rest <= pins.Keys && OutInv(out, emittedSet)
        invariant emittedSet == old(emittedSet) + (pins.Keys - rest)
        invariant forall c :: c in pins && c !in rest ==> c !in pinner.broken
        invariant forall x :: x in out <==> (x in old(out) ||
          (emit && x.c in pins && x.c !in rest && x.c !in old(emittedSet) &&
           x == PinInfo(x.c, pinType, pins[x.c]) && Matches(filter, x.name)))
      {
        hide OutInv, Matches;
        var c :| c in rest;
        if c in pinner.broken {
          return false;
        }
        if emit {
          AddToResultKeys(PinInfo(c, pinType, pins[c]));
        } else {
          Record(c);
        }
        rest := rest - {c};
      }
      return true;
    }

    method Record(c: Cid)
      requires OutInv(out, emittedSet)
      modifies this`emittedSet
      ensures OutInv(out, emittedSet) && emittedSet == old(emittedSet) + {c}
    {
      emittedSet := emittedSet + {c};
    }

    /** One walk that skips its root: it visits what no earlier walk has visited
        and emits what is not emitted yet, in any order. `e0` is what was emitted
        before the first walk. */
    method Walk(root: Cid, ghost e0: set<Cid>) returns (ok: bool)
      requires OutInv(out, emittedSet) && emittedSet == e0 + walkingSet
      modifies this`emittedSet, this`walkingSet, this`out
      ensures OutInv(out, emittedSet) && emittedSet == e0 + walkingSet
      ensures ok ==> root in dag && MarkedFrom(dag, old(walkingSet), KidSet(dag, {root}), walkingSet)
      ensures ok ==> forall v :: v in walkingSet && v !in old(walkingSet) ==> v in dag
      ensures !ok ==> exists v :: Reach(dag, root, v) && v !in dag
      ensures forall x :: x in out <==> (x in old(out) ||
        (x.c in walkingSet && x.c !in old(walkingSet) && x.c !in e0 &&
         x == PinInfo(x.c, Indirect, "") && Matches(filter, "")))
    {
      hide Matches, OutInv, Reach, ReachFrom, Frontier;
      ReachSelf(dag, root);
      if root !in dag {
        return false;
      }
      ghost var s, roots := walkingSet, KidSet(dag, {root});
      var pending := set k | k in dag[root];
      FrontierStart(dag, s, roots);
      assert pending == roots by {
        forall k | k in dag[root] ensures k in roots {
          assert root in {root} && k in Kids(dag, root);
        }
      }
      while pending != {}
        invariant OutInv(out, emittedSet) && emittedSet == e0 + walkingSet
        invariant Frontier(dag, s, roots, walkingSet, pending)
        invariant forall v :: v in walkingSet && v !in s ==> v in dag
        invariant forall x :: x in out <==> (x in old(out) ||
          (x.c in walkingSet && x.c !in s && x.c !in e0 && x == PinInfo(x.c, Indirect, "") && Matches(filter, "")))
        decreases Nodes(dag, roots) - walkingSet, pending
      {
        hide Nodes, KidSet;
        var c :| c in pending;
        ghost var before, waiting := walkingSet, pending;
        FrontierKnown(dag, s, roots, before, waiting, c);
        pending := pending - {c};
        if c in walkingSet {
          FrontierSkip(dag, s, roots, walkingSet, waiting, pending);
        } else {
          walkingSet := walkingSet + {c};
          if c !in emittedSet {
            AddToResultKeys(PinInfo(c, Indirect, ""));
          }
          if c !in dag {
            WalkFault(dag, root, s, before, waiting, c);
            return false;
          }
          pending := pending + set k | k in dag[c];
          FrontierVisit(dag, s, roots, before, waiting, c, pending);
        }
      }
      FrontierEnd(dag, s, roots, walkingSet);
      return true;
    }

    /** The whole listing. It runs to its end exactly when everything it has to
        read can be read; then it shows exactly what the reference shows, and it
        never shows a CID twice. */
    method PinLsAll(t: ListType) returns (ok: bool)
      requires emittedSet == {} && walkingSet == {} && out == []
      modifies this
      ensures EachOnce(out)
      ensures ok <==> Readable(dag, pinner, t)
      ensures ok ==> forall x :: x in out <==> Shown(dag, pinner, t, filter, x)
    {
      hide Below, Matches;
      var rkeys: set<Cid> := {};
      if t.OnlyRecursive? || t.All? {
        ok := Stream(pinner.rec, Recursive, true);
        if !ok {
          return;
        }
        rkeys := pinner.rec.Keys;
      }
      if t.OnlyDirect? || t.All? {
        ok := Stream(pinner.direct, Direct, true);
        if !ok {
          return;
        }
      }
      if t.OnlyIndirect? {
        ok := Stream(pinner.direct, Direct, false);
        if !ok {
          return;
        }
        ok := Stream(pinner.rec, Recursive, false);
        if !ok {
          return;
        }
        rkeys := pinner.rec.Keys;
      }
      ok := true;
      if t.OnlyIndirect? || t.All? {
        ok := WalkAll(rkeys, emittedSet);
      }
    }

    /** The walks of an indirect listing, sharing one set of visited nodes. */
    method WalkAll(rkeys: set<Cid>, ghost e0: set<Cid>) returns (ok: bool)
      requires OutInv(out, emittedSet) && emittedSet == e0 && walkingSet == {}
      modifies this`emittedSet, this`walkingSet, this`out
      ensures OutInv(out, emittedSet)
      ensures ok <==> forall x :: ReachFrom(dag, rkeys, x) ==> x in dag
      ensures ok ==> forall x :: x in out <==> (x in old(out) ||
        (Below(dag, rkeys, x.c) && x.c !in e0 && x == PinInfo(x.c, Indirect, "") && Matches(filter, "")))
    {
      var rest := rkeys;
      MarkedNothing(dag, {});
      assert KidSet(dag, {}) == {};
      while rest != {}
        invariant rest <= rkeys && rkeys - rest <= dag.Keys && walkingSet <= dag.Keys
        invariant OutInv(out, emittedSet) && emittedSet == e0 + walkingSet
        invariant MarkedFrom(dag, {}, KidSet(dag, rkeys - rest), walkingSet)
        invariant forall x :: x in out <==> (x in old(out) ||
          (x.c in walkingSet && x.c !in e0 && x == PinInfo(x.c, Indirect, "") && Matches(filter, "")))
      {
        hide OutInv, Matches, MarkedFrom, Reach, KidSet;
        var k :| k in rest;
        ghost var before := walkingSet;
        ok := Walk(k, e0);
        if !ok {
          return;
        }
        KidSetAdd(dag, rkeys - rest, k);
        MarkedTwice(dag, {}, KidSet(dag, rkeys - rest), before, KidSet(dag, {k}), walkingSet);
        assert rkeys - (rest - {k}) == rkeys - rest + {k};
        rest := rest - {k};
      }
      assert rkeys - rest == rkeys;
      WalkedExact(dag, rkeys, walkingSet);
      AllReadable(dag, rkeys, walkingSet);
      return true;
    }
  }

  lemma KidSetAdd(dag: map<Cid, seq<Cid>>, cs: set<Cid>, c: Cid)
    ensures KidSet(dag, cs + {c}) == KidSet(dag, cs) + KidSet(dag, {c})
  {
    assert c in {c};
  }

  /** All walks together visit exactly what is below the pins. */
  lemma WalkedExact(dag: map<Cid, seq<Cid>>, roots: set<Cid>, walked: set<Cid>)
    requires MarkedFrom(dag, {}, KidSet(dag, roots), walked)
    ensures forall c :: c in walked <==> Below(dag, roots, c)
  {
    forall c ensures c in walked <==> Below(dag, roots, c) {
      MarkedFromClosed(dag, {}, KidSet(dag, roots), walked, c);
      BelowKids(dag, roots, c);
    }
  }

  lemma AllReadable(dag: map<Cid, seq<Cid>>, roots: set<Cid>, walked: set<Cid>)
    requires forall c :: c in walked <==> Below(dag, roots, c)
    requires roots <= dag.Keys && walked <= dag.Keys
    ensures forall x :: ReachFrom(dag, roots, x) ==> x in dag
  {
    forall x | ReachFrom(dag, roots, x) ensures x in dag {
      ReachIsPinOrBelow(dag, roots, x);
    }
  }

  lemma WalkFault(dag: map<Cid, seq<Cid>>, root: Cid, s: set<Cid>, t: set<Cid>, waiting: set<Cid>, c: Cid)
    requires root in dag && Frontier(dag, s, KidSet(dag, {root}), t, waiting) && c in waiting
    ensures Reach(dag, root, c)
  {
    assert ReachFrom(dag - s, KidSet(dag, {root}), c);
    var k :| k in KidSet(dag, {root}) && Reach(dag - s, k, c);
    var n: nat :| Steps(dag - s, k, c, n);
    StepsMono(dag - s, dag, k, c, n);
    ReachCons(dag, root, k, c);
  }
}
