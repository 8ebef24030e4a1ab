/** Garbage collection: colour everything that must stay, then delete every
    stored block whose hash has no coloured name. */
module GarbageCollection {
  import opened Graph
  import opened Cids
  import opened Marking
  import opened Wrappers

  datatype GcError =
    | CannotFetchLinks(c: Cid)
    | InsecureHash(c: Cid)
    | PinStreamFailed
    | CannotFetchAllLinks
    | KeysUnavailable
    | CannotDeleteBlock(c: Cid)
    | CannotDeleteSomeBlocks
    | DatastoreGcFailed

  datatype Result = KeyRemoved(c: Cid) | Failed(e: GcError)

  /** The offline view of a repository. `decode` maps the version 1 name of
      every well-formed node to its links; a block's content, and so its links,
      never changes. */
  datatype Store = Store(blocks: set<Multihash>, decode: map<Cid, seq<Cid>>, insecure: set<Multihash>)

  function V1Seq(cs: seq<Cid>): (vs: seq<Cid>)
    ensures |vs| == |cs| && forall i :: 0 <= i < |cs| ==> vs[i] == ToCidV1(cs[i])
  {
    seq(|cs|, i requires 0 <= i < |cs| => ToCidV1(cs[i]))
  }

  function V1Set(cs: set<Cid>): set<Cid> {
    set c | c in cs :: ToCidV1(c)
  }

  /** The links that a walk sees locally, between version 1 names. A raw node has
      no links and is not read. */
  function LocalGraph(s: Store): map<Cid, seq<Cid>> {
    map v | v in s.decode && v.version != 0 && v.codec != RAW && v.hash in s.blocks :: V1Seq(s.decode[v])
  }

  /** Visiting `v` makes the run fail: its hash function is rejected, or it is not
      raw and its links cannot be read. A best-effort walk tolerates an absent
      block. */
  predicate Faulty(s: Store, bestEffort: bool, v: Cid) {
    || v.hash in s.insecure
    || (v.codec != RAW && if v.hash in s.blocks then v !in s.decode else !bestEffort)
  }

  function Keys(stream: seq<StreamedPin>): set<Cid> {
    set p | p in stream && p.Key? :: ToCidV1(p.c)
  }

  predicate Unbroken(stream: seq<StreamedPin>) {
    StreamFailed !in stream
  }

  lemma KeysAppend(a: seq<StreamedPin>, p: StreamedPin)
    ensures Keys(a + [p]) == Keys(a) + (if p.Key? then {ToCidV1(p.c)} else {})
  {
    if p.Key? {
      assert p in a + [p];
    }
    forall x | x in Keys(a) ensures x in Keys(a + [p]) {
      var q :| q in a && q.Key? && ToCidV1(q.c) == x;
      assert q in a + [p];
    }
  }

  /** What the pinner and the caller hand to a run, as version 1 names. */
  datatype Roots = Roots(rec: set<Cid>, best: set<Cid>, direct: set<Cid>, internal: set<Cid>)

  function RootsOf(rkeys: seq<StreamedPin>, best: seq<Cid>, dkeys: seq<StreamedPin>, ikeys: seq<StreamedPin>): Roots {
    Roots(Keys(rkeys), V1Set(set b | b in best), Keys(dkeys), Keys(ikeys))
  }

  /** Reachable from a recursive pin or a best-effort root. */
  ghost predicate Core(g: map<Cid, seq<Cid>>, r: Roots, v: Cid) {
    ReachFrom(g, r.rec + r.best, v)
  }

  /** Direct pins that nothing else keeps. They are coloured before the internal
      pins are walked, and such a walk does not look below them. */
  ghost function DirectOnly(g: map<Cid, seq<Cid>>, r: Roots): set<Cid> {
    set d | d in r.direct && !Core(g, r, d)
  }

  /** The reference: what a successful run colours. */
  ghost predicate Kept(g: map<Cid, seq<Cid>>, r: Roots, v: Cid) {
    Core(g, r, v) || v in r.direct || ReachFrom(g - DirectOnly(g, r), r.internal, v)
  }

  /** The reference: when a run succeeds. */
  ghost predicate Healthy(s: Store, r: Roots) {
    var g := LocalGraph(s);
    && (forall v :: ReachFrom(g, r.rec, v) ==> !Faulty(s, false, v))
    && (forall v :: ReachFrom(g, r.best, v) ==> !Faulty(s, true, v))
    && (forall v :: ReachFrom(g - DirectOnly(g, r), r.internal, v) && !Core(g, r, v) && v !in r.direct ==>
          !Faulty(s, false, v))
  }

  /** After the last phase nothing outside the lone direct pins has an
      uncoloured child. */
  lemma FinalClosed(g: map<Cid, seq<Cid>>, r: Roots, s2: set<Cid>, s3: set<Cid>, s4: set<Cid>)
    requires forall x :: x in s2 <==> Core(g, r, x)
    requires Closed(g, s2) && s3 == s2 + r.direct && MarkedFrom(g, s3, r.internal, s4)
    ensures Closed(g - DirectOnly(g, r), s4) && DirectOnly(g, r) <= s3
  {
    hide Core, ReachFrom;
    forall x, y | x in s4 && y in Kids(g - DirectOnly(g, r), x) ensures y in s4 {
      assert x !in DirectOnly(g, r) && y in Kids(g, x);
    }
  }

  /** After the last phase the coloured set is exactly what must be kept. */
  lemma KeptExact(g: map<Cid, seq<Cid>>, r: Roots, s2: set<Cid>, s3: set<Cid>, s4: set<Cid>, v: Cid)
    requires forall x :: x in s2 <==> Core(g, r, x)
    requires Closed(g, s2) && s3 == s2 + r.direct && MarkedFrom(g, s3, r.internal, s4)
    ensures v in s4 <==> Kept(g, r, v)
    ensures v in s4 && v !in s3 <==>
      ReachFrom(g - DirectOnly(g, r), r.internal, v) && !Core(g, r, v) && v !in r.direct
  {
    var lone := DirectOnly(g, r);
    FinalClosed(g, r, s2, s3, s4);
    MarkedExact(g, s3, r.internal, s4, v);
    if ReachFrom(g - s3, r.internal, v) {
      ReachFromMono(g - s3, g - lone, r.internal, r.internal, v);
    }
    if ReachFrom(g - lone, r.internal, v) {
      RootsInClosed(g - lone, r.internal, s4, v);
    }
    hide *;
    assert v in s4 <==> Kept(g, r, v);
  }

  /** Some node that a walk from `roots` around `marked` meets is faulty. */
  ghost predicate FaultBelow(s: Store, bestEffort: bool, marked: set<Cid>, roots: set<Cid>) {
    exists v :: v !in marked && ReachFrom(LocalGraph(s) - marked, roots, v) && Faulty(s, bestEffort, v)
  }

  /** The state of a walk that started with the set `m` marked and the error flag `e`. */
  ghost predicate Walking(s: Store, bestEffort: bool, m: set<Cid>, r: set<Cid>, e: bool,
                          gcs: set<Cid>, pending: set<Cid>, errors: bool)
  {
    && Frontier(LocalGraph(s), m, r, gcs, V1Set(pending))
    && (!errors ==> forall v :: v in gcs && v !in m ==> !Faulty(s, bestEffort, v))
    && (errors && !e ==> exists v :: v in gcs && v !in m && Faulty(s, bestEffort, v))
  }

  lemma WalkStart(s: Store, bestEffort: bool, m: set<Cid>, root: Cid, e: bool)
    ensures Walking(s, bestEffort, m, {ToCidV1(root)}, e, m, {root}, e)
  {
    FrontierStart(LocalGraph(s), m, {ToCidV1(root)});
    assert V1Set({root}) == {ToCidV1(root)};
  }

  lemma WalkInNodes(s: Store, bestEffort: bool, m: set<Cid>, r: set<Cid>, e: bool,
                    gcs: set<Cid>, pending: set<Cid>, errors: bool, c: Cid)
    requires Walking(s, bestEffort, m, r, e, gcs, pending, errors) && c in pending
    ensures ToCidV1(c) in Nodes(LocalGraph(s), r)
  {
    assert ToCidV1(c) in V1Set(pending);
  }

  lemma WalkSkip(s: Store, bestEffort: bool, m: set<Cid>, r: set<Cid>, e: bool,
                 gcs: set<Cid>, pending: set<Cid>, errors: bool, c: Cid)
    requires Walking(s, bestEffort, m, r, e, gcs, pending, errors) && c in pending && ToCidV1(c) in gcs
    ensures Walking(s, bestEffort, m, r, e, gcs, pending - {c}, errors)
  {
    FrontierSkip(LocalGraph(s), m, r, gcs, V1Set(pending), V1Set(pending - {c}));
    hide Frontier;
  }

  lemma WalkAbort(s: Store, bestEffort: bool, m: set<Cid>, r: set<Cid>, e: bool,
                  gcs: set<Cid>, pending: set<Cid>, errors: bool, c: Cid)
    requires Walking(s, bestEffort, m, r, e, gcs, pending, errors) && c in pending
    requires ToCidV1(c) !in gcs && c.hash in s.insecure
    ensures FaultBelow(s, bestEffort, m, r)
  {
    hide ReachFrom, Nodes;
    assert ToCidV1(c) in V1Set(pending) && Faulty(s, bestEffort, ToCidV1(c));
  }

  lemma WalkVisit(s: Store, bestEffort: bool, m: set<Cid>, r: set<Cid>, e: bool,
                  gcs: set<Cid>, pending: set<Cid>, errors: bool, c: Cid, links: seq<Cid>)
    requires Walking(s, bestEffort, m, r, e, gcs, pending, errors) && c in pending && ToCidV1(c) !in gcs
    requires V1Seq(links) == Kids(LocalGraph(s), ToCidV1(c))
    ensures Walking(s, bestEffort, m, r, e, gcs + {ToCidV1(c)}, pending - {c} + (set l | l in links),
                    errors || Faulty(s, bestEffort, ToCidV1(c)))
  {
    var g, v, p := LocalGraph(s), ToCidV1(c), pending - {c} + (set l | l in links);
    forall x | x in V1Set(pending) - {v} ensures x in V1Set(p) {
      var y :| y in pending && ToCidV1(y) == x;
      assert y in p;
    }
    forall k | k in Kids(g, v) ensures k in V1Set(p) {
      var i :| 0 <= i < |links| && V1Seq(links)[i] == k;
      assert links[i] in p;
    }
    forall x | x in V1Set(p) ensures x in V1Set(pending) || x in Kids(g, v) {
      var y :| y in p && ToCidV1(y) == x;
      if y in links {
        var i :| 0 <= i < |links| && links[i] == y;
        assert V1Seq(links)[i] == x;
      }
    }
    FrontierVisit(g, m, r, gcs, V1Set(pending), v, V1Set(p));
    hide Frontier;
  }

  lemma WalkEnd(s: Store, bestEffort: bool, m: set<Cid>, r: set<Cid>, e: bool, gcs: set<Cid>, errors: bool)
    requires Walking(s, bestEffort, m, r, e, gcs, {}, errors)
    ensures MarkedFrom(LocalGraph(s), m, r, gcs)
    ensures !errors ==> forall v :: v in gcs && v !in m ==> !Faulty(s, bestEffort, v)
    ensures errors && !e ==> FaultBelow(s, bestEffort, m, r)
  {
    assert V1Set({}) == {};
    FrontierEnd(LocalGraph(s), m, r, gcs);
  }

  lemma KeysMember(roots: seq<StreamedPin>, p: StreamedPin)
    requires p in roots && p.Key?
    ensures ToCidV1(p.c) in Keys(roots)
  {
  }

  lemma BestKeys(best: seq<Cid>, pins: seq<StreamedPin>)
    requires |pins| == |best| && forall i :: 0 <= i < |best| ==> pins[i] == Key(best[i])
    ensures Unbroken(pins) && Keys(pins) == V1Set(set b | b in best)
  {
    forall v | v in V1Set(set b | b in best) ensures v in Keys(pins) {
      var i :| 0 <= i < |best| && ToCidV1(best[i]) == v;
      assert pins[i] in pins;
    }
  }

  /** A fault met after some roots were walked is a fault of the whole walk. */
  lemma FaultBelowMono(s: Store, bestEffort: bool, m: set<Cid>, q: set<Cid>, t: set<Cid>, r: set<Cid>, all: set<Cid>)
    requires MarkedFrom(LocalGraph(s), m, q, t) && FaultBelow(s, bestEffort, t, r) && r <= all
    ensures FaultBelow(s, bestEffort, m, all)
  {
    var g := LocalGraph(s);
    var v :| v !in t && ReachFrom(g - t, r, v) && Faulty(s, bestEffort, v);
    ReachFromMono(g - t, g - m, r, all, v);
  }

  lemma FaultRecursive(s: Store, r: Roots)
    requires FaultBelow(s, false, {}, r.rec)
    ensures !Healthy(s, r)
  {
    var g := LocalGraph(s);
    assert g - {} == g;
  }

  /** After the first phase: the closed set of everything below recursive pins. */
  lemma CoreRecursive(s: Store, r: Roots, s1: set<Cid>)
    requires MarkedFrom(LocalGraph(s), {}, r.rec, s1)
    ensures Closed(LocalGraph(s), s1)
    ensures forall v :: v in s1 <==> ReachFrom(LocalGraph(s), r.rec, v)
  {
    var g := LocalGraph(s);
    forall v ensures v in s1 <==> ReachFrom(g, r.rec, v) {
      MarkedFromClosed(g, {}, r.rec, s1, v);
    }
  }

  lemma FaultBest(s: Store, r: Roots, s1: set<Cid>)
    requires FaultBelow(s, true, s1, r.best)
    ensures !Healthy(s, r)
  {
    var g := LocalGraph(s);
    var v :| v !in s1 && ReachFrom(g - s1, r.best, v) && Faulty(s, true, v);
    ReachFromMono(g - s1, g, r.best, r.best, v);
  }

  /** After the second phase: the closed set of everything reachable from a root
      of either kind. */
  lemma CoreBoth(s: Store, r: Roots, s1: set<Cid>, s2: set<Cid>)
    requires MarkedFrom(LocalGraph(s), {}, r.rec, s1) && MarkedFrom(LocalGraph(s), s1, r.best, s2)
    ensures Closed(LocalGraph(s), s2)
    ensures forall v :: v in s2 <==> Core(LocalGraph(s), r, v)
  {
    var g := LocalGraph(s);
    MarkedTwice(g, {}, r.rec, s1, r.best, s2);
    forall v ensures v in s2 <==> Core(g, r, v) {
      MarkedFromClosed(g, {}, r.rec + r.best, s2, v);
    }
  }

  lemma FaultInternal(s: Store, r: Roots, s2: set<Cid>, s3: set<Cid>)
    requires forall v :: v in s2 <==> Core(LocalGraph(s), r, v)
    requires s3 == s2 + r.direct && FaultBelow(s, false, s3, r.internal)
    ensures !Healthy(s, r)
  {
    var g := LocalGraph(s);
    var lone := DirectOnly(g, r);
    var v :| v !in s3 && ReachFrom(g - s3, r.internal, v) && Faulty(s, false, v);
    ReachFromMono(g - s3, g - lone, r.internal, r.internal, v);
    hide ReachFrom;
    assert !Core(g, r, v) && v !in r.direct;
  }

  lemma ColoredHealthy(s: Store, r: Roots, s1: set<Cid>, s2: set<Cid>, s3: set<Cid>, s4: set<Cid>)
    requires MarkedFrom(LocalGraph(s), {}, r.rec, s1) && MarkedFrom(LocalGraph(s), s1, r.best, s2)
    requires s3 == s2 + r.direct && MarkedFrom(LocalGraph(s), s3, r.internal, s4)
    requires forall v :: v in s1 ==> !Faulty(s, false, v)
    requires forall v :: v in s2 && v !in s1 ==> !Faulty(s, true, v)
    requires forall v :: v in s4 && v !in s3 ==> !Faulty(s, false, v)
    ensures Healthy(s, r)
    ensures forall v :: v in s4 <==> Kept(LocalGraph(s), r, v)
  {
    var g := LocalGraph(s);
    CoreRecursive(s, r, s1);
    CoreBoth(s, r, s1, s2);
    forall v ensures v in s4 <==> Kept(g, r, v)
      ensures v in s4 && v !in s3 <==>
        ReachFrom(g - DirectOnly(g, r), r.internal, v) && !Core(g, r, v) && v !in r.direct
    {
      KeptExact(g, r, s2, s3, s4, v);
    }
    forall v | ReachFrom(g, r.best, v) ensures v in s2 {
      ReachFromMono(g, g, r.best, r.rec + r.best, v);
    }
    hide ReachFrom, Kept, Core;
  }

  /** Output so far plus error reports only, and none unless the flag is up. */
  predicate Reported(before: seq<Result>, after: seq<Result>, errors: bool) {
    && before <= after
    && (forall i :: |before| <= i < |after| ==> after[i].Failed?)
    && (!errors ==> after == before)
  }

  lemma ReportedTwice(o: seq<Result>, p: seq<Result>, q: seq<Result>, e: bool, f: bool)
    requires Reported(o, p, e) && Reported(p, q, f) && (e ==> f)
    ensures Reported(o, q, f)
  {
  }

  lemma ReportedOne(o: seq<Result>, p: seq<Result>, e: bool, err: GcError)
    requires Reported(o, p, e)
    ensures Reported(o, p + [Failed(err)], true)
  {
  }


  class Collector {
    const store: Store
    var gcs: set<Cid>
    var errors: bool
    var output: seq<Result>

    constructor (store: Store)
      ensures this.store == store && gcs == {} && !errors && output == []
    {
      this.store := store;
      gcs, errors, output := {}, false, [];
    }

    twostate predicate OnlyReports()
      reads this
    {
      Reported(old(output), output, errors)
    }

    method Report(e: GcError)
      modifies this`output
      ensures output == old(output) + [Failed(e)]
    {
      output := output + [Failed(e)];
    }

    /** The link getter of a walk: reject weak hashes, take raw nodes as they are,
        read the links of others, and turn a failed read into a report and an empty
        list. */
    method GetLinks(c: Cid, bestEffort: bool) returns (links: seq<Cid>, ok: bool)
      modifies this`errors, this`output
      ensures OnlyReports()
      ensures ok <==> c.hash !in store.insecure
      ensures ok ==> V1Seq(links) == Kids(LocalGraph(store), ToCidV1(c))
      ensures errors <==> old(errors) || (ok && Faulty(store, bestEffort, ToCidV1(c)))
      ensures output == old(output) +
        (if ok && Faulty(store, bestEffort, ToCidV1(c)) then [Failed(CannotFetchLinks(c))] else [])
    {
      if c.hash in store.insecure {
        return [], false;
      }
      if c.codec == RAW {
        return [], true;
      }
      if c.hash in store.blocks && ToCidV1(c) in store.decode {
        return store.decode[ToCidV1(c)], true;
      }
      if !(bestEffort && c.hash !in store.blocks) {
        errors := true;
        Report(CannotFetchLinks(c));
      }
      return [], true;
    }

    /** One walk of the DAG below `root`; the order in which pending links are
        taken is left open. */
    method Walk(root: Cid, bestEffort: bool) returns (ok: bool)
      modifies this
      ensures OnlyReports() && (old(errors) ==> errors)
      ensures ok ==> MarkedFrom(LocalGraph(store), old(gcs), {ToCidV1(root)}, gcs)
      ensures ok && !errors ==> forall v :: v in gcs && v !in old(gcs) ==> !Faulty(store, bestEffort, v)
      ensures !ok || (errors && !old(errors)) ==> FaultBelow(store, bestEffort, old(gcs), {ToCidV1(root)})
    {
      ghost var s, r, e := gcs, {ToCidV1(root)}, errors;
      var pending := {root};
      WalkStart(store, bestEffort, s, root, e);
      while pending != {}
        invariant OnlyReports() && (e ==> errors)
        invariant Walking(store, bestEffort, s, r, e, gcs, pending, errors)
        decreases Nodes(LocalGraph(store), r) - gcs, pending
      {
        hide Walking, FaultBelow, Faulty, MarkedFrom;
        var c :| c in pending;
        var v := ToCidV1(c);
        WalkInNodes(store, bestEffort, s, r, e, gcs, pending, errors, c);
        ghost var before, old_pending, old_errors := gcs, pending, errors;
        pending := pending - {c};
        if v in gcs {
          WalkSkip(store, bestEffort, s, r, e, gcs, old_pending, errors, c);
        } else {
          gcs := gcs + {v};
          var links, fetched := GetLinks(c, bestEffort);
          if !fetched {
            WalkAbort(store, bestEffort, s, r, e, before, old_pending, old_errors, c);
            return false;
          }
          pending := pending + set l | l in links;
          WalkVisit(store, bestEffort, s, r, e, before, old_pending, old_errors, c, links);
        }
      }
      WalkEnd(store, bestEffort, s, r, e, gcs, errors);
      return true;
    }

    /** Walks from every streamed root in turn and gives up at the first error. */
    method Descendants(roots: seq<StreamedPin>, bestEffort: bool) returns (err: Option<GcError>)
      modifies this
      ensures OnlyReports() && (old(errors) ==> errors)
      ensures err.None? ==> Unbroken(roots) && MarkedFrom(LocalGraph(store), old(gcs), Keys(roots), gcs)
      ensures err.None? && !errors ==> forall v :: v in gcs && v !in old(gcs) ==> !Faulty(store, bestEffort, v)
      ensures err.Some? || (errors && !old(errors)) ==>
        !Unbroken(roots) || FaultBelow(store, bestEffort, old(gcs), Keys(roots))
    {
      ghost var g, s := LocalGraph(store), gcs;
      MarkedNothing(g, s);
      var i := 0;
      while i < |roots|
        invariant 0 <= i <= |roots| && Unbroken(roots[..i])
        invariant OnlyReports() && (old(errors) ==> errors)
        invariant MarkedFrom(g, s, Keys(roots[..i]), gcs)
        invariant !errors ==> forall v :: v in gcs && v !in s ==> !Faulty(store, bestEffort, v)
        invariant errors && !old(errors) ==> FaultBelow(store, bestEffort, s, Keys(roots))
      {
        hide MarkedFrom, FaultBelow, Faulty;
        var p := roots[i];
        assert roots[..i + 1] == roots[..i] + [p];
        if p.StreamFailed? {
          return Some(PinStreamFailed);
        }
        KeysAppend(roots[..i], p);
        KeysMember(roots, p);
        ghost var t, e := gcs, errors;
        var ok := Walk(p.c, bestEffort);
        if !ok || (errors && !e) {
          FaultBelowMono(store, bestEffort, s, Keys(roots[..i]), t, {ToCidV1(p.c)}, Keys(roots));
        }
        if !ok {
          return Some(InsecureHash(p.c));
        }
        MarkedTwice(g, s, Keys(roots[..i]), t, {ToCidV1(p.c)}, gcs);
        i := i + 1;
      }
      assert roots[..i] == roots;
      return None;
    }

    /** Colours, in this order, what recursive pins reach, what best-effort roots
        reach, the direct pins, and what internal pins reach. It succeeds exactly
        when every stream is whole and every node it must read is readable, and
        then it has coloured exactly what must be kept. */
    method ColoredSet(rkeys: seq<StreamedPin>, best: seq<Cid>, dkeys: seq<StreamedPin>, ikeys: seq<StreamedPin>)
      returns (err: Option<GcError>)
      requires gcs == {} && !errors
      modifies this
      ensures OnlyReports() && (err.None? ==> !errors)
      ensures err.None? <==>
        Unbroken(rkeys) && Unbroken(dkeys) && Unbroken(ikeys) && Healthy(store, RootsOf(rkeys, best, dkeys, ikeys))
      ensures err.None? ==>
        forall v :: v in gcs <==> Kept(LocalGraph(store), RootsOf(rkeys, best, dkeys, ikeys), v)
      ensures err.Some? ==> err.value == if Unbroken(dkeys) then CannotFetchAllLinks else PinStreamFailed
    {
      hide MarkedFrom, FaultBelow, Faulty, Healthy, Kept, Reported;
      ghost var o0 := output;
      ghost var g, r := LocalGraph(store), RootsOf(rkeys, best, dkeys, ikeys);

      var e := Descendants(rkeys, false);
      if e.Some? {
        ReportedOne(o0, output, errors, e.value);
        errors := true;
        Report(e.value);
      }
      ghost var o1 := output;
      ghost var s1, e1 := gcs, errors;
      if e1 && Unbroken(rkeys) {
        FaultRecursive(store, r);
      }

      var bestPins := seq(|best|, i requires 0 <= i < |best| => Key(best[i]));
      BestKeys(best, bestPins);
      e := Descendants(bestPins, true);
      if e.Some? {
        ReportedOne(o1, output, errors, e.value);
        errors := true;
        Report(e.value);
      }
      ReportedTwice(o0, o1, output, e1, errors);
      ghost var o2 := output;
      ghost var s2, e2 := gcs, errors;
      if !e1 {
        CoreRecursive(store, r, s1);
        if e2 {
          FaultBest(store, r, s1);
        }
      }

      var i := 0;
      while i < |dkeys|
        invariant 0 <= i <= |dkeys| && Unbroken(dkeys[..i])
        invariant output == o2 && errors == e2
        invariant gcs == s2 + Keys(dkeys[..i])
      {
        var k := dkeys[i];
        assert dkeys[..i + 1] == dkeys[..i] + [k];
        if k.StreamFailed? {
          return Some(PinStreamFailed);
        }
        KeysAppend(dkeys[..i], k);
        gcs := gcs + {ToCidV1(k.c)};
        i := i + 1;
      }
      assert dkeys[..i] == dkeys;

      ghost var s3 := gcs;
      e := Descendants(ikeys, false);
      if e.Some? {
        ReportedOne(o2, output, errors, e.value);
        errors := true;
        Report(e.value);
      }
      ReportedTwice(o0, o2, output, e2, errors);
      if !e2 {
        CoreBoth(store, r, s1, s2);
        if errors && Unbroken(ikeys) {
          FaultInternal(store, r, s2, s3);
        }
      }
      if errors {
        return Some(CannotFetchAllLinks);
      }
      ColoredHealthy(store, r, s1, s2, s3, gcs);
      return None;
    }
  }
}
