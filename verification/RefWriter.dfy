/** `ipfs refs`: a depth-first listing of links that is limited in depth and,
    on demand, free of duplicates. */
module RefWriting {
  import opened Graph
  import opened Cids
  import opened Walks

  datatype Edge = Edge(src: Cid, dst: Cid)

  function Dsts(written: seq<Edge>): (s: set<Cid>) {
    set e | e in written :: e.dst
  }

  ghost predicate NoDuplicateDst(written: seq<Edge>) {
    forall i, j :: 0 <= i < j < |written| ==> written[i].dst != written[j].dst
  }

  /** A negative `maxDepth` means no limit. */
  predicate Within(maxDepth: int, d: int) {
    maxDepth < 0 || d <= maxDepth
  }

  /** The reference: `c` is at a link distance of 1 to `maxDepth` from a root. */
  ghost predicate InRange(dag: map<Cid, seq<Cid>>, maxDepth: int, roots: set<Cid>, c: Cid) {
    exists r, d: nat :: r in roots && 1 <= d && Within(maxDepth, d) && Steps(dag, r, c, d)
  }

  /** A root or a CID in range cannot be fetched. */
  ghost predicate Missing(dag: map<Cid, seq<Cid>>, maxDepth: int, roots: set<Cid>) {
    exists c :: c !in dag && (c in roots || InRange(dag, maxDepth, roots, c))
  }

  ghost predicate At(dag: map<Cid, seq<Cid>>, roots: set<Cid>, c: Cid, d: nat) {
    exists r :: r in roots && Steps(dag, r, c, d)
  }

  lemma ChildAt(dag: map<Cid, seq<Cid>>, roots: set<Cid>, n: Cid, lc: Cid, d: nat)
    requires At(dag, roots, n, d) && lc in Kids(dag, n)
    ensures At(dag, roots, lc, d + 1)
  {
    var r :| r in roots && Steps(dag, r, n, d);
    StepsAppend(dag, r, n, lc, d);
  }

  lemma AtInRange(dag: map<Cid, seq<Cid>>, maxDepth: int, roots: set<Cid>, c: Cid, d: nat)
    requires At(dag, roots, c, d) && 1 <= d && Within(maxDepth, d)
    ensures InRange(dag, maxDepth, roots, c)
  {
  }

  /** The children of a node met at depth `d` are all recorded, at depth `d + 1`
      at most when there is a limit. */
  ghost predicate Covered(dag: map<Cid, seq<Cid>>, maxDepth: int, seen: map<Cid, nat>, c: Cid, d: nat) {
    Within(maxDepth, d + 1) ==>
      forall k :: k in Kids(dag, c) ==> k in seen && (maxDepth >= 0 ==> seen[k] <= d + 1)
  }

  ghost predicate Expanded(dag: map<Cid, seq<Cid>>, maxDepth: int, seen: map<Cid, nat>, c: Cid)
    requires c in seen
  {
    Covered(dag, maxDepth, seen, c, seen[c])
  }

  /** Entries are only added or lowered. */
  ghost predicate Lowered(s: map<Cid, nat>, t: map<Cid, nat>) {
    forall c :: c in s ==> c in t && t[c] <= s[c]
  }

  /** Every entry that `t` adds to `s` or lowers has been fully expanded. */
  ghost predicate FreshExpanded(dag: map<Cid, seq<Cid>>, maxDepth: int, s: map<Cid, nat>, t: map<Cid, nat>) {
    forall c :: c in t ==> (c in s && t[c] == s[c]) || Expanded(dag, maxDepth, t, c)
  }

  lemma FreshExpandedTrans(dag: map<Cid, seq<Cid>>, maxDepth: int, s: map<Cid, nat>, t: map<Cid, nat>, u: map<Cid, nat>)
    requires Lowered(s, t) && Lowered(t, u)
    requires FreshExpanded(dag, maxDepth, s, t) && FreshExpanded(dag, maxDepth, t, u)
    ensures Lowered(s, u) && FreshExpanded(dag, maxDepth, s, u)
  {
    forall c | c in u && !(c in s && u[c] == s[c])
      ensures Expanded(dag, maxDepth, u, c)
    {
      if c in t && u[c] == t[c] {
        assert Expanded(dag, maxDepth, t, c);
      }
    }
  }

  /** Completeness, for one node: if it is covered at depth `d` and every record
      is expanded, then every walk of `n` more links ends in a record. */
  lemma {:induction false} WalkRecorded(dag: map<Cid, seq<Cid>>, maxDepth: int, seen: map<Cid, nat>,
                                        a: Cid, b: Cid, d: nat, n: nat)
    requires forall c :: c in seen ==> Expanded(dag, maxDepth, seen, c)
    requires Covered(dag, maxDepth, seen, a, d)
    requires n > 0 && Within(maxDepth, d + n) && Steps(dag, a, b, n)
    ensures b in seen && (maxDepth >= 0 ==> seen[b] <= d + n)
    decreases n
  {
    var k :| k in Kids(dag, a) && Steps(dag, k, b, n - 1);
    if n > 1 {
      assert Expanded(dag, maxDepth, seen, k);
      WalkRecorded(dag, maxDepth, seen, k, b, if maxDepth >= 0 then seen[k] else d + 1, n - 1);
    }
  }

  /** Everything `c`, met at depth `d`, and its descendants within the limit are printed. */
  ghost predicate BelowWritten(dag: map<Cid, seq<Cid>>, maxDepth: int, c: Cid, d: nat, dsts: set<Cid>) {
    forall b, j: nat :: Within(maxDepth, d + j) && Steps(dag, c, b, j) ==> b in dsts
  }

  lemma BelowFromKids(dag: map<Cid, seq<Cid>>, maxDepth: int, c: Cid, d: nat, dsts: set<Cid>)
    requires Within(maxDepth, d) ==> c in dsts
    requires d != maxDepth ==> forall k :: k in Kids(dag, c) ==> BelowWritten(dag, maxDepth, k, d + 1, dsts)
    ensures BelowWritten(dag, maxDepth, c, d, dsts)
  {
    forall b, j: nat | Within(maxDepth, d + j) && Steps(dag, c, b, j) ensures b in dsts {
      if j > 0 {
        var k :| k in Kids(dag, c) && Steps(dag, k, b, j - 1);
        assert BelowWritten(dag, maxDepth, k, d + 1, dsts);
      }
    }
  }

  /** Recording `c` at depth `d` and then covering it leaves it expanded. */
  lemma DescentExpanded(dag: map<Cid, seq<Cid>>, maxDepth: int, s: map<Cid, nat>, m: map<Cid, nat>, t: map<Cid, nat>,
                        c: Cid, d: nat)
    requires m == s[c := d] && Lowered(m, t) && FreshExpanded(dag, maxDepth, m, t)
    requires Covered(dag, maxDepth, t, c, d)
    ensures FreshExpanded(dag, maxDepth, s, t)
  {
    forall x | x in t && !(x in s && t[x] == s[x]) ensures Expanded(dag, maxDepth, t, x) {
      if x in m && t[x] == m[x] {
        assert x == c;
      }
    }
  }

  lemma DstsPrefix(w: seq<Edge>, v: seq<Edge>)
    requires w <= v
    ensures Dsts(w) <= Dsts(v)
  {
    forall e | e in w ensures e in v {
      var i :| 0 <= i < |w| && w[i] == e;
      assert v[i] == e;
    }
  }

  lemma DstsAppend(w: seq<Edge>, e: Edge)
    ensures Dsts(w + [e]) == Dsts(w) + {e.dst}
    ensures NoDuplicateDst(w) && e.dst !in Dsts(w) ==> NoDuplicateDst(w + [e])
  {
    forall x | x in Dsts(w) + {e.dst} ensures x in Dsts(w + [e]) {
      if x in Dsts(w) {
        var f :| f in w && f.dst == x;
        assert f in w + [e];
      } else {
        assert e in w + [e];
      }
    }
  }

  /** Bounds the recursion: by depth, by unseen nodes, or by the rank of an
      acyclic graph when neither limit nor deduplication is on. */
  ghost function Fuel(dag: map<Cid, seq<Cid>>, unique: bool, maxDepth: int, seen: map<Cid, nat>,
                      n: Cid, depth: nat, rank: Cid -> nat): nat
  {
    if maxDepth >= 0 then (if depth <= maxDepth then maxDepth - depth else 0)
    else if unique then |Nodes(dag, {}) - seen.Keys|
    else rank(n)
  }

  lemma SubsetSize<T>(a: set<T>, b: set<T>)
    requires a <= b
    ensures |a| <= |b|
    ensures a != b ==> |a| < |b|
  {
    assert b == a + (b - a);
    if a != b {
      assert exists x :: x in b - a;
    }
  }

  lemma FuelShrinks(dag: map<Cid, seq<Cid>>, unique: bool, maxDepth: int, s: map<Cid, nat>, t: map<Cid, nat>,
                    n: Cid, depth: nat, rank: Cid -> nat)
    requires Lowered(s, t)
    ensures Fuel(dag, unique, maxDepth, t, n, depth, rank) <= Fuel(dag, unique, maxDepth, s, n, depth, rank)
  {
    SubsetSize(Nodes(dag, {}) - t.Keys, Nodes(dag, {}) - s.Keys);
  }

  lemma FuelDrops(dag: map<Cid, seq<Cid>>, unique: bool, maxDepth: int, s: map<Cid, nat>,
                  n: Cid, lc: Cid, depth: nat, rank: Cid -> nat)
    requires lc in Kids(dag, n) && (unique || maxDepth >= 0 || Ranked(dag, rank))
    requires maxDepth >= 0 ==> depth < maxDepth
    requires unique && maxDepth < 0 ==> lc !in s
    ensures Fuel(dag, unique, maxDepth, if unique then s[lc := depth + 1] else s, lc, depth + 1, rank)
         < Fuel(dag, unique, maxDepth, s, n, depth, rank)
  {
    if unique && maxDepth < 0 {
      assert lc in Nodes(dag, {}) - s.Keys;
      SubsetSize(Nodes(dag, {}) - s[lc := depth + 1].Keys, Nodes(dag, {}) - s.Keys);
    }
  }

  /** Soundness of a state, kept by every step even when a fetch fails. */
  ghost predicate Sound(dag: map<Cid, seq<Cid>>, unique: bool, maxDepth: int, roots: set<Cid>,
                        seen: map<Cid, nat>, written: seq<Edge>)
  {
    && (forall c :: c in seen ==> 1 <= seen[c] && Within(maxDepth, seen[c]) && At(dag, roots, c, seen[c]))
    && (forall e :: e in written ==> e.dst in Kids(dag, e.src) && e.dst in dag && InRange(dag, maxDepth, roots, e.dst))
    && (unique ==> NoDuplicateDst(written) && Dsts(written) <= seen.Keys)
    && (!unique ==> seen == map[])
  }

  /** What every run does: it only adds output and only adds or lowers records. */
  ghost predicate Progress(s: map<Cid, nat>, w: seq<Edge>, t: map<Cid, nat>, v: seq<Edge>, count: nat) {
    |v| == |w| + count && w <= v && Lowered(s, t)
  }

  /** What an error-free run adds: new records are expanded and printed. */
  ghost predicate Clean(dag: map<Cid, seq<Cid>>, unique: bool, maxDepth: int,
                        s: map<Cid, nat>, t: map<Cid, nat>, v: seq<Edge>)
  {
    unique ==> FreshExpanded(dag, maxDepth, s, t) && t.Keys - s.Keys <= Dsts(v)
  }

  /** A link to `k` met at depth `d` is dealt with. */
  ghost predicate LinkDone(dag: map<Cid, seq<Cid>>, unique: bool, maxDepth: int,
                           seen: map<Cid, nat>, written: seq<Edge>, k: Cid, d: nat)
  {
    if unique then Within(maxDepth, d) ==> k in seen && (maxDepth >= 0 ==> seen[k] <= d)
    else BelowWritten(dag, maxDepth, k, d, Dsts(written))
  }

  lemma NoProgress(dag: map<Cid, seq<Cid>>, unique: bool, maxDepth: int, s: map<Cid, nat>, w: seq<Edge>)
    ensures Progress(s, w, s, w, 0) && Clean(dag, unique, maxDepth, s, s, w)
  {
  }

  lemma ProgressLowers(s: map<Cid, nat>, w: seq<Edge>, t: map<Cid, nat>, v: seq<Edge>, n: nat)
    requires Progress(s, w, t, v, n)
    ensures Lowered(s, t)
  {
  }

  lemma InRangeMono(dag: map<Cid, seq<Cid>>, maxDepth: int, roots: set<Cid>, more: set<Cid>, c: Cid)
    requires InRange(dag, maxDepth, roots, c) && roots <= more
    ensures InRange(dag, maxDepth, more, c)
  {
    var r, d: nat :| r in roots && 1 <= d && Within(maxDepth, d) && Steps(dag, r, c, d);
    assert r in more;
  }

  lemma MissingOne(dag: map<Cid, seq<Cid>>, maxDepth: int, roots: set<Cid>, c: Cid)
    requires c !in dag && (c in roots || InRange(dag, maxDepth, roots, c))
    ensures Missing(dag, maxDepth, roots)
  {
  }

  lemma MissingMono(dag: map<Cid, seq<Cid>>, maxDepth: int, roots: set<Cid>, more: set<Cid>)
    requires Missing(dag, maxDepth, roots) && roots <= more
    ensures Missing(dag, maxDepth, more)
  {
    var c :| c !in dag && (c in roots || InRange(dag, maxDepth, roots, c));
    if c !in roots {
      InRangeMono(dag, maxDepth, roots, more, c);
    }
  }

  /** A pruned link needs nothing further. */
  lemma VisitSkip(dag: map<Cid, seq<Cid>>, unique: bool, maxDepth: int, roots: set<Cid>,
                  s: map<Cid, nat>, w: seq<Edge>, c: Cid, d: nat)
    requires Sound(dag, unique, maxDepth, roots, s, w)
    ensures unique && c in s && maxDepth >= 0 ==> s[c] <= maxDepth
    ensures !Within(maxDepth, d) || (unique && c in s && (maxDepth < 0 || s[c] <= d)) ==>
      LinkDone(dag, unique, maxDepth, s, w, c, d)
    ensures Progress(s, w, s, w, 0) && Clean(dag, unique, maxDepth, s, s, w)
  {
  }

  lemma ProgressTrans(s: map<Cid, nat>, w: seq<Edge>, t: map<Cid, nat>, v: seq<Edge>, u: map<Cid, nat>, x: seq<Edge>,
                      m: nat, n: nat)
    requires Progress(s, w, t, v, m) && Progress(t, v, u, x, n)
    ensures Progress(s, w, u, x, m + n)
  {
  }

  lemma CleanTrans(dag: map<Cid, seq<Cid>>, unique: bool, maxDepth: int,
                   s: map<Cid, nat>, w: seq<Edge>, t: map<Cid, nat>, v: seq<Edge>, u: map<Cid, nat>, x: seq<Edge>,
                   m: nat, n: nat)
    requires Progress(s, w, t, v, m) && Progress(t, v, u, x, n)
    requires Clean(dag, unique, maxDepth, s, t, v) && Clean(dag, unique, maxDepth, t, u, x)
    ensures Clean(dag, unique, maxDepth, s, u, x)
  {
    if unique {
      FreshExpandedTrans(dag, maxDepth, s, t, u);
      DstsPrefix(v, x);
    }
  }

  lemma LinkDoneMono(dag: map<Cid, seq<Cid>>, unique: bool, maxDepth: int,
                     s: map<Cid, nat>, w: seq<Edge>, t: map<Cid, nat>, v: seq<Edge>, n: nat, k: Cid, d: nat)
    requires Progress(s, w, t, v, n) && LinkDone(dag, unique, maxDepth, s, w, k, d)
    ensures LinkDone(dag, unique, maxDepth, t, v, k, d)
  {
    DstsPrefix(w, v);
  }

  /** Recording the link target and, unless it was seen before, printing it. */
  function Record(unique: bool, seen: map<Cid, nat>, c: Cid, d: nat): map<Cid, nat> {
    if unique then seen[c := d] else seen
  }

  lemma RecordSound(dag: map<Cid, seq<Cid>>, unique: bool, maxDepth: int, roots: set<Cid>,
                    s: map<Cid, nat>, w: seq<Edge>, n: Cid, c: Cid, d: nat)
    requires Sound(dag, unique, maxDepth, roots, s, w)
    requires At(dag, roots, c, d) && 1 <= d && Within(maxDepth, d) && c in Kids(dag, n)
    ensures Sound(dag, unique, maxDepth, roots, Record(unique, s, c, d), w)
    ensures c in dag && (unique ==> c !in s) ==>
      Sound(dag, unique, maxDepth, roots, Record(unique, s, c, d), w + [Edge(n, c)])
  {
    DstsAppend(w, Edge(n, c));
    AtInRange(dag, maxDepth, roots, c, d);
  }

  lemma RecordProgress(unique: bool, s: map<Cid, nat>, w: seq<Edge>, e: Edge, d: nat)
    requires unique && e.dst in s ==> d <= s[e.dst]
    ensures Progress(s, w, Record(unique, s, e.dst, d), w, 0)
    ensures Progress(s, w, Record(unique, s, e.dst, d), w + [e], 1)
    ensures e.dst in Dsts(w + [e])
  {
    DstsAppend(w, e);
  }

  /** After recording `c` at depth `d`, a descent below it (or the depth limit)
      leaves the link done and every new record expanded. */
  lemma DescentDone(dag: map<Cid, seq<Cid>>, unique: bool, maxDepth: int,
                    s: map<Cid, nat>, t: map<Cid, nat>, v: seq<Edge>, u: map<Cid, nat>, x: seq<Edge>, n: nat,
                    c: Cid, d: nat)
    requires t == Record(unique, s, c, d) && Progress(t, v, u, x, n) && Clean(dag, unique, maxDepth, t, u, x)
    requires (unique && c in s) || c in Dsts(v)
    requires d == maxDepth || forall k :: k in Kids(dag, c) ==> LinkDone(dag, unique, maxDepth, u, x, k, d + 1)
    ensures Clean(dag, unique, maxDepth, s, u, x)
    ensures LinkDone(dag, unique, maxDepth, u, x, c, d)
  {
    DstsPrefix(v, x);
    if unique {
      assert Covered(dag, maxDepth, u, c, d);
      DescentExpanded(dag, maxDepth, s, t, u, c, d);
    } else {
      BelowFromKids(dag, maxDepth, c, d, Dsts(x));
    }
  }

  /** What a finished error-free listing of `roots` has recorded and printed. */
  ghost predicate Finished(dag: map<Cid, seq<Cid>>, unique: bool, maxDepth: int, roots: set<Cid>,
                           seen: map<Cid, nat>, written: seq<Edge>)
  {
    && (unique ==> Dsts(written) == seen.Keys && forall c :: c in seen ==> Expanded(dag, maxDepth, seen, c))
    && (forall r, k :: r in roots && k in Kids(dag, r) ==> LinkDone(dag, unique, maxDepth, seen, written, k, 1))
  }

  /** The main result on values: a sound, finished state has printed exactly the
      CIDs in range. */
  lemma FinishedExact(dag: map<Cid, seq<Cid>>, unique: bool, maxDepth: int, roots: set<Cid>,
                      seen: map<Cid, nat>, written: seq<Edge>, c: Cid)
    requires Sound(dag, unique, maxDepth, roots, seen, written)
    requires Finished(dag, unique, maxDepth, roots, seen, written)
    ensures c in Dsts(written) <==> InRange(dag, maxDepth, roots, c)
  {
    if c in Dsts(written) {
      var e :| e in written && e.dst == c;
    }
    if InRange(dag, maxDepth, roots, c) {
      var r, d: nat :| r in roots && 1 <= d && Within(maxDepth, d) && Steps(dag, r, c, d);
      var k :| k in Kids(dag, r) && Steps(dag, k, c, d - 1);
      assert LinkDone(dag, unique, maxDepth, seen, written, k, 1);
      if unique {
        forall x | x in Kids(dag, r) && Within(maxDepth, 1)
          ensures x in seen && (maxDepth >= 0 ==> seen[x] <= 1)
        {
          assert LinkDone(dag, unique, maxDepth, seen, written, x, 1);
        }
        WalkRecorded(dag, maxDepth, seen, r, c, 0, d);
      }
    }
  }

  lemma FinishedExtend(dag: map<Cid, seq<Cid>>, unique: bool, maxDepth: int, roots: set<Cid>, c: Cid,
                       s: map<Cid, nat>, w: seq<Edge>, t: map<Cid, nat>, v: seq<Edge>, n: nat)
    requires Finished(dag, unique, maxDepth, roots, s, w) && Sound(dag, unique, maxDepth, roots + {c}, t, v)
    requires Progress(s, w, t, v, n) && Clean(dag, unique, maxDepth, s, t, v)
    requires forall k :: k in Kids(dag, c) ==> LinkDone(dag, unique, maxDepth, t, v, k, 1)
    ensures Finished(dag, unique, maxDepth, roots + {c}, t, v)
  {
    if unique {
      DstsPrefix(w, v);
      forall x | x in t ensures Expanded(dag, maxDepth, t, x) {
        if x in s && t[x] == s[x] {
          assert Expanded(dag, maxDepth, s, x);
        }
      }
    }
    forall r, k | r in roots && k in Kids(dag, r) ensures LinkDone(dag, unique, maxDepth, t, v, k, 1) {
      LinkDoneMono(dag, unique, maxDepth, s, w, t, v, n, k, 1);
    }
  }

  lemma SoundMoreRoots(dag: map<Cid, seq<Cid>>, unique: bool, maxDepth: int, roots: set<Cid>, c: Cid,
                       seen: map<Cid, nat>, written: seq<Edge>)
    requires Sound(dag, unique, maxDepth, roots, seen, written)
    ensures Sound(dag, unique, maxDepth, roots + {c}, seen, written)
    ensures At(dag, roots + {c}, c, 0)
  {
    assert c in roots + {c} && Steps(dag, c, c, 0);
    forall x, d: nat | At(dag, roots, x, d) ensures At(dag, roots + {c}, x, d) {
      var r :| r in roots && Steps(dag, r, x, d);
      assert r in roots + {c};
    }
    forall x | InRange(dag, maxDepth, roots, x) ensures InRange(dag, maxDepth, roots + {c}, x) {
      var r, d: nat :| r in roots && 1 <= d && Within(maxDepth, d) && Steps(dag, r, x, d);
      assert r in roots + {c};
    }
  }

  // ---------------------------------------------------------------------------
  // Every line, without deduplication

  /** The last link of a path from `n`. */
  function EdgeAt(dag: map<Cid, seq<Cid>>, n: Cid, p: Path): Edge {
    Edge(EndOf(dag, n, if p == [] then [] else p[..|p| - 1]), EndOf(dag, n, p))
  }

  function LinesOf(dag: map<Cid, seq<Cid>>, n: Cid, ps: seq<Path>): (es: seq<Edge>)
    ensures |es| == |ps| && forall i :: 0 <= i < |ps| ==> es[i] == EdgeAt(dag, n, ps[i])
  {
    seq(|ps|, i requires 0 <= i < |ps| => EdgeAt(dag, n, ps[i]))
  }

  /** How many links may follow below a node met at depth `d`. */
  function LinksLeft(maxDepth: int, d: nat): int {
    if maxDepth < 0 then -1 else maxDepth - d
  }

  lemma EdgeBelow(dag: map<Cid, seq<Cid>>, n: Cid, k: nat, p: Path)
    requires k < |Kids(dag, n)| && p != []
    ensures EdgeAt(dag, n, [k] + p) == EdgeAt(dag, Kids(dag, n)[k], p)
  {
    var q := [k] + p;
    assert q[1..] == p && q[..|q| - 1] == [k] + p[..|p| - 1];
    assert ([k] + p[..|p| - 1])[1..] == p[..|p| - 1];
  }

  lemma EdgeHere(dag: map<Cid, seq<Cid>>, n: Cid, k: nat)
    requires k < |Kids(dag, n)|
    ensures EdgeAt(dag, n, [k]) == Edge(n, Kids(dag, n)[k])
  {
    var p: Path := [k];
    assert p[1..] == [] && p[..|p| - 1] == [];
    assert EndOf(dag, n, p) == EndOf(dag, Kids(dag, n)[k], []);
  }

  lemma LinesAppend(dag: map<Cid, seq<Cid>>, n: Cid, ps: seq<Path>, qs: seq<Path>)
    ensures LinesOf(dag, n, ps + qs) == LinesOf(dag, n, ps) + LinesOf(dag, n, qs)
  {
    hide EdgeAt;
  }

  /** The lines of one link: the link itself, then what is below it. */
  ghost function LinkLines(dag: map<Cid, seq<Cid>>, maxDepth: int, n: Cid, lc: Cid, d: nat, rank: Cid -> nat): seq<Edge>
    requires maxDepth >= 0 || Ranked(dag, rank)
  {
    if !Within(maxDepth, d) then []
    else [Edge(n, lc)] + LinesOf(dag, lc, PathsBelow(dag, LinksLeft(maxDepth, d), rank, lc))
  }

  /** The lines of the first `k` links of a node met at depth `d`. */
  ghost function FirstLines(dag: map<Cid, seq<Cid>>, maxDepth: int, n: Cid, k: nat, d: nat, rank: Cid -> nat): seq<Edge>
    requires (maxDepth >= 0 || Ranked(dag, rank)) && Within(maxDepth, d) && k <= |Kids(dag, n)|
  {
    if d == maxDepth then [] else LinesOf(dag, n, PathsVia(dag, LinksLeft(maxDepth, d), rank, n, k))
  }

  lemma NextLines(dag: map<Cid, seq<Cid>>, maxDepth: int, n: Cid, k: nat, d: nat, rank: Cid -> nat)
    requires (maxDepth >= 0 || Ranked(dag, rank)) && Within(maxDepth, d) && k < |Kids(dag, n)|
    ensures FirstLines(dag, maxDepth, n, k + 1, d, rank) ==
            FirstLines(dag, maxDepth, n, k, d, rank) + LinkLines(dag, maxDepth, n, Kids(dag, n)[k], d + 1, rank)
  {
    if d != maxDepth {
      var left, lc := LinksLeft(maxDepth, d), Kids(dag, n)[k];
      var below := PathsBelow(dag, Less(left), rank, lc);
      assert Less(left) == LinksLeft(maxDepth, d + 1);
      LinesAppend(dag, n, PathsVia(dag, left, rank, n, k), Prefixed(k, [[]] + below));
      hide PathsBelow, PathsVia;
      ViaLines(dag, n, k, left, rank, below);
    }
  }

  lemma ViaLines(dag: map<Cid, seq<Cid>>, n: Cid, k: nat, left: int, rank: Cid -> nat, below: seq<Path>)
    requires (left > 0 || (left < 0 && Ranked(dag, rank))) && k < |Kids(dag, n)|
    requires below == PathsBelow(dag, Less(left), rank, Kids(dag, n)[k])
    ensures LinesOf(dag, n, Prefixed(k, [[]] + below)) ==
            [Edge(n, Kids(dag, n)[k])] + LinesOf(dag, Kids(dag, n)[k], below)
  {
    forall i | 0 <= i < |below| ensures below[i] != [] {
      InBelow(dag, Less(left), rank, Kids(dag, n)[k], below[i]);
    }
    hide PathsBelow;
    LinesPrefixed(dag, n, k, below);
  }

  lemma LinesPrefixed(dag: map<Cid, seq<Cid>>, n: Cid, k: nat, below: seq<Path>)
    requires k < |Kids(dag, n)| && forall i :: 0 <= i < |below| ==> below[i] != []
    ensures LinesOf(dag, n, Prefixed(k, [[]] + below)) ==
            [Edge(n, Kids(dag, n)[k])] + LinesOf(dag, Kids(dag, n)[k], below)
  {
    hide EdgeAt;
    var ps := Prefixed(k, [[]] + below);
    assert ps[0] == [k] + [] == [k];
    EdgeHere(dag, n, k);
    forall i | 0 < i < |ps| ensures EdgeAt(dag, n, ps[i]) == EdgeAt(dag, Kids(dag, n)[k], below[i - 1]) {
      assert ps[i] == [k] + below[i - 1];
      EdgeBelow(dag, n, k, below[i - 1]);
    }
  }

  /** What was printed between `w` and `v`. */
  predicate Printed(w: seq<Edge>, v: seq<Edge>, es: seq<Edge>) {
    v == w + es
  }

  /** The lines printed since `w` are those of the first `k` links. */
  ghost predicate LinesSoFar(dag: map<Cid, seq<Cid>>, maxDepth: int, n: Cid, k: nat, d: nat, rank: Cid -> nat,
                             w: seq<Edge>, v: seq<Edge>)
  {
    && (maxDepth >= 0 || Ranked(dag, rank)) && Within(maxDepth, d) && k <= |Kids(dag, n)|
    && Printed(w, v, FirstLines(dag, maxDepth, n, k, d, rank))
  }

  lemma LinesStart(dag: map<Cid, seq<Cid>>, maxDepth: int, n: Cid, d: nat, rank: Cid -> nat, w: seq<Edge>)
    requires (maxDepth >= 0 || Ranked(dag, rank)) && Within(maxDepth, d)
    ensures LinesSoFar(dag, maxDepth, n, 0, d, rank, w, w)
  {
    hide FirstLines, EdgeAt;
    AllLines(dag, maxDepth, n, d, rank);
  }

  lemma LinesStep(dag: map<Cid, seq<Cid>>, maxDepth: int, n: Cid, k: nat, d: nat, rank: Cid -> nat,
                  w: seq<Edge>, v: seq<Edge>, x: seq<Edge>)
    requires (maxDepth >= 0 || Ranked(dag, rank)) && Within(maxDepth, d) && k < |Kids(dag, n)|
    requires LinesSoFar(dag, maxDepth, n, k, d, rank, w, v)
    requires Printed(v, x, LinkLines(dag, maxDepth, n, Kids(dag, n)[k], d + 1, rank))
    ensures LinesSoFar(dag, maxDepth, n, k + 1, d, rank, w, x)
  {
    hide FirstLines, LinkLines, Printed;
    NextLines(dag, maxDepth, n, k, d, rank);
    PrintedTwice(w, v, x, FirstLines(dag, maxDepth, n, k, d, rank),
                 LinkLines(dag, maxDepth, n, Kids(dag, n)[k], d + 1, rank));
  }

  lemma PrintedTwice(w: seq<Edge>, v: seq<Edge>, x: seq<Edge>, a: seq<Edge>, b: seq<Edge>)
    requires Printed(w, v, a) && Printed(v, x, b)
    ensures Printed(w, x, a + b)
  {
  }

  lemma LinesDone(dag: map<Cid, seq<Cid>>, maxDepth: int, n: Cid, d: nat, rank: Cid -> nat, w: seq<Edge>, v: seq<Edge>)
    requires (maxDepth >= 0 || Ranked(dag, rank)) && Within(maxDepth, d)
    requires LinesSoFar(dag, maxDepth, n, |Kids(dag, n)|, d, rank, w, v)
    ensures Printed(w, v, LinesOf(dag, n, PathsBelow(dag, LinksLeft(maxDepth, d), rank, n)))
  {
    hide FirstLines, EdgeAt;
    AllLines(dag, maxDepth, n, d, rank);
  }

  /** What holds after the first `k` links of a node: progress since the beginning, and
      each of these links is done and its lines are printed. */
  ghost predicate LinksDone(dag: map<Cid, seq<Cid>>, unique: bool, maxDepth: int, n: Cid, k: nat, d: nat,
                            rank: Cid -> nat, s: map<Cid, nat>, w: seq<Edge>, t: map<Cid, nat>, v: seq<Edge>,
                            count: nat)
  {
    && k <= |Kids(dag, n)| && Progress(s, w, t, v, count) && Clean(dag, unique, maxDepth, s, t, v)
    && (forall i :: 0 <= i < k ==> LinkDone(dag, unique, maxDepth, t, v, Kids(dag, n)[i], d + 1))
    && (!unique ==> LinesSoFar(dag, maxDepth, n, k, d, rank, w, v))
  }

  lemma LinksStart(dag: map<Cid, seq<Cid>>, unique: bool, maxDepth: int, n: Cid, d: nat, rank: Cid -> nat,
                   s: map<Cid, nat>, w: seq<Edge>)
    requires (unique || maxDepth >= 0 || Ranked(dag, rank)) && Within(maxDepth, d)
    ensures LinksDone(dag, unique, maxDepth, n, 0, d, rank, s, w, s, w, 0)
  {
    NoProgress(dag, unique, maxDepth, s, w);
    if !unique {
      LinesStart(dag, maxDepth, n, d, rank, w);
    }
    hide Progress, Clean, LinesSoFar;
  }

  lemma LinksStep(dag: map<Cid, seq<Cid>>, unique: bool, maxDepth: int, n: Cid, k: nat, d: nat, rank: Cid -> nat,
                  s: map<Cid, nat>, w: seq<Edge>, t: map<Cid, nat>, v: seq<Edge>, m: nat,
                  u: map<Cid, nat>, x: seq<Edge>, c: nat)
    requires LinksDone(dag, unique, maxDepth, n, k, d, rank, s, w, t, v, m) && k < |Kids(dag, n)|
    requires (unique || maxDepth >= 0 || Ranked(dag, rank)) && Within(maxDepth, d)
    requires Progress(t, v, u, x, c) && Clean(dag, unique, maxDepth, t, u, x)
    requires LinkDone(dag, unique, maxDepth, u, x, Kids(dag, n)[k], d + 1)
    requires !unique ==> Printed(v, x, LinkLines(dag, maxDepth, n, Kids(dag, n)[k], d + 1, rank))
    ensures LinksDone(dag, unique, maxDepth, n, k + 1, d, rank, s, w, u, x, m + c)
  {
    hide Progress, Clean, LinkDone, LinesSoFar, Printed, LinkLines, Ranked;
    ProgressTrans(s, w, t, v, u, x, m, c);
    CleanTrans(dag, unique, maxDepth, s, w, t, v, u, x, m, c);
    forall i | 0 <= i < k ensures LinkDone(dag, unique, maxDepth, u, x, Kids(dag, n)[i], d + 1) {
      LinkDoneMono(dag, unique, maxDepth, t, v, u, x, c, Kids(dag, n)[i], d + 1);
    }
    if !unique {
      LinesStep(dag, maxDepth, n, k, d, rank, w, v, x);
    }
  }

  lemma LinksEnd(dag: map<Cid, seq<Cid>>, unique: bool, maxDepth: int, n: Cid, k: nat, d: nat, rank: Cid -> nat,
                 s: map<Cid, nat>, w: seq<Edge>, t: map<Cid, nat>, v: seq<Edge>, m: nat)
    requires LinksDone(dag, unique, maxDepth, n, k, d, rank, s, w, t, v, m)
    requires (unique || maxDepth >= 0 || Ranked(dag, rank)) && Within(maxDepth, d)
    ensures Progress(s, w, t, v, m) && Lowered(s, t)
    ensures k == |Kids(dag, n)| ==> Clean(dag, unique, maxDepth, s, t, v)
    ensures k == |Kids(dag, n)| ==>
      forall x :: x in Kids(dag, n) ==> LinkDone(dag, unique, maxDepth, t, v, x, d + 1)
    ensures k == |Kids(dag, n)| && !unique ==>
      Printed(w, v, LinesOf(dag, n, PathsBelow(dag, LinksLeft(maxDepth, d), rank, n)))
  {
    ProgressLowers(s, w, t, v, m);
    hide Progress, Clean, LinkDone, LinesSoFar, Printed, LinesOf, Ranked, Lowered, PathsBelow;
    if k == |Kids(dag, n)| {
      if !unique {
        LinesDone(dag, maxDepth, n, d, rank, w, v);
      }
      forall x | x in Kids(dag, n) ensures LinkDone(dag, unique, maxDepth, t, v, x, d + 1) {
        var i :| 0 <= i < k && Kids(dag, n)[i] == x;
      }
    }
  }

  lemma NoLines(dag: map<Cid, seq<Cid>>, rank: Cid -> nat, n: Cid)
    ensures LinesOf(dag, n, PathsBelow(dag, 0, rank, n)) == []
  {
  }

  lemma AllLines(dag: map<Cid, seq<Cid>>, maxDepth: int, n: Cid, d: nat, rank: Cid -> nat)
    requires (maxDepth >= 0 || Ranked(dag, rank)) && Within(maxDepth, d)
    ensures FirstLines(dag, maxDepth, n, 0, d, rank) == []
    ensures FirstLines(dag, maxDepth, n, |Kids(dag, n)|, d, rank) ==
            LinesOf(dag, n, PathsBelow(dag, LinksLeft(maxDepth, d), rank, n))
  {
    hide EdgeAt;
  }

  predicate StartAt(ps: seq<Path>, n: nat) {
    forall i :: 0 <= i < |ps| ==> ps[i] != [] && ps[i][0] < n
  }

  /** The lines of paths that start at one of several objects. */
  function LinesFrom(dag: map<Cid, seq<Cid>>, objs: seq<Cid>, ps: seq<Path>): (es: seq<Edge>)
    requires StartAt(ps, |objs|)
    ensures |es| == |ps| && forall i :: 0 <= i < |ps| ==> es[i] == EdgeAt(dag, objs[ps[i][0]], ps[i][1..])
  {
    seq(|ps|, i requires 0 <= i < |ps| => EdgeAt(dag, objs[ps[i][0]], ps[i][1..]))
  }

  /** The lines of the first `k` objects. */
  ghost function ObjectLines(dag: map<Cid, seq<Cid>>, maxDepth: int, objs: seq<Cid>, k: nat, rank: Cid -> nat)
    : seq<Edge>
    requires (maxDepth >= 0 || Ranked(dag, rank)) && k <= |objs|
  {
    if k == 0 then []
    else ObjectLines(dag, maxDepth, objs, k - 1, rank) +
         LinesOf(dag, objs[k - 1], PathsBelow(dag, LinksLeft(maxDepth, 0), rank, objs[k - 1]))
  }

  lemma {:induction false} ObjectLinesExact(dag: map<Cid, seq<Cid>>, maxDepth: int, objs: seq<Cid>, k: nat,
                                            rank: Cid -> nat)
    requires (maxDepth >= 0 || Ranked(dag, rank)) && k <= |objs|
    ensures var ps := PathsFrom(dag, LinksLeft(maxDepth, 0), rank, objs, k);
            StartAt(ps, |objs|) && ObjectLines(dag, maxDepth, objs, k, rank) == LinesFrom(dag, objs, ps)
  {
    var left := LinksLeft(maxDepth, 0);
    var ps := PathsFrom(dag, left, rank, objs, k);
    forall i | 0 <= i < |ps| ensures ps[i] != [] && ps[i][0] < |objs| {
      InFrom(dag, left, rank, objs, k, ps[i]);
    }
    if k > 0 {
      ObjectLinesExact(dag, maxDepth, objs, k - 1, rank);
      var before, below := PathsFrom(dag, left, rank, objs, k - 1), PathsBelow(dag, left, rank, objs[k - 1]);
      hide PathsBelow, EdgeAt, LinesFrom, Ranked, Prefixed;
      LinesFromAppend(dag, objs, before, k - 1, below);
    }
  }

  lemma LinesFromAppend(dag: map<Cid, seq<Cid>>, objs: seq<Cid>, before: seq<Path>, k: nat, below: seq<Path>)
    requires k < |objs| && StartAt(before, |objs|)
    ensures StartAt(before + Prefixed(k, below), |objs|)
    ensures LinesFrom(dag, objs, before + Prefixed(k, below)) ==
            LinesFrom(dag, objs, before) + LinesOf(dag, objs[k], below)
  {
    hide EdgeAt;
    forall i | 0 <= i < |below| ensures Prefixed(k, below)[i][1..] == below[i] {
    }
  }

  /** Exactly the lines of the first `k` objects are printed. */
  ghost predicate ObjectsListed(dag: map<Cid, seq<Cid>>, maxDepth: int, objs: seq<Cid>, k: nat, rank: Cid -> nat,
                                w: seq<Edge>)
  {
    (maxDepth >= 0 || Ranked(dag, rank)) && k <= |objs| && w == ObjectLines(dag, maxDepth, objs, k, rank)
  }

  lemma ListObject(dag: map<Cid, seq<Cid>>, maxDepth: int, objs: seq<Cid>, k: nat, rank: Cid -> nat,
                   w: seq<Edge>, v: seq<Edge>)
    requires ObjectsListed(dag, maxDepth, objs, k, rank, w) && k < |objs|
    requires Printed(w, v, LinesOf(dag, objs[k], PathsBelow(dag, LinksLeft(maxDepth, 0), rank, objs[k])))
    ensures ObjectsListed(dag, maxDepth, objs, k + 1, rank, v)
  {
    hide Ranked, PathsBelow, LinesOf;
  }

  class RefWriter {
    const dag: map<Cid, seq<Cid>>  // the nodes that can be fetched, with their links
    const unique: bool
    const maxDepth: int
    var seen: map<Cid, nat>
    var written: seq<Edge>
    ghost var roots: set<Cid>      // roots listed so far
    ghost var clean: bool          // no listing has failed so far

    constructor (dag: map<Cid, seq<Cid>>, unique: bool, maxDepth: int)
      ensures this.dag == dag && this.unique == unique && this.maxDepth == maxDepth
      ensures Valid() && roots == {} && clean && written == []
    {
      this.dag, this.unique, this.maxDepth := dag, unique, maxDepth;
      seen, written, roots, clean := map[], [], {}, true;
    }

    ghost predicate Valid()
      reads this
    {
      && Sound(dag, unique, maxDepth, roots, seen, written)
      && (clean ==> Finished(dag, unique, maxDepth, roots, seen, written))
    }

    /** Returns whether to keep traversing below `c`, and whether to print it. */
    method Visit(c: Cid, depth: nat) returns (goDeeper: bool, shouldWrite: bool)
      modifies this`seen
      ensures !Within(maxDepth, depth) ==> !goDeeper && !shouldWrite && seen == old(seen)
      ensures Within(maxDepth, depth) && !unique ==> goDeeper == (depth != maxDepth) && shouldWrite && seen == old(seen)
      ensures Within(maxDepth, depth) && unique ==>
        if c in old(seen) && (maxDepth < 0 || old(seen)[c] <= depth)
        then !goDeeper && !shouldWrite && seen == old(seen)
        else goDeeper == (depth != maxDepth) && shouldWrite == (c !in old(seen)) && seen == old(seen)[c := depth]
    {
      var atMaxDepth := maxDepth >= 0 && depth == maxDepth;
      var overMaxDepth := maxDepth >= 0 && depth > maxDepth;
      if overMaxDepth {
        return false, false;
      }
      if !unique {
        return !atMaxDepth, true;
      }
      var ok := c in seen;
      if ok && (maxDepth < 0 || seen[c] <= depth) {
        return false, false;
      }
      seen := seen[c := depth];
      return !atMaxDepth, !ok;
    }

    /** One round of the link loop: decide, fetch, print, descend. */
    method FollowLink(n: Cid, lc: Cid, depth: nat, ghost rank: Cid -> nat) returns (count: nat, ok: bool)
      requires Sound(dag, unique, maxDepth, roots, seen, written)
      requires lc in Kids(dag, n) && At(dag, roots, n, depth) && Within(maxDepth, depth)
      requires unique || maxDepth >= 0 || Ranked(dag, rank)
      modifies this`seen, this`written
      decreases Fuel(dag, unique, maxDepth, seen, n, depth, rank), 0
      ensures Sound(dag, unique, maxDepth, roots, seen, written)
      ensures Progress(old(seen), old(written), seen, written, count)
      ensures ok ==> Clean(dag, unique, maxDepth, old(seen), seen, written)
      ensures ok ==> LinkDone(dag, unique, maxDepth, seen, written, lc, depth + 1)
      ensures ok && !unique ==> Printed(old(written), written, LinkLines(dag, maxDepth, n, lc, depth + 1, rank))
      ensures !ok ==> Missing(dag, maxDepth, roots)
    {
      hide PathsBelow, LinesOf, Ranked;
      hide Steps, At, Sound, Missing, Progress, Clean, LinkDone, Fuel;
      var goDeeper, shouldWrite := Visit(lc, depth + 1);
      ChildAt(dag, roots, n, lc, depth);
      ghost var s, w := old(seen), written;
      VisitSkip(dag, unique, maxDepth, roots, s, w, lc, depth + 1);
      if !shouldWrite && !goDeeper {
        return 0, true;
      }
      RecordSound(dag, unique, maxDepth, roots, s, w, n, lc, depth + 1);
      RecordProgress(unique, s, w, Edge(n, lc), depth + 1);
      if lc !in dag {
        AtInRange(dag, maxDepth, roots, lc, depth + 1);
        MissingOne(dag, maxDepth, roots, lc);
        return 0, false;
      }
      count, ok := 0, true;
      if shouldWrite {
        written := written + [Edge(n, lc)];
        count := count + 1;
      }
      ghost var t, v, m := seen, written, count;
      NoProgress(dag, unique, maxDepth, t, v);
      if goDeeper {
        FuelDrops(dag, unique, maxDepth, s, n, lc, depth, rank);
        var c;
        c, ok := WriteRefsRecursive(lc, depth + 1, rank);
        count := count + c;
        ProgressTrans(s, w, t, v, seen, written, m, c);
      }
      if ok {
        DescentDone(dag, unique, maxDepth, s, t, v, seen, written, count - m, lc, depth + 1);
        if !unique && !goDeeper {
          NoLines(dag, rank, lc);
        }
      }
    }

    method WriteRefsRecursive(n: Cid, depth: nat, ghost rank: Cid -> nat) returns (count: nat, ok: bool)
      requires Sound(dag, unique, maxDepth, roots, seen, written)
      requires n in dag && At(dag, roots, n, depth) && Within(maxDepth, depth)
      requires unique || maxDepth >= 0 || Ranked(dag, rank)
      modifies this`seen, this`written
      decreases Fuel(dag, unique, maxDepth, seen, n, depth, rank), 1
      ensures Sound(dag, unique, maxDepth, roots, seen, written)
      ensures Progress(old(seen), old(written), seen, written, count)
      ensures ok ==> Clean(dag, unique, maxDepth, old(seen), seen, written)
      ensures ok ==> forall k :: k in Kids(dag, n) ==> LinkDone(dag, unique, maxDepth, seen, written, k, depth + 1)
      ensures ok && !unique ==>
        Printed(old(written), written, LinesOf(dag, n, PathsBelow(dag, LinksLeft(maxDepth, depth), rank, n)))
      ensures !ok ==> Missing(dag, maxDepth, roots)
    {
      hide Steps, At, Sound, Missing, Progress, Clean, LinkDone, Fuel, LinksDone, Printed, LinkLines, Ranked;
      hide PathsBelow, LinesOf, Lowered, EdgeAt, EndOf;
      count, ok := 0, true;
      LinksStart(dag, unique, maxDepth, n, depth, rank, seen, written);
      var links := dag[n];
      var i := 0;
      while i < |links|
        invariant 0 <= i <= |links|
        invariant Sound(dag, unique, maxDepth, roots, seen, written)
        invariant LinksDone(dag, unique, maxDepth, n, i, depth, rank, old(seen), old(written), seen, written, count)
      {
        ghost var s, w, m := seen, written, count;
        LinksEnd(dag, unique, maxDepth, n, i, depth, rank, old(seen), old(written), s, w, m);
        FuelShrinks(dag, unique, maxDepth, old(seen), s, n, depth, rank);
        var c, k := FollowLink(n, links[i], depth, rank);
        count := count + c;
        ProgressTrans(old(seen), old(written), s, w, seen, written, m, c);
        if !k {
          return count, false;
        }
        LinksStep(dag, unique, maxDepth, n, i, depth, rank, old(seen), old(written), s, w, m, seen, written, c);
        i := i + 1;
      }
      LinksEnd(dag, unique, maxDepth, n, i, depth, rank, old(seen), old(written), seen, written, count);
    }

    method WriteRefs(c: Cid, ghost rank: Cid -> nat) returns (count: nat, ok: bool)
      requires Valid()
      requires unique || maxDepth >= 0 || Ranked(dag, rank)
      modifies this
      ensures Valid() && roots == old(roots) + (if c in dag then {c} else {})
      ensures clean == (old(clean) && ok) && (ok ==> c in dag)
      ensures |written| == |old(written)| + count && old(written) <= written
      ensures ok && !unique ==>
        Printed(old(written), written, LinesOf(dag, c, PathsBelow(dag, LinksLeft(maxDepth, 0), rank, c)))
      ensures !ok ==> Missing(dag, maxDepth, old(roots) + {c})
    {
      hide Missing, PathsBelow, LinesOf, Steps, Sound, Clean, LinkDone, InRange, Ranked, Finished, Lowered, Printed;
      if c !in dag {
        MissingOne(dag, maxDepth, roots + {c}, c);
        clean := false;
        return 0, false;
      }
      ghost var s, w, rs := seen, written, roots;
      roots := roots + {c};
      SoundMoreRoots(dag, unique, maxDepth, rs, c, seen, written);
      count, ok := WriteRefsRecursive(c, 0, rank);
      if clean && ok {
        FinishedExtend(dag, unique, maxDepth, rs, c, s, w, seen, written, count);
      }
      clean := clean && ok;
    }

    /** The command: list every object, go on after a failure, and report
        whether anything failed. A run is free of errors exactly when every object
        and every CID in range can be fetched, and then it prints exactly the CIDs
        in range of some object, with `unique` each of them once. Without `unique`
        there is exactly one line for every sequence of link positions of a fitting
        length from each object, in depth-first order: the last link of it. */
    method Run(objs: seq<Cid>, ghost rank: Cid -> nat) returns (ok: bool)
      requires Valid() && roots == {} && clean && written == []
      requires unique || maxDepth >= 0 || Ranked(dag, rank)
      modifies this
      ensures Valid()
      ensures ok <==> !Missing(dag, maxDepth, (set o | o in objs))
      ensures ok ==> forall c :: c in Dsts(written) <==> InRange(dag, maxDepth, (set o | o in objs), c)
      ensures ok && !unique ==>
        var ps := PathsFrom(dag, LinksLeft(maxDepth, 0), rank, objs, |objs|);
        && InOrder(ps) && (forall p :: p in ps <==> IsPathFrom(dag, LinksLeft(maxDepth, 0), objs, |objs|, p))
        && StartAt(ps, |objs|) && written == LinesFrom(dag, objs, ps)
      ensures unique ==> NoDuplicateDst(written)
      ensures forall c :: c in Dsts(written) ==> InRange(dag, maxDepth, (set o | o in objs), c)
      ensures forall e :: e in written ==> e.dst in Kids(dag, e.src)
    {
      hide PathsFrom, InOrder, LinesFrom, IsPathFrom, StartAt;
      ok := true;
      ghost var all := set o | o in objs;
      var i := 0;
      while i < |objs|
        invariant 0 <= i <= |objs|
        invariant Valid() && clean == ok
        invariant ok ==> roots == (set o | o in objs[..i])
        invariant roots <= (set o | o in objs[..i])
        invariant ok ==> forall o :: o in objs[..i] ==> o in dag
        invariant !ok ==> Missing(dag, maxDepth, all)
        invariant ok && !unique ==> ObjectsListed(dag, maxDepth, objs, i, rank, written)
      {
        hide Missing, Finished, InRange, PathsBelow, LinesOf, ObjectsListed, Printed;
        ghost var before, w := roots, written;
        var count, k := WriteRefs(objs[i], rank);
        if ok && k && !unique {
          ListObject(dag, maxDepth, objs, i, rank, w, written);
        }
        ok := ok && k;
        assert objs[..i + 1] == objs[..i] + [objs[i]];
        if !k {
          MissingMono(dag, maxDepth, before + {objs[i]}, all);
        }
        i := i + 1;
      }
      assert objs[..i] == objs;
      forall c | c in Dsts(written) ensures InRange(dag, maxDepth, all, c) {
        var e :| e in written && e.dst == c;
        InRangeMono(dag, maxDepth, roots, all, c);
      }
      if ok && !unique {
        hide ObjectLines;
        ObjectLinesExact(dag, maxDepth, objs, |objs|, rank);
        PathsFromExact(dag, LinksLeft(maxDepth, 0), rank, objs);
      }
      if ok {
        forall c ensures c in Dsts(written) <==> InRange(dag, maxDepth, all, c) {
          FinishedExact(dag, unique, maxDepth, roots, seen, written, c);
        }
      }
    }
  }
}
