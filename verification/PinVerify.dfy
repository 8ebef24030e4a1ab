/** `ipfs pin verify`: a DAG check that remembers the status of every node it has
    seen, across all pins. */
module PinVerification {
  import opened Graph
  import opened Cids
  import opened Walks

  datatype PinStatus = PinStatus(cid: Cid, ok: bool, badNodes: seq<Cid>)

  /** The reference, without memory: list the nodes whose links cannot be read,
      once for every path that leads to them. */
  ghost function Bad(g: map<Cid, seq<Cid>>, rank: Cid -> nat, c: Cid): seq<Cid>
    requires Ranked(g, rank)
    decreases rank(c), 1, 0
  {
    if c !in g then [c] else BadAll(g, rank, c, g[c])
  }

  ghost function BadAll(g: map<Cid, seq<Cid>>, rank: Cid -> nat, c: Cid, links: seq<Cid>): seq<Cid>
    requires Ranked(g, rank) && c in g && forall l :: l in links ==> l in g[c]
    decreases rank(c), 0, |links|
  {
    if links == [] then []
    else BadAll(g, rank, c, links[..|links| - 1]) + Bad(g, rank, links[|links| - 1])
  }

  ghost function Status(g: map<Cid, seq<Cid>>, rank: Cid -> nat, c: Cid): PinStatus
    requires Ranked(g, rank)
  {
    PinStatus(c, Bad(g, rank, c) == [], Bad(g, rank, c))
  }

  /** A node is listed exactly when it can be reached and cannot be read. */
  lemma {:induction false} BadIsUnreadable(g: map<Cid, seq<Cid>>, rank: Cid -> nat, c: Cid, x: Cid)
    requires Ranked(g, rank)
    ensures x in Bad(g, rank, c) <==> Reach(g, c, x) && x !in g
    decreases rank(c), 1, 0
  {
    ReachSelf(g, c);
    if c in g {
      BadAllUnreadable(g, rank, c, g[c], x);
      if Reach(g, c, x) && x !in g {
        var n: nat :| Steps(g, c, x, n);
        var k :| k in Kids(g, c) && Steps(g, k, x, n - 1);
        assert Reach(g, k, x);
      }
      if k :| k in g[c] && Reach(g, k, x) {
        ReachCons(g, c, k, x);
      }
    } else if Reach(g, c, x) {
      ReachInClosed(g, {c}, c, x);
    }
  }

  lemma {:induction false} BadAllUnreadable(g: map<Cid, seq<Cid>>, rank: Cid -> nat, c: Cid, links: seq<Cid>, x: Cid)
    requires Ranked(g, rank) && c in g && forall l :: l in links ==> l in g[c]
    ensures x in BadAll(g, rank, c, links) <==> x !in g && exists l :: l in links && Reach(g, l, x)
    decreases rank(c), 0, |links|
  {
    if links != [] {
      var init, last := links[..|links| - 1], links[|links| - 1];
      BadAllUnreadable(g, rank, c, init, x);
      BadIsUnreadable(g, rank, last, x);
      assert links == init + [last];
    }
  }

  /** The status is ok exactly when the links of every reachable node can be read. */
  lemma OkIff(g: map<Cid, seq<Cid>>, rank: Cid -> nat, c: Cid)
    requires Ranked(g, rank)
    ensures Status(g, rank, c).ok <==> forall x :: Reach(g, c, x) ==> x in g
  {
    forall x ensures x in Bad(g, rank, c) <==> Reach(g, c, x) && x !in g {
      BadIsUnreadable(g, rank, c, x);
    }
    if Bad(g, rank, c) != [] {
      var x := Bad(g, rank, c)[0];
      assert x in Bad(g, rank, c);
    }
  }

  /** The paths to nodes that cannot be read, as a traversal meets them. */
  ghost function BadPaths(g: map<Cid, seq<Cid>>, rank: Cid -> nat, c: Cid): seq<Path>
    requires Ranked(g, rank)
    decreases rank(c), 1, 0
  {
    if c !in g then [[]] else BadPathsVia(g, rank, c, |g[c]|)
  }

  ghost function BadPathsVia(g: map<Cid, seq<Cid>>, rank: Cid -> nat, c: Cid, k: nat): seq<Path>
    requires Ranked(g, rank) && c in g && k <= |g[c]|
    decreases rank(c), 0, k
  {
    if k == 0 then [] else BadPathsVia(g, rank, c, k - 1) + Prefixed(k - 1, BadPaths(g, rank, g[c][k - 1]))
  }

  lemma {:induction false} InBadPaths(g: map<Cid, seq<Cid>>, rank: Cid -> nat, c: Cid, p: Path)
    requires Ranked(g, rank)
    ensures p in BadPaths(g, rank, c) <==> IsPath(g, c, p) && EndOf(g, c, p) !in g
    decreases rank(c), 1, 0
  {
    if c in g {
      InBadPathsVia(g, rank, c, |g[c]|, p);
    }
  }

  lemma {:induction false} InBadPathsVia(g: map<Cid, seq<Cid>>, rank: Cid -> nat, c: Cid, k: nat, p: Path)
    requires Ranked(g, rank) && c in g && k <= |g[c]|
    ensures p in BadPathsVia(g, rank, c, k) <==> p != [] && p[0] < k && IsPath(g, c, p) && EndOf(g, c, p) !in g
    decreases rank(c), 0, k
  {
    if k > 0 {
      var below := BadPaths(g, rank, g[c][k - 1]);
      InBadPathsVia(g, rank, c, k - 1, p);
      InAppend(BadPathsVia(g, rank, c, k - 1), Prefixed(k - 1, below), p);
      InPrefixed(k - 1, below, p);
      if p != [] && p[0] == k - 1 {
        InBadPaths(g, rank, g[c][k - 1], p[1..]);
      }
    }
  }

  lemma {:induction false} BadPathsOrder(g: map<Cid, seq<Cid>>, rank: Cid -> nat, c: Cid)
    requires Ranked(g, rank)
    ensures InOrder(BadPaths(g, rank, c))
    decreases rank(c), 1, 0
  {
    if c in g {
      BadPathsViaOrder(g, rank, c, |g[c]|);
    }
  }

  lemma {:induction false} BadPathsViaOrder(g: map<Cid, seq<Cid>>, rank: Cid -> nat, c: Cid, k: nat)
    requires Ranked(g, rank) && c in g && k <= |g[c]|
    ensures InOrder(BadPathsVia(g, rank, c, k))
    decreases rank(c), 0, k
  {
    if k > 0 {
      var before := BadPathsVia(g, rank, c, k - 1);
      BadPathsViaOrder(g, rank, c, k - 1);
      BadPathsOrder(g, rank, g[c][k - 1]);
      forall i | 0 <= i < |before| ensures before[i] != [] && before[i][0] < k - 1 {
        InBadPathsVia(g, rank, c, k - 1, before[i]);
      }
      hide InOrder, Prefixed;
      OrderThen(before, k - 1, BadPaths(g, rank, g[c][k - 1]));
    }
  }

  function Ends(g: map<Cid, seq<Cid>>, c: Cid, ps: seq<Path>): (cs: seq<Cid>)
    ensures |cs| == |ps| && forall i :: 0 <= i < |ps| ==> cs[i] == EndOf(g, c, ps[i])
  {
    seq(|ps|, i requires 0 <= i < |ps| => EndOf(g, c, ps[i]))
  }

  lemma {:induction false} BadIsEnds(g: map<Cid, seq<Cid>>, rank: Cid -> nat, c: Cid)
    requires Ranked(g, rank)
    ensures Bad(g, rank, c) == Ends(g, c, BadPaths(g, rank, c))
    decreases rank(c), 1, 0
  {
    if c in g {
      BadViaIsEnds(g, rank, c, |g[c]|);
      assert g[c][..|g[c]|] == g[c];
    }
  }

  lemma {:induction false} BadViaIsEnds(g: map<Cid, seq<Cid>>, rank: Cid -> nat, c: Cid, k: nat)
    requires Ranked(g, rank) && c in g && k <= |g[c]|
    ensures BadAll(g, rank, c, g[c][..k]) == Ends(g, c, BadPathsVia(g, rank, c, k))
    decreases rank(c), 0, k
  {
    if k > 0 {
      var kid := g[c][k - 1];
      assert g[c][..k][..k - 1] == g[c][..k - 1];
      BadViaIsEnds(g, rank, c, k - 1);
      BadIsEnds(g, rank, kid);
      EndsVia(g, c, k - 1, BadPathsVia(g, rank, c, k - 1), BadPaths(g, rank, kid));
    }
  }

  lemma EndsVia(g: map<Cid, seq<Cid>>, c: Cid, k: nat, before: seq<Path>, below: seq<Path>)
    requires c in g && k < |g[c]|
    ensures Ends(g, c, before + Prefixed(k, below)) == Ends(g, c, before) + Ends(g, g[c][k], below)
  {
    forall i | 0 <= i < |below| ensures EndOf(g, c, [k] + below[i]) == EndOf(g, g[c][k], below[i]) {
      assert ([k] + below[i])[1..] == below[i];
    }
    hide EndOf;
  }

  /** The bad nodes are the ends of exactly the paths that lead to a node that cannot be
      read, one for each path, in depth-first order. */
  lemma BadInOrder(g: map<Cid, seq<Cid>>, rank: Cid -> nat, c: Cid)
    requires Ranked(g, rank)
    ensures var ps := BadPaths(g, rank, c);
      && InOrder(ps) && (forall p :: p in ps <==> IsPath(g, c, p) && EndOf(g, c, p) !in g)
      && Bad(g, rank, c) == Ends(g, c, ps)
  {
    BadPathsOrder(g, rank, c);
    BadIsEnds(g, rank, c);
    forall p ensures p in BadPaths(g, rank, c) <==> IsPath(g, c, p) && EndOf(g, c, p) !in g {
      InBadPaths(g, rank, c, p);
    }
  }

  datatype Report = Verified(status: PinStatus) | PinError

  class Verifier {
    const links: map<Cid, seq<Cid>>  // what the link getter answers: raw nodes have no links and are not read
    var visited: map<Cid, PinStatus>

    constructor (links: map<Cid, seq<Cid>>)
      ensures this.links == links && visited == map[]
    {
      this.links, visited := links, map[];
    }

    ghost predicate Valid(rank: Cid -> nat)
      requires Ranked(links, rank)
      reads this
    {
      forall c :: c in visited ==> visited[c] == Status(links, rank, c)
    }

    /** The remembered and the recomputed status are the same. */
    method CheckPin(root: Cid, ghost rank: Cid -> nat) returns (status: PinStatus)
      requires Ranked(links, rank) && Valid(rank)
      modifies this`visited
      ensures Valid(rank) && root in visited && visited.Keys >= old(visited).Keys
      ensures status == Status(links, rank, root)
      decreases rank(root)
    {
      if root in visited {
        return visited[root];
      }
      if root !in links {
        status := PinStatus(root, false, [root]);
        visited := visited[root := status];
        return;
      }
      status := PinStatus(root, true, []);
      var lnks := links[root];
      for i := 0 to |lnks|
        invariant Valid(rank) && visited.Keys >= old(visited).Keys
        invariant status.badNodes == BadAll(links, rank, root, lnks[..i])
        invariant status.cid == root && (status.ok <==> status.badNodes == [])
      {
        assert lnks[..i + 1][..i] == lnks[..i];
        var res := CheckPin(lnks[i], rank);
        if !res.ok {
          status := status.(ok := false, badNodes := status.badNodes + res.badNodes);
        }
      }
      assert lnks[..|lnks|] == lnks;
      visited := visited[root := status];
    }

    /** Checks every recursive pin with one shared memory. */
    method Verify(rkeys: seq<StreamedPin>, ghost rank: Cid -> nat) returns (out: seq<Report>)
      requires Ranked(links, rank) && Valid(rank)
      modifies this`visited
      ensures |out| == |rkeys|
      ensures forall i :: 0 <= i < |out| ==>
        out[i] == (match rkeys[i] case Key(c) => Verified(Status(links, rank, c)) case StreamFailed => PinError)
      ensures forall i :: 0 <= i < |out| && rkeys[i].Key? ==>
        (out[i].status.ok <==> forall x :: Reach(links, rkeys[i].c, x) ==> x in links)
    {
      out := [];
      for i := 0 to |rkeys|
        invariant Valid(rank) && |out| == i
        invariant forall j :: 0 <= j < i ==>
          out[j] == (match rkeys[j] case Key(c) => Verified(Status(links, rank, c)) case StreamFailed => PinError)
        invariant forall j :: 0 <= j < i && rkeys[j].Key? ==>
          (out[j].status.ok <==> forall x :: Reach(links, rkeys[j].c, x) ==> x in links)
      {
        match rkeys[i] {
          case Key(c) =>
            var res := CheckPin(c, rank);
            OkIff(links, rank, c);
            out := out + [Verified(res)];
          case StreamFailed =>
            out := out + [PinError];
        }
      }
    }
  }
}
