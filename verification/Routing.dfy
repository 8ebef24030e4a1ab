/** Building delegated routers from a configuration: a depth-first construction
    that finds dependency loops and shares what it has built. */
module Routing {
  import opened Graph
  import opened Wrappers

  datatype Kind = Parallel | Sequential

  /** Durations are in nanoseconds; only the delay of a reference may be left out. */
  datatype ChildRef = ChildRef(name: string, timeout: int, ignoreErrors: bool, executeAfter: Option<int>)

  /** `constructible` says whether the leaf's own constructor succeeds. */
  datatype RouterCfg =
    | Http(constructible: bool)
    | Dht(constructible: bool)
    | Composite(kind: Kind, children: seq<ChildRef>)
    | UnknownType

  /** A built router refers to its parts by handle, an index into the build log. */
  datatype Part =
    | ParallelPart(router: nat, ignoreError: bool, doNotWaitForSearchValue: bool, timeout: int, executeAfter: int)
    | SequentialPart(router: nat, ignoreError: bool, timeout: int)

  datatype Router = HttpRouter | DhtRouter | Composed(kind: Kind, parts: seq<Part>)

  datatype Entry = Entry(name: string, router: Router)

  datatype ParseError =
    | DependencyLoop(name: string)
    | NotFound(name: string)
    | UnknownRouterType(name: string)
    | LeafFailed(name: string)
    | MissingMethod(name: string)
    | UnsupportedMethod(name: string)

  datatype Result<T> = Ok(value: T) | Err(error: ParseError)

  type Config = map<string, RouterCfg>

  function ChildNames(children: seq<ChildRef>): (names: seq<string>)
    ensures |names| == |children| && forall i :: 0 <= i < |children| ==> names[i] == children[i].name
  {
    seq(|children|, i requires 0 <= i < |children| => children[i].name)
  }

  /** Which router names a router's configuration refers to. */
  function Refs(cfg: Config): map<string, seq<string>> {
    map n | n in cfg :: if cfg[n].Composite? then ChildNames(cfg[n].children) else []
  }

  /** `n` on its own can be built. */
  predicate Sound(cfg: Config, n: string) {
    n in cfg && match cfg[n]
                case Http(ok) => ok
                case Dht(ok) => ok
                case Composite(_, _) => true
                case UnknownType => false
  }

  /** The reference: everything `n` refers to, directly or not, is sound and on
      no reference cycle. */
  ghost predicate Good(cfg: Config, n: string) {
    forall m :: Reach(Refs(cfg), n, m) ==> Sound(cfg, m) && !OnCycle(Refs(cfg), m)
  }

  /** What a reported error says about the configuration. */
  ghost predicate Justified(cfg: Config, n: string, e: ParseError) {
    match e
    case DependencyLoop(m) => Reach(Refs(cfg), n, m) && OnCycle(Refs(cfg), m)
    case NotFound(m) => Reach(Refs(cfg), n, m) && m !in cfg
    case UnknownRouterType(m) => Reach(Refs(cfg), n, m) && m in cfg && cfg[m].UnknownType?
    case LeafFailed(m) => Reach(Refs(cfg), n, m) && m in cfg && !cfg[m].UnknownType? && !Sound(cfg, m)
    case _ => false
  }

  lemma JustifiedNotGood(cfg: Config, n: string, e: ParseError)
    requires Justified(cfg, n, e)
    ensures !Good(cfg, n)
  {
  }

  lemma JustifiedUp(cfg: Config, n: string, c: string, e: ParseError)
    requires c in Kids(Refs(cfg), n) && Justified(cfg, c, e)
    ensures Justified(cfg, n, e)
  {
    hide OnCycle, Reach, Sound;
    match e
    case DependencyLoop(m) => ReachCons(Refs(cfg), n, c, m);
    case NotFound(m) => ReachCons(Refs(cfg), n, c, m);
    case UnknownRouterType(m) => ReachCons(Refs(cfg), n, c, m);
    case LeafFailed(m) => ReachCons(Refs(cfg), n, c, m);
  }

  lemma CycleMoves(g: map<string, seq<string>>, n: string)
    requires OnCycle(g, n)
    ensures exists c :: c in Kids(g, n) && OnCycle(g, c) && Reach(g, c, c)
  {
    var j: nat :| j > 0 && Steps(g, n, n, j);
    var c :| c in Kids(g, n) && Steps(g, c, n, j - 1);
    StepsAppend(g, c, n, c, j - 1);
    ReachSelf(g, c);
  }

  /** A sound router all of whose references are good is good: a cycle through it
      would run through one of them. */
  lemma GoodUp(cfg: Config, n: string)
    requires Sound(cfg, n) && forall c :: c in Kids(Refs(cfg), n) ==> Good(cfg, c)
    ensures Good(cfg, n)
  {
    var g := Refs(cfg);
    forall m | Reach(g, n, m) ensures Sound(cfg, m) && !OnCycle(g, m) {
      var k: nat :| Steps(g, n, m, k);
      if k > 0 {
        var c :| c in Kids(g, n) && Steps(g, c, m, k - 1);
        assert Reach(g, c, m) && Good(cfg, c);
      } else if OnCycle(g, n) {
        CycleMoves(g, n);
      }
    }
  }

  ghost predicate Chain(cfg: Config, stack: seq<string>) {
    forall i :: 0 <= i && i + 1 < |stack| ==> stack[i + 1] in Kids(Refs(cfg), stack[i])
  }

  lemma {:induction false} ChainSteps(cfg: Config, stack: seq<string>, i: nat)
    requires Chain(cfg, stack) && i < |stack|
    ensures Steps(Refs(cfg), stack[i], stack[|stack| - 1], |stack| - 1 - i)
    decreases |stack| - i
  {
    if i + 1 < |stack| {
      ChainSteps(cfg, stack, i + 1);
    }
  }

  /** Meeting a name that is still on the stack closes a reference cycle. */
  lemma StackLoop(cfg: Config, stack: seq<string>, n: string)
    requires Chain(cfg, stack + [n]) && n in stack
    ensures OnCycle(Refs(cfg), n)
  {
    var i :| 0 <= i < |stack| && stack[i] == n;
    ChainSteps(cfg, stack + [n], i);
  }

  /** A part carries over every setting of its reference; a parallel router never
      waits for a value search and starts at once unless told otherwise. */
  predicate Follows(kind: Kind, cr: ChildRef, p: Part) {
    match kind
    case Parallel =>
      && p.ParallelPart? && p.doNotWaitForSearchValue
      && p.ignoreError == cr.ignoreErrors && p.timeout == cr.timeout
      && (cr.executeAfter.None? ==> p.executeAfter == 0)
      && (cr.executeAfter.Some? ==> p.executeAfter == cr.executeAfter.value)
    case Sequential =>
      p.SequentialPart? && p.ignoreError == cr.ignoreErrors && p.timeout == cr.timeout
  }

  /** The parts of a composed router, wired to the routers built for its references. */
  predicate WiredParts(kind: Kind, children: seq<ChildRef>, parts: seq<Part>, created: map<string, nat>) {
    && |parts| == |children|
    && forall i :: 0 <= i < |parts| ==>
         && children[i].name in created
         && parts[i].router == created[children[i].name]
         && Follows(kind, children[i], parts[i])
  }

  predicate Wired(c: RouterCfg, r: Router, created: map<string, nat>) {
    match c
    case Http(_) => r == HttpRouter
    case Dht(_) => r == DhtRouter
    case Composite(kind, children) => r.Composed? && r.kind == kind && WiredParts(kind, children, r.parts, created)
    case UnknownType => false
  }

  function PartsOf(r: Router): seq<Part> {
    if r.Composed? then r.parts else []
  }

  /** The build log holds one entry for each created router and nothing else,
      wired as configured from routers built before it; what is created is good. */
  ghost predicate BuildInv(cfg: Config, created: map<string, nat>, log: seq<Entry>) {
    && (forall n :: n in created ==> created[n] < |log| && log[created[n]].name == n)
    && (forall i :: 0 <= i < |log| ==> log[i].name in created && created[log[i].name] == i)
    && (forall n :: n in created ==> n in cfg && Wired(cfg[n], log[created[n]].router, created))
    && (forall i, p :: 0 <= i < |log| && p in PartsOf(log[i].router) ==> p.router < i)
    && (forall n :: n in created ==> Good(cfg, n))
  }

  ghost predicate Grown(created: map<string, nat>, later: map<string, nat>) {
    forall n :: n in created ==> n in later && later[n] == created[n]
  }

  lemma BuildAdd(cfg: Config, created: map<string, nat>, log: seq<Entry>, n: string, r: Router)
    requires BuildInv(cfg, created, log) && n !in created && n in cfg && Good(cfg, n) && Wired(cfg[n], r, created)
    ensures BuildInv(cfg, created[n := |log|], log + [Entry(n, r)])
  {
    hide Good;
    var later := created[n := |log|];
    forall m | m in later ensures m in cfg && Wired(cfg[m], (log + [Entry(n, r)])[later[m]].router, later) {
    }
    forall p | p in PartsOf(r) ensures p.router < |log| {
      assert exists c :: c in created && created[c] == p.router;
    }
  }

  /** `visited` without `created` is exactly the stack of routers under construction. */
  ghost predicate OnStack(visited: set<string>, created: map<string, nat>, stack: seq<string>) {
    forall x :: x in visited && x !in created <==> x in stack
  }

  lemma CreatedGood(cfg: Config, created: map<string, nat>, log: seq<Entry>, n: string)
    requires BuildInv(cfg, created, log) && n in created
    ensures Good(cfg, n)
  {
  }

  lemma OwnError(cfg: Config, n: string, e: ParseError)
    requires match e
             case DependencyLoop(m) => m == n && OnCycle(Refs(cfg), n)
             case NotFound(m) => m == n && n !in cfg
             case UnknownRouterType(m) => m == n && n in cfg && cfg[n].UnknownType?
             case LeafFailed(m) => m == n && n in cfg && !cfg[n].UnknownType? && !Sound(cfg, n)
             case _ => false
    ensures Justified(cfg, n, e) && !Good(cfg, n)
  {
    ReachSelf(Refs(cfg), n);
  }

  lemma ChainPush(cfg: Config, stack: seq<string>, n: string, c: string)
    requires Chain(cfg, stack + [n]) && c in Kids(Refs(cfg), n)
    ensures Chain(cfg, stack + [n] + [c])
  {
    var s, t := stack + [n], stack + [n] + [c];
    forall i | 0 <= i && i + 1 < |t| ensures t[i + 1] in Kids(Refs(cfg), t[i]) {
      if i + 1 < |s| {
        assert s[i + 1] in Kids(Refs(cfg), s[i]);
      }
    }
  }

  lemma NoParts(kind: Kind, created: map<string, nat>)
    ensures WiredParts(kind, [], [], created)
  {
  }

  lemma AddPart(kind: Kind, children: seq<ChildRef>, i: nat, parts: seq<Part>,
                created: map<string, nat>, later: map<string, nat>, p: Part)
    requires i < |children| && WiredParts(kind, children[..i], parts, created)
    requires Grown(created, later) && children[i].name in later
    requires p.router == later[children[i].name] && Follows(kind, children[i], p)
    ensures WiredParts(kind, children[..i + 1], parts + [p], later)
  {
  }

  class Builder {
    const cfg: Config
    var created: map<string, nat>
    var visited: set<string>
    var log: seq<Entry>

    constructor (cfg: Config)
      ensures this.cfg == cfg && created == map[] && log == [] && Valid()
    {
      this.cfg, created, visited, log := cfg, map[], {}, [];
    }

    ghost predicate Valid()
      reads this
    {
      BuildInv(cfg, created, log)
    }

    /** Builds router `name` or returns the one already built. It succeeds if and
        only if the part of the configuration reachable from `name` is good. */
    method Parse(name: string, ghost stack: seq<string>) returns (res: Result<nat>)
      requires Valid() && Chain(cfg, stack + [name]) && OnStack(visited, created, stack)
      modifies this
      decreases cfg.Keys - visited, 0
      ensures Valid() && Grown(old(created), created) && old(log) <= log && old(visited) <= visited
      ensures res.Ok? ==> OnStack(visited, created, stack) && name in created && res.value == created[name]
      ensures res.Ok? <==> Good(cfg, name)
      ensures res.Err? ==> Justified(cfg, name, res.error)
    {
      hide Good, Justified, Chain, BuildInv, WiredParts;
      if name in created {
        CreatedGood(cfg, created, log, name);
        return Ok(created[name]);
      }
      if name in visited {
        StackLoop(cfg, stack, name);
        OwnError(cfg, name, DependencyLoop(name));
        return Err(DependencyLoop(name));
      }
      visited := visited + {name};
      if name !in cfg {
        OwnError(cfg, name, NotFound(name));
        return Err(NotFound(name));
      }
      var router;
      match cfg[name] {
        case Http(ok) =>
          if !ok {
            OwnError(cfg, name, LeafFailed(name));
            return Err(LeafFailed(name));
          }
          router := HttpRouter;
        case Dht(ok) =>
          if !ok {
            OwnError(cfg, name, LeafFailed(name));
            return Err(LeafFailed(name));
          }
          router := DhtRouter;
        case Composite(kind, children) =>
          var parts := ParseParts(name, kind, children, stack);
          if parts.Err? {
            return Err(parts.error);
          }
          router := Composed(kind, parts.value);
        case UnknownType =>
          OwnError(cfg, name, UnknownRouterType(name));
          return Err(UnknownRouterType(name));
      }
      GoodUp(cfg, name);
      BuildAdd(cfg, created, log, name, router);
      created := created[name := |log|];
      log := log + [Entry(name, router)];
      return Ok(created[name]);
    }

    /** Builds the parts of composite router `name`, in order. */
    method ParseParts(name: string, kind: Kind, children: seq<ChildRef>, ghost stack: seq<string>)
      returns (res: Result<seq<Part>>)
      requires name in cfg && cfg[name] == Composite(kind, children)
      requires Valid() && Chain(cfg, stack + [name]) && OnStack(visited, created, stack + [name])
      modifies this
      decreases cfg.Keys - visited, 1
      ensures Valid() && Grown(old(created), created) && old(log) <= log && old(visited) <= visited
      ensures res.Ok? ==> OnStack(visited, created, stack + [name]) && WiredParts(kind, children, res.value, created)
      ensures res.Ok? ==> forall c :: c in Kids(Refs(cfg), name) ==> Good(cfg, c)
      ensures res.Err? ==> Justified(cfg, name, res.error) && !Good(cfg, name)
    {
      hide Good, Justified, Chain, BuildInv, WiredParts, OnStack;
      var parts := [];
      NoParts(kind, created);
      var i := 0;
      while i < |children|
        invariant 0 <= i <= |children|
        invariant Valid() && Grown(old(created), created) && old(log) <= log
        invariant old(visited) <= visited && OnStack(visited, created, stack + [name])
        invariant WiredParts(kind, children[..i], parts, created)
        invariant forall k :: 0 <= k < i ==> Good(cfg, children[k].name)
      {
        var cr := children[i];
        ghost var before := created;
        assert ChildNames(children)[i] in Kids(Refs(cfg), name);
        ChainPush(cfg, stack, name, cr.name);
        var ri := Parse(cr.name, stack + [name]);
        if ri.Err? {
          JustifiedUp(cfg, name, cr.name, ri.error);
          JustifiedNotGood(cfg, name, ri.error);
          return Err(ri.error);
        }
        var part;
        match kind {
          case Parallel =>
            part := ParallelPart(ri.value, cr.ignoreErrors, true, cr.timeout,
                                 if cr.executeAfter.Some? then cr.executeAfter.value else 0);
          case Sequential =>
            part := SequentialPart(ri.value, cr.ignoreErrors, cr.timeout);
        }
        AddPart(kind, children, i, parts, before, created, part);
        parts := parts + [part];
        i := i + 1;
      }
      assert children[..i] == children;
      return Ok(parts);
    }
  }

  const METHOD_NAMES := ["provide", "find-peers", "find-providers", "get-ipns", "put-ipns"]

  function MethodSet(): set<string> {
    set i | 0 <= i < 5 :: METHOD_NAMES[i]
  }

  predicate Blamed(methods: map<string, string>, e: ParseError) {
    match e
    case MissingMethod(n) => n in MethodSet() && n !in methods
    case UnsupportedMethod(n) => n in methods && n !in MethodSet()
    case _ => false
  }

  /** Every method is configured and nothing else is. */
  method Check(methods: map<string, string>) returns (err: Result<()>)
    ensures err.Ok? <==> methods.Keys == MethodSet()
    ensures err.Err? ==> Blamed(methods, err.error)
  {
    for i := 0 to |METHOD_NAMES|
      invariant forall j :: 0 <= j < i ==> METHOD_NAMES[j] in methods
    {
      if METHOD_NAMES[i] !in methods {
        assert METHOD_NAMES[i] in MethodSet();
        return Err(MissingMethod(METHOD_NAMES[i]));
      }
    }
    var keys := methods.Keys;
    while keys != {}
      invariant keys <= methods.Keys
      invariant forall k :: k in methods && k !in keys ==> k in MethodSet()
    {
      var k :| k in keys;
      var seen := false;
      var i := 0;
      while i < |METHOD_NAMES| && !seen
        invariant 0 <= i <= |METHOD_NAMES|
        invariant seen <==> exists j :: 0 <= j < i && METHOD_NAMES[j] == k
      {
        if METHOD_NAMES[i] == k {
          seen := true;
        }
        i := i + 1;
      }
      if !seen {
        return Err(UnsupportedMethod(k));
      }
      keys := keys - {k};
    }
    return Ok(());
  }

  class Composer {
    var putValue: Option<nat>
    var getValue: Option<nat>
    var findPeers: Option<nat>
    var findProviders: Option<nat>
    var provide: Option<nat>

    constructor ()
      ensures forall mn :: Slot(mn) == None
    {
      putValue, getValue, findPeers, findProviders, provide := None, None, None, None, None;
    }

    /** The router that serves a method. */
    function Slot(mn: string): Option<nat>
      reads this
    {
      if mn == "put-ipns" then putValue
      else if mn == "get-ipns" then getValue
      else if mn == "find-peers" then findPeers
      else if mn == "find-providers" then findProviders
      else if mn == "provide" then provide
      else None
    }

    method Set(mn: string, router: nat)
      requires mn in MethodSet()
      modifies this
      ensures forall m :: Slot(m) == if m == mn then Some(router) else old(Slot(m))
    {
      match mn {
        case "put-ipns" => putValue := Some(router);
        case "get-ipns" => getValue := Some(router);
        case "find-peers" => findPeers := Some(router);
        case "find-providers" => findProviders := Some(router);
        case "provide" => provide := Some(router);
        case _ =>
      }
    }
  }

  /** Builds what the five methods need, in whatever order they are visited. It
      succeeds exactly when the methods check and every method's router is good,
      which does not depend on that order; then every name is built at most once
      (`builder.log` has one entry per created name) and each slot holds the one
      router built for the name its method gives. */
  method ParseAll(cfg: Config, methods: map<string, string>) returns (builder: Builder, res: Result<Composer>)
    ensures builder.cfg == cfg && builder.Valid()
    ensures res.Ok? <==> methods.Keys == MethodSet() && forall mn :: mn in methods ==> Good(cfg, methods[mn])
    ensures res.Ok? ==> forall mn :: mn in methods ==>
      && methods[mn] in builder.created
      && res.value.Slot(mn) == Some(builder.created[methods[mn]])
    ensures res.Err? ==>
      methods.Keys != MethodSet() || exists mn :: mn in methods && Justified(cfg, methods[mn], res.error)
  {
    hide Good, Justified, BuildInv;
    builder := new Builder(cfg);
    var checked := Check(methods);
    if checked.Err? {
      return builder, Err(checked.error);
    }
    var final := new Composer();
    var rest := methods.Keys;
    while rest != {}
      invariant rest <= methods.Keys && fresh(builder) && fresh(final)
      invariant builder.Valid() && builder.cfg == cfg
      invariant forall mn :: mn in methods && mn !in rest ==>
        && Good(cfg, methods[mn]) && methods[mn] in builder.created
        && final.Slot(mn) == Some(builder.created[methods[mn]])
    {
      var mn :| mn in rest;
      builder.visited := {};
      var router := builder.Parse(methods[mn], []);
      if router.Err? {
        return builder, Err(router.error);
      }
      final.Set(mn, router.value);
      rest := rest - {mn};
    }
    return builder, Ok(final);
  }

  /** Every composed router in the log has one part for each of its references, in
      order and with its settings, which stands for a router of the referenced name
      built before it. */
  lemma ComposedOfEarlier(cfg: Config, created: map<string, nat>, log: seq<Entry>, i: nat, j: nat)
    requires BuildInv(cfg, created, log) && i < |log| && log[i].router.Composed? && j < |log[i].router.parts|
    ensures log[i].name in cfg && cfg[log[i].name].Composite? && cfg[log[i].name].kind == log[i].router.kind
    ensures var children, p := cfg[log[i].name].children, log[i].router.parts[j];
      && |log[i].router.parts| == |children| && p.router < i && log[p.router].name == children[j].name
      && p.ignoreError == children[j].ignoreErrors && p.timeout == children[j].timeout
      && (log[i].router.kind.Parallel? ==>
            && p.ParallelPart? && p.doNotWaitForSearchValue
            && p.executeAfter == if children[j].executeAfter.Some? then children[j].executeAfter.value else 0)
      && (log[i].router.kind.Sequential? ==> p.SequentialPart?)
  {
    hide Good;
    assert log[i].router.parts[j] in PartsOf(log[i].router);
  }

  /** Two built routers of one name are the same router. */
  lemma BuiltOnce(cfg: Config, created: map<string, nat>, log: seq<Entry>, i: nat, j: nat)
    requires BuildInv(cfg, created, log) && i < |log| && j < |log| && log[i].name == log[j].name
    ensures i == j
  {
    hide Good, Wired;
    assert created[log[i].name] == i;
  }
}
