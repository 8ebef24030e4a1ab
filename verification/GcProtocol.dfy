/** The lock protocol between writers and garbage collection, as a transition
    system. Writers that pin hold the shared pin lock; a collection and a block
    removal hold the lock exclusively. Every action is one atomic step, and all
    interleavings are allowed. Names are version 1 CIDs. */
module GcProtocol {
  import opened Graph
  import opened Cids

  /** What never changes: the links that a block's content holds, which nodes are
      directories, and the hashes that verification rejects. A raw node has no links. */
  datatype Facts = Facts(links: map<Cid, seq<Cid>>, dirs: set<Cid>, insecure: set<Multihash>)

  type World = w: Facts | WellNamed(w) witness Facts(map[], {}, {})

  predicate WellNamed(w: Facts) {
    forall c :: c in w.links ==> c.version != 0 && (c.codec == RAW ==> w.links[c] == []) && AllV1(w.links[c])
  }

  predicate AllV1(cs: seq<Cid>) {
    forall c :: c in cs ==> c.version != 0
  }

  datatype AdderPc =
    | Running                  // holds the pin lock
    | Resumed                  // has just taken the lock again, about to add one more node
    | RootPinned(root: Cid)    // has pinned what it built so far, about to give up the lock
    | Paused(root: Cid)        // has given up the lock
    | FinalPinned(root: Cid)   // has pinned the final root
    | Done(root: Cid)          // has returned without error
    | Aborted

  /** `files` are the file and link nodes added so far; `stored` are roots whose
      whole sub-DAG the adder has written or kept; `pauses` are the roots it has
      pinned for a pause. */
  datatype Adder = Adder(pc: AdderPc, files: set<Cid>, stored: set<Cid>, pauses: set<Cid>)

  /** Operations that run under the pin lock, by progress. */
  datatype Client =
    | PutLocked(c: Cid) | PutStored(c: Cid) | PutPinned(c: Cid)
    | ManyLocked(nds: seq<Cid>) | ManyPinning(nds: seq<Cid>, i: nat, visited: set<Cid>)
    | PinLocked(c: Cid, recursive: bool)
    | UnpinLocked(c: Cid, recursive: bool)
    | UpdateLocked(from: Cid, to: Cid, unpin: bool)
    | Finished

  datatype Phase = Recursive | BestEffort | Internal

  datatype Exclusive =
    | Free
    | Mark(phase: Phase, todo: set<Cid>, pending: set<Cid>, gcs: set<Cid>, best: set<Cid>, errors: bool)
    | Sweep(keep: set<Multihash>)
    | Remove(ok: set<Multihash>)

  datatype State = State(
    blocks: set<Multihash>, rec: set<Cid>, direct: set<Cid>, internal: set<Cid>,
    adders: map<nat, Adder>, clients: map<nat, Client>, gcWaiting: nat, excl: Exclusive)

  datatype Action =
    | UnlockedWrite(h: Multihash)
    | AdderStart(i: nat)
    | AdderWrite(i: nat, newFiles: set<Cid>, newDirs: set<Cid>, w: set<Multihash>)
    | AdderPinRoot(i: nat, top: Cid, w: set<Multihash>)
    | AdderUnlock(i: nat)
    | AdderRelock(i: nat)
    | AdderFinish(i: nat, root: Cid, w: set<Multihash>)
    | AdderReturn(i: nat)
    | AdderFail(i: nat)
    | ClientStart(i: nat, client: Client)
    | ClientStep(i: nat, w: set<Multihash>)
    | ClientUnlock(i: nat)
    | GcRequest
    | GcLock(best: set<Cid>)
    | MarkRoot(c: Cid)
    | MarkVisit(c: Cid)
    | MarkNext
    | SweepKey(h: Multihash, deleted: bool)
    | RmLock(ok: set<Multihash>)
    | RmBlock(h: Multihash)
    | ExclusiveUnlock

  ghost predicate Under(w: World, roots: set<Cid>, x: Cid) {
    ReachFrom(w.links, roots, x)
  }

  /** Some name of the block is pinned, directly, internally or through a recursive
      pin. */
  ghost predicate Protected(w: World, s: State, h: Multihash) {
    exists x: Cid :: x.hash == h && (Under(w, s.rec, x) || x in s.direct || x in s.internal)
  }

  predicate Holding(a: Adder) {
    a.pc.Running? || a.pc.Resumed? || a.pc.RootPinned? || a.pc.FinalPinned?
  }

  /** Somebody holds the pin lock. */
  ghost predicate SharedHeld(s: State) {
    s.clients != map[] || exists i :: i in s.adders && Holding(s.adders[i])
  }

  function Hashes(cs: set<Cid>): set<Multihash> {
    set c | c in cs :: c.hash
  }

  /** The node to pin at a pause: the root directory, or its only entry. */
  function CurRoot(w: World, top: Cid): Cid {
    if |Kids(w.links, top)| == 1 then Kids(w.links, top)[0] else top
  }

  function DirLinks(w: World): map<Cid, seq<Cid>> {
    map d | d in w.links && d in w.dirs :: w.links[d]
  }

  /** `x` is met when the tree at `root` is listed: the root, and every entry of
      every directory, but nothing below a file. */
  ghost predicate Listed(w: World, root: Cid, x: Cid) {
    Reach(DirLinks(w), root, x)
  }

  /** A tree that has grown since a pause is not part of what it was then; a node
      without links, like the empty tree, has no parts. */
  ghost predicate Grown(w: World, pauses: set<Cid>, root: Cid) {
    forall p :: p in pauses && Kids(w.links, p) != [] ==> !Reach(w.links, p, root)
  }

  ghost predicate AdderEnabled(w: World, s: State, a: Action) {
    match a
    case AdderStart(i) => i !in s.adders && s.excl.Free?
    case AdderWrite(i, newFiles, newDirs, hs) =>
      && i in s.adders && (s.adders[i].pc.Running? || s.adders[i].pc.Resumed?) && newFiles + newDirs != {}
      // every node below a new root was written now or was there before
      && (forall x :: Under(w, newFiles + newDirs, x) ==> x.hash in hs || Under(w, s.adders[i].stored, x))
    case AdderPinRoot(i, top, hs) =>
      && i in s.adders && s.adders[i].pc.Running? && s.gcWaiting > 0
      // the directory tree holds all files below its entries, and writing it out
      // stores what was not stored before
      && (forall f :: f in s.adders[i].files ==> exists k :: k in Kids(w.links, top) && Reach(w.links, k, f))
      && (forall x :: Reach(w.links, top, x) ==> x.hash in hs || Under(w, s.adders[i].stored, x))
      // the only entry of the root directory is read to take its place
      && CurRoot(w, top).hash in s.blocks + hs
    case AdderUnlock(i) => i in s.adders && s.adders[i].pc.RootPinned?
    case AdderRelock(i) => i in s.adders && s.adders[i].pc.Paused? && s.excl.Free?
    case AdderFinish(i, root, hs) =>
      && i in s.adders && s.adders[i].pc.Running?
      && (forall f :: f in s.adders[i].files ==> Reach(w.links, root, f))
      && (forall x :: Reach(w.links, root, x) ==> x.hash in hs || Under(w, s.adders[i].stored, x))
      // the tree is listed before its root is pinned, which reads, or fetches, all
      // directories and their entries
      && (forall x :: Listed(w, root, x) ==> x.hash in s.blocks + hs)
      // after every pause something more was added
      && Grown(w, s.adders[i].pauses, root)
    case AdderReturn(i) => i in s.adders && s.adders[i].pc.FinalPinned?
    case AdderFail(i) => i in s.adders && Holding(s.adders[i])
    case _ => false
  }

  function AdderNext(w: World, s: State, a: Action): State {
    match a
    case AdderStart(i) => s.(adders := s.adders[i := Adder(Running, {}, {}, {})])
    case AdderWrite(i, newFiles, newDirs, hs) =>
      if i !in s.adders then s else
      var ad := s.adders[i];
      s.(blocks := s.blocks + hs,
         adders := s.adders[i := ad.(pc := Running, files := ad.files + newFiles,
                                     stored := ad.stored + newFiles + newDirs)])
    case AdderPinRoot(i, top, hs) =>
      if i !in s.adders then s else
      var rn := CurRoot(w, top);
      s.(blocks := s.blocks + hs + {rn.hash}, rec := s.rec + {rn},
         adders := s.adders[i := s.adders[i].(pc := RootPinned(rn), stored := {rn},
                                              pauses := s.adders[i].pauses + {rn})])
    case AdderUnlock(i) =>
      if i !in s.adders || !s.adders[i].pc.RootPinned? then s else
      s.(adders := s.adders[i := s.adders[i].(pc := Paused(s.adders[i].pc.root))])
    case AdderRelock(i) =>
      if i !in s.adders then s else
      s.(adders := s.adders[i := s.adders[i].(pc := Resumed)])
    case AdderFinish(i, root, hs) =>
      if i !in s.adders then s else
      s.(blocks := s.blocks + hs + {root.hash}, rec := s.rec + {root},
         adders := s.adders[i := s.adders[i].(pc := FinalPinned(root), stored := {root})])
    case AdderReturn(i) =>
      if i !in s.adders || !s.adders[i].pc.FinalPinned? then s else
      s.(adders := s.adders[i := s.adders[i].(pc := Done(s.adders[i].pc.root))])
    case AdderFail(i) =>
      if i !in s.adders then s else
      s.(adders := s.adders[i := s.adders[i].(pc := Aborted)])
    case _ => s
  }

  ghost predicate ClientEnabled(w: World, s: State, a: Action) {
    match a
    case ClientStart(i, c) =>
      && i !in s.clients && s.excl.Free?
      && (c.PutLocked? || c.ManyLocked? || c.PinLocked? || c.UnpinLocked? || c.UpdateLocked?)
    case ClientStep(i, hs) =>
      && i in s.clients
      && (match s.clients[i]
          // pinning recursively fetches everything below the node first
          case PinLocked(c, recursive) =>
            c.hash in s.blocks + hs && (recursive ==> forall x :: Reach(w.links, c, x) ==> x.hash in s.blocks + hs)
          // an update fetches what is below the new node and not below the old one
          case UpdateLocked(from, to, _) =>
            forall x :: Reach(w.links, to, x) && !Reach(w.links, from, x) ==> x.hash in s.blocks + hs
          case PutPinned(_) => false
          case Finished => false
          case _ => true)
    case ClientUnlock(i) => i in s.clients
    case _ => false
  }

  /** One step of the operation of client `i`. */
  function ClientAdvance(s: State, i: nat, hs: set<Multihash>): State
    requires i in s.clients
  {
    match s.clients[i]
    case PutLocked(c) => s.(blocks := s.blocks + {c.hash}, clients := s.clients[i := PutStored(c)])
    case PutStored(c) => s.(rec := s.rec + {c}, clients := s.clients[i := PutPinned(c)])
    case ManyLocked(nds) =>
      s.(blocks := s.blocks + Hashes(set c | c in nds), clients := s.clients[i := ManyPinning(nds, 0, {})])
    case ManyPinning(nds, k, visited) =>
      if k < |nds| then
        s.(rec := if nds[k] in visited then s.rec else s.rec + {nds[k]},
           clients := s.clients[i := ManyPinning(nds, k + 1, visited + {nds[k]})])
      else s.(clients := s.clients[i := Finished])
    case PinLocked(c, recursive) =>
      if recursive then
        s.(blocks := s.blocks + hs, rec := s.rec + {c}, direct := s.direct - {c}, clients := s.clients[i := Finished])
      else if c in s.rec then s.(blocks := s.blocks + hs, clients := s.clients[i := Finished])
      else s.(blocks := s.blocks + hs, direct := s.direct + {c}, clients := s.clients[i := Finished])
    case UnpinLocked(c, recursive) =>
      if c in s.rec then
        s.(rec := if recursive then s.rec - {c} else s.rec, clients := s.clients[i := Finished])
      else s.(direct := s.direct - {c}, clients := s.clients[i := Finished])
    case UpdateLocked(from, to, unpin) =>
      if from !in s.rec || from == to then s.(clients := s.clients[i := Finished])
      else s.(blocks := s.blocks + hs, rec := if unpin then s.rec + {to} - {from} else s.rec + {to},
              clients := s.clients[i := Finished])
    case PutPinned(_) => s
    case Finished => s
  }

  function ClientNext(s: State, a: Action): State {
    match a
    case ClientStart(i, c) => s.(clients := s.clients[i := c])
    case ClientStep(i, hs) => if i in s.clients then ClientAdvance(s, i, hs) else s
    case ClientUnlock(i) => s.(clients := s.clients - {i})
    case _ => s
  }

  ghost predicate ExclusiveEnabled(w: World, s: State, a: Action) {
    match a
    case GcRequest => true
    case GcLock(best) => s.gcWaiting > 0 && s.excl.Free? && !SharedHeld(s)
    case MarkRoot(c) => s.excl.Mark? && s.excl.pending == {} && c in s.excl.todo
    case MarkVisit(c) => s.excl.Mark? && c in s.excl.pending
    case MarkNext => s.excl.Mark? && s.excl.pending == {} && s.excl.todo == {}
    case SweepKey(h, _) => s.excl.Sweep? && h in s.blocks
    // only blocks no name of which is pinned
    case RmLock(ok) =>
      && s.excl.Free? && !SharedHeld(s)
      && (forall h :: h in ok ==> !Protected(w, s, h))
    case RmBlock(h) => s.excl.Remove? && h in s.excl.ok
    case ExclusiveUnlock => !s.excl.Free?
    case _ => false
  }

  /** One visit of the marking walk. A rejected hash ends the phase; a raw node is
      taken as it is; an unreadable node is an error unless the walk is best-effort
      and the block is absent. */
  function Visit(w: World, s: State, c: Cid): Exclusive
    requires s.excl.Mark?
  {
    var m := s.excl;
    if c in m.gcs then m.(pending := m.pending - {c})
    else if c.hash in w.insecure then m.(gcs := m.gcs + {c}, pending := {}, todo := {}, errors := true)
    else if c.codec == RAW then m.(gcs := m.gcs + {c}, pending := m.pending - {c})
    else if c.hash in s.blocks && c in w.links then
      m.(gcs := m.gcs + {c}, pending := m.pending - {c} + (set k | k in w.links[c]))
    else
      m.(gcs := m.gcs + {c}, pending := m.pending - {c},
         errors := m.errors || !(m.phase.BestEffort? && c.hash !in s.blocks))
  }

  function NextPhase(s: State): Exclusive
    requires s.excl.Mark?
  {
    var m := s.excl;
    match m.phase
    case Recursive => m.(phase := BestEffort, todo := m.best)
    case BestEffort => m.(phase := Internal, todo := s.internal, gcs := m.gcs + s.direct)
    case Internal => if m.errors then Free else Sweep(Hashes(m.gcs))
  }

  function ExclusiveNext(w: World, s: State, a: Action): State {
    match a
    case GcRequest => s.(gcWaiting := s.gcWaiting + 1)
    case GcLock(best) =>
      if s.gcWaiting == 0 then s else
      s.(gcWaiting := s.gcWaiting - 1, excl := Mark(Recursive, s.rec, {}, {}, best, false))
    case MarkRoot(c) =>
      if !s.excl.Mark? then s else s.(excl := s.excl.(todo := s.excl.todo - {c}, pending := {c}))
    case MarkVisit(c) => if !s.excl.Mark? then s else s.(excl := Visit(w, s, c))
    case MarkNext => if !s.excl.Mark? then s else s.(excl := NextPhase(s))
    case SweepKey(h, deleted) =>
      if s.excl.Sweep? && h !in s.excl.keep && deleted then s.(blocks := s.blocks - {h}) else s
    case RmLock(ok) => s.(excl := Remove(ok))
    case RmBlock(h) => s.(blocks := s.blocks - {h})
    case ExclusiveUnlock => s.(excl := Free)
    case _ => s
  }

  ghost predicate Step(w: World, s: State, a: Action, t: State) {
    || (a.UnlockedWrite? && t == s.(blocks := s.blocks + {a.h}))
    || (AdderEnabled(w, s, a) && t == AdderNext(w, s, a))
    || (ClientEnabled(w, s, a) && t == ClientNext(s, a))
    || (ExclusiveEnabled(w, s, a) && t == ExclusiveNext(w, s, a))
  }

  ghost predicate Init(s: State) {
    s.adders == map[] && s.clients == map[] && s.gcWaiting == 0 && s.excl == Free
  }

  // ---------------------------------------------------------------------------
  // Invariants

  /** Exclusive and shared holders exclude each other. */
  ghost predicate LockInv(s: State) {
    !s.excl.Free? ==> !SharedHeld(s)
  }

  ghost predicate ClientOk(blocks: set<Multihash>, c: Client) {
    match c
    case PutStored(x) => x.hash in blocks
    case PutPinned(x) => x.hash in blocks
    case ManyPinning(nds, i, visited) =>
      i <= |nds| && (forall x :: x in nds ==> x.hash in blocks) && visited == (set x | x in nds[..i])
    case _ => true
  }

  /** What a client has stored under the lock is still there. */
  ghost predicate ClientInv(s: State) {
    forall i :: i in s.clients ==> ClientOk(s.blocks, s.clients[i])
  }

  /** An error-free mark misses no protected block: while it walks recursive pins,
      every child of a coloured node is coloured or waiting; afterwards all of them
      are coloured, then the direct pins and the roots of internal ones; and the
      sweep keeps every protected hash. */
  ghost predicate MarkInv(w: World, s: State) {
    match s.excl
    case Mark(phase, todo, pending, gcs, _, errors) =>
      errors || (
        if phase.Recursive? then
          (forall r :: r in s.rec ==> r in gcs || r in pending || r in todo) &&
          (forall v, k :: v in gcs && k in Kids(w.links, v) ==> k in gcs || k in pending)
        else
          (forall x :: Under(w, s.rec, x) ==> x in gcs) &&
          (phase.Internal? ==> s.direct <= gcs && s.internal <= gcs + pending + todo))
    case Sweep(keep) => forall h :: Protected(w, s, h) ==> h in keep
    case Remove(ok) => forall h :: h in ok ==> !Protected(w, s, h)
    case Free => true
  }

  ghost predicate Inv(w: World, s: State) {
    LockInv(s) && ClientInv(s) && MarkInv(w, s)
  }

  /** `c` is the root that an adder has pinned and still relies on. */
  predicate WaitingRoot(a: Adder, c: Cid) {
    (a.pc.RootPinned? || a.pc.Paused? || a.pc.FinalPinned?) && a.pc.root == c
  }

  /** What an adder's own steps make true of it: its files lie below what it has
      stored, and a root it waits on stands for all of that. */
  ghost predicate AdderShape(w: World, a: Adder) {
    && (Holding(a) || a.pc.Paused? ==> forall f :: f in a.files ==> Under(w, a.stored, f))
    && (a.pc.RootPinned? || a.pc.Paused? || a.pc.FinalPinned? ==> a.stored == {a.pc.root})
    && (a.pc.RootPinned? || a.pc.Paused? ==> a.pc.root in a.pauses)
    && (a.pc.Done? ==> forall f :: f in a.files ==> Under(w, {a.pc.root}, f))
  }

  /** An adder that is still at work has everything it builds on. */
  ghost predicate AdderStored(w: World, blocks: set<Multihash>, a: Adder) {
    Holding(a) || a.pc.Paused? ==> forall x :: Under(w, a.stored, x) ==> x.hash in blocks
  }

  /** Adder `i` has given up the lock, somebody holds it exclusively, and some block
      the adder builds on is not protected. */
  ghost predicate Exposed(w: World, s: State, i: nat) {
    && !s.excl.Free? && i in s.adders && s.adders[i].pc.Paused?
    && exists x :: Under(w, s.adders[i].stored, x) && !Protected(w, s, x.hash)
  }
}
