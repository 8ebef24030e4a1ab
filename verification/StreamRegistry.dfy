/** The registry of forwarded p2p streams: it counts streams per peer and tags a
    peer for the connection manager while it has any. */
module P2pStreams {

  type Peer = string

  datatype RemoteEnd = Open | Closed | WasReset

  class Stream {
    const peer: Peer
    var id: nat
    var localClosed: bool
    var remote: RemoteEnd

    constructor (peer: Peer)
      ensures this.peer == peer && id == 0 && !localClosed && remote.Open?
    {
      this.peer, id, localClosed, remote := peer, 0, false, Open;
    }
  }

  /** The ids of the registered streams of a peer. */
  ghost function IdsOf(streams: map<nat, Stream>, p: Peer): set<nat> {
    set i | i in streams && streams[i].peer == p
  }

  /** A peer is counted exactly while it has registered streams, by their number. */
  ghost predicate Counted(streams: map<nat, Stream>, conns: map<Peer, int>) {
    forall p :: CountedPeer(streams, conns, p)
  }

  ghost predicate CountedPeer(streams: map<nat, Stream>, conns: map<Peer, int>, p: Peer) {
    if p in conns then conns[p] == |IdsOf(streams, p)| > 0 else IdsOf(streams, p) == {}
  }

  lemma CountedAdd(streams: map<nat, Stream>, conns: map<Peer, int>, id: nat, s: Stream)
    requires Counted(streams, conns) && id !in streams
    ensures Counted(streams[id := s], conns[s.peer := (if s.peer in conns then conns[s.peer] else 0) + 1])
  {
    var later, c := streams[id := s], conns[s.peer := (if s.peer in conns then conns[s.peer] else 0) + 1];
    forall p ensures CountedPeer(later, c, p) {
      assert CountedPeer(streams, conns, p);
      assert IdsOf(later, p) == IdsOf(streams, p) + (if s.peer == p then {id} else {});
      assert id !in IdsOf(streams, p);
    }
  }

  lemma CountedRemove(streams: map<nat, Stream>, conns: map<Peer, int>, id: nat)
    requires Counted(streams, conns) && id in streams
    ensures streams[id].peer in conns
    ensures var p := streams[id].peer;
            var c := conns[p := conns[p] - 1];
            Counted(streams - {id}, if c[p] < 1 then c - {p} else c)
  {
    var p, later := streams[id].peer, streams - {id};
    assert id in IdsOf(streams, p) && CountedPeer(streams, conns, p);
    var d := conns[p := conns[p] - 1];
    var c := if d[p] < 1 then d - {p} else d;
    assert CountedPeer(streams, conns, p);
    forall q ensures CountedPeer(later, c, q) {
      assert CountedPeer(streams, conns, q);
      assert IdsOf(later, q) == if q == p then IdsOf(streams, q) - {id} else IdsOf(streams, q);
    }
  }

  class StreamRegistry {
    var streams: map<nat, Stream>
    var conns: map<Peer, int>
    var nextId: nat
    var tagged: set<Peer>            // what the connection manager has tagged for us
    ghost var registered: set<Stream>  // every stream that was ever registered

    constructor ()
      ensures Valid() && streams == map[] && nextId == 0 && registered == {}
    {
      streams, conns, nextId, tagged, registered := map[], map[], 0, {}, {};
      new;
      assert forall p :: IdsOf(streams, p) == {};
    }

    /** Streams are counted and tagged per peer. Every stream keeps the id it was
        given, no two have the same, and the entry under a stream's id is that stream
        or gone for good. */
    ghost predicate Valid()
      reads this, registered
    {
      && Counted(streams, conns) && tagged == conns.Keys
      && (forall i :: i in streams ==> streams[i] in registered && streams[i].id == i)
      && (forall s :: s in registered ==> s.id < nextId && (s.id in streams ==> streams[s.id] == s))
      && (forall s, t :: s in registered && t in registered && s.id == t.id ==> s == t)
    }

    /** Counts a new stream and gives it an id that no other stream has or had. */
    method Register(s: Stream)
      requires Valid() && s !in registered
      modifies this, s`id
      ensures Valid() && s.id == old(nextId) && nextId == old(nextId) + 1
      ensures registered == old(registered) + {s}
      ensures streams == old(streams)[s.id := s] && s.id !in old(streams)
    {
      hide Counted;
      CountedAdd(streams, conns, nextId, s);
      tagged := tagged + {s.peer};
      conns := conns[s.peer := (if s.peer in conns then conns[s.peer] else 0) + 1];
      s.id := nextId;
      streams := streams[nextId := s];
      nextId := nextId + 1;
      registered := registered + {s};
    }

    /** Removes exactly the stream with that id; a second time nothing happens. */
    method Deregister(streamId: nat)
      requires Valid()
      modifies this
      ensures Valid() && nextId == old(nextId) && registered == old(registered)
      ensures streams == old(streams) - {streamId}
      ensures streamId !in old(streams) ==> conns == old(conns) && tagged == old(tagged)
    {
      hide Counted;
      if streamId !in streams {
        assert streams - {streamId} == streams;
        return;
      }
      var p := streams[streamId].peer;
      CountedRemove(streams, conns, streamId);
      conns := conns[p := conns[p] - 1];
      if conns[p] < 1 {
        conns := conns - {p};
        tagged := tagged - {p};
      }
      streams := streams - {streamId};
    }

    /** Closes both ends of a registered stream and removes it and no other. Whoever
        of the two copy goroutines comes first removes the stream; the other one
        removes nothing, because its id never names another stream. */
    method Close(s: Stream)
      requires Valid() && s in registered
      modifies this, s`localClosed, s`remote
      ensures Valid() && s.localClosed && s.remote.Closed?
      ensures streams == old(streams) - {s.id} && nextId == old(nextId) && registered == old(registered)
      ensures forall x :: x in registered && x != s && x.id in old(streams) ==> x.id in streams && streams[x.id] == x
      ensures s.id !in old(streams) ==> conns == old(conns) && tagged == old(tagged)
    {
      s.localClosed := true;
      s.remote := Closed;
      Deregister(s.id);
    }

    /** The same with a reset of the remote end. */
    method Reset(s: Stream)
      requires Valid() && s in registered
      modifies this, s`localClosed, s`remote
      ensures Valid() && s.localClosed && s.remote.WasReset?
      ensures streams == old(streams) - {s.id} && nextId == old(nextId) && registered == old(registered)
      ensures forall x :: x in registered && x != s && x.id in old(streams) ==> x.id in streams && streams[x.id] == x
      ensures s.id !in old(streams) ==> conns == old(conns) && tagged == old(tagged)
    {
      s.localClosed := true;
      s.remote := WasReset;
      Deregister(s.id);
    }
  }
}
