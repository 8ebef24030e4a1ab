/** Sharing one open repository per key among all who open it. */
module OnlyOneRepo {

  type Key = string

  class Ref {
    const key: Key
    var refs: int

    constructor (key: Key)
      ensures this.key == key && refs == 0
    {
      this.key, refs := key, 0;
    }
  }

  datatype Event = Opened(key: Key) | Closed(key: Key)

  /** How often the repository of a key is open after a sequence of events. */
  function Balance(log: seq<Event>, k: Key): int {
    if log == [] then 0
    else Balance(log[..|log| - 1], k) + Change(log[|log| - 1], k)
  }

  function Change(e: Event, k: Key): int {
    if e.key != k then 0 else if e.Opened? then 1 else -1
  }

  lemma BalanceAppend(log: seq<Event>, e: Event)
    ensures forall k :: Balance(log + [e], k) == Balance(log, k) + Change(e, k)
  {
    assert (log + [e])[..|log|] == log;
  }

  class OnlyOne {
    var active: map<Key, Ref>
    ghost var handles: map<Ref, nat>  // opens not yet closed, by what they returned
    ghost var log: seq<Event>         // what happened to the underlying repositories

    constructor ()
      ensures Valid() && active == map[] && handles == map[] && log == []
    {
      active, handles, log := map[], map[], [];
    }

    ghost function Outstanding(r: Ref): nat
      reads this
    {
      if r in handles then handles[r] else 0
    }

    /** A key is active exactly while somebody holds it, its count is the number of
        handles held, and its repository is open exactly then, and once. */
    ghost predicate Valid()
      reads this, active.Values
    {
      && (forall k :: k in active ==> active[k].key == k && active[k].refs == Outstanding(active[k]) > 0)
      && (forall r :: r in handles && handles[r] > 0 ==> r.key in active && active[r.key] == r)
      && (forall k :: Balance(log, k) == if k in active then 1 else 0)
    }

    /** Opens the key, calling `open` only when nobody holds it; `openOk` says
        whether that call succeeds. */
    method Open(key: Key, openOk: bool) returns (item: Ref?, ok: bool)
      requires Valid()
      modifies this, active.Values
      ensures Valid()
      ensures ok <==> key in old(active) || openOk
      ensures !ok ==> active == old(active) && handles == old(handles) && log == old(log)
      ensures ok ==> item != null && active == old(active)[key := item]
      ensures ok ==> handles == old(handles)[item := old(if item in handles then handles[item] else 0) + 1]
      ensures ok && key in old(active) ==> item == old(active)[key] && log == old(log)
      ensures ok && key !in old(active) ==> fresh(item) && log == old(log) + [Opened(key)]
    {
      hide Balance;
      if key in active {
        item := active[key];
      } else {
        if !openOk {
          return null, false;
        }
        item := new Ref(key);
        BalanceAppend(log, Opened(key));
        log := log + [Opened(key)];
        active := active[key := item];
      }
      item.refs := item.refs + 1;
      handles := handles[item := Outstanding(item) + 1];
      return item, true;
    }

    /** Gives back one handle; the last one closes the repository. */
    method Close(r: Ref)
      requires Valid() && Outstanding(r) > 0
      modifies this, r
      ensures Valid() && handles == old(handles)[r := old(handles[r]) - 1]
      ensures active == if old(Outstanding(r)) > 1 then old(active) else old(active) - {r.key}
      ensures log == if old(Outstanding(r)) > 1 then old(log) else old(log) + [Closed(r.key)]
    {
      r.refs := r.refs - 1;
      handles := handles[r := handles[r] - 1];
      if r.refs > 0 {
        return;
      }
      BalanceAppend(log, Closed(r.key));
      log := log + [Closed(r.key)];
      active := active - {r.key};
    }
  }
}
