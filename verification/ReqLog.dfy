/** The request log of the daemon: numbered entries, compacted in place. */
module RequestLog {

  class ReqLogEntry {
    var endTime: int
    var active: bool
    var id: nat
    const command: string

    constructor (command: string, active: bool)
      ensures this.command == command && this.active == active
    {
      this.command, this.active, endTime, id := command, active, 0, 0;
    }
  }

  /** The reference: an active entry stays, and so does one whose keep time is not
      over. */
  predicate Stays(e: ReqLogEntry, keep: int, now: int)
    reads e
  {
    e.active || e.endTime + keep > now
  }

  function Retained(entries: seq<ReqLogEntry>, keep: int, now: int): (r: seq<ReqLogEntry>)
    reads entries
    ensures |r| <= |entries| && forall i :: 0 <= i < |r| ==> r[i] in entries && Stays(r[i], keep, now)
  {
    if entries == [] then []
    else
      var last := entries[|entries| - 1];
      Retained(entries[..|entries| - 1], keep, now) + (if Stays(last, keep, now) then [last] else [])
  }

  /** Nothing is lost that stays, nothing is kept that does not. */
  lemma {:induction false} RetainedExact(entries: seq<ReqLogEntry>, keep: int, now: int, e: ReqLogEntry)
    ensures e in Retained(entries, keep, now) <==> e in entries && (e.active || now < e.endTime + keep)
  {
    if entries != [] {
      RetainedExact(entries[..|entries| - 1], keep, now, e);
      assert entries == entries[..|entries| - 1] + [entries[|entries| - 1]];
    }
  }

  lemma NothingRetained(keep: int, now: int)
    ensures Retained([], keep, now) == []
  {
  }

  lemma RetainedStep(entries: seq<ReqLogEntry>, j: nat, keep: int, now: int)
    requires j < |entries|
    ensures Retained(entries[..j + 1], keep, now) ==
            Retained(entries[..j], keep, now) + (if Stays(entries[j], keep, now) then [entries[j]] else [])
  {
    assert entries[..j + 1][..j] == entries[..j];
  }

  /** A clean-up happens only when the number of entries is a multiple of ten. */
  function CleanedUp(entries: seq<ReqLogEntry>, keep: int, now: int): seq<ReqLogEntry>
    reads entries
  {
    if |entries| % 10 == 0 then Retained(entries, keep, now) else entries
  }

  ghost predicate Increasing(entries: seq<ReqLogEntry>, bound: nat)
    reads entries
  {
    && (forall i, j :: 0 <= i < j < |entries| ==> entries[i].id < entries[j].id)
    && (forall i :: 0 <= i < |entries| ==> entries[i].id < bound)
  }

  lemma {:induction false} RetainedIncreasing(entries: seq<ReqLogEntry>, keep: int, now: int, bound: nat)
    requires Increasing(entries, bound)
    ensures Increasing(Retained(entries, keep, now), bound)
  {
    if entries != [] {
      var init, last := entries[..|entries| - 1], entries[|entries| - 1];
      assert forall i :: 0 <= i < |init| ==> init[i] == entries[i];
      RetainedIncreasing(init, keep, now, bound);
      var r := Retained(init, keep, now);
      forall i | 0 <= i < |r| ensures r[i].id < last.id {
        assert r[i] in init;
      }
    }
  }

  class ReqLog {
    var requests: seq<ReqLogEntry>
    var nextId: nat
    var keep: int

    constructor (keep: int)
      ensures Valid() && requests == [] && nextId == 0 && this.keep == keep
    {
      requests, nextId, this.keep := [], 0, keep;
    }

    /** Ids are given out in order, so entries are in the order they were added. */
    ghost predicate Valid()
      reads this, requests
    {
      Increasing(requests, nextId)
    }

    /** Compacts the list in place: retained entries move to the front, in order,
        and the tail is cut off. */
    method Cleanup(now: int)
      modifies this`requests
      ensures requests == Retained(old(requests), keep, now)
      ensures old(Valid()) ==> Valid()
    {
      hide Retained, Increasing;
      ghost var entries := requests;
      NothingRetained(keep, now);
      var i := 0;
      var j := 0;
      while j < |requests|
        invariant 0 <= i <= j <= |requests| == |entries|
        invariant requests[..i] == Retained(entries[..j], keep, now)
        invariant requests[j..] == entries[j..]
      {
        var rj := requests[j];
        assert rj == entries[j];
        RetainedStep(entries, j, keep, now);
        if rj.active || requests[j].endTime + keep > now {
          requests := requests[i := requests[j]];
          i := i + 1;
        }
        j := j + 1;
      }
      requests := requests[..i];
      assert entries[..j] == entries;
      if old(Valid()) {
        RetainedIncreasing(entries, keep, now, nextId);
      }
    }

    method MaybeCleanup(now: int)
      modifies this`requests
      ensures requests == CleanedUp(old(requests), keep, now)
      ensures forall x :: x in requests ==> x in old(requests)
      ensures forall x :: x in old(requests) && (x.active || now < x.endTime + keep) ==> x in requests
      ensures old(Valid()) ==> Valid()
    {
      ghost var all := requests;
      forall x | x in all && Stays(x, keep, now) ensures x in Retained(all, keep, now) {
        RetainedExact(all, keep, now, x);
      }
      if |requests| % 10 == 0 {
        Cleanup(now);
      }
    }

    /** Adds an entry that is not in the log yet, under the next id. */
    method AddEntry(e: ReqLogEntry, now: int)
      requires Valid() && e !in requests
      modifies this`requests, this`nextId, e`id
      ensures Valid() && nextId == old(nextId) + 1 && e.id == old(nextId)
      ensures e.active ==> requests == old(requests) + [e]
      ensures !e.active ==> requests == CleanedUp(old(requests) + [e], keep, now)
      ensures forall x :: x in old(requests) + [e] && x.active ==> x in requests
      ensures forall x :: x in requests ==> x in old(requests) + [e]
    {
      e.id := nextId;
      nextId := nextId + 1;
      hide Retained;
      requests := requests + [e];
      assert Valid();
      if !e.active {
        hide Increasing, CleanedUp;
        MaybeCleanup(now);
      }
    }

    /** Marks an entry as finished; only entries that are no longer active may go. */
    method Finish(e: ReqLogEntry, now: int)
      requires Valid()
      modifies this`requests, e`active, e`endTime
      ensures Valid() && !e.active && e.endTime == now
      ensures requests == CleanedUp(old(requests), keep, now)
      ensures forall x :: x in old(requests) && x.active ==> x in requests
      ensures forall x :: x in requests ==> x in old(requests)
      ensures keep > 0 && e in old(requests) ==> e in requests
    {
      e.active := false;
      e.endTime := now;
      assert Valid();
      hide Retained, Increasing, CleanedUp;
      MaybeCleanup(now);
    }

    /** Drops what is stale at once. The keep time is the same afterwards, and when
        no end time lies in the future exactly the active entries are left. */
    method ClearInactive(now: int)
      requires Valid()
      modifies this`requests, this`keep
      ensures Valid() && keep == old(keep)
      ensures forall e :: e in requests <==> e in old(requests) && (e.active || e.endTime > now)
      ensures (forall e :: e in requests <==> e in old(requests) && e.active) <==>
              (forall e :: e in old(requests) && !e.active ==> e.endTime <= now)
    {
      hide Increasing;
      var k := keep;
      keep := 0;
      ghost var all := requests;
      Cleanup(now);
      forall e ensures e in Retained(all, 0, now) <==> e in all && Stays(e, 0, now) {
        RetainedExact(all, 0, now, e);
      }
      keep := k;
    }

    method SetKeepTime(t: int)
      requires Valid()
      modifies this`keep
      ensures Valid() && keep == t
    {
      keep := t;
    }
  }
}
