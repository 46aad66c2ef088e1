/** Polite pacing: request starts to one host are at least an interval apart. */
module Pacing {

  datatype Request = Request(host: string, interval: nat, now: nat)

  /** The start slot of a request given the per-host table of next free slots. */
  function Slot(free: map<string, nat>, r: Request): nat {
    if r.interval > 0 && r.host in free && free[r.host] > r.now then free[r.host] else r.now
  }

  function Booked(free: map<string, nat>, r: Request): map<string, nat> {
    if r.interval == 0 then free else free[r.host := Slot(free, r) + r.interval]
  }

  class Pacer {
    /** Next free start slot, per host. */
    var nextFree: map<string, nat>

    constructor ()
      ensures nextFree == map[]
    {
      nextFree := map[];
    }

    /** Reserve the next start slot; returns how long the worker sleeps first. */
    method Reserve(host: string, interval: nat, now: nat) returns (delay: nat)
      modifies this
      ensures now + delay == Slot(old(nextFree), Request(host, interval, now))
      ensures nextFree == Booked(old(nextFree), Request(host, interval, now))
    {
      if interval == 0 {
        return 0;
      }
      var entry := if host in nextFree then nextFree[host] else now;
      var slot := if entry > now then entry else now;
      nextFree := nextFree[host := slot + interval];
      delay := slot - now;
    }
  }

  function Slots(free: map<string, nat>, rs: seq<Request>): (r: seq<nat>)
    ensures |r| == |rs|
    decreases |rs|
  {
    if rs == [] then [] else [Slot(free, rs[0])] + Slots(Booked(free, rs[0]), rs[1..])
  }

  /** The table after a sequence of reservations. */
  function BookedAll(free: map<string, nat>, rs: seq<Request>): map<string, nat>
    decreases |rs|
  {
    if rs == [] then free else BookedAll(Booked(free, rs[0]), rs[1..])
  }

  /** One more reservation gets its slot from the table the earlier ones left. */
  lemma {:induction false} SlotsNext(free: map<string, nat>, rs: seq<Request>, r: Request)
    ensures Slots(free, rs + [r]) == Slots(free, rs) + [Slot(BookedAll(free, rs), r)]
    ensures BookedAll(free, rs + [r]) == Booked(BookedAll(free, rs), r)
    decreases |rs|
  {
    hide Slot, Booked;
    if rs == [] {
      assert (rs + [r])[1..] == [];
    } else {
      assert (rs + [r])[1..] == rs[1..] + [r];
      SlotsNext(Booked(free, rs[0]), rs[1..], r);
    }
  }

  lemma {:induction false} LaterSlots(free: map<string, nat>, rs: seq<Request>, j: nat)
    requires j < |rs|
    ensures Slots(free, rs)[j] >= rs[j].now
    ensures rs[j].interval > 0 && rs[j].host in free ==> Slots(free, rs)[j] >= free[rs[j].host]
    decreases |rs|
  {
    if j > 0 {
      LaterSlots(Booked(free, rs[0]), rs[1..], j - 1);
    }
  }

  /** In any sequence of reservations, whatever the clock readings, a start follows every
      earlier start to the same host by at least that start's interval. */
  lemma {:induction false} StartsAreSpaced(free: map<string, nat>, rs: seq<Request>, i: nat, j: nat)
    requires i < j < |rs| && rs[i].host == rs[j].host && rs[i].interval > 0 && rs[j].interval > 0
    ensures Slots(free, rs)[j] >= Slots(free, rs)[i] + rs[i].interval
    decreases |rs|
  {
    if i == 0 {
      LaterSlots(Booked(free, rs[0]), rs[1..], j - 1);
    } else {
      StartsAreSpaced(Booked(free, rs[0]), rs[1..], i - 1, j - 1);
    }
  }

  /** A host never waits for another host: with no earlier request to it, it starts at once. */
  lemma {:induction false} HostsAreIndependent(free: map<string, nat>, rs: seq<Request>, j: nat)
    requires j < |rs| && rs[j].host !in free
    requires forall i :: 0 <= i < j ==> rs[i].host != rs[j].host
    ensures Slots(free, rs)[j] == rs[j].now
    decreases |rs|
  {
    if j > 0 {
      HostsAreIndependent(Booked(free, rs[0]), rs[1..], j - 1);
    }
  }
}
