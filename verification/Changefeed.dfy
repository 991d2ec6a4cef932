/**
 The changefeed hub: the object with its lists, and every interleaving of subscribers,
 unsubscribers, pollers and publishers, where a publisher takes the lock once and calls
 the callbacks it copied after letting go of it.
 */
module Changefeed {
  import opened Text
  import opened Wal

  datatype Op = Insert | Update

  datatype Event = Event(lsn: nat, table: string, op: Op, payload: Bytes)

  function OpName(op: Op): string {
    if op.Insert? then "insert" else "update"
  }

  /** `event_to_json`. */
  function EventToJson(e: Event): string {
    "{\"lsn\":" + Decimal(e.lsn) + ",\"table\":\"" + e.table + "\",\"op\":\"" + OpName(e.op) +
    "\",\"payload_bytes\":" + Decimal(|e.payload|) + "}"
  }

  /** `callback` stands for the function value that was registered. */
  datatype Subscription = Subscription(id: nat, table: string, callback: nat)

  predicate Hears(s: Subscription, table: string) {
    s.table == table || s.table == "*"
  }

  /** The subscriptions that hear of a table, in subscription order. */
  function Matching(subs: seq<Subscription>, table: string): seq<Subscription> {
    if subs == [] then []
    else
      var n := |subs| - 1;
      var r := Matching(subs[..n], table);
      if Hears(subs[n], table) then r + [subs[n]] else r
  }

  function Without(subs: seq<Subscription>, id: nat): seq<Subscription> {
    if subs == [] then []
    else
      var n := |subs| - 1;
      var r := Without(subs[..n], id);
      if subs[n].id == id then r else r + [subs[n]]
  }

  function Ids(subs: seq<Subscription>): (r: seq<nat>)
    ensures |r| == |subs| && forall i :: 0 <= i < |subs| ==> r[i] == subs[i].id
  {
    seq(|subs|, i requires 0 <= i < |subs| => subs[i].id)
  }

  function WithoutClients(clients: seq<int>, gone: set<int>): seq<int> {
    if clients == [] then []
    else
      var n := |clients| - 1;
      var r := WithoutClients(clients[..n], gone);
      if clients[n] in gone then r else r + [clients[n]]
  }

  // ---------------------------------------------------------------- the object

  /** One call of a registered callback. */
  datatype Called = Called(callback: nat, event: Event)

  function Calls(subs: seq<Subscription>, event: Event): (r: seq<Called>)
    ensures |r| == |subs| && forall i :: 0 <= i < |subs| ==> r[i] == Called(subs[i].callback, event)
  {
    seq(|subs|, i requires 0 <= i < |subs| => Called(subs[i].callback, event))
  }

  class Hub {
    var subscriptions: seq<Subscription>
    var nextId: nat
    var pollQueue: seq<string>
    var unixClients: seq<int>
    /** The callback calls made so far. */
    var calls: seq<Called>

    constructor ()
      ensures subscriptions == [] && nextId == 1 && pollQueue == [] && unixClients == [] && calls == []
    {
      subscriptions, nextId, pollQueue, unixClients, calls := [], 1, [], [], [];
    }

    method Subscribe(table: string, callback: nat) returns (id: nat)
      modifies this`subscriptions, this`nextId
      ensures id == old(nextId) && nextId == id + 1
      ensures subscriptions == old(subscriptions) + [Subscription(id, table, callback)]
    {
      id := nextId;
      nextId := nextId + 1;
      subscriptions := subscriptions + [Subscription(id, table, callback)];
    }

    /** `remove_if` and `erase`. */
    method Unsubscribe(id: nat)
      modifies this`subscriptions
      ensures subscriptions == Without(old(subscriptions), id)
    {
      var subs := subscriptions;
      var kept: seq<Subscription> := [];
      for i := 0 to |subs|
        invariant kept == Without(subs[..i], id)
      {
        assert subs[..i + 1][..i] == subs[..i];
        if subs[i].id != id {
          kept := kept + [subs[i]];
        }
      }
      assert subs[..|subs|] == subs;
      subscriptions := kept;
    }

    method PollJsonLine() returns (line: Option<string>)
      modifies this`pollQueue
      ensures old(pollQueue) == [] ==> line == None && pollQueue == []
      ensures old(pollQueue) != [] ==> line.Some? && [line.value] + pollQueue == old(pollQueue)
    {
      if pollQueue == [] {
        return None;
      }
      line := Some(pollQueue[0]);
      pollQueue := pollQueue[1..];
    }

    method AttachUnixClient(fd: int) returns (ok: bool)
      modifies this`unixClients
      ensures ok == (fd >= 0)
      ensures unixClients == if ok then old(unixClients) + [fd] else old(unixClients)
    {
      if fd < 0 {
        return false;
      }
      unixClients := unixClients + [fd];
      ok := true;
    }

    method DetachUnixClient(fd: int)
      modifies this`unixClients
      ensures unixClients == WithoutClients(old(unixClients), {fd})
    {
      Remove({fd});
    }

    method Remove(gone: set<int>)
      modifies this`unixClients
      ensures unixClients == WithoutClients(old(unixClients), gone)
    {
      var clients := unixClients;
      var kept := [];
      for i := 0 to |clients|
        invariant kept == WithoutClients(clients[..i], gone)
      {
        assert clients[..i + 1][..i] == clients[..i];
        if clients[i] !in gone {
          kept := kept + [clients[i]];
        }
      }
      assert clients[..|clients|] == clients;
      unixClients := kept;
    }

    /** The list maintenance of `fanout_json`; `accepted` holds the clients whose write was complete. */
    method FanoutJson(accepted: set<int>)
      modifies this`unixClients
      ensures unixClients == WithoutClients(old(unixClients), set fd | fd in old(unixClients) && fd !in accepted)
      ensures forall fd :: fd in unixClients <==> fd in old(unixClients) && fd in accepted
    {
      var clients := unixClients;
      var dead := {};
      for i := 0 to |clients|
        invariant dead == set fd | fd in clients[..i] && fd !in accepted
      {
        assert clients[..i + 1] == clients[..i] + [clients[i]];
        if clients[i] !in accepted {
          dead := dead + {clients[i]};
        }
      }
      assert clients[..|clients|] == clients;
      WithoutClientsKeeps(clients, dead);
      if dead != {} {
        Remove(dead);
      }
    }

    /** The locked phase of `publish`: copy the callbacks, print the line, queue it. */
    method PublishLocked(event: Event) returns (callbacks: seq<Subscription>, line: string)
      modifies this`pollQueue
      ensures callbacks == Matching(subscriptions, event.table)
      ensures line == EventToJson(event) && pollQueue == old(pollQueue) + [line]
    {
      callbacks := [];
      for i := 0 to |subscriptions|
        invariant callbacks == Matching(subscriptions[..i], event.table)
      {
        assert subscriptions[..i + 1][..i] == subscriptions[..i];
        if subscriptions[i].table == event.table || subscriptions[i].table == "*" {
          callbacks := callbacks + [subscriptions[i]];
        }
      }
      assert subscriptions[..|subscriptions|] == subscriptions;
      line := EventToJson(event);
      pollQueue := pollQueue + [line];
    }

    /** `publish` when nothing else runs: each matching subscription's callback is called once, in order. */
    method Publish(event: Event)
      modifies this`pollQueue, this`calls
      ensures pollQueue == old(pollQueue) + [EventToJson(event)]
      ensures calls == old(calls) + Calls(Matching(subscriptions, event.table), event)
    {
      var callbacks, line := PublishLocked(event);
      for i := 0 to |callbacks|
        invariant pollQueue == old(pollQueue) + [line]
        invariant calls == old(calls) + Calls(callbacks, event)[..i]
      {
        calls := calls + [Called(callbacks[i].callback, event)];
      }
    }

    /** `on_wal_append`. */
    method OnWalAppend(lsn: nat, op: Op, table: string, payload: Bytes)
      modifies this`pollQueue, this`calls
      ensures var e := Event(lsn, table, op, payload);
              pollQueue == old(pollQueue) + [EventToJson(e)] &&
              calls == old(calls) + Calls(Matching(subscriptions, table), e)
    {
      Publish(Event(lsn, table, op, payload));
    }
  }

  lemma {:induction false} WithoutClientsKeeps(clients: seq<int>, gone: set<int>)
    ensures forall fd :: fd in WithoutClients(clients, gone) <==> fd in clients && fd !in gone
    ensures gone == {} ==> WithoutClients(clients, gone) == clients
  {
    if clients != [] {
      var n := |clients| - 1;
      WithoutClientsKeeps(clients[..n], gone);
      assert clients == clients[..n] + [clients[n]];
    }
  }

  lemma {:induction false} MatchingIsSubset(subs: seq<Subscription>, table: string)
    ensures forall s :: s in Matching(subs, table) <==> s in subs && Hears(s, table)
  {
    if subs != [] {
      var n := |subs| - 1;
      MatchingIsSubset(subs[..n], table);
      assert subs == subs[..n] + [subs[n]];
    }
  }

  // ---------------------------------------------------------------- interleavings

  /** A publisher that has let go of the lock: its event and the callbacks it has still to call. */
  datatype Flight = Flight(event: Event, left: seq<nat>)

  datatype Delivery = Delivery(flight: nat, id: nat)

  /** The hub, the publishers under way and what was observed so far. */
  datatype World = World(subs: seq<Subscription>, nextId: nat, queue: seq<string>, flights: seq<Flight>,
                         polled: seq<string>, delivered: seq<Delivery>)

  datatype Step =
    | Subscribe(table: string, callback: nat)
    | Unsubscribe(id: nat)
    | Lock(event: Event)
    | Call(flight: nat)
    | Poll

  /** One atomic step; a step that cannot be taken changes nothing. */
  function Apply(w: World, step: Step): World {
    match step
    case Subscribe(table, callback) => w.(subs := w.subs + [Subscription(w.nextId, table, callback)], nextId := w.nextId + 1)
    case Unsubscribe(id) => w.(subs := Without(w.subs, id))
    case Lock(event) => w.(queue := w.queue + [EventToJson(event)],
                           flights := w.flights + [Flight(event, Ids(Matching(w.subs, event.table)))])
    case Call(f) =>
      if f < |w.flights| && w.flights[f].left != [] then
        w.(flights := w.flights[f := Flight(w.flights[f].event, w.flights[f].left[1..])],
           delivered := w.delivered + [Delivery(f, w.flights[f].left[0])])
      else w
    case Poll => if w.queue == [] then w else w.(queue := w.queue[1..], polled := w.polled + [w.queue[0]])
  }

  const START := World([], 1, [], [], [], [])

  function Run(steps: seq<Step>): World {
    if steps == [] then START else Apply(Run(steps[..|steps| - 1]), steps[|steps| - 1])
  }

  /** The events of the locked steps, in the order the lock was taken. */
  function Locked(steps: seq<Step>): seq<Event> {
    if steps == [] then []
    else
      var n := |steps| - 1;
      var r := Locked(steps[..n]);
      if steps[n].Lock? then r + [steps[n].event] else r
  }

  function JsonLines(es: seq<Event>): (r: seq<string>)
    ensures |r| == |es| && forall i :: 0 <= i < |es| ==> r[i] == EventToJson(es[i])
  {
    seq(|es|, i requires 0 <= i < |es| => EventToJson(es[i]))
  }

  /** The ids that a flight's event was delivered to, in order. */
  function DeliveredTo(ds: seq<Delivery>, flight: nat): seq<nat> {
    if ds == [] then []
    else
      var n := |ds| - 1;
      var r := DeliveredTo(ds[..n], flight);
      if ds[n].flight == flight then r + [ds[n].id] else r
  }

  lemma RunStep(steps: seq<Step>, step: Step)
    ensures Run(steps + [step]) == Apply(Run(steps), step)
  {
    assert (steps + [step])[..|steps|] == steps;
  }

  /** Nothing is lost, doubled or reordered between the publishers and the pollers. */
  lemma {:induction false} PolledThenQueuedIsLocked(steps: seq<Step>)
    ensures Run(steps).polled + Run(steps).queue == JsonLines(Locked(steps))
  {
    hide EventToJson;
    if steps != [] {
      var n := |steps| - 1;
      PolledThenQueuedIsLocked(steps[..n]);
      var w, step := Run(steps[..n]), steps[n];
      if step.Lock? {
        Assoc3(w.polled, w.queue, [EventToJson(step.event)]);
        assert JsonLines(Locked(steps)) == JsonLines(Locked(steps[..n])) + [EventToJson(step.event)];
      } else if step.Poll? && w.queue != [] {
        Assoc3(w.polled, [w.queue[0]], w.queue[1..]);
        assert [w.queue[0]] + w.queue[1..] == w.queue;
      }
    }
  }

  predicate DeliveriesAreFlights(w: World) {
    forall d :: d in w.delivered ==> d.flight < |w.flights|
  }

  lemma {:induction false} DeliveriesBelongToFlights(steps: seq<Step>)
    ensures DeliveriesAreFlights(Run(steps))
  {
    hide EventToJson;
    if steps != [] {
      DeliveriesBelongToFlights(steps[..|steps| - 1]);
    }
  }

  lemma {:induction false} NothingDeliveredYet(ds: seq<Delivery>, flight: nat)
    requires forall d :: d in ds ==> d.flight < flight
    ensures DeliveredTo(ds, flight) == []
  {
    if ds != [] {
      NothingDeliveredYet(ds[..|ds| - 1], flight);
    }
  }

  /**
   In every interleaving, what an event was delivered to and what its publisher has
   still to call make up exactly the subscriptions that matched when the lock was held,
   each once and in subscription order.
   */
  lemma {:induction false} DeliveredOnceToEachMatch(before: seq<Step>, event: Event, after: seq<Step>)
    ensures
      var w, f := Run(before + [Lock(event)] + after), |Run(before).flights|;
      && f < |w.flights| && w.flights[f].event == event
      && DeliveredTo(w.delivered, f) + w.flights[f].left == Ids(Matching(Run(before).subs, event.table))
    decreases |after|
  {
    hide EventToJson, Matching, Run, Locked, Without, Apply, DeliveredTo;
    var f := |Run(before).flights|;
    if after == [] {
      assert before + [Lock(event)] + [] == before + [Lock(event)];
      RunStep(before, Lock(event));
      DeliveriesBelongToFlights(before);
      NothingDeliveredYet(Run(before).delivered, f);
      LockStarts(Run(before), event);
    } else {
      var n := |after| - 1;
      var steps := before + [Lock(event)] + after[..n];
      DeliveredOnceToEachMatch(before, event, after[..n]);
      assert before + [Lock(event)] + after == steps + [after[n]];
      RunStep(steps, after[n]);
      StepKeepsFlight(Run(steps), after[n], f);
    }
  }

  lemma LockStarts(w: World, event: Event)
    requires DeliveredTo(w.delivered, |w.flights|) == []
    ensures
      var v, f := Apply(w, Lock(event)), |w.flights|;
      && f < |v.flights| && v.flights[f].event == event
      && DeliveredTo(v.delivered, f) + v.flights[f].left == Ids(Matching(w.subs, event.table))
  {
    hide EventToJson, Matching, DeliveredTo;
    var ids := Ids(Matching(w.subs, event.table));
    assert [] + ids == ids;
  }

  /** A step moves at most one id of a flight from those to call to those called. */
  lemma StepKeepsFlight(w: World, step: Step, f: nat)
    requires f < |w.flights|
    ensures
      var v := Apply(w, step);
      && f < |v.flights| && v.flights[f].event == w.flights[f].event
      && DeliveredTo(v.delivered, f) + v.flights[f].left == DeliveredTo(w.delivered, f) + w.flights[f].left
  {
    hide EventToJson, Matching, Without, Hears;
    if step.Call? && step.flight < |w.flights| && w.flights[step.flight].left != [] {
      var g := step.flight;
      var left := w.flights[g].left;
      assert (w.delivered + [Delivery(g, left[0])])[..|w.delivered|] == w.delivered;
      if g == f {
        Assoc3(DeliveredTo(w.delivered, f), [left[0]], left[1..]);
        assert [left[0]] + left[1..] == left;
      }
    }
  }

  /** Once a publisher has finished, its event reached exactly the matching subscriptions. */
  lemma FinishedMeansAllHeard(before: seq<Step>, event: Event, after: seq<Step>)
    ensures
      var w, f := Run(before + [Lock(event)] + after), |Run(before).flights|;
      f < |w.flights| && (w.flights[f].left == [] <==>
                          DeliveredTo(w.delivered, f) == Ids(Matching(Run(before).subs, event.table)))
  {
    DeliveredOnceToEachMatch(before, event, after);
    var w, f := Run(before + [Lock(event)] + after), |Run(before).flights|;
    var ids := Ids(Matching(Run(before).subs, event.table));
    assert |DeliveredTo(w.delivered, f)| + |w.flights[f].left| == |ids|;
    if w.flights[f].left == [] {
      assert DeliveredTo(w.delivered, f) + [] == DeliveredTo(w.delivered, f);
    }
  }

  // ---------------------------------------------------------------- subscription ids

  function Subscribes(steps: seq<Step>): nat {
    if steps == [] then 0
    else Subscribes(steps[..|steps| - 1]) + if steps[|steps| - 1].Subscribe? then 1 else 0
  }

  /** Ids between 1 and `bound`, ascending. */
  predicate Ascending(subs: seq<Subscription>, bound: nat) {
    && (forall i :: 0 <= i < |subs| ==> 1 <= subs[i].id < bound)
    && (forall i, j :: 0 <= i < j < |subs| ==> subs[i].id < subs[j].id)
  }

  lemma {:induction false} WithoutKeepsOrder(subs: seq<Subscription>, id: nat, bound: nat)
    requires Ascending(subs, bound)
    ensures Ascending(Without(subs, id), bound)
    decreases |subs|
  {
    if subs != [] {
      var n := |subs| - 1;
      WithoutKeepsOrder(subs[..n], id, subs[n].id);
      var r := Without(subs[..n], id);
      assert Ascending(r, bound) && Ascending(r + [subs[n]], bound);
    }
  }

  /** The n-th subscription ever made gets id n; live ids are distinct and in subscription order. */
  lemma {:induction false} IdsAreCountedUp(steps: seq<Step>)
    ensures Run(steps).nextId == 1 + Subscribes(steps) && Ascending(Run(steps).subs, Run(steps).nextId)
  {
    hide EventToJson, Matching, Without;
    if steps != [] {
      var n := |steps| - 1;
      IdsAreCountedUp(steps[..n]);
      if steps[n].Unsubscribe? {
        WithoutKeepsOrder(Run(steps[..n]).subs, steps[n].id, Run(steps[..n]).nextId);
      }
    }
  }

  /** No live subscription has the id, no publisher that locked since calls it, and the id is spent. */
  predicate Silenced(w: World, id: nat, since: nat) {
    && id < w.nextId
    && id !in Ids(w.subs)
    && since <= |w.flights|
    && (forall f :: since <= f < |w.flights| ==> id !in w.flights[f].left)
    && (forall d :: d in w.delivered && d.id == id ==> d.flight < since)
  }

  lemma MatchingIds(subs: seq<Subscription>, table: string, id: nat)
    requires id !in Ids(subs)
    ensures id !in Ids(Matching(subs, table))
  {
    MatchingIsSubset(subs, table);
    forall i | 0 <= i < |Matching(subs, table)|
      ensures Matching(subs, table)[i].id != id
    {
      var s := Matching(subs, table)[i];
      assert s in subs;
      var j :| 0 <= j < |subs| && subs[j] == s;
      assert Ids(subs)[j] == s.id;
    }
  }

  lemma {:induction false} WithoutIds(subs: seq<Subscription>, gone: nat)
    ensures forall x :: x in Ids(Without(subs, gone)) <==> x in Ids(subs) && x != gone
  {
    if subs != [] {
      var n := |subs| - 1;
      WithoutIds(subs[..n], gone);
      assert Ids(subs) == Ids(subs[..n]) + [subs[n].id];
      var r := Without(subs[..n], gone);
      assert Ids(r + [subs[n]]) == Ids(r) + [subs[n].id];
      assert forall x :: x in Ids(subs) <==> x in Ids(subs[..n]) || x == subs[n].id;
    }
  }

  lemma SilencedStaysSilenced(w: World, step: Step, id: nat, since: nat)
    requires Silenced(w, id, since)
    ensures Silenced(Apply(w, step), id, since)
  {
    hide EventToJson, Matching, Without;
    if step.Lock? {
      MatchingIds(w.subs, step.event.table, id);
    } else if step.Unsubscribe? {
      WithoutIds(w.subs, step.id);
    } else if step.Subscribe? {
      var more := w.subs + [Subscription(w.nextId, step.table, step.callback)];
      assert Ids(more) == Ids(w.subs) + [w.nextId];
    }
  }

  /** After `unsubscribe` returns, no event whose publisher locks later is ever delivered to the id. */
  lemma {:induction false} UnsubscribedHearsNothingNew(before: seq<Step>, id: nat, after: seq<Step>)
    requires id < Run(before).nextId
    ensures Silenced(Run(before + [Unsubscribe(id)] + after), id, |Run(before).flights|)
    decreases |after|
  {
    hide EventToJson, Matching, Without, Run;
    if after == [] {
      assert before + [Unsubscribe(id)] + [] == before + [Unsubscribe(id)];
      RunStep(before, Unsubscribe(id));
      WithoutIds(Run(before).subs, id);
      DeliveriesBelongToFlights(before);
    } else {
      var n := |after| - 1;
      var steps := before + [Unsubscribe(id)] + after[..n];
      UnsubscribedHearsNothingNew(before, id, after[..n]);
      assert before + [Unsubscribe(id)] + after == steps + [after[n]];
      RunStep(steps, after[n]);
      SilencedStaysSilenced(Run(steps), after[n], id, |Run(before).flights|);
    }
  }

  /** A publisher that locked before `unsubscribe` may still call the callback after it. */
  lemma UnsubscribeDoesNotStopFlights(event: Event)
    ensures
      var steps := [Subscribe("*", 0), Lock(event), Unsubscribe(1), Call(0)];
      Run(steps).subs == [] && Run(steps).delivered == [Delivery(0, 1)]
  {
    var sub := Subscription(1, "*", 0);
    OneSubscription(sub, event.table);
    hide *;
    FourSteps(Subscribe("*", 0), Lock(event), Unsubscribe(1), Call(0));
    FlightOutlives(event, sub);
  }

  lemma FourSteps(a: Step, b: Step, c: Step, d: Step)
    ensures Run([a, b, c, d]) == Apply(Apply(Apply(Apply(START, a), b), c), d)
  {
    hide Apply;
    assert Run([]) == START;
    RunStep([], a);
    RunStep([a], b);
    RunStep([a, b], c);
    RunStep([a, b, c], d);
    assert [] + [a] == [a] && [a] + [b] == [a, b] && [a, b] + [c] == [a, b, c] && [a, b, c] + [d] == [a, b, c, d];
  }

  lemma FlightOutlives(event: Event, sub: Subscription)
    requires sub == Subscription(1, "*", 0)
    requires Matching([sub], event.table) == [sub] && Without([sub], 1) == [] && Ids([sub]) == [1]
    ensures
      var w := Apply(Apply(Apply(Apply(START, Subscribe("*", 0)), Lock(event)), Unsubscribe(1)), Call(0));
      w.subs == [] && w.delivered == [Delivery(0, 1)]
  {
    hide EventToJson, Matching, Without, Ids;
    var w1 := Apply(START, Subscribe("*", 0));
    assert w1.subs == [sub] && w1.flights == [] && w1.delivered == [];
    var w2 := Apply(w1, Lock(event));
    assert w2.subs == [sub] && w2.flights == [Flight(event, [1])] && w2.delivered == [];
    var w3 := Apply(w2, Unsubscribe(1));
    assert w3.subs == [] && w3.flights == [Flight(event, [1])] && w3.delivered == [];
    assert [] + [Delivery(0, 1)] == [Delivery(0, 1)];
  }

  lemma OneSubscription(sub: Subscription, table: string)
    requires sub.table == "*"
    ensures Matching([sub], table) == [sub] && Without([sub], sub.id) == [] && Ids([sub]) == [sub.id]
  {
    assert [sub][..0] == [];
  }

  // ---------------------------------------------------------------- order of sequence numbers

  /** The sequence number in a line. */
  function LsnOf(line: string): Option<nat> {
    if |line| < 7 then None
    else
      var n := DigitRun(line[7..]);
      Some(ReadDecimal(line[7..][..n]))
  }

  lemma LsnOfLine(e: Event)
    ensures LsnOf(EventToJson(e)) == Some(e.lsn)
  {
    var d := Decimal(e.lsn);
    var head := "{\"lsn\":";
    var t := ",\"table\":\"" + (e.table + ("\",\"op\":\"" + (OpName(e.op) + ("\",\"payload_bytes\":" + (Decimal(|e.payload|) + "}")))));
    hide Decimal;
    var line := EventToJson(e);
    assert line == head + (d + t) by {
      hide OpName;
      var a, b, c, f := ",\"table\":\"", "\",\"op\":\"", "\",\"payload_bytes\":", "}";
      var x, y, z := e.table, OpName(e.op), Decimal(|e.payload|);
      Assoc4(head + d + a + x + b, y, c, z + f);
      LineShape(head, d, a, x, b, y, c, z, f);
    }
    assert line[7..] == d + t;
    assert t[0] == ',';
    DigitsEnd(d, t);
    assert (d + t)[..|d|] == d;
    ReadDecimalPrints(e.lsn);
  }

  lemma LineShape(a: string, b: string, c: string, d: string, e: string, f: string, g: string, h: string, i: string)
    ensures a + b + c + d + e + f + g + h + i == a + (b + (c + (d + (e + (f + (g + (h + i)))))))
  {
    Assoc3(a + b + c + d + e + f + g, h, i);
    Assoc3(a + b + c + d + e + f, g, h + i);
    Assoc3(a + b + c + d + e, f, g + (h + i));
    Assoc3(a + b + c + d, e, f + (g + (h + i)));
    Assoc3(a + b + c, d, e + (f + (g + (h + i))));
    Assoc3(a + b, c, d + (e + (f + (g + (h + i)))));
    Assoc3(a, b, c + (d + (e + (f + (g + (h + i))))));
  }

  predicate LsnsIncrease(es: seq<Event>) {
    forall i, j :: 0 <= i < j < |es| ==> es[i].lsn < es[j].lsn
  }

  predicate LinesIncrease(lines: seq<string>) {
    forall i, j :: 0 <= i < j < |lines| ==>
      LsnOf(lines[i]).Some? && LsnOf(lines[j]).Some? && LsnOf(lines[i]).value < LsnOf(lines[j]).value
  }

  /**
   Pollers see strictly increasing sequence numbers exactly as far as the publishers
   took the lock in that order, whatever else is interleaved.
   */
  lemma PolledOrderIsLockOrder(steps: seq<Step>)
    ensures |Run(steps).polled| <= |Locked(steps)|
    ensures LinesIncrease(Run(steps).polled) <==> LsnsIncrease(Locked(steps)[..|Run(steps).polled|])
  {
    hide LsnOf, EventToJson, Run, Locked;
    PolledThenQueuedIsLocked(steps);
    var w, es := Run(steps), Locked(steps);
    assert |w.polled| + |w.queue| == |es|;
    forall i | 0 <= i < |w.polled|
      ensures LsnOf(w.polled[i]) == Some(es[i].lsn)
    {
      assert (w.polled + w.queue)[i] == JsonLines(es)[i];
      LsnOfLine(es[i]);
    }
    var polled := es[..|w.polled|];
    assert forall i :: 0 <= i < |w.polled| ==> polled[i] == es[i];
  }
}
