/** Live event delivery (internal/api/ws/dispatcher.go): bounded channels, slow clients dropped. Calls of
    the dispatcher hold its mutex and channel operations are atomic. Only a receive takes no mutex, so it can
    fall between two offers of one publish; `PublishIsOneStep` moves it out, and so every interleaving is a
    sequence of the steps below. */
module Dispatcher {
  import opened RailTypes
  import opened Sequences
  import opened EventFilters

  const OUTBOUND_BUFFER := 64

  /** What happens to a dispatcher, one atomic step at a time. */
  datatype Step =
    | Subscribed(id: int)
    | Published(event: LiveEvent)
    | Received(id: int)
    | Cancelled(id: int)

  // --- What one client sees ---

  /** What a client has received, what waits in its channel, and whether the channel is still open. */
  datatype View = View(received: seq<LiveEvent>, buffer: seq<LiveEvent>, open: bool)
  {
    function Queued(): seq<LiveEvent> {
      received + buffer
    }
  }

  /** The view after receiving, when something waits. */
  function AfterReceive(v: View): View {
    if v.buffer == [] then v else v.(received := v.received + [v.buffer[0]], buffer := v.buffer[1..])
  }

  function Next(capacity: nat, f: Filters, id: int, v: View, s: Step): View {
    match s
    case Subscribed(_) => v
    case Published(e) =>
      if !v.open || !Match(f, e) then v
      else if |v.buffer| < capacity then v.(buffer := v.buffer + [e])
      else v.(open := false)
    case Received(j) => if j == id then AfterReceive(v) else v
    case Cancelled(j) => if j == id then v.(open := false) else v
  }

  /** What client `id` sees after the steps, starting from `v`. */
  function ViewFrom(capacity: nat, f: Filters, id: int, v: View, steps: seq<Step>): View {
    if steps == [] then v
    else Next(capacity, f, id, ViewFrom(capacity, f, id, v, steps[..|steps| - 1]), steps[|steps| - 1])
  }

  /** What client `id` sees of the steps since it subscribed. */
  function ViewOf(capacity: nat, f: Filters, id: int, steps: seq<Step>): View {
    ViewFrom(capacity, f, id, View([], [], true), steps)
  }

  /** The events a client asked for among those published. */
  function AskedFor(f: Filters, steps: seq<Step>): seq<LiveEvent> {
    if steps == [] then []
    else
      var before, last := AskedFor(f, steps[..|steps| - 1]), steps[|steps| - 1];
      if last.Published? && Match(f, last.event) then before + [last.event] else before
  }

  /** How often a client was ready to receive when something was waiting for it, or would have been had
      it never been dropped: one for each receive, up to what was asked for. */
  function Taken(f: Filters, id: int, steps: seq<Step>): (n: nat)
    ensures n <= |AskedFor(f, steps)|
  {
    if steps == [] then 0
    else
      var before, last := Taken(f, id, steps[..|steps| - 1]), steps[|steps| - 1];
      if last == Received(id) && before < |AskedFor(f, steps[..|steps| - 1])| then before + 1 else before
  }

  /** At every publish the client asked for, fewer than `capacity` asked-for events were still untaken. */
  ghost predicate KeptUp(capacity: nat, f: Filters, id: int, steps: seq<Step>) {
    forall i | 0 <= i < |steps| && steps[i].Published? && Match(f, steps[i].event) ::
      |AskedFor(f, steps[..i])| - Taken(f, id, steps[..i]) < capacity
  }

  /** A step queues the event published, if the client asks for it and has room, and nothing else. */
  lemma NextQueues(capacity: nat, f: Filters, id: int, v: View, s: Step)
    ensures var w := Next(capacity, f, id, v, s);
            && w.Queued() == (if s.Published? && Match(f, s.event) && v.open && |v.buffer| < capacity
                              then v.Queued() + [s.event] else v.Queued())
            && (w.open ==> v.open)
            && (w.open && s.Published? && Match(f, s.event) ==> |v.buffer| < capacity)
            && (|v.buffer| <= capacity ==> |w.buffer| <= capacity)
  {
    if s == Received(id) && v.buffer != [] {
      assert v.buffer == [v.buffer[0]] + v.buffer[1..];
    }
  }

  /** Delivery has no gaps: what was ever queued for a client is a prefix of what it asked for, and all of
      it while its channel is open. The channel never holds more than its capacity. */
  lemma {:induction false} DeliveryIsAPrefix(capacity: nat, f: Filters, id: int, steps: seq<Step>)
    ensures var v := ViewOf(capacity, f, id, steps);
            && v.Queued() <= AskedFor(f, steps) && |v.buffer| <= capacity
            && (v.open ==> v.Queued() == AskedFor(f, steps))
  {
    if steps != [] {
      var front := steps[..|steps| - 1];
      DeliveryIsAPrefix(capacity, f, id, front);
      NextQueues(capacity, f, id, ViewOf(capacity, f, id, front), steps[|steps| - 1]);
    }
  }

  lemma KeptUpOneMore(capacity: nat, f: Filters, id: int, steps: seq<Step>, s: Step)
    ensures KeptUp(capacity, f, id, steps + [s]) <==>
            && KeptUp(capacity, f, id, steps)
            && (s.Published? && Match(f, s.event) ==> |AskedFor(f, steps)| - Taken(f, id, steps) < capacity)
  {
    var more := steps + [s];
    forall i | 0 <= i < |steps| ensures more[..i] == steps[..i] && more[i] == steps[i] {}
    assert more[..|steps|] == steps && more[|steps|] == s;
    if KeptUp(capacity, f, id, more) {
      forall i | 0 <= i < |steps| && steps[i].Published? && Match(f, steps[i].event)
        ensures |AskedFor(f, steps[..i])| - Taken(f, id, steps[..i]) < capacity
      {
        assert more[i] == steps[i];
      }
    }
  }

  /** A client is still served exactly when it has not cancelled and has always kept up: nothing else
      drops it, whatever other clients do. */
  lemma {:induction false} ServedExactlyWhileKeepingUp(capacity: nat, f: Filters, id: int, steps: seq<Step>)
    ensures var v := ViewOf(capacity, f, id, steps);
            && (v.open <==> KeptUp(capacity, f, id, steps) && Cancelled(id) !in steps)
            && (v.open ==> |v.received| == Taken(f, id, steps))
  {
    if steps != [] {
      var front, last := steps[..|steps| - 1], steps[|steps| - 1];
      assert steps == front + [last];
      ServedExactlyWhileKeepingUp(capacity, f, id, front);
      DeliveryIsAPrefix(capacity, f, id, front);
      KeptUpOneMore(capacity, f, id, front, last);
      assert Cancelled(id) in steps <==> Cancelled(id) in front || last == Cancelled(id);
    }
  }

  /** Other clients make no difference: the steps that concern neither the client nor an event it asked
      for can be left out. */
  predicate Concerns(f: Filters, id: int, s: Step) {
    match s
    case Subscribed(_) => false
    case Published(e) => Match(f, e)
    case Received(j) => j == id
    case Cancelled(j) => j == id
  }

  lemma {:induction false} ClientsDoNotInterfere(capacity: nat, f: Filters, id: int, steps: seq<Step>)
    ensures ViewOf(capacity, f, id, steps) == ViewOf(capacity, f, id, Filter(steps, s => Concerns(f, id, s)))
  {
    if steps != [] {
      var front, last := steps[..|steps| - 1], steps[|steps| - 1];
      var kept := Filter(front, s => Concerns(f, id, s));
      ClientsDoNotInterfere(capacity, f, id, front);
      assert (kept + [last])[..|kept|] == kept;
      assert kept + [] == kept;
      if !Concerns(f, id, last) {
        assert Next(capacity, f, id, ViewOf(capacity, f, id, front), last) == ViewOf(capacity, f, id, front);
      }
    }
  }

  lemma {:induction false} OnceClosedAlwaysClosed(capacity: nat, f: Filters, id: int, steps: seq<Step>, n: nat)
    requires n <= |steps| && !ViewOf(capacity, f, id, steps[..n]).open
    ensures !ViewOf(capacity, f, id, steps).open
    ensures ViewOf(capacity, f, id, steps).Queued() == ViewOf(capacity, f, id, steps[..n]).Queued()
  {
    if n == |steps| {
      assert steps[..n] == steps;
    } else {
      var front := steps[..|steps| - 1];
      assert front[..n] == steps[..n];
      OnceClosedAlwaysClosed(capacity, f, id, front, n);
      NextQueues(capacity, f, id, ViewOf(capacity, f, id, front), steps[|steps| - 1]);
    }
  }

  // --- The dispatcher ---

  /** A bounded channel. Sending on a closed one or closing it again would be a fault. */
  class Channel {
    const capacity: nat
    ghost const owner: int
    var buffer: seq<LiveEvent>
    var closed: bool
    ghost var received: seq<LiveEvent>

    constructor (capacity: nat, ghost owner: int)
      ensures this.capacity == capacity && this.owner == owner && Now() == View([], [], true)
    {
      this.capacity, this.owner := capacity, owner;
      buffer, closed, received := [], false, [];
    }

    ghost function Now(): View
      reads this
    {
      View(received, buffer, !closed)
    }

    /** A send that does not wait: it fails when the buffer is full. */
    method TrySend(e: LiveEvent) returns (ok: bool)
      requires !closed
      modifies this`buffer
      ensures ok <==> |old(buffer)| < capacity
      ensures buffer == if ok then old(buffer) + [e] else old(buffer)
    {
      if |buffer| >= capacity {
        return false;
      }
      buffer := buffer + [e];
      ok := true;
    }

    method Close()
      requires !closed
      modifies this`closed
      ensures closed
    {
      closed := true;
    }

    /** A receive that does not wait. A closed channel still hands out what it holds. */
    method TryReceive() returns (e: Option<LiveEvent>, ended: bool)
      modifies this`buffer, this`received
      ensures ended <==> old(buffer) == [] && closed
      ensures old(buffer) == [] ==> e == None && Now() == old(Now())
      ensures old(buffer) != [] ==> e == Some(old(buffer)[0])
                                    && buffer == old(buffer)[1..] && received == old(received) + [old(buffer)[0]]
    {
      if buffer == [] {
        return None, closed;
      }
      e, ended := Some(buffer[0]), false;
      received := received + [buffer[0]];
      buffer := buffer[1..];
    }
  }

  datatype Client = Client(filters: Filters, out: Channel)

  /** A client that ever subscribed, and how many steps had happened by then. */
  datatype Membership = Membership(client: Client, since: nat)

  /** What every client that ever subscribed should have by now. */
  ghost predicate Explained(capacity: nat, members: map<int, Membership>, steps: seq<Step>, views: map<int, View>) {
    views.Keys == members.Keys &&
    forall id <- members ::
      && members[id].since <= |steps|
      && views[id] == ViewOf(capacity, members[id].client.filters, id, steps[members[id].since..])
  }

  ghost function AllNext(capacity: nat, members: map<int, Membership>, views: map<int, View>, s: Step): map<int, View>
    requires views.Keys == members.Keys
  {
    map id <- views :: Next(capacity, members[id].client.filters, id, views[id], s)
  }

  lemma ExplainedNext(capacity: nat, members: map<int, Membership>, steps: seq<Step>, views: map<int, View>, s: Step)
    requires Explained(capacity, members, steps, views)
    ensures Explained(capacity, members, steps + [s], AllNext(capacity, members, views, s))
  {
    forall id | id in members
      ensures ViewOf(capacity, members[id].client.filters, id, (steps + [s])[members[id].since..])
           == Next(capacity, members[id].client.filters, id, views[id], s)
    {
      var mine := (steps + [s])[members[id].since..];
      assert mine[..|mine| - 1] == steps[members[id].since..] && mine[|mine| - 1] == s;
    }
  }

  lemma ExplainedWithOneMore(capacity: nat, members: map<int, Membership>, steps: seq<Step>, views: map<int, View>,
                             id: int, m: Membership)
    requires Explained(capacity, members, steps, views) && id !in members && m.since == |steps| + 1
    ensures Explained(capacity, members[id := m], steps + [Subscribed(id)], views[id := View([], [], true)])
  {
    ExplainedNext(capacity, members, steps, views, Subscribed(id));
    assert AllNext(capacity, members, views, Subscribed(id)) == views;
    assert (steps + [Subscribed(id)])[m.since..] == [];
  }

  lemma ExplainedAfterCancel(capacity: nat, members: map<int, Membership>, steps: seq<Step>, views: map<int, View>,
                             id: int)
    requires Explained(capacity, members, steps, views) && id in members
    ensures Explained(capacity, members, steps + [Cancelled(id)], views[id := views[id].(open := false)])
  {
    ExplainedNext(capacity, members, steps, views, Cancelled(id));
    assert AllNext(capacity, members, views, Cancelled(id)) == views[id := views[id].(open := false)];
  }

  lemma ExplainedAfterReceive(capacity: nat, members: map<int, Membership>, steps: seq<Step>, views: map<int, View>,
                              id: int)
    requires Explained(capacity, members, steps, views) && id in members
    ensures Explained(capacity, members, steps + [Received(id)], views[id := AfterReceive(views[id])])
  {
    ExplainedNext(capacity, members, steps, views, Received(id));
    assert AllNext(capacity, members, views, Received(id)) == views[id := AfterReceive(views[id])];
  }

  // --- Receives inside a publish ---

  /** What happens while an event is published: offers to clients, and receives of theirs at any point. */
  datatype Micro = Offered(id: int) | Took(id: int)

  function NextAmid(capacity: nat, f: Filters, id: int, v: View, e: LiveEvent, m: Micro): View {
    if m.id != id then v else if m.Took? then AfterReceive(v) else Next(capacity, f, id, v, Published(e))
  }

  /** The view of one client after the offers and receives, in the order they happened in. */
  function ViewAmid(capacity: nat, f: Filters, id: int, v: View, e: LiveEvent, ms: seq<Micro>): View {
    if ms == [] then v
    else NextAmid(capacity, f, id, ViewAmid(capacity, f, id, v, e, ms[..|ms| - 1]), e, ms[|ms| - 1])
  }

  ghost function AllAmid(capacity: nat, members: map<int, Membership>, views: map<int, View>, e: LiveEvent,
                         ms: seq<Micro>): map<int, View>
    requires views.Keys == members.Keys
  {
    map id <- views :: ViewAmid(capacity, members[id].client.filters, id, views[id], e, ms)
  }

  /** The receives by clients that had not been offered the event yet. */
  function Early(ms: seq<Micro>): seq<Step> {
    if ms == [] then []
    else
      var front, m := ms[..|ms| - 1], ms[|ms| - 1];
      if m.Took? && Offered(m.id) !in front then Early(front) + [Received(m.id)] else Early(front)
  }

  /** The receives by clients that had been. */
  function Late(ms: seq<Micro>): seq<Step> {
    if ms == [] then []
    else
      var front, m := ms[..|ms| - 1], ms[|ms| - 1];
      if m.Took? && Offered(m.id) in front then Late(front) + [Received(m.id)] else Late(front)
  }

  predicate OffersOnce(ms: seq<Micro>) {
    forall i, j | 0 <= i < j < |ms| && ms[i] == ms[j] :: ms[i].Took?
  }

  /** One publish: each client is offered the event at most once, and each whose channel is open is. */
  ghost predicate OnePublish(views: map<int, View>, ms: seq<Micro>) {
    && OffersOnce(ms)
    && (forall id <- views | views[id].open :: Offered(id) in ms)
  }

  lemma {:induction false} ViewFromJoins(capacity: nat, f: Filters, id: int, v: View, a: seq<Step>, b: seq<Step>)
    ensures ViewFrom(capacity, f, id, v, a + b) == ViewFrom(capacity, f, id, ViewFrom(capacity, f, id, v, a), b)
  {
    if b == [] {
      assert a + b == a;
    } else {
      ViewFromJoins(capacity, f, id, v, a, b[..|b| - 1]);
      assert (a + b)[..|a + b| - 1] == a + b[..|b| - 1];
    }
  }

  /** The view after early receives, the publish if `offered`, and late receives. */
  function Sorted(capacity: nat, f: Filters, id: int, v: View, e: LiveEvent, early: seq<Step>, offered: bool,
                  late: seq<Step>): View
  {
    var w := ViewFrom(capacity, f, id, v, early);
    ViewFrom(capacity, f, id, if offered then Next(capacity, f, id, w, Published(e)) else w, late)
  }

  lemma OneReceiveMore(capacity: nat, f: Filters, id: int, v: View, steps: seq<Step>, j: int)
    ensures ViewFrom(capacity, f, id, v, steps + [Received(j)])
         == Next(capacity, f, id, ViewFrom(capacity, f, id, v, steps), Received(j))
  {
    assert (steps + [Received(j)])[..|steps|] == steps;
  }

  /** Receives of clients that have not been offered the event are all early. */
  lemma {:induction false} UnofferedAreEarly(capacity: nat, f: Filters, id: int, v: View, ms: seq<Micro>)
    requires Offered(id) !in ms
    ensures ViewFrom(capacity, f, id, v, Late(ms)) == v
  {
    if ms != [] {
      var front, m := ms[..|ms| - 1], ms[|ms| - 1];
      UnofferedAreEarly(capacity, f, id, v, front);
      OneReceiveMore(capacity, f, id, v, Late(front), m.id);
    }
  }

  /** What one client has after the offers and receives is what it has after its early receives, the publish if
      it was offered the event, and its late receives. */
  lemma {:induction false} AmidIsSorted(capacity: nat, f: Filters, id: int, v: View, e: LiveEvent, ms: seq<Micro>)
    requires OffersOnce(ms)
    ensures ViewAmid(capacity, f, id, v, e, ms)
         == Sorted(capacity, f, id, v, e, Early(ms), Offered(id) in ms, Late(ms))
  {
    if ms != [] {
      var front, m := ms[..|ms| - 1], ms[|ms| - 1];
      assert ms == front + [m];
      AmidIsSorted(capacity, f, id, v, e, front);
      var early := ViewFrom(capacity, f, id, v, Early(front));
      OneReceiveMore(capacity, f, id, v, Early(front), m.id);
      if Offered(id) in front {
        OneReceiveMore(capacity, f, id, Next(capacity, f, id, early, Published(e)), Late(front), m.id);
      } else {
        OneReceiveMore(capacity, f, id, early, Late(front), m.id);
        UnofferedAreEarly(capacity, f, id, early, front);
        UnofferedAreEarly(capacity, f, id, AfterReceive(early), front);
        UnofferedAreEarly(capacity, f, id, Next(capacity, f, id, early, Published(e)), front);
      }
    }
  }

  lemma {:induction false} ReceivesKeepOpen(capacity: nat, f: Filters, id: int, v: View, ms: seq<Micro>)
    ensures ViewFrom(capacity, f, id, v, Early(ms)).open == v.open
  {
    if ms != [] {
      var front, m := ms[..|ms| - 1], ms[|ms| - 1];
      ReceivesKeepOpen(capacity, f, id, v, front);
      OneReceiveMore(capacity, f, id, v, Early(front), m.id);
    }
  }

  /** A publish as one step, with the receives inside it moved before or after it. */
  function AsSteps(e: LiveEvent, ms: seq<Micro>): seq<Step> {
    Early(ms) + [Published(e)] + Late(ms)
  }

  lemma AmidIsAsSteps(capacity: nat, f: Filters, id: int, v: View, e: LiveEvent, ms: seq<Micro>)
    requires OffersOnce(ms) && (v.open ==> Offered(id) in ms)
    ensures ViewAmid(capacity, f, id, v, e, ms) == ViewFrom(capacity, f, id, v, AsSteps(e, ms))
  {
    AmidIsSorted(capacity, f, id, v, e, ms);
    ReceivesKeepOpen(capacity, f, id, v, ms);
    ViewFromJoins(capacity, f, id, v, Early(ms) + [Published(e)], Late(ms));
    assert (Early(ms) + [Published(e)])[..|Early(ms)|] == Early(ms);
  }

  /** Receives that fall inside a publish come out as if those by clients not yet offered the event had come
      before it, and the others after it: a publish is one step. */
  lemma PublishIsOneStep(capacity: nat, members: map<int, Membership>, steps: seq<Step>, views: map<int, View>,
                         e: LiveEvent, ms: seq<Micro>)
    requires Explained(capacity, members, steps, views) && OnePublish(views, ms)
    ensures Explained(capacity, members, steps + AsSteps(e, ms), AllAmid(capacity, members, views, e, ms))
  {
    forall id | id in members
      ensures ViewOf(capacity, members[id].client.filters, id, (steps + AsSteps(e, ms))[members[id].since..])
           == ViewAmid(capacity, members[id].client.filters, id, views[id], e, ms)
    {
      AmidIsAsSteps(capacity, members[id].client.filters, id, views[id], e, ms);
      ViewFromJoins(capacity, members[id].client.filters, id, View([], [], true), steps[members[id].since..],
                    AsSteps(e, ms));
      assert (steps + AsSteps(e, ms))[members[id].since..] == steps[members[id].since..] + AsSteps(e, ms);
    }
  }

  /** The clients in `left` still have their old view, the others their next one. */
  ghost predicate Halfway(was: map<int, View>, goal: map<int, View>, views: map<int, View>, left: set<int>) {
    was.Keys == goal.Keys == views.Keys && forall id <- views :: views[id] == if id in left then was[id] else goal[id]
  }

  lemma HalfwayOneMore(was: map<int, View>, goal: map<int, View>, views: map<int, View>, left: set<int>, id: int)
    requires Halfway(was, goal, views, left) && id in left && id in views
    ensures views[id] == was[id] && Halfway(was, goal, views[id := goal[id]], left - {id})
  {
  }

  class Dispatcher {
    const outboundBuffer: nat
    var nextID: int
    var clients: map<int, Client>
    ghost var members: map<int, Membership>
    ghost var steps: seq<Step>
    ghost var views: map<int, View>

    constructor ()
      ensures Valid() && members == map[] && steps == []
    {
      outboundBuffer := OUTBOUND_BUFFER;
      nextID, clients := 0, map[];
      members, steps, views := map[], [], map[];
    }

    ghost function Channels(): set<object>
      reads this`members
    {
      set id | id in members :: members[id].client.out
    }

    ghost predicate OwnChannels()
      reads this`members, this`nextID
    {
      0 <= nextID && outboundBuffer == OUTBOUND_BUFFER && forall id <- members ::
        && 0 < id <= nextID
        && members[id].client.out.owner == id && members[id].client.out.capacity == outboundBuffer
    }

    /** The clients still registered are those whose channel is open. */
    ghost predicate Registered()
      reads this`members, this`clients, this`views
    {
      && clients.Keys <= members.Keys == views.Keys
      && (forall id <- members :: id in clients <==> views[id].open)
      && (forall id <- clients :: clients[id] == members[id].client)
    }

    ghost predicate Holding()
      reads this`members, this`views, Channels()
    {
      members.Keys == views.Keys && forall id <- members :: members[id].client.out.Now() == views[id]
    }

    /** Channels, clients and `views` fit together. */
    ghost predicate Consistent()
      reads this`members, this`nextID, this`clients, this`views, Channels()
    {
      OwnChannels() && Registered() && Holding()
    }

    /** Every channel ever handed out holds exactly what its client should have by now, and the clients
        still registered are those whose channel is open. */
    ghost predicate Valid()
      reads this, Channels()
    {
      Consistent() && Explained(outboundBuffer, members, steps, views)
    }

    method Subscribe(filters: Filters) returns (result: Result<Client, FilterError>, ghost id: int)
      requires Valid()
      modifies this
      ensures Valid()
      ensures Normalized(filters).Err? ==>
                result == Err(Normalized(filters).error) && members == old(members) && steps == old(steps)
      ensures Normalized(filters).Ok? ==>
                && result.Ok? && result.value.filters == Normalized(filters).value
                && fresh(result.value.out) && result.value.out.Now() == View([], [], true)
                && id == nextID == old(nextID) + 1 && id !in old(members)
                && members == old(members)[id := Membership(result.value, |old(steps)| + 1)]
                && steps == old(steps) + [Subscribed(id)]
    {
      var normalized := NormalizeFilters(filters);
      if normalized.Err? {
        return Err(normalized.error), 0;
      }
      var client := Register(normalized.value);
      result := Ok(client);
      id := nextID;
      steps := steps + [Subscribed(id)];
      ExplainedWithOneMore(outboundBuffer, old(members), old(steps), old(views), id, members[id]);
    }

    method Register(filters: Filters) returns (client: Client)
      requires Consistent()
      modifies this`nextID, this`clients, this`members, this`views
      ensures Consistent()
      ensures client.filters == filters && fresh(client.out) && client.out.Now() == View([], [], true)
      ensures nextID == old(nextID) + 1 && nextID !in old(members)
      ensures members == old(members)[nextID := Membership(client, |steps| + 1)]
      ensures views == old(views)[nextID := View([], [], true)]
    {
      nextID := nextID + 1;
      var out := new Channel(outboundBuffer, nextID);
      client := Client(filters, out);
      clients := clients[nextID := client];
      members := members[nextID := Membership(client, |steps| + 1)];
      views := views[nextID := View([], [], true)];
    }

    /** The cancel function handed out with a subscription. Calling it again does nothing. */
    method Cancel(id: int)
      requires Valid() && id in members
      modifies this`clients, this`steps, this`views, members[id].client.out`closed
      ensures Valid() && steps == old(steps) + [Cancelled(id)]
      ensures id !in clients && members[id].client.out.closed
    {
      Remove(id);
      steps := steps + [Cancelled(id)];
      ExplainedAfterCancel(outboundBuffer, members, old(steps), old(views), id);
    }

    method Remove(id: int)
      requires Consistent() && id in members
      modifies this`clients, this`views, members[id].client.out`closed
      ensures Consistent() && views == old(views[id := views[id].(open := false)])
      ensures id !in clients && members[id].client.out.closed
    {
      views := views[id := views[id].(open := false)];
      if id in clients {
        var out := clients[id].out;
        clients := clients - {id};
        out.Close();
      }
    }

    /** What the socket handler does with its channel: taking the next event, if there is one, or learning
        that the channel has ended. */
    method Receive(ghost id: int, out: Channel) returns (e: Option<LiveEvent>, ended: bool)
      requires Valid() && id in members && out == members[id].client.out
      modifies this`steps, this`views, out`buffer, out`received
      ensures Valid() && steps == old(steps) + [Received(id)]
      ensures e == if old(out.buffer) == [] then None else Some(old(out.buffer)[0])
      ensures ended <==> old(out.buffer) == [] && id !in clients
    {
      e, ended := Take(id, out);
      steps := steps + [Received(id)];
      ExplainedAfterReceive(outboundBuffer, members, old(steps), old(views), id);
    }

    method Take(ghost id: int, out: Channel) returns (e: Option<LiveEvent>, ended: bool)
      requires Consistent() && id in members && out == members[id].client.out
      modifies this`views, out`buffer, out`received
      ensures Consistent() && views == old(views[id := AfterReceive(views[id])])
      ensures e == if old(out.buffer) == [] then None else Some(old(out.buffer)[0])
      ensures ended <==> old(out.buffer) == [] && id !in clients
    {
      views := views[id := AfterReceive(views[id])];
      e, ended := out.TryReceive();
    }

    /** Offers an event to one client; a full channel is closed and its client dropped. */
    method Offer(id: int, e: LiveEvent)
      requires id in clients && !clients[id].out.closed && clients[id].out.capacity == outboundBuffer
      modifies this`clients, clients[id].out`buffer, clients[id].out`closed
      ensures var c := old(clients[id]);
              && c.out.Now() == Next(outboundBuffer, c.filters, id, old(clients[id].out.Now()), Published(e))
              && clients == if c.out.closed then old(clients) - {id} else old(clients)
    {
      var client := clients[id];
      if !Match(client.filters, e) {
        return;
      }
      var ok := client.out.TrySend(e);
      if !ok {
        clients := clients - {id};
        client.out.Close();
      }
    }

    method OfferTo(id: int, e: LiveEvent)
      requires Consistent() && id in clients
      modifies this`clients, this`views, clients[id].out`buffer, clients[id].out`closed
      ensures Consistent() && clients.Keys >= old(clients.Keys) - {id}
      ensures views == old(views[id := Next(outboundBuffer, members[id].client.filters, id, views[id], Published(e))])
    {
      views := views[id := Next(outboundBuffer, members[id].client.filters, id, views[id], Published(e))];
      Offer(id, e);
    }

    /** Offers an event to every registered client, in whatever order the map gives them. Receives that fall
        between two offers are those of `PublishIsOneStep`. */
    method Publish(e: LiveEvent)
      requires Valid()
      modifies this`clients, this`steps, this`views, Channels()
      ensures Valid() && steps == old(steps) + [Published(e)]
    {
      Broadcast(e);
      steps := steps + [Published(e)];
      ExplainedNext(outboundBuffer, members, old(steps), old(views), Published(e));
    }

    method Broadcast(e: LiveEvent)
      requires Consistent()
      modifies this`clients, this`views, Channels()
      ensures Consistent() && views == old(AllNext(outboundBuffer, members, views, Published(e)))
    {
      ghost var goal := AllNext(outboundBuffer, members, views, Published(e));
      ghost var was := views;
      var left := clients.Keys;
      while left != {}
        invariant left <= clients.Keys
        invariant Halfway(was, goal, views, left)
        invariant Consistent()
        decreases left
      {
        var id :| id in left;
        HalfwayOneMore(was, goal, views, left, id);
        OfferTo(id, e);
        left := left - {id};
      }
    }

    /** Whatever happened: all that was ever queued for a client is a prefix of the events published since
        it subscribed that it asked for, and all of them while it is registered; it is registered exactly
        while it has neither cancelled nor fallen a full buffer behind; its channel is closed otherwise. */
    lemma DeliveryIsGapFree(id: int)
      requires Valid() && id in members
      ensures var m := members[id];
              var mine, out := steps[m.since..], m.client.out;
              && out.Now().Queued() <= AskedFor(m.client.filters, mine) && |out.buffer| <= 64
              && (id in clients ==> out.Now().Queued() == AskedFor(m.client.filters, mine))
              && (id in clients <==> KeptUp(64, m.client.filters, id, mine) && Cancelled(id) !in mine)
              && (id in clients <==> !out.closed)
    {
      var m := members[id];
      DeliveryIsAPrefix(outboundBuffer, m.client.filters, id, steps[m.since..]);
      ServedExactlyWhileKeepingUp(outboundBuffer, m.client.filters, id, steps[m.since..]);
    }
  }
}
