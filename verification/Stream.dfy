/**
 Latest-wins delivery of dashboard events to one streaming client under interleaved publishers
 (backend/src/waterfallhunter/main.py, _broadcast_dashboard_event and stream_candidates).

 Each action below runs between two awaits of the event loop, so runs interleave them freely.
 */
module Stream {
  import opened Common

  const QUEUE_LIMIT: nat := 2

  datatype Event = Event(id: nat, body: string)

  /** Where a client's first events come from: the replay buffer, a fresh full snapshot, or nothing when it failed. */
  datatype Source = Replayed(events: seq<Event>) | Snapshot(event: Event) | NoSnapshot

  datatype Client = Client(waiting: bool, queue: seq<Event>, pending: seq<Event>, delivered: nat, sent: seq<Event>)

  datatype Action = Broadcast(event: Event) | Start(source: Source) | Next

  const REGISTERED: Client := Client(true, [], [], 0, [])

  // ----- queue and merge -----

  function PutLatest(queue: seq<Event>, e: Event): seq<Event> {
    if |queue| < QUEUE_LIMIT then queue + [e]
    else
      var rest := queue[1..];
      if |rest| < QUEUE_LIMIT then rest + [e] else rest
  }

  predicate Earlier(a: Event, b: Event) { a.id <= b.id }

  /** Where an id already stands in a list of dictionary values. */
  function Slot(values: seq<Event>, id: nat): (k: Option<nat>)
    ensures k.Some? ==> k.value < |values| && values[k.value].id == id
    ensures k.None? ==> forall i :: 0 <= i < |values| ==> values[i].id != id
  {
    if values == [] then None
    else if values[|values| - 1].id == id then Some(|values| - 1)
    else Slot(values[..|values| - 1], id)
  }

  /** An event takes the place of an earlier one of the same id, or a new place at the end. */
  function Place(values: seq<Event>, e: Event): seq<Event> {
    match Slot(values, e.id)
    case Some(k) => values[k := e]
    case None => values + [e]
  }

  /** The values of a dictionary keyed by event id, built in this order. */
  function Values(events: seq<Event>): seq<Event> {
    if events == [] then [] else Place(Values(events[..|events| - 1]), events[|events| - 1])
  }

  function Merge(queued: seq<Event>, snapshot: Event): seq<Event> { SortBy(Values(queued + [snapshot]), Earlier) }

  // ----- one client -----

  predicate Enabled(c: Client, a: Action) {
    match a
    case Broadcast(_) => true
    case Start(Replayed(events)) => c.waiting && Ascending(events)
    case Start(_) => c.waiting
    case Next => !c.waiting && (c.pending != [] || c.queue != [])
  }

  function Deliver(c: Client, e: Event, delivered: nat): Client { c.(delivered := delivered, sent := c.sent + [e]) }

  function Apply(c: Client, a: Action): Client
    requires Enabled(c, a)
  {
    match a
    case Broadcast(e) => c.(queue := PutLatest(c.queue, e))
    case Start(Replayed(events)) => c.(waiting := false, pending := events)
    case Start(Snapshot(e)) => c.(waiting := false, pending := Merge(c.queue, e), queue := [])
    case Start(NoSnapshot) => c.(waiting := false)
    case Next =>
      if c.pending != [] then
        var e := c.pending[0];
        Deliver(c, e, if e.id > c.delivered then e.id else c.delivered).(pending := c.pending[1..])
      else
        var e, rest := c.queue[0], c.(queue := c.queue[1..]);
        if e.id <= c.delivered then rest else Deliver(rest, e, e.id)
  }

  predicate Ascending(events: seq<Event>) { forall i, j :: 0 <= i < j < |events| ==> events[i].id < events[j].id }

  class StreamClient {
    var waiting: bool
    var queue: seq<Event>
    var pending: seq<Event>
    var delivered: nat
    var sent: seq<Event>

    function Contents(): Client
      reads this
    {
      Client(waiting, queue, pending, delivered, sent)
    }

    constructor ()
      ensures Contents() == REGISTERED
    {
      waiting, queue, pending, delivered, sent := true, [], [], 0, [];
    }

    method Put(e: Event)
      modifies this`queue
      ensures Contents() == Apply(old(Contents()), Broadcast(e))
    {
      if |queue| < QUEUE_LIMIT {
        queue := queue + [e];
      } else {
        queue := queue[1..];
        if |queue| < QUEUE_LIMIT {
          queue := queue + [e];
        }
      }
    }

    /** The full-snapshot branch drains the queue into the dictionary; the other branches leave it alone. */
    method Begin(source: Source)
      requires Enabled(Contents(), Start(source))
      modifies this
      ensures Contents() == Apply(old(Contents()), Start(source))
    {
      waiting := false;
      match source
      case Replayed(events) =>
        pending := events;
      case NoSnapshot =>
      case Snapshot(e) =>
        var queued: seq<Event> := [];
        while queue != []
          invariant queued + queue == old(queue)
          invariant !waiting && pending == old(pending) && delivered == old(delivered) && sent == old(sent)
          decreases |queue|
        {
          queued, queue := queued + [queue[0]], queue[1..];
        }
        assert queued == old(queue);
        pending := Merge(queued, e);
    }

    method DeliverNext()
      requires Enabled(Contents(), Next)
      modifies this
      ensures Contents() == Apply(old(Contents()), Next)
    {
      if pending != [] {
        var e := pending[0];
        pending := pending[1..];
        delivered := if e.id > delivered then e.id else delivered;
        sent := sent + [e];
        return;
      }
      var e := queue[0];
      queue := queue[1..];
      if e.id <= delivered {
        return;
      }
      delivered := e.id;
      sent := sent + [e];
    }
  }

  /** Every registered client gets the event, whatever the others' queues hold. */
  method BroadcastDashboardEvent(clients: set<StreamClient>, e: Event)
    modifies clients
    ensures forall c :: c in clients ==> c.Contents() == Apply(old(c.Contents()), Broadcast(e))
  {
    hide Apply;
    var remaining := clients;
    while remaining != {}
      invariant remaining <= clients
      invariant forall c :: c in remaining ==> c.Contents() == old(c.Contents())
      invariant forall c :: c in clients - remaining ==> c.Contents() == Apply(old(c.Contents()), Broadcast(e))
      decreases |remaining|
    {
      var c :| c in remaining;
      c.Put(e);
      remaining := remaining - {c};
    }
  }

  // ----- the merge is strictly ascending and complete -----

  ghost predicate DistinctIds(events: seq<Event>) { forall i, j :: 0 <= i < j < |events| ==> events[i].id != events[j].id }

  function Ids(events: seq<Event>): set<nat> { set i | 0 <= i < |events| :: events[i].id }

  lemma IdsSnoc(events: seq<Event>, e: Event)
    ensures Ids(events + [e]) == Ids(events) + {e.id}
  {
    assert (events + [e])[|events|] == e;
    assert forall i :: 0 <= i < |events| ==> (events + [e])[i] == events[i];
  }

  lemma PlaceSpec(values: seq<Event>, e: Event)
    requires DistinctIds(values)
    ensures DistinctIds(Place(values, e)) && Ids(Place(values, e)) == Ids(values) + {e.id}
    ensures forall v :: v in Place(values, e) ==> v in values || v == e
  {
    match Slot(values, e.id)
    case None =>
      IdsSnoc(values, e);
    case Some(k) =>
      var placed := values[k := e];
      assert forall i :: 0 <= i < |values| ==> placed[i].id == values[i].id;
  }

  lemma {:induction false} ValuesSpec(events: seq<Event>)
    ensures DistinctIds(Values(events)) && Ids(Values(events)) == Ids(events)
    ensures forall v :: v in Values(events) ==> v in events
  {
    if events != [] {
      var init, last := events[..|events| - 1], events[|events| - 1];
      ValuesSpec(init);
      PlaceSpec(Values(init), last);
      hide Place, DistinctIds;
      IdsSnoc(init, last);
      assert events == init + [last];
    }
  }

  lemma EarlierOrder()
    ensures TotalPreorder(Earlier)
  {
  }

  lemma LastIdIsNew(s: seq<Event>)
    requires DistinctIds(s) && s != []
    ensures s[|s| - 1].id !in Ids(s[..|s| - 1]) && DistinctIds(s[..|s| - 1])
  {
    forall i | 0 <= i < |s| - 1
      ensures s[i].id != s[|s| - 1].id
    {
    }
  }

  lemma {:induction false} InsertDistinct(s: seq<Event>, x: Event)
    requires DistinctIds(s) && x.id !in Ids(s)
    ensures DistinctIds(Insert(s, x, Earlier)) && Ids(Insert(s, x, Earlier)) == Ids(s) + {x.id}
  {
    if s == [] {
      IdsSnoc([], x);
      assert [] + [x] == [x];
    } else if Earlier(s[|s| - 1], x) {
      IdsSnoc(s, x);
    } else {
      var init, last := s[..|s| - 1], s[|s| - 1];
      assert s == init + [last];
      IdsSnoc(init, last);
      InsertDistinct(init, x);
      var t := Insert(init, x, Earlier);
      IdsSnoc(t, last);
      LastIdIsNew(s);
      hide Ids;
      OneMoreDistinct(t, last);
    }
  }

  lemma OneMoreDistinct(s: seq<Event>, x: Event)
    requires DistinctIds(s) && x.id !in Ids(s)
    ensures DistinctIds(s + [x])
  {
  }

  lemma {:induction false} SortDistinct(s: seq<Event>)
    requires DistinctIds(s)
    ensures DistinctIds(SortBy(s, Earlier)) && Ids(SortBy(s, Earlier)) == Ids(s)
  {
    if s != [] {
      var init, last := s[..|s| - 1], s[|s| - 1];
      assert s == init + [last];
      SortDistinct(init);
      IdsSnoc(init, last);
      InsertDistinct(SortBy(init, Earlier), last);
    }
  }

  lemma SortedDistinctAscends(s: seq<Event>)
    requires Sorted(s, Earlier) && DistinctIds(s)
    ensures Ascending(s)
  {
  }

  /** The merged replay ascends strictly, holds only queued events and the snapshot, and misses none of their ids. */
  lemma MergeSpec(queued: seq<Event>, snapshot: Event)
    ensures Ascending(Merge(queued, snapshot))
    ensures Ids(Merge(queued, snapshot)) == Ids(queued) + {snapshot.id}
    ensures forall e :: e in Merge(queued, snapshot) ==> e in queued || e == snapshot
  {
    var all := queued + [snapshot];
    IdsSnoc(queued, snapshot);
    ValuesSpec(all);
    EarlierOrder();
    SortBySpec(Values(all), Earlier);
    SortDistinct(Values(all));
    hide Values, Ids, DistinctIds, Earlier;
    SortedDistinctAscends(Merge(queued, snapshot));
  }

  // ----- whole runs -----

  /** A client with the last broadcast since it registered and the highest id its first events carried. */
  datatype World = World(client: Client, newest: Option<Event>, floor: nat)

  const START: World := World(REGISTERED, None, 0)

  function LastId(events: seq<Event>): nat { if events == [] then 0 else events[|events| - 1].id }

  function NewestId(w: World): nat { if w.newest.Some? then w.newest.value.id else 0 }

  function FirstIds(source: Source): nat {
    match source
    case Replayed(events) => LastId(events)
    case Snapshot(e) => e.id
    case NoSnapshot => 0
  }

  function Track(w: World, a: Action): World
    requires Enabled(w.client, a)
  {
    World(Apply(w.client, a),
          if a.Broadcast? then Some(a.event) else w.newest,
          if a.Start? then FirstIds(a.source) else w.floor)
  }

  ghost predicate IsRun(w: World, actions: seq<Action>)
    decreases |actions|
  {
    actions == [] || (Enabled(w.client, actions[0]) && IsRun(Track(w, actions[0]), actions[1..]))
  }

  ghost function Final(w: World, actions: seq<Action>): World
    requires IsRun(w, actions)
    decreases |actions|
  {
    if actions == [] then w else Final(Track(w, actions[0]), actions[1..])
  }

  // ----- strictly ascending delivery, bounded queue -----

  /** Delivered ids ascend, what is still pending lies above them, and a waiting client has neither. */
  predicate Ordered(c: Client) {
    && Ascending(c.sent + c.pending) && c.delivered == LastId(c.sent)
    && (c.waiting ==> c.sent == [] && c.pending == [])
  }

  /** The queue holds at most two events and ends with the newest broadcast. */
  predicate LatestWins(w: World) {
    && |w.client.queue| <= QUEUE_LIMIT
    && (w.client.queue != [] ==> w.newest == Some(w.client.queue[|w.client.queue| - 1]))
  }

  lemma AscendingSnoc(events: seq<Event>, e: Event)
    requires Ascending(events) && (events == [] || LastId(events) < e.id)
    ensures Ascending(events + [e])
  {
  }

  lemma AscendingPrefix(a: seq<Event>, b: seq<Event>)
    requires Ascending(a + b)
    ensures Ascending(a)
  {
    assert forall i :: 0 <= i < |a| ==> (a + b)[i] == a[i];
  }

  lemma StepKeepsOrder(c: Client, a: Action)
    requires Ordered(c) && Enabled(c, a)
    ensures Ordered(Apply(c, a))
  {
    match a
    case Broadcast(_) =>
    case Start(Replayed(events)) =>
      assert [] + events == events;
    case Start(Snapshot(e)) =>
      MergeSpec(c.queue, e);
      assert [] + Merge(c.queue, e) == Merge(c.queue, e);
    case Start(NoSnapshot) =>
    case Next =>
      if c.pending != [] {
        var e := c.pending[0];
        assert (c.sent + [e]) + c.pending[1..] == c.sent + c.pending;
        assert (c.sent + c.pending)[|c.sent|] == e;
        assert c.sent != [] ==> (c.sent + c.pending)[|c.sent| - 1] == c.sent[|c.sent| - 1];
      } else {
        assert c.sent + [] == c.sent;
        var sent := Apply(c, a).sent;
        if sent != c.sent {
          AscendingSnoc(c.sent, c.queue[0]);
        }
        assert sent + [] == sent;
      }
  }

  lemma StepKeepsLatest(w: World, a: Action)
    requires LatestWins(w) && Enabled(w.client, a)
    ensures LatestWins(Track(w, a))
    ensures a.Broadcast? ==> Track(w, a).client.queue != []
  {
    hide Merge;
  }

  /** Over any run a client receives strictly ascending ids and its queue stays bounded with the newest event last. */
  lemma {:induction false} DeliveryAscends(w: World, actions: seq<Action>)
    requires Ordered(w.client) && LatestWins(w) && IsRun(w, actions)
    ensures Ascending(Final(w, actions).client.sent) && Ordered(Final(w, actions).client) && LatestWins(Final(w, actions))
    decreases |actions|
  {
    if actions == [] {
      AscendingPrefix(w.client.sent, w.client.pending);
    } else {
      StepKeepsOrder(w.client, actions[0]);
      StepKeepsLatest(w, actions[0]);
      hide Ordered, LatestWins, Apply, Enabled, Ascending;
      DeliveryAscends(Track(w, actions[0]), actions[1..]);
    }
  }

  // ----- nothing of the first answer is lost -----

  /** How many delivery steps a run takes. */
  ghost function Steps(actions: seq<Action>): nat { |Filter(actions, (a: Action) => a.Next?)| }

  lemma StepsOf(actions: seq<Action>)
    requires actions != []
    ensures Steps(actions) == (if actions[0].Next? then 1 else 0) + Steps(actions[1..])
  {
    FilterAppend([actions[0]], actions[1..], (a: Action) => a.Next?);
    assert actions == [actions[0]] + actions[1..] && [actions[0]][..0] == [];
  }

  /**
   A started client sends its pending events one by one, in order, whatever is broadcast between its steps: after n steps
   exactly the first n of them, and after as many steps as there are all of them, before anything else.
   */
  lemma {:induction false} PendingIsSent(w: World, actions: seq<Action>)
    requires !w.client.waiting && IsRun(w, actions)
    ensures var c, d, n := w.client, Final(w, actions).client, Steps(actions);
            && !d.waiting
            && (n <= |c.pending| ==> d.sent == c.sent + c.pending[..n] && d.pending == c.pending[n..])
            && (n >= |c.pending| ==> c.sent + c.pending <= d.sent && d.pending == [])
    decreases |actions|
  {
    if actions != [] {
      var next := Track(w, actions[0]);
      PendingIsSent(next, actions[1..]);
      StepsOf(actions);
      hide Final, IsRun, Filter, PutLatest, Merge;
      if actions[0].Next? && w.client.pending != [] {
        SentHead(w.client, next.client, Steps(actions[1..]));
      }
    }
  }

  lemma SentHead(c: Client, d: Client, n: nat)
    requires c.pending != [] && d.sent == c.sent + [c.pending[0]] && d.pending == c.pending[1..]
    ensures d.sent + d.pending == c.sent + c.pending
    ensures n <= |d.pending| ==> d.sent + d.pending[..n] == c.sent + c.pending[..n + 1] && d.pending[n..] == c.pending[n + 1..]
  {
    assert c.pending == [c.pending[0]] + c.pending[1..];
    if n <= |d.pending| {
      assert c.pending[..n + 1] == [c.pending[0]] + d.pending[..n];
    }
  }

  /** The first answer: the replayed events, nothing, or the queued events and the snapshot in ascending order. */
  ghost predicate FirstAnswer(source: Source, queue: seq<Event>, first: seq<Event>) {
    match source
    case Replayed(events) => first == events
    case NoSnapshot => first == []
    case Snapshot(e) =>
      && Ascending(first) && Ids(first) == Ids(queue) + {e.id} && e in first
      && (forall f :: f in first ==> f in queue || f == e)
      && forall i :: 0 <= i < |queue| && queue[i].id != e.id && IsLatest(queue, i) ==> queue[i] in first
  }

  /** No later event carries the id. */
  ghost predicate IsLatest(events: seq<Event>, i: nat)
    requires i < |events|
  {
    forall j :: i < j < |events| ==> events[j].id != events[i].id
  }

  /**
   Over any run that starts a waiting client, every event of its first answer is sent or still pending, in order and
   before anything else; once it took as many steps, all of them are sent.
   */
  lemma FirstAnswerIsSent(w: World, source: Source, actions: seq<Action>) returns (first: seq<Event>)
    requires Ordered(w.client) && Enabled(w.client, Start(source)) && IsRun(Track(w, Start(source)), actions)
    ensures FirstAnswer(source, w.client.queue, first)
    ensures var d := Final(Track(w, Start(source)), actions).client;
            && first <= d.sent + d.pending
            && (Steps(actions) >= |first| ==> first <= d.sent)
            && (Steps(actions) <= |first| ==> d.sent == first[..Steps(actions)])
  {
    var started := Track(w, Start(source));
    first := started.client.pending;
    StartGivesAnswer(w.client, source);
    PendingIsSent(started, actions);
    hide *;
    SentPrefix(Final(started, actions).client, first, Steps(actions));
  }

  lemma SentPrefix(d: Client, first: seq<Event>, n: nat)
    requires n <= |first| ==> d.sent == [] + first[..n] && d.pending == first[n..]
    requires n >= |first| ==> [] + first <= d.sent && d.pending == []
    ensures first <= d.sent + d.pending
    ensures n >= |first| ==> first <= d.sent
    ensures n <= |first| ==> d.sent == first[..n]
  {
    assert [] + first == first;
    if n <= |first| {
      assert [] + first[..n] == first[..n] && first[..n] + first[n..] == first;
    } else {
      assert d.sent + [] == d.sent;
    }
  }

  lemma StartGivesAnswer(c: Client, source: Source)
    requires Ordered(c) && Enabled(c, Start(source))
    ensures FirstAnswer(source, c.queue, Apply(c, Start(source)).pending) && Apply(c, Start(source)).sent == []
    ensures !Apply(c, Start(source)).waiting
  {
    if source.Snapshot? {
      MergeSpec(c.queue, source.event);
      MergeKeepsLatest(c.queue, source.event);
      hide Merge;
    }
  }

  /** The last event of an id is the one the dictionary holds. */
  lemma {:induction false} ValuesKeepLatest(events: seq<Event>, i: nat)
    requires i < |events| && IsLatest(events, i)
    ensures events[i] in Values(events)
  {
    var n := |events| - 1;
    if i == n {
      PlacedIsThere(Values(events[..n]), events[n]);
    } else {
      ValuesKeepLatest(events[..n], i);
      PlaceKeepsOthers(Values(events[..n]), events[n], events[i]);
    }
  }

  lemma PlacedIsThere(values: seq<Event>, e: Event)
    ensures e in Place(values, e)
  {
    match Slot(values, e.id)
    case None => assert (values + [e])[|values|] == e;
    case Some(k) => assert values[k := e][k] == e;
  }

  lemma PlaceKeepsOthers(values: seq<Event>, e: Event, other: Event)
    requires other in values && other.id != e.id
    ensures other in Place(values, e)
  {
    var i :| 0 <= i < |values| && values[i] == other;
    match Slot(values, e.id)
    case None => assert (values + [e])[i] == other;
    case Some(k) => assert values[k := e][i] == other;
  }

  lemma MergeKeepsLatest(queued: seq<Event>, snapshot: Event)
    ensures snapshot in Merge(queued, snapshot)
    ensures forall i :: 0 <= i < |queued| && queued[i].id != snapshot.id && IsLatest(queued, i) ==> queued[i] in Merge(queued, snapshot)
  {
    var all := queued + [snapshot];
    EarlierOrder();
    SortBySpec(Values(all), Earlier);
    ValuesKeepLatest(all, |queued|);
    hide Values, Earlier;
    forall i | 0 <= i < |queued| && queued[i].id != snapshot.id && IsLatest(queued, i)
      ensures queued[i] in Merge(queued, snapshot)
    {
      assert all[i] == queued[i];
      ValuesKeepLatest(all, i);
    }
  }

  /** The last two of a list. */
  ghost function LastTwo(events: seq<Event>): seq<Event> { if |events| <= 2 then events else events[|events| - 2..] }

  ghost function Broadcasts(events: seq<Event>): seq<Action> { Mapped(events, (e: Event) => Broadcast(e)) }

  /** A client that takes no step keeps exactly the last two broadcasts waiting. */
  lemma {:induction false} QueueKeepsLastTwo(w: World, events: seq<Event>)
    requires |w.client.queue| <= 2
    ensures IsRun(w, Broadcasts(events))
    ensures Final(w, Broadcasts(events)).client == w.client.(queue := LastTwo(w.client.queue + events))
    decreases |events|
  {
    if events == [] {
      assert w.client.queue + events == w.client.queue;
    } else {
      assert Broadcasts(events)[1..] == Broadcasts(events[1..]);
      QueueKeepsLastTwo(Track(w, Broadcast(events[0])), events[1..]);
      LastTwoTwice(w.client.queue, events);
    }
  }

  lemma LastTwoTwice(queue: seq<Event>, events: seq<Event>)
    requires |queue| <= 2 && events != []
    ensures LastTwo(PutLatest(queue, events[0]) + events[1..]) == LastTwo(queue + events)
    ensures |PutLatest(queue, events[0])| <= 2
  {
    assert queue + events == queue + [events[0]] + events[1..];
  }

  // ----- a drained client is up to date -----

  /** Broadcasts arrive in ascending id order. */
  ghost predicate InOrder(w: World, actions: seq<Action>)
    requires IsRun(w, actions)
    decreases |actions|
  {
    actions == [] ||
    ((actions[0].Broadcast? && w.newest.Some? ==> w.newest.value.id < actions[0].event.id)
     && InOrder(Track(w, actions[0]), actions[1..]))
  }

  predicate Drained(c: Client) { !c.waiting && c.pending == [] && c.queue == [] }

  function MaxId(a: nat, b: nat): nat { if a < b then b else a }

  /** What the client will have delivered once its pending events are out. */
  function Reach(c: Client): nat { if c.pending == [] then c.delivered else LastId(c.pending) }

  predicate OnTrack(w: World) {
    && (forall i :: 0 <= i < |w.client.queue| ==> w.client.queue[i].id <= NewestId(w))
    && (w.client.queue == [] ==> Reach(w.client) == MaxId(NewestId(w), w.floor))
    && w.floor <= Reach(w.client) <= MaxId(NewestId(w), w.floor)
    && (w.client.waiting ==> w.floor == 0 && (w.client.queue == [] ==> w.newest.None?))
  }

  lemma LastIsMax(events: seq<Event>, m: nat)
    requires Ascending(events) && m in Ids(events) && forall id :: id in Ids(events) ==> id <= m
    ensures events != [] && LastId(events) == m
  {
    assert events != [];
    assert LastId(events) in Ids(events);
  }

  lemma IdsBelow(events: seq<Event>, m: nat)
    requires forall i :: 0 <= i < |events| ==> events[i].id <= m
    ensures forall id :: id in Ids(events) ==> id <= m
  {
  }

  lemma MergeReaches(queued: seq<Event>, snapshot: Event, newest: nat)
    requires forall i :: 0 <= i < |queued| ==> queued[i].id <= newest
    requires if queued == [] then newest == 0 else newest == LastId(queued)
    ensures Merge(queued, snapshot) != [] && LastId(Merge(queued, snapshot)) == MaxId(newest, snapshot.id)
  {
    MergeSpec(queued, snapshot);
    IdsBelow(queued, newest);
    assert queued != [] ==> newest in Ids(queued);
    hide Merge, Ids;
    LastIsMax(Merge(queued, snapshot), MaxId(newest, snapshot.id));
  }

  lemma StartStaysOnTrack(w: World, source: Source)
    requires OnTrack(w) && Ordered(w.client) && LatestWins(w) && Enabled(w.client, Start(source))
    ensures OnTrack(Track(w, Start(source)))
  {
    match source
    case Snapshot(e) =>
      MergeReaches(w.client.queue, e, NewestId(w));
      hide Merge;
    case _ =>
  }

  lemma NextStaysOnTrack(w: World)
    requires OnTrack(w) && Ordered(w.client) && LatestWins(w) && Enabled(w.client, Next)
    ensures OnTrack(Track(w, Next))
  {
    var c := w.client;
    if c.pending != [] {
      var e := c.pending[0];
      assert (c.sent + c.pending)[|c.sent|] == e;
      assert c.sent != [] ==> (c.sent + c.pending)[|c.sent| - 1] == c.sent[|c.sent| - 1];
      hide Ascending, Merge;
      assert c.pending[1..] == [] ==> LastId(c.pending) == e.id;
      assert c.pending[1..] != [] ==> LastId(c.pending[1..]) == LastId(c.pending);
    }
  }

  lemma StepStaysOnTrack(w: World, a: Action)
    requires OnTrack(w) && Ordered(w.client) && LatestWins(w) && Enabled(w.client, a)
    requires a.Broadcast? && w.newest.Some? ==> w.newest.value.id < a.event.id
    ensures OnTrack(Track(w, a))
  {
    match a
    case Start(source) => StartStaysOnTrack(w, source);
    case Next => NextStaysOnTrack(w);
    case Broadcast(e) => hide Merge;
  }

  lemma {:induction false} RunStaysOnTrack(w: World, actions: seq<Action>)
    requires OnTrack(w) && Ordered(w.client) && LatestWins(w) && IsRun(w, actions) && InOrder(w, actions)
    ensures OnTrack(Final(w, actions)) && Ordered(Final(w, actions).client) && LatestWins(Final(w, actions))
    decreases |actions|
  {
    if actions != [] {
      StepStaysOnTrack(w, actions[0]);
      StepKeepsOrder(w.client, actions[0]);
      StepKeepsLatest(w, actions[0]);
      hide Ordered, LatestWins, OnTrack, Apply, Enabled;
      RunStaysOnTrack(Track(w, actions[0]), actions[1..]);
    }
  }

  /**
   When broadcasts arrive in ascending order, a drained client's last delivered id is the higher of the last broadcast
   and its first events; so it is the last broadcast exactly when the first events were not newer.
   */
  lemma DrainedClientIsUpToDate(actions: seq<Action>)
    requires IsRun(START, actions) && InOrder(START, actions) && Drained(Final(START, actions).client)
    ensures var w := Final(START, actions);
            && LastId(w.client.sent) == MaxId(NewestId(w), w.floor)
            && (LastId(w.client.sent) == NewestId(w) <==> w.floor <= NewestId(w))
  {
    StartIsOnTrack();
    hide Final, Ordered, LatestWins, OnTrack;
    RunStaysOnTrack(START, actions);
    DrainedReach(Final(START, actions));
  }

  lemma StartIsOnTrack()
    ensures OnTrack(START) && Ordered(START.client) && LatestWins(START)
  {
  }

  lemma DrainedReach(w: World)
    requires OnTrack(w) && Ordered(w.client) && Drained(w.client)
    ensures LastId(w.client.sent) == MaxId(NewestId(w), w.floor)
  {
  }

  // ----- broadcasts out of order -----

  predicate Holds(events: seq<Event>, e: Event) { exists i :: 0 <= i < |events| && events[i].id == e.id }

  /** Publish ids are unique: nothing the client holds or has sent carries this one. */
  predicate Fresh(c: Client, e: Event) { !Holds(c.sent, e) && !Holds(c.pending, e) && !Holds(c.queue, e) }

  predicate OnlyNext(actions: seq<Action>) { forall i :: 0 <= i < |actions| ==> actions[i] == Next }

  /** The newest queued event is still ahead of everything the client will have delivered before it. */
  predicate StillAhead(c: Client) {
    && c.queue != []
    && var e := c.queue[|c.queue| - 1];
    && Reach(c) < e.id && forall i :: 0 <= i < |c.queue| - 1 ==> c.queue[i].id < e.id
  }

  predicate LastSent(c: Client, e: Event) { c.sent != [] && c.sent[|c.sent| - 1] == e }

  /** A started client whose queue ends with e, which nothing else it holds or has sent carries. */
  predicate Expecting(c: Client, e: Event) {
    && !c.waiting && Ordered(c) && c.queue != [] && c.queue[|c.queue| - 1] == e
    && !Holds(c.sent, e) && !Holds(c.pending, e) && forall i :: 0 <= i < |c.queue| - 1 ==> c.queue[i].id != e.id
  }

  lemma SnocHolds(events: seq<Event>, f: Event, e: Event)
    ensures Holds(events + [f], e) <==> Holds(events, e) || f.id == e.id
  {
    assert (events + [f])[|events|] == f;
    assert forall i :: 0 <= i < |events| ==> (events + [f])[i] == events[i];
  }

  /** While e is queued behind something, a delivery step keeps it expected and keeps its prospects. */
  lemma NextKeepsProspects(c: Client, e: Event)
    requires Expecting(c, e) && (c.pending != [] || |c.queue| > 1)
    ensures Expecting(Apply(c, Next), e) && (StillAhead(c) <==> StillAhead(Apply(c, Next)))
  {
    StepKeepsOrder(c, Next);
    hide Ascending, Merge;
    var d := Apply(c, Next);
    if c.pending != [] {
      SnocHolds(c.sent, c.pending[0], e);
      assert c.pending == [c.pending[0]] + c.pending[1..];
      PendingReach(c);
    } else {
      SnocHolds(c.sent, c.queue[0], e);
      assert forall i :: 0 <= i < |d.queue| ==> d.queue[i] == c.queue[i + 1];
    }
    hide Ordered;
  }

  lemma PendingReach(c: Client)
    requires Ordered(c) && !c.waiting && c.pending != []
    ensures Reach(Apply(c, Next)) == Reach(c)
  {
    var e := c.pending[0];
    assert (c.sent + c.pending)[|c.sent|] == e;
    assert c.sent != [] ==> (c.sent + c.pending)[|c.sent| - 1] == c.sent[|c.sent| - 1];
    hide Ascending, Merge;
    assert c.pending[1..] != [] ==> LastId(c.pending[1..]) == LastId(c.pending);
  }

  /** Once e is alone it is delivered exactly if it is ahead, and then nothing is left. */
  lemma LastNext(c: Client, e: Event)
    requires Expecting(c, e) && c.pending == [] && |c.queue| == 1
    ensures Drained(Apply(c, Next)) && (LastSent(Apply(c, Next), e) <==> StillAhead(c))
    ensures e in Apply(c, Next).sent <==> StillAhead(c)
  {
    hide Ascending, Merge;
    assert forall i :: 0 <= i < |c.sent| ==> c.sent[i] != e;
    assert (c.sent + [e])[|c.sent|] == e;
  }

  lemma {:induction false} DrainDeliversExactly(w: World, actions: seq<Action>, e: Event)
    requires Expecting(w.client, e) && OnlyNext(actions) && IsRun(w, actions) && Drained(Final(w, actions).client)
    ensures LastSent(Final(w, actions).client, e) <==> StillAhead(w.client)
    ensures e in Final(w, actions).client.sent <==> StillAhead(w.client)
    decreases |actions|
  {
    if actions != [] {
      assert actions[0] == Next;
      var next := Track(w, Next);
      if w.client.pending != [] || |w.client.queue| > 1 {
        NextKeepsProspects(w.client, e);
        hide Expecting, StillAhead, Apply, Enabled, Drained, LastSent;
        DrainDeliversExactly(next, actions[1..], e);
      } else {
        LastNext(w.client, e);
        hide Expecting, StillAhead, Apply, LastSent;
        NothingAfterDrain(next, actions[1..]);
      }
    }
  }

  lemma NothingAfterDrain(w: World, actions: seq<Action>)
    requires Drained(w.client) && OnlyNext(actions) && IsRun(w, actions)
    ensures Final(w, actions) == w
  {
  }

  /** What the queue still holds ahead of a broadcast: its last event, if there is one. */
  function Retained(c: Client): Option<Event> { if c.queue == [] then None else Some(c.queue[|c.queue| - 1]) }

  lemma BroadcastProspects(c: Client, e: Event)
    requires !c.waiting && Ordered(c) && |c.queue| <= QUEUE_LIMIT && Fresh(c, e)
    ensures Expecting(Apply(c, Broadcast(e)), e)
    ensures StillAhead(Apply(c, Broadcast(e))) <==> Reach(c) < e.id && (Retained(c).Some? ==> Retained(c).value.id < e.id)
  {
    hide Ascending, Merge;
    var queue := Apply(c, Broadcast(e)).queue;
    assert queue[|queue| - 1] == e;
    assert |queue| > 1 ==> |queue| == 2 && queue[0] == c.queue[|c.queue| - 1];
  }

  /**
   In or out of order: with no further broadcast, a started client ends on e, and delivers e at all, exactly when e is
   newer than everything still ahead of it, which is known when e is broadcast.
   */
  lemma BroadcastIsDeliveredExactly(w: World, e: Event, actions: seq<Action>)
    requires !w.client.waiting && Ordered(w.client) && |w.client.queue| <= QUEUE_LIMIT && Fresh(w.client, e)
    requires OnlyNext(actions) && IsRun(Track(w, Broadcast(e)), actions) && Drained(Final(Track(w, Broadcast(e)), actions).client)
    ensures var c, done := w.client, Final(Track(w, Broadcast(e)), actions).client;
            && (LastSent(done, e) <==> Reach(c) < e.id && (Retained(c).Some? ==> Retained(c).value.id < e.id))
            && (e in done.sent <==> LastSent(done, e))
  {
    BroadcastProspects(w.client, e);
    hide Ordered, Fresh, Expecting, StillAhead, Apply, Reach, Retained, LastSent;
    DrainDeliversExactly(Track(w, Broadcast(e)), actions, e);
  }

  // ----- concrete runs -----

  const HIGH: Event := Event(2, "snapshot")
  const LOW: Event := Event(1, "heartbeat")

  /** In order, and yet the drained client ends on its snapshot, which was newer than the last broadcast. */
  lemma SnapshotCanBeNewer()
    ensures var actions := [Broadcast(LOW), Start(Snapshot(HIGH)), Next, Next];
            && IsRun(START, actions) && InOrder(START, actions)
            && Drained(Final(START, actions).client) && Final(START, actions).client.sent == [LOW, HIGH]
            && Final(START, actions).newest == Some(LOW) && Final(START, actions).floor > NewestId(Final(START, actions))
  {
    var w1 := Track(START, Broadcast(LOW));
    assert w1.client.queue == [LOW];
    MergedPair();
    var w2 := Track(w1, Start(Snapshot(HIGH)));
    assert w2.client.pending == [LOW, HIGH];
    var w3 := Track(w2, Next);
    assert w3.client.pending == [HIGH] && w3.client.sent == [LOW];
    var w4 := Track(w3, Next);
    hide Merge;
    InOrderOfOne(w3, Next);
    InOrderOfMore(w2, Next, [Next]);
    InOrderOfMore(w1, Start(Snapshot(HIGH)), [Next, Next]);
    InOrderOfMore(START, Broadcast(LOW), [Start(Snapshot(HIGH)), Next, Next]);
    assert [Next] + [Next] == [Next, Next];
    assert [Start(Snapshot(HIGH))] + [Next, Next] == [Start(Snapshot(HIGH)), Next, Next];
    assert [Broadcast(LOW)] + [Start(Snapshot(HIGH)), Next, Next] == [Broadcast(LOW), Start(Snapshot(HIGH)), Next, Next];
  }

  lemma MergedPair()
    ensures Merge([LOW], HIGH) == [LOW, HIGH]
  {
    var all := [LOW] + [HIGH];
    assert all[..1] == [LOW] && [LOW][..0] == [];
    assert Values([LOW]) == [LOW];
    assert Values(all) == [LOW, HIGH];
    var values := [LOW, HIGH];
    assert values[..1] == [LOW];
    assert SortBy([LOW], Earlier) == [LOW];
    assert SortBy(values, Earlier) == Insert([LOW], HIGH, Earlier);
  }

  lemma InOrderOfMore(w: World, a: Action, rest: seq<Action>)
    requires Enabled(w.client, a) && IsRun(Track(w, a), rest) && InOrder(Track(w, a), rest)
    requires a.Broadcast? && w.newest.Some? ==> w.newest.value.id < a.event.id
    ensures IsRun(w, [a] + rest) && InOrder(w, [a] + rest) && Final(w, [a] + rest) == Final(Track(w, a), rest)
  {
    assert ([a] + rest)[1..] == rest;
  }

  lemma InOrderOfOne(w: World, a: Action)
    requires Enabled(w.client, a) && !a.Broadcast?
    ensures IsRun(w, [a]) && InOrder(w, [a]) && Final(w, [a]) == Track(w, a)
  {
    assert [a][1..] == [];
  }

  /** Out of order the claim fails: a broadcast that arrives behind a higher id is never delivered. */
  lemma OvertakenBroadcastIsSkipped()
    ensures var actions := [Start(NoSnapshot), Broadcast(HIGH), Broadcast(LOW), Next, Next];
            && IsRun(START, actions)
            && Drained(Final(START, actions).client) && Final(START, actions).client.sent == [HIGH]
            && Final(START, actions).newest == Some(LOW)
  {
    var actions := [Start(NoSnapshot), Broadcast(HIGH), Broadcast(LOW), Next, Next];
    var w1 := Track(START, actions[0]);
    var w2 := Track(w1, actions[1]);
    var w3 := Track(w2, actions[2]);
    var w4 := Track(w3, Next);
    var w5 := Track(w4, Next);
    assert w3.client.queue == [HIGH, LOW];
    assert w4.client.queue == [LOW] && w4.client.sent == [HIGH];
    RunOfOne(w4, Next);
    RunOfMore(w3, Next, [Next]);
    RunOfMore(w2, Broadcast(LOW), [Next, Next]);
    RunOfMore(w1, Broadcast(HIGH), [Broadcast(LOW), Next, Next]);
    RunOfMore(START, Start(NoSnapshot), [Broadcast(HIGH), Broadcast(LOW), Next, Next]);
    assert [Next] + [Next] == [Next, Next];
    assert [Broadcast(LOW)] + [Next, Next] == [Broadcast(LOW), Next, Next];
    assert [Broadcast(HIGH)] + [Broadcast(LOW), Next, Next] == [Broadcast(HIGH), Broadcast(LOW), Next, Next];
    assert actions == [Start(NoSnapshot)] + [Broadcast(HIGH), Broadcast(LOW), Next, Next];
  }

  lemma RunOfMore(w: World, a: Action, rest: seq<Action>)
    requires Enabled(w.client, a) && IsRun(Track(w, a), rest)
    ensures IsRun(w, [a] + rest) && Final(w, [a] + rest) == Final(Track(w, a), rest)
  {
    assert ([a] + rest)[1..] == rest;
  }

  lemma RunOfOne(w: World, a: Action)
    requires Enabled(w.client, a)
    ensures IsRun(w, [a]) && Final(w, [a]) == Track(w, a)
  {
    assert [a][1..] == [];
  }
}
