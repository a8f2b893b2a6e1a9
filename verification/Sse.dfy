/** Fan-out of published events to server-sent-event subscribers with bounded queues. */
module Sse {
  const MAX_HISTORY := 100
  const REPLAY := 50
  const QUEUE_SIZE := 256

  datatype SseEvent = SseEvent(event: string, data: map<string, string>, id: nat)

  type Events = seq<SseEvent>

  function Last(s: Events, n: nat): Events {
    if |s| <= n then s else s[|s| - n..]
  }

  /** What became of one subscriber: what its reader has taken, how long the log was when it joined,
      and up to where the log was put into its queue. */
  datatype Reader = Reader(received: Events, joined: nat, end: nat)

  /** The broadcaster's history and queues, the queues it has let go of but that still have a reader,
      and beside them everything ever published and every reader. */
  datatype World = World(
    history: Events, queues: map<nat, Events>, orphans: map<nat, Events>, log: Events, readers: map<nat, Reader>)

  const EMPTY := World([], map[], map[], [], map[])

  // ----- steps -----------------------------------------------------------------------

  datatype Step = Subscribe(id: nat) | Unsubscribe(id: nat) | Publish(event: SseEvent) | Take(id: nat)

  predicate Full(q: Events) { |q| >= QUEUE_SIZE }

  function Pushed(queues: map<nat, Events>, e: SseEvent): map<nat, Events> {
    map id | id in queues && !Full(queues[id]) :: queues[id] + [e]
  }

  function Dropped(queues: map<nat, Events>): map<nat, Events> {
    map id | id in queues && Full(queues[id]) :: queues[id]
  }

  function Unread(w: World, id: nat): Events {
    if id in w.queues then w.queues[id] else if id in w.orphans then w.orphans[id] else []
  }

  predicate Enabled(w: World, step: Step) {
    match step
    case Subscribe(id) => id !in w.readers
    case Take(id) => id in w.readers && Unread(w, id) != []
    case _ => true
  }

  function Perform(w: World, step: Step): World
    requires Enabled(w, step)
  {
    match step
    case Subscribe(id) =>
      w.(queues := w.queues[id := Last(w.history, REPLAY)], readers := w.readers[id := Reader([], |w.log|, |w.log|)])
    case Unsubscribe(id) =>
      if id in w.queues then w.(queues := w.queues - {id}, orphans := w.orphans[id := w.queues[id]]) else w
    case Publish(e) =>
      World(Last(w.history + [e], MAX_HISTORY), Pushed(w.queues, e), w.orphans + Dropped(w.queues), w.log + [e],
            map id | id in w.readers ::
              if id in w.queues && !Full(w.queues[id]) then w.readers[id].(end := |w.log| + 1) else w.readers[id])
    case Take(id) =>
      var q, r := Unread(w, id), w.readers[id];
      var w' := w.(readers := w.readers[id := r.(received := r.received + [q[0]])]);
      if id in w.queues then w'.(queues := w.queues[id := q[1..]]) else w'.(orphans := w.orphans[id := q[1..]])
  }

  predicate IsRun(steps: seq<Step>)
    decreases |steps|, 0
  {
    steps == [] || (IsRun(steps[..|steps| - 1]) && Enabled(Run(steps[..|steps| - 1]), steps[|steps| - 1]))
  }

  function Run(steps: seq<Step>): World
    requires IsRun(steps)
    decreases |steps|, 1
  {
    if steps == [] then EMPTY else Perform(Run(steps[..|steps| - 1]), steps[|steps| - 1])
  }

  // ----- every subscriber sees one gap-free stretch of the log ---------------------------------

  function Start(joined: nat): nat { if joined <= REPLAY then 0 else joined - REPLAY }

  /** Received and queued together are the log from at most 50 events before joining up to `end`. */
  ghost predicate Stretch(w: World, id: nat)
    requires id in w.readers
  {
    var r := w.readers[id];
    r.joined <= r.end <= |w.log| && r.received + Unread(w, id) == w.log[Start(r.joined)..r.end]
  }

  ghost predicate ReaderOk(w: World, id: nat)
    requires id in w.readers
  {
    && Stretch(w, id)
    && (id in w.queues ==> w.readers[id].end == |w.log| && |w.queues[id]| <= QUEUE_SIZE && id !in w.orphans)
  }

  ghost predicate Inv(w: World) {
    && w.history == Last(w.log, MAX_HISTORY)
    && (forall id :: id in w.queues || id in w.orphans ==> id in w.readers)
    && (forall id :: id in w.readers ==> ReaderOk(w, id))
  }

  lemma LastOfLast(log: Events, e: SseEvent)
    ensures Last(Last(log, MAX_HISTORY) + [e], MAX_HISTORY) == Last(log + [e], MAX_HISTORY)
  {
  }

  lemma ReplayOfHistory(log: Events)
    ensures Last(Last(log, MAX_HISTORY), REPLAY) == log[Start(|log|)..]
  {
  }

  lemma SliceSnoc(log: Events, e: SseEvent, start: nat, end: nat)
    requires start <= end <= |log|
    ensures (log + [e])[start..end] == log[start..end]
    ensures end == |log| ==> (log + [e])[start..end + 1] == log[start..end] + [e]
  {
  }

  lemma PublishKeepsReader(w: World, e: SseEvent, id: nat)
    requires id in w.readers && ReaderOk(w, id)
    ensures ReaderOk(Perform(w, Publish(e)), id)
  {
    var w', r := Perform(w, Publish(e)), w.readers[id];
    hide Last;
    SliceSnoc(w.log, e, Start(r.joined), r.end);
    if id in w.queues && !Full(w.queues[id]) {
      assert Unread(w', id) == Unread(w, id) + [e];
      assert r.received + (Unread(w, id) + [e]) == (r.received + Unread(w, id)) + [e];
    } else {
      assert Unread(w', id) == Unread(w, id);
    }
  }

  lemma TakeKeepsReader(w: World, id: nat)
    requires Enabled(w, Take(id)) && ReaderOk(w, id)
    ensures ReaderOk(Perform(w, Take(id)), id)
  {
    var r, q := w.readers[id], Unread(w, id);
    assert (r.received + [q[0]]) + q[1..] == r.received + q;
  }

  lemma SubscribeKeepsReader(w: World, id: nat)
    requires Inv(w) && Enabled(w, Subscribe(id))
    ensures ReaderOk(Perform(w, Subscribe(id)), id)
  {
    ReplayOfHistory(w.log);
    assert w.log[Start(|w.log|)..|w.log|] == w.log[Start(|w.log|)..];
  }

  lemma BystanderKeepsReader(w: World, step: Step, id: nat)
    requires id in w.readers && ReaderOk(w, id) && Enabled(w, step)
    requires !step.Publish? && step != Take(id) && step != Subscribe(id)
    ensures ReaderOk(Perform(w, step), id)
  {
    hide Last;
    assert Unread(Perform(w, step), id) == Unread(w, id);
  }

  lemma StepKeepsReader(w: World, step: Step, id: nat)
    requires Inv(w) && Enabled(w, step) && id in Perform(w, step).readers
    ensures ReaderOk(Perform(w, step), id)
  {
    if step == Subscribe(id) {
      SubscribeKeepsReader(w, id);
    } else {
      assert id in w.readers && ReaderOk(w, id);
      hide ReaderOk, Perform, Inv;
      if step.Publish? {
        PublishKeepsReader(w, step.event, id);
      } else if step == Take(id) {
        TakeKeepsReader(w, id);
      } else {
        BystanderKeepsReader(w, step, id);
      }
    }
  }

  lemma StepKeepsInv(w: World, step: Step)
    requires Inv(w) && Enabled(w, step)
    ensures Inv(Perform(w, step))
  {
    var w' := Perform(w, step);
    forall id | id in w'.readers ensures ReaderOk(w', id) {
      StepKeepsReader(w, step, id);
    }
    if step.Publish? {
      LastOfLast(w.log, step.event);
    }
    hide ReaderOk, Last;
  }

  /** In every reachable state the history is the last 100 events, and every subscriber has received or
      queued exactly one stretch of the log: no gap, no duplicate, no reordering.  For a live one it
      reaches up to now, and its queue has room for the replay and at most 256 events. */
  lemma SubscribersSeeStretches(steps: seq<Step>)
    requires IsRun(steps)
    ensures var w := Run(steps);
            && |w.history| == (if |w.log| <= 100 then |w.log| else 100) && w.history == w.log[|w.log| - |w.history|..]
            && (forall id :: id in w.queues ==> id in w.readers && w.readers[id].end == |w.log| && |w.queues[id]| <= 256)
            && forall id :: id in w.readers ==>
                 var r := w.readers[id];
                 && r.joined <= r.end <= |w.log|
                 && r.received + Unread(w, id) == w.log[if r.joined <= 50 then 0 else r.joined - 50..r.end]
  {
    RunKeepsInv(steps);
    var w := Run(steps);
    hide Run, IsRun, Unread;
    forall id | id in w.readers
      ensures var r := w.readers[id];
              && r.joined <= r.end <= |w.log|
              && r.received + Unread(w, id) == w.log[if r.joined <= 50 then 0 else r.joined - 50..r.end]
    {
      assert ReaderOk(w, id);
    }
    forall id | id in w.queues ensures id in w.readers && w.readers[id].end == |w.log| && |w.queues[id]| <= 256 {
      assert ReaderOk(w, id);
    }
  }

  lemma {:induction false} RunKeepsInv(steps: seq<Step>)
    requires IsRun(steps)
    ensures Inv(Run(steps))
  {
    if steps != [] {
      RunKeepsInv(steps[..|steps| - 1]);
      StepKeepsInv(Run(steps[..|steps| - 1]), steps[|steps| - 1]);
    }
  }

  /** A publish drops a live subscriber iff 256 events are unread in its queue.  What it has taken and
      what is still queued then ends right before the event that did not fit. */
  lemma DroppedIffFull(steps: seq<Step>, e: SseEvent, id: nat)
    requires IsRun(steps) && id in Run(steps).queues
    ensures var w, w' := Run(steps), Perform(Run(steps), Publish(e));
            && (id !in w'.queues <==> |w.queues[id]| == 256)
            && id in w'.readers && w'.readers[id].joined <= |w.log|
            && (id !in w'.queues ==>
                  w'.readers[id].received + Unread(w', id)
                  == w.log[if w'.readers[id].joined <= 50 then 0 else w'.readers[id].joined - 50..])
  {
    RunKeepsInv(steps);
    var w := Run(steps);
    hide Run, IsRun;
    assert ReaderOk(w, id);
    hide ReaderOk;
    assert w.log[Start(w.readers[id].joined)..|w.log|] == w.log[Start(w.readers[id].joined)..];
  }

  /** A dropped reader is never told: it can read its queue to the end, and then gets nothing more. */
  lemma {:induction false} DroppedGetsNothingMore(w: World, steps: seq<Step>, id: nat)
    requires Inv(w) && id in w.readers && id !in w.queues && IsRunFrom(w, steps)
    ensures var w' := RunFrom(w, steps);
            && Inv(w') && id in w'.readers && id !in w'.queues
            && w'.readers[id].received + Unread(w', id) == w.readers[id].received + Unread(w, id)
  {
    if steps != [] {
      var n := |steps| - 1;
      DroppedGetsNothingMore(w, steps[..n], id);
      var mid := RunFrom(w, steps[..n]);
      StepKeepsInv(mid, steps[n]);
      hide Inv, Last, RunFrom, IsRunFrom;
      if steps[n] == Take(id) {
        var r, q := mid.readers[id], Unread(mid, id);
        assert (r.received + [q[0]]) + q[1..] == r.received + q;
      }
    }
  }

  predicate IsRunFrom(w: World, steps: seq<Step>)
    decreases |steps|, 0
  {
    steps == [] || (IsRunFrom(w, steps[..|steps| - 1]) && Enabled(RunFrom(w, steps[..|steps| - 1]), steps[|steps| - 1]))
  }

  function RunFrom(w: World, steps: seq<Step>): World
    requires IsRunFrom(w, steps)
    decreases |steps|, 1
  {
    if steps == [] then w else Perform(RunFrom(w, steps[..|steps| - 1]), steps[|steps| - 1])
  }

  // ----- the broadcaster -----------------------------------------------------------------------

  lemma PushedSpec(before: map<nat, Events>, e: SseEvent, after: map<nat, Events>)
    requires forall id :: id in after <==> id in before && !Full(before[id])
    requires forall id :: id in after ==> after[id] == before[id] + [e]
    ensures after == Pushed(before, e)
  {
  }

  class EventQueue {
    const maxsize: nat
    var items: Events

    constructor (maxsize: nat)
      ensures this.maxsize == maxsize && items == []
    {
      this.maxsize := maxsize;
      items := [];
    }

    method PutNowait(e: SseEvent) returns (ok: bool)
      modifies this
      ensures ok <==> |old(items)| < maxsize
      ensures items == if ok then old(items) + [e] else old(items)
    {
      ok := |items| < maxsize;
      if ok {
        items := items + [e];
      }
    }
  }

  class SseBroadcaster {
    var queues: map<nat, EventQueue>
    var history: Events
    ghost var owned: set<EventQueue>

    constructor ()
      ensures Valid() && queues == map[] && history == [] && owned == {}
    {
      queues, history, owned := map[], [], {};
    }

    ghost predicate Valid()
      reads this, owned
    {
      && |history| <= MAX_HISTORY
      && (forall id :: id in queues ==> queues[id] in owned && queues[id].maxsize == QUEUE_SIZE && |queues[id].items| <= QUEUE_SIZE)
      && (forall a, b :: a in queues && b in queues && a != b ==> queues[a] != queues[b])
    }

    ghost function Contents(): map<nat, Events>
      requires Valid()
      reads this, owned
    {
      map id | id in queues :: queues[id].items
    }

    /** The replay always fits: the loop never breaks. */
    method Subscribe(id: nat) returns (queue: EventQueue)
      requires Valid() && id !in queues
      modifies this
      ensures Valid() && fresh(queue) && owned == old(owned) + {queue} && history == old(history)
      ensures queues == old(queues)[id := queue]
      ensures Contents() == old(Contents())[id := if |history| <= 50 then history else history[|history| - 50..]]
    {
      queue := new EventQueue(QUEUE_SIZE);
      queues, owned := queues[id := queue], owned + {queue};
      var replay := Last(history, REPLAY);
      for i := 0 to |replay|
        invariant queue.items == replay[..i]
        modifies queue
      {
        var ok := queue.PutNowait(replay[i]);
        assert ok;
        if !ok {
          break;
        }
      }
      assert replay[..|replay|] == replay;
    }

    method Unsubscribe(id: nat)
      requires Valid()
      modifies this`queues
      ensures Valid() && Contents() == old(Contents()) - {id}
    {
      queues := queues - {id};
    }

    /** Put the event into every queue, and collect the subscribers whose queue had no room. */
    method Offer(e: SseEvent) returns (dead: set<nat>)
      requires Valid()
      modifies owned
      ensures forall id :: id in dead <==> id in queues && Full(old(queues[id].items))
      ensures forall id :: id in queues ==>
                queues[id].items == if Full(old(queues[id].items)) then old(queues[id].items) else old(queues[id].items) + [e]
    {
      dead := {};
      var rest := queues.Keys;
      while rest != {}
        invariant rest <= queues.Keys
        invariant forall id :: id in dead <==> id in queues && id !in rest && Full(old(queues[id].items))
        invariant forall id :: id in queues && id in rest ==> queues[id].items == old(queues[id].items)
        invariant forall id :: id in queues && id !in rest ==>
                    queues[id].items == if Full(old(queues[id].items)) then old(queues[id].items) else old(queues[id].items) + [e]
        decreases |rest|
      {
        var id :| id in rest;
        var ok := queues[id].PutNowait(e);
        if !ok {
          dead := dead + {id};
        }
        rest := rest - {id};
      }
    }

    method Publish(e: SseEvent)
      requires Valid()
      modifies this`history, this`queues, owned
      ensures Valid()
      ensures var all := old(history) + [e]; history == if |all| <= 100 then all else all[|all| - 100..]
      ensures forall id :: id in queues <==> id in old(queues) && |old(Contents())[id]| < 256
      ensures forall id :: id in queues ==> queues[id] == old(queues)[id] && queues[id].items == old(Contents())[id] + [e]
    {
      history := Last(history + [e], MAX_HISTORY);
      ghost var before := old(Contents());
      var dead := Offer(e);
      queues := queues - dead;
      PushedSpec(before, e, Contents());
    }
  }
}
