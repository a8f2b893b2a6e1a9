/** The audit outbox seen sequentially: one attempt at a time, in one atomic step. */
module Outbox {
  import opened Prelude

  /** Microseconds, the resolution of the stored timestamps. */
  type Time = int

  const SECOND: int := 1_000_000
  const MAX_ACTION := 50
  const MAX_USER := 255

  datatype Config = Config(maxAttempts: nat, batchSize: nat) {
    predicate Valid() { maxAttempts >= 1 }
  }

  // ----- rows ------------------------------------------------------------------------

  datatype Value = Null | Text(text: string) | Other

  type Payload = map<string, Value>

  datatype Status = Pending | Completed | Failed

  datatype Event = Event(
    payload: Payload, status: Status, attempts: nat, nextAttempt: Time, createdAt: Time,
    deliveredAt: Option<Time>, lastError: Option<string>)

  datatype LogRow = LogRow(node: Option<nat>, action: string, user: Option<string>, details: Option<string>, createdAt: Time)

  /** Event ids are positions in the outbox. */
  datatype Db = Db(outbox: seq<Event>, log: map<nat, LogRow>)

  const EMPTY := Db([], map[])

  // ----- what one delivery meets ----------------------------------------------------------

  datatype Uuids = Uuids(show: nat -> string, parse: string -> Option<nat>)

  ghost predicate Faithful(uuids: Uuids) {
    forall u: nat :: uuids.show(u) != "" && uuids.parse(uuids.show(u)) == Some(u)
  }

  /** The nodes that exist, an error of the database itself, and the instant of the insert. */
  datatype Context = Context(uuids: Uuids, nodes: set<nat>, fault: Option<string>, at: Time)

  datatype Outcome = Stored(row: LogRow) | AlreadyStored | Failure(error: string)

  function Get(p: Payload, key: string): Value {
    if key in p then p[key] else Null
  }

  function NodeOf(ctx: Context, p: Payload): Result<Option<nat>, string> {
    match Get(p, "node_id")
    case Other => Err("ValueError")
    case Null => Ok(None)
    case Text(text) =>
      if text == "" then Ok(None)
      else match ctx.uuids.parse(text)
        case None => Err("ValueError")
        case Some(node) => Ok(if node in ctx.nodes then Some(node) else None)
  }

  function TextOrNull(v: Value): Option<string> {
    if v.Text? then Some(v.text) else None
  }

  function ToAuditLog(ctx: Context, p: Payload): Result<LogRow, string> {
    match NodeOf(ctx, p)
    case Err(e) => Err(e)
    case Ok(node) =>
      var action, user, details := Get(p, "action"), Get(p, "user"), Get(p, "details");
      if !action.Text? || user.Other? || details.Other? then Err("ValueError")
      else Ok(LogRow(node, action.text, TextOrNull(user), TextOrNull(details), ctx.at))
  }

  /** The column widths of the log, checked when the row is flushed. */
  predicate Fits(row: LogRow) {
    |row.action| <= MAX_ACTION && (row.user.Some? ==> |row.user.value| <= MAX_USER)
  }

  function DeliveryOutcome(known: bool, p: Payload, ctx: Context): Outcome {
    if ctx.fault.Some? then Failure(ctx.fault.value)
    else if known then AlreadyStored
    else match ToAuditLog(ctx, p)
      case Err(e) => Failure(e)
      case Ok(row) => if Fits(row) then Stored(row) else Failure("DBAPIError")
  }

  // ----- enqueueing ---------------------------------------------------------------------------

  datatype AuditEvent = AuditEvent(action: string, node: Option<nat>, user: Option<string>, details: Option<string>)

  function OrNull(s: Option<string>): Value {
    match s case None => Null case Some(text) => Text(text)
  }

  /** The JSON payload of an event; `details` is already serialised. */
  function PayloadOf(e: AuditEvent, uuids: Uuids): Payload {
    map["node_id" := if e.node.Some? then Text(uuids.show(e.node.value)) else Null,
        "action" := Text(e.action), "user" := OrNull(e.user), "details" := OrNull(e.details)]
  }

  /** A payload the application enqueues never fails to convert: every field comes back, except a
      node that has gone, and it is stored iff its action has at most 50 characters and its user at most
      255. */
  lemma EnqueuedPayloadConverts(e: AuditEvent, ctx: Context)
    requires Faithful(ctx.uuids) && ctx.fault.None?
    ensures var row := LogRow(if e.node.Some? && e.node.value in ctx.nodes then e.node else None,
                              e.action, e.user, e.details, ctx.at);
            DeliveryOutcome(false, PayloadOf(e, ctx.uuids), ctx)
            == if |e.action| <= 50 && (e.user.Some? ==> |e.user.value| <= 255) then Stored(row) else Failure("DBAPIError")
  {
    var p := PayloadOf(e, ctx.uuids);
    assert Get(p, "details") == OrNull(e.details) && Get(p, "user") == OrNull(e.user) && Get(p, "action") == Text(e.action);
    assert Get(p, "node_id") == if e.node.Some? then Text(ctx.uuids.show(e.node.value)) else Null;
    hide PayloadOf, Get;
    if e.node.Some? {
      assert ctx.uuids.parse(ctx.uuids.show(e.node.value)) == e.node;
    }
  }

  /** A field that is absent or null, or holds this text. */
  predicate TextField(p: Payload, key: string, v: Option<string>) {
    match v
    case None => key !in p || p[key] == Null
    case Some(text) => key in p && p[key] == Text(text)
  }

  /** Which payloads convert, whoever wrote them, and to what: a text action, an optional user and
      optional details, and a node that is absent, empty, or the text of an id; of that only a node that
      still exists is kept. */
  lemma ConvertsIff(p: Payload, ctx: Context, row: LogRow)
    ensures ToAuditLog(ctx, p) == Ok(row)
            <==> && TextField(p, "action", Some(row.action)) && TextField(p, "user", row.user) && TextField(p, "details", row.details)
                 && row.createdAt == ctx.at
                 && (exists text :: TextField(p, "node_id", text)
                       && if text.None? || text.value == "" then row.node == None
                          else ctx.uuids.parse(text.value).Some?
                               && row.node == if ctx.uuids.parse(text.value).value in ctx.nodes then ctx.uuids.parse(text.value) else None)
    ensures ToAuditLog(ctx, p).Err? ==> ToAuditLog(ctx, p).error == "ValueError"
  {
    var node := Get(p, "node_id");
    assert !node.Other? ==> TextField(p, "node_id", TextOrNull(node));
  }

  /** One delivery: a fault of the database fails it, a row that is there already settles it, and otherwise
      it is stored iff its payload converts to a row that fits its columns. */
  lemma DeliveryStoresIff(known: bool, p: Payload, ctx: Context, row: LogRow)
    ensures DeliveryOutcome(known, p, ctx) == Stored(row)
            <==> ctx.fault.None? && !known && ToAuditLog(ctx, p) == Ok(row)
                 && |row.action| <= 50 && (row.user.Some? ==> |row.user.value| <= 255)
    ensures DeliveryOutcome(known, p, ctx).AlreadyStored? <==> ctx.fault.None? && known
  {
    hide ToAuditLog;
  }

  // ----- one attempt ----------------------------------------------------------------------------

  function Pow2(n: nat): (p: nat)
    ensures p >= 1
  {
    if n == 0 then 1 else 2 * Pow2(n - 1)
  }

  /** Seconds to wait after the given number of attempts. */
  function Delay(attempts: nat): nat
    requires attempts >= 1
  {
    if Pow2(attempts - 1) <= 300 then Pow2(attempts - 1) else 300
  }

  function Settled(cfg: Config, e: Event, now: Time, o: Outcome): Event {
    var n := e.attempts + 1;
    if !o.Failure? then e.(attempts := n, status := Completed, lastError := None, deliveredAt := Some(now))
    else if n >= cfg.maxAttempts then e.(attempts := n, lastError := Some(o.error), status := Failed)
    else e.(attempts := n, lastError := Some(o.error), nextAttempt := now + Delay(n) * SECOND)
  }

  function Settle(cfg: Config, db: Db, id: nat, now: Time, o: Outcome): Db
    requires id < |db.outbox|
  {
    Db(db.outbox[id := Settled(cfg, db.outbox[id], now, o)], if o.Stored? then db.log[id := o.row] else db.log)
  }

  /** What an attempt does to its event, said of every field: the attempt is counted; a failure keeps the
      event pending, for min(300, 2^(n-1)) seconds after the n-th, or gives it up at the last; anything else
      completes it. */
  lemma AttemptIs(cfg: Config, e: Event, now: Time, o: Outcome)
    ensures var e', n := Settled(cfg, e, now, o), e.attempts + 1;
            && e'.attempts == n && e'.payload == e.payload && e'.createdAt == e.createdAt
            && (o.Failure? ==> e'.lastError == Some(o.error) && e'.deliveredAt == e.deliveredAt)
            && (o.Failure? && n < cfg.maxAttempts ==>
                  e'.status == e.status
                  && e'.nextAttempt == now + 1_000_000 * (if Pow2(n - 1) <= 300 then Pow2(n - 1) else 300))
            && (o.Failure? && n >= cfg.maxAttempts ==> e'.status == Failed && e'.nextAttempt == e.nextAttempt)
            && (!o.Failure? ==> e'.status == Completed && e'.lastError == None && e'.deliveredAt == Some(now))
  {
    hide Pow2;
  }

  // ----- the sequential machine --------------------------------------------------------------------

  datatype Act =
    | Enqueue(payload: Payload, createdAt: Time, nextAttempt: Time)
    | Attempt(id: nat, now: Time, ctx: Context)
    | Purge(cutoff: Time)

  predicate Due(db: Db, id: nat, now: Time) {
    id < |db.outbox| && db.outbox[id].status == Pending && db.outbox[id].nextAttempt <= now
  }

  predicate Enabled(db: Db, a: Act) {
    a.Attempt? ==> Due(db, a.id, a.now)
  }

  function OutcomeOf(db: Db, id: nat, ctx: Context): Outcome
    requires id < |db.outbox|
  {
    DeliveryOutcome(id in db.log, db.outbox[id].payload, ctx)
  }

  function Expired(db: Db, cutoff: Time): set<nat> {
    set id | id in db.log && db.log[id].createdAt < cutoff
  }

  function Perform(cfg: Config, db: Db, a: Act): Db
    requires Enabled(db, a)
  {
    match a
    case Enqueue(payload, createdAt, nextAttempt) =>
      db.(outbox := db.outbox + [Event(payload, Pending, 0, nextAttempt, createdAt, None, None)])
    case Attempt(id, now, ctx) => Settle(cfg, db, id, now, OutcomeOf(db, id, ctx))
    case Purge(cutoff) => db.(log := db.log - Expired(db, cutoff))
  }

  /** From when an event can be claimed: one that was enqueued from its first attempt on, one that failed
      and is not given up from the end of its delay on, and one that is settled never. */
  lemma DueIff(cfg: Config, db: Db, a: Act, t: Time)
    requires Enabled(db, a)
    ensures var db' := Perform(cfg, db, a);
            match a
            case Enqueue(payload, createdAt, nextAttempt) =>
              && |db'.outbox| == |db.outbox| + 1 && db'.outbox[..|db.outbox|] == db.outbox && db'.log == db.log
              && db'.outbox[|db.outbox|].payload == payload && db'.outbox[|db.outbox|].createdAt == createdAt
              && (Due(db', |db.outbox|, t) <==> t >= nextAttempt)
            case Attempt(id, now, ctx) =>
              var n := db.outbox[id].attempts + 1;
              && |db'.outbox| == |db.outbox| && (forall k :: 0 <= k < |db.outbox| && k != id ==> db'.outbox[k] == db.outbox[k])
              && (Due(db', id, t) <==> OutcomeOf(db, id, ctx).Failure? && n < cfg.maxAttempts
                                       && t >= now + 1_000_000 * (if Pow2(n - 1) <= 300 then Pow2(n - 1) else 300))
            case Purge(cutoff) =>
              db'.outbox == db.outbox && forall id, row ::
                id in db'.log && db'.log[id] == row <==> id in db.log && db.log[id] == row && row.createdAt >= cutoff
  {
    hide DeliveryOutcome, Pow2;
  }

  ghost predicate Legal(cfg: Config, db: Db, acts: seq<Act>)
    decreases |acts|, 0
  {
    acts == [] ||
    (Legal(cfg, db, acts[..|acts| - 1]) && Enabled(RunActs(cfg, db, acts[..|acts| - 1]), acts[|acts| - 1]))
  }

  ghost function RunActs(cfg: Config, db: Db, acts: seq<Act>): Db
    requires Legal(cfg, db, acts)
    decreases |acts|, 1
  {
    if acts == [] then db else Perform(cfg, RunActs(cfg, db, acts[..|acts| - 1]), acts[|acts| - 1])
  }

  lemma {:induction false} RunActsAppend(cfg: Config, db: Db, a: seq<Act>, b: seq<Act>)
    requires Legal(cfg, db, a) && Legal(cfg, RunActs(cfg, db, a), b)
    ensures Legal(cfg, db, a + b) && RunActs(cfg, db, a + b) == RunActs(cfg, RunActs(cfg, db, a), b)
  {
    if b == [] {
      assert a + b == a;
    } else {
      var n := |b| - 1;
      RunActsAppend(cfg, db, a, b[..n]);
      assert (a + b)[..|a + b| - 1] == a + b[..n];
    }
  }

  // ----- every state keeps this ---------------------------------------------------------------------

  predicate EventOk(cfg: Config, e: Event, logged: bool) {
    match e.status
    case Pending => e.attempts < cfg.maxAttempts && !logged
    case Failed => e.attempts == cfg.maxAttempts && !logged
    case Completed => 1 <= e.attempts <= cfg.maxAttempts
  }

  ghost predicate Inv(cfg: Config, db: Db) {
    && (forall id :: 0 <= id < |db.outbox| ==> EventOk(cfg, db.outbox[id], id in db.log))
    && (forall id: nat :: id in db.log ==> id < |db.outbox|)
  }

  lemma PerformKeepsInv(cfg: Config, db: Db, a: Act)
    requires cfg.Valid() && Inv(cfg, db) && Enabled(db, a)
    ensures Inv(cfg, Perform(cfg, db, a))
  {
    hide DeliveryOutcome;
    var db' := Perform(cfg, db, a);
    forall id | 0 <= id < |db'.outbox| ensures EventOk(cfg, db'.outbox[id], id in db'.log) {
      if id < |db.outbox| {
        assert EventOk(cfg, db.outbox[id], id in db.log);
      }
    }
  }

  /** A pending event is never in the log, so an attempt never finds its row already there. */
  lemma NeverAlreadyStored(cfg: Config, db: Db, id: nat, now: Time, ctx: Context)
    requires Inv(cfg, db) && Due(db, id, now)
    ensures OutcomeOf(db, id, ctx) == DeliveryOutcome(false, db.outbox[id].payload, ctx)
    ensures !OutcomeOf(db, id, ctx).AlreadyStored?
  {
    assert EventOk(cfg, db.outbox[id], id in db.log);
  }

  lemma {:induction false} ReachableInv(cfg: Config, acts: seq<Act>)
    requires cfg.Valid() && Legal(cfg, EMPTY, acts)
    ensures Inv(cfg, RunActs(cfg, EMPTY, acts))
  {
    if acts != [] {
      var n := |acts| - 1;
      ReachableInv(cfg, acts[..n]);
      PerformKeepsInv(cfg, RunActs(cfg, EMPTY, acts[..n]), acts[n]);
    }
  }

  // ----- the history of one event ---------------------------------------------------------------------

  datatype Try = Try(time: Time, outcome: Outcome)

  /** The attempts on one event, in order. */
  ghost function Tries(cfg: Config, acts: seq<Act>, id: nat): seq<Try>
    requires Legal(cfg, EMPTY, acts)
  {
    if acts == [] then []
    else
      var n := |acts| - 1;
      var a := acts[n];
      var before := Tries(cfg, acts[..n], id);
      if a.Attempt? && a.id == id then before + [Try(a.now, OutcomeOf(RunActs(cfg, EMPTY, acts[..n]), id, a.ctx))] else before
  }

  /** Each attempt but the last failed, and the next came no sooner than its delay. */
  ghost predicate Spaced(h: seq<Try>) {
    forall k :: 0 < k < |h| ==> Follows(h, k)
  }

  predicate Follows(h: seq<Try>, k: nat)
    requires 0 < k < |h|
  {
    h[k - 1].outcome.Failure? && h[k].time >= h[k - 1].time + Delay(k) * SECOND
  }

  ghost predicate Explains(h: seq<Try>, e: Event) {
    && |h| == e.attempts
    && Spaced(h)
    && match e.status
       case Pending => h != [] ==> h[|h| - 1].outcome.Failure? && e.nextAttempt == h[|h| - 1].time + Delay(|h|) * SECOND
       case Failed => h != [] && h[|h| - 1].outcome.Failure?
       case Completed => h != [] && h[|h| - 1].outcome.Stored? && e.deliveredAt == Some(h[|h| - 1].time)
  }

  ghost predicate Explained(h: seq<Try>, db: Db, id: nat) {
    if id < |db.outbox| then Explains(h, db.outbox[id]) else h == []
  }

  lemma AttemptExplained(cfg: Config, h: seq<Try>, e: Event, now: Time, o: Outcome)
    requires Explains(h, e) && e.status == Pending && e.nextAttempt <= now && !o.AlreadyStored?
    ensures Explains(h + [Try(now, o)], Settled(cfg, e, now, o))
  {
    hide Delay;
    var h' := h + [Try(now, o)];
    forall k | 0 < k < |h'| ensures Follows(h', k) {
      if k < |h| {
        assert Follows(h, k);
      }
    }
  }

  /** The attempts on an event explain its row: their number, their spacing, that all but the last
      failed, and that the last one stored the log row iff the event is completed. */
  lemma {:induction false} TriesExplainEvent(cfg: Config, acts: seq<Act>, id: nat)
    requires cfg.Valid() && Legal(cfg, EMPTY, acts)
    ensures Explained(Tries(cfg, acts, id), RunActs(cfg, EMPTY, acts), id)
  {
    if acts != [] {
      var n := |acts| - 1;
      var before, a := RunActs(cfg, EMPTY, acts[..n]), acts[n];
      TriesExplainEvent(cfg, acts[..n], id);
      ReachableInv(cfg, acts[..n]);
      hide Explains, DeliveryOutcome, Settled, Inv;
      if a.Attempt? && a.id == id {
        NeverAlreadyStored(cfg, before, id, a.now, a.ctx);
        AttemptExplained(cfg, Tries(cfg, acts[..n], id), before.outbox[id], a.now, OutcomeOf(before, id, a.ctx));
      } else if a.Enqueue? && id == |before.outbox| {
        NewEventExplained(a.payload, a.createdAt, a.nextAttempt);
      }
    }
  }

  lemma NewEventExplained(payload: Payload, createdAt: Time, nextAttempt: Time)
    ensures Explains([], Event(payload, Pending, 0, nextAttempt, createdAt, None, None))
  {
  }

  /** At most one attempt on an event ever stores a row, and one does iff the event is completed. */
  lemma DeliveredAtMostOnce(cfg: Config, acts: seq<Act>, id: nat)
    requires cfg.Valid() && Legal(cfg, EMPTY, acts)
    ensures var h := Tries(cfg, acts, id);
            var db := RunActs(cfg, EMPTY, acts);
            && (forall i, j :: 0 <= i < |h| && 0 <= j < |h| && h[i].outcome.Stored? && h[j].outcome.Stored? ==> i == j)
            && (forall i :: 0 <= i < |h| ==> !h[i].outcome.AlreadyStored?)
            && ((exists i :: 0 <= i < |h| && h[i].outcome.Stored?) <==> id < |db.outbox| && db.outbox[id].status == Completed)
  {
    TriesExplainEvent(cfg, acts, id);
    var h := Tries(cfg, acts, id);
    forall i | 0 <= i < |h| - 1 ensures h[i].outcome.Failure? {
      assert Follows(h, i + 1);
    }
  }

  /** The delays after attempts 1 to n - 1. */
  function BackoffSum(n: nat): nat {
    if n <= 1 then 0 else BackoffSum(n - 1) + Delay(n - 1)
  }

  lemma {:induction false} Pow2Monotone(m: nat, n: nat)
    requires m <= n
    ensures Pow2(m) <= Pow2(n)
  {
    if m < n {
      Pow2Monotone(m, n - 1);
    }
  }

  /** The closed form: the doubling delays add up to one less than a power of two until the cap of
      300 seconds takes over at the tenth delay. */
  lemma {:induction false} BackoffSumClosedForm(n: nat)
    requires n >= 1
    ensures BackoffSum(n) == if n <= 10 then Pow2(n - 1) - 1 else 511 + 300 * (n - 10)
  {
    assert Pow2(8) == 256 && Pow2(9) == 512 by {
      assert Pow2(2) == 4 && Pow2(4) == 4 * Pow2(2) && Pow2(6) == 4 * Pow2(4) && Pow2(8) == 4 * Pow2(6);
    }
    if n > 1 {
      BackoffSumClosedForm(n - 1);
      if n - 2 <= 8 {
        Pow2Monotone(n - 2, 8);
      } else {
        Pow2Monotone(9, n - 2);
      }
    }
  }

  lemma {:induction false} SpacedSum(h: seq<Try>)
    requires Spaced(h) && h != []
    ensures h[|h| - 1].time - h[0].time >= BackoffSum(|h|) * SECOND
  {
    var n := |h| - 1;
    if n > 0 {
      forall k | 0 < k < n ensures Follows(h[..n], k) {
        assert Follows(h, k);
      }
      SpacedSum(h[..n]);
      assert Follows(h, n);
    }
  }

  /** An event is given up after exactly `max_attempts` attempts, the last no sooner after the first
      than all the delays together. */
  lemma FailsNoSooner(cfg: Config, acts: seq<Act>, id: nat)
    requires cfg.Valid() && Legal(cfg, EMPTY, acts)
    requires id < |RunActs(cfg, EMPTY, acts).outbox| && RunActs(cfg, EMPTY, acts).outbox[id].status == Failed
    ensures var h := Tries(cfg, acts, id);
            && |h| == cfg.maxAttempts
            && (forall i :: 0 <= i < |h| ==> h[i].outcome.Failure?)
            && h[|h| - 1].time - h[0].time >= BackoffSum(cfg.maxAttempts) * 1_000_000
  {
    ReachableInv(cfg, acts);
    TriesExplainEvent(cfg, acts, id);
    var h := Tries(cfg, acts, id);
    assert EventOk(cfg, RunActs(cfg, EMPTY, acts).outbox[id], id in RunActs(cfg, EMPTY, acts).log);
    assert Spaced(h) && |h| == cfg.maxAttempts && h[|h| - 1].outcome.Failure?;
    hide *;
    FailedHistory(h);
  }

  lemma FailedHistory(h: seq<Try>)
    requires Spaced(h) && h != [] && h[|h| - 1].outcome.Failure?
    ensures forall i :: 0 <= i < |h| ==> h[i].outcome.Failure?
    ensures h[|h| - 1].time - h[0].time >= BackoffSum(|h|) * SECOND
  {
    SpacedSum(h);
    forall i | 0 <= i < |h| - 1 ensures h[i].outcome.Failure? {
      assert Follows(h, i + 1);
    }
  }

  // ----- the log ------------------------------------------------------------------------------------------

  /** The ids whose rows retention has removed. */
  ghost function Purged(cfg: Config, acts: seq<Act>): set<nat>
    requires Legal(cfg, EMPTY, acts)
  {
    if acts == [] then {}
    else
      var n := |acts| - 1;
      Purged(cfg, acts[..n]) +
      (if acts[n].Purge? then Expired(RunActs(cfg, EMPTY, acts[..n]), acts[n].cutoff) else {})
  }

  ghost predicate LogExact(db: Db, purged: set<nat>) {
    && (forall id: nat :: id in db.log <==> id < |db.outbox| && db.outbox[id].status == Completed && id !in purged)
    && (forall id: nat :: id in purged ==> id < |db.outbox| && db.outbox[id].status == Completed)
  }

  lemma PerformKeepsLogExact(cfg: Config, db: Db, a: Act, purged: set<nat>)
    requires Inv(cfg, db) && LogExact(db, purged) && Enabled(db, a)
    ensures LogExact(Perform(cfg, db, a), purged + (if a.Purge? then Expired(db, a.cutoff) else {}))
  {
    if a.Attempt? {
      NeverAlreadyStored(cfg, db, a.id, a.now, a.ctx);
      hide DeliveryOutcome;
    }
  }

  /** The log holds a row for an event iff the event is completed and retention has not removed the
      row since; what retention removes is never delivered again. */
  lemma {:induction false} LogIsCompletedMinusPurged(cfg: Config, acts: seq<Act>)
    requires cfg.Valid() && Legal(cfg, EMPTY, acts)
    ensures LogExact(RunActs(cfg, EMPTY, acts), Purged(cfg, acts))
  {
    if acts != [] {
      var n := |acts| - 1;
      LogIsCompletedMinusPurged(cfg, acts[..n]);
      ReachableInv(cfg, acts[..n]);
      PerformKeepsLogExact(cfg, RunActs(cfg, EMPTY, acts[..n]), acts[n], Purged(cfg, acts[..n]));
    }
  }

  /** A row of the log is the one that an attempt on its event stored, and no other. */
  lemma {:induction false} LogHoldsStoredRow(cfg: Config, acts: seq<Act>, id: nat)
    requires cfg.Valid() && Legal(cfg, EMPTY, acts) && id in RunActs(cfg, EMPTY, acts).log
    ensures exists i :: 0 <= i < |Tries(cfg, acts, id)| && Tries(cfg, acts, id)[i].outcome == Stored(RunActs(cfg, EMPTY, acts).log[id])
  {
    if acts != [] {
      var n := |acts| - 1;
      var before, a, h := RunActs(cfg, EMPTY, acts[..n]), acts[n], Tries(cfg, acts[..n], id);
      hide DeliveryOutcome, Settled;
      if a.Attempt? && a.id == id && OutcomeOf(before, id, a.ctx).Stored? {
        assert Tries(cfg, acts, id)[|h|].outcome == OutcomeOf(before, id, a.ctx);
      } else {
        LogHoldsStoredRow(cfg, acts[..n], id);
        var i :| 0 <= i < |h| && h[i].outcome == Stored(before.log[id]);
        assert Tries(cfg, acts, id)[i] == h[i];
      }
    }
  }

  /** The payloads that were enqueued, in order. */
  ghost function Payloads(acts: seq<Act>): seq<Payload> {
    if acts == [] then []
    else
      var last := acts[|acts| - 1];
      Payloads(acts[..|acts| - 1]) + (if last.Enqueue? then [last.payload] else [])
  }

  /** The outbox holds exactly the enqueued payloads, unchanged and in order. */
  lemma {:induction false} OutboxHoldsEnqueued(cfg: Config, acts: seq<Act>)
    requires Legal(cfg, EMPTY, acts)
    ensures |RunActs(cfg, EMPTY, acts).outbox| == |Payloads(acts)|
    ensures forall id :: 0 <= id < |Payloads(acts)| ==> RunActs(cfg, EMPTY, acts).outbox[id].payload == Payloads(acts)[id]
  {
    if acts != [] {
      OutboxHoldsEnqueued(cfg, acts[..|acts| - 1]);
      hide DeliveryOutcome;
    }
  }

  /** A completed or failed event never changes again. */
  lemma {:induction false} SettledIsAbsorbing(cfg: Config, db: Db, acts: seq<Act>, id: nat)
    requires Legal(cfg, db, acts) && id < |db.outbox| && db.outbox[id].status != Pending
    ensures var db' := RunActs(cfg, db, acts);
            && id < |db'.outbox| && db'.outbox[id] == db.outbox[id]
            && (id !in db.log ==> id !in db'.log)
            && (id in db'.log ==> id in db.log && db'.log[id] == db.log[id])
  {
    if acts != [] {
      SettledIsAbsorbing(cfg, db, acts[..|acts| - 1], id);
      hide DeliveryOutcome, Settled;
    }
  }

  // ----- progress --------------------------------------------------------------------------------------------

  function Left(cfg: Config, e: Event): nat {
    if e.status == Pending && e.attempts < cfg.maxAttempts then cfg.maxAttempts - e.attempts else 0
  }

  /** Attempts that the pending events may still take. */
  function Remaining(cfg: Config, outbox: seq<Event>): nat {
    if outbox == [] then 0 else Remaining(cfg, outbox[..|outbox| - 1]) + Left(cfg, outbox[|outbox| - 1])
  }

  lemma {:induction false} RemainingUpdate(cfg: Config, outbox: seq<Event>, id: nat, e: Event)
    requires id < |outbox|
    ensures Remaining(cfg, outbox[id := e]) == Remaining(cfg, outbox) - Left(cfg, outbox[id]) + Left(cfg, e)
  {
    var n := |outbox| - 1;
    if id == n {
      assert outbox[id := e][..n] == outbox[..n];
    } else {
      assert outbox[id := e][..n] == outbox[..n][id := e];
      RemainingUpdate(cfg, outbox[..n], id, e);
    }
  }

  /** Every attempt uses up at least one of the remaining attempts. */
  lemma AttemptDecreases(cfg: Config, db: Db, id: nat, now: Time, o: Outcome)
    requires Inv(cfg, db) && Due(db, id, now)
    ensures Remaining(cfg, Settle(cfg, db, id, now, o).outbox) < Remaining(cfg, db.outbox)
  {
    assert EventOk(cfg, db.outbox[id], id in db.log);
    RemainingUpdate(cfg, db.outbox, id, Settled(cfg, db.outbox[id], now, o));
  }

  function Attempts(acts: seq<Act>): nat {
    if acts == [] then 0 else Attempts(acts[..|acts| - 1]) + if acts[|acts| - 1].Attempt? then 1 else 0
  }

  function Enqueued(acts: seq<Act>): nat {
    if acts == [] then 0 else Enqueued(acts[..|acts| - 1]) + if acts[|acts| - 1].Enqueue? then 1 else 0
  }

  function AttemptsAt(acts: seq<Act>): set<nat> {
    set i: nat | i < |acts| && acts[i].Attempt?
  }

  lemma {:induction false} AttemptsCounted(acts: seq<Act>)
    ensures Attempts(acts) == |AttemptsAt(acts)|
  {
    if acts != [] {
      var n := |acts| - 1;
      AttemptsCounted(acts[..n]);
      assert AttemptsAt(acts) == AttemptsAt(acts[..n]) + if acts[n].Attempt? then {n} else {};
    }
  }

  /** Attempts made and attempts left never exceed `max_attempts` for each enqueued event. */
  lemma {:induction false} AttemptsAreBounded(cfg: Config, acts: seq<Act>)
    requires cfg.Valid() && Legal(cfg, EMPTY, acts)
    ensures Enqueued(acts) == |RunActs(cfg, EMPTY, acts).outbox|
    ensures Attempts(acts) + Remaining(cfg, RunActs(cfg, EMPTY, acts).outbox) <= cfg.maxAttempts * Enqueued(acts)
  {
    if acts != [] {
      var n := |acts| - 1;
      var before, a := RunActs(cfg, EMPTY, acts[..n]), acts[n];
      AttemptsAreBounded(cfg, acts[..n]);
      ReachableInv(cfg, acts[..n]);
      match a
      case Attempt(id, now, ctx) => AttemptDecreases(cfg, before, id, now, OutcomeOf(before, id, ctx));
      case Enqueue(_, _, _) =>
        var outbox := Perform(cfg, before, a).outbox;
        assert outbox[..|outbox| - 1] == before.outbox;
        assert cfg.maxAttempts * (Enqueued(acts[..n]) + 1) == cfg.maxAttempts * Enqueued(acts[..n]) + cfg.maxAttempts;
      case Purge(_) =>
    }
  }

  // ----- the worker ------------------------------------------------------------------------------------------

  ghost function Batch(batch: seq<nat>, now: Time, ctxs: seq<Context>): (acts: seq<Act>)
    requires |batch| == |ctxs|
    ensures |acts| == |batch|
  {
    seq(|batch|, i requires 0 <= i < |batch| => Attempt(batch[i], now, ctxs[i]))
  }

  /** How many of the attempts did not fail. */
  ghost function Successes(cfg: Config, db: Db, acts: seq<Act>): nat
    requires Legal(cfg, db, acts)
  {
    if acts == [] then 0
    else
      var n := |acts| - 1;
      var a := acts[n];
      Successes(cfg, db, acts[..n]) +
      if a.Attempt? && !OutcomeOf(RunActs(cfg, db, acts[..n]), a.id, a.ctx).Failure? then 1 else 0
  }

  /** The rows that one worker's transaction sees and changes. */
  class AuditOutboxWorker {
    const cfg: Config
    var outbox: seq<Event>
    var log: map<nat, LogRow>

    constructor (cfg: Config, db: Db)
      ensures this.cfg == cfg && Contents() == db
    {
      this.cfg := cfg;
      outbox, log := db.outbox, db.log;
    }

    function Contents(): Db
      reads this
    {
      Db(outbox, log)
    }

    /** One attempt: the counter goes up first, then the savepoint either keeps the row or not. */
    method Deliver(id: nat, now: Time, ctx: Context) returns (ok: bool)
      requires id < |outbox|
      modifies this
      ensures Contents() == Settle(cfg, old(Contents()), id, now, OutcomeOf(old(Contents()), id, ctx))
      ensures ok <==> !OutcomeOf(old(Contents()), id, ctx).Failure?
    {
      hide ToAuditLog, Delay;
      outbox := outbox[id := outbox[id].(attempts := outbox[id].attempts + 1)];
      var o := DeliveryOutcome(id in log, outbox[id].payload, ctx);
      var e := outbox[id];
      match o {
        case Failure(error) =>
          e := e.(lastError := Some(error));
          if e.attempts >= cfg.maxAttempts {
            e := e.(status := Failed);
          } else {
            e := e.(nextAttempt := now + Delay(e.attempts) * SECOND);
          }
          outbox := outbox[id := e];
          return false;
        case Stored(row) => log := log[id := row];
        case AlreadyStored =>
      }
      outbox := outbox[id := e.(status := Completed, lastError := None, deliveredAt := Some(now))];
      return true;
    }

    /** The claimed batch, one event after the other. */
    method RunOnce(now: Time, batch: seq<nat>, ctxs: seq<Context>) returns (delivered: nat)
      requires cfg.Valid() && Inv(cfg, Contents())
      requires |batch| == |ctxs| && Distinct(batch) && forall i :: 0 <= i < |batch| ==> Due(Contents(), batch[i], now)
      modifies this
      ensures Legal(cfg, old(Contents()), Batch(batch, now, ctxs))
      ensures Contents() == RunActs(cfg, old(Contents()), Batch(batch, now, ctxs))
      ensures delivered == Successes(cfg, old(Contents()), Batch(batch, now, ctxs))
      ensures |outbox| == |old(outbox)| && Inv(cfg, Contents())
      ensures forall k :: 0 <= k < |batch| ==> batch[k] < |outbox|
      ensures delivered == |CompletedAmong(outbox, batch)|
    {
      delivered := 0;
      ghost var start := Contents();
      BatchPrefix(batch, now, ctxs, 0);
      for i := 0 to |batch|
        invariant Legal(cfg, start, Batch(batch[..i], now, ctxs[..i]))
        invariant Contents() == RunActs(cfg, start, Batch(batch[..i], now, ctxs[..i]))
        invariant Inv(cfg, Contents())
        invariant |outbox| == |start.outbox|
        invariant forall k :: i <= k < |batch| ==> Due(Contents(), batch[k], now)
        invariant delivered == Successes(cfg, start, Batch(batch[..i], now, ctxs[..i]))
        invariant delivered == |CompletedAmong(outbox, batch[..i])|
      {
        BatchStep(cfg, start, batch, now, ctxs, i);
        PerformKeepsInv(cfg, Contents(), Attempt(batch[i], now, ctxs[i]));
        AttemptKeepsDue(cfg, Contents(), batch, i, now, ctxs[i]);
        CompletedStep(cfg, Contents(), batch, i, now, OutcomeOf(Contents(), batch[i], ctxs[i]));
        hide DeliveryOutcome, Settled, Inv, Due, Distinct, Legal, RunActs, Successes, Settle, CompletedAmong;
        var ok := Deliver(batch[i], now, ctxs[i]);
        if ok {
          delivered := delivered + 1;
        }
      }
      assert batch[..|batch|] == batch && ctxs[..|ctxs|] == ctxs;
    }
  }

  /** The events of a batch that are completed. */
  function CompletedAmong(outbox: seq<Event>, batch: seq<nat>): set<nat>
  {
    set id | id in batch && id < |outbox| && outbox[id].status == Completed
  }

  /** An attempt on a due event of a batch completes it iff it does not fail. */
  lemma CompletedStep(cfg: Config, db: Db, batch: seq<nat>, i: nat, now: Time, o: Outcome)
    requires Distinct(batch) && i < |batch| && Due(db, batch[i], now)
    ensures |CompletedAmong(Settle(cfg, db, batch[i], now, o).outbox, batch[..i + 1])|
         == |CompletedAmong(db.outbox, batch[..i])| + if o.Failure? then 0 else 1
  {
    var before := CompletedAmong(db.outbox, batch[..i]);
    var after := CompletedAmong(Settle(cfg, db, batch[i], now, o).outbox, batch[..i + 1]);
    assert batch[i] !in batch[..i];
    assert batch[..i + 1] == batch[..i] + [batch[i]];
    assert after == before + if o.Failure? then {} else {batch[i]};
  }

  class AuditLogGateway {
    var log: map<nat, LogRow>

    /** Retention: exactly the rows created before the cutoff go. */
    method DeleteBefore(cutoff: Time) returns (deleted: nat)
      modifies this
      ensures forall id :: id in log <==> id in old(log) && old(log)[id].createdAt >= cutoff
      ensures forall id :: id in log ==> log[id] == old(log)[id]
      ensures log == old(log) - Expired(Db([], old(log)), cutoff)
      ensures deleted == |old(log)| - |log|
    {
      var expired := set id | id in log && log[id].createdAt < cutoff;
      RemovedCount(log, expired);
      log := log - expired;
      deleted := |expired|;
    }
  }

  lemma RemovedCount(log: map<nat, LogRow>, gone: set<nat>)
    requires gone <= log.Keys
    ensures |log - gone| == |log| - |gone|
  {
    assert (log - gone).Keys == log.Keys - gone;
    assert |log.Keys - gone| == |log.Keys| - |gone|;
  }

  /** One more event of a batch. */
  lemma BatchStep(cfg: Config, db: Db, batch: seq<nat>, now: Time, ctxs: seq<Context>, i: nat)
    requires |batch| == |ctxs| && i < |batch| && Legal(cfg, db, Batch(batch[..i], now, ctxs[..i]))
    requires Due(RunActs(cfg, db, Batch(batch[..i], now, ctxs[..i])), batch[i], now)
    ensures var acts, next := Batch(batch[..i], now, ctxs[..i]), Batch(batch[..i + 1], now, ctxs[..i + 1]);
            && Legal(cfg, db, next)
            && RunActs(cfg, db, next) == Perform(cfg, RunActs(cfg, db, acts), Attempt(batch[i], now, ctxs[i]))
            && Successes(cfg, db, next) == Successes(cfg, db, acts) +
                 if OutcomeOf(RunActs(cfg, db, acts), batch[i], ctxs[i]).Failure? then 0 else 1
  {
    BatchPrefix(batch, now, ctxs, i);
    var acts, next := Batch(batch[..i], now, ctxs[..i]), Batch(batch[..i + 1], now, ctxs[..i + 1]);
    hide Perform, OutcomeOf, Due;
    assert next[..|next| - 1] == acts && next[|next| - 1] == Attempt(batch[i], now, ctxs[i]);
  }

  lemma AttemptKeepsDue(cfg: Config, db: Db, batch: seq<nat>, i: nat, now: Time, ctx: Context)
    requires Distinct(batch) && i < |batch| && forall k :: i <= k < |batch| ==> Due(db, batch[k], now)
    ensures var next := Perform(cfg, db, Attempt(batch[i], now, ctx));
            && |next.outbox| == |db.outbox|
            && forall k :: i + 1 <= k < |batch| ==> Due(next, batch[k], now)
  {
    hide OutcomeOf, Settled;
  }

  lemma BatchPrefix(batch: seq<nat>, now: Time, ctxs: seq<Context>, i: nat)
    requires |batch| == |ctxs| && i <= |batch|
    ensures Batch(batch[..i], now, ctxs[..i]) == Batch(batch, now, ctxs)[..i]
    ensures i < |batch| ==> Batch(batch[..i + 1], now, ctxs[..i + 1]) == Batch(batch[..i], now, ctxs[..i]) + [Attempt(batch[i], now, ctxs[i])]
  {
  }
}
