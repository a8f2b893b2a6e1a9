/** Several workers over one outbox: a claim locks rows, a transaction commits or vanishes. */
module OutboxWorkers {
  import opened Prelude
  import opened Outbox

  /** A worker's open transaction: the locked batch, and what became of the events it has reached. */
  datatype Txn = Txn(now: Time, batch: seq<nat>, ctxs: seq<Context>, outcomes: seq<Outcome>)

  datatype State = State(db: Db, workers: map<nat, Txn>)

  const INITIAL := State(EMPTY, map[])

  datatype Step =
    | Elsewhere(act: Act)
    | Claim(worker: nat, now: Time, batch: seq<nat>)
    | Deliver(worker: nat, ctx: Context)
    | Commit(worker: nat)
    | Crash(worker: nat)

  // ----- claiming ----------------------------------------------------------------------

  ghost predicate Locked(s: State, id: nat) {
    exists w :: w in s.workers && id in s.workers[w].batch
  }

  ghost predicate Claimable(s: State, id: nat, now: Time) {
    Due(s.db, id, now) && !Locked(s, id)
  }

  /** The first `batchSize` rows, oldest first, that are due and that no other worker has locked. */
  ghost predicate IsBatch(cfg: Config, s: State, now: Time, batch: seq<nat>) {
    && |batch| <= cfg.batchSize
    && Distinct(batch)
    && (forall i :: 0 <= i < |batch| ==> Claimable(s, batch[i], now))
    && (forall i, j :: 0 <= i < j < |batch| ==> s.db.outbox[batch[i]].createdAt <= s.db.outbox[batch[j]].createdAt)
    && (forall id: nat :: Claimable(s, id, now) && id !in batch ==>
          |batch| == cfg.batchSize &&
          forall i :: 0 <= i < |batch| ==> s.db.outbox[batch[i]].createdAt <= s.db.outbox[id].createdAt)
  }

  /** No claimable event is older than the first of a batch. */
  lemma BatchHead(cfg: Config, s: State, now: Time, batch: seq<nat>, id: nat)
    requires cfg.batchSize >= 1 && IsBatch(cfg, s, now, batch) && Claimable(s, id, now)
    ensures batch != [] && Claimable(s, batch[0], now)
    ensures s.db.outbox[batch[0]].createdAt <= s.db.outbox[id].createdAt
  {
    assert Claimable(s, batch[0], now);
    if id in batch {
      var i :| 0 <= i < |batch| && batch[i] == id;
      assert s.db.outbox[batch[0]].createdAt <= s.db.outbox[batch[i]].createdAt;
    }
  }

  /** No event is passed over for ever: one that is due, unlocked and older than every other such event
      comes first in every batch. */
  lemma OldestIsClaimed(cfg: Config, s: State, now: Time, batch: seq<nat>, id: nat)
    requires cfg.batchSize >= 1 && IsBatch(cfg, s, now, batch) && Claimable(s, id, now)
    requires forall other: nat :: Claimable(s, other, now) && other != id ==>
               s.db.outbox[id].createdAt < s.db.outbox[other].createdAt
    ensures batch != [] && batch[0] == id
  {
    BatchHead(cfg, s, now, batch, id);
  }

  /** A claim never has to wait for another worker: every state has a batch, of as many rows as can be
      claimed, up to the batch size. */
  lemma {:induction false} BatchExists(cfg: Config, s: State, now: Time)
    ensures exists batch ::
              && IsBatch(cfg, s, now, batch)
              && |batch| <= cfg.batchSize
              && (|batch| < cfg.batchSize ==> forall id: nat :: Claimable(s, id, now) ==> id in batch)
    decreases cfg.batchSize
  {
    if cfg.batchSize == 0 {
      assert IsBatch(cfg, s, now, []);
    } else {
      BatchExists(cfg.(batchSize := cfg.batchSize - 1), s, now);
      var batch :| IsBatch(cfg.(batchSize := cfg.batchSize - 1), s, now, batch);
      if id: nat :| Claimable(s, id, now) && id !in batch {
        var next := Oldest(s, now, batch, |s.db.outbox|, id);
        hide Claimable;
        assert IsBatch(cfg, s, now, batch + [next]);
      } else {
        assert IsBatch(cfg, s, now, batch);
      }
    }
  }

  lemma {:induction false} Oldest(s: State, now: Time, batch: seq<nat>, n: nat, some: nat) returns (oldest: nat)
    requires Claimable(s, some, now) && some !in batch
    ensures Claimable(s, oldest, now) && oldest !in batch
    ensures s.db.outbox[oldest].createdAt <= s.db.outbox[some].createdAt
    ensures forall id :: 0 <= id < n && Claimable(s, id, now) && id !in batch ==> s.db.outbox[oldest].createdAt <= s.db.outbox[id].createdAt
    decreases n
  {
    if n == 0 {
      oldest := some;
    } else {
      oldest := Oldest(s, now, batch, n - 1, some);
      if Claimable(s, n - 1, now) && n - 1 !in batch && s.db.outbox[n - 1].createdAt < s.db.outbox[oldest].createdAt {
        oldest := n - 1;
      }
    }
  }

  // ----- steps ----------------------------------------------------------------------------

  /** What a commit makes visible: every event of the batch settled with its own outcome. */
  function SettleAll(cfg: Config, db: Db, now: Time, batch: seq<nat>, outcomes: seq<Outcome>): (r: Db)
    requires |batch| == |outcomes| && forall i :: 0 <= i < |batch| ==> batch[i] < |db.outbox|
    ensures |r.outbox| == |db.outbox|
  {
    if batch == [] then db
    else
      var n := |batch| - 1;
      Settle(cfg, SettleAll(cfg, db, now, batch[..n], outcomes[..n]), batch[n], now, outcomes[n])
  }

  /** Always so, since nothing deletes outbox rows: TxnOk implies it. */
  ghost predicate RowsExist(db: Db, t: Txn) {
    forall i :: 0 <= i < |t.batch| ==> t.batch[i] < |db.outbox|
  }

  ghost predicate Enabled(cfg: Config, s: State, step: Step) {
    match step
    case Elsewhere(act) => !act.Attempt?
    case Claim(w, now, batch) => w !in s.workers && IsBatch(cfg, s, now, batch)
    case Deliver(w, _) => w in s.workers && RowsExist(s.db, s.workers[w]) && |s.workers[w].outcomes| < |s.workers[w].batch|
    case Commit(w) => w in s.workers && RowsExist(s.db, s.workers[w]) && |s.workers[w].outcomes| == |s.workers[w].batch|
    case Crash(w) => w in s.workers
  }

  ghost function Perform(cfg: Config, s: State, step: Step): State
    requires Enabled(cfg, s, step)
  {
    match step
    case Elsewhere(act) => s.(db := Outbox.Perform(cfg, s.db, act))
    case Claim(w, now, batch) => s.(workers := s.workers[w := Txn(now, batch, [], [])])
    case Deliver(w, ctx) =>
      var t := s.workers[w];
      var id := t.batch[|t.outcomes|];
      s.(workers := s.workers[w := t.(ctxs := t.ctxs + [ctx], outcomes := t.outcomes + [OutcomeOf(s.db, id, ctx)])])
    case Commit(w) =>
      var t := s.workers[w];
      State(SettleAll(cfg, s.db, t.now, t.batch, t.outcomes), s.workers - {w})
    case Crash(w) => s.(workers := s.workers - {w})
  }

  // ----- the invariant --------------------------------------------------------------------------

  /** Locked rows are still due, and every outcome is the one a fresh row would have. */
  ghost predicate TxnOk(db: Db, t: Txn) {
    && |t.ctxs| == |t.outcomes| <= |t.batch|
    && Distinct(t.batch)
    && (forall i :: 0 <= i < |t.batch| ==> Due(db, t.batch[i], t.now))
    && (forall i :: 0 <= i < |t.outcomes| ==> t.outcomes[i] == DeliveryOutcome(false, db.outbox[t.batch[i]].payload, t.ctxs[i]))
  }

  ghost predicate Disjoint(a: Txn, b: Txn) {
    forall id :: !(id in a.batch && id in b.batch)
  }

  ghost predicate Inv(cfg: Config, s: State) {
    && Outbox.Inv(cfg, s.db)
    && (forall w :: w in s.workers ==> TxnOk(s.db, s.workers[w]))
    && (forall v, w :: v in s.workers && w in s.workers && v != w ==> Disjoint(s.workers[v], s.workers[w]))
  }

  // ----- a commit is a run of the sequential machine ----------------------------------------------

  ghost predicate Untouched(db: Db, db': Db, id: nat) {
    id < |db.outbox| == |db'.outbox| && db'.outbox[id] == db.outbox[id]
  }

  lemma {:induction false} SettleAllUntouched(cfg: Config, db: Db, now: Time, batch: seq<nat>, outcomes: seq<Outcome>, id: nat)
    requires |batch| == |outcomes| && forall i :: 0 <= i < |batch| ==> batch[i] < |db.outbox|
    requires id < |db.outbox| && id !in batch
    ensures Untouched(db, SettleAll(cfg, db, now, batch, outcomes), id)
  {
    if batch != [] {
      var n := |batch| - 1;
      assert batch[n] in batch && forall x :: x in batch[..n] ==> x in batch;
      SettleAllUntouched(cfg, db, now, batch[..n], outcomes[..n], id);
      hide Settled;
    }
  }

  ghost function Prefix(t: Txn, n: nat): Txn
    requires n <= |t.ctxs| == |t.outcomes| == |t.batch|
  {
    Txn(t.now, t.batch[..n], t.ctxs[..n], t.outcomes[..n])
  }

  ghost function Acts(t: Txn): seq<Act>
    requires |t.ctxs| == |t.batch|
  {
    Batch(t.batch, t.now, t.ctxs)
  }

  /** Committing a batch is the same as attempting its events one after the other. */
  lemma {:induction false} CommitIsSequential(cfg: Config, db: Db, t: Txn)
    requires cfg.Valid() && Outbox.Inv(cfg, db) && TxnOk(db, t) && |t.outcomes| == |t.batch|
    ensures Legal(cfg, db, Acts(t))
    ensures RunActs(cfg, db, Acts(t)) == SettleAll(cfg, db, t.now, t.batch, t.outcomes)
    ensures Outbox.Inv(cfg, RunActs(cfg, db, Acts(t)))
    decreases |t.batch|
  {
    if t.batch != [] {
      var n := |t.batch| - 1;
      var p := Prefix(t, n);
      PrefixOk(db, t, n);
      CommitIsSequential(cfg, db, p);
      var mid := SettleAll(cfg, db, t.now, p.batch, p.outcomes);
      SettleAllUntouched(cfg, db, t.now, p.batch, p.outcomes, t.batch[n]);
      NeverAlreadyStored(cfg, mid, t.batch[n], t.now, t.ctxs[n]);
      var a := Attempt(t.batch[n], t.now, t.ctxs[n]);
      PerformKeepsInv(cfg, mid, a);
      BatchPrefix(t.batch, t.now, t.ctxs, n);
      assert Acts(t)[..n] == Acts(p) && Acts(t)[n] == a;
      hide Settle, DeliveryOutcome, Outbox.Inv;
    }
  }

  lemma PrefixOk(db: Db, t: Txn, n: nat)
    requires TxnOk(db, t) && n < |t.outcomes| == |t.batch|
    ensures TxnOk(db, Prefix(t, n)) && t.batch[n] !in t.batch[..n]
  {
    hide DeliveryOutcome;
  }

  // ----- steps keep the invariant ---------------------------------------------------------------------

  lemma TxnUntouched(db: Db, db': Db, t: Txn)
    requires TxnOk(db, t) && forall i :: 0 <= i < |t.batch| ==> Untouched(db, db', t.batch[i])
    ensures TxnOk(db', t)
  {
    hide DeliveryOutcome;
    forall i | 0 <= i < |t.batch| ensures Due(db', t.batch[i], t.now) && db'.outbox[t.batch[i]] == db.outbox[t.batch[i]] {
      assert Untouched(db, db', t.batch[i]) && Due(db, t.batch[i], t.now);
    }
  }

  lemma ElsewhereKeepsTxn(cfg: Config, db: Db, act: Act, t: Txn)
    requires TxnOk(db, t) && !act.Attempt?
    ensures TxnOk(Outbox.Perform(cfg, db, act), t)
  {
    hide DeliveryOutcome;
    var db' := Outbox.Perform(cfg, db, act);
    forall i | 0 <= i < |t.batch| ensures Due(db', t.batch[i], t.now) && db'.outbox[t.batch[i]] == db.outbox[t.batch[i]] {
      assert Due(db, t.batch[i], t.now);
    }
  }

  lemma DeliverKeepsTxn(cfg: Config, db: Db, t: Txn, ctx: Context)
    requires Outbox.Inv(cfg, db) && TxnOk(db, t) && |t.outcomes| < |t.batch|
    ensures var id := t.batch[|t.outcomes|];
            id < |db.outbox| &&
            TxnOk(db, t.(ctxs := t.ctxs + [ctx], outcomes := t.outcomes + [OutcomeOf(db, id, ctx)]))
  {
    var id := t.batch[|t.outcomes|];
    assert Due(db, id, t.now);
    NeverAlreadyStored(cfg, db, id, t.now, ctx);
    hide DeliveryOutcome, OutcomeOf, Outbox.Inv;
  }

  lemma CommitKeepsTxn(cfg: Config, db: Db, t: Txn, other: Txn)
    requires TxnOk(db, t) && TxnOk(db, other) && |t.outcomes| == |t.batch| && Disjoint(t, other)
    ensures TxnOk(SettleAll(cfg, db, t.now, t.batch, t.outcomes), other)
  {
    var db' := SettleAll(cfg, db, t.now, t.batch, t.outcomes);
    forall i | 0 <= i < |other.batch| ensures Untouched(db, db', other.batch[i]) {
      assert Due(db, other.batch[i], other.now) && other.batch[i] in other.batch;
      SettleAllUntouched(cfg, db, t.now, t.batch, t.outcomes, other.batch[i]);
    }
    hide SettleAll;
    TxnUntouched(db, db', other);
  }

  lemma ClaimKeepsInv(cfg: Config, s: State, w: nat, now: Time, batch: seq<nat>)
    requires Inv(cfg, s) && w !in s.workers && IsBatch(cfg, s, now, batch)
    ensures Inv(cfg, s.(workers := s.workers[w := Txn(now, batch, [], [])]))
  {
    hide Outbox.Inv, DeliveryOutcome, Due, Distinct;
    var t := Txn(now, batch, [], []);
    forall v | v in s.workers ensures Disjoint(t, s.workers[v]) && Disjoint(s.workers[v], t) {
      forall id | id in batch ensures id !in s.workers[v].batch {
        assert Claimable(s, id, now);
      }
    }
  }

  /** The sequential acts a step amounts to: none, unless it commits or comes from elsewhere. */
  ghost function ActsOf(cfg: Config, s: State, step: Step): seq<Act>
    requires Enabled(cfg, s, step)
  {
    match step
    case Elsewhere(act) => [act]
    case Commit(w) => if |s.workers[w].ctxs| == |s.workers[w].batch| then Acts(s.workers[w]) else []
    case _ => []
  }

  /** One step: the invariant stays, and the tables change as the sequential acts say. */
  lemma StepRefines(cfg: Config, s: State, step: Step)
    requires cfg.Valid() && Inv(cfg, s) && Enabled(cfg, s, step)
    ensures var acts := ActsOf(cfg, s, step);
            && Legal(cfg, s.db, acts)
            && RunActs(cfg, s.db, acts) == Perform(cfg, s, step).db
    ensures Inv(cfg, Perform(cfg, s, step))
  {
    assert step.Commit? ==> |s.workers[step.worker].ctxs| == |s.workers[step.worker].outcomes|;
    hide TxnOk, Disjoint, DeliveryOutcome, Outbox.Inv, SettleAll, IsBatch;
    match step
    case Elsewhere(act) =>
      PerformKeepsInv(cfg, s.db, act);
      assert [act][..0] == [];
      assert Legal(cfg, s.db, []) && RunActs(cfg, s.db, []) == s.db;
      forall w | w in s.workers ensures TxnOk(Outbox.Perform(cfg, s.db, act), s.workers[w]) {
        ElsewhereKeepsTxn(cfg, s.db, act, s.workers[w]);
      }
    case Claim(w, now, batch) => ClaimKeepsInv(cfg, s, w, now, batch);
    case Deliver(w, ctx) =>
      var s' := Perform(cfg, s, step);
      DeliverKeepsTxn(cfg, s.db, s.workers[w], ctx);
      SameBatches(s, s', w);
    case Commit(w) =>
      var t := s.workers[w];
      CommitIsSequential(cfg, s.db, t);
      forall v | v in s.workers && v != w ensures TxnOk(Perform(cfg, s, step).db, s.workers[v]) {
        CommitKeepsTxn(cfg, s.db, t, s.workers[v]);
      }
    case Crash(w) =>
  }

  lemma SameBatches(s: State, s': State, w: nat)
    requires w in s.workers && w in s'.workers && s'.workers == s.workers[w := s'.workers[w]] && s'.workers[w].batch == s.workers[w].batch
    requires forall v, w :: v in s.workers && w in s.workers && v != w ==> Disjoint(s.workers[v], s.workers[w])
    ensures forall v, w :: v in s'.workers && w in s'.workers && v != w ==> Disjoint(s'.workers[v], s'.workers[w])
  {
    forall u, v | u in s'.workers && v in s'.workers && u != v ensures Disjoint(s'.workers[u], s'.workers[v]) {
      assert Disjoint(s.workers[u], s.workers[v]);
    }
  }

  /** A row is locked from its claim to the commit or the crash of the worker that claimed it, and a
      crash leaves the tables alone. */
  lemma LocksIff(cfg: Config, s: State, step: Step, id: nat)
    requires Inv(cfg, s) && Enabled(cfg, s, step)
    ensures var s' := Perform(cfg, s, step);
            match step
            case Elsewhere(_) => Locked(s', id) <==> Locked(s, id)
            case Claim(_, _, batch) => s'.db == s.db && (Locked(s', id) <==> Locked(s, id) || id in batch)
            case Deliver(_, _) => s'.db == s.db && (Locked(s', id) <==> Locked(s, id))
            case Commit(w) => Locked(s', id) <==> Locked(s, id) && id !in s.workers[w].batch
            case Crash(w) => s'.db == s.db && (Locked(s', id) <==> Locked(s, id) && id !in s.workers[w].batch)
  {
    var s' := Perform(cfg, s, step);
    hide Outbox.Inv, TxnOk, IsBatch, SettleAll;
    match step
    case Claim(w, _, _) => KeptWorkers(s, s', w, id);
    case Deliver(w, _) => KeptWorkers(s, s', w, id);
    case Commit(w) => KeptWorkers(s, s', w, id);
    case Crash(w) => KeptWorkers(s, s', w, id);
    case Elsewhere(_) =>
  }

  lemma KeptWorkers(s: State, s': State, w: nat, id: nat)
    requires s.workers - {w} == s'.workers - {w}
    requires forall u, v :: u in s.workers && v in s.workers && u != v ==> Disjoint(s.workers[u], s.workers[v])
    ensures var held := w in s.workers && id in s.workers[w].batch;
            var holds := w in s'.workers && id in s'.workers[w].batch;
            Locked(s', id) <==> (Locked(s, id) && !held) || holds
  {
    forall v | v != w ensures v in s.workers <==> v in s'.workers
                      ensures v in s.workers ==> s.workers[v] == s'.workers[v] {
      assert v in s.workers - {w} <==> v in s'.workers - {w};
      if v in s.workers {
        assert (s.workers - {w})[v] == (s'.workers - {w})[v];
      }
    }
    if w in s.workers && id in s.workers[w].batch {
      forall v | v in s.workers && v != w ensures id !in s.workers[v].batch {
        assert Disjoint(s.workers[v], s.workers[w]);
      }
    }
  }

  // ----- whole runs ------------------------------------------------------------------------------------------

  ghost predicate IsRun(cfg: Config, steps: seq<Step>)
    decreases |steps|, 0
  {
    steps == [] ||
    (IsRun(cfg, steps[..|steps| - 1]) && Enabled(cfg, Run(cfg, steps[..|steps| - 1]), steps[|steps| - 1]))
  }

  ghost function Run(cfg: Config, steps: seq<Step>): State
    requires IsRun(cfg, steps)
    decreases |steps|, 1
  {
    if steps == [] then INITIAL else Perform(cfg, Run(cfg, steps[..|steps| - 1]), steps[|steps| - 1])
  }

  /** The sequential run behind an interleaved one: the attempts appear when their batch commits,
      and those of a crashed worker never do. */
  ghost function Trace(cfg: Config, steps: seq<Step>): seq<Act>
    requires IsRun(cfg, steps)
  {
    if steps == [] then []
    else
      var n := |steps| - 1;
      Trace(cfg, steps[..n]) + ActsOf(cfg, Run(cfg, steps[..n]), steps[n])
  }

  /** Every interleaving of claims, deliveries, commits, crashes, new events and retention refines
      the sequential machine; no row is ever locked by two workers. */
  lemma {:induction false} InterleavingRefinesSequential(cfg: Config, steps: seq<Step>)
    requires cfg.Valid() && IsRun(cfg, steps)
    ensures Inv(cfg, Run(cfg, steps))
    ensures Legal(cfg, EMPTY, Trace(cfg, steps))
    ensures RunActs(cfg, EMPTY, Trace(cfg, steps)) == Run(cfg, steps).db
  {
    if steps != [] {
      var n := |steps| - 1;
      InterleavingRefinesSequential(cfg, steps[..n]);
      var s := Run(cfg, steps[..n]);
      StepRefines(cfg, s, steps[n]);
      hide Inv, Enabled, Perform, ActsOf;
      RunActsAppend(cfg, EMPTY, Trace(cfg, steps[..n]), ActsOf(cfg, s, steps[n]));
    }
  }

  /** Exactly-once effect over every interleaving: the log holds a row for an event iff the event is
      completed and its row has not been purged; at most one attempt ever stored one; pending events
      have attempts left and failed ones have used them all. */
  lemma ExactlyOnceEffect(cfg: Config, steps: seq<Step>, id: nat)
    requires cfg.Valid() && IsRun(cfg, steps)
    ensures Legal(cfg, EMPTY, Trace(cfg, steps))
    ensures var db, h := Run(cfg, steps).db, Tries(cfg, Trace(cfg, steps), id);
            && (id in db.log <==> id < |db.outbox| && db.outbox[id].status == Completed && id !in Purged(cfg, Trace(cfg, steps)))
            && (forall i, j :: 0 <= i < |h| && 0 <= j < |h| && h[i].outcome.Stored? && h[j].outcome.Stored? ==> i == j)
            && (id < |db.outbox| ==> |h| == db.outbox[id].attempts && EventOk(cfg, db.outbox[id], id in db.log))
  {
    InterleavingRefinesSequential(cfg, steps);
    var acts := Trace(cfg, steps);
    hide Run, IsRun, Trace;
    LogIsCompletedMinusPurged(cfg, acts);
    DeliveredAtMostOnce(cfg, acts, id);
    TriesExplainEvent(cfg, acts, id);
    ReachableInv(cfg, acts);
    hide Tries, Purged, RunActs, Legal;
  }

  // ----- progress -----------------------------------------------------------------------------------------------

  lemma {:induction false} ActsDecrease(cfg: Config, db: Db, acts: seq<Act>)
    requires cfg.Valid() && Outbox.Inv(cfg, db) && Legal(cfg, db, acts) && forall i :: 0 <= i < |acts| ==> acts[i].Attempt?
    ensures Remaining(cfg, RunActs(cfg, db, acts).outbox) + |acts| <= Remaining(cfg, db.outbox)
    ensures Outbox.Inv(cfg, RunActs(cfg, db, acts))
  {
    if acts != [] {
      var n := |acts| - 1;
      ActsDecrease(cfg, db, acts[..n]);
      var mid := RunActs(cfg, db, acts[..n]);
      AttemptDecreases(cfg, mid, acts[n].id, acts[n].now, OutcomeOf(mid, acts[n].id, acts[n].ctx));
      PerformKeepsInv(cfg, mid, acts[n]);
    }
  }

  /** A commit uses up at least one remaining attempt for each event of its batch. */
  lemma CommitDecreases(cfg: Config, s: State, w: nat)
    requires cfg.Valid() && Inv(cfg, s) && Enabled(cfg, s, Commit(w))
    ensures Remaining(cfg, Perform(cfg, s, Commit(w)).db.outbox) + |s.workers[w].batch| <= Remaining(cfg, s.db.outbox)
  {
    var t := s.workers[w];
    CommitIsSequential(cfg, s.db, t);
    ActsDecrease(cfg, s.db, Acts(t));
  }
}
