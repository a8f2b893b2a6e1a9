/** Election of the one replica that may start scheduled jobs, by a PostgreSQL advisory lock.
    Every step is what happens between two awaits of one replica, or at the server. */
module Ownership {
  import opened Prelude

  /** A database session of one replica's pool; the lock belongs to the session. */
  datatype Session = Session(replica: nat, id: nat)

  /** Where a replica stands inside `try_acquire` or `release`. */
  datatype Pc = Idle | Acquiring | Granted(session: Session) | Refused | Unlocking | Closing | Stopped

  datatype Replica = Replica(running: bool, connection: Option<Session>, acquired: bool, owns: bool, pc: Pc)

  const NEW := Replica(false, None, false, true, Idle)

  /** An advisory lock is counted within its session. */
  datatype Lock = Free | Held(holder: Session, count: nat)

  datatype State = State(replicas: map<nat, Replica>, lock: Lock, dead: set<Session>)

  const INITIAL := State(map[], Free, {})

  function Get(s: State, r: nat): Replica {
    if r in s.replicas then s.replicas[r] else NEW
  }

  function With(s: State, r: nat, replica: Replica): State {
    s.(replicas := s.replicas[r := replica])
  }

  /** `owns_execution` where the ownership port is configured. */
  predicate Reports(s: State, r: nat) { Get(s, r).acquired }

  /** A job fires only under a running scheduler, and first asks `owns_execution`. */
  predicate CanStartJob(s: State, r: nat) { Get(s, r).running && Reports(s, r) }

  datatype Step =
    | Start(r: nat)
    | Begin(r: nat)
    | TryLock(r: nat, session: Session)
    | Answer(r: nat)
    | Interrupt(r: nat, cancelled: bool)
    | Probe(r: nat, failed: bool)
    | Stop(r: nat)
    | Unlock(r: nat, failed: bool)
    | Close(r: nat)
    | Die(session: Session)
    | Kill(r: nat)

  predicate Alive(s: State, session: Session) { session !in s.dead }

  predicate Enabled(s: State, step: Step) {
    match step
    case Start(r) => Get(s, r).pc == Idle
    case Begin(r) => Get(s, r).pc == Idle && !Get(s, r).acquired
    case TryLock(r, session) => Get(s, r).pc == Acquiring && session.replica == r && Alive(s, session)
    case Answer(r) => Get(s, r).pc.Granted? || Get(s, r).pc == Refused
    case Interrupt(r, _) => Get(s, r).pc == Acquiring || Get(s, r).pc.Granted? || Get(s, r).pc == Refused
    case Probe(r, failed) =>
      Get(s, r).pc == Idle && Get(s, r).connection.Some? && (!failed ==> Alive(s, Get(s, r).connection.value))
    case Stop(r) => Get(s, r).pc == Idle
    case Unlock(r, failed) => Get(s, r).pc == Unlocking && (!failed ==> Get(s, r).connection.Some? && Alive(s, Get(s, r).connection.value))
    case Close(r) => Get(s, r).pc == Closing
    case Die(session) => Alive(s, session)
    case Kill(_) => true
  }

  /** The server drops what a session held. */
  function Released(lock: Lock, gone: set<Session>): Lock {
    if lock.Held? && lock.holder in gone then Free else lock
  }

  function Unlocked(lock: Lock, session: Session): Lock {
    if lock.Held? && lock.holder == session then (if lock.count > 1 then Held(session, lock.count - 1) else Free) else lock
  }

  function Perform(s: State, step: Step): State {
    match step
    case Start(r) => With(s, r, Get(s, r).(running := true))
    case Begin(r) => With(s, r, Get(s, r).(pc := Acquiring))
    case TryLock(r, session) =>
      if s.lock.Free? || s.lock.holder == session then
        With(s, r, Get(s, r).(pc := Granted(session))).(lock := Held(session, if s.lock.Free? then 1 else s.lock.count + 1))
      else With(s, r, Get(s, r).(pc := Refused))
    case Answer(r) =>
      (match Get(s, r).pc
       case Granted(session) => With(s, r, Get(s, r).(connection := Some(session), acquired := true, owns := true, pc := Idle))
       case _ => With(s, r, Get(s, r).(acquired := false, owns := false, pc := Idle)))
    case Interrupt(r, cancelled) => With(s, r, Get(s, r).(owns := cancelled && Get(s, r).owns, pc := Idle))
    case Probe(r, failed) => With(s, r, Get(s, r).(owns := !failed && Get(s, r).owns))
    case Stop(r) =>
      if Get(s, r).connection.Some? then With(s, r, Get(s, r).(running := false, pc := Unlocking))
      else With(s, r, Get(s, r).(running := false, acquired := false, owns := false, pc := Stopped))
    case Unlock(r, failed) =>
      var s' := With(s, r, Get(s, r).(pc := Closing));
      if failed || Get(s, r).connection.None? then s' else s'.(lock := Unlocked(s.lock, Get(s, r).connection.value))
    case Close(r) => With(s, r, Get(s, r).(connection := None, acquired := false, owns := false, pc := Stopped))
    case Die(session) => s.(dead := s.dead + {session}, lock := Released(s.lock, {session}))
    case Kill(r) =>
      var s' := With(s, r, Replica(false, None, false, false, Stopped));
      if s.lock.Held? && s.lock.holder.replica == r then s'.(lock := Free, dead := s.dead + {s.lock.holder}) else s'
  }

  predicate IsRun(steps: seq<Step>)
    decreases |steps|
  {
    steps == [] || (IsRun(steps[..|steps| - 1]) && Enabled(Run(steps[..|steps| - 1]), steps[|steps| - 1]))
  }

  function Run(steps: seq<Step>): State {
    if steps == [] then INITIAL else Perform(Run(steps[..|steps| - 1]), steps[|steps| - 1])
  }

  // ----- the invariant -------------------------------------------------------------------

  /** The server has released the lock of this replica, or has been asked to, and the replica has
      not yet cleared its own flag. */
  predicate Releasing(s: State, r: nat) { Get(s, r).pc == Closing }

  /** The session that the replica believes to hold the lock is gone. */
  predicate Lost(s: State, r: nat) {
    Get(s, r).connection.Some? && !Alive(s, Get(s, r).connection.value)
  }

  predicate Holds(s: State, r: nat) {
    s.lock.Held? && Get(s, r).connection == Some(s.lock.holder)
  }

  predicate ReplicaOk(s: State, r: nat) {
    var x := Get(s, r);
    && (x.acquired <==> x.connection.Some?)
    && (x.connection.Some? ==> x.connection.value.replica == r)
    && (x.pc.Acquiring? || x.pc.Granted? || x.pc.Refused? || x.pc.Stopped? ==> !x.acquired)
    && (x.pc.Unlocking? || x.pc.Closing? ==> x.acquired)
    && (x.running ==> !x.pc.Unlocking? && !x.pc.Closing? && !x.pc.Stopped?)
    && (x.pc.Granted? ==> x.pc.session.replica == r && (Alive(s, x.pc.session) ==> s.lock.Held? && s.lock.holder == x.pc.session))
    && (x.acquired ==> Holds(s, r) || Releasing(s, r) || Lost(s, r))
  }

  ghost predicate Inv(s: State) {
    && (forall r: nat :: ReplicaOk(s, r))
    && (s.lock.Held? ==> s.lock.count >= 1 && Alive(s, s.lock.holder))
  }

  lemma StepKeepsInv(s: State, step: Step)
    requires Inv(s) && Enabled(s, step)
    ensures Inv(Perform(s, step))
  {
    var s' := Perform(s, step);
    forall r: nat ensures ReplicaOk(s', r) {
      StepKeepsReplica(s, step, r);
    }
    hide ReplicaOk;
  }

  predicate Acts(step: Step, r: nat) { !step.Die? && step.r == r }

  lemma StepKeepsReplica(s: State, step: Step, r: nat)
    requires Inv(s) && Enabled(s, step)
    ensures ReplicaOk(Perform(s, step), r)
  {
    assert ReplicaOk(s, r);
    if Acts(step, r) {
      if step.TryLock? || step.Answer? || step.Interrupt? {
        AcquiringKeepsReplica(s, step);
      } else {
        ActorKeepsReplica(s, step);
      }
    } else {
      assert !step.Die? ==> ReplicaOk(s, step.r);
      hide Inv;
      BystanderLock(s, step, r);
      hide Perform, Enabled;
      BystanderKeepsReplica(s, Perform(s, step), r);
    }
  }

  lemma AcquiringKeepsReplica(s: State, step: Step)
    requires (step.TryLock? || step.Answer? || step.Interrupt?) && ReplicaOk(s, step.r) && Enabled(s, step)
    ensures ReplicaOk(Perform(s, step), step.r)
  {
  }

  lemma ActorKeepsReplica(s: State, step: Step)
    requires !step.Die? && !step.TryLock? && !step.Answer? && !step.Interrupt?
    requires ReplicaOk(s, step.r) && Enabled(s, step)
    ensures ReplicaOk(Perform(s, step), step.r)
  {
  }

  /** A session of replica `r` that holds the lock still does, unless it has died. */
  ghost predicate KeepsLockOf(s: State, s': State, r: nat) {
    && s.dead <= s'.dead
    && (s.lock.Held? && s.lock.holder.replica == r && Alive(s', s.lock.holder) ==> s'.lock.Held? && s'.lock.holder == s.lock.holder)
  }

  lemma BystanderLock(s: State, step: Step, r: nat)
    requires Enabled(s, step) && !Acts(step, r) && (!step.Die? ==> ReplicaOk(s, step.r))
    ensures Get(Perform(s, step), r) == Get(s, r) && KeepsLockOf(s, Perform(s, step), r)
  {
  }

  lemma BystanderKeepsReplica(s: State, s': State, r: nat)
    requires ReplicaOk(s, r) && Get(s', r) == Get(s, r) && KeepsLockOf(s, s', r)
    ensures ReplicaOk(s', r)
  {
    hide Get;
  }

  lemma {:induction false} ReachableInv(steps: seq<Step>)
    requires IsRun(steps)
    ensures Inv(Run(steps))
  {
    if steps == [] {
      assert forall r: nat :: ReplicaOk(INITIAL, r);
    } else {
      ReachableInv(steps[..|steps| - 1]);
      StepKeepsInv(Run(steps[..|steps| - 1]), steps[|steps| - 1]);
    }
  }

  // ----- who may report ownership ----------------------------------------------------------

  /** In every reachable state a replica that reports ownership holds the lock, is in the middle of
      its release, or has lost its connection; so two replicas report at once only if one of them is
      releasing or lost, and a releasing one can no longer start a job. */
  lemma AtMostOneOwner(steps: seq<Step>, q: nat, r: nat)
    requires IsRun(steps)
    ensures var s := Run(steps);
            && (Reports(s, r) ==> Holds(s, r) || Releasing(s, r) || Lost(s, r))
            && (Reports(s, q) && Reports(s, r) && q != r ==> Releasing(s, q) || Lost(s, q) || Releasing(s, r) || Lost(s, r))
            && (Releasing(s, r) ==> !CanStartJob(s, r)) && (CanStartJob(s, r) ==> Reports(s, r))
  {
    ReachableInv(steps);
    assert ReplicaOk(Run(steps), q) && ReplicaOk(Run(steps), r);
  }

  /** No session dies while it holds the lock, except with its whole process. */
  ghost predicate HoldersSurvive(steps: seq<Step>) {
    forall i :: 0 <= i < |steps| && steps[i].Die? ==>
      var s := Run(steps[..i]);
      !(s.lock.Held? && s.lock.holder == steps[i].session)
  }

  predicate Sound(s: State, r: nat) {
    && (Lost(s, r) ==> Releasing(s, r))
    && (Get(s, r).pc.Granted? ==> Alive(s, Get(s, r).pc.session))
  }

  lemma {:induction false} SurvivorsNotLost(steps: seq<Step>, r: nat)
    requires IsRun(steps) && HoldersSurvive(steps)
    ensures Sound(Run(steps), r)
  {
    if steps != [] {
      var n := |steps| - 1;
      PrefixSurvives(steps);
      SurvivorsNotLost(steps[..n], r);
      ReachableInv(steps[..n]);
      var s, step := Run(steps[..n]), steps[n];
      assert ReplicaOk(s, r) && (step.Kill? ==> ReplicaOk(s, step.r));
      assert step.Die? && s.lock.Held? ==> s.lock.holder != step.session;
      assert s.lock.Held? ==> Alive(s, s.lock.holder);
      hide IsRun, HoldersSurvive, Inv, Sound;
      StepKeepsSound(s, step, r);
    }
  }

  lemma PrefixSurvives(steps: seq<Step>)
    requires steps != [] && HoldersSurvive(steps)
    ensures HoldersSurvive(steps[..|steps| - 1])
  {
    var before := steps[..|steps| - 1];
    forall i | 0 <= i < |before| && before[i].Die?
      ensures var s := Run(before[..i]); !(s.lock.Held? && s.lock.holder == before[i].session)
    {
      assert before[..i] == steps[..i] && before[i] == steps[i];
    }
    hide Run;
  }

  lemma StepKeepsSound(s: State, step: Step, r: nat)
    requires ReplicaOk(s, r) && (step.Kill? ==> ReplicaOk(s, step.r)) && Enabled(s, step) && Sound(s, r)
    requires s.lock.Held? ==> Alive(s, s.lock.holder)
    requires step.Die? && s.lock.Held? ==> s.lock.holder != step.session
    ensures Sound(Perform(s, step), r)
  {
  }

  /** Mutual exclusion, while no connection that holds the lock dies: in every interleaving at most
      one replica can start jobs, and two report ownership only while one of them is releasing. */
  lemma MutualExclusion(steps: seq<Step>, q: nat, r: nat)
    requires IsRun(steps) && HoldersSurvive(steps)
    ensures var s := Run(steps);
            && (CanStartJob(s, q) && CanStartJob(s, r) ==> q == r)
            && (Reports(s, q) && Reports(s, r) && q != r ==> Releasing(s, q) || Releasing(s, r))
  {
    hide *;
    AtMostOneOwner(steps, q, r);
    AtMostOneOwner(steps, r, q);
    SurvivorsNotLost(steps, q);
    SurvivorsNotLost(steps, r);
    SoundIsNotLost(Run(steps), q);
    SoundIsNotLost(Run(steps), r);
  }

  lemma SoundIsNotLost(s: State, r: nat)
    requires Sound(s, r)
    ensures Lost(s, r) ==> Releasing(s, r)
  {
  }

  // ----- where exclusion fails -----------------------------------------------------------------

  lemma Extend(steps: seq<Step>, step: Step)
    requires IsRun(steps) && Enabled(Run(steps), step)
    ensures IsRun(steps + [step]) && Run(steps + [step]) == Perform(Run(steps), step)
  {
    assert (steps + [step])[..|steps + [step]| - 1] == steps;
  }

  /** Replica 0 becomes the running owner. */
  lemma FirstOwner() returns (steps: seq<Step>)
    ensures IsRun(steps)
    ensures Run(steps) == State(map[0 := Replica(true, Some(Session(0, 0)), true, true, Idle)], Held(Session(0, 0), 1), {})
  {
    steps := [];
    Extend(steps, Start(0));
    steps := steps + [Start(0)];
    Extend(steps, Begin(0));
    steps := steps + [Begin(0)];
    Extend(steps, TryLock(0, Session(0, 0)));
    steps := steps + [TryLock(0, Session(0, 0))];
    Extend(steps, Answer(0));
    steps := steps + [Answer(0)];
  }

  /** From a free lock, replica 1 acquires it. */
  lemma SecondOwner(steps: seq<Step>) returns (all: seq<Step>)
    requires IsRun(steps) && Run(steps).lock.Free? && 1 !in Run(steps).replicas && Run(steps).dead <= {Session(0, 0)}
    ensures IsRun(all)
    ensures Run(all) == Run(steps).(
              replicas := Run(steps).replicas[1 := Replica(true, Some(Session(1, 0)), true, true, Idle)],
              lock := Held(Session(1, 0), 1))
  {
    hide Run, IsRun;
    all := steps;
    Extend(all, Start(1));
    all := all + [Start(1)];
    Extend(all, Begin(1));
    all := all + [Begin(1)];
    Extend(all, TryLock(1, Session(1, 0)));
    all := all + [TryLock(1, Session(1, 0))];
    Extend(all, Answer(1));
    all := all + [Answer(1)];
  }

  /** Replica 0 has unlocked and not yet closed. */
  lemma UnlockedOwner() returns (steps: seq<Step>)
    ensures IsRun(steps)
    ensures var s := Run(steps);
            s.lock.Free? && s.dead == {} && 1 !in s.replicas && Reports(s, 0) && Releasing(s, 0)
  {
    steps := FirstOwner();
    hide Run, IsRun;
    Extend(steps, Stop(0));
    steps := steps + [Stop(0)];
    Extend(steps, Unlock(0, false));
    steps := steps + [Unlock(0, false)];
  }

  /** `release` unlocks at the server before it clears its flag: in between, two replicas report
      ownership although no connection has died. */
  lemma ReleaseWindow() returns (steps: seq<Step>)
    ensures IsRun(steps) && Run(steps).dead == {}
    ensures Reports(Run(steps), 0) && Reports(Run(steps), 1) && Releasing(Run(steps), 0)
  {
    steps := UnlockedOwner();
    hide Run, IsRun;
    steps := SecondOwner(steps);
  }

  /** A lost connection frees the lock, and nothing tells the old owner: both can start jobs. */
  lemma LostConnectionWindow() returns (steps: seq<Step>)
    ensures IsRun(steps)
    ensures CanStartJob(Run(steps), 0) && CanStartJob(Run(steps), 1) && Lost(Run(steps), 0)
  {
    steps := FirstOwner();
    hide Run, IsRun;
    Extend(steps, Die(Session(0, 0)));
    steps := steps + [Die(Session(0, 0))];
    Extend(steps, Probe(0, true));
    steps := steps + [Probe(0, true)];
    steps := SecondOwner(steps);
  }

  function RunFrom(s: State, steps: seq<Step>): State {
    if steps == [] then s else Perform(RunFrom(s, steps[..|steps| - 1]), steps[|steps| - 1])
  }

  predicate IsRunFrom(s: State, steps: seq<Step>)
    decreases |steps|
  {
    steps == [] || (IsRunFrom(s, steps[..|steps| - 1]) && Enabled(RunFrom(s, steps[..|steps| - 1]), steps[|steps| - 1]))
  }

  /** A lost owner never finds out: whatever probes follow, and whoever else takes the lock, it keeps
      reporting ownership until it is stopped or killed; a probe that fails clears `_owns_execution`
      only, which nothing reads where the port is configured. */
  lemma {:induction false} LostOwnerNeverRecovers(s: State, steps: seq<Step>, r: nat)
    requires Inv(s) && Lost(s, r) && Get(s, r).pc == Idle && IsRunFrom(s, steps)
    requires forall i :: 0 <= i < |steps| ==> steps[i] != Stop(r) && steps[i] != Kill(r)
    ensures var s' := RunFrom(s, steps);
            Reports(s', r) && Lost(s', r) && Get(s', r).pc == Idle && Inv(s')
            && (CanStartJob(s, r) ==> CanStartJob(s', r))
            && (Probe(r, true) in steps ==> !Get(s', r).owns)
  {
    assert ReplicaOk(s, r);
    if steps != [] {
      var n := |steps| - 1;
      LostOwnerNeverRecovers(s, steps[..n], r);
      var mid := RunFrom(s, steps[..n]);
      StepKeepsInv(mid, steps[n]);
      LostOwnerStep(mid, steps[n], r);
      assert steps == steps[..n] + [steps[n]];
      hide Inv, ReplicaOk, Perform, Enabled, Lost, Reports, CanStartJob;
    }
  }

  lemma LostOwnerStep(s: State, step: Step, r: nat)
    requires Reports(s, r) && Lost(s, r) && Get(s, r).pc == Idle && Enabled(s, step) && step != Stop(r) && step != Kill(r)
    ensures var s' := Perform(s, step);
            Reports(s', r) && Lost(s', r) && Get(s', r).pc == Idle
            && (CanStartJob(s, r) ==> CanStartJob(s', r))
            && (step == Probe(r, true) || !Get(s, r).owns ==> !Get(s', r).owns)
  {
  }

  /** Failover: once the lock is free, any idle replica that tries with a live session gets it. */
  lemma FailoverSucceeds(s: State, r: nat, session: Session)
    requires Inv(s) && s.lock.Free? && Get(s, r).pc == Idle && !Reports(s, r)
    requires session.replica == r && Alive(s, session)
    ensures IsRunFrom(s, Failover(r, session))
    ensures var s' := RunFrom(s, Failover(r, session)); Reports(s', r) && Holds(s', r)
  {
    RunFromThree(s, Begin(r), TryLock(r, session), Answer(r));
  }

  function Failover(r: nat, session: Session): seq<Step> {
    [Begin(r), TryLock(r, session), Answer(r)]
  }

  lemma RunFromThree(s: State, a: Step, b: Step, c: Step)
    ensures RunFrom(s, [a, b, c]) == Perform(Perform(Perform(s, a), b), c)
    ensures IsRunFrom(s, [a, b, c]) <==> Enabled(s, a) && Enabled(Perform(s, a), b) && Enabled(Perform(Perform(s, a), b), c)
  {
    assert [a, b, c][..2] == [a, b] && [a, b][..1] == [a] && [a][..0] == [];
    hide Perform, Enabled;
    assert RunFrom(s, []) == s && IsRunFrom(s, []);
    assert RunFrom(s, [a]) == Perform(s, a) && (IsRunFrom(s, [a]) <==> Enabled(s, a));
    assert RunFrom(s, [a, b]) == Perform(Perform(s, a), b);
    assert IsRunFrom(s, [a, b]) <==> Enabled(s, a) && Enabled(Perform(s, a), b);
  }

  /** The condition of exclusion is needed: whenever the session of an idle owner dies, any other idle
      replica can become a second owner. */
  lemma LossAdmitsSecondOwner(s: State, r: nat, q: nat, session: Session)
    requires Inv(s) && Holds(s, r) && Get(s, r).pc == Idle
    requires q != r && Get(s, q).pc == Idle && !Reports(s, q) && session.replica == q && Alive(s, session)
    ensures Enabled(s, Die(s.lock.holder))
    ensures var lost := Perform(s, Die(s.lock.holder));
            && IsRunFrom(lost, Failover(q, session))
            && Reports(RunFrom(lost, Failover(q, session)), q) && Reports(RunFrom(lost, Failover(q, session)), r)
  {
    assert ReplicaOk(s, r);
    RunFromThree(Perform(s, Die(s.lock.holder)), Begin(q), TryLock(q, session), Answer(q));
  }

  /** So does every release whose unlock takes effect. */
  lemma ReleaseAdmitsSecondOwner(s: State, r: nat, q: nat, session: Session)
    requires Inv(s) && Holds(s, r) && s.lock.count == 1 && Get(s, r).pc == Unlocking
    requires q != r && Get(s, q).pc == Idle && !Reports(s, q) && session.replica == q && Alive(s, session)
    ensures Enabled(s, Unlock(r, false))
    ensures var free := Perform(s, Unlock(r, false));
            && IsRunFrom(free, Failover(q, session))
            && Reports(RunFrom(free, Failover(q, session)), q) && Reports(RunFrom(free, Failover(q, session)), r)
  {
    assert ReplicaOk(s, r);
    RunFromThree(Perform(s, Unlock(r, false)), Begin(q), TryLock(q, session), Answer(q));
  }

  /** What ends the hold of a session: its death, that of its process, or its last unlock. */
  predicate LetsGo(s: State, step: Step) {
    s.lock.Held? &&
    (step == Die(s.lock.holder) || step == Kill(s.lock.holder.replica) ||
     (step == Unlock(s.lock.holder.replica, false) && Holds(s, s.lock.holder.replica)
      && Get(s, s.lock.holder.replica).pc == Unlocking && s.lock.count == 1))
  }

  /** The lock is never stuck with an owner that has gone: after any of these steps every other idle replica
      that tries with a live session gets it; and no other step but that owner's own takes it away. */
  lemma LockIsHandedOn(s: State, step: Step, q: nat, session: Session)
    requires Inv(s) && s.lock.Held? && (Enabled(s, step) || LetsGo(s, step))
    requires Get(s, q).pc == Idle && !Reports(s, q) && session.replica == q && Alive(s, session) && s.lock.holder.replica != q
    ensures LetsGo(s, step) ==>
              Enabled(s, step) && IsRunFrom(Perform(s, step), Failover(q, session)) && Holds(RunFrom(Perform(s, step), Failover(q, session)), q)
    ensures !LetsGo(s, step) ==>
              Perform(s, step).lock.Held? && Perform(s, step).lock.holder == s.lock.holder
  {
    if LetsGo(s, step) {
      assert Perform(s, step).lock.Free?;
      assert Get(Perform(s, step), q) == Get(s, q) && Alive(Perform(s, step), session);
      AcquireIs(Perform(s, step), q, session);
    } else if step.Unlock? {
      assert ReplicaOk(s, step.r);
    }
    hide RunFrom, IsRunFrom;
  }

  /** What may go wrong at any time: a probe or an unlock fails, whether its session lives or not, an
      acquisition is interrupted, a session dies, a process is killed; but neither succeeds in a dead session. */
  lemma MayFail(s: State, r: nat, session: Session, cancelled: bool)
    ensures Enabled(s, Kill(r)) && (Alive(s, session) ==> Enabled(s, Die(session)))
    ensures Get(s, r).pc.Acquiring? || Get(s, r).pc.Granted? || Get(s, r).pc.Refused? ==> Enabled(s, Interrupt(r, cancelled))
    ensures Get(s, r).pc == Idle && Get(s, r).connection == Some(session) ==>
              Enabled(s, Probe(r, true)) && (Enabled(s, Probe(r, false)) <==> session !in s.dead)
    ensures Get(s, r).pc == Unlocking && Get(s, r).connection == Some(session) ==>
              Enabled(s, Unlock(r, true)) && (Enabled(s, Unlock(r, false)) <==> session !in s.dead)
  {
  }

  /** The flag `_owns_execution`: true at first; after an acquisition it says whether the lock was granted, after
      a stop or a failed probe it is false; a failed acquisition clears it, a cancelled one and a probe that
      succeeds leave it alone.  No step touches another replica. */
  lemma OwnsIs(s: State, step: Step, q: nat)
    requires Enabled(s, step)
    ensures Get(INITIAL, q) == Replica(false, None, false, true, Idle)
    ensures step.Die? || step.r != q ==> Get(Perform(s, step), q) == Get(s, q)
    ensures !step.Die? && step.r == q ==>
              var before, after := Get(s, q), Get(Perform(s, step), q);
              match step
              case Answer(_) => after.owns == after.acquired == before.pc.Granted?
              case Interrupt(_, cancelled) => after.owns == (cancelled && before.owns) && after.acquired == before.acquired
              case Probe(_, failed) => after.owns == (!failed && before.owns) && after.acquired == before.acquired
              case Stop(_) => !after.running && (after.pc == Stopped ==> !after.owns && !after.acquired)
              case Close(_) => !after.owns && !after.acquired && after.connection == None
              case Kill(_) => !after.owns && !after.acquired && !after.running
              case _ => after.owns == before.owns && after.acquired == before.acquired
  {
  }

  // ----- a lock that nobody claims ----------------------------------------------------------------

  /** No replica rests on this session or is about to. */
  ghost predicate Unclaimed(s: State, session: Session) {
    forall r: nat :: Get(s, r).connection != Some(session) && Get(s, r).pc != Granted(session)
  }

  /** An acquisition that is interrupted after the grant leaves the lock with a session that no replica
      claims. */
  lemma InterruptLeaksLock(s: State, r: nat, session: Session, cancelled: bool)
    requires Inv(s) && Get(s, r).pc == Granted(session) && Alive(s, session)
    ensures var s' := Perform(s, Interrupt(r, cancelled));
            && Enabled(s, Interrupt(r, cancelled))
            && s'.lock == s.lock && s.lock.Held? && s.lock.holder == session && Unclaimed(s', session) && !Reports(s', r)
  {
    assert ReplicaOk(s, r) && session.replica == r && Get(s, r).connection.None?;
    var s' := Perform(s, Interrupt(r, cancelled));
    forall q: nat ensures Get(s', q).connection != Some(session) && Get(s', q).pc != Granted(session) {
      assert ReplicaOk(s, q);
    }
  }

  /** From then on no replica becomes owner, whatever all of them do, until that session dies or tries
      again itself. */
  lemma {:induction false} UnclaimedLockBlocks(s: State, steps: seq<Step>, session: Session, q: nat)
    requires Inv(s) && s.lock.Held? && s.lock.holder == session && Unclaimed(s, session) && IsRunFrom(s, steps)
    requires forall i :: 0 <= i < |steps| ==>
               steps[i] != Die(session) && steps[i] != Kill(session.replica) && steps[i] != TryLock(session.replica, session)
    requires !Reports(s, q) && !Get(s, q).pc.Granted?
    ensures var s' := RunFrom(s, steps);
            && Inv(s') && s'.lock == s.lock && Unclaimed(s', session) && !Reports(s', q) && !Get(s', q).pc.Granted?
  {
    if steps != [] {
      var n := |steps| - 1;
      UnclaimedLockBlocks(s, steps[..n], session, q);
      var mid := RunFrom(s, steps[..n]);
      StepKeepsInv(mid, steps[n]);
      hide Inv, RunFrom;
      UnclaimedStep(mid, steps[n], session, q);
    }
  }

  lemma UnclaimedStep(s: State, step: Step, session: Session, q: nat)
    requires s.lock.Held? && s.lock.holder == session && Unclaimed(s, session) && Enabled(s, step)
    requires step != Die(session) && step != Kill(session.replica) && step != TryLock(session.replica, session)
    requires !Reports(s, q) && !Get(s, q).pc.Granted?
    ensures var s' := Perform(s, step);
            s'.lock == s.lock && Unclaimed(s', session) && !Reports(s', q) && !Get(s', q).pc.Granted?
  {
    hide Unclaimed;
    assert step.Unlock? ==> Get(s, step.r).connection != Some(session) by {
      ClaimedByNone(s, session, if step.Unlock? then step.r else 0);
    }
    var s' := Perform(s, step);
    forall r: nat ensures Get(s', r).connection != Some(session) && Get(s', r).pc != Granted(session) {
      ClaimedByNone(s, session, r);
    }
    assert Unclaimed(s', session) by { UnclaimedFrom(s', session); }
  }

  lemma ClaimedByNone(s: State, session: Session, r: nat)
    requires Unclaimed(s, session)
    ensures Get(s, r).connection != Some(session) && Get(s, r).pc != Granted(session)
  {
  }

  lemma UnclaimedFrom(s: State, session: Session)
    requires forall r: nat :: Get(s, r).connection != Some(session) && Get(s, r).pc != Granted(session)
    ensures Unclaimed(s, session)
  {
  }

  function Handover(r: nat): seq<Step> {
    [Stop(r), Unlock(r, false), Close(r)]
  }

  /** Acquiring and releasing leaves the lock as it was: free if it was free; but a lock that the session held
      already stays held, because it is counted, so that a leaked lock is not given back either. */
  lemma ReleaseUndoesAcquire(s: State, r: nat, session: Session)
    requires Inv(s) && Get(s, r).pc == Idle && !Reports(s, r) && session.replica == r && Alive(s, session)
    requires s.lock.Free? || s.lock.holder == session
    ensures IsRunFrom(s, Failover(r, session)) && Reports(RunFrom(s, Failover(r, session)), r)
    ensures var owner := RunFrom(s, Failover(r, session));
            && IsRunFrom(owner, Handover(r))
            && var end := RunFrom(owner, Handover(r));
               end.lock == s.lock && !Reports(end, r) && !CanStartJob(end, r)
  {
    AcquireIs(s, r, session);
    hide Inv, RunFrom, IsRunFrom, Enabled, Perform;
    HandoverIs(RunFrom(s, Failover(r, session)), r, session);
  }

  lemma AcquireIs(s: State, r: nat, session: Session)
    requires Get(s, r).pc == Idle && !Reports(s, r) && session.replica == r && Alive(s, session)
    requires s.lock.Free? || s.lock.holder == session
    ensures IsRunFrom(s, Failover(r, session))
    ensures var owner := RunFrom(s, Failover(r, session));
            && owner.lock == Held(session, if s.lock.Free? then 1 else s.lock.count + 1) && owner.dead == s.dead
            && Get(owner, r) == Get(s, r).(connection := Some(session), acquired := true, owns := true, pc := Idle)
  {
    RunFromThree(s, Begin(r), TryLock(r, session), Answer(r));
    hide RunFrom, IsRunFrom;
    var a := Perform(s, Begin(r));
    assert Enabled(a, TryLock(r, session)) && Get(a, r) == Get(s, r).(pc := Acquiring) && a.lock == s.lock && a.dead == s.dead;
    var b := Perform(a, TryLock(r, session));
    assert Get(b, r) == Get(s, r).(pc := Granted(session));
  }

  lemma HandoverIs(s: State, r: nat, session: Session)
    requires Get(s, r).pc == Idle && Get(s, r).connection == Some(session) && Alive(s, session)
    requires s.lock.Held? && s.lock.holder == session
    ensures IsRunFrom(s, Handover(r))
    ensures var end := RunFrom(s, Handover(r));
            && end.lock == (if s.lock.count > 1 then Held(session, s.lock.count - 1) else Free)
            && !Reports(end, r) && !CanStartJob(end, r)
  {
    hide RunFrom, IsRunFrom, Perform, Enabled, Get, Reports, CanStartJob;
    RunFromThree(s, Stop(r), Unlock(r, false), Close(r));
    var a := Perform(s, Stop(r));
    StopIs(s, r, session);
    UnlockIs(a, r, session);
    CloseIs(Perform(a, Unlock(r, false)), r);
  }

  lemma StopIs(s: State, r: nat, session: Session)
    requires Get(s, r).pc == Idle && Get(s, r).connection == Some(session)
    ensures Enabled(s, Stop(r))
    ensures var a := Perform(s, Stop(r));
            Get(a, r).pc == Unlocking && Get(a, r).connection == Some(session) && a.lock == s.lock && (Alive(s, session) ==> Alive(a, session))
  {
  }

  lemma UnlockIs(s: State, r: nat, session: Session)
    requires Get(s, r).pc == Unlocking && Get(s, r).connection == Some(session) && Alive(s, session)
    requires s.lock.Held? && s.lock.holder == session
    ensures Enabled(s, Unlock(r, false))
    ensures var b := Perform(s, Unlock(r, false));
            Get(b, r).pc == Closing && b.lock == if s.lock.count > 1 then Held(session, s.lock.count - 1) else Free
  {
  }

  lemma CloseIs(s: State, r: nat)
    requires Get(s, r).pc == Closing
    ensures Enabled(s, Close(r))
    ensures var c := Perform(s, Close(r)); c.lock == s.lock && !Reports(c, r) && !CanStartJob(c, r)
  {
  }

  // ----- the adapter, when nothing interleaves ---------------------------------------------------

  class Server {
    var lock: Lock
    var dead: set<Session>

    constructor ()
      ensures lock == Free && dead == {}
    {
      lock, dead := Free, {};
    }

    /** `pg_try_advisory_lock`; a dead session answers with an exception. */
    method TryAdvisoryLock(session: Session) returns (granted: Option<bool>)
      modifies this
      ensures dead == old(dead)
      ensures session in dead ==> granted == None && lock == old(lock)
      ensures session !in dead ==>
                granted == Some(old(lock).Free? || old(lock).holder == session) &&
                lock == if !granted.value then old(lock) else Held(session, if old(lock).Free? then 1 else old(lock).count + 1)
    {
      if session in dead {
        return None;
      }
      granted := Some(lock.Free? || lock.holder == session);
      if granted.value {
        lock := Held(session, if lock.Free? then 1 else lock.count + 1);
      }
    }

    method AdvisoryUnlock(session: Session) returns (ok: bool)
      modifies this
      ensures dead == old(dead) && ok == (session !in dead)
      ensures lock == if ok then Unlocked(old(lock), session) else old(lock)
    {
      if session in dead {
        return false;
      }
      lock := Unlocked(lock, session);
      ok := true;
    }
  }

  class SqlAlchemySchedulerOwnership {
    const server: Server
    const replica: nat
    var connection: Option<Session>
    var acquired: bool

    constructor (server: Server, replica: nat)
      ensures this.server == server && this.replica == replica && connection == None && !acquired
    {
      this.server, this.replica := server, replica;
      connection, acquired := None, false;
    }

    /** The adapter and the server are this replica's part of a state. */
    ghost predicate Shows(s: State)
      reads this, server
    {
      && s.lock == server.lock && s.dead == server.dead
      && Get(s, replica).connection == connection && Get(s, replica).acquired == acquired
    }

    method TryAcquire(session: Session, ghost s: State) returns (r: Option<bool>)
      requires Shows(s) && Inv(s) && Get(s, replica).pc == Idle && session.replica == replica
      modifies this, server
      ensures acquired == (old(acquired) || r == Some(true))
      ensures old(acquired) ==> r == Some(true) && Shows(s)
      ensures !old(acquired) && Alive(s, session) ==>
                && IsRunFrom(s, Failover(replica, session))
                && Shows(RunFrom(s, Failover(replica, session)))
                && r == Some(Reports(RunFrom(s, Failover(replica, session)), replica))
      ensures !old(acquired) && !Alive(s, session) ==> r == None && Shows(s)
    {
      assert ReplicaOk(s, replica);
      if acquired && connection.Some? {
        return Some(true);
      }
      RunFromThree(s, Begin(replica), TryLock(replica, session), Answer(replica));
      r := server.TryAdvisoryLock(session);
      if r == None {
        return;
      }
      if !r.value {
        acquired := false;
        return;
      }
      connection := Some(session);
      acquired := true;
    }

    /** The answer says which probe of the machine this was; whichever it is, the adapter's fields still
        show the next state, because a probe clears no flag that they hold. */
    method Probe(ghost s: State) returns (live: bool)
      requires Shows(s) && Inv(s) && Get(s, replica).pc == Idle
      ensures live ==> Holds(s, replica)
      ensures connection.Some? ==> Enabled(s, Step.Probe(replica, !live)) && Shows(Perform(s, Step.Probe(replica, !live)))
      ensures connection.Some? && !live ==> Lost(s, replica)
      ensures connection.None? ==> !live && !Reports(s, replica)
    {
      assert ReplicaOk(s, replica);
      live := connection.Some? && connection.value !in server.dead;
    }

    method Release(ghost s: State) returns (ghost end: State)
      requires Shows(s) && Inv(s) && Get(s, replica).pc == Idle
      modifies this, server
      ensures Shows(end) && !acquired && connection == None
      ensures end == if old(connection).None? then Perform(s, Stop(replica))
                     else RunFrom(s, [Stop(replica), Unlock(replica, !Alive(s, old(connection).value)), Close(replica)])
    {
      end := Perform(s, Stop(replica));
      if connection.Some? {
        RunFromThree(s, Stop(replica), Unlock(replica, !Alive(s, connection.value)), Close(replica));
        end := RunFrom(s, [Stop(replica), Unlock(replica, !Alive(s, connection.value)), Close(replica)]);
        var _ := server.AdvisoryUnlock(connection.value);
        connection := None;
      }
      acquired := false;
    }
  }
}
