/** The election without the ownership port: each replica holds the lock connection itself, and its
    monitor gives the claim up when a probe fails. */
module LegacyOwnership {
  import opened Prelude
  import Ownership

  type Session = Ownership.Session

  type Lock = Ownership.Lock

  datatype Pc = Idle | Acquiring | Granted(session: Session) | Refused | Dropping | Unlocking | Closing | Stopped

  /** `owns` starts as true: until a replica has asked for the lock it claims to own it. */
  datatype Replica = Replica(connection: Option<Session>, owns: bool, asked: bool, monitored: bool, pc: Pc)

  const NEW := Replica(None, true, false, true, Idle)

  datatype State = State(replicas: map<nat, Replica>, lock: Lock, dead: set<Session>)

  const INITIAL := State(map[], Ownership.Free, {})

  function Get(s: State, r: nat): Replica {
    if r in s.replicas then s.replicas[r] else NEW
  }

  function With(s: State, r: nat, replica: Replica): State {
    s.(replicas := s.replicas[r := replica])
  }

  /** `owns_execution` where no ownership port is configured. */
  predicate Reports(s: State, r: nat) { Get(s, r).owns }

  predicate Alive(s: State, session: Session) { session !in s.dead }

  datatype Step =
    | Begin(r: nat)
    | TryLock(r: nat, session: Session)
    | Answer(r: nat)
    | Interrupt(r: nat)
    | Probe(r: nat, failed: bool)
    | Drop(r: nat, raises: bool)
    | Stop(r: nat)
    | Unlock(r: nat, failed: bool)
    | Close(r: nat)
    | Die(session: Session)
    | Kill(r: nat)

  predicate Asking(pc: Pc) { pc == Acquiring || pc.Granted? || pc == Refused }

  predicate Enabled(s: State, step: Step) {
    match step
    case Begin(r) => Get(s, r).pc == Idle && Get(s, r).monitored && Get(s, r).connection.None?
    case TryLock(r, session) => Get(s, r).pc == Acquiring && session.replica == r && Alive(s, session)
    case Answer(r) => Get(s, r).pc.Granted? || Get(s, r).pc == Refused
    case Interrupt(r) => Asking(Get(s, r).pc)
    case Probe(r, failed) =>
      && Get(s, r).pc == Idle && Get(s, r).monitored && Get(s, r).connection.Some?
      && (!failed ==> Alive(s, Get(s, r).connection.value))
    case Drop(r, _) => Get(s, r).pc == Dropping
    case Stop(r) => Get(s, r).pc == Idle || Get(s, r).pc == Dropping
    case Unlock(r, failed) =>
      Get(s, r).pc == Unlocking && (!failed ==> Get(s, r).connection.Some? && Alive(s, Get(s, r).connection.value))
    case Close(r) => Get(s, r).pc == Closing
    case Die(session) => Alive(s, session)
    case Kill(_) => true
  }

  function Perform(s: State, step: Step): State {
    match step
    case Begin(r) => With(s, r, Get(s, r).(owns := false, asked := true, pc := Acquiring))
    case TryLock(r, session) =>
      if s.lock.Free? || s.lock.holder == session then
        With(s, r, Get(s, r).(pc := Granted(session))).(
          lock := Ownership.Held(session, if s.lock.Free? then 1 else s.lock.count + 1))
      else With(s, r, Get(s, r).(pc := Refused))
    case Answer(r) =>
      (match Get(s, r).pc
       case Granted(session) => With(s, r, Get(s, r).(connection := Some(session), owns := true, pc := Idle))
       case _ => With(s, r, Get(s, r).(pc := Idle)))
    case Interrupt(r) => With(s, r, Get(s, r).(owns := false, pc := Idle))
    case Probe(r, failed) => if failed then With(s, r, Get(s, r).(owns := false, pc := Dropping)) else s
    case Drop(r, raises) =>
      if raises then With(s, r, Get(s, r).(monitored := false, pc := Idle))
      else With(s, r, Get(s, r).(connection := None, pc := Idle))
    case Stop(r) =>
      if Get(s, r).connection.Some? then With(s, r, Get(s, r).(pc := Unlocking))
      else With(s, r, Get(s, r).(owns := false, asked := true, pc := Stopped))
    case Unlock(r, failed) =>
      var s' := With(s, r, Get(s, r).(pc := Closing));
      if failed || Get(s, r).connection.None? then s'
      else s'.(lock := Ownership.Unlocked(s.lock, Get(s, r).connection.value))
    case Close(r) => With(s, r, Get(s, r).(connection := None, owns := false, pc := Stopped))
    case Die(session) => s.(dead := s.dead + {session}, lock := Ownership.Released(s.lock, {session}))
    case Kill(r) =>
      var s' := With(s, r, Replica(None, false, true, false, Stopped));
      if s.lock.Held? && s.lock.holder.replica == r then
        s'.(lock := Ownership.Free, dead := s.dead + {s.lock.holder})
      else s'
  }

  predicate IsRun(s: State, steps: seq<Step>)
    decreases |steps|
  {
    steps == [] || (IsRun(s, steps[..|steps| - 1]) && Enabled(Run(s, steps[..|steps| - 1]), steps[|steps| - 1]))
  }

  function Run(s: State, steps: seq<Step>): State {
    if steps == [] then s else Perform(Run(s, steps[..|steps| - 1]), steps[|steps| - 1])
  }

  // ----- the invariant -------------------------------------------------------------------

  predicate Releasing(s: State, r: nat) { Get(s, r).pc == Closing }

  predicate Lost(s: State, r: nat) {
    Get(s, r).connection.Some? && !Alive(s, Get(s, r).connection.value)
  }

  predicate Holds(s: State, r: nat) {
    s.lock.Held? && Get(s, r).connection == Some(s.lock.holder)
  }

  predicate ReplicaOk(s: State, r: nat) {
    var x := Get(s, r);
    && (x.connection.Some? ==> x.connection.value.replica == r && x.asked)
    && (!x.asked ==> x == NEW)
    && (Asking(x.pc) ==> !x.owns && x.connection.None?)
    && (x.pc == Dropping || x.pc == Stopped ==> !x.owns)
    && (x.pc.Granted? ==> x.pc.session.replica == r && (Alive(s, x.pc.session) ==> s.lock.Held? && s.lock.holder == x.pc.session))
    && (x.owns && x.asked ==> Holds(s, r) || Releasing(s, r) || Lost(s, r))
  }

  predicate Acts(step: Step, r: nat) { !step.Die? && step.r == r }

  ghost predicate Inv(s: State) { forall r: nat :: ReplicaOk(s, r) }

  lemma StepKeepsInv(s: State, step: Step)
    requires Inv(s) && Enabled(s, step)
    ensures Inv(Perform(s, step))
  {
    forall r: nat ensures ReplicaOk(Perform(s, step), r) {
      assert ReplicaOk(s, r) && (!step.Die? ==> ReplicaOk(s, step.r));
      if Acts(step, r) {
        ActorKeepsReplica(s, step);
      } else {
        BystanderLock(s, step, r);
        BystanderKeepsReplica(s, Perform(s, step), r);
      }
    }
    hide ReplicaOk, Perform, Enabled;
  }

  lemma ActorKeepsReplica(s: State, step: Step)
    requires !step.Die? && ReplicaOk(s, step.r) && Enabled(s, step)
    ensures ReplicaOk(Perform(s, step), step.r)
  {
  }

  /** A session of replica `r` that holds the lock still does, unless it has died. */
  ghost predicate KeepsLockOf(s: State, s': State, r: nat) {
    && s.dead <= s'.dead
    && (s.lock.Held? && s.lock.holder.replica == r && Alive(s', s.lock.holder) ==> s'.lock.Held? && s'.lock.holder == s.lock.holder)
  }

  lemma BystanderLock(s: State, step: Step, r: nat)
    requires Enabled(s, step) && !Acts(step, r) && (!step.Die? ==> ReplicaOk(s, step.r))
    ensures Get(Perform(s, step), r) == Get(s, r) && KeepsLockOf(s, Perform(s, step), r)
  {
  }

  lemma BystanderKeepsReplica(s: State, s': State, r: nat)
    requires ReplicaOk(s, r) && Get(s', r) == Get(s, r) && KeepsLockOf(s, s', r)
    ensures ReplicaOk(s', r)
  {
    hide Get;
  }

  lemma {:induction false} RunKeepsInv(s: State, steps: seq<Step>)
    requires Inv(s) && IsRun(s, steps)
    ensures Inv(Run(s, steps))
  {
    if steps != [] {
      RunKeepsInv(s, steps[..|steps| - 1]);
      StepKeepsInv(Run(s, steps[..|steps| - 1]), steps[|steps| - 1]);
    }
  }

  /** Once both have asked for the lock, two replicas report at once only if one of them is past its
      unlock or has lost its session; before it has asked, every replica reports. */
  lemma AtMostOneOwner(steps: seq<Step>, q: nat, r: nat)
    requires IsRun(INITIAL, steps)
    ensures var s := Run(INITIAL, steps);
            && (!Get(s, r).asked ==> Reports(s, r))
            && (Get(s, r).asked && Reports(s, r) ==> Holds(s, r) || Releasing(s, r) || Lost(s, r))
            && (Get(s, q).asked && Get(s, r).asked && Reports(s, q) && Reports(s, r) && q != r ==>
                  Releasing(s, q) || Lost(s, q) || Releasing(s, r) || Lost(s, r))
  {
    assert forall p: nat :: ReplicaOk(INITIAL, p);
    RunKeepsInv(INITIAL, steps);
    assert ReplicaOk(Run(INITIAL, steps), q) && ReplicaOk(Run(INITIAL, steps), r);
    hide Run, IsRun;
  }

  // ----- a lost claim ends with the next probe --------------------------------------------------

  /** The session is gone for good; once the replica has probed, a claim is never based on it. */
  predicate Gone(s: State, r: nat, session: Session, probed: bool) {
    && !Alive(s, session)
    && Get(s, r).pc != Granted(session)
    && (probed && Get(s, r).owns ==> Get(s, r).connection != Some(session))
  }

  lemma StepKeepsGone(s: State, step: Step, r: nat, session: Session, probed: bool)
    requires ReplicaOk(s, r) && Enabled(s, step) && Gone(s, r, session, probed)
    ensures Gone(Perform(s, step), r, session, probed || (step.Probe? && step.r == r))
  {
  }

  predicate Probes(steps: seq<Step>, r: nat) {
    exists i :: 0 <= i < |steps| && steps[i].Probe? && steps[i].r == r
  }

  lemma {:induction false} RunKeepsGone(s: State, steps: seq<Step>, r: nat)
    requires Inv(s) && Lost(s, r) && IsRun(s, steps)
    ensures Gone(Run(s, steps), r, Get(s, r).connection.value, Probes(steps, r))
  {
    assert ReplicaOk(s, r);
    if steps != [] {
      var n := |steps| - 1;
      var mid := Run(s, steps[..n]);
      RunKeepsGone(s, steps[..n], r);
      RunKeepsInv(s, steps[..n]);
      assert ReplicaOk(mid, r);
      StepKeepsGone(mid, steps[n], r, Get(s, r).connection.value, Probes(steps[..n], r));
      ProbesSnoc(steps, r);
      hide Inv, Gone, Probes, ReplicaOk, Perform, Enabled;
    }
  }

  lemma ProbesSnoc(steps: seq<Step>, r: nat)
    requires steps != []
    ensures var last := steps[|steps| - 1];
            Probes(steps, r) <==> Probes(steps[..|steps| - 1], r) || (last.Probe? && last.r == r)
  {
    var n := |steps| - 1;
    if i :| 0 <= i < n && steps[..n][i].Probe? && steps[..n][i].r == r {
      assert steps[i].Probe? && steps[i].r == r;
    }
  }

  /** After the loss of a session, one probe of its replica ends the claim that rested on it, whatever
      everybody else does: from then on the replica reports only with another session. */
  lemma LostClaimEndsWithProbe(before: seq<Step>, r: nat, after: seq<Step>)
    requires IsRun(INITIAL, before) && Lost(Run(INITIAL, before), r) && IsRun(Run(INITIAL, before), after) && Probes(after, r)
    ensures var s, s' := Run(INITIAL, before), Run(Run(INITIAL, before), after);
            Reports(s', r) ==> Get(s', r).connection != Get(s, r).connection
  {
    assert forall p: nat :: ReplicaOk(INITIAL, p);
    RunKeepsInv(INITIAL, before);
    RunKeepsGone(Run(INITIAL, before), after, r);
    hide Run, IsRun, Inv;
  }

  // ----- and the monitor goes on, or not --------------------------------------------------------------

  lemma {:induction false} Then(s: State, steps: seq<Step>, step: Step)
    requires IsRun(s, steps) && Enabled(Run(s, steps), step)
    ensures IsRun(s, steps + [step]) && Run(s, steps + [step]) == Perform(Run(s, steps), step)
  {
    assert (steps + [step])[..|steps|] == steps;
  }

  /** What one monitor does after a loss when the lost connection closes: give up, drop, ask again. */
  function Recovery(r: nat, session: Session): seq<Step> {
    [Probe(r, true)] + [Drop(r, false)] + [Begin(r)] + [TryLock(r, session)] + [Answer(r)]
  }

  /** From every state in which a monitored replica has lost its session and the lock is free, one round of
      its monitor and the next acquisition make it an owner again, with the new session. */
  lemma LostReplicaRecovers(s: State, r: nat, session: Session)
    requires Lost(s, r) && Get(s, r).pc == Idle && Get(s, r).monitored
    requires s.lock.Free? && Alive(s, session) && session.replica == r
    ensures IsRun(s, Recovery(r, session))
    ensures var end := Run(s, Recovery(r, session));
            && Reports(end, r) && Holds(end, r) && !Lost(end, r) && Get(end, r).monitored
            && Get(end, r).connection == Some(session)
            && forall q: nat :: q != r ==> Get(end, q) == Get(s, q)
  {
    var a, b := Perform(s, Probe(r, true)), Perform(Perform(s, Probe(r, true)), Drop(r, false));
    var c := Perform(b, Begin(r));
    Then(s, [], Probe(r, true));
    assert [] + [Probe(r, true)] == [Probe(r, true)];
    hide Run, IsRun;
    assert a.lock == s.lock == b.lock == c.lock;
    Then(s, [Probe(r, true)], Drop(r, false));
    Then(s, [Probe(r, true)] + [Drop(r, false)], Begin(r));
    Then(s, [Probe(r, true)] + [Drop(r, false)] + [Begin(r)], TryLock(r, session));
    Then(s, [Probe(r, true)] + [Drop(r, false)] + [Begin(r)] + [TryLock(r, session)], Answer(r));
  }

  /** What may go wrong at any time, as with the port; closing a lost connection may raise too. */
  lemma MayFail(s: State, r: nat, session: Session)
    ensures Enabled(s, Kill(r)) && (Alive(s, session) ==> Enabled(s, Die(session)))
    ensures Get(s, r).pc.Acquiring? || Get(s, r).pc.Granted? || Get(s, r).pc.Refused? ==> Enabled(s, Interrupt(r))
    ensures Get(s, r).pc == Idle && Get(s, r).monitored && Get(s, r).connection == Some(session) ==>
              Enabled(s, Probe(r, true)) && (Enabled(s, Probe(r, false)) <==> session !in s.dead)
    ensures Get(s, r).pc == Dropping ==> Enabled(s, Drop(r, true)) && Enabled(s, Drop(r, false)) && Enabled(s, Stop(r))
    ensures Get(s, r).pc == Unlocking && Get(s, r).connection == Some(session) ==>
              Enabled(s, Unlock(r, true)) && (Enabled(s, Unlock(r, false)) <==> session !in s.dead)
  {
  }

  /** The flag `_owns_execution` here: cleared by every attempt to acquire until a grant, by a failed probe, by a
      stop and a kill.  No step touches another replica. */
  lemma OwnsIs(s: State, step: Step, q: nat)
    requires Enabled(s, step)
    ensures Get(INITIAL, q) == Replica(None, true, false, true, Idle)
    ensures step.Die? || step.r != q ==> Get(Perform(s, step), q) == Get(s, q)
    ensures !step.Die? && step.r == q ==>
              var before, after := Get(s, q), Get(Perform(s, step), q);
              match step
              case Begin(_) => !after.owns && after.asked
              case Answer(_) => after.owns == (before.pc.Granted? || before.owns)
              case Interrupt(_) => !after.owns
              case Probe(_, failed) => after.owns == (!failed && before.owns)
              case Stop(_) => after.pc == Stopped ==> !after.owns
              case Close(_) => !after.owns && after.connection == None
              case Kill(_) => !after.owns && after.connection == None && !after.monitored
              case _ => after.owns == before.owns
  {
  }

  /** What a replica does to become owner. */
  function Acquisition(r: nat, session: Session): seq<Step> {
    [Begin(r)] + [TryLock(r, session)] + [Answer(r)]
  }

  /** When the session that holds the lock dies, or its process, or it unlocks for the last time, every other
      idle replica that tries with a live session becomes the owner. */
  lemma LockIsHandedOn(s: State, step: Step, q: nat, session: Session)
    requires Enabled(s, step) && s.lock.Held?
    requires step == Die(s.lock.holder) || step == Kill(s.lock.holder.replica)
             || (step == Unlock(s.lock.holder.replica, false) && Holds(s, s.lock.holder.replica) && s.lock.count == 1)
    requires Get(s, q).pc == Idle && Get(s, q).monitored && Get(s, q).connection.None? && s.lock.holder.replica != q
    requires session.replica == q && Alive(s, session)
    ensures IsRun(Perform(s, step), Acquisition(q, session))
    ensures var end := Run(Perform(s, step), Acquisition(q, session)); Reports(end, q) && Holds(end, q)
  {
    var free := Perform(s, step);
    assert free.lock.Free? && Get(free, q) == Get(s, q) && Alive(free, session);
    Then(free, [], Begin(q));
    assert [] + [Begin(q)] == [Begin(q)];
    hide Run, IsRun;
    Then(free, [Begin(q)], TryLock(q, session));
    Then(free, [Begin(q)] + [TryLock(q, session)], Answer(q));
  }

  /** The monitor of this replica has ended, and with it the claim. */
  predicate Ended(s: State, r: nat) { !Get(s, r).monitored && !Get(s, r).owns && !Asking(Get(s, r).pc) }

  /** If closing the lost connection raises too, the monitor ends, and the replica never owns again: in no
      run from there does it report, however long the lock is free. */
  lemma {:induction false} EndedMonitorStaysOut(s: State, r: nat, steps: seq<Step>)
    requires Get(s, r).pc == Dropping && !Get(s, r).owns && IsRun(Perform(s, Drop(r, true)), steps)
    ensures Ended(Run(Perform(s, Drop(r, true)), steps), r) && !Reports(Run(Perform(s, Drop(r, true)), steps), r)
  {
    if steps != [] {
      var n := |steps| - 1;
      var from := Perform(s, Drop(r, true));
      EndedMonitorStaysOut(s, r, steps[..n]);
      EndedStays(Run(from, steps[..n]), steps[n], r);
    }
    hide Enabled;
  }

  lemma EndedStays(s: State, step: Step, r: nat)
    requires Ended(s, r) && Enabled(s, step)
    ensures Ended(Perform(s, step), r)
  {
  }
}
