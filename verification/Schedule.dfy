/** The ephemeral job table of one replica and its repair from the stored schedules. */
module Schedule {
  import opened Prelude

  datatype Spec = Spec(cron: string, timezone: string, nodes: seq<nat>, params: map<string, string>, grace: int)

  /** The operational states that the CHECK constraint of the table admits. */
  datatype Registration = Registered | PendingRegistration

  datatype Row = Row(spec: Spec, enabled: bool, state: Registration, error: Option<string>)

  type Rows = map<nat, Row>

  type Jobs = map<nat, Spec>

  /** What building a trigger does: accept, raise an error that callers catch (RuntimeError and
      ValueError), or raise another one (the KeyError of an unknown time zone). */
  datatype Verdict = Accepts | Caught(error: string) | Uncaught(error: string)

  type Trigger = Spec -> Verdict

  type Listing = seq<(nat, Spec)>

  // ----- one pass as steps between awaits --------------------------------------------------

  datatype Pass =
    | Listed(list: Listing)
    | At(list: Listing, i: nat, restored: nat, failed: nat)
    | Marking(list: Listing, i: nat, ok: bool, restored: nat, failed: nat)
    | Done(restored: nat, failed: nat)
    | Aborted

  datatype State = State(rows: Rows, jobs: Jobs, pass: Pass)

  /** Anything else that happens to one script meanwhile: a request of this replica, or of another. */
  datatype Act = WriteRow(script: nat, row: Row) | DeleteRow(script: nat) | PutJob(script: nat, spec: Spec) | DropJob(script: nat)

  datatype Step = Advance | Fault | Other(act: Act)

  function ActOn(s: State, act: Act): State {
    match act
    case WriteRow(x, row) => s.(rows := s.rows[x := row])
    case DeleteRow(x) => s.(rows := s.rows - {x})
    case PutJob(x, spec) => s.(jobs := s.jobs[x := spec])
    case DropJob(x) => s.(jobs := s.jobs - {x})
  }

  /** An interfering act replaces or removes the row or the job of its script, and that is all. */
  lemma ActIs(s: State, act: Act, x: nat)
    ensures var t := ActOn(s, act);
            && t.pass == s.pass
            && (x != act.script ==> (x in t.rows <==> x in s.rows) && (x in t.jobs <==> x in s.jobs))
            && (x != act.script && x in s.rows ==> t.rows[x] == s.rows[x])
            && (x != act.script && x in s.jobs ==> t.jobs[x] == s.jobs[x])
            && match act
               case WriteRow(y, row) => t.jobs == s.jobs && y in t.rows && t.rows[y] == row
               case DeleteRow(y) => t.jobs == s.jobs && y !in t.rows
               case PutJob(y, spec) => t.rows == s.rows && y in t.jobs && t.jobs[y] == spec
               case DropJob(y) => t.rows == s.rows && y !in t.jobs
  {
  }

  function Scripts(list: Listing): set<nat> { set i | 0 <= i < |list| :: list[i].0 }

  function Swept(jobs: Jobs, list: Listing): Jobs { map x | x in jobs && x in Scripts(list) :: jobs[x] }

  predicate Running(p: Pass) {
    match p
    case Listed(_) => true
    case At(list, i, _, _) => i <= |list|
    case Marking(list, i, _, _, _) => i < |list|
    case _ => false
  }

  /** The next step of the pass itself: sweep, register one schedule, record it, or finish.  Recording
      a failure writes a state that the CHECK rejects, unless the row is gone. */
  function Next(trigger: Trigger, s: State): State
    requires Running(s.pass)
  {
    match s.pass
    case Listed(list) => State(s.rows, Swept(s.jobs, list), At(list, 0, 0, 0))
    case At(list, i, restored, failed) =>
      if i == |list| then s.(pass := Done(restored, failed))
      else
        (match trigger(list[i].1)
         case Accepts => State(s.rows, s.jobs[list[i].0 := list[i].1], Marking(list, i, true, restored, failed))
         case Caught(_) => s.(pass := Marking(list, i, false, restored, failed))
         case Uncaught(_) => s.(pass := Aborted))
    case Marking(list, i, ok, restored, failed) =>
      var x := list[i].0;
      if ok then
        State(if x in s.rows then s.rows[x := s.rows[x].(state := Registered, error := None)] else s.rows, s.jobs,
              At(list, i + 1, restored + 1, failed))
      else if x in s.rows then s.(pass := Aborted)
      else s.(pass := At(list, i + 1, restored, failed + 1))
    case _ => s
  }

  predicate Enabled(s: State, step: Step) { step == Advance ==> Running(s.pass) }

  function Perform(trigger: Trigger, s: State, step: Step): State
    requires Enabled(s, step)
  {
    match step
    case Advance => Next(trigger, s)
    case Fault => if Running(s.pass) then s.(pass := Aborted) else s
    case Other(act) => ActOn(s, act)
  }

  predicate IsRun(trigger: Trigger, s: State, steps: seq<Step>)
    decreases |steps|, 0
  {
    steps == [] ||
    (IsRun(trigger, s, steps[..|steps| - 1]) && Enabled(Run(trigger, s, steps[..|steps| - 1]), steps[|steps| - 1]))
  }

  function Run(trigger: Trigger, s: State, steps: seq<Step>): State
    requires IsRun(trigger, s, steps)
    decreases |steps|, 1
  {
    if steps == [] then s else Perform(trigger, Run(trigger, s, steps[..|steps| - 1]), steps[|steps| - 1])
  }

  /** A fault ends a pass for good: nothing resumes it, and from then on only the acts of others change
      anything. */
  lemma {:induction false} FaultEndsPass(trigger: Trigger, s: State, steps: seq<Step>)
    requires Running(s.pass) && IsRun(trigger, Perform(trigger, s, Fault), steps)
    ensures var end := Run(trigger, Perform(trigger, s, Fault), steps);
            && end.pass == Aborted
            && ((forall i :: 0 <= i < |steps| ==> !steps[i].Other?) ==> end == s.(pass := Aborted))
  {
    if steps != [] {
      FaultEndsPass(trigger, s, steps[..|steps| - 1]);
    }
  }

  // ----- desired state ---------------------------------------------------------------------------

  function Wanted(rows: Rows, x: nat): Option<Spec> {
    if x in rows && rows[x].enabled then Some(rows[x].spec) else None
  }

  function JobOf(jobs: Jobs, x: nat): Option<Spec> {
    if x in jobs then Some(jobs[x]) else None
  }

  /** The table that the enabled schedules ask for. */
  function Projection(rows: Rows): Jobs {
    map x | x in rows && rows[x].enabled :: rows[x].spec
  }

  function ScriptOf(entry: (nat, Spec)): nat { entry.0 }

  predicate DistinctScripts(list: Listing) {
    Distinct(Mapped(ScriptOf, list))
  }

  /** `list_enabled_schedules`, in any order. */
  ghost predicate IsListing(rows: Rows, list: Listing) {
    && DistinctScripts(list)
    && (forall i :: 0 <= i < |list| ==> Wanted(rows, list[i].0) == Some(list[i].1))
    && (forall x :: x in rows && rows[x].enabled ==> x in Scripts(list))
  }

  // ----- convergence -------------------------------------------------------------------------------

  ghost predicate Untouched(steps: seq<Step>, x: nat) {
    forall i :: 0 <= i < |steps| && steps[i].Other? ==> steps[i].act.script != x
  }

  /** What holds of an untouched script while the pass over `list` has done its first `n` schedules. */
  ghost predicate Progress(s: State, list: Listing, x: nat, n: nat) {
    && n <= |list|
    && (x !in Scripts(list) ==> x !in s.jobs)
    && (forall j :: 0 <= j < n && list[j].0 == x ==> JobOf(s.jobs, x) == Some(list[j].1))
  }

  ghost predicate WantsListed(s: State, list: Listing, x: nat) {
    && (forall j :: 0 <= j < |list| && list[j].0 == x ==> Wanted(s.rows, x) == Some(list[j].1))
    && (x !in Scripts(list) ==> Wanted(s.rows, x) == None)
  }

  ghost predicate PassInv(s: State, list: Listing, x: nat) {
    && WantsListed(s, list, x)
    && match s.pass
       case Listed(l) => l == list
       case At(l, i, restored, failed) => l == list && Progress(s, list, x, i) && restored + failed == i
       case Marking(l, i, ok, restored, failed) =>
         && l == list && i < |list| && Progress(s, list, x, i) && restored + failed == i
         && (ok && list[i].0 == x ==> JobOf(s.jobs, x) == Some(list[i].1))
       case Done(restored, failed) => Progress(s, list, x, |list|) && restored + failed == |list|
       case Aborted => true
  }

  lemma StepKeepsPassInv(trigger: Trigger, s: State, step: Step, list: Listing, x: nat)
    requires DistinctScripts(list) && PassInv(s, list, x) && Enabled(s, step) && (step.Other? ==> step.act.script != x)
    ensures PassInv(Perform(trigger, s, step), list, x)
  {
    match step
    case Advance => AdvanceKeepsPassInv(trigger, s, list, x);
    case Fault =>
    case Other(act) =>
      assert Wanted(ActOn(s, act).rows, x) == Wanted(s.rows, x) && JobOf(ActOn(s, act).jobs, x) == JobOf(s.jobs, x);
  }

  lemma AdvanceKeepsPassInv(trigger: Trigger, s: State, list: Listing, x: nat)
    requires DistinctScripts(list) && PassInv(s, list, x) && Running(s.pass)
    ensures PassInv(Next(trigger, s), list, x)
  {
    var t := Next(trigger, s);
    AdvanceKeepsWanted(trigger, s, list, x);
    hide WantsListed;
    match s.pass
    case Listed(_) => SweptProgress(s, t, list, x);
    case At(_, i, _, _) =>
      if i < |list| && t.pass.Marking? && t.pass.ok {
        PutProgress(s, t, list, x, i);
      }
    case Marking(_, i, _, _, _) =>
      hide Scripts;
      assert t.jobs == s.jobs;
  }

  lemma AdvanceKeepsWanted(trigger: Trigger, s: State, list: Listing, x: nat)
    requires WantsListed(s, list, x) && Running(s.pass)
    ensures WantsListed(Next(trigger, s), list, x)
  {
    hide Scripts;
    assert Wanted(Next(trigger, s).rows, x) == Wanted(s.rows, x);
  }

  lemma SweptProgress(s: State, t: State, list: Listing, x: nat)
    requires t.jobs == Swept(s.jobs, list)
    ensures Progress(t, list, x, 0)
  {
  }

  lemma PutProgress(s: State, t: State, list: Listing, x: nat, i: nat)
    requires DistinctScripts(list) && i < |list| && Progress(s, list, x, i) && t.jobs == s.jobs[list[i].0 := list[i].1]
    ensures Progress(t, list, x, i)
  {
    assert list[i].0 in Scripts(list);
    hide Scripts;
  }

  lemma {:induction false} RunKeepsPassInv(trigger: Trigger, s: State, steps: seq<Step>, list: Listing, x: nat)
    requires DistinctScripts(list) && PassInv(s, list, x) && IsRun(trigger, s, steps) && Untouched(steps, x)
    ensures PassInv(Run(trigger, s, steps), list, x)
  {
    if steps != [] {
      var n := |steps| - 1;
      RunKeepsPassInv(trigger, s, steps[..n], list, x);
      StepKeepsPassInv(trigger, Run(trigger, s, steps[..n]), steps[n], list, x);
      hide PassInv, Perform;
    }
  }

  /** A pass that completes, however it interleaves with requests, other replicas and other writers,
      leaves every script that nothing touched meanwhile with exactly the job its row asks for; and
      it accounts for every schedule it listed. */
  lemma CompletedPassConverges(trigger: Trigger, s: State, list: Listing, steps: seq<Step>, x: nat)
    requires IsListing(s.rows, list) && s.pass == Listed(list) && IsRun(trigger, s, steps) && Untouched(steps, x)
    requires Run(trigger, s, steps).pass.Done?
    ensures var end := Run(trigger, s, steps);
            && JobOf(end.jobs, x) == Wanted(end.rows, x) == Wanted(s.rows, x)
            && (x in end.jobs <==> x in s.rows && s.rows[x].enabled)
            && (x in end.jobs ==> end.jobs[x] == s.rows[x].spec)
            && end.pass.restored + end.pass.failed == |list|
  {
    assert PassInv(s, list, x) by {
      assert Wanted(s.rows, x).Some? ==> x in s.rows && s.rows[x].enabled;
    }
    RunKeepsPassInv(trigger, s, steps, list, x);
    hide Run, IsRun;
    if x in Scripts(list) {
      var j :| 0 <= j < |list| && list[j].0 == x;
    }
  }

  // ----- an undisturbed pass ---------------------------------------------------------------------------

  function Left(p: Pass): nat
    requires Running(p)
  {
    match p
    case Listed(list) => 2 * |list| + 2
    case At(list, i, _, _) => 2 * (|list| - i) + 1
    case Marking(list, i, _, _, _) => 2 * (|list| - i)
  }

  /** The pass alone, to its end. */
  function Complete(trigger: Trigger, s: State): State
    decreases if Running(s.pass) then 1 + Left(s.pass) else 0
  {
    if Running(s.pass) then Complete(trigger, Next(trigger, s)) else s
  }

  function Advances(n: nat): (steps: seq<Step>)
    ensures |steps| == n && forall i :: 0 <= i < n ==> steps[i] == Advance
  {
    seq(n, _ => Advance)
  }

  lemma {:induction false} RunCons(trigger: Trigger, s: State, steps: seq<Step>)
    requires Running(s.pass) && IsRun(trigger, Next(trigger, s), steps)
    ensures IsRun(trigger, s, [Advance] + steps) && Run(trigger, s, [Advance] + steps) == Run(trigger, Next(trigger, s), steps)
  {
    var all := [Advance] + steps;
    if steps == [] {
      assert all[..0] == [] && IsRun(trigger, s, all[..0]);
    } else {
      var n := |steps| - 1;
      hide Next, Running;
      RunCons(trigger, s, steps[..n]);
      assert all[..n + 1] == [Advance] + steps[..n] && all[n + 1] == steps[n];
    }
  }

  /** It is one of the runs above. */
  lemma {:induction false} CompleteIsRun(trigger: Trigger, s: State) returns (n: nat)
    ensures IsRun(trigger, s, Advances(n)) && Run(trigger, s, Advances(n)) == Complete(trigger, s)
    decreases if Running(s.pass) then 1 + Left(s.pass) else 0
  {
    if Running(s.pass) {
      var m := CompleteIsRun(trigger, Next(trigger, s));
      RunCons(trigger, s, Advances(m));
      assert [Advance] + Advances(m) == Advances(m + 1);
      n := m + 1;
    } else {
      n := 0;
    }
  }

  ghost predicate AllAccepted(trigger: Trigger, list: Listing, i: nat) {
    forall j :: i <= j < |list| ==> trigger(list[j].1) == Accepts
  }

  ghost predicate RowsListed(rows: Rows, list: Listing) {
    forall i :: 0 <= i < |list| ==> list[i].0 in rows
  }

  ghost predicate MarkedUpTo(rows: Rows, list: Listing, i: nat)
    requires i <= |list|
  {
    forall j :: 0 <= j < i ==> list[j].0 in rows && rows[list[j].0].state == Registered && rows[list[j].0].error == None
  }

  /** The jobs of schedules from position `i` on are as they were. */
  ghost predicate Starved(before: Jobs, after: Jobs, list: Listing, i: nat) {
    forall j :: i <= j < |list| ==> JobOf(after, list[j].0) == JobOf(before, list[j].0)
  }

  /** The schedules before position `i` have the jobs they ask for. */
  ghost predicate PlacedUpTo(jobs: Jobs, list: Listing, i: nat)
    requires i <= |list|
  {
    forall j :: 0 <= j < i ==> JobOf(jobs, list[j].0) == Some(list[j].1)
  }

  /** `k` is the first refused schedule from position `i` on: all before it have their jobs and are marked,
      and none from it on has got one. */
  ghost predicate AbortsAt(trigger: Trigger, before: Jobs, end: State, list: Listing, i: nat, k: nat) {
    && i <= k < |list|
    && trigger(list[k].1) != Accepts
    && (forall j :: i <= j < k ==> trigger(list[j].1) == Accepts)
    && PlacedUpTo(end.jobs, list, k) && MarkedUpTo(end.rows, list, k)
    && Starved(before, end.jobs, list, k)
  }

  lemma {:induction false} CompleteFrom(trigger: Trigger, s: State)
    requires s.pass.At? && Running(s.pass) && DistinctScripts(s.pass.list) && RowsListed(s.rows, s.pass.list)
    requires s.pass.failed == 0 && MarkedUpTo(s.rows, s.pass.list, s.pass.i) && PlacedUpTo(s.jobs, s.pass.list, s.pass.i)
    ensures var end, list, i := Complete(trigger, s), s.pass.list, s.pass.i;
            && (end.pass.Done? <==> AllAccepted(trigger, list, i))
            && (end.pass.Done? ==> end.pass.failed == 0 && MarkedUpTo(end.rows, list, |list|))
            && (!end.pass.Done? ==> end.pass.Aborted? && exists k :: AbortsAt(trigger, s.jobs, end, list, i, k))
    decreases Left(s.pass)
  {
    var list, i := s.pass.list, s.pass.i;
    if i < |list| {
      var t := Next(trigger, s);
      if trigger(list[i].1) == Accepts {
        var u := Next(trigger, t);
        assert Complete(trigger, s) == Complete(trigger, u);
        OneMore(trigger, s);
        CompleteFrom(trigger, u);
        AcceptedFrom(trigger, list, i);
        if !Complete(trigger, u).pass.Done? {
          var k :| AbortsAt(trigger, u.jobs, Complete(trigger, u), list, i + 1, k);
          AbortsEarlier(trigger, s, u, Complete(trigger, u), list, i, k);
        }
      } else {
        if t.pass.Marking? {
          assert list[i].0 in t.rows && Next(trigger, t) == t.(pass := Aborted);
          assert Complete(trigger, t) == Complete(trigger, Next(trigger, t)) == t.(pass := Aborted);
        }
        assert Complete(trigger, s) == Complete(trigger, t) == s.(pass := Aborted);
        assert AbortsAt(trigger, s.jobs, Complete(trigger, s), list, i, i);
      }
    } else {
      assert Complete(trigger, s) == Next(trigger, s);
    }
  }

  /** An accepted schedule gets its job and its mark, and those before it keep theirs. */
  lemma OneMore(trigger: Trigger, s: State)
    requires s.pass.At? && s.pass.i < |s.pass.list| && trigger(s.pass.list[s.pass.i].1) == Accepts
    requires DistinctScripts(s.pass.list) && RowsListed(s.rows, s.pass.list)
    requires MarkedUpTo(s.rows, s.pass.list, s.pass.i) && PlacedUpTo(s.jobs, s.pass.list, s.pass.i)
    ensures var u, list, i := Next(trigger, Next(trigger, s)), s.pass.list, s.pass.i;
            && u.pass == At(list, i + 1, s.pass.restored + 1, s.pass.failed)
            && u.jobs == s.jobs[list[i].0 := list[i].1]
            && RowsListed(u.rows, list) && MarkedUpTo(u.rows, list, i + 1) && PlacedUpTo(u.jobs, list, i + 1)
  {
    var list, i := s.pass.list, s.pass.i;
    assert forall j :: 0 <= j < i ==> list[j].0 != list[i].0 by {
      assert forall j :: 0 <= j < |list| ==> Mapped(ScriptOf, list)[j] == list[j].0;
    }
    hide DistinctScripts;
  }

  lemma AbortsEarlier(trigger: Trigger, s: State, u: State, end: State, list: Listing, i: nat, k: nat)
    requires i < |list| && trigger(list[i].1) == Accepts && DistinctScripts(list)
    requires u.jobs == s.jobs[list[i].0 := list[i].1] && AbortsAt(trigger, u.jobs, end, list, i + 1, k)
    ensures AbortsAt(trigger, s.jobs, end, list, i, k)
  {
    assert forall j :: i < j < |list| ==> list[j].0 != list[i].0 by {
      assert forall j :: 0 <= j < |list| ==> Mapped(ScriptOf, list)[j] == list[j].0;
    }
    hide DistinctScripts;
  }

  lemma AcceptedFrom(trigger: Trigger, list: Listing, i: nat)
    requires i < |list| && trigger(list[i].1) == Accepts
    ensures AllAccepted(trigger, list, i) <==> AllAccepted(trigger, list, i + 1)
  {
  }

  /** Alone, a pass completes iff every listed schedule is accepted.  The first that is not aborts it,
      because recording the failure violates the CHECK: those before it have their jobs and are marked,
      and no schedule from there on gets its job. */
  lemma UndisturbedPassCompletesIff(trigger: Trigger, s: State, list: Listing)
    requires IsListing(s.rows, list) && s.pass == Listed(list)
    ensures var end := Complete(trigger, s);
            && (end.pass.Done? <==> AllAccepted(trigger, list, 0))
            && (end.pass.Done? ==> end.pass == Done(|list|, 0) && end.jobs == Projection(end.rows) == Projection(s.rows))
            && (!end.pass.Done? ==> end.pass == Aborted && exists k :: AbortsAt(trigger, s.jobs, end, list, 0, k))
  {
    var t := Next(trigger, s);
    assert Complete(trigger, s) == Complete(trigger, t);
    CompleteFrom(trigger, t);
    forall j | 0 <= j < |list| ensures JobOf(t.jobs, list[j].0) == JobOf(s.jobs, list[j].0) {
      assert list[j].0 in Scripts(list);
    }
    if !Complete(trigger, s).pass.Done? {
      var k :| AbortsAt(trigger, t.jobs, Complete(trigger, s), list, 0, k);
      assert AbortsAt(trigger, s.jobs, Complete(trigger, s), list, 0, k);
    }
    if Complete(trigger, s).pass.Done? {
      UndisturbedProjection(trigger, s, list);
    }
  }

  /** A listed schedule the pass survives: its trigger is accepted, or refused by an error that callers
      catch when its row has meanwhile gone, so that there is nothing to record the failure in. */
  predicate Survives(trigger: Trigger, rows: Rows, entry: (nat, Spec)) {
    match trigger(entry.1)
    case Accepts => true
    case Caught(_) => entry.0 !in rows
    case Uncaught(_) => false
  }

  function Accepted(trigger: Trigger, list: Listing, i: nat): (n: nat)
    requires i <= |list|
    ensures n <= |list| - i
    decreases |list| - i
  {
    if i == |list| then 0 else Accepted(trigger, list, i + 1) + if trigger(list[i].1).Accepts? then 1 else 0
  }

  /** From position `i` on the accepted entries have their jobs; all other jobs are as before. */
  ghost predicate PlacedFrom(trigger: Trigger, before: Jobs, after: Jobs, list: Listing, i: nat) {
    && (forall j :: i <= j < |list| ==>
          JobOf(after, list[j].0) == if trigger(list[j].1).Accepts? then Some(list[j].1) else JobOf(before, list[j].0))
    && (forall x :: (forall j :: i <= j < |list| ==> list[j].0 != x) ==> JobOf(after, x) == JobOf(before, x))
  }

  lemma PlacedEarlier(trigger: Trigger, before: Jobs, after: Jobs, list: Listing, i: nat)
    requires i < |list| && DistinctScripts(list)
    requires PlacedFrom(trigger, if trigger(list[i].1).Accepts? then before[list[i].0 := list[i].1] else before, after, list, i + 1)
    ensures PlacedFrom(trigger, before, after, list, i)
  {
    assert forall j :: i < j < |list| ==> list[j].0 != list[i].0 by {
      assert forall j :: 0 <= j < |list| ==> Mapped(ScriptOf, list)[j] == list[j].0;
    }
    hide DistinctScripts;
  }

  lemma SurvivesAlike(trigger: Trigger, rows: Rows, rows': Rows, list: Listing)
    requires rows'.Keys == rows.Keys
    ensures forall j :: 0 <= j < |list| ==> (Survives(trigger, rows', list[j]) <==> Survives(trigger, rows, list[j]))
  {
  }

  lemma StaleRound(trigger: Trigger, s: State) returns (u: State)
    requires s.pass.At? && s.pass.i < |s.pass.list|
    ensures var (x, spec) := s.pass.list[s.pass.i];
            var ok := trigger(spec).Accepts?;
            if Survives(trigger, s.rows, (x, spec))
            then && u.pass == At(s.pass.list, s.pass.i + 1, s.pass.restored + (if ok then 1 else 0), s.pass.failed + if ok then 0 else 1)
                 && u.rows.Keys == s.rows.Keys
                 && u.jobs == (if ok then s.jobs[x := spec] else s.jobs)
                 && Complete(trigger, s) == Complete(trigger, u)
            else Complete(trigger, s).pass == Aborted
  {
    var list, i := s.pass.list, s.pass.i;
    var (x, spec) := list[i];
    RoundOf(trigger, s.rows, s.jobs, list, i, s.pass.restored, s.pass.failed);
    hide Complete;
    u := if trigger(spec).Accepts?
         then State(if x in s.rows then s.rows[x := s.rows[x].(state := Registered, error := None)] else s.rows,
                    s.jobs[x := spec], At(list, i + 1, s.pass.restored + 1, s.pass.failed))
         else s.(pass := At(list, i + 1, s.pass.restored, s.pass.failed + 1));
  }

  lemma {:induction false} StaleFrom(trigger: Trigger, s: State)
    requires s.pass.At? && Running(s.pass) && DistinctScripts(s.pass.list)
    ensures var end, list, i := Complete(trigger, s), s.pass.list, s.pass.i;
            && (end.pass.Done? <==> forall j :: i <= j < |list| ==> Survives(trigger, s.rows, list[j]))
            && (end.pass.Done? ==>
                  && end.pass.restored == s.pass.restored + Accepted(trigger, list, i)
                  && end.pass.restored + end.pass.failed == s.pass.restored + s.pass.failed + |list| - i
                  && PlacedFrom(trigger, s.jobs, end.jobs, list, i))
    decreases Left(s.pass)
  {
    var list, i := s.pass.list, s.pass.i;
    if i == |list| {
      assert Complete(trigger, s) == Next(trigger, s);
    } else {
      var u := StaleRound(trigger, s);
      hide Complete, DistinctScripts, PlacedFrom, Survives;
      if Survives(trigger, s.rows, list[i]) {
        StaleFrom(trigger, u);
        SurvivesAlike(trigger, s.rows, u.rows, list);
        if Complete(trigger, u).pass.Done? {
          PlacedEarlier(trigger, s.jobs, Complete(trigger, u).jobs, list, i);
        }
      }
    }
  }

  /** The same for a listing that is out of date: rows may have gone since, or be new.  The pass completes
      iff it survives every entry; it has then put the jobs of the accepted ones, counted the others as
      failed and left their jobs, and removed the jobs of every script that was not listed. */
  lemma StalePassCompletesIff(trigger: Trigger, s: State, list: Listing)
    requires DistinctScripts(list) && s.pass == Listed(list)
    ensures var end := Complete(trigger, s);
            && (end.pass.Done? <==> forall j :: 0 <= j < |list| ==> Survives(trigger, s.rows, list[j]))
            && (end.pass.Done? ==>
                  && end.pass == Done(Accepted(trigger, list, 0), |list| - Accepted(trigger, list, 0))
                  && (forall x :: x in end.jobs ==> exists j :: 0 <= j < |list| && list[j].0 == x)
                  && forall j :: 0 <= j < |list| ==>
                       JobOf(end.jobs, list[j].0) == if trigger(list[j].1).Accepts? then Some(list[j].1) else JobOf(s.jobs, list[j].0))
  {
    var t := Next(trigger, s);
    assert Complete(trigger, s) == Complete(trigger, t);
    StaleFrom(trigger, t);
    hide Complete;
    forall j | 0 <= j < |list| ensures JobOf(t.jobs, list[j].0) == JobOf(s.jobs, list[j].0) {
      assert list[j].0 in Scripts(list);
    }
    var end := Complete(trigger, s);
    if end.pass.Done? {
      forall x | x !in Scripts(list) ensures x !in end.jobs {
        assert forall j :: 0 <= j < |list| ==> list[j].0 in Scripts(list);
        assert JobOf(end.jobs, x) == JobOf(t.jobs, x);
      }
    }
  }

  /** Two enabled schedules, the first with a trigger that is refused: the pass aborts, and the second
      gets no job. */
  lemma RefusedTriggerAborts(good: Spec, bad: Spec, trigger: Trigger)
    requires trigger(good) == Accepts && trigger(bad) != Accepts
    ensures var rows := map[0 := Row(bad, true, Registered, None), 1 := Row(good, true, Registered, None)];
            var list := [(0, bad), (1, good)];
            && IsListing(rows, list)
            && Complete(trigger, State(rows, map[], Listed(list))) == State(rows, map[], Aborted)
  {
    var rows := map[0 := Row(bad, true, Registered, None), 1 := Row(good, true, Registered, None)];
    var list := [(0, bad), (1, good)];
    assert list[0].0 in Scripts(list) && list[1].0 in Scripts(list);
    var s := State(rows, map[], Listed(list));
    var t := Next(trigger, s);
    assert Swept(map[], list) == map[];
    CompleteTwice(trigger, t);
    assert Complete(trigger, s) == Complete(trigger, t);
    hide Complete;
    match trigger(bad)
    case Caught(_) =>
    case Uncaught(_) =>
  }

  lemma UndisturbedProjection(trigger: Trigger, s: State, list: Listing)
    requires IsListing(s.rows, list) && s.pass == Listed(list) && Complete(trigger, s).pass.Done?
    ensures var end := Complete(trigger, s);
            end.jobs == Projection(end.rows) == Projection(s.rows) && end.pass.restored + end.pass.failed == |list|
  {
    var end := Complete(trigger, s);
    var n := CompleteIsRun(trigger, s);
    forall x: nat ensures JobOf(end.jobs, x) == Wanted(end.rows, x) == Wanted(s.rows, x) {
      CompletedPassConverges(trigger, s, list, Advances(n), x);
    }
    CompletedPassConverges(trigger, s, list, Advances(n), 0);
    hide Complete, Run, IsRun, IsListing;
    SameTable(end.jobs, end.rows);
    SameTable(end.jobs, s.rows);
  }

  lemma SameTable(jobs: Jobs, rows: Rows)
    requires forall x: nat :: JobOf(jobs, x) == Wanted(rows, x)
    ensures jobs == Projection(rows)
  {
    forall x: nat ensures x in jobs <==> x in Projection(rows) {
      assert JobOf(jobs, x) == Wanted(rows, x);
    }
    forall x | x in jobs ensures jobs[x] == Projection(rows)[x] {
      assert JobOf(jobs, x) == Wanted(rows, x);
    }
  }

  /** Nothing is left to repair. */
  ghost predicate Repaired(rows: Rows, jobs: Jobs) {
    && jobs == Projection(rows)
    && forall x :: x in rows && rows[x].enabled ==> rows[x].state == Registered && rows[x].error == None
  }

  lemma {:induction false} RepairedStays(trigger: Trigger, s: State)
    requires Repaired(s.rows, s.jobs) && Running(s.pass)
    requires IsListing(s.rows, s.pass.list) && AllAccepted(trigger, s.pass.list, 0)
    requires s.pass.Marking? ==> s.pass.ok
    ensures var end := Complete(trigger, s); end.rows == s.rows && end.jobs == s.jobs
    decreases Left(s.pass)
  {
    var t, list := Next(trigger, s), s.pass.list;
    assert Complete(trigger, s) == Complete(trigger, t);
    assert forall i :: 0 <= i < |list| ==> Wanted(s.rows, list[i].0) == Some(list[i].1);
    assert t.jobs == s.jobs && t.rows == s.rows;
    if Running(t.pass) {
      RepairedStays(trigger, t);
    }
  }

  /** After a completed pass, a second one that nothing disturbs changes nothing at all. */
  lemma SecondPassChangesNothing(trigger: Trigger, s: State, list: Listing, list2: Listing)
    requires IsListing(s.rows, list) && s.pass == Listed(list) && Complete(trigger, s).pass.Done?
    requires IsListing(Complete(trigger, s).rows, list2)
    ensures var first := Complete(trigger, s);
            Complete(trigger, first.(pass := Listed(list2))) == first.(pass := Done(|list2|, 0))
  {
    var first := Complete(trigger, s);
    UndisturbedPassCompletesIff(trigger, s, list);
    var t := Next(trigger, s);
    assert first == Complete(trigger, t);
    CompleteFrom(trigger, t);
    hide Complete, Next;
    forall x | x in first.rows && first.rows[x].enabled ensures first.rows[x].state == Registered && first.rows[x].error == None {
      assert x in Projection(first.rows) && x in Projection(s.rows);
      assert x in s.rows && s.rows[x].enabled;
    }
    forall i | 0 <= i < |list2| ensures trigger(list2[i].1) == Accepts {
      var x := list2[i].0;
      assert Wanted(first.rows, x) == Some(list2[i].1);
      assert x in Projection(first.rows) && x in Projection(s.rows) && x in Scripts(list);
    }
    RepairedStays(trigger, first.(pass := Listed(list2)));
    UndisturbedPassCompletesIff(trigger, first.(pass := Listed(list2)), list2);
  }

  // ----- the services ------------------------------------------------------------------------------------

  class ApschedulerRuntime {
    const trigger: Trigger
    var jobs: Jobs

    constructor (trigger: Trigger)
      ensures this.trigger == trigger && jobs == map[]
    {
      this.trigger := trigger;
      jobs := map[];
    }

    /** The trigger is built before the old job goes, so an error leaves the table alone. */
    method ScheduleScript(x: nat, spec: Spec) returns (v: Verdict)
      modifies this
      ensures v == trigger(spec)
      ensures jobs == if v.Accepts? then old(jobs)[x := spec] else old(jobs)
    {
      v := trigger(spec);
      if v.Accepts? {
        if x in jobs {
          jobs := jobs - {x};
        }
        jobs := jobs[x := spec];
      }
    }

    method UnscheduleScript(x: nat) returns (found: bool)
      modifies this
      ensures found <==> x in old(jobs)
      ensures jobs == old(jobs) - {x}
    {
      found := x in jobs;
      jobs := jobs - {x};
    }

    /** The first loop of `reconcile`. */
    method RemoveUndesired(list: Listing)
      modifies this
      ensures jobs == Swept(old(jobs), list)
    {
      var desired := Scripts(list);
      var inspected := jobs.Keys;
      while inspected != {}
        invariant inspected <= jobs.Keys
        invariant jobs == map x | x in old(jobs) && (x in inspected || x in desired) :: old(jobs)[x]
        decreases |inspected|
      {
        var x :| x in inspected;
        inspected := inspected - {x};
        if x !in desired {
          var _ := UnscheduleScript(x);
        }
      }
    }
  }

  datatype ScheduleError = ScriptNotFound | InvalidSchedule | NodeNotFound(node: nat) | ScheduleNotFound

  class ScheduleService {
    const runtime: ApschedulerRuntime
    var rows: Rows

    constructor (runtime: ApschedulerRuntime)
      ensures this.runtime == runtime && rows == map[]
    {
      this.runtime := runtime;
      rows := map[];
    }

    /** An UPDATE: no row, no effect; the CHECK refuses a failure. */
    method MarkRegistration(x: nat, ok: bool) returns (stored: bool)
      modifies this
      ensures stored <==> ok || x !in old(rows)
      ensures rows == if ok && x in old(rows) then old(rows)[x := old(rows)[x].(state := Registered, error := None)] else old(rows)
    {
      stored := ok || x !in rows;
      if ok && x in rows {
        rows := rows[x := rows[x].(state := Registered, error := None)];
      }
    }

    /** One schedule of the second loop: `None` stands for an exception. */
    method RestoreOne(list: Listing, i: nat, restored: nat, failed: nat) returns (ok: Option<bool>)
      requires i < |list|
      modifies this, runtime
      ensures var start := State(old(rows), old(runtime.jobs), At(list, i, restored, failed));
              Complete(runtime.trigger, start) ==
              match ok
              case None => State(rows, runtime.jobs, Aborted)
              case Some(true) => Complete(runtime.trigger, State(rows, runtime.jobs, At(list, i + 1, restored + 1, failed)))
              case Some(false) => Complete(runtime.trigger, State(rows, runtime.jobs, At(list, i + 1, restored, failed + 1)))
    {
      RoundOf(runtime.trigger, rows, runtime.jobs, list, i, restored, failed);
      hide Complete, Next;
      var v := runtime.ScheduleScript(list[i].0, list[i].1);
      if v.Uncaught? {
        return None;
      }
      var stored := MarkRegistration(list[i].0, v.Accepts?);
      if !stored {
        return None;
      }
      ok := Some(v.Accepts?);
    }

    /** `reconcile` with nothing in between its awaits: `None` stands for an exception. */
    method Reconcile(list: Listing) returns (r: Option<(nat, nat)>)
      modifies this, runtime
      ensures var end := Complete(runtime.trigger, State(old(rows), old(runtime.jobs), Listed(list)));
              && rows == end.rows && runtime.jobs == end.jobs
              && r == if end.pass.Done? then Some((end.pass.restored, end.pass.failed)) else None
    {
      ghost var trigger := runtime.trigger;
      ghost var end := Complete(trigger, State(rows, runtime.jobs, Listed(list)));
      runtime.RemoveUndesired(list);
      var restored, failed := 0, 0;
      for i := 0 to |list|
        invariant end == Complete(trigger, State(rows, runtime.jobs, At(list, i, restored, failed)))
      {
        hide Complete;
        var ok := RestoreOne(list, i, restored, failed);
        if ok.None? {
          return None;
        }
        if ok.value {
          restored := restored + 1;
        } else {
          failed := failed + 1;
        }
      }
      r := Some((restored, failed));
    }

    /** `create_or_update`: either nothing changes and the first failing check is reported, a missing node
        by the first that is missing; or all checks pass, and both the row and the job are the new ones. */
    method CreateOrUpdate(x: nat, spec: Spec, scriptExists: bool, nodes: set<nat>) returns (e: Option<ScheduleError>)
      modifies this, runtime
      ensures e == Some(ScriptNotFound) <==> !scriptExists
      ensures e == Some(InvalidSchedule) <==> scriptExists && !runtime.trigger(spec).Accepts?
      ensures e.None? <==> scriptExists && runtime.trigger(spec).Accepts? && forall node :: node in spec.nodes ==> node in nodes
      ensures e != Some(ScheduleNotFound)
      ensures e.Some? && e.value.NodeNotFound? ==>
                exists i :: 0 <= i < |spec.nodes| && spec.nodes[i] == e.value.node && spec.nodes[i] !in nodes
                            && forall j :: 0 <= j < i ==> spec.nodes[j] in nodes
      ensures e.Some? ==> rows == old(rows) && runtime.jobs == old(runtime.jobs)
      ensures e.None? ==> rows == old(rows)[x := Row(spec, true, Registered, None)] && runtime.jobs == old(runtime.jobs)[x := spec]
    {
      if !scriptExists {
        return Some(ScriptNotFound);
      }
      if !runtime.trigger(spec).Accepts? {
        return Some(InvalidSchedule);
      }
      for i := 0 to |spec.nodes|
        invariant forall j :: 0 <= j < i ==> spec.nodes[j] in nodes
      {
        if spec.nodes[i] !in nodes {
          return Some(NodeNotFound(spec.nodes[i]));
        }
      }
      rows := rows[x := Row(spec, true, PendingRegistration, None)];
      var v := runtime.ScheduleScript(x, spec);
      var _ := MarkRegistration(x, v.Accepts?);
      e := None;
    }

    method Delete(x: nat) returns (e: Option<ScheduleError>)
      modifies this, runtime
      ensures e == if x in old(rows) then None else Some(ScheduleNotFound)
      ensures rows == old(rows) - {x}
      ensures runtime.jobs == if e.None? then old(runtime.jobs) - {x} else old(runtime.jobs)
    {
      if x !in rows {
        return Some(ScheduleNotFound);
      }
      rows := rows - {x};
      var _ := runtime.UnscheduleScript(x);
      e := None;
    }
  }

  /** Two steps of a pass that stands before one of its schedules. */
  lemma CompleteTwice(trigger: Trigger, s: State)
    requires s.pass.At? && s.pass.i < |s.pass.list|
    ensures var t := Next(trigger, s);
            && Complete(trigger, s) == Complete(trigger, t)
            && (t.pass.Aborted? ==> Complete(trigger, s) == t)
            && (t.pass.Marking? ==> Complete(trigger, s) == Complete(trigger, Next(trigger, t)))
            && (t.pass.Marking? && Next(trigger, t).pass.Aborted? ==> Complete(trigger, s) == Next(trigger, t))
  {
    var t := Next(trigger, s);
    assert Complete(trigger, s) == Complete(trigger, t);
    if t.pass.Marking? {
      assert Complete(trigger, t) == Complete(trigger, Next(trigger, t));
    }
  }

  /** What one round of a pass that stands before one of its schedules does. */
  lemma RoundOf(trigger: Trigger, rows: Rows, jobs: Jobs, list: Listing, i: nat, restored: nat, failed: nat)
    requires i < |list|
    ensures var (x, spec) := list[i];
            Complete(trigger, State(rows, jobs, At(list, i, restored, failed))) ==
            match trigger(spec)
            case Accepts =>
              Complete(trigger, State(if x in rows then rows[x := rows[x].(state := Registered, error := None)] else rows,
                                      jobs[x := spec], At(list, i + 1, restored + 1, failed)))
            case Caught(_) =>
              if x in rows then State(rows, jobs, Aborted) else Complete(trigger, State(rows, jobs, At(list, i + 1, restored, failed + 1)))
            case Uncaught(_) => State(rows, jobs, Aborted)
  {
    var s := State(rows, jobs, At(list, i, restored, failed));
    CompleteTwice(trigger, s);
    var t := Next(trigger, s);
    hide Complete, Left, Running;
    match trigger(list[i].1)
    case Accepts =>
      assert t == State(rows, jobs[list[i].0 := list[i].1], Marking(list, i, true, restored, failed));
    case Caught(_) =>
      assert t == State(rows, jobs, Marking(list, i, false, restored, failed));
    case Uncaught(_) =>
      assert t == State(rows, jobs, Aborted);
  }
}
