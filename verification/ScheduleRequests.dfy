/** Requests on schedules that overlap at their awaits: each writes its row, then the job, then the
    outcome, with any steps of other requests in between. */
module ScheduleRequests {
  import opened Prelude
  import opened Schedule

  /** What a request asks for; its checks have passed. */
  datatype Ask = Put(spec: Spec) | Remove

  datatype Stage = Ready | Wrote | Registering

  datatype Request = Request(script: nat, ask: Ask, stage: Stage)

  /** The stored rows, the job table, the requests under way; and beside them what every request asked
      for, and which request last wrote the row and the job of each script. */
  datatype World = World(
    rows: Rows, jobs: Jobs, requests: map<nat, Request>, asked: map<nat, Ask>, lastRow: map<nat, nat>, lastJob: map<nat, nat>)

  datatype Step =
    | Begin(q: nat, script: nat, ask: Ask)
    | StoreRow(q: nat)
    | TouchJob(q: nat)
    | Mark(q: nat)
    | Fail(q: nat)

  predicate Initial(w: World) { w.requests == map[] && w.asked == map[] && w.lastRow == map[] && w.lastJob == map[] }

  predicate Enabled(w: World, step: Step) {
    match step
    case Begin(q, _, _) => q !in w.asked
    case StoreRow(q) => q in w.requests && w.requests[q].stage == Ready
    case TouchJob(q) => q in w.requests && w.requests[q].stage == Wrote
    case Mark(q) => q in w.requests && w.requests[q].stage == Registering
    case Fail(q) => q in w.requests
  }

  /** An upsert; or a deletion, which ends the request when there is no row. */
  function Written(w: World, q: nat): World
    requires q in w.requests
  {
    var r := w.requests[q];
    match r.ask
    case Put(spec) =>
      w.(rows := w.rows[r.script := Row(spec, true, PendingRegistration, None)],
         requests := w.requests[q := r.(stage := Wrote)], lastRow := w.lastRow[r.script := q])
    case Remove =>
      if r.script in w.rows then
        w.(rows := w.rows - {r.script}, requests := w.requests[q := r.(stage := Wrote)], lastRow := w.lastRow[r.script := q])
      else w.(requests := w.requests - {q})
  }

  /** The new job, which still has to be recorded; or the removal, which ends the request. */
  function Touched(w: World, q: nat): World
    requires q in w.requests
  {
    var r := w.requests[q];
    var w' := w.(lastJob := w.lastJob[r.script := q]);
    match r.ask
    case Put(spec) => w'.(jobs := w.jobs[r.script := spec], requests := w.requests[q := r.(stage := Registering)])
    case Remove => w'.(jobs := w.jobs - {r.script}, requests := w.requests - {q})
  }

  function Marked(rows: Rows, x: nat): Rows {
    if x in rows then rows[x := rows[x].(state := Registered, error := None)] else rows
  }

  function Perform(w: World, step: Step): World
    requires Enabled(w, step)
  {
    match step
    case Begin(q, x, ask) => w.(requests := w.requests[q := Request(x, ask, Ready)], asked := w.asked[q := ask])
    case StoreRow(q) => Written(w, q)
    case TouchJob(q) => Touched(w, q)
    case Mark(q) =>
      var x := w.requests[q].script;
      w.(rows := Marked(w.rows, x), requests := w.requests - {q})
    case Fail(q) => w.(requests := w.requests - {q})
  }

  predicate IsRun(w: World, steps: seq<Step>)
    decreases |steps|, 0
  {
    steps == [] || (IsRun(w, steps[..|steps| - 1]) && Enabled(Run(w, steps[..|steps| - 1]), steps[|steps| - 1]))
  }

  function Run(w: World, steps: seq<Step>): World
    requires IsRun(w, steps)
    decreases |steps|, 1
  {
    if steps == [] then w else Perform(Run(w, steps[..|steps| - 1]), steps[|steps| - 1])
  }

  // ----- what the last writers left ----------------------------------------------------------

  function Effect(ask: Ask): Option<Spec> {
    match ask case Put(spec) => Some(spec) case Remove => None
  }

  /** What the last request in `last` that reached script `x` asked for; `before` if none has. */
  function Left(last: map<nat, nat>, asked: map<nat, Ask>, x: nat, before: Option<Spec>): Option<Spec> {
    if x in last && last[x] in asked then Effect(asked[last[x]]) else before
  }

  /** Whoever is named has asked. */
  ghost predicate Known(w: World) {
    && (forall x: nat :: x in w.lastRow ==> w.lastRow[x] in w.asked)
    && (forall x: nat :: x in w.lastJob ==> w.lastJob[x] in w.asked)
    && (forall q: nat :: q in w.requests ==> q in w.asked && w.requests[q].ask == w.asked[q])
  }

  /** The row and the job of a script are what their last writers left. */
  predicate AsLeft(w: World, start: World, x: nat) {
    && Wanted(w.rows, x) == Left(w.lastRow, w.asked, x, Wanted(start.rows, x))
    && JobOf(w.jobs, x) == Left(w.lastJob, w.asked, x, JobOf(start.jobs, x))
  }

  ghost predicate Inv(w: World, start: World) {
    Known(w) && forall x: nat :: AsLeft(w, start, x)
  }

  lemma StepKeepsKnown(w: World, step: Step)
    requires Known(w) && Enabled(w, step)
    ensures Known(Perform(w, step))
  {
    match step
    case StoreRow(q) => StoreKeepsKnown(w, q);
    case TouchJob(q) => TouchKeepsKnown(w, q);
    case _ => hide Marked, Written, Touched;
  }

  lemma StoreKeepsKnown(w: World, q: nat)
    requires Known(w) && q in w.requests
    ensures Known(Written(w, q))
  {
  }

  lemma TouchKeepsKnown(w: World, q: nat)
    requires Known(w) && q in w.requests
    ensures Known(Touched(w, q))
  {
  }

  lemma StepKeepsAsLeft(w: World, start: World, step: Step, x: nat)
    requires Known(w) && AsLeft(w, start, x) && Enabled(w, step)
    ensures AsLeft(Perform(w, step), start, x)
  {
    match step
    case Begin(q, y, ask) => BeginKeepsAsLeft(w, start, q, y, ask, x);
    case StoreRow(q) => StoreKeepsAsLeft(w, start, q, x);
    case TouchJob(q) => TouchKeepsAsLeft(w, start, q, x);
    case Mark(q) => MarkKeepsWanted(w.rows, w.requests[q].script, x);
    case Fail(_) =>
  }

  lemma BeginKeepsAsLeft(w: World, start: World, q: nat, y: nat, ask: Ask, x: nat)
    requires Known(w) && AsLeft(w, start, x) && q !in w.asked
    ensures AsLeft(Perform(w, Begin(q, y, ask)), start, x)
  {
    assert x in w.lastRow ==> w.lastRow[x] != q && w.lastRow[x] in w.asked;
    assert x in w.lastJob ==> w.lastJob[x] != q && w.lastJob[x] in w.asked;
    hide Known, Effect;
  }

  lemma StoreKeepsAsLeft(w: World, start: World, q: nat, x: nat)
    requires Known(w) && AsLeft(w, start, x) && q in w.requests
    ensures AsLeft(Written(w, q), start, x)
  {
    assert q in w.asked && w.requests[q].ask == w.asked[q];
    hide Known;
    if w.requests[q].script == x {
      StoreReaches(w, start, q);
    } else {
      assert Wanted(Written(w, q).rows, x) == Wanted(w.rows, x);
      hide Wanted, JobOf;
    }
  }

  lemma StoreReaches(w: World, start: World, q: nat)
    requires q in w.requests && q in w.asked && w.requests[q].ask == w.asked[q] && AsLeft(w, start, w.requests[q].script)
    ensures AsLeft(Written(w, q), start, w.requests[q].script)
  {
    hide JobOf;
  }

  lemma TouchKeepsAsLeft(w: World, start: World, q: nat, x: nat)
    requires Known(w) && AsLeft(w, start, x) && q in w.requests
    ensures AsLeft(Touched(w, q), start, x)
  {
    assert q in w.asked && w.requests[q].ask == w.asked[q];
    hide Known;
    var r, w' := w.requests[q], Touched(w, q);
    if r.script != x {
      assert JobOf(w'.jobs, x) == JobOf(w.jobs, x);
    }
  }

  lemma MarkKeepsWanted(rows: Rows, y: nat, x: nat)
    ensures Wanted(Marked(rows, y), x) == Wanted(rows, x)
  {
  }

  lemma StepKeepsInv(w: World, start: World, step: Step)
    requires Inv(w, start) && Enabled(w, step)
    ensures Inv(Perform(w, step), start)
  {
    StepKeepsKnown(w, step);
    forall x: nat ensures AsLeft(Perform(w, step), start, x) {
      StepKeepsAsLeft(w, start, step, x);
    }
    hide AsLeft, Known, Perform, Enabled;
  }

  lemma {:induction false} RunKeepsInv(start: World, steps: seq<Step>)
    requires Initial(start) && IsRun(start, steps)
    ensures Inv(Run(start, steps), start)
  {
    if steps != [] {
      RunKeepsInv(start, steps[..|steps| - 1]);
      StepKeepsInv(Run(start, steps[..|steps| - 1]), start, steps[|steps| - 1]);
    }
  }

  /** Over every interleaving of any number of requests, at every point of the run: the job of a script
      agrees with its row iff the last request to write the job asked for what the last request to
      write the row asked for, the state before the run counting where none has. */
  lemma JobAgreesIff(start: World, steps: seq<Step>, x: nat)
    requires Initial(start) && IsRun(start, steps)
    ensures var w := Run(start, steps);
            JobOf(w.jobs, x) == Wanted(w.rows, x) <==>
              Left(w.lastJob, w.asked, x, JobOf(start.jobs, x)) == Left(w.lastRow, w.asked, x, Wanted(start.rows, x))
  {
    RunKeepsInv(start, steps);
    assert AsLeft(Run(start, steps), start, x);
    hide Run, IsRun;
  }

  // ----- when every request has finished -------------------------------------------------------

  /** A script's job has been written only after its row; and if only its row has, the writer is still
      on its way to the job. */
  ghost predicate OnItsWay(w: World, x: nat) {
    && (x in w.lastJob ==> x in w.lastRow)
    && (x in w.lastRow && x !in w.lastJob ==>
          var q := w.lastRow[x]; q in w.requests && w.requests[q].script == x && w.requests[q].stage == Wrote)
    && (forall q :: q in w.requests && w.requests[q].script == x && w.requests[q].stage != Ready ==> x in w.lastRow)
  }

  lemma {:induction false} WritersAreOnTheirWay(start: World, steps: seq<Step>, x: nat)
    requires Initial(start) && IsRun(start, steps)
    requires forall i :: 0 <= i < |steps| ==> !steps[i].Fail?
    ensures OnItsWay(Run(start, steps), x)
  {
    if steps != [] {
      var n := |steps| - 1;
      WritersAreOnTheirWay(start, steps[..n], x);
      assert !steps[n].Fail?;
      RunKeepsInv(start, steps[..n]);
      StepKeepsOnItsWay(Run(start, steps[..n]), steps[n], x);
      hide Perform, OnItsWay;
    }
  }

  lemma StepKeepsOnItsWay(w: World, step: Step, x: nat)
    requires Known(w) && OnItsWay(w, x) && Enabled(w, step) && !step.Fail?
    ensures OnItsWay(Perform(w, step), x)
  {
    match step
    case Begin(q, y, ask) => BeginOnItsWay(w, q, y, ask, x);
    case StoreRow(q) => StoreOnItsWay(w, q, x);
    case TouchJob(q) => TouchOnItsWay(w, q, x);
    case Mark(_) => hide Known, Marked;
  }

  lemma BeginOnItsWay(w: World, q: nat, y: nat, ask: Ask, x: nat)
    requires Known(w) && OnItsWay(w, x) && q !in w.asked
    ensures OnItsWay(Perform(w, Begin(q, y, ask)), x)
  {
    assert q !in w.requests;
    hide Known;
  }

  lemma StoreOnItsWay(w: World, q: nat, x: nat)
    requires OnItsWay(w, x) && q in w.requests && w.requests[q].stage == Ready
    ensures OnItsWay(Written(w, q), x)
  {
  }

  lemma TouchOnItsWay(w: World, q: nat, x: nat)
    requires OnItsWay(w, x) && q in w.requests && w.requests[q].stage == Wrote
    ensures OnItsWay(Touched(w, q), x)
  {
  }

  /** When every request has finished without failing, a script that was in agreement is so again iff
      one request wrote both its row and its job last, or the two that did asked for the same. */
  lemma FinishedRequestsAgreeIff(start: World, steps: seq<Step>, x: nat)
    requires Initial(start) && IsRun(start, steps) && JobOf(start.jobs, x) == Wanted(start.rows, x)
    requires forall i :: 0 <= i < |steps| ==> !steps[i].Fail?
    requires Run(start, steps).requests == map[]
    ensures var w := Run(start, steps);
            && (x in w.lastRow <==> x in w.lastJob)
            && (x in w.lastRow ==> w.lastRow[x] in w.asked && w.lastJob[x] in w.asked)
            && (JobOf(w.jobs, x) == Wanted(w.rows, x) <==>
                  (x in w.lastRow ==> w.lastRow[x] == w.lastJob[x] || w.asked[w.lastRow[x]] == w.asked[w.lastJob[x]]))
  {
    WritersAreOnTheirWay(start, steps, x);
    RunKeepsInv(start, steps);
    assert AsLeft(Run(start, steps), start, x);
    hide Run, IsRun;
  }

  // ----- requests kept apart ---------------------------------------------------------------------

  predicate IsOn(w: World, q: nat, x: nat) { q in w.requests && w.requests[q].script == x }

  predicate IsBetween(w: World, q: nat, x: nat) { IsOn(w, q, x) && w.requests[q].stage == Wrote }

  /** A caller's discipline for script `x`: a request begins only when no other is under way, and none
      fails between its row and its job. */
  ghost predicate KeepsApart(w: World, step: Step, x: nat) {
    && (step.Begin? && step.script == x ==> forall q :: !IsOn(w, q, x))
    && (step.Fail? ==> !IsBetween(w, step.q, x))
  }

  ghost predicate AllKeepApart(start: World, steps: seq<Step>, x: nat)
    requires IsRun(start, steps)
    decreases |steps|
  {
    steps == [] || (AllKeepApart(start, steps[..|steps| - 1], x) && KeepsApart(Run(start, steps[..|steps| - 1]), steps[|steps| - 1], x))
  }

  /** One request at most is under way; the job agrees with the row, unless it is between the two, and
      then the row is the one it asks for. */
  ghost predicate Ordered(w: World, x: nat) {
    && (forall q, r :: IsOn(w, q, x) && IsOn(w, r, x) ==> q == r)
    && ((forall q :: !IsBetween(w, q, x)) ==> JobOf(w.jobs, x) == Wanted(w.rows, x))
    && (forall q :: IsBetween(w, q, x) ==> Wanted(w.rows, x) == Effect(w.requests[q].ask))
  }

  lemma BeginKeepsOrdered(w: World, q: nat, y: nat, ask: Ask, x: nat)
    requires Known(w) && Ordered(w, x) && Enabled(w, Begin(q, y, ask)) && KeepsApart(w, Begin(q, y, ask), x)
    ensures Ordered(Perform(w, Begin(q, y, ask)), x)
  {
    var w' := Perform(w, Begin(q, y, ask));
    assert forall r :: IsBetween(w', r, x) <==> IsBetween(w, r, x);
    assert forall r :: IsOn(w', r, x) ==> IsOn(w, r, x) || (r == q && y == x);
  }

  /** What happens to other scripts does not matter. */
  lemma ElsewhereKeepsOrdered(w: World, w': World, x: nat)
    requires Ordered(w, x) && Wanted(w'.rows, x) == Wanted(w.rows, x) && JobOf(w'.jobs, x) == JobOf(w.jobs, x)
    requires forall r :: (IsOn(w', r, x) <==> IsOn(w, r, x)) && (IsOn(w, r, x) ==> w'.requests[r] == w.requests[r])
    ensures Ordered(w', x)
  {
    hide Wanted, JobOf;
    assert forall r :: IsBetween(w', r, x) <==> IsBetween(w, r, x);
  }

  lemma StoreKeepsOrdered(w: World, q: nat, x: nat)
    requires Ordered(w, x) && Enabled(w, StoreRow(q))
    ensures Ordered(Written(w, q), x)
  {
    if IsOn(w, q, x) {
      OwnStore(w, q);
    } else {
      assert Wanted(Written(w, q).rows, x) == Wanted(w.rows, x);
      ElsewhereKeepsOrdered(w, Written(w, q), x);
    }
  }

  lemma OwnStore(w: World, q: nat)
    requires q in w.requests && w.requests[q].stage == Ready && Ordered(w, w.requests[q].script)
    ensures Ordered(Written(w, q), w.requests[q].script)
  {
    var w', x := Written(w, q), w.requests[q].script;
    assert IsOn(w, q, x) && forall r :: !IsBetween(w, r, x);
    forall r | IsOn(w', r, x) ensures r == q {
      assert IsOn(w, r, x) && IsOn(w, q, x);
    }
    assert q in w'.requests ==> IsBetween(w', q, x) && Wanted(w'.rows, x) == Effect(w.requests[q].ask);
    assert q !in w'.requests ==> w'.rows == w.rows && w'.jobs == w.jobs;
    hide Written, Wanted, JobOf, Effect;
  }

  lemma TouchKeepsOrdered(w: World, q: nat, x: nat)
    requires Ordered(w, x) && Enabled(w, TouchJob(q))
    ensures Ordered(Touched(w, q), x)
  {
    if IsOn(w, q, x) {
      OwnTouch(w, q);
    } else {
      assert JobOf(Touched(w, q).jobs, x) == JobOf(w.jobs, x);
      ElsewhereKeepsOrdered(w, Touched(w, q), x);
    }
  }

  lemma OwnTouch(w: World, q: nat)
    requires q in w.requests && w.requests[q].stage == Wrote && Ordered(w, w.requests[q].script)
    ensures Ordered(Touched(w, q), w.requests[q].script)
  {
    var w', x := Touched(w, q), w.requests[q].script;
    assert IsOn(w, q, x) && IsBetween(w, q, x);
    forall r | IsOn(w', r, x) ensures r == q {
      assert IsOn(w, r, x) && IsOn(w, q, x);
    }
    assert !IsBetween(w', q, x);
    assert JobOf(w'.jobs, x) == Effect(w.requests[q].ask) && w'.rows == w.rows;
    hide Touched, Wanted, JobOf, Effect;
  }

  /** The end of a request that is not between its row and its job. */
  lemma EndKeepsOrdered(w: World, w': World, q: nat, x: nat)
    requires Ordered(w, x) && !IsBetween(w, q, x) && w'.requests == w.requests - {q}
    requires w'.jobs == w.jobs && Wanted(w'.rows, x) == Wanted(w.rows, x)
    ensures Ordered(w', x)
  {
    assert forall r :: IsOn(w', r, x) ==> IsOn(w, r, x);
    assert forall r :: IsBetween(w', r, x) <==> IsBetween(w, r, x);
  }

  lemma StepKeepsOrdered(w: World, step: Step, x: nat)
    requires Known(w) && Ordered(w, x) && Enabled(w, step) && KeepsApart(w, step, x)
    ensures Ordered(Perform(w, step), x)
  {
    hide Ordered, Known, Written, Touched, Marked;
    match step
    case Begin(q, y, ask) => BeginKeepsOrdered(w, q, y, ask, x);
    case StoreRow(q) => StoreKeepsOrdered(w, q, x);
    case TouchJob(q) => TouchKeepsOrdered(w, q, x);
    case Mark(q) =>
      MarkKeepsWanted(w.rows, w.requests[q].script, x);
      EndKeepsOrdered(w, Perform(w, step), q, x);
    case Fail(q) => EndKeepsOrdered(w, Perform(w, step), q, x);
  }

  lemma {:induction false} RunKeepsOrdered(start: World, steps: seq<Step>, x: nat)
    requires Initial(start) && IsRun(start, steps) && JobOf(start.jobs, x) == Wanted(start.rows, x)
    requires AllKeepApart(start, steps, x)
    ensures Ordered(Run(start, steps), x)
  {
    if steps != [] {
      var n := |steps| - 1;
      RunKeepsOrdered(start, steps[..n], x);
      RunKeepsInv(start, steps[..n]);
      StepKeepsOrdered(Run(start, steps[..n]), steps[n], x);
      hide Ordered, Perform, KeepsApart;
    }
  }

  /** If the requests for one script are kept apart, whatever requests for others do meanwhile, its job
      agrees with its row whenever none of them is between the two: when they have finished, above all. */
  lemma SeparateRequestsAgree(start: World, steps: seq<Step>, x: nat)
    requires Initial(start) && IsRun(start, steps) && JobOf(start.jobs, x) == Wanted(start.rows, x)
    requires AllKeepApart(start, steps, x)
    requires forall q :: !IsBetween(Run(start, steps), q, x)
    ensures JobOf(Run(start, steps).jobs, x) == Wanted(Run(start, steps).rows, x)
  {
    RunKeepsOrdered(start, steps, x);
    hide Run, IsRun, AllKeepApart;
  }

  lemma Then(w: World, steps: seq<Step>, step: Step) returns (all: seq<Step>)
    requires IsRun(w, steps) && Enabled(Run(w, steps), step)
    ensures all == steps + [step] && IsRun(w, all) && Run(w, all) == Perform(Run(w, steps), step)
  {
    all := steps + [step];
    assert all[..|all| - 1] == steps;
  }

  /** A request with no step of another in between does what `create_or_update` or `delete` promises: the
      row and the job are the new ones, or both are gone; a deletion that finds no row leaves the job. */
  lemma AloneIs(w: World, q: nat, x: nat, ask: Ask) returns (steps: seq<Step>)
    requires q !in w.asked && q !in w.requests
    ensures IsRun(w, steps)
    ensures var end := Run(w, steps);
            && end.requests == w.requests
            && match ask
               case Put(spec) => end.rows == w.rows[x := Row(spec, true, Registered, None)] && end.jobs == w.jobs[x := spec]
               case Remove => end.rows == w.rows - {x} && end.jobs == if x in w.rows then w.jobs - {x} else w.jobs
  {
    hide Run, IsRun;
    match ask
    case Put(spec) => steps := PutAlone(w, q, x, spec);
    case Remove => steps := RemoveAlone(w, q, x);
  }

  /** Only these three components of a world matter here. */
  predicate Looks(w: World, requests: map<nat, Request>, rows: Rows, jobs: Jobs) {
    w.requests == requests && w.rows == rows && w.jobs == jobs
  }

  lemma BeginLooks(w: World, q: nat, x: nat, ask: Ask)
    requires q !in w.asked && q !in w.requests
    ensures Enabled(w, Begin(q, x, ask))
    ensures var w' := Perform(w, Begin(q, x, ask));
            Looks(w', w.requests[q := Request(x, ask, Ready)], w.rows, w.jobs) && Enabled(w', StoreRow(q))
  {
  }

  lemma PutLooks(w: World, requests: map<nat, Request>, rows: Rows, jobs: Jobs, q: nat, x: nat, spec: Spec, stage: Stage)
    requires Looks(w, requests[q := Request(x, Put(spec), stage)], rows, jobs)
    ensures stage == Ready ==>
              && Enabled(w, StoreRow(q))
              && Looks(Perform(w, StoreRow(q)), requests[q := Request(x, Put(spec), Wrote)],
                       rows[x := Row(spec, true, PendingRegistration, None)], jobs)
    ensures stage == Wrote ==>
              && Enabled(w, TouchJob(q))
              && Looks(Perform(w, TouchJob(q)), requests[q := Request(x, Put(spec), Registering)], rows, jobs[x := spec])
    ensures stage == Registering ==>
              && Enabled(w, Mark(q))
              && Looks(Perform(w, Mark(q)), requests - {q}, Marked(rows, x), jobs)
  {
    hide Marked;
    var r := Request(x, Put(spec), stage);
    assert requests[q := r] - {q} == requests - {q};
  }

  lemma RemoveLooks(w: World, requests: map<nat, Request>, rows: Rows, jobs: Jobs, q: nat, x: nat, stage: Stage)
    requires Looks(w, requests[q := Request(x, Remove, stage)], rows, jobs)
    ensures stage == Ready && x in rows ==>
              && Enabled(w, StoreRow(q))
              && Looks(Perform(w, StoreRow(q)), requests[q := Request(x, Remove, Wrote)], rows - {x}, jobs)
    ensures stage == Ready && x !in rows ==>
              && Enabled(w, StoreRow(q))
              && Looks(Perform(w, StoreRow(q)), requests - {q}, rows, jobs)
    ensures stage == Wrote ==>
              && Enabled(w, TouchJob(q))
              && Looks(Perform(w, TouchJob(q)), requests - {q}, rows, jobs - {x})
  {
    assert requests[q := Request(x, Remove, stage)] - {q} == requests - {q};
  }

  lemma PutAlone(w: World, q: nat, x: nat, spec: Spec) returns (steps: seq<Step>)
    requires q !in w.asked && q !in w.requests
    ensures IsRun(w, steps)
    ensures Looks(Run(w, steps), w.requests, w.rows[x := Row(spec, true, Registered, None)], w.jobs[x := spec])
  {
    assert Run(w, []) == w;
    assert w.requests - {q} == w.requests;
    assert Marked(w.rows[x := Row(spec, true, PendingRegistration, None)], x) == w.rows[x := Row(spec, true, Registered, None)];
    hide Run, IsRun, Perform, Enabled, Looks, Marked;
    BeginLooks(w, q, x, Put(spec));
    steps := Then(w, [], Begin(q, x, Put(spec)));
    PutLooks(Run(w, steps), w.requests, w.rows, w.jobs, q, x, spec, Ready);
    steps := Then(w, steps, StoreRow(q));
    var rows := w.rows[x := Row(spec, true, PendingRegistration, None)];
    PutLooks(Run(w, steps), w.requests, rows, w.jobs, q, x, spec, Wrote);
    steps := Then(w, steps, TouchJob(q));
    PutLooks(Run(w, steps), w.requests, rows, w.jobs[x := spec], q, x, spec, Registering);
    steps := Then(w, steps, Mark(q));
  }

  lemma RemoveAlone(w: World, q: nat, x: nat) returns (steps: seq<Step>)
    requires q !in w.asked && q !in w.requests
    ensures IsRun(w, steps)
    ensures Looks(Run(w, steps), w.requests, w.rows - {x}, if x in w.rows then w.jobs - {x} else w.jobs)
  {
    assert Run(w, []) == w;
    assert w.requests - {q} == w.requests && (x !in w.rows ==> w.rows - {x} == w.rows);
    hide Run, IsRun, Perform, Enabled, Looks;
    BeginLooks(w, q, x, Remove);
    steps := Then(w, [], Begin(q, x, Remove));
    RemoveLooks(Run(w, steps), w.requests, w.rows, w.jobs, q, x, Ready);
    steps := Then(w, steps, StoreRow(q));
    if x in w.rows {
      RemoveLooks(Run(w, steps), w.requests, w.rows - {x}, w.jobs, q, x, Wrote);
      steps := Then(w, steps, TouchJob(q));
    }
  }

  const NOTHING := World(map[], map[], map[], map[], map[], map[])

  /** A deletion that overtakes an upsert between its row and its job leaves a job without a row. */
  lemma DeletionLeavesOrphan(spec: Spec) returns (steps: seq<Step>)
    ensures IsRun(NOTHING, steps) && Run(NOTHING, steps).requests == map[]
    ensures JobOf(Run(NOTHING, steps).jobs, 0) == Some(spec) && Wanted(Run(NOTHING, steps).rows, 0) == None
  {
    steps := Then(NOTHING, [], Begin(0, 0, Put(spec)));
    assert Run(NOTHING, steps) == Perform(NOTHING, Begin(0, 0, Put(spec)));
    hide Run, IsRun;
    steps := Then(NOTHING, steps, StoreRow(0));
    steps := Then(NOTHING, steps, Begin(1, 0, Remove));
    steps := Then(NOTHING, steps, StoreRow(1));
    steps := Then(NOTHING, steps, TouchJob(1));
    steps := Then(NOTHING, steps, TouchJob(0));
    steps := Then(NOTHING, steps, Mark(0));
  }
}
