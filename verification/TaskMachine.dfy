/** The task table under any interleaving of claims, callback reservations,
    outcomes, timeouts, restarts, abandoned-callback expiry and cancellation.
    Reservation and outcome carry whatever snapshot their caller read earlier;
    only the fence decides whether they act. */
module TaskMachine {
  import opened Options
  import opened TaskModel

  datatype State = State(
    now: nat,
    independent: set<string>,
    tasks: seq<Row>,
    attempts: seq<seq<int>>,       // attempt numbers handed out, per task
    entered: seq<seq<int>>)        // attempts whose application callback was entered, per task

  datatype Event =
    | Tick(elapsed: nat)
    | Create(row: Row)
    | Claim(id: nat, worker: string)
    | Reserve(id: nat, worker: string, startAt: nat, redo: int, attempt: int)
    | Finish(id: nat, worker: string, startAt: nat, redo: int, expected: Status, outcome: Status, priority: int)
    | Restart
    | ExpireAbandoned
    | CancelTask(id: nat)

  function Step(s: State, e: Event): State {
    match e
    case Tick(d) => s.(now := s.now + d)
    case Create(row) =>
      if !NewRow(row, s.independent) || |s.attempts| != |s.tasks| || |s.entered| != |s.tasks| then s
      else s.(tasks := s.tasks + [row], attempts := s.attempts + [[]], entered := s.entered + [[]])
    case Claim(id, worker) =>
      if id >= |s.tasks| || id >= |s.attempts| || !Eligible(s.independent, s.tasks, id) then s
      else s.(tasks := s.tasks[id := Claimed(s.tasks[id], worker, s.now)],
              attempts := s.attempts[id := s.attempts[id] + [s.tasks[id].redo + 1]])
    case Reserve(id, worker, startAt, redo, attempt) =>
      if id >= |s.tasks| || id >= |s.entered| || attempt <= 0 || redo < 0 || attempt != redo + 1
         || !Fenced(s.tasks[id], worker, startAt, redo, Running) then s
      else s.(tasks := s.tasks[id := Reserved(s.tasks[id], s.now)],
              entered := s.entered[id := s.entered[id] + [attempt]])
    case Finish(id, worker, startAt, redo, expected, outcome, priority) =>
      if id >= |s.tasks| || (outcome != Success && outcome != Fail) || (expected != Running && expected != Completing)
         || !Fenced(s.tasks[id], worker, startAt, redo, expected) then s
      else s.(tasks := s.tasks[id := Finished(s.tasks[id], outcome, priority, s.now)])
    case Restart => s.(tasks := AfterRestart(s.tasks, s.now))
    case ExpireAbandoned => s.(tasks := AfterAbandon(s.tasks, s.now))
    case CancelTask(id) =>
      if id >= |s.tasks| || s.tasks[id].status == Cancel then s
      else s.(tasks := s.tasks[id := s.tasks[id].(status := Cancel, updatedAt := s.now)])
  }

  function Init(independent: set<string>): State { State(0, independent, [], [], []) }

  function Run(s: State, es: seq<Event>): State
    decreases |es|
  {
    if es == [] then s else Step(Run(s, es[..|es| - 1]), es[|es| - 1])
  }

  // ---------------------------------------------------- fencing by attempt

  predicate Increasing(xs: seq<int>) { forall i, j | 0 <= i < j < |xs| :: xs[i] < xs[j] }
  predicate Within(xs: seq<int>, lo: int, hi: int) { forall i :: 0 <= i < |xs| ==> lo <= xs[i] <= hi }

  /** The highest attempt number a task in this state can have handed out, and
      can have entered the callback with. */
  function AttemptCeiling(r: Row): int { if r.status == Pending || r.status == Fail then r.redo else r.redo + 1 }
  function EnteredCeiling(r: Row): int {
    if r.status == Pending || r.status == Fail || r.status == Running then r.redo else r.redo + 1
  }

  ghost predicate TaskOk(r: Row, attempts: seq<int>, entered: seq<int>) {
    && 0 <= r.configRedo <= MAX_INT32 && 0 <= r.redo <= r.configRedo + 1 && r.redo <= MAX_INT32
    && (r.status == Running || r.status == Completing ==>
          r.redo <= r.configRedo && r.redo < MAX_INT32 && r.startAt.Some? && attempts != [])
    && Increasing(attempts) && Within(attempts, 1, AttemptCeiling(r)) && Within(attempts, 1, r.configRedo + 1)
    && Within(attempts, 1, MAX_INT32)
    && Increasing(entered) && Within(entered, 1, EnteredCeiling(r)) && Within(entered, 1, r.configRedo + 1)
    && (attempts == [] ==> r.status == Pending || r.status == Cancel)
  }

  ghost predicate Inv(s: State) {
    && |s.attempts| == |s.tasks| && |s.entered| == |s.tasks|
    && (forall i :: 0 <= i < |s.tasks| ==> TaskOk(s.tasks[i], s.attempts[i], s.entered[i]))
  }

  /** A row changed by an expiry statement stays consistent with its history. */
  lemma ExpiryKeepsTaskOk(r: Row, attempts: seq<int>, entered: seq<int>, now: nat)
    requires TaskOk(r, attempts, entered)
    ensures TaskOk(Restarted(r, now), attempts, entered)
    ensures !Abandoned(r, now) || r.configRedo < MAX_INT32 ==> TaskOk(GivenUp(r, now), attempts, entered)
  {}

  lemma ClaimKeepsTaskOk(r: Row, attempts: seq<int>, entered: seq<int>, worker: string, now: nat)
    requires TaskOk(r, attempts, entered) && Runnable(r)
    ensures TaskOk(Claimed(r, worker, now), attempts + [r.redo + 1], entered)
  {}

  lemma ReserveKeepsTaskOk(r: Row, attempts: seq<int>, entered: seq<int>, now: nat)
    requires TaskOk(r, attempts, entered) && r.status == Running
    ensures TaskOk(Reserved(r, now), attempts, entered + [r.redo + 1])
  {}

  lemma OutcomeKeepsTaskOk(r: Row, attempts: seq<int>, entered: seq<int>, outcome: Status, priority: int, now: nat)
    requires TaskOk(r, attempts, entered) && (r.status == Running || r.status == Completing)
             && (outcome == Success || outcome == Fail)
    ensures TaskOk(Finished(r, outcome, priority, now), attempts, entered)
  {}

  /** Every row and history after a step is one of the updates above, or untouched. */
  lemma StepKeepsTaskOk(s: State, e: Event, i: nat)
    requires |s.attempts| == |s.tasks| && |s.entered| == |s.tasks| && i < |Step(s, e).tasks|
    requires i < |s.tasks| ==> TaskOk(s.tasks[i], s.attempts[i], s.entered[i])
    ensures var t := Step(s, e);
            i < |t.attempts| && i < |t.entered| && TaskOk(t.tasks[i], t.attempts[i], t.entered[i])
  {
    match e
    case Claim(id, worker) =>
      ClaimStepOk(s, id, worker, i);
    case Reserve(id, worker, startAt, redo, attempt) => ReserveStepOk(s, id, worker, startAt, redo, attempt, i);
    case Finish(id, worker, startAt, redo, expected, outcome, priority) =>
      FinishStepOk(s, id, worker, startAt, redo, expected, outcome, priority, i);
    case Restart =>
      ExpiryKeepsTaskOk(s.tasks[i], s.attempts[i], s.entered[i], s.now);
    case ExpireAbandoned =>
      AbandonStepOk(s, i);
    case CancelTask(id) =>
      CancelStepOk(s, id, i);
    case Create(row) =>
    case Tick(_) =>
  }

  lemma ClaimStepOk(s: State, id: nat, worker: string, i: nat)
    requires |s.attempts| == |s.tasks| && |s.entered| == |s.tasks| && i < |s.tasks|
    requires TaskOk(s.tasks[i], s.attempts[i], s.entered[i])
    ensures var t := Step(s, Claim(id, worker));
            i < |t.tasks| && i < |t.attempts| && i < |t.entered| && TaskOk(t.tasks[i], t.attempts[i], t.entered[i])
  {
    if id == i && Runnable(s.tasks[i]) {
      ClaimKeepsTaskOk(s.tasks[i], s.attempts[i], s.entered[i], worker, s.now);
    }
  }

  lemma CancelStepOk(s: State, id: nat, i: nat)
    requires |s.attempts| == |s.tasks| && |s.entered| == |s.tasks| && i < |s.tasks|
    requires TaskOk(s.tasks[i], s.attempts[i], s.entered[i])
    ensures var t := Step(s, CancelTask(id));
            i < |t.tasks| && i < |t.attempts| && i < |t.entered| && TaskOk(t.tasks[i], t.attempts[i], t.entered[i])
  {}

  lemma AbandonStepOk(s: State, i: nat)
    requires |s.attempts| == |s.tasks| && |s.entered| == |s.tasks| && i < |s.tasks|
    requires TaskOk(s.tasks[i], s.attempts[i], s.entered[i])
    ensures var t := Step(s, ExpireAbandoned);
            i < |t.tasks| && i < |t.attempts| && i < |t.entered| && TaskOk(t.tasks[i], t.attempts[i], t.entered[i])
  {
    ExpiryKeepsTaskOk(s.tasks[i], s.attempts[i], s.entered[i], s.now);
  }

  lemma ReserveStepOk(s: State, id: nat, worker: string, startAt: nat, redo: int, attempt: int, i: nat)
    requires |s.attempts| == |s.tasks| && |s.entered| == |s.tasks| && i < |s.tasks|
    requires TaskOk(s.tasks[i], s.attempts[i], s.entered[i])
    ensures var t := Step(s, Reserve(id, worker, startAt, redo, attempt));
            i < |t.tasks| && i < |t.attempts| && i < |t.entered| && TaskOk(t.tasks[i], t.attempts[i], t.entered[i])
  {
    if id == i && s.tasks[i].status == Running {
      ReserveKeepsTaskOk(s.tasks[i], s.attempts[i], s.entered[i], s.now);
    }
  }

  lemma FinishStepOk(s: State, id: nat, worker: string, startAt: nat, redo: int, expected: Status, outcome: Status,
                     priority: int, i: nat)
    requires |s.attempts| == |s.tasks| && |s.entered| == |s.tasks| && i < |s.tasks|
    requires TaskOk(s.tasks[i], s.attempts[i], s.entered[i])
    ensures var t := Step(s, Finish(id, worker, startAt, redo, expected, outcome, priority));
            i < |t.tasks| && i < |t.attempts| && i < |t.entered| && TaskOk(t.tasks[i], t.attempts[i], t.entered[i])
  {
    if id == i && (outcome == Success || outcome == Fail)
        && (s.tasks[i].status == Running || s.tasks[i].status == Completing) {
      OutcomeKeepsTaskOk(s.tasks[i], s.attempts[i], s.entered[i], outcome, priority, s.now);
    }
  }

  lemma StepPreservesInv(s: State, e: Event)
    requires Inv(s)
    ensures Inv(Step(s, e))
  {
    var t := Step(s, e);
    forall i | 0 <= i < |t.tasks|
      ensures TaskOk(t.tasks[i], t.attempts[i], t.entered[i])
    {
      assert i < |s.tasks| ==> TaskOk(s.tasks[i], s.attempts[i], s.entered[i]);
      StepKeepsTaskOk(s, e, i);
    }
  }

  lemma {:induction false} Reachable(independent: set<string>, es: seq<Event>)
    ensures Inv(Run(Init(independent), es))
    decreases |es|
  {
    if es != [] {
      Reachable(independent, es[..|es| - 1]);
      StepPreservesInv(Run(Init(independent), es[..|es| - 1]), es[|es| - 1]);
    }
  }

  lemma {:induction false} IncreasingIsShort(xs: seq<int>, lo: int, hi: int)
    requires Increasing(xs) && Within(xs, lo, hi) && lo <= hi + 1
    ensures |xs| <= hi - lo + 1
    decreases |xs|
  {
    if xs != [] {
      var front := xs[..|xs| - 1];
      assert Within(front, lo, xs[|xs| - 1] - 1);
      IncreasingIsShort(front, lo, xs[|xs| - 1] - 1);
    }
  }

  /** In every run: no attempt number of a task is handed out twice, none enters
      the application callback twice, a task is claimed at most TaskConfigRedo + 1
      times, and attempt numbers and the redo column stay within 32 bits. */
  lemma AttemptsAreFenced(independent: set<string>, es: seq<Event>, id: nat)
    requires id < |Run(Init(independent), es).tasks|
    ensures var s := Run(Init(independent), es);
            && id < |s.attempts| && id < |s.entered|
            && Increasing(s.attempts[id]) && Increasing(s.entered[id])
            && |s.attempts[id]| <= s.tasks[id].configRedo + 1
            && |s.entered[id]| <= s.tasks[id].configRedo + 1
            && Within(s.attempts[id], 1, MAX_INT32) && 0 <= s.tasks[id].redo <= MAX_INT32
  {
    Reachable(independent, es);
    var s := Run(Init(independent), es);
    assert TaskOk(s.tasks[id], s.attempts[id], s.entered[id]);
    IncreasingIsShort(s.attempts[id], 1, s.tasks[id].configRedo + 1);
    IncreasingIsShort(s.entered[id], 1, s.tasks[id].configRedo + 1);
  }

  // -------------------------------------------------------------- termination

  function Rank(st: Status): nat {
    match st case Pending => 4 case Fail => 4 case Running => 3 case Completing => 2 case Success => 1 case Cancel => 0
  }

  /** How many more changes a task can still undergo. */
  function Fuel(r: Row): int { 5 * (r.configRedo + 1 - r.redo) + Rank(r.status) }

  function TotalFuel(tasks: seq<Row>): int
    decreases |tasks|
  {
    if tasks == [] then 0 else TotalFuel(tasks[..|tasks| - 1]) + Fuel(tasks[|tasks| - 1])
  }

  lemma {:induction false} PointwiseFuel(a: seq<Row>, b: seq<Row>)
    requires |a| == |b| && (forall i :: 0 <= i < |a| ==> a[i] == b[i] || Fuel(b[i]) < Fuel(a[i]))
    ensures TotalFuel(b) <= TotalFuel(a) && (a != b ==> TotalFuel(b) < TotalFuel(a))
    decreases |a|
  {
    if a != [] {
      PointwiseFuel(a[..|a| - 1], b[..|b| - 1]);
      if a[..|a| - 1] == b[..|b| - 1] && a[|a| - 1] == b[|b| - 1] {
        assert a == a[..|a| - 1] + [a[|a| - 1]] && b == b[..|b| - 1] + [b[|b| - 1]];
      }
    }
  }

  lemma {:induction false} FuelIsNatural(tasks: seq<Row>)
    requires forall i :: 0 <= i < |tasks| ==> Fuel(tasks[i]) >= 0
    ensures TotalFuel(tasks) >= 0
    decreases |tasks|
  {
    if tasks != [] { FuelIsNatural(tasks[..|tasks| - 1]); }
  }

  /** A step that changes a row burns its fuel. */
  lemma StepBurns(s: State, e: Event)
    requires Inv(s) && !e.Create?
    ensures TotalFuel(Step(s, e).tasks) <= TotalFuel(s.tasks)
    ensures Step(s, e).tasks != s.tasks ==> TotalFuel(Step(s, e).tasks) < TotalFuel(s.tasks)
  {
    var t := Step(s, e);
    forall i | 0 <= i < |s.tasks|
      ensures s.tasks[i] == t.tasks[i] || Fuel(t.tasks[i]) < Fuel(s.tasks[i])
    {
      assert TaskOk(s.tasks[i], s.attempts[i], s.entered[i]);
    }
    PointwiseFuel(s.tasks, t.tasks);
  }

  /** Number of events of a run that change the table. */
  function Changes(s: State, es: seq<Event>): nat
    decreases |es|
  {
    if es == [] then 0
    else
      var before := Run(s, es[..|es| - 1]);
      Changes(s, es[..|es| - 1]) + (if Step(before, es[|es| - 1]).tasks != before.tasks then 1 else 0)
  }

  predicate NoCreate(es: seq<Event>) { forall i :: 0 <= i < |es| ==> !es[i].Create? }

  lemma {:induction false} FuelAccounts(s: State, es: seq<Event>)
    requires Inv(s) && NoCreate(es)
    ensures Inv(Run(s, es)) && Changes(s, es) + TotalFuel(Run(s, es).tasks) <= TotalFuel(s.tasks)
    decreases |es|
  {
    if es != [] {
      FuelAccounts(s, es[..|es| - 1]);
      StepPreservesInv(Run(s, es[..|es| - 1]), es[|es| - 1]);
      StepBurns(Run(s, es[..|es| - 1]), es[|es| - 1]);
    }
  }

  /** Every run over a fixed set of tasks does bounded work, however callbacks,
      timeouts, restarts and retries interleave. */
  lemma RunsAreBounded(independent: set<string>, es: seq<Event>, more: seq<Event>)
    requires NoCreate(more)
    ensures Changes(Run(Init(independent), es), more) <= TotalFuel(Run(Init(independent), es).tasks)
  {
    Reachable(independent, es);
    FuelAccounts(Run(Init(independent), es), more);
    var t := Run(Run(Init(independent), es), more);
    forall i | 0 <= i < |t.tasks| ensures Fuel(t.tasks[i]) >= 0 {
      assert TaskOk(t.tasks[i], t.attempts[i], t.entered[i]);
    }
    FuelIsNatural(t.tasks);
  }

  // ------------------------------------------------------------- dependencies

  /** Every dependent task that was ever claimed has only finished predecessors. */
  ghost predicate Ordered(s: State) {
    forall i, j | 0 <= i < |s.tasks| && 0 <= j < |s.tasks| && DependsOn(s, i, j) :: Done(s.tasks[j])
  }

  /** Task `i` was claimed as a dependent task and `j` is on a lower step of its group. */
  predicate DependsOn(s: State, i: nat, j: nat)
    requires i < |s.tasks| && j < |s.tasks|
  {
    && i < |s.attempts| && s.attempts[i] != [] && s.tasks[i].kind !in s.independent
    && s.tasks[j].group == s.tasks[i].group && s.tasks[j].step < s.tasks[i].step
  }

  /** Scheduling identity and completion under one step. */
  lemma StepKeepsIdentity(s: State, e: Event, i: nat)
    requires Inv(s) && i < |s.tasks|
    ensures var t := Step(s, e);
            && i < |t.tasks| && i < |t.attempts| && t.independent == s.independent
            && t.tasks[i].group == s.tasks[i].group && t.tasks[i].step == s.tasks[i].step
               && t.tasks[i].kind == s.tasks[i].kind
            && (Done(s.tasks[i]) ==> Done(t.tasks[i]))
  {}

  /** Whether creating a row keeps finished predecessors finished. */
  predicate ProperCreate(s: State, row: Row)
    requires |s.attempts| == |s.tasks|
  {
    forall i | 0 <= i < |s.tasks| && s.attempts[i] != [] && s.tasks[i].kind !in s.independent ::
      s.tasks[i].group == row.group ==> s.tasks[i].step <= row.step
  }

  lemma StepKeepsOrdered(s: State, e: Event)
    requires Inv(s) && Ordered(s) && !e.Create?
    ensures Ordered(Step(s, e))
  {
    var t := Step(s, e);
    forall i, j | 0 <= i < |t.tasks| && 0 <= j < |t.tasks| && DependsOn(t, i, j)
      ensures Done(t.tasks[j])
    {
      StepKeepsIdentity(s, e, i);
      StepKeepsIdentity(s, e, j);
      if s.attempts[i] != [] {
        assert DependsOn(s, i, j);
      } else {
        assert e.Claim? && e.id == i && Eligible(s.independent, s.tasks, i);
      }
    }
  }

  /** Adding a task keeps the order exactly when no claimed dependent task of its
      group sits on a later step: the check a producer can make beforehand. */
  lemma CreateKeepsOrderedIff(s: State, row: Row)
    requires Inv(s) && Ordered(s) && NewRow(row, s.independent)
    ensures Ordered(Step(s, Create(row))) <==> ProperCreate(s, row)
  {
    var t := Step(s, Create(row));
    var n := |s.tasks|;
    if !ProperCreate(s, row) {
      var i :| 0 <= i < |s.tasks| && s.attempts[i] != [] && s.tasks[i].kind !in s.independent
               && s.tasks[i].group == row.group && s.tasks[i].step > row.step;
      assert DependsOn(t, i, n) && !Done(t.tasks[n]);
    } else {
      forall i, j | 0 <= i < |t.tasks| && 0 <= j < |t.tasks| && DependsOn(t, i, j)
        ensures Done(t.tasks[j])
      {
        assert i < n && t.tasks[i] == s.tasks[i] && t.attempts[i] == s.attempts[i];
        if j < n { assert DependsOn(s, i, j); }
      }
    }
  }

  /** Every creation of the run respected the tasks already claimed. */
  predicate ProperRun(s: State, es: seq<Event>)
    decreases |es|
  {
    es == [] ||
    (&& ProperRun(s, es[..|es| - 1])
     && var before := Run(s, es[..|es| - 1]);
        es[|es| - 1].Create? ==> |before.attempts| == |before.tasks| && ProperCreate(before, es[|es| - 1].row))
  }

  lemma {:induction false} OrderedRun(s: State, es: seq<Event>)
    requires Inv(s) && Ordered(s) && ProperRun(s, es)
    ensures Inv(Run(s, es)) && Ordered(Run(s, es))
    decreases |es|
  {
    if es != [] {
      var front := es[..|es| - 1];
      var e := es[|es| - 1];
      OrderedRun(s, front);
      StepPreservesInv(Run(s, front), e);
      if e.Create? {
        if NewRow(e.row, Run(s, front).independent) { CreateKeepsOrderedIff(Run(s, front), e.row); }
      } else {
        StepKeepsOrdered(Run(s, front), e);
      }
    }
  }

  lemma {:induction false} FinishedStaysFinished(s: State, es: seq<Event>, i: nat)
    requires Inv(s) && i < |s.tasks|
    ensures var t := Run(s, es);
            && Inv(t) && i < |t.tasks| && t.independent == s.independent
            && t.tasks[i].group == s.tasks[i].group && t.tasks[i].step == s.tasks[i].step
               && t.tasks[i].kind == s.tasks[i].kind
            && (Done(s.tasks[i]) ==> Done(t.tasks[i]))
    decreases |es|
  {
    if es != [] {
      FinishedStaysFinished(s, es[..|es| - 1], i);
      StepPreservesInv(Run(s, es[..|es| - 1]), es[|es| - 1]);
      StepKeepsIdentity(Run(s, es[..|es| - 1]), es[|es| - 1], i);
    }
  }

  /** Once a dependent task has been claimed, every task of a lower step in its
      group is success or cancel, and stays so for the rest of the run. */
  lemma ClaimedAfterPredecessors(independent: set<string>, es: seq<Event>, more: seq<Event>, i: nat, j: nat)
    requires ProperRun(Init(independent), es)
    requires i < |Run(Init(independent), es).tasks| && j < |Run(Init(independent), es).tasks|
    requires DependsOn(Run(Init(independent), es), i, j)
    ensures var s, t := Run(Init(independent), es), Run(Run(Init(independent), es), more);
            Done(s.tasks[j]) && j < |t.tasks| && Done(t.tasks[j])
  {
    Reachable(independent, es);
    OrderedRun(Init(independent), es);
    FinishedStaysFinished(Run(Init(independent), es), more, j);
  }

  // ------------------------------------------------------------------ wake-ups

  /** An eligible workflow task stays eligible until it is itself touched, as long
      as no task is added. */
  lemma {:induction false} EligibleUntilTouched(s: State, es: seq<Event>, u: nat)
    requires Inv(s) && NoCreate(es) && u < |s.tasks| && s.tasks[u].kind !in s.independent
             && Eligible(s.independent, s.tasks, u)
    requires u < |Run(s, es).tasks| && Run(s, es).tasks[u] == s.tasks[u]
    ensures !Blocked(Run(s, es).tasks, s.tasks[u])
  {
    var t := Run(s, es);
    SameLength(s, es);
    if Blocked(t.tasks, s.tasks[u]) {
      var i :| 0 <= i < |t.tasks| && t.tasks[i].group == s.tasks[u].group && t.tasks[i].step < s.tasks[u].step
          && !Done(t.tasks[i]);
      FinishedStaysFinished(s, es, i);
      assert Blocked(s.tasks, s.tasks[u]);
    }
  }

  lemma {:induction false} SameLength(s: State, es: seq<Event>)
    requires Inv(s) && NoCreate(es)
    ensures |Run(s, es).tasks| == |s.tasks|
    decreases |es|
  {
    if es != [] { SameLength(s, es[..|es| - 1]); }
  }

  /** No missed wake-up under concurrency: a task made eligible by the success of
      `t` is still in the answer of t's wake-up query when that query runs later,
      unless somebody has touched it meanwhile. */
  lemma LateWakeUpStillFinds(s: State, t: nat, row: Row, es: seq<Event>, u: nat)
    requires Inv(s) && NoCreate(es) && t < |s.tasks|
             && (s.tasks[t].status == Completing || s.tasks[t].status == Running)
    requires row == s.tasks[t].(status := Success, priority := row.priority, updatedAt := row.updatedAt)
    requires Workflow(s.independent, s.tasks, row.group)
    requires u in Flipped(s.independent, s.tasks, s.tasks[t := row])
    requires u < |Run(s.(tasks := s.tasks[t := row]), es).tasks|
             && Run(s.(tasks := s.tasks[t := row]), es).tasks[u] == s.tasks[t := row][u]
    ensures u in NextStepTasks(s.independent, Run(s.(tasks := s.tasks[t := row]), es).tasks, row)
  {
    var after := s.(tasks := s.tasks[t := row]);
    assert TaskOk(s.tasks[t], s.attempts[t], s.entered[t]);
    assert TaskOk(row, s.attempts[t], s.entered[t]);
    WakeUpIsExact(s.independent, s.tasks, t, row);
    assert u in NextStepTasks(s.independent, after.tasks, row);
    assert u != t;
    EligibleUntilTouched(after, es, u);
    SubqueryFindsBlockers(Run(after, es).tasks, after.tasks[u]);
  }

  // ------------------------------------------------------- abandoned callbacks

  lemma {:induction false} ClockMovesOn(s: State, es: seq<Event>)
    ensures s.now <= Run(s, es).now
    decreases |es|
  {
    if es != [] { ClockMovesOn(s, es[..|es| - 1]); }
  }

  /** In every reachable state the statement expires all abandoned callbacks, and
      beyond any further claim, exactly when none carries the largest limit. */
  lemma AbandonedExpireIff(independent: set<string>, es: seq<Event>)
    ensures var s := Run(Init(independent), es);
            (forall i :: 0 <= i < |s.tasks| && Abandoned(s.tasks[i], s.now) ==>
                  Terminated(AfterAbandon(s.tasks, s.now)[i]))
            <==> (forall i :: 0 <= i < |s.tasks| && Abandoned(s.tasks[i], s.now) ==> s.tasks[i].configRedo < MAX_INT32)
  {
    var s := Run(Init(independent), es);
    if i :| 0 <= i < |s.tasks| && Abandoned(s.tasks[i], s.now) && s.tasks[i].configRedo >= MAX_INT32 {
      assert !AbandonFits(s.tasks, s.now) && AfterAbandon(s.tasks, s.now)[i] == s.tasks[i];
    }
  }

  /** Failed with no retry left. */
  predicate Terminated(r: Row) { r.status == Fail && r.redo > r.configRedo }

  /** One abandoned callback with the largest limit blocks the expiry of all of
      them: as long as its row stays as it is, at whatever later point of the run,
      the statement changes nothing. */
  lemma HugeLimitBlocksEveryExpiry(independent: set<string>, es: seq<Event>, more: seq<Event>, i: nat)
    requires var s := Run(Init(independent), es);
             i < |s.tasks| && Abandoned(s.tasks[i], s.now) && s.tasks[i].configRedo == MAX_INT32
    requires var s, t := Run(Init(independent), es), Run(Run(Init(independent), es), more);
             i < |t.tasks| && t.tasks[i] == s.tasks[i]
    ensures var t := Run(Run(Init(independent), es), more); Step(t, ExpireAbandoned) == t
  {
    var s := Run(Init(independent), es);
    ClockMovesOn(s, more);
    var t := Run(s, more);
    assert Abandoned(t.tasks[i], t.now) && !AbandonFits(t.tasks, t.now);
  }

  lemma TerminatedStep(s: State, e: Event, i: nat)
    requires Inv(s) && i < |s.tasks| && (Terminated(s.tasks[i]) || s.tasks[i].status == Cancel)
    ensures var t := Step(s, e);
            && i < |t.tasks| && i < |t.attempts| && t.attempts[i] == s.attempts[i]
            && (Terminated(t.tasks[i]) || t.tasks[i].status == Cancel)
  {}

  /** An expired callback is never attempted again: its outcome is left to people. */
  lemma {:induction false} TerminatedForGood(s: State, es: seq<Event>, i: nat)
    requires Inv(s) && i < |s.tasks| && (Terminated(s.tasks[i]) || s.tasks[i].status == Cancel)
    ensures var t := Run(s, es);
            && Inv(t) && i < |t.tasks| && t.attempts[i] == s.attempts[i]
            && (Terminated(t.tasks[i]) || t.tasks[i].status == Cancel)
    decreases |es|
  {
    if es != [] {
      TerminatedForGood(s, es[..|es| - 1], i);
      StepPreservesInv(Run(s, es[..|es| - 1]), es[|es| - 1]);
      TerminatedStep(Run(s, es[..|es| - 1]), es[|es| - 1], i);
    }
  }

  // ------------------------------------------------------------------ witnesses

  lemma RunAppend(s: State, es: seq<Event>, e: Event)
    ensures Run(s, es + [e]) == Step(Run(s, es), e)
  {
    assert (es + [e])[..|es|] == es;
  }

  lemma RunThree(s: State, a: Event, b: Event, c: Event)
    ensures Run(s, [a, b, c]) == Step(Step(Step(s, a), b), c)
  {
    assert [a] == [] + [a] && [a, b] == [a] + [b] && [a, b, c] == [a, b] + [c];
    RunAppend(s, [], a);
    RunAppend(s, [a], b);
    RunAppend(s, [a, b], c);
  }

  lemma RunFour(s: State, a: Event, b: Event, c: Event, d: Event)
    ensures Run(s, [a, b, c, d]) == Step(Step(Step(Step(s, a), b), c), d)
  {
    RunThree(s, a, b, c);
    assert [a, b, c, d] == [a, b, c] + [d];
    RunAppend(s, [a, b, c], d);
  }

  function Fresh(step: int, kind: string, limit: int): Row {
    Row(Group("o", "u", 1, "a"), step, kind, 0, Pending, 0, "", None, 0, limit, 1)
  }

  lemma CreatedOne(independent: set<string>, row: Row) returns (s: State)
    requires NewRow(row, independent)
    ensures s == Step(Init(independent), Create(row))
    ensures s.now == 0 && s.independent == independent && s.tasks == [row] && s.attempts == [[]] && s.entered == [[]]
  {
    s := Step(Init(independent), Create(row));
  }

  lemma CreatedNext(s: State, row: Row) returns (t: State)
    requires NewRow(row, s.independent) && |s.attempts| == |s.tasks| == |s.entered|
    ensures t == Step(s, Create(row)) && t.now == s.now && t.independent == s.independent
    ensures t.tasks == s.tasks + [row] && t.attempts == s.attempts + [[]] && t.entered == s.entered + [[]]
  {
    t := Step(s, Create(row));
  }

  lemma ClaimedFirst(s: State) returns (t: State)
    requires |s.attempts| == |s.tasks| > 0 && Eligible(s.independent, s.tasks, 0)
    ensures t == Step(s, Claim(0, "w")) && t.now == s.now && t.independent == s.independent && t.entered == s.entered
    ensures t.tasks == s.tasks[0 := Claimed(s.tasks[0], "w", s.now)]
    ensures |t.attempts| == |t.tasks| && t.attempts[0] != []
  {
    t := Step(s, Claim(0, "w"));
  }

  lemma ReservedFirst(s: State) returns (t: State)
    requires |s.entered| == |s.tasks| > 0 && Fenced(s.tasks[0], "w", 0, 0, Running)
    ensures t == Step(s, Reserve(0, "w", 0, 0, 1)) && t.now == s.now && t.independent == s.independent
    ensures t.tasks == s.tasks[0 := Reserved(s.tasks[0], s.now)]
  {
    t := Step(s, Reserve(0, "w", 0, 0, 1));
  }

  /** The order does break: a task claimed on step one while a task of step zero of
      its group is created afterwards. */
  lemma LateCreationBreaksOrder()
    ensures !Ordered(Run(Init({}), [Create(Fresh(1, "k", 0)), Claim(0, "w"), Create(Fresh(0, "k", 0))]))
  {
    var later, earlier := Fresh(1, "k", 0), Fresh(0, "k", 0);
    RunThree(Init({}), Create(later), Claim(0, "w"), Create(earlier));
    var s1 := CreatedOne({}, later);
    var s2 := ClaimedFirst(s1);
    var s3 := CreatedAfterClaim(s2, earlier);
  }

  lemma CreatedAfterClaim(s: State, row: Row) returns (t: State)
    requires NewRow(row, s.independent) && |s.attempts| == |s.tasks| == |s.entered| == 1
    requires s.attempts[0] != [] && s.tasks[0].kind !in s.independent
    requires s.tasks[0].group == row.group && row.step < s.tasks[0].step
    ensures t == Step(s, Create(row)) && !Ordered(t)
  {
    t := CreatedNext(s, row);
    assert DependsOn(t, 0, 1) && !Done(t.tasks[1]);
  }

  lemma MixedSetup(free: Row, flow: Row) returns (s: State)
    requires free == Fresh(0, "free", 0) && flow == Fresh(1, "flow", 0)
    ensures s == Run(Init({"free"}), [Create(free), Create(flow), Claim(0, "w"), Reserve(0, "w", 0, 0, 1)])
    ensures s.now == 0 && s.tasks == [Reserved(Claimed(free, "w", 0), 0), flow]
  {
    RunFour(Init({"free"}), Create(free), Create(flow), Claim(0, "w"), Reserve(0, "w", 0, 0, 1));
    var s1 := CreatedOne({"free"}, free);
    var s2 := CreatedNext(s1, flow);
    var s3 := ClaimedFirst(s2);
    s := ReservedFirst(s3);
  }

  /** The wake-up does miss: an independent step-zero task finishing in a mixed
      group makes a later step eligible and reports nothing. */
  lemma MixedGroupMissesWakeUp()
    ensures var s := Run(Init({"free"}), [Create(Fresh(0, "free", 0)), Create(Fresh(1, "flow", 0)),
                                          Claim(0, "w"), Reserve(0, "w", 0, 0, 1)]);
            var t := Step(s, Finish(0, "w", 0, 0, Completing, Success, 0));
            && |s.tasks| == |t.tasks| == 2 && 1 in Flipped({"free"}, s.tasks, t.tasks)
            && NextStepTasks({"free"}, t.tasks, t.tasks[0]) == {}
  {
    var free, flow := Fresh(0, "free", 0), Fresh(1, "flow", 0);
    var s := MixedSetup(free, flow);
    var t := Step(s, Finish(0, "w", 0, 0, Completing, Success, 0));
    assert t.tasks == s.tasks[0 := s.tasks[0].(status := Success)];
    FlipsBehind({"free"}, s.tasks, 0, t.tasks[0], 1);
  }

  /** A limit that the creation check accepts and the expiry cannot store: the row
      is abandoned and stays so. */
  lemma HugeLimitIsReachable()
    ensures var s := Run(Init({}), [Create(Fresh(0, "k", MAX_INT32)), Claim(0, "w"),
                                    Reserve(0, "w", 0, 0, 1), Tick(ABANDON_AFTER + 1)]);
            && |s.tasks| == 1 && Abandoned(s.tasks[0], s.now) && s.tasks[0].configRedo == MAX_INT32
            && Step(s, ExpireAbandoned) == s
  {
    var huge := Fresh(0, "k", MAX_INT32);
    RunFour(Init({}), Create(huge), Claim(0, "w"), Reserve(0, "w", 0, 0, 1), Tick(ABANDON_AFTER + 1));
    var s1 := CreatedOne({}, huge);
    var s2 := ClaimedFirst(s1);
    var s3 := ReservedFirst(s2);
    var s4 := Step(s3, Tick(ABANDON_AFTER + 1));
    assert Abandoned(s4.tasks[0], s4.now);
  }
}
