/** Task rows, the conditional updates on them, and the dependency rule in the
    three forms the queue uses. */
module TaskModel {
  import opened Options

  const MAX_INT32: int := 2147483647
  const ABANDON_AFTER: int := 60 * 60 * 1000

  datatype Status = Pending | Running | Completing | Success | Fail | Cancel

  /** A member's business resource group. */
  datatype Group = Group(organization: string, user: string, subject: nat, app: string)

  datatype Row = Row(group: Group, step: int, kind: string, priority: int, status: Status, redo: int,
                     worker: string, startAt: Option<nat>, updatedAt: nat, configRedo: int, timeout: nat)

  predicate Done(r: Row) { r.status == Success || r.status == Cancel }

  /** Waiting with retry budget left. */
  predicate Runnable(r: Row) {
    (r.status == Pending || r.status == Fail) && 0 <= r.redo < MAX_INT32 && r.redo <= r.configRedo
  }

  /** A row as CreateTask accepts it: pending, no retries used. */
  predicate NewRow(r: Row, independent: set<string>) {
    && r.status == Pending && r.redo == 0 && 0 <= r.configRedo <= MAX_INT32 && r.timeout > 0
    && (r.kind in independent ==> r.step == 0)
  }

  // ------------------------------------------------------- conditional updates

  function Claimed(r: Row, worker: string, now: nat): Row {
    r.(status := Running, worker := worker, startAt := Some(now), updatedAt := now)
  }

  /** The fence shared by reservation, outcome, timeout and health expiry. */
  predicate Fenced(r: Row, worker: string, startAt: nat, redo: int, status: Status) {
    r.worker == worker && r.startAt == Some(startAt) && r.redo == redo && r.status == status
  }

  function Reserved(r: Row, now: nat): Row { r.(status := Completing, updatedAt := now) }

  function Finished(r: Row, outcome: Status, priority: int, now: nat): Row {
    r.(status := outcome, redo := if outcome == Fail then r.redo + 1 else r.redo,
       priority := priority, updatedAt := now)
  }

  function Restarted(r: Row, now: nat): Row {
    if r.status == Running then r.(status := Fail, redo := r.redo + 1, updatedAt := now) else r
  }

  predicate Abandoned(r: Row, now: nat) { r.status == Completing && r.updatedAt + ABANDON_AFTER < now }

  function GivenUp(r: Row, now: nat): Row {
    if Abandoned(r, now) then r.(status := Fail, redo := r.configRedo + 1, updatedAt := now) else r
  }

  /** One UPDATE expires all abandoned callbacks, or none when some row's retry
      limit plus one does not fit the column. */
  predicate AbandonFits(tasks: seq<Row>, now: nat) {
    forall i :: 0 <= i < |tasks| && Abandoned(tasks[i], now) ==> tasks[i].configRedo < MAX_INT32
  }

  function Each(tasks: seq<Row>, f: Row -> Row): (r: seq<Row>)
    ensures |r| == |tasks| && (forall i :: 0 <= i < |tasks| ==> r[i] == f(tasks[i]))
  {
    seq(|tasks|, i requires 0 <= i < |tasks| => f(tasks[i]))
  }

  function AfterRestart(tasks: seq<Row>, now: nat): seq<Row> { Each(tasks, r => Restarted(r, now)) }

  function AfterAbandon(tasks: seq<Row>, now: nat): seq<Row> {
    if AbandonFits(tasks, now) then Each(tasks, r => GivenUp(r, now)) else tasks
  }

  // --------------------------------------------------------- dependency rule

  /** An unfinished task of an earlier step in the same group (the locked recheck
      of a claim). */
  predicate Blocked(tasks: seq<Row>, r: Row) {
    exists i :: 0 <= i < |tasks| && tasks[i].group == r.group && tasks[i].step < r.step && !Done(tasks[i])
  }

  /** MIN(step) over the unfinished tasks of a group (the discovery join). */
  function ReadyStep(tasks: seq<Row>, g: Group): Option<int>
    decreases |tasks|
  {
    if tasks == [] then None
    else
      var last := tasks[|tasks| - 1];
      var rest := ReadyStep(tasks[..|tasks| - 1], g);
      if last.group != g || Done(last) then rest
      else if rest.None? || last.step < rest.value then Some(last.step) else rest
  }

  lemma {:induction false} ReadyStepIsMinimum(tasks: seq<Row>, g: Group)
    ensures ReadyStep(tasks, g).None? ==> forall i :: 0 <= i < |tasks| && tasks[i].group == g ==> Done(tasks[i])
    ensures ReadyStep(tasks, g).Some? ==>
              exists i :: 0 <= i < |tasks| && tasks[i].group == g && !Done(tasks[i])
                          && tasks[i].step == ReadyStep(tasks, g).value
    ensures ReadyStep(tasks, g).Some? ==>
              forall i :: 0 <= i < |tasks| && tasks[i].group == g && !Done(tasks[i]) ==>
                ReadyStep(tasks, g).value <= tasks[i].step
    decreases |tasks|
  {
    if tasks != [] {
      var front := tasks[..|tasks| - 1];
      ReadyStepIsMinimum(front, g);
      assert forall i :: 0 <= i < |front| ==> front[i] == tasks[i];
      var m := ReadyStep(tasks, g);
      if m.Some? && m == ReadyStep(front, g) {
        var i :| 0 <= i < |front| && front[i].group == g && !Done(front[i]) && front[i].step == m.value;
        assert tasks[i].step == m.value;
      } else if m.Some? {
        assert tasks[|tasks| - 1].step == m.value;
      }
    }
  }

  /** Rows the correlated subquery of the wake-up query selects for `r`; the query
      keeps `r` when there is none. */
  function EarlierUnfinished(tasks: seq<Row>, r: Row): seq<Row>
    decreases |tasks|
  {
    if tasks == [] then []
    else
      var last := tasks[|tasks| - 1];
      var rest := EarlierUnfinished(tasks[..|tasks| - 1], r);
      if last.group == r.group && last.step < r.step && !Done(last) then rest + [last] else rest
  }

  lemma {:induction false} SubqueryFindsBlockers(tasks: seq<Row>, r: Row)
    ensures EarlierUnfinished(tasks, r) != [] <==> Blocked(tasks, r)
    decreases |tasks|
  {
    if tasks != [] {
      var front := tasks[..|tasks| - 1];
      SubqueryFindsBlockers(front, r);
      assert forall k :: 0 <= k < |front| ==> tasks[k] == front[k];
      if Blocked(front, r) {
        var i :| 0 <= i < |front| && front[i].group == r.group && front[i].step < r.step && !Done(front[i]);
        assert tasks[i] == front[i];
      }
    }
  }

  /** Discovery and counting: readyTaskJoin, or step zero for independent types. */
  predicate Discovered(independent: set<string>, tasks: seq<Row>, i: nat)
    requires i < |tasks|
  {
    && Runnable(tasks[i])
    && if tasks[i].kind in independent then tasks[i].step == 0
       else ReadyStep(tasks, tasks[i].group) == Some(tasks[i].step)
  }

  /** The decision of a claim under the row lock. */
  predicate Eligible(independent: set<string>, tasks: seq<Row>, i: nat)
    requires i < |tasks|
  {
    && Runnable(tasks[i])
    && if tasks[i].kind in independent then tasks[i].step == 0 else !Blocked(tasks, tasks[i])
  }

  /** The grouped minimum, the blocker search and the correlated subquery decide
      alike for every waiting task. */
  lemma FormsAgree(independent: set<string>, tasks: seq<Row>, i: nat)
    requires i < |tasks|
    ensures !Done(tasks[i]) ==> (ReadyStep(tasks, tasks[i].group) == Some(tasks[i].step) <==> !Blocked(tasks, tasks[i]))
    ensures EarlierUnfinished(tasks, tasks[i]) == [] <==> !Blocked(tasks, tasks[i])
    ensures Discovered(independent, tasks, i) <==> Eligible(independent, tasks, i)
  {
    if !Done(tasks[i]) { JoinFindsUnblocked(tasks, i); }
    SubqueryFindsBlockers(tasks, tasks[i]);
  }

  lemma JoinFindsUnblocked(tasks: seq<Row>, i: nat)
    requires i < |tasks| && !Done(tasks[i])
    ensures ReadyStep(tasks, tasks[i].group) == Some(tasks[i].step) <==> !Blocked(tasks, tasks[i])
  {
    ReadyStepIsMinimum(tasks, tasks[i].group);
  }

  /** What a worker may take, over the rows' own fields: waiting or failed, with
      attempts left, and nothing unfinished before it in its group (an independent
      type has no predecessors and sits on step zero). */
  predicate Free(independent: set<string>, tasks: seq<Row>, i: nat) {
    && i < |tasks| && (tasks[i].status == Pending || tasks[i].status == Fail)
    && 0 <= tasks[i].redo <= tasks[i].configRedo && tasks[i].redo < 2147483647
    && (tasks[i].kind in independent ==> tasks[i].step == 0)
    && (tasks[i].kind !in independent ==>
          forall j | 0 <= j < |tasks| && tasks[j].group == tasks[i].group && tasks[j].step < tasks[i].step ::
            tasks[j].status == Success || tasks[j].status == Cancel)
  }

  lemma EligibleIsFree(independent: set<string>, tasks: seq<Row>, i: nat)
    requires i < |tasks|
    ensures Eligible(independent, tasks, i) <==> Free(independent, tasks, i)
  {}

  function PendingTasks(independent: set<string>, tasks: seq<Row>, kind: string): set<nat> {
    set i: nat | i < |tasks| && tasks[i].kind == kind && Discovered(independent, tasks, i)
  }

  function TakeableTasks(independent: set<string>, tasks: seq<Row>, kind: string): set<nat> {
    set i: nat | i < |tasks| && tasks[i].kind == kind && Eligible(independent, tasks, i)
  }

  /** The pending count equals the number of tasks a claim could take. */
  lemma PendingCountIsTakeable(independent: set<string>, tasks: seq<Row>, kind: string)
    ensures PendingTasks(independent, tasks, kind) == TakeableTasks(independent, tasks, kind)
    ensures |PendingTasks(independent, tasks, kind)| == |TakeableTasks(independent, tasks, kind)|
  {
    forall i: nat | i < |tasks| ensures Discovered(independent, tasks, i) <==> Eligible(independent, tasks, i) {
      FormsAgree(independent, tasks, i);
    }
  }

  /** Tasks reported as newly unblocked after `r` succeeded. */
  function NextStepTasks(independent: set<string>, tasks: seq<Row>, r: Row): set<nat> {
    if r.kind in independent && r.step == 0 then {}
    else set i: nat | i < |tasks| && tasks[i].group == r.group && tasks[i].step > r.step
                      && Runnable(tasks[i]) && EarlierUnfinished(tasks, tasks[i]) == []
  }

  /** What the success of task `t` makes eligible. */
  function Flipped(independent: set<string>, before: seq<Row>, after: seq<Row>): set<nat>
    requires |before| == |after|
  {
    set i: nat | i < |after| && !Eligible(independent, before, i) && Eligible(independent, after, i)
  }

  /** A workflow group: no independent task types, as registration demands. */
  predicate Workflow(independent: set<string>, tasks: seq<Row>, g: Group) {
    forall i :: 0 <= i < |tasks| && tasks[i].group == g ==> tasks[i].kind !in independent
  }

  lemma BlockedElsewhere(before: seq<Row>, t: nat, row: Row, r: Row)
    requires t < |before| && row.group == before[t].group && row.step == before[t].step && !Done(before[t]) && Done(row)
    ensures Blocked(before[t := row], r) ==> Blocked(before, r)
    ensures Blocked(before, r) && !(before[t].group == r.group && before[t].step < r.step) ==>
              Blocked(before[t := row], r)
  {
    var after := before[t := row];
    if Blocked(after, r) {
      var i :| 0 <= i < |after| && after[i].group == r.group && after[i].step < r.step && !Done(after[i]);
      assert i != t && before[i] == after[i];
    }
    if Blocked(before, r) && !(before[t].group == r.group && before[t].step < r.step) {
      var i :| 0 <= i < |before| && before[i].group == r.group && before[i].step < r.step && !Done(before[i]);
      assert i != t && after[i] == before[i];
    }
  }

  /** In a workflow group there is neither a missed wake-up nor a rebroadcast. */
  lemma WakeUpIsExact(independent: set<string>, before: seq<Row>, t: nat, row: Row)
    requires t < |before| && (before[t].status == Completing || before[t].status == Running)
    requires row == before[t].(status := Success, priority := row.priority, updatedAt := row.updatedAt)
    requires Workflow(independent, before, row.group)
    ensures NextStepTasks(independent, before[t := row], row) == Flipped(independent, before, before[t := row])
  {
    assert before[t].kind !in independent;
    WakeUpIsExactIff(independent, before, t, row);
  }

  /** Task `u` is runnable and `t` is the only unfinished task on an earlier step of
      its group. */
  predicate OnlyBehind(tasks: seq<Row>, t: nat, u: nat)
    requires t < |tasks| && u < |tasks|
  {
    && Runnable(tasks[u]) && tasks[u].group == tasks[t].group && tasks[t].step < tasks[u].step
    && (forall i :: 0 <= i < |tasks| && i != t && tasks[i].group == tasks[u].group && tasks[i].step < tasks[u].step ==>
         Done(tasks[i]))
  }

  lemma UnblockedWithout(before: seq<Row>, t: nat, row: Row, u: nat)
    requires t < |before| && u < |before| && row.group == before[t].group && row.step == before[t].step && Done(row)
    ensures !Blocked(before[t := row], before[u]) <==>
            forall i | 0 <= i < |before| && i != t && before[i].group == before[u].group ::
              before[i].step < before[u].step ==> Done(before[i])
  {
    var after := before[t := row];
    if Blocked(after, before[u]) {
      var i :| 0 <= i < |after| && after[i].group == before[u].group && after[i].step < before[u].step
          && !Done(after[i]);
      assert i != t && before[i] == after[i];
    } else {
      forall i | 0 <= i < |before| && i != t && before[i].group == before[u].group && before[i].step < before[u].step
        ensures Done(before[i])
      {
        assert after[i] == before[i];
      }
    }
  }

  /** When the wake-up query is exact, for any group: exactly when whatever waits
      for `t` alone is of an independent type just in case `t` is. */
  lemma WakeUpIsExactIff(independent: set<string>, before: seq<Row>, t: nat, row: Row)
    requires t < |before| && (before[t].status == Completing || before[t].status == Running)
    requires row == before[t].(status := Success, priority := row.priority, updatedAt := row.updatedAt)
    requires row.kind in independent ==> row.step == 0
    ensures NextStepTasks(independent, before[t := row], row) == Flipped(independent, before, before[t := row])
            <==> forall u: nat :: u < |before| && OnlyBehind(before, t, u) ==>
                   (before[u].kind in independent <==> row.kind in independent)
  {
    var after := before[t := row];
    forall u: nat | u < |before|
      ensures u in Flipped(independent, before, after) <==> OnlyBehind(before, t, u) && before[u].kind !in independent
      ensures u in NextStepTasks(independent, after, row) <==> OnlyBehind(before, t, u) && row.kind !in independent
    {
      FlipsBehind(independent, before, t, row, u);
      ReportsBehind(independent, before, t, row, u);
    }
    if u: nat :|
      u < |before| && OnlyBehind(before, t, u) && (before[u].kind in independent <==> row.kind !in independent)
    {
      assert u in Flipped(independent, before, after) <==> u !in NextStepTasks(independent, after, row);
    }
  }

  lemma FlipsBehind(independent: set<string>, before: seq<Row>, t: nat, row: Row, u: nat)
    requires t < |before| && (before[t].status == Completing || before[t].status == Running) && u < |before|
    requires row == before[t].(status := Success, priority := row.priority, updatedAt := row.updatedAt)
    ensures u in Flipped(independent, before, before[t := row]) <==>
              OnlyBehind(before, t, u) && before[u].kind !in independent
  {
    BlockedElsewhere(before, t, row, before[u]);
    UnblockedWithout(before, t, row, u);
    if u != t {
      assert before[t := row][u] == before[u];
      if before[t].group == before[u].group && before[t].step < before[u].step { assert Blocked(before, before[u]); }
    }
  }

  lemma ReportsBehind(independent: set<string>, before: seq<Row>, t: nat, row: Row, u: nat)
    requires t < |before| && u < |before|
    requires row == before[t].(status := Success, priority := row.priority, updatedAt := row.updatedAt)
    requires row.kind in independent ==> row.step == 0
    ensures u in NextStepTasks(independent, before[t := row], row) <==>
              OnlyBehind(before, t, u) && row.kind !in independent
  {
    UnblockedWithout(before, t, row, u);
    SubqueryFindsBlockers(before[t := row], before[t := row][u]);
    if u != t { assert before[t := row][u] == before[u]; }
  }
}
