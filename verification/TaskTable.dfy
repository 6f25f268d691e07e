/** The queue's procedures as they run on the task table: the batched claim loop,
    the worker callback and the timeout scan. */
module TaskTable {
  import opened Options
  import opened TaskModel
  import M = TaskMachine

  const CLAIM_CANDIDATE_BATCH: nat := 32

  /** Claim order: priority descending, then oldest update, then id. */
  predicate Precedes(tasks: seq<Row>, i: nat, j: nat)
    requires i < |tasks| && j < |tasks|
  {
    var a, b := tasks[i], tasks[j];
    || a.priority > b.priority
    || (a.priority == b.priority && (a.updatedAt < b.updatedAt || (a.updatedAt == b.updatedAt && i < j)))
  }

  /** A running row whose time is up. */
  predicate Overdue(r: Row, now: nat) {
    r.status == Running && r.startAt.Some? && now > r.startAt.value + r.timeout
  }

  function TimedOut(r: Row, now: nat): Row {
    if Overdue(r, now) then Finished(r, Fail, r.priority, now) else r
  }

  function AfterTimeouts(tasks: seq<Row>, now: nat): seq<Row> { Each(tasks, r => TimedOut(r, now)) }

  lemma TakeableIsFree(independent: set<string>, tasks: seq<Row>, kind: string)
    ensures forall i: nat ::
              i in TakeableTasks(independent, tasks, kind) <==> Free(independent, tasks, i) && tasks[i].kind == kind
  {
    forall i: nat | i < |tasks| ensures Eligible(independent, tasks, i) <==> Free(independent, tasks, i) {
      EligibleIsFree(independent, tasks, i);
    }
  }

  /** Task `i` is free, unlocked and of the type, and first among those: higher priority,
      then older update, then smaller id. */
  ghost predicate FirstFree(independent: set<string>, tasks: seq<Row>, kind: string, locked: set<nat>, i: nat) {
    && i !in locked && Free(independent, tasks, i) && tasks[i].kind == kind
    && forall j: nat | j !in locked && Free(independent, tasks, j) && tasks[j].kind == kind && j != i ::
         || tasks[i].priority > tasks[j].priority
         || (tasks[i].priority == tasks[j].priority
             && (tasks[i].updatedAt < tasks[j].updatedAt || (tasks[i].updatedAt == tasks[j].updatedAt && i < j)))
  }

  ghost predicate NoneFree(independent: set<string>, tasks: seq<Row>, kind: string, locked: set<nat>) {
    forall j: nat :: Free(independent, tasks, j) && tasks[j].kind == kind ==> j in locked
  }

  lemma FirstIsFree(independent: set<string>, tasks: seq<Row>, kind: string, locked: set<nat>, i: nat)
    requires i in TakeableTasks(independent, tasks, kind) - locked
    requires forall j :: j in TakeableTasks(independent, tasks, kind) - locked && j != i ==> Precedes(tasks, i, j)
    ensures FirstFree(independent, tasks, kind, locked, i)
  {
    TakeableIsFree(independent, tasks, kind);
    forall j: nat | j !in locked && Free(independent, tasks, j) && tasks[j].kind == kind && j != i
      ensures Precedes(tasks, i, j)
    {
      assert j in TakeableTasks(independent, tasks, kind) - locked;
    }
  }

  lemma NothingIsFree(independent: set<string>, tasks: seq<Row>, kind: string, locked: set<nat>)
    requires TakeableTasks(independent, tasks, kind) <= locked
    ensures NoneFree(independent, tasks, kind, locked)
  {
    TakeableIsFree(independent, tasks, kind);
  }

  /** Waiting on a later step of the group, with attempts left and nothing unfinished
      on any step before its own. */
  predicate Unblocked(tasks: seq<Row>, done: Row, u: nat) {
    && u < |tasks| && tasks[u].group == done.group && tasks[u].step > done.step
    && (tasks[u].status == Pending || tasks[u].status == Fail)
    && 0 <= tasks[u].redo <= tasks[u].configRedo && tasks[u].redo < 2147483647
    && forall j | 0 <= j < |tasks| && tasks[j].group == done.group && tasks[j].step < tasks[u].step ::
         tasks[j].status == Success || tasks[j].status == Cancel
  }

  /** The tasks woken by the success of `done`: none for an independent task on step
      zero, else exactly the unblocked ones. */
  ghost predicate Wakes(independent: set<string>, tasks: seq<Row>, done: Row, woken: set<nat>) {
    forall u: nat :: u in woken <==> !(done.kind in independent && done.step == 0) && Unblocked(tasks, done, u)
  }

  lemma WakesMeans(independent: set<string>, tasks: seq<Row>, done: Row)
    ensures Wakes(independent, tasks, done, NextStepTasks(independent, tasks, done))
  {
    forall u: nat | u < |tasks| ensures EarlierUnfinished(tasks, tasks[u]) == [] <==> !Blocked(tasks, tasks[u]) {
      SubqueryFindsBlockers(tasks, tasks[u]);
    }
  }

  /** A callback reserved more than an hour ago whose outcome never came. */
  predicate Lost(r: Row, now: nat) { r.status == Completing && r.updatedAt + 3600 * 1000 < now }

  predicate LimitsFit(tasks: seq<Row>, now: nat) {
    forall j :: 0 <= j < |tasks| && Lost(tasks[j], now) ==> tasks[j].configRedo < 2147483647
  }

  /** What the periodic scan makes of row `i`: an attempt over its time fails and
      counts as a retry; a lost callback fails for good, unless some lost row's limit
      is the largest; every other row stays as it is, and none ever succeeds. */
  ghost predicate Scanned(tasks: seq<Row>, i: nat, after: Row, now: nat)
    requires i < |tasks|
  {
    var r := tasks[i];
    if r.status == Running && r.startAt.Some? && r.startAt.value + r.timeout < now then
      after == r.(status := Fail, redo := r.redo + 1, updatedAt := now)
    else if Lost(r, now) && LimitsFit(tasks, now) then
      after == r.(status := Fail, redo := r.configRedo + 1, updatedAt := now)
    else after == r
  }

  lemma ScanRows(tasks: seq<Row>, now: nat)
    ensures var after := AfterAbandon(AfterTimeouts(tasks, now), now);
            |after| == |tasks| && forall i :: 0 <= i < |tasks| ==> Scanned(tasks, i, after[i], now)
  {
    var mid := AfterTimeouts(tasks, now);
    assert forall j :: 0 <= j < |tasks| ==> (Abandoned(mid[j], now) <==> Lost(tasks[j], now));
    assert forall j :: 0 <= j < |tasks| ==> mid[j].configRedo == tasks[j].configRedo;
    assert AbandonFits(mid, now) <==> LimitsFit(tasks, now);
  }

  // ------------------------------------------------- the scan is a machine run

  /** One fenced failure per overdue attempt among the first `n` rows. */
  function Failures(tasks: seq<Row>, now: nat, n: nat): seq<M.Event>
    requires n <= |tasks|
  {
    if n == 0 then []
    else
      var r := tasks[n - 1];
      var front := Failures(tasks, now, n - 1);
      if r.status == Running && r.startAt.Some? && r.startAt.value + r.timeout < now
      then front + [M.Finish(n - 1, r.worker, r.startAt.value, r.redo, Running, Fail, r.priority)] else front
  }

  /** `t` is `s` with the overdue attempts among the first `n` rows failed. */
  ghost predicate FailedUpTo(s: M.State, t: M.State, n: nat) {
    && t.now == s.now && |t.tasks| == |s.tasks|
    && (forall i :: 0 <= i < n && i < |s.tasks| ==> t.tasks[i] == TimedOut(s.tasks[i], s.now))
    && (forall i :: n <= i < |s.tasks| ==> t.tasks[i] == s.tasks[i])
  }

  lemma FailsOne(s: M.State, t: M.State, n: nat)
    requires n < |s.tasks| && FailedUpTo(s, t, n) && Overdue(s.tasks[n], s.now)
    ensures var r := s.tasks[n];
            FailedUpTo(s, M.Step(t, M.Finish(n, r.worker, r.startAt.value, r.redo, Running, Fail, r.priority)), n + 1)
  {
    var r := s.tasks[n];
    assert Fenced(t.tasks[n], r.worker, r.startAt.value, r.redo, Running);
  }

  lemma SparesOne(s: M.State, t: M.State, n: nat)
    requires n < |s.tasks| && FailedUpTo(s, t, n) && !Overdue(s.tasks[n], s.now)
    ensures FailedUpTo(s, t, n + 1)
  {}

  lemma {:induction false} FailuresRun(s: M.State, n: nat)
    requires n <= |s.tasks|
    ensures FailedUpTo(s, M.Run(s, Failures(s.tasks, s.now, n)), n)
    decreases n
  {
    if n > 0 {
      FailuresRun(s, n - 1);
      var r, front := s.tasks[n - 1], Failures(s.tasks, s.now, n - 1);
      var t := M.Run(s, front);
      if Overdue(r, s.now) {
        var e := M.Finish(n - 1, r.worker, r.startAt.value, r.redo, Running, Fail, r.priority);
        assert Failures(s.tasks, s.now, n) == front + [e];
        FailsOne(s, t, n - 1);
        M.RunAppend(s, front, e);
      } else {
        assert Failures(s.tasks, s.now, n) == front;
        SparesOne(s, t, n - 1);
      }
    }
  }

  lemma AllFailed(s: M.State, t: M.State)
    requires FailedUpTo(s, t, |s.tasks|)
    ensures M.Step(t, M.ExpireAbandoned).tasks == AfterAbandon(AfterTimeouts(s.tasks, s.now), s.now)
  {
    assert t.tasks == AfterTimeouts(s.tasks, s.now);
  }

  /** The scan is a run of the machine: a fenced failure for each overdue attempt, then
      the expiry of abandoned callbacks. */
  lemma ScanIsRun(s: M.State)
    ensures M.Run(s, Failures(s.tasks, s.now, |s.tasks|) + [M.ExpireAbandoned]).tasks
            == AfterAbandon(AfterTimeouts(s.tasks, s.now), s.now)
  {
    var fails := Failures(s.tasks, s.now, |s.tasks|);
    FailuresRun(s, |s.tasks|);
    AllFailed(s, M.Run(s, fails));
    M.RunAppend(s, fails, M.ExpireAbandoned);
  }

  class Table {
    var now: nat
    var tasks: seq<Row>
    const independent: set<string>

    method LeastOf(candidates: set<nat>) returns (first: nat)
      requires candidates != {} && (forall i :: i in candidates ==> i < |tasks|)
      ensures first in candidates && (forall j :: j in candidates && j != first ==> Precedes(tasks, first, j))
    {
      first :| first in candidates;
      var rest := candidates - {first};
      while rest != {}
        invariant first in candidates && rest <= candidates && first !in rest
        invariant forall j :: j in candidates && j !in rest && j != first ==> Precedes(tasks, first, j)
        decreases rest
      {
        var j :| j in rest;
        rest := rest - {j};
        if Precedes(tasks, j, first) { first := j; }
      }
    }

    /** One candidate query: the leading batch, in claim order and without gaps, of
        the discoverable tasks not attempted yet. */
    method Discover(kind: string, attempted: set<nat>) returns (ids: seq<nat>)
      ensures |ids| <= CLAIM_CANDIDATE_BATCH
      ensures forall k :: 0 <= k < |ids| ==> ids[k] in PendingTasks(independent, tasks, kind) - attempted
      ensures forall k, l | 0 <= k < l < |ids| ::
                ids[k] < |tasks| && ids[l] < |tasks| && Precedes(tasks, ids[k], ids[l])
      ensures forall j | j in PendingTasks(independent, tasks, kind) - attempted && j !in ids ::
                |ids| == CLAIM_CANDIDATE_BATCH
                && (forall k :: 0 <= k < |ids| ==> ids[k] < |tasks| && Precedes(tasks, ids[k], j))
    {
      ghost var all := PendingTasks(independent, tasks, kind) - attempted;
      var rest := PendingTasks(independent, tasks, kind) - attempted;
      ids := [];
      while |ids| < CLAIM_CANDIDATE_BATCH && rest != {}
        invariant |ids| <= CLAIM_CANDIDATE_BATCH && rest <= all && (forall i :: i in all ==> i < |tasks|)
        invariant forall k :: 0 <= k < |ids| ==> ids[k] in all && ids[k] !in rest
        invariant forall j :: j in all ==> j in rest || j in ids
        invariant forall k, l | 0 <= k < l < |ids| :: Precedes(tasks, ids[k], ids[l])
        invariant forall k, j | 0 <= k < |ids| && j in rest :: Precedes(tasks, ids[k], j)
        decreases rest
      {
        var first := LeastOf(rest);
        ids := ids + [first];
        rest := rest - {first};
      }
    }

    /** One short transaction: skip a locked row, recheck everything under the
        row lock, claim. */
    method ClaimCandidate(id: nat, kind: string, worker: string, locked: set<nat>) returns (got: bool)
      modifies this`tasks
      ensures got <==> id !in locked && Free(independent, old(tasks), id) && old(tasks)[id].kind == kind
      ensures tasks == if !got then old(tasks)
                       else old(tasks)[id := old(tasks)[id].(status := Running, worker := worker,
                                                             startAt := Some(now), updatedAt := now)]
    {
      if id >= |tasks| { return false; }
      EligibleIsFree(independent, tasks, id);
      if tasks[id].kind != kind || id in locked || !Runnable(tasks[id]) { return false; }
      if kind !in independent {
        var blocked := HasBlocker(tasks[id]);
        if blocked { return false; }
      } else if tasks[id].step != 0 {
        return false;
      }
      tasks := tasks[id := tasks[id].(status := Running, startAt := Some(now), worker := worker, updatedAt := now)];
      return true;
    }

    method HasBlocker(r: Row) returns (blocked: bool)
      ensures blocked <==> Blocked(tasks, r)
    {
      for i := 0 to |tasks|
        invariant forall k :: 0 <= k < i ==> !(tasks[k].group == r.group && tasks[k].step < r.step && !Done(tasks[k]))
      {
        if tasks[i].group == r.group && tasks[i].step < r.step && !Done(tasks[i]) { return true; }
      }
      return false;
    }

    /** The claim loop: on a snapshot with any set of locked rows it ends, and it
        takes the first unlocked takeable task in claim order, or nothing exactly
        when every takeable task is locked. */
    method ClaimPendingTask(kind: string, worker: string, locked: set<nat>) returns (r: Option<nat>)
      modifies this`tasks
      ensures r.Some? ==>
                && FirstFree(independent, old(tasks), kind, locked, r.value)
                && tasks == old(tasks)[r.value := old(tasks)[r.value].(status := Running, worker := worker,
                                                                       startAt := Some(now), updatedAt := now)]
      ensures r.None? ==> NoneFree(independent, old(tasks), kind, locked) && tasks == old(tasks)
    {
      ghost var takeable := TakeableTasks(independent, tasks, kind);
      PendingCountIsTakeable(independent, tasks, kind);
      var attempted: set<nat> := {};
      while true
        invariant tasks == old(tasks) && attempted <= takeable * locked
        invariant takeable == PendingTasks(independent, tasks, kind) == TakeableTasks(independent, old(tasks), kind)
        decreases takeable - attempted
      {
        var ids := Discover(kind, attempted);
        assert forall j :: j in takeable - locked ==> j !in attempted;
        for k := 0 to |ids|
          invariant tasks == old(tasks) && (forall l :: 0 <= l < k ==> ids[l] in locked)
        {
          forall j | j in takeable - locked && j != ids[k] ensures Precedes(tasks, ids[k], j) {
            if j in ids { var l :| 0 <= l < |ids| && ids[l] == j; assert k < l; }
          }
          assert ids[k] in takeable;
          if ids[k] !in locked { FirstIsFree(independent, tasks, kind, locked, ids[k]); }
          var got := ClaimCandidate(ids[k], kind, worker, locked);
          if got { return Some(ids[k]); }
        }
        if |ids| < CLAIM_CANDIDATE_BATCH {
          forall j | j in takeable ensures j in locked {
            if j !in attempted { assert j in ids; }
          }
          NothingIsFree(independent, tasks, kind, locked);
          return None;
        }
        var batch := set i | i in ids;
        assert ids[0] in batch && ids[0] !in attempted;
        attempted := attempted + batch;
      }
    }

    /** A worker callback from lookup to wake-up.  The application callback is
        entered exactly for the attempt that currently holds the row; in a
        workflow group a success wakes precisely what it made eligible. */
    method TaskCallBack(id: nat, worker: string, attempt: int, outcome: Status, applicationFails: bool)
      returns (entered: bool, woken: set<nat>)
      requires outcome == Success || outcome == Fail
      modifies this`tasks
      ensures entered <==> && id < |old(tasks)| && old(tasks)[id].status == Running && old(tasks)[id].worker == worker
                           && old(tasks)[id].startAt.Some? && old(tasks)[id].redo >= 0
                           && attempt == old(tasks)[id].redo + 1
      ensures !entered ==> tasks == old(tasks) && woken == {}
      ensures entered ==>
                var final := if applicationFails then Fail else outcome;
                var row := old(tasks)[id];
                && tasks == old(tasks)[id := row.(status := final, updatedAt := now,
                                                  redo := if final == Fail then row.redo + 1 else row.redo,
                                                  priority := if final == Fail then row.priority - 1 else row.priority)]
                && (final == Fail ==> woken == {})
                && (final == Success ==> Wakes(independent, tasks, row, woken))
                && (final == Success && Workflow(independent, old(tasks), row.group) ==>
                      woken == Flipped(independent, old(tasks), tasks))
    {
      woken := {};
      if id >= |tasks| || tasks[id].worker != worker { return false, {}; }
      var snapshot := tasks[id];
      if snapshot.status != Running { return false, {}; }
      entered := ClaimCallback(id, snapshot, attempt);
      if !entered { return; }
      var final := if applicationFails then Fail else outcome;
      var priority := snapshot.priority;
      if final == Fail { priority := priority - 1; }
      var saved := FinishClaimFromStatus(id, snapshot, final, priority, Completing);
      assert tasks == old(tasks)[id := tasks[id]];
      if final == Success {
        woken := NextStepTasks(independent, tasks, tasks[id]);
        WakesMeans(independent, tasks, tasks[id]);
        if Workflow(independent, old(tasks), snapshot.group) {
          WakeUpIsExact(independent, old(tasks), id, tasks[id]);
        }
      }
    }

    method ClaimCallback(id: nat, snapshot: Row, attempt: int) returns (reserved: bool)
      requires id < |tasks|
      modifies this`tasks
      ensures reserved <==>
                && snapshot.startAt.Some? && snapshot.redo >= 0 && attempt == snapshot.redo + 1
                && old(tasks)[id].status == Running && old(tasks)[id].worker == snapshot.worker
                && old(tasks)[id].startAt == snapshot.startAt && old(tasks)[id].redo == snapshot.redo
      ensures tasks == if reserved then old(tasks)[id := old(tasks)[id].(status := Completing, updatedAt := now)]
                       else old(tasks)
    {
      if snapshot.startAt.None? || attempt <= 0 || snapshot.redo < 0 || attempt != snapshot.redo + 1 { return false; }
      reserved := Fenced(tasks[id], snapshot.worker, snapshot.startAt.value, snapshot.redo, Running);
      if reserved {
        tasks := tasks[id := tasks[id].(status := Completing, updatedAt := now)];
      }
    }

    method FinishClaimFromStatus(id: nat, snapshot: Row, outcome: Status, priority: int, expected: Status)
      returns (saved: bool)
      requires id < |tasks|
      modifies this`tasks
      ensures saved <==>
                && snapshot.startAt.Some? && old(tasks)[id].status == expected
                && old(tasks)[id].worker == snapshot.worker
                && old(tasks)[id].startAt == snapshot.startAt && old(tasks)[id].redo == snapshot.redo
      ensures tasks == if !saved then old(tasks)
                       else old(tasks)[id := old(tasks)[id].(status := outcome, priority := priority, updatedAt := now,
                                                             redo := if outcome == Fail then old(tasks)[id].redo + 1
                                                                     else old(tasks)[id].redo)]
    {
      if snapshot.startAt.None? { return false; }
      var redo := snapshot.redo;
      if outcome == Fail { redo := redo + 1; }
      saved := Fenced(tasks[id], snapshot.worker, snapshot.startAt.value, snapshot.redo, expected);
      if saved {
        tasks := tasks[id := tasks[id].(status := outcome, redo := redo, priority := priority, updatedAt := now)];
      }
    }

    /** The periodic scan: expires every overdue attempt it saw, then all abandoned
        callbacks in one statement. */
    method CheckAndTimeoutTasks()
      modifies this`tasks
      ensures tasks == AfterAbandon(AfterTimeouts(old(tasks), now), now)
      ensures |tasks| == |old(tasks)| && forall i :: 0 <= i < |tasks| ==> Scanned(old(tasks), i, tasks[i], now)
    {
      var seen := tasks;
      var i := 0;
      while i < |seen|
        invariant 0 <= i <= |seen| == |tasks|
        invariant forall k :: 0 <= k < i ==> tasks[k] == TimedOut(seen[k], now)
        invariant forall k :: i <= k < |seen| ==> tasks[k] == seen[k]
      {
        if seen[i].status == Running && seen[i].startAt.Some? && now > seen[i].startAt.value + seen[i].timeout {
          var saved := FinishClaimFromStatus(i, seen[i], Fail, seen[i].priority, Running);
        }
        i := i + 1;
      }
      assert tasks == AfterTimeouts(seen, now);
      ScanRows(seen, now);
      tasks := AfterAbandon(tasks, now);
    }
  }

  // ------------------------------------------- the procedures are machine steps

  /** A callback that is entered and saved is a reservation followed by an
      outcome of the machine. */
  lemma CallbackIsTwoSteps(s: M.State, id: nat, worker: string, startAt: nat, outcome: Status, priority: int)
    requires M.Inv(s) && id < |s.tasks| && Fenced(s.tasks[id], worker, startAt, s.tasks[id].redo, Running)
    requires outcome == Success || outcome == Fail
    ensures var redo := s.tasks[id].redo;
            var s1 := M.Step(s, M.Reserve(id, worker, startAt, redo, redo + 1));
            M.Step(s1, M.Finish(id, worker, startAt, redo, Completing, outcome, priority)).tasks
              == s.tasks[id := Finished(s.tasks[id], outcome, priority, s.now)]
  {
    assert M.TaskOk(s.tasks[id], s.attempts[id], s.entered[id]);
    var redo := s.tasks[id].redo;
    var s1 := M.Step(s, M.Reserve(id, worker, startAt, redo, redo + 1));
    assert s1.tasks == s.tasks[id := Reserved(s.tasks[id], s.now)];
  }
}
