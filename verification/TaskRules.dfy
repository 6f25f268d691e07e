/** What each step of the task machine does, over the fields of the rows alone, and
    that the retry budget is used to the full. */
module TaskRules {
  import opened Options
  import opened TaskModel
  import opened TaskMachine

  /** A claim takes a task exactly when it is free, and writes just the attempt. */
  lemma ClaimTakesIff(s: State, id: nat, worker: string)
    requires Inv(s)
    ensures Step(s, Claim(id, worker)) ==
            if !Free(s.independent, s.tasks, id) then s
            else s.(tasks := s.tasks[id := s.tasks[id].(status := Running, worker := worker, startAt := Some(s.now),
                                                        updatedAt := s.now)],
                    attempts := s.attempts[id := s.attempts[id] + [s.tasks[id].redo + 1]])
  {
    if id < |s.tasks| { EligibleIsFree(s.independent, s.tasks, id); }
  }

  /** The attempt that holds the row: same worker, start and retry count, same status. */
  predicate Holder(r: Row, worker: string, startAt: nat, redo: int, status: Status) {
    r.worker == worker && r.startAt == Some(startAt) && r.redo == redo && r.status == status
  }

  lemma ReserveIff(s: State, id: nat, worker: string, startAt: nat, redo: int, attempt: int)
    requires Inv(s)
    ensures Step(s, Reserve(id, worker, startAt, redo, attempt)) ==
            if !(&& id < |s.tasks| && 0 <= redo && attempt == redo + 1
                 && Holder(s.tasks[id], worker, startAt, redo, Running)) then s
            else s.(tasks := s.tasks[id := s.tasks[id].(status := Completing, updatedAt := s.now)],
                    entered := s.entered[id := s.entered[id] + [attempt]])
  {}

  lemma FinishIff(s: State, id: nat, worker: string, startAt: nat, redo: int, expected: Status, outcome: Status,
                  priority: int)
    requires (outcome == Success || outcome == Fail) && (expected == Running || expected == Completing)
    ensures Step(s, Finish(id, worker, startAt, redo, expected, outcome, priority)) ==
            if !(id < |s.tasks| && Holder(s.tasks[id], worker, startAt, redo, expected)) then s
            else s.(tasks := s.tasks[id := s.tasks[id].(status := outcome, priority := priority, updatedAt := s.now,
                                                        redo := if outcome == Fail then redo + 1 else redo)])
  {}

  /** Rows enter pending and unused, with a non-negative limit that fits the column
      and a positive timeout; an independent type only on step zero. */
  lemma CreateIff(s: State, row: Row)
    requires Inv(s)
    ensures Step(s, Create(row)) ==
            if && row.status == Pending && row.redo == 0 && 0 <= row.configRedo <= 2147483647 && row.timeout > 0
               && (row.kind in s.independent ==> row.step == 0)
            then s.(tasks := s.tasks + [row], attempts := s.attempts + [[]], entered := s.entered + [[]]) else s
  {}

  /** A restart fails every running attempt, counts it as a retry and touches nothing
      else. */
  lemma RestartRows(s: State)
    ensures var t := Step(s, Restart);
            && |t.tasks| == |s.tasks| && t.attempts == s.attempts && t.entered == s.entered
            && forall i | 0 <= i < |s.tasks| ::
                 t.tasks[i] == if s.tasks[i].status == Running
                               then s.tasks[i].(status := Fail, redo := s.tasks[i].redo + 1, updatedAt := s.now)
                               else s.tasks[i]
  {}

  // ------------------------------------------------------------- retries are used

  /** A task after `n` failed attempts. */
  ghost predicate Failed(s: State, n: nat, limit: int) {
    && s.independent == {} && |s.tasks| == |s.attempts| == |s.entered| == 1 && |s.attempts[0]| == n
    && s.tasks[0].status == (if n == 0 then Pending else Fail) && s.tasks[0].redo == n
    && s.tasks[0].configRedo == limit && s.tasks[0].kind == "k" && s.tasks[0].step == 0
  }

  lemma AttemptFails(s: State, n: nat, limit: int) returns (t: State)
    requires Inv(s) && Failed(s, n, limit) && n <= limit && n < MAX_INT32
    ensures var claimed := Step(s, Claim(0, "w"));
            t == Step(claimed, Finish(0, "w", s.now, n, Running, Fail, 0)) && Inv(t) && Failed(t, n + 1, limit)
  {
    ClaimTakesIff(s, 0, "w");
    var claimed := Step(s, Claim(0, "w"));
    StepPreservesInv(s, Claim(0, "w"));
    FinishIff(claimed, 0, "w", s.now, n, Running, Fail, 0);
    t := Step(claimed, Finish(0, "w", s.now, n, Running, Fail, 0));
    StepPreservesInv(claimed, Finish(0, "w", s.now, n, Running, Fail, 0));
  }

  lemma {:induction false} FailRepeatedly(limit: int, n: nat) returns (es: seq<Event>)
    requires 0 <= limit <= MAX_INT32 && n <= limit + 1 && n <= MAX_INT32
    ensures Inv(Run(Init({}), es)) && Failed(Run(Init({}), es), n, limit)
    decreases n
  {
    if n == 0 {
      var row := Fresh(0, "k", limit);
      var s := CreatedOne({}, row);
      es := [] + [Create(row)];
      RunAppend(Init({}), [], Create(row));
      Reachable({}, es);
    } else {
      var front := FailRepeatedly(limit, n - 1);
      var s := Run(Init({}), front);
      var t := AttemptFails(s, n - 1, limit);
      var finish := Finish(0, "w", s.now, n - 1, Running, Fail, 0);
      es := front + [Claim(0, "w")] + [finish];
      RunAppend(Init({}), front, Claim(0, "w"));
      RunAppend(Init({}), front + [Claim(0, "w")], finish);
    }
  }

  /** The bound on claims is attained: for every limit some run claims a task limit + 1
      times, or 2^31 - 1 times when that is less. */
  lemma RetriesAreUsed(limit: int)
    requires 0 <= limit <= MAX_INT32
    ensures exists es :: ClaimCount(es) == if limit < MAX_INT32 then limit + 1 else MAX_INT32
    ensures forall es | Limit(es) == limit :: ClaimCount(es) <= if limit < MAX_INT32 then limit + 1 else MAX_INT32
  {
    var most := if limit < MAX_INT32 then limit + 1 else MAX_INT32;
    var es := FailRepeatedly(limit, most);
    assert ClaimCount(es) == most;
    forall es | Limit(es) == limit ensures ClaimCount(es) <= most {
      AttemptsAreFenced({}, es, 0);
      IncreasingIsShort(Run(Init({}), es).attempts[0], 1, MAX_INT32);
    }
  }

  /** Claims and retry limit of the first task of a run without independent types. */
  function ClaimCount(es: seq<Event>): int {
    if |Run(Init({}), es).attempts| > 0 then |Run(Init({}), es).attempts[0]| else 0
  }

  function Limit(es: seq<Event>): int {
    if |Run(Init({}), es).tasks| > 0 then Run(Init({}), es).tasks[0].configRedo else -1
  }
}
