/** The upload repository and service as they run: rows and files changed in
    place by conditional updates.  The lemmas `ClaimIsStep` to `FinalizeIsStep`
    tie every update to the event of UploadMachine that it is. */
module UploadService {
  import opened Options
  import opened UploadMachine

  datatype Failure = NotFound | Conflict | TooLate | Integrity | Unavailable
  datatype Result = Ok(file: nat) | Err(error: Failure)

  type Rows = map<nat, Row>

  predicate Mine(rows: Rows, sid: nat, owner: nat) { sid in rows && rows[sid].owner == owner }

  function ClaimedRows(rows: Rows, sid: nat, owner: nat, abort: bool, token: nat, at: nat, until: nat): Rows {
    if !Mine(rows, sid, owner) || !Claimable(rows[sid], abort, at) then rows
    else rows[sid := rows[sid].(phase := if abort then Aborting else Completing, token := token, lease := Some(until))]
  }

  function ReleasedRows(rows: Rows, sid: nat, owner: nat, token: nat): Rows {
    if !Mine(rows, sid, owner) || rows[sid].token != token || rows[sid].phase != Completing then rows
    else rows[sid := Settled(rows[sid], Active)]
  }

  predicate MayFinish(rows: Rows, sid: nat, owner: nat, token: nat, at: nat) {
    Mine(rows, sid, owner) && Leased(rows[sid].phase) && HoldsLease(rows[sid], token, at)
  }

  function FinishedRows(rows: Rows, sid: nat, owner: nat, token: nat, to: Phase, at: nat): Rows {
    if MayFinish(rows, sid, owner, token, at) then rows[sid := Settled(rows[sid], to)] else rows
  }

  predicate MayRegister(rows: Rows, sid: nat, owner: nat, token: nat, at: nat) {
    Mine(rows, sid, owner) && rows[sid].phase == Completing && HoldsLease(rows[sid], token, at)
  }

  function CompletedRows(rows: Rows, sid: nat, owner: nat, token: nat, at: nat, file: nat): Rows {
    if !MayRegister(rows, sid, owner, token, at) then rows
    else rows[sid := Settled(rows[sid], Completed).(file := Some(file))]
  }

  // Every conditional update of the repository is a step of the machine.

  lemma ClaimIsStep(s: State, sid: nat, owner: nat, abort: bool, token: nat, at: nat, until: nat)
    requires at <= s.now && at < until && token != 0 && token !in s.leases.tokens
    ensures ClaimStep(s, sid, owner, abort, token, at, until).db.rows
            == ClaimedRows(s.db.rows, sid, owner, abort, token, at, until)
  {}

  lemma ReleaseIsStep(s: State, sid: nat, owner: nat, token: nat)
    requires token != 0
    ensures ReleaseStep(s, sid, owner, token).db.rows == ReleasedRows(s.db.rows, sid, owner, token)
  {}

  lemma FinishIsStep(s: State, sid: nat, owner: nat, token: nat, to: Phase, at: nat)
    requires at <= s.now && (to == Aborted || to == Expired)
    requires token in s.leases.aborters && s.leases.aborters[token] == sid
    ensures FinishStep(s, sid, owner, token, to, at).db.rows == FinishedRows(s.db.rows, sid, owner, token, to, at)
  {}

  lemma FinalizeIsStep(s: State, sid: nat, owner: nat, token: nat, at: nat, file: nat)
    requires at <= s.now && Pending(s, token) && s.leases.completers[token] == sid
    requires token in s.verdicts.verified && file !in s.db.files
    ensures var db := FinalizeStep(s, sid, owner, token, at, file).db;
            && db.rows == CompletedRows(s.db.rows, sid, owner, token, at, file)
            && db.files == (if MayRegister(s.db.rows, sid, owner, token, at)
                            then s.db.files[file := File(owner, s.verdicts.verified[token])] else s.db.files)
  {}

  /** Cleanup order: earliest expiry first, then session id. */
  predicate Before(rows: Rows, a: nat, b: nat)
    requires a in rows && b in rows
  {
    rows[a].expiresAt < rows[b].expiresAt || (rows[a].expiresAt == rows[b].expiresAt && a < b)
  }

  /** What the object store answers while a session is being aborted. */
  datatype AbortAnswer = AbortDone | NoSuchUpload | AbortFailed
  datatype Answers = Answers(multipart: bool, merged: bool, abort: AbortAnswer, deletes: bool)

  /** The session's object is out of the way: an unmerged multipart upload was given
      up or is already gone, and the object was deleted unless it is reused. */
  predicate Cleared(r: Row, a: Answers) {
    r.reused || ((a.multipart && !a.merged ==> a.abort != AbortFailed) && a.deletes)
  }

  datatype Cleanup = Removed | Skipped | Failed

  /** The caller's own session, free to be aborted now: untouched so far, or held by
      a lease that has run out. */
  predicate Taken(rows: Rows, sid: nat, owner: nat, now: nat) {
    && sid in rows && rows[sid].owner == owner
    && (|| rows[sid].phase == Active
        || ((rows[sid].phase == Completing || rows[sid].phase == Aborting)
            && rows[sid].lease.Some? && rows[sid].lease.value <= now))
  }

  /** Sessions whose object the store clears. */
  ghost function ClearedOf(rows: Rows, store: nat -> Answers): set<nat> {
    set sid | sid in rows && Cleared(rows[sid], store(sid))
  }

  /** ... and before the lease runs out. */
  ghost function FineOf(rows: Rows, store: nat -> Answers, removing: nat -> nat, timeout: nat): set<nat> {
    set sid | sid in rows && Cleared(rows[sid], store(sid)) && removing(sid) < timeout
  }

  /** Sessions that became expired between two tables. */
  ghost function NewlyExpired(before: Rows, after: Rows): set<nat> {
    set sid | sid in after && sid in before && after[sid].phase == Expired && before[sid].phase != Expired
  }

  function Ended(r: Row): Row { r.(phase := Expired, token := 0, lease := None) }

  /** What one candidate of cleanup does to the table: nothing unless it can be
      claimed; then it ends expired, or aborting when its removal failed or took
      longer than the lease. */
  ghost predicate Tried(before: Rows, after: Rows, sid: nat, now: nat, fine: bool) {
    && after.Keys == before.Keys && (forall x :: x in after && x != sid ==> after[x] == before[x])
    && (sid in before ==>
          if !Claimable(before[sid], true, now) then after[sid] == before[sid]
          else if fine then after[sid] == Ended(before[sid]) else after[sid].phase == Aborting)
  }

  /** The table after the first `i` candidates, begun at `start`; `fine` are the
      sessions whose object is cleared in time. */
  ghost predicate Worked(was: Rows, rows: Rows, ids: seq<nat>, i: nat, start: nat, now: nat, fine: set<nat>)
    requires i <= |ids|
  {
    && rows.Keys == was.Keys && start <= now
    && (forall sid :: sid in rows && sid !in ids[..i] ==> rows[sid] == was[sid])
    && (forall sid :: sid in rows && !Claimable(was[sid], true, now) ==> rows[sid] == was[sid])
    && (forall sid | sid in ids[..i] && sid in rows && Claimable(was[sid], true, start) ::
          if sid in fine then rows[sid] == Ended(was[sid]) else rows[sid].phase == Aborting)
  }

  /** Only listed sessions that can be claimed by now have changed. */
  ghost predicate OnlyCandidates(was: Rows, rows: Rows, ids: seq<nat>, now: nat) {
    && rows.Keys == was.Keys
    && (forall sid :: sid in rows && !(sid in ids && Claimable(was[sid], true, now)) ==> rows[sid] == was[sid])
  }

  lemma WorkedOnCandidates(was: Rows, rows: Rows, ids: seq<nat>, i: nat, start: nat, now: nat, fine: set<nat>)
    requires i <= |ids| && Worked(was, rows, ids, i, start, now, fine)
    ensures OnlyCandidates(was, rows, ids, now)
  {}

  lemma TriedWorks(was: Rows, before: Rows, after: Rows, ids: seq<nat>, i: nat, start: nat, now: nat, later: nat,
                   fine: set<nat>)
    requires i < |ids| && (forall j, k | 0 <= j < k < |ids| :: ids[j] != ids[k]) && now <= later
    requires Worked(was, before, ids, i, start, now, fine) && Tried(before, after, ids[i], now, ids[i] in fine)
    ensures Worked(was, after, ids, i + 1, start, later, fine)
  {
    assert ids[i] !in ids[..i] && ids[..i + 1] == ids[..i] + [ids[i]];
    assert forall sid :: sid in was && Claimable(was[sid], true, now) ==> Claimable(was[sid], true, later);
    assert forall sid :: sid in was && Claimable(was[sid], true, start) ==> Claimable(was[sid], true, now);
  }

  lemma TriedCounts(was: Rows, before: Rows, after: Rows, ids: seq<nat>, i: nat, start: nat, now: nat, fine: set<nat>)
    requires i < |ids| && (forall j, k | 0 <= j < k < |ids| :: ids[j] != ids[k])
    requires Worked(was, before, ids, i, start, now, fine) && Tried(before, after, ids[i], now, ids[i] in fine)
    ensures ids[i] !in NewlyExpired(was, before)
    ensures var ended := ids[i] in was && Claimable(was[ids[i]], true, now) && ids[i] in fine;
            NewlyExpired(was, after) == NewlyExpired(was, before) + (if ended then {ids[i]} else {})
  {
    assert ids[i] !in ids[..i];
  }

  /** Objects after the first `i` candidates: only uploads of cleared candidates are
      gone, and all those of candidates that could be claimed from the start are. */
  ghost predicate Swept(was: Rows, had: set<nat>, objects: set<nat>, ids: seq<nat>, i: nat, start: nat,
                        cleared: set<nat>)
    requires i <= |ids|
  {
    && objects <= had
    && (forall p :: p in had && p !in objects ==>
          exists sid :: sid in ids[..i] && sid in was && sid in cleared && !was[sid].reused && was[sid].path == p)
    && (forall sid | sid in ids[..i] && sid in was && Claimable(was[sid], true, start) && sid in cleared ::
          was[sid].reused || was[sid].path !in objects)
  }

  lemma SweptStep(was: Rows, had: set<nat>, before: set<nat>, after: set<nat>, ids: seq<nat>, i: nat, start: nat,
                  cleared: set<nat>)
    requires i < |ids| && Swept(was, had, before, ids, i, start, cleared)
    requires var sid := ids[i];
             || (&& after == before
                 && !(sid in was && Claimable(was[sid], true, start) && sid in cleared && !was[sid].reused))
             || (sid in was && sid in cleared && !was[sid].reused && after == before - {was[sid].path})
    ensures Swept(was, had, after, ids, i + 1, start, cleared)
  {
    assert ids[..i + 1] == ids[..i] + [ids[i]];
    forall p | p in had && p !in after
      ensures exists sid ::
                sid in ids[..i + 1] && sid in was && sid in cleared && !was[sid].reused && was[sid].path == p
    {
      if p !in before {
        var sid :| sid in ids[..i] && sid in was && sid in cleared && !was[sid].reused && was[sid].path == p;
        assert sid in ids[..i + 1];
      } else {
        assert ids[i] in ids[..i + 1];
      }
    }
  }

  /** One candidate of cleanup, completely. */
  ghost predicate OneDone(before: Rows, had: set<nat>, after: Rows, objects: set<nat>, sid: nat, now: nat, later: nat,
                          cleared: bool, fine: bool, outcome: Cleanup) {
    var claimed := sid in before && Claimable(before[sid], true, now);
    && now <= later && Tried(before, after, sid, now, fine)
    && outcome == (if !claimed then Skipped else if !cleared then Failed else if fine then Removed else Skipped)
    && objects == (if claimed && cleared && !before[sid].reused then had - {before[sid].path} else had)
  }

  /** Cleanup after the first `i` candidates. */
  ghost predicate Progress(was: Rows, had: set<nat>, rows: Rows, objects: set<nat>, ids: seq<nat>, i: nat, start: nat,
                           now: nat, cleared: set<nat>, fine: set<nat>, removed: nat)
    requires i <= |ids|
  {
    && Worked(was, rows, ids, i, start, now, fine) && Swept(was, had, objects, ids, i, start, cleared)
    && removed == |NewlyExpired(was, rows)| <= i
  }

  /** Every candidate so far that could be claimed from the start was cleared. */
  ghost predicate ClearedUpTo(was: Rows, ids: seq<nat>, i: int, start: nat, cleared: set<nat>)
    requires i <= |ids|
  {
    forall k | 0 <= k < i && ids[k] in was && Claimable(was[ids[k]], true, start) :: ids[k] in cleared
  }

  lemma ProgressStep(was: Rows, had: set<nat>, rows: Rows, objects: set<nat>, after: Rows, left: set<nat>,
                     ids: seq<nat>, i: nat, start: nat, now: nat, later: nat, cleared: set<nat>, fine: set<nat>,
                     removed: nat, outcome: Cleanup)
    requires i < |ids| && (forall j, k | 0 <= j < k < |ids| :: ids[j] != ids[k]) && fine <= cleared
    requires Progress(was, had, rows, objects, ids, i, start, now, cleared, fine, removed)
    requires OneDone(rows, objects, after, left, ids[i], now, later, ids[i] in cleared, ids[i] in fine, outcome)
    ensures Progress(was, had, after, left, ids, i + 1, start, later, cleared, fine,
                     removed + (if outcome == Removed then 1 else 0))
  {
    assert ids[i] !in ids[..i];
    assert ids[i] in was ==> rows[ids[i]] == was[ids[i]];
    assert ids[i] in was && Claimable(was[ids[i]], true, start) ==> Claimable(was[ids[i]], true, now);
    TriedWorks(was, rows, after, ids, i, start, now, later, fine);
    TriedCounts(was, rows, after, ids, i, start, now, fine);
    SweptStep(was, had, objects, left, ids, i, start, cleared);
  }

  lemma StepClears(was: Rows, had: set<nat>, rows: Rows, objects: set<nat>, after: Rows, left: set<nat>, ids: seq<nat>,
                   i: nat, start: nat, now: nat, later: nat, cleared: set<nat>, fine: set<nat>, outcome: Cleanup)
    requires i < |ids| && (forall j, k | 0 <= j < k < |ids| :: ids[j] != ids[k]) && fine <= cleared
    requires Worked(was, rows, ids, i, start, now, fine) && ClearedUpTo(was, ids, i, start, cleared)
    requires OneDone(rows, objects, after, left, ids[i], now, later, ids[i] in cleared, ids[i] in fine, outcome)
    ensures outcome == Failed ==> ids[i] in was && ids[i] !in cleared
    ensures outcome != Failed ==> ClearedUpTo(was, ids, i + 1, start, cleared)
  {
    assert ids[i] !in ids[..i];
    assert ids[i] in was ==> rows[ids[i]] == was[ids[i]];
    assert ids[i] in was && Claimable(was[ids[i]], true, start) ==> Claimable(was[ids[i]], true, now);
  }

  /** Cleanup of candidates that could all be claimed from the start. */
  lemma ProgressMeans(was: Rows, had: set<nat>, rows: Rows, objects: set<nat>, ids: seq<nat>, tried: nat, start: nat,
                      now: nat, cleared: set<nat>, fine: set<nat>, removed: nat)
    requires tried <= |ids| && Progress(was, had, rows, objects, ids, tried, start, now, cleared, fine, removed)
    requires fine <= cleared && (forall sid :: sid in ids ==> sid in was && Claimable(was[sid], true, start))
    ensures rows.Keys == was.Keys && (forall sid :: sid in was && sid !in ids ==> rows[sid] == was[sid])
    ensures forall sid :: sid in NewlyExpired(was, rows) ==>
              sid in ids && rows[sid] == Ended(was[sid]) && (was[sid].reused || was[sid].path !in objects)
    ensures forall p :: p in had && p !in objects ==>
              exists sid :: sid in ids && sid in was && !was[sid].reused && was[sid].path == p
    ensures tried == |ids| && was.Keys <= fine ==> forall sid :: sid in ids ==> rows[sid].phase == Expired
  {
    assert forall sid :: sid in ids[..tried] ==> sid in ids;
    assert ids[..|ids|] == ids;
    forall sid | sid in NewlyExpired(was, rows)
      ensures sid in ids && rows[sid] == Ended(was[sid]) && (was[sid].reused || was[sid].path !in objects)
    {
      assert sid in ids[..tried];
    }
    forall p | p in had && p !in objects
      ensures exists sid :: sid in ids && sid in was && !was[sid].reused && was[sid].path == p
    {
      var sid :| sid in ids[..tried] && sid in was && sid in cleared && !was[sid].reused && was[sid].path == p;
      assert sid in ids;
    }
  }

  lemma {:induction false} SubsetIsSmaller(a: set<nat>, b: set<nat>)
    requires a <= b
    ensures |a| <= |b|
    decreases a
  {
    if a != {} {
      var x :| x in a;
      SubsetIsSmaller(a - {x}, b - {x});
    }
  }

  /** Fewer expired than the limit means that the selection was complete. */
  lemma SelectionWasComplete(before: Rows, after: Rows, ids: seq<nat>, limit: nat)
    requires forall i, j | 0 <= i < j < |ids| :: ids[i] != ids[j]
    requires forall sid :: sid in ids ==> sid in NewlyExpired(before, after)
    requires |NewlyExpired(before, after)| < limit
    ensures |ids| < limit
  {
    CountDistinct(ids);
    SubsetIsSmaller(Elements(ids), NewlyExpired(before, after));
  }

  class Service {
    var now: nat
    var rows: Rows
    var files: map<nat, File>
    var objects: set<nat>
    var nextToken: nat
    var nextFile: nat
    const timeout: nat

    ghost predicate Valid() reads this {
      && timeout > 0 && nextToken > 0
      && (forall sid :: sid in rows ==> Shaped(rows[sid]) && rows[sid].token < nextToken)
      && (forall f :: f in files ==> f < nextFile)
    }

    // ----------------------------------------------------------- repository

    method Claim(sid: nat, owner: nat, abort: bool) returns (claimed: bool, token: nat)
      requires Valid()
      modifies this`rows, this`nextToken
      ensures Valid() && token == old(nextToken) && nextToken == token + 1
      ensures rows == ClaimedRows(old(rows), sid, owner, abort, token, now, now + timeout)
      ensures claimed <==> Mine(old(rows), sid, owner) && Claimable(old(rows)[sid], abort, now)
      ensures abort ==> (claimed <==> Taken(old(rows), sid, owner, now))
      ensures !abort ==> (claimed <==> Taken(old(rows), sid, owner, now) && old(rows)[sid].phase != Aborting)
      ensures rows == if !claimed then old(rows)
                      else old(rows)[sid := old(rows)[sid].(phase := if abort then Aborting else Completing,
                                                            token := token, lease := Some(now + timeout))]
    {
      token := nextToken;
      nextToken := nextToken + 1;
      claimed := sid in rows && rows[sid].owner == owner && Claimable(rows[sid], abort, now);
      if claimed {
        rows := rows[sid := rows[sid].(phase := if abort then Aborting else Completing,
                                       token := token, lease := Some(now + timeout))];
      }
    }

    method Release(sid: nat, owner: nat, token: nat)
      requires Valid() && token != 0
      modifies this`rows
      ensures Valid() && rows == ReleasedRows(old(rows), sid, owner, token)
      ensures rows == if && sid in old(rows) && old(rows)[sid].owner == owner && old(rows)[sid].token == token
                         && old(rows)[sid].phase == Completing
                      then old(rows)[sid := old(rows)[sid].(phase := Active, token := 0, lease := None)] else old(rows)
    {
      if sid in rows && rows[sid].owner == owner && rows[sid].token == token && rows[sid].phase == Completing {
        rows := rows[sid := rows[sid].(phase := Active, token := 0, lease := None)];
      }
    }

    method Finish(sid: nat, owner: nat, token: nat, to: Phase) returns (done: bool)
      requires Valid() && token != 0 && (to == Aborted || to == Expired)
      modifies this`rows
      ensures Valid() && rows == FinishedRows(old(rows), sid, owner, token, to, now)
      ensures done <==> MayFinish(old(rows), sid, owner, token, now)
      ensures done <==> && sid in old(rows) && old(rows)[sid].owner == owner && old(rows)[sid].token == token
                        && (old(rows)[sid].phase == Completing || old(rows)[sid].phase == Aborting)
                        && old(rows)[sid].lease.Some? && now < old(rows)[sid].lease.value
      ensures rows == if !done then old(rows)
                      else old(rows)[sid := old(rows)[sid].(phase := to, token := 0, lease := None)]
    {
      done := sid in rows && rows[sid].owner == owner && Leased(rows[sid].phase) && HoldsLease(rows[sid], token, now);
      if done {
        rows := rows[sid := rows[sid].(phase := to, token := 0, lease := None)];
      }
    }

    /** Registers the file and completes the session in one transaction, or finds
        it already completed. */
    method FinalizeComplete(sid: nat, owner: nat, token: nat, path: nat) returns (r: Result)
      requires Valid() && token != 0
      modifies this`rows, this`files, this`nextFile
      ensures Valid()
      ensures Mine(old(rows), sid, owner) && old(rows)[sid].phase == Completed ==>
                r == Ok(old(rows)[sid].file.value) && rows == old(rows) && files == old(files)
      ensures MayRegister(old(rows), sid, owner, token, now) ==>
                && r.Ok? && r.file !in old(files) && files == old(files)[r.file := File(owner, path)]
                && rows == CompletedRows(old(rows), sid, owner, token, now, r.file)
      ensures r.Ok? && sid in old(rows) && old(rows)[sid].phase != Completed ==>
                && old(rows)[sid].phase == Completing && old(rows)[sid].token == token
                && old(rows)[sid].lease.Some? && now < old(rows)[sid].lease.value
                && rows == old(rows)[sid := old(rows)[sid].(phase := Completed, token := 0, lease := None,
                                                            file := Some(r.file))]
      ensures r.Err? ==> rows == old(rows) && files == old(files)
      ensures r.Ok? ==> sid in old(rows) && old(rows)[sid].owner == owner
      ensures r == Err(NotFound) <==> sid !in old(rows) || old(rows)[sid].owner != owner
      ensures r.Ok? <==> && Mine(old(rows), sid, owner)
                         && (old(rows)[sid].phase == Completed || MayRegister(old(rows), sid, owner, token, now))
    {
      if sid !in rows || rows[sid].owner != owner { return Err(NotFound); }
      if rows[sid].phase == Completed { return Ok(rows[sid].file.value); }
      if rows[sid].phase != Completing || !HoldsLease(rows[sid], token, now) { return Err(Conflict); }
      var file := nextFile;
      nextFile := nextFile + 1;
      files := files[file := File(owner, path)];
      rows := rows[sid := rows[sid].(phase := Completed, token := 0, lease := None, file := Some(file))];
      return Ok(file);
    }

    /** Sessions cleanup may take: a sorted, bounded, gap-free selection. */
    method ListExpired(before: nat, limit: nat) returns (ids: seq<nat>)
      ensures |ids| <= limit
      ensures forall i :: 0 <= i < |ids| ==> ids[i] in rows && Listed(rows[ids[i]], before, now)
      ensures forall i, j | 0 <= i < j < |ids| :: ids[i] in rows && ids[j] in rows && Before(rows, ids[i], ids[j])
      ensures forall i, j | 0 <= i < j < |ids| && ids[i] in rows && ids[j] in rows ::
                || rows[ids[i]].expiresAt < rows[ids[j]].expiresAt
                || (rows[ids[i]].expiresAt == rows[ids[j]].expiresAt && ids[i] < ids[j])
      ensures forall sid | sid in rows && Listed(rows[sid], before, now) && sid !in ids ::
                |ids| == limit && (forall i :: 0 <= i < |ids| ==> ids[i] in rows && Before(rows, ids[i], sid))
    {
      var rest := set sid | sid in rows && Listed(rows[sid], before, now);
      ids := [];
      while |ids| < limit && rest != {}
        invariant |ids| <= limit
        invariant rest <= rows.Keys && (forall i :: 0 <= i < |ids| ==>
                    ids[i] in rows && ids[i] !in rest && Listed(rows[ids[i]], before, now))
        invariant forall sid :: sid in rows && Listed(rows[sid], before, now) ==> sid in rest || sid in ids
        invariant forall sid :: sid in rest ==> Listed(rows[sid], before, now)
        invariant forall i, j | 0 <= i < j < |ids| :: Before(rows, ids[i], ids[j])
        invariant forall i, sid | 0 <= i < |ids| && sid in rest :: Before(rows, ids[i], sid)
        decreases rest
      {
        var first := Earliest(rest);
        ids := ids + [first];
        rest := rest - {first};
      }
    }

    method Earliest(candidates: set<nat>) returns (first: nat)
      requires candidates != {} && candidates <= rows.Keys
      ensures first in candidates && (forall x :: x in candidates && x != first ==> Before(rows, first, x))
    {
      first :| first in candidates;
      var rest := candidates - {first};
      while rest != {}
        invariant first in candidates && rest <= candidates && first !in rest
        invariant forall x :: x in candidates && x !in rest && x != first ==> Before(rows, first, x)
        decreases rest
      {
        var x :| x in rest;
        rest := rest - {x};
        if Before(rows, x, first) { first := x; }
      }
    }

    // -------------------------------------------------------------- service

    method Wait(delay: nat)
      modifies this`now
      ensures now == old(now) + delay
    {
      now := now + delay;
    }

    /** Completes with the default verifier.  `wellFormed` says whether the part
        list fits the session, `intact` whether size, MIME and digest match; the
        delays are what claiming and verifying take.  Success is exactly
        characterised; a failure registers nothing and leaves the session as it
        was or back in active. */
    method Complete(sid: nat, owner: nat, wellFormed: bool, intact: bool, claiming: nat, verifying: nat)
      returns (r: Result)
      requires Valid()
      modifies this`now, this`rows, this`files, this`nextToken, this`nextFile
      ensures Valid()
      ensures r.Ok? ==> sid in rows && rows[sid].phase == Completed && rows[sid].file == Some(r.file)
      ensures r.Ok? <==> && sid in old(rows) && old(rows)[sid].owner == owner
                         && (|| old(rows)[sid].phase == Completed
                             || (&& old(now) + claiming < old(rows)[sid].expiresAt
                                 && Taken(old(rows), sid, owner, old(now)) && old(rows)[sid].phase != Aborting
                                 && wellFormed && intact && old(rows)[sid].path in objects
                                 && claiming + verifying < timeout))
      ensures sid in old(rows) && Terminal(old(rows)[sid].phase) ==> rows == old(rows) && files == old(files)
      ensures r.Ok? && old(rows)[sid].phase != Completed ==>
                && r.file !in old(files) && files == old(files)[r.file := File(owner, old(rows)[sid].path)]
                && rows == old(rows)[sid := old(rows)[sid].(phase := Completed, token := 0, lease := None,
                                                            file := Some(r.file))]
      ensures r.Err? ==> files == old(files)
      ensures r.Err? && rows != old(rows) ==>
                && Taken(old(rows), sid, owner, old(now))
                && rows == old(rows)[sid := old(rows)[sid].(phase := Active, token := 0, lease := None)]
    {
      if sid !in rows || rows[sid].owner != owner { return Err(NotFound); }
      if rows[sid].phase == Completed { return Ok(rows[sid].file.value); }
      if rows[sid].phase == Aborted || rows[sid].phase == Expired { return Err(Conflict); }
      if now >= rows[sid].expiresAt { return Err(TooLate); }
      var claimed, token := Claim(sid, owner, false);
      Wait(claiming);
      if !claimed { return Err(Conflict); }
      if now >= rows[sid].expiresAt {
        Release(sid, owner, token);
        return Err(TooLate);
      }
      r := CompleteClaimed(sid, owner, token, wellFormed, intact, verifying);
      if r.Err? {
        Release(sid, owner, token);
      }
    }

    /** completeClaimed under a claim taken earlier: verify the object, register it
        if the lease has not run out meanwhile. */
    method CompleteClaimed(sid: nat, owner: nat, token: nat, wellFormed: bool, intact: bool, verifying: nat)
      returns (r: Result)
      requires Valid() && token != 0 && Mine(rows, sid, owner) && rows[sid].phase == Completing
               && rows[sid].token == token
      modifies this`now, this`rows, this`files, this`nextFile
      ensures Valid() && old(now) <= now
      ensures r.Ok? <==> wellFormed && intact && old(rows)[sid].path in objects
                         && MayRegister(old(rows), sid, owner, token, old(now) + verifying)
      ensures r.Ok? ==> && r.file !in old(files) && files == old(files)[r.file := File(owner, old(rows)[sid].path)]
                        && rows == CompletedRows(old(rows), sid, owner, token, now, r.file) && rows != old(rows)
      ensures r.Err? ==> rows == old(rows) && files == old(files)
    {
      if !wellFormed { return Err(Integrity); }
      if rows[sid].path !in objects { return Err(Unavailable); }
      Wait(verifying);
      if !intact { return Err(Integrity); }
      r := FinalizeComplete(sid, owner, token, rows[sid].path);
      assert r.Ok? ==> rows[sid].phase == Completed;
    }

    /** Deletes the claimed session's own object, after giving up an unmerged
        multipart upload; see `Cleared`. */
    method RemoveUnfinishedObject(sid: nat, store: Answers) returns (ok: bool)
      requires sid in rows && rows[sid].phase == Aborting
      modifies this`objects
      ensures ok <==> Cleared(rows[sid], store)
      ensures objects == if ok && !rows[sid].reused then old(objects) - {rows[sid].path} else old(objects)
    {
      if !rows[sid].reused && store.multipart {
        if !store.merged && store.abort == AbortFailed { return false; }
      }
      if rows[sid].reused { return true; }
      if !store.deletes { return false; }
      objects := objects - {rows[sid].path};
      return true;
    }

    /** Abort ends in a terminal phase without the object, is idempotent, refuses
        a completed session, and after a storage failure, or when its lease runs
        out during the removal, leaves the session aborting under its claim for a
        retry.  Nothing else changes. */
    method Abort(sid: nat, owner: nat, store: Answers, removing: nat) returns (ok: bool)
      requires Valid()
      modifies this`now, this`rows, this`objects, this`nextToken
      ensures Valid()
      ensures ok <==> && sid in old(rows) && old(rows)[sid].owner == owner
                      && (|| old(rows)[sid].phase == Aborted || old(rows)[sid].phase == Expired
                          || (&& Claimable(old(rows)[sid], true, old(now)) && Cleared(old(rows)[sid], store)
                              && removing < timeout))
      ensures Taken(old(rows), sid, owner, old(now)) ==>
                && objects == (if Cleared(old(rows)[sid], store) && !old(rows)[sid].reused
                               then old(objects) - {old(rows)[sid].path} else old(objects))
                && rows == old(rows)[sid := if ok then old(rows)[sid].(phase := Aborted, token := 0, lease := None)
                                            else old(rows)[sid].(phase := Aborting, token := old(nextToken),
                                                                 lease := Some(old(now) + timeout))]
      ensures !Taken(old(rows), sid, owner, old(now)) ==> rows == old(rows) && objects == old(objects)
    {
      if sid !in rows || rows[sid].owner != owner { return false; }
      if rows[sid].phase == Completed { return false; }
      if rows[sid].phase == Aborted || rows[sid].phase == Expired { return true; }
      var claimed, token := Claim(sid, owner, true);
      if !claimed { return false; }
      Wait(removing);
      var removed := RemoveUnfinishedObject(sid, store);
      if !removed { return false; }
      ok := Finish(sid, owner, token, Aborted);
    }

    /** One candidate of cleanup: skipped when it is gone, cannot be claimed or its
        lease runs out during the removal; failed when the object store fails. */
    method ExpireOne(sid: nat, store: Answers, removing: nat) returns (outcome: Cleanup)
      requires Valid()
      modifies this`now, this`rows, this`objects, this`nextToken
      ensures Valid() && old(now) <= now
      ensures var cleared := sid in old(rows) && Cleared(old(rows)[sid], store);
              OneDone(old(rows), old(objects), rows, objects, sid, old(now), now,
                      cleared, cleared && removing < timeout, outcome)
      ensures sid in old(rows) && Claimable(old(rows)[sid], true, old(now)) && outcome != Removed ==>
                rows[sid] == old(rows)[sid].(phase := Aborting, token := old(nextToken),
                                             lease := Some(old(now) + timeout))
    {
      if sid !in rows { return Skipped; }
      var owner := rows[sid].owner;
      var claimed, token := Claim(sid, owner, true);
      if !claimed { return Skipped; }
      Wait(removing);
      var ok := RemoveUnfinishedObject(sid, store);
      if !ok { return Failed; }
      var done := Finish(sid, owner, token, Expired);
      return if done then Removed else Skipped;
    }

    /** Works through the candidates in order, skipping conflicts and stopping after
        the first whose object cannot be cleared; `tried` says how far it came. */
    method ExpireAll(ids: seq<nat>, store: nat -> Answers, removing: nat -> nat) returns (removed: nat, tried: nat)
      requires Valid() && (forall i, j | 0 <= i < j < |ids| :: ids[i] != ids[j])
      modifies this`now, this`rows, this`objects, this`nextToken
      ensures Valid() && tried <= |ids|
      ensures Progress(old(rows), old(objects), rows, objects, ids, tried, old(now), now,
                       ClearedOf(old(rows), store), FineOf(old(rows), store, removing, timeout), removed)
      ensures ClearedUpTo(old(rows), ids, tried - 1, old(now), ClearedOf(old(rows), store))
      ensures tried < |ids| ==>
                0 < tried && ids[tried - 1] in old(rows) && ids[tried - 1] !in ClearedOf(old(rows), store)
    {
      removed := 0;
      ghost var cleared, fine := ClearedOf(old(rows), store), FineOf(old(rows), store, removing, timeout);
      assert NewlyExpired(old(rows), rows) == {};
      for i := 0 to |ids|
        invariant Valid()
        invariant Progress(old(rows), old(objects), rows, objects, ids, i, old(now), now, cleared, fine, removed)
        invariant ClearedUpTo(old(rows), ids, i, old(now), cleared)
      {
        ghost var before, had, began := rows, objects, now;
        assert ids[i] in rows ==> rows[ids[i]] == old(rows)[ids[i]] by { assert ids[i] !in ids[..i]; }
        var outcome := ExpireOne(ids[i], store(ids[i]), removing(ids[i]));
        ProgressStep(old(rows), old(objects), before, had, rows, objects, ids, i, old(now), began, now, cleared, fine,
                     removed, outcome);
        StepClears(old(rows), old(objects), before, had, rows, objects, ids, i, old(now), began, now, cleared, fine,
                   outcome);
        if outcome == Removed { removed := removed + 1; }
        if outcome == Failed {
          return removed, i + 1;
        }
      }
      return removed, |ids|;
    }

    /** Bounded cleanup: the count is the number of sessions that became expired;
        unlisted sessions and their objects are left alone; an expired session ends
        without lease, token and object; when every listed session is cleared in time
        and there is room under the limit, all of them end expired. */
    method CleanupExpired(cutoff: nat, limit: nat, store: nat -> Answers, removing: nat -> nat) returns (removed: nat)
      requires Valid()
      modifies this`now, this`rows, this`objects, this`nextToken
      ensures Valid() && rows.Keys == old(rows).Keys && removed <= limit
      ensures forall sid :: sid in old(rows) && !Listed(old(rows)[sid], cutoff, old(now)) ==>
                rows[sid] == old(rows)[sid]
      ensures removed == |NewlyExpired(old(rows), rows)|
      ensures forall sid :: sid in NewlyExpired(old(rows), rows) ==>
                rows[sid] == Ended(old(rows)[sid]) && (old(rows)[sid].reused || old(rows)[sid].path !in objects)
      ensures forall p :: p in old(objects) && p !in objects ==>
                exists sid :: sid in old(rows) && Listed(old(rows)[sid], cutoff, old(now))
                              && !old(rows)[sid].reused && old(rows)[sid].path == p
      ensures old(rows).Keys <= FineOf(old(rows), store, removing, timeout) && removed < limit ==>
                forall sid :: sid in old(rows) && Listed(old(rows)[sid], cutoff, old(now)) ==>
                      rows[sid].phase == Expired
    {
      var ids := ListExpired(cutoff, limit);
      assert forall i, j | 0 <= i < j < |ids| :: Before(rows, ids[i], ids[j]);
      ghost var cleared, fine := ClearedOf(rows, store), FineOf(rows, store, removing, timeout);
      assert forall sid :: sid in ids ==> Shaped(rows[sid]) && Claimable(rows[sid], true, now);
      var tried;
      removed, tried := ExpireAll(ids, store, removing);
      ProgressMeans(old(rows), old(objects), rows, objects, ids, tried, old(now), now, cleared, fine, removed);
      if old(rows).Keys <= fine && removed < limit {
        assert tried == |ids|;
        SelectionWasComplete(old(rows), rows, ids, limit);
      }
    }
  }

  function Elements(s: seq<nat>): set<nat> { set x | x in s }

  lemma CountDistinct(s: seq<nat>)
    requires forall i, j | 0 <= i < j < |s| :: s[i] != s[j]
    ensures |Elements(s)| == |s|
    decreases |s|
  {
    if s != [] {
      var front := s[..|s| - 1];
      CountDistinct(front);
      assert Elements(s) == Elements(front) + {s[|s| - 1]};
    }
  }
}
