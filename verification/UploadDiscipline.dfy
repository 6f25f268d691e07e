/** Whole runs with trusted callers: under a discipline on the paths they name, no
    registered file ever loses its object. */
module UploadDiscipline {
  import opened Options
  import opened UploadMachine
  import opened UploadSafety
  import opened UploadObjects
  import opened UploadSharing

  /** A file may leave an upload path that others share only when no completer of
      that upload can still act. */
  ghost predicate MovesFreely(s: State, sid: nat, p: nat) {
    sid in s.db.rows && !s.db.rows[sid].reused && s.db.rows[sid].path in s.paths.trusted && s.db.rows[sid].path != p ==>
      forall c :: c in s.leases.completers && s.leases.completers[c] == sid ==> !Pending(s, c)
  }

  /** Trusted callers name objects that are there and spared. */
  ghost predicate Disciplined(s: State, e: Event) {
    match e
    case VerifyTrusted(_, p) => p in s.store.objects && Spared(s, p)
    case RegisterExisting(_, _, p, _) => p in s.store.objects && Spared(s, p)
    case Repoint(sid, _, _, _, p) => p in s.store.objects && Spared(s, p) && MovesFreely(s, sid, p)
    case _ => true
  }

  ghost predicate DisciplinedRun(s: State, es: seq<Event>)
    decreases |es|
  {
    es == [] || (DisciplinedRun(s, es[..|es| - 1]) && Disciplined(Run(s, es[..|es| - 1]), es[|es| - 1]))
  }

  // ------------------------------------------------------------------ invariant

  ghost predicate TrustOk(s: State) { forall p :: p in s.paths.trusted ==> p in s.store.objects && Spared(s, p) }

  /** The session behind a generated path can no longer have its file there. */
  ghost predicate DeadPath(s: State, p: nat) {
    && p in s.paths.generated && s.paths.generated[p] in s.db.rows
    && var r := s.db.rows[s.paths.generated[p]];
       GivenUp(r.phase) || (r.phase == Completed && !FileAt(s, r, p))
  }

  ghost predicate DeletesOk(s: State) { forall p :: p in s.store.deletes ==> DeadPath(s, p) }

  /** A completer that was handed another file than its upload was not wrong: the
      session's file still is elsewhere. */
  ghost predicate ReturnStands(s: State, c: nat)
    requires c in s.verdicts.returned
  {
    && CompleterOf(s, c)
    && var r := CompleterRow(s, c);
       s.verdicts.returned[c] != r.path ==> !FileAt(s, r, r.path)
  }

  /** The path is trusted, or the own upload of session `sid`. */
  predicate TrustedOrOwn(s: State, p: nat, sid: nat) {
    p in s.paths.trusted || (p in s.paths.generated && s.paths.generated[p] == sid)
  }

  /** A verified object is still there unless its session has given it up. */
  ghost predicate TokenVerified(s: State, c: nat)
    requires c in s.verdicts.verified
  {
    && c in s.leases.completers && TrustedOrOwn(s, s.verdicts.verified[c], s.leases.completers[c])
    && (s.verdicts.verified[c] in s.store.objects || s.verdicts.verified[c] in s.store.deletes)
  }

  ghost predicate FileStands(s: State, f: nat)
    requires f in s.db.files
  {
    s.db.files[f].path in s.store.objects && f in s.db.home && TrustedOrOwn(s, s.db.files[f].path, s.db.home[f])
  }

  ghost predicate Safe(s: State) {
    && Base(s) && TrustOk(s) && DeletesOk(s)
    && (forall c :: c in s.verdicts.returned ==> ReturnStands(s, c))
    && (forall c :: c in s.verdicts.verified ==> TokenVerified(s, c))
    && (forall f :: f in s.db.files ==> FileStands(s, f))
  }

  /** The central exclusion: no delete that was ever sent out aims at a file. */
  lemma DeletesSpareFile(s: State, f: nat)
    requires Safe(s) && f in s.db.files
    ensures s.db.files[f].path !in s.store.deletes
  {
    assert FileStands(s, f);
    var p := s.db.files[f].path;
    if p !in s.paths.trusted {
      var sid := s.db.home[f];
      assert RowOk(s, sid, s.db.rows[sid]);
      assert FileAt(s, s.db.rows[sid], p);
    }
  }

  // ------------------------------------------------------------ one file per session

  /** A repointing that takes effect moves the file of its own session only. */
  lemma RepointedIsOwn(s: State, sid: nat, owner: nat, file: nat, expected: nat, p: nat, other: nat)
    requires Inv(s) && RepointStep(s, sid, owner, file, expected, p) != s
    requires other in s.db.rows && s.db.rows[other].file == Some(file)
    ensures other == sid
  {
    assert RowOk(s, sid, s.db.rows[sid]) && RowOk(s, other, s.db.rows[other]);
  }

  lemma DisciplineLeavesFile(s: State, e: Event, p: nat)
    requires Base(s) && Disciplined(s, e) && Step(s, e) != s && p in s.paths.generated
    requires p in s.paths.trusted || !e.Repoint? || e.path == p
    ensures s.paths.generated[p] in s.db.rows && LeavesFile(s, e, s.paths.generated[p], p)
  {
    var sid := s.paths.generated[p];
    assert GeneratedOk(s, p);
    if e.Repoint? && s.db.rows[sid].file == Some(e.file) && e.path != p {
      RepointedIsOwn(s, e.sid, e.owner, e.file, e.expected, e.path, sid);
    }
  }

  // --------------------------------------------------------------- preservation

  lemma TrustComesFrom(s: State, e: Event, p: nat)
    requires Disciplined(s, e) && p in Step(s, e).paths.trusted && p !in s.paths.trusted
    ensures p in s.store.objects && Spared(s, p) && !e.Start? && (e.Repoint? ==> e.path == p)
  {
    if Quiet(e) { assert Step(s, e).paths.trusted == TrustedAfter(s, e); }
    else if e.Start? || LeaseEvent(e) { LeasesKeepTrust(s, e); }
  }

  lemma TrustStays(s: State, e: Event, p: nat)
    requires Base(s) && TrustOk(s) && Disciplined(s, e) && p in Step(s, e).paths.trusted
    ensures p in Step(s, e).store.objects && Spared(Step(s, e), p)
  {
    if Step(s, e) != s {
      if p !in s.paths.trusted { TrustComesFrom(s, e, p); }
      StepKeepsObject(s, e, p);
      if p in s.paths.generated { DisciplineLeavesFile(s, e, p); }
      SparedStays(s, e, p);
    }
  }

  /** A file moves to or from its own upload path only by repointing. */
  lemma FileStaysAway(s: State, e: Event, sid: nat, p: nat)
    requires Inv(s) && sid in s.db.rows && s.db.rows[sid].phase == Completed && !FileAt(s, s.db.rows[sid], p)
    requires !(e.Repoint? && e.path == p)
    ensures sid in Step(s, e).db.rows && Step(s, e).db.rows[sid] == s.db.rows[sid]
            && !FileAt(Step(s, e), s.db.rows[sid], p)
  {
    StepMovesRow(s, e, sid);
    assert RowOk(s, sid, s.db.rows[sid]);
    var f := s.db.rows[sid].file.value;
    if !(e.Repoint? && e.file == f) { OnlyRepointMoves(s, e, f); }
  }

  lemma DeadStaysDead(s: State, e: Event, p: nat)
    requires Inv(s) && DeadPath(s, p) && !(e.Repoint? && e.path == p)
    ensures DeadPath(Step(s, e), p)
  {
    var sid := s.paths.generated[p];
    StepMovesRow(s, e, sid);
    StepKeepsGenerated(s, e, p);
    if s.db.rows[sid].phase == Completed { FileStaysAway(s, e, sid, p); }
  }

  /** Deletes are only ever sent to dead paths. */
  lemma NewDeletesAreDead(s: State, e: Event, p: nat)
    requires Base(s) && (forall c :: c in s.verdicts.returned ==> ReturnStands(s, c))
    requires p in DeletesAfter(s, e) && p !in s.store.deletes
    ensures DeadPath(s, p)
  {
    match e
    case DropTemporary(token) =>
      assert ReturnStands(s, token) && ReturnOk(s, token) && CompleterOk(s, token);
      assert RowPathOk(s, s.leases.completers[token]);
    case IssueDelete(token) => assert RowPathOk(s, s.leases.aborters[token]) && AborterOk(s, token);
    case _ =>
  }

  lemma StepKeepsDeletesOk(s: State, e: Event)
    requires Safe(s) && Disciplined(s, e)
    ensures DeletesOk(Step(s, e))
  {
    DeletesComeFrom(s, e);
    forall p | p in Step(s, e).store.deletes ensures DeadPath(Step(s, e), p) {
      if p in s.store.deletes {
        assert DeadPath(s, p) && !Spared(s, p);
      } else {
        NewDeletesAreDead(s, e, p);
        assert e.DropTemporary? || e.IssueDelete?;
      }
      DeadStaysDead(s, e, p);
    }
  }

  /** An upload some completer was turned away from is not spared. */
  lemma TurnedAwayIsNotSpared(s: State, c: nat)
    requires Base(s) && c in s.verdicts.returned && CompleterOf(s, c)
             && s.verdicts.returned[c] != CompleterRow(s, c).path
    ensures CompleterRow(s, c).phase == Completed && !Spared(s, CompleterRow(s, c).path)
  {
    assert ReturnOk(s, c) && CompleterOk(s, c) && RowPathOk(s, s.leases.completers[c]);
    assert forall there :: !Harmless(s, c, CompleterRow(s, c).path, there);
  }

  lemma OldReturnStands(s: State, e: Event, c: nat)
    requires Base(s) && Disciplined(s, e) && c in s.verdicts.returned && ReturnStands(s, c)
    ensures c in Step(s, e).verdicts.returned && ReturnStands(Step(s, e), c)
  {
    var sid := s.leases.completers[c];
    ReturnIsFinal(s, e, c);
    StepMovesRow(s, e, sid);
    StepKeepsCompleter(s, e, c);
    if s.verdicts.returned[c] != s.db.rows[sid].path {
      TurnedAwayIsNotSpared(s, c);
      FileStaysAway(s, e, sid, s.db.rows[sid].path);
    }
  }

  lemma NewReturnStands(s: State, e: Event, c: nat)
    requires Base(s) && c in Step(s, e).verdicts.returned && c !in s.verdicts.returned
    ensures ReturnStands(Step(s, e), c)
  {
    if !e.Finalize? { OnlyFinalizeReturns(s, e); }
    if e.sid in s.db.rows { assert RowOk(s, e.sid, s.db.rows[e.sid]); }
    FinalizeReturns(s, e.sid, e.owner, e.token, e.at, e.file, c);
  }

  lemma FinalizeReturns(s: State, sid: nat, owner: nat, token: nat, at: nat, file: nat, c: nat)
    requires sid in s.db.rows ==> RowOk(s, sid, s.db.rows[sid])
    requires c in FinalizeStep(s, sid, owner, token, at, file).verdicts.returned && c !in s.verdicts.returned
    ensures ReturnStands(FinalizeStep(s, sid, owner, token, at, file), c)
  {}

  lemma TrustedOrOwnStays(s: State, e: Event, p: nat, sid: nat)
    requires TrustedOrOwn(s, p, sid)
    ensures TrustedOrOwn(Step(s, e), p, sid)
  {
    StepKeepsTrusted(s, e);
    if p in s.paths.generated { StepKeepsGenerated(s, e, p); }
  }

  lemma OldVerificationOk(s: State, e: Event, c: nat)
    requires Base(s) && c in s.verdicts.verified && TokenVerified(s, c)
    requires c in Step(s, e).verdicts.verified && Step(s, e).verdicts.verified[c] == s.verdicts.verified[c]
    ensures TokenVerified(Step(s, e), c)
  {
    var p := s.verdicts.verified[c];
    StepKeepsCompleter(s, e, c);
    TrustedOrOwnStays(s, e, p, s.leases.completers[c]);
    DeletesComeFrom(s, e);
    if p !in s.store.deletes { StepKeepsObject(s, e, p); }
  }

  lemma NewVerificationOk(s: State, e: Event, c: nat)
    requires Base(s) && Disciplined(s, e) && c in Step(s, e).verdicts.verified
    requires c !in s.verdicts.verified || Step(s, e).verdicts.verified[c] != s.verdicts.verified[c]
    ensures TokenVerified(Step(s, e), c)
  {
    VerifiedComesFrom(s, e);
    assert (e.Verify? || e.VerifyTrusted?) && e.token == c && CompleterOf(s, c);
    assert CompleterOk(s, c) && RowPathOk(s, s.leases.completers[c]);
    assert Step(s, e) == QuietStep(s, e);
  }

  lemma OldFileStands(s: State, e: Event, f: nat)
    requires Safe(s) && Disciplined(s, e) && f in s.db.files
    ensures f in Step(s, e).db.files && FileStands(Step(s, e), f)
  {
    assert FileStands(s, f);
    StepKeepsFile(s, e, f);
    var t := Step(s, e);
    if t.db.files[f] == s.db.files[f] {
      DeletesSpareFile(s, f);
      StepKeepsObject(s, e, s.db.files[f].path);
      TrustedOrOwnStays(s, e, s.db.files[f].path, s.db.home[f]);
    } else {
      assert e.Repoint? && e.file == f by { if !(e.Repoint? && e.file == f) { OnlyRepointMoves(s, e, f); } }
      TablesKeepObjects(s, e);
    }
  }

  lemma NewFileStands(s: State, e: Event, f: nat)
    requires Safe(s) && Disciplined(s, e) && f !in s.db.files && f in Step(s, e).db.files
    ensures FileStands(Step(s, e), f)
  {
    if e.Finalize? {
      FinalizedPath(s, e.sid, e.owner, e.token, e.at, e.file, f);
      assert TokenVerified(s, e.token);
      FinalizedFileStands(s, e.sid, e.owner, e.token, e.at, e.file, f);
    } else if e.RegisterExisting? {
      RegisteredFileStands(s, e.sid, e.owner, e.path, e.file, f);
    } else {
      NoNewFile(s, e);
    }
  }

  /** What a completing session verified was not deleted behind its back. */
  lemma FinalizedFileStands(s: State, sid: nat, owner: nat, token: nat, at: nat, file: nat, f: nat)
    requires TrustOk(s) && DeletesOk(s) && token in s.verdicts.verified && TokenVerified(s, token)
    requires f !in s.db.files && f in FinalizeStep(s, sid, owner, token, at, file).db.files
    ensures FileStands(FinalizeStep(s, sid, owner, token, at, file), f)
  {
    assert s.verdicts.verified[token] !in s.store.deletes;
  }

  lemma RegisteredFileStands(s: State, sid: nat, owner: nat, p: nat, file: nat, f: nat)
    requires p in s.store.objects
    requires f !in s.db.files && f in RegisterStep(s, sid, owner, p, file).db.files
    ensures FileStands(RegisterStep(s, sid, owner, p, file), f)
  {}

  lemma StepKeepsTrustOk(s: State, e: Event)
    requires Safe(s) && Disciplined(s, e)
    ensures TrustOk(Step(s, e))
  {
    forall p | p in Step(s, e).paths.trusted ensures p in Step(s, e).store.objects && Spared(Step(s, e), p) {
      TrustStays(s, e, p);
    }
  }

  lemma StepKeepsReturns(s: State, e: Event, c: nat)
    requires Safe(s) && Disciplined(s, e) && c in Step(s, e).verdicts.returned
    ensures ReturnStands(Step(s, e), c)
  {
    if c in s.verdicts.returned { OldReturnStands(s, e, c); } else { NewReturnStands(s, e, c); }
  }

  lemma StepKeepsVerified(s: State, e: Event, c: nat)
    requires Safe(s) && Disciplined(s, e) && c in Step(s, e).verdicts.verified
    ensures TokenVerified(Step(s, e), c)
  {
    if c in s.verdicts.verified && Step(s, e).verdicts.verified[c] == s.verdicts.verified[c] {
      OldVerificationOk(s, e, c);
    } else {
      NewVerificationOk(s, e, c);
    }
  }

  lemma StepKeepsFileStands(s: State, e: Event, f: nat)
    requires Safe(s) && Disciplined(s, e) && f in Step(s, e).db.files
    ensures FileStands(Step(s, e), f)
  {
    if f in s.db.files { OldFileStands(s, e, f); } else { NewFileStands(s, e, f); }
  }

  lemma StepKeepsSafe(s: State, e: Event)
    requires Safe(s) && Disciplined(s, e)
    ensures Safe(Step(s, e))
  {
    var t := Step(s, e);
    StepKeepsBase(s, e);
    StepKeepsTrustOk(s, e);
    StepKeepsDeletesOk(s, e);
    forall c | c in t.verdicts.returned ensures ReturnStands(t, c) { StepKeepsReturns(s, e, c); }
    forall c | c in t.verdicts.verified ensures TokenVerified(t, c) { StepKeepsVerified(s, e, c); }
    forall f | f in t.db.files ensures FileStands(t, f) { StepKeepsFileStands(s, e, f); }
  }

  lemma {:induction false} DisciplinedReachable(es: seq<Event>)
    requires DisciplinedRun(Init(), es)
    ensures Safe(Run(Init(), es))
    decreases |es|
  {
    if es != [] {
      DisciplinedReachable(es[..|es| - 1]);
      StepKeepsSafe(Run(Init(), es[..|es| - 1]), es[|es| - 1]);
    }
  }

  // ------------------------------------------------------------------- theorems

  /** Registered files keep their objects: at every moment of every disciplined run
      the object of every file is there, and no delete sent out so far, however
      late it lands, aims at it.  Runs without trusted callers are disciplined. */
  lemma RegisteredObjectsSurvive(es: seq<Event>, f: nat)
    requires DisciplinedRun(Init(), es) && f in Run(Init(), es).db.files
    ensures var s := Run(Init(), es);
            s.db.files[f].path in s.store.objects && s.db.files[f].path !in s.store.deletes
  {
    DisciplinedReachable(es);
    DeletesSpareFile(Run(Init(), es), f);
    assert FileStands(Run(Init(), es), f);
  }

  lemma {:induction false} OrdinaryIsDisciplined(s: State, es: seq<Event>)
    requires Ordinary(es)
    ensures DisciplinedRun(s, es)
    decreases |es|
  {
    if es != [] { OrdinaryIsDisciplined(s, es[..|es| - 1]); }
  }

  /** Every completer of the session is through, and kept the upload at `p`. */
  ghost predicate AllThrough(s: State, sid: nat, p: nat) {
    forall c :: c in s.leases.completers && s.leases.completers[c] == sid ==>
      !Pending(s, c) && (c in s.verdicts.returned ==> s.verdicts.returned[c] == p)
  }

  /** What a spared path is, after a disciplined run: no upload path at all; that of
      a completed session whose file is there; or that of a completed one whose
      file has moved away after every completer was through. */
  lemma SparedCases(es: seq<Event>, p: nat)
    requires DisciplinedRun(Init(), es)
    ensures var s := Run(Init(), es);
            && (p in s.paths.generated ==> s.paths.generated[p] in s.db.rows)
            && (Spared(s, p) <==>
                 || p !in s.paths.generated
                 || var sid := s.paths.generated[p];
                    var r := s.db.rows[sid];
                    r.phase == Completed && (FileAt(s, r, p) || (p !in s.store.deletes && AllThrough(s, sid, p))))
  {
    DisciplinedReachable(es);
    var s := Run(Init(), es);
    if p in s.paths.generated {
      var sid := s.paths.generated[p];
      assert GeneratedOk(s, p);
      if s.db.rows[sid].phase == Completed && FileAt(s, s.db.rows[sid], p) {
        forall c | c in s.leases.completers && s.leases.completers[c] == sid ensures Harmless(s, c, p, true) {
          if c in s.verdicts.returned { assert ReturnStands(s, c); }
        }
      }
    }
  }
}
