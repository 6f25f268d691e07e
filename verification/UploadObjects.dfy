/** Objects of registered files: exactly when an object can still be deleted under
    a file, and a discipline for trusted callers under which none ever is. */
module UploadObjects {
  import opened UploadMachine
  import opened UploadSafety

  // ------------------------------------------------------- which step changes what

  lemma OnlyStartGenerates(s: State, e: Event)
    requires !e.Start?
    ensures Step(s, e).paths.generated == s.paths.generated
  {}

  lemma StepKeepsGenerated(s: State, e: Event, p: nat)
    requires p in s.paths.generated
    ensures p in Step(s, e).paths.generated && Step(s, e).paths.generated[p] == s.paths.generated[p]
  {
    if !e.Start? { OnlyStartGenerates(s, e); }
  }

  lemma OnlyClaimsAddCompleters(s: State, e: Event)
    requires !e.ClaimLease?
    ensures Step(s, e).leases.completers == s.leases.completers
  {}

  lemma StepKeepsCompleter(s: State, e: Event, c: nat)
    requires TokensOk(s) && c in s.leases.completers
    ensures c in Step(s, e).leases.completers && Step(s, e).leases.completers[c] == s.leases.completers[c]
  {
    if !e.ClaimLease? { OnlyClaimsAddCompleters(s, e); }
  }

  lemma OnlyFinalizeReturns(s: State, e: Event)
    requires !e.Finalize?
    ensures Step(s, e).verdicts.returned == s.verdicts.returned
  {}

  lemma StepKeepsRetired(s: State, e: Event)
    ensures s.leases.retired <= Step(s, e).leases.retired
  {
    if Quiet(e) { QuietKeepsTables(s, e); }
  }

  lemma DeletesComeFrom(s: State, e: Event)
    ensures Step(s, e).store.deletes == DeletesAfter(s, e)
  {}

  lemma TablesKeepObjects(s: State, e: Event)
    requires !Quiet(e)
    ensures Step(s, e).store.objects == s.store.objects
  {}

  /** Objects disappear only when a sent delete lands. */
  lemma StepKeepsObject(s: State, e: Event, p: nat)
    requires p in s.store.objects && p !in s.store.deletes
    ensures p in Step(s, e).store.objects
  {
    if Quiet(e) { assert Step(s, e).store.objects == ObjectsAfter(s, e); } else { TablesKeepObjects(s, e); }
  }

  lemma LeasesKeepTrust(s: State, e: Event)
    requires e.Start? || LeaseEvent(e)
    ensures Step(s, e).paths.trusted == s.paths.trusted
  {}

  lemma StepKeepsTrusted(s: State, e: Event)
    ensures s.paths.trusted <= Step(s, e).paths.trusted
  {
    if Quiet(e) { assert Step(s, e).paths.trusted == TrustedAfter(s, e); }
    else if e.Start? || LeaseEvent(e) { LeasesKeepTrust(s, e); }
  }

  lemma OnlyRepointMoves(s: State, e: Event, f: nat)
    requires f in s.db.files && s.db.home.Keys == s.db.files.Keys && !(e.Repoint? && e.file == f)
    ensures f in Step(s, e).db.files && Step(s, e).db.files[f] == s.db.files[f]
  {
    if Quiet(e) { QuietKeepsTables(s, e); }
    else if e.Finalize? { FinalizeKeepsFile(s, e.sid, e.owner, e.token, e.at, e.file, f); }
    else if !e.RegisterExisting? && !e.Repoint? { RowEventsKeepFiles(s, e); }
  }

  lemma NoNewFile(s: State, e: Event)
    requires !e.Finalize? && !e.RegisterExisting?
    ensures Step(s, e).db.files.Keys == s.db.files.Keys
  {
    if Quiet(e) { QuietKeepsTables(s, e); }
    else if !e.Repoint? { RowEventsKeepFiles(s, e); }
    else if e.file in s.db.files {
      assert Step(s, e).db.files.Keys == s.db.files.Keys + {e.file} || Step(s, e).db.files == s.db.files;
    }
  }

  // ------------------------------------------------------------ paths in every run

  ghost predicate GeneratedOk(s: State, p: nat)
    requires p in s.paths.generated
  {
    && s.paths.generated[p] in s.db.rows
    && s.db.rows[s.paths.generated[p]].path == p && !s.db.rows[s.paths.generated[p]].reused
  }

  /** An upload's row and its path name each other; a reused row is complete. */
  ghost predicate RowPathOk(s: State, sid: nat)
    requires sid in s.db.rows
  {
    var r := s.db.rows[sid];
    if r.reused then r.phase == Completed else r.path in s.paths.generated && s.paths.generated[r.path] == sid
  }

  ghost predicate CompleterOk(s: State, c: nat)
    requires c in s.leases.completers
  {
    s.leases.completers[c] in s.db.rows && !s.db.rows[s.leases.completers[c]].reused
  }

  /** On the way to its end without a file. */
  predicate GivenUp(p: Phase) { p == Aborting || p == Aborted || p == Expired }

  ghost predicate AborterOk(s: State, t: nat)
    requires t in s.leases.aborters
  {
    s.leases.aborters[t] in s.db.rows && GivenUp(s.db.rows[s.leases.aborters[t]].phase)
  }

  ghost predicate HasAborter(s: State, sid: nat) { exists t :: t in s.leases.aborters && s.leases.aborters[t] == sid }

  /** Sessions are given up by aborters, and only those have any. */
  ghost predicate AbortersOk(s: State) {
    && (forall t :: t in s.leases.aborters ==> AborterOk(s, t))
    && (forall sid :: sid in s.db.rows && GivenUp(s.db.rows[sid].phase) ==> HasAborter(s, sid))
  }

  ghost predicate PathsOk(s: State) {
    && (forall p :: p in s.paths.generated ==> GeneratedOk(s, p))
    && (forall sid :: sid in s.db.rows ==> RowPathOk(s, sid))
    && (forall c :: c in s.leases.completers ==> CompleterOk(s, c))
  }

  predicate Known(s: State, p: nat) { p in s.paths.trusted || p in s.paths.generated }

  /** Only completers of completed sessions have been handed a file. */
  ghost predicate ReturnOk(s: State, c: nat) {
    c in s.leases.completers && s.leases.completers[c] in s.db.rows
        && s.db.rows[s.leases.completers[c]].phase == Completed
  }

  /** Deletes go to upload paths, files and verified objects are at known ones. */
  ghost predicate AimsOk(s: State) {
    && (forall p :: p in s.store.deletes ==> p in s.paths.generated)
    && (forall c :: c in s.verdicts.returned ==> ReturnOk(s, c))
    && (forall c :: c in s.verdicts.verified ==> Known(s, s.verdicts.verified[c]))
    && (forall f :: f in s.db.files ==> Known(s, s.db.files[f].path))
  }

  ghost predicate Base(s: State) { Inv(s) && PathsOk(s) && AbortersOk(s) && AimsOk(s) }

  lemma OnlyClaimsAddAborters(s: State, e: Event)
    requires !e.ClaimLease?
    ensures Step(s, e).leases.aborters == s.leases.aborters
  {}

  lemma StepKeepsAborter(s: State, e: Event, t: nat)
    requires TokensOk(s) && t in s.leases.aborters
    ensures t in Step(s, e).leases.aborters && Step(s, e).leases.aborters[t] == s.leases.aborters[t]
  {
    if !e.ClaimLease? { OnlyClaimsAddAborters(s, e); }
  }

  lemma NewAborterOk(s: State, sid: nat, owner: nat, abort: bool, token: nat, at: nat, until: nat, t: nat)
    requires t !in s.leases.aborters && t in ClaimStep(s, sid, owner, abort, token, at, until).leases.aborters
    ensures AborterOk(ClaimStep(s, sid, owner, abort, token, at, until), t)
  {}

  lemma AborterStays(s: State, e: Event, t: nat)
    requires TokensOk(s) && AbortersOk(s) && t in Step(s, e).leases.aborters
    ensures AborterOk(Step(s, e), t)
  {
    if t in s.leases.aborters {
      assert AborterOk(s, t);
      StepKeepsAborter(s, e, t);
      StepMovesRow(s, e, s.leases.aborters[t]);
    } else {
      if !e.ClaimLease? { OnlyClaimsAddAborters(s, e); }
      NewAborterOk(s, e.sid, e.owner, e.abort, e.token, e.at, e.until, t);
    }
  }

  /** A session is given up by a claim for aborting, or by its aborter's finish. */
  lemma GivenUpBy(s: State, e: Event, sid: nat)
    requires sid in Step(s, e).db.rows && GivenUp(Step(s, e).db.rows[sid].phase)
    requires !(sid in s.db.rows && GivenUp(s.db.rows[sid].phase))
    ensures HasAborter(Step(s, e), sid)
  {
    if Quiet(e) { QuietKeepsTables(s, e); }
    else if e.ClaimLease? { ClaimGivesUp(s, e.sid, e.owner, e.abort, e.token, e.at, e.until, sid); }
    else if e.Finish? { assert Step(s, e).leases == s.leases && s.leases.aborters[e.token] == sid; }
  }

  lemma ClaimGivesUp(s: State, x: nat, owner: nat, abort: bool, token: nat, at: nat, until: nat, sid: nat)
    requires var t := ClaimStep(s, x, owner, abort, token, at, until);
             sid in t.db.rows && GivenUp(t.db.rows[sid].phase) && !(sid in s.db.rows && GivenUp(s.db.rows[sid].phase))
    ensures HasAborter(ClaimStep(s, x, owner, abort, token, at, until), sid)
  {
    var t := ClaimStep(s, x, owner, abort, token, at, until);
    assert token in t.leases.aborters && t.leases.aborters[token] == sid;
  }

  lemma HasAborterStays(s: State, e: Event, sid: nat)
    requires TokensOk(s) && AbortersOk(s) && sid in Step(s, e).db.rows && GivenUp(Step(s, e).db.rows[sid].phase)
    ensures HasAborter(Step(s, e), sid)
  {
    if sid in s.db.rows && GivenUp(s.db.rows[sid].phase) {
      assert HasAborter(s, sid);
      var t :| t in s.leases.aborters && s.leases.aborters[t] == sid;
      StepKeepsAborter(s, e, t);
    } else {
      GivenUpBy(s, e, sid);
    }
  }

  lemma StepKeepsAborters(s: State, e: Event)
    requires TokensOk(s) && AbortersOk(s)
    ensures AbortersOk(Step(s, e))
  {
    var n := Step(s, e);
    forall t | t in n.leases.aborters ensures AborterOk(n, t) { AborterStays(s, e, t); }
    forall sid | sid in n.db.rows && GivenUp(n.db.rows[sid].phase) ensures HasAborter(n, sid) {
      HasAborterStays(s, e, sid);
    }
  }

  lemma NewPathOk(s: State, sid: nat, owner: nat, path: nat, expiresAt: nat, p: nat)
    requires p !in s.paths.generated && p in StartStep(s, sid, owner, path, expiresAt).paths.generated
    ensures GeneratedOk(StartStep(s, sid, owner, path, expiresAt), p)
  {}

  lemma GeneratedStays(s: State, e: Event, p: nat)
    requires (p in s.paths.generated ==> GeneratedOk(s, p)) && p in Step(s, e).paths.generated
    ensures GeneratedOk(Step(s, e), p)
  {
    if p in s.paths.generated {
      StepMovesRow(s, e, s.paths.generated[p]);
      StepKeepsGenerated(s, e, p);
    } else {
      assert e.Start? by { if !e.Start? { OnlyStartGenerates(s, e); } }
      NewPathOk(s, e.sid, e.owner, e.path, e.expiresAt, p);
    }
  }

  lemma NewRowOk(s: State, e: Event, sid: nat)
    requires sid !in s.db.rows && sid in Step(s, e).db.rows
    ensures RowPathOk(Step(s, e), sid)
  {
    if Quiet(e) { QuietKeepsTables(s, e); }
  }

  lemma RowPathStays(s: State, e: Event, sid: nat)
    requires (sid in s.db.rows ==> RowPathOk(s, sid)) && sid in Step(s, e).db.rows
    ensures RowPathOk(Step(s, e), sid)
  {
    if sid in s.db.rows {
      StepMovesRow(s, e, sid);
      if !s.db.rows[sid].reused { StepKeepsGenerated(s, e, s.db.rows[sid].path); }
    } else {
      NewRowOk(s, e, sid);
    }
  }

  lemma NewCompleterOk(s: State, sid: nat, owner: nat, abort: bool, token: nat, at: nat, until: nat, c: nat)
    requires sid in s.db.rows ==> RowPathOk(s, sid)
    requires c !in s.leases.completers && c in ClaimStep(s, sid, owner, abort, token, at, until).leases.completers
    ensures CompleterOk(ClaimStep(s, sid, owner, abort, token, at, until), c)
  {}

  lemma CompleterStays(s: State, e: Event, c: nat)
    requires TokensOk(s) && PathsOk(s) && c in Step(s, e).leases.completers
    ensures CompleterOk(Step(s, e), c)
  {
    if c in s.leases.completers {
      assert CompleterOk(s, c);
      StepKeepsCompleter(s, e, c);
      StepMovesRow(s, e, s.leases.completers[c]);
    } else {
      if !e.ClaimLease? { OnlyClaimsAddCompleters(s, e); }
      NewCompleterOk(s, e.sid, e.owner, e.abort, e.token, e.at, e.until, c);
    }
  }

  lemma StepKeepsPaths(s: State, e: Event)
    requires TokensOk(s) && PathsOk(s)
    ensures PathsOk(Step(s, e))
  {
    var t := Step(s, e);
    forall p | p in t.paths.generated ensures GeneratedOk(t, p) { GeneratedStays(s, e, p); }
    forall sid | sid in t.db.rows ensures RowPathOk(t, sid) { RowPathStays(s, e, sid); }
    forall c | c in t.leases.completers ensures CompleterOk(t, c) { CompleterStays(s, e, c); }
  }

  lemma NewDeleteIsGenerated(s: State, e: Event, p: nat)
    requires PathsOk(s) && p in DeletesAfter(s, e) && p !in s.store.deletes
    ensures p in s.paths.generated
  {
    match e
    case DropTemporary(token) =>
      assert CompleterOk(s, token);
      assert RowPathOk(s, s.leases.completers[token]);
    case IssueDelete(token) => assert RowPathOk(s, s.leases.aborters[token]);
    case _ =>
  }

  lemma FinalizeReturnsOk(s: State, sid: nat, owner: nat, token: nat, at: nat, file: nat, c: nat)
    requires c in FinalizeStep(s, sid, owner, token, at, file).verdicts.returned && c !in s.verdicts.returned
    ensures ReturnOk(FinalizeStep(s, sid, owner, token, at, file), c)
  {}

  lemma ReturnStays(s: State, e: Event, c: nat)
    requires TokensOk(s) && (c in s.verdicts.returned ==> ReturnOk(s, c)) && c in Step(s, e).verdicts.returned
    ensures ReturnOk(Step(s, e), c)
  {
    if c in s.verdicts.returned {
      StepKeepsCompleter(s, e, c);
      StepMovesRow(s, e, s.leases.completers[c]);
    } else {
      if !e.Finalize? { OnlyFinalizeReturns(s, e); }
      FinalizeReturnsOk(s, e.sid, e.owner, e.token, e.at, e.file, c);
    }
  }

  lemma StepKeepsKnown(s: State, e: Event, p: nat)
    requires Known(s, p)
    ensures Known(Step(s, e), p)
  {
    StepKeepsTrusted(s, e);
    if p in s.paths.generated { StepKeepsGenerated(s, e, p); }
  }

  lemma VerifiedComesFrom(s: State, e: Event)
    ensures Step(s, e).verdicts.verified == VerifiedAfter(s, e)
  {}

  lemma VerifiedIsKnown(s: State, e: Event, c: nat)
    requires PathsOk(s) && (c in s.verdicts.verified ==> Known(s, s.verdicts.verified[c]))
             && c in Step(s, e).verdicts.verified
    ensures Known(Step(s, e), Step(s, e).verdicts.verified[c])
  {
    VerifiedComesFrom(s, e);
    if c in s.verdicts.verified && VerifiedAfter(s, e)[c] == s.verdicts.verified[c] {
      StepKeepsKnown(s, e, s.verdicts.verified[c]);
    } else if e.Verify? {
      assert CompleterOk(s, c) && RowPathOk(s, s.leases.completers[c]);
      StepKeepsKnown(s, e, VerifiedAfter(s, e)[c]);
    } else {
      assert VerifiedAfter(s, e)[c] in TrustedAfter(s, e);
    }
  }

  lemma NewFileIsKnown(s: State, e: Event, f: nat)
    requires forall c :: c in s.verdicts.verified ==> Known(s, s.verdicts.verified[c])
    requires f in Step(s, e).db.files && (f !in s.db.files || Step(s, e).db.files[f] != s.db.files[f])
    requires s.db.home.Keys == s.db.files.Keys
    ensures Known(Step(s, e), Step(s, e).db.files[f].path)
  {
    if e.Finalize? {
      if f in s.db.files { OnlyRepointMoves(s, e, f); }
      FinalizedPath(s, e.sid, e.owner, e.token, e.at, e.file, f);
      StepKeepsKnown(s, e, s.verdicts.verified[e.token]);
    } else if !e.RegisterExisting? && !e.Repoint? {
      NoNewFile(s, e);
      OnlyRepointMoves(s, e, f);
    }
  }

  lemma FinalizedPath(s: State, sid: nat, owner: nat, token: nat, at: nat, file: nat, f: nat)
    requires f !in s.db.files && f in FinalizeStep(s, sid, owner, token, at, file).db.files
    ensures token in s.verdicts.verified
    ensures FinalizeStep(s, sid, owner, token, at, file).db.files[f].path == s.verdicts.verified[token]
  {}

  lemma StepKeepsAims(s: State, e: Event)
    requires Base(s)
    ensures AimsOk(Step(s, e))
  {
    var t := Step(s, e);
    forall p | p in t.store.deletes ensures p in t.paths.generated {
      DeletesComeFrom(s, e);
      if p !in s.store.deletes { NewDeleteIsGenerated(s, e, p); }
      StepKeepsGenerated(s, e, p);
    }
    forall c | c in t.verdicts.returned ensures ReturnOk(t, c) { ReturnStays(s, e, c); }
    forall c | c in t.verdicts.verified ensures Known(t, t.verdicts.verified[c]) { VerifiedIsKnown(s, e, c); }
    forall f | f in t.db.files ensures Known(t, t.db.files[f].path) {
      if f in s.db.files && t.db.files[f] == s.db.files[f] { StepKeepsKnown(s, e, s.db.files[f].path); }
      else { NewFileIsKnown(s, e, f); }
    }
  }

  lemma StepKeepsBase(s: State, e: Event)
    requires Base(s)
    ensures Base(Step(s, e))
  {
    StepPreservesInv(s, e);
    StepKeepsPaths(s, e);
    StepKeepsAborters(s, e);
    StepKeepsAims(s, e);
  }

  lemma {:induction false} ReachableBase(es: seq<Event>)
    ensures Base(Run(Init(), es))
    decreases |es|
  {
    if es != [] {
      ReachableBase(es[..|es| - 1]);
      StepKeepsBase(Run(Init(), es[..|es| - 1]), es[|es| - 1]);
    }
  }
}
