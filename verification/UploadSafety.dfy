/** Whole-run properties of the upload machine. */
module UploadSafety {
  import opened Options
  import opened UploadMachine

  // ------------------------------------------------------ rows only move forward

  ghost predicate Later(s: State, t: State) {
    && s.now <= t.now
    && (forall sid :: sid in s.db.rows ==> sid in t.db.rows && RowLater(s.db.rows[sid], t.db.rows[sid]))
    && (forall f :: f in s.db.files ==> f in t.db.files)
    && (forall f :: f in s.db.home ==> f in t.db.home && t.db.home[f] == s.db.home[f])
  }

  /** Terminal rows are frozen, aborting never leads back towards completion. */
  ghost predicate RowLater(r: Row, q: Row) {
    && q.owner == r.owner && q.path == r.path && q.reused == r.reused && q.expiresAt == r.expiresAt
    && (Terminal(r.phase) ==> q == r)
    && (r.phase == Aborting ==> q.phase == Aborting || q.phase == Aborted || q.phase == Expired)
  }

  lemma StepMovesRow(s: State, e: Event, sid: nat)
    requires sid in s.db.rows
    ensures sid in Step(s, e).db.rows && RowLater(s.db.rows[sid], Step(s, e).db.rows[sid])
  {
    if Quiet(e) { QuietKeepsTables(s, e); }
    else if e.Finalize? { FinalizeMovesRow(s, e.sid, e.owner, e.token, e.at, e.file, sid); }
    else if e.ClaimLease? { ClaimMovesRow(s, e.sid, e.owner, e.abort, e.token, e.at, e.until, sid); }
    else if e.Finish? { FinishMovesRow(s, e.sid, e.owner, e.token, e.to, e.at, sid); }
    else { AddingMovesRow(s, e, sid); }
  }

  lemma FinalizeMovesRow(s: State, x: nat, owner: nat, token: nat, at: nat, file: nat, sid: nat)
    requires sid in s.db.rows
    ensures var t := FinalizeStep(s, x, owner, token, at, file);
            sid in t.db.rows && RowLater(s.db.rows[sid], t.db.rows[sid])
  {}

  lemma ClaimMovesRow(s: State, x: nat, owner: nat, abort: bool, token: nat, at: nat, until: nat, sid: nat)
    requires sid in s.db.rows
    ensures var t := ClaimStep(s, x, owner, abort, token, at, until);
            sid in t.db.rows && RowLater(s.db.rows[sid], t.db.rows[sid])
  {
    var t := ClaimStep(s, x, owner, abort, token, at, until);
    assert t.db.rows[sid] == s.db.rows[sid]
           || (Claimable(s.db.rows[sid], abort, at) && t.db.rows[sid] == Claimed(s.db.rows[sid], abort, token, until));
  }

  lemma FinishMovesRow(s: State, x: nat, owner: nat, token: nat, to: Phase, at: nat, sid: nat)
    requires sid in s.db.rows
    ensures var t := FinishStep(s, x, owner, token, to, at);
            sid in t.db.rows && RowLater(s.db.rows[sid], t.db.rows[sid])
  {
    var t := FinishStep(s, x, owner, token, to, at);
    assert t.db.rows[sid] == s.db.rows[sid]
           || (Leased(s.db.rows[sid].phase) && t.db.rows[sid] == Settled(s.db.rows[sid], to));
  }

  lemma AddingMovesRow(s: State, e: Event, sid: nat)
    requires sid in s.db.rows && (e.Start? || e.RegisterExisting? || e.Repoint? || e.ReleaseLease?)
    ensures sid in Step(s, e).db.rows && RowLater(s.db.rows[sid], Step(s, e).db.rows[sid])
  {
    var t := Step(s, e);
    assert t.db.rows[sid] == s.db.rows[sid]
           || (s.db.rows[sid].phase == Completing && t.db.rows[sid] == Settled(s.db.rows[sid], Active));
  }

  lemma StepKeepsFile(s: State, e: Event, f: nat)
    requires s.db.home.Keys == s.db.files.Keys
    ensures f in s.db.files ==> f in Step(s, e).db.files
    ensures f in s.db.home ==> f in Step(s, e).db.home && Step(s, e).db.home[f] == s.db.home[f]
  {
    if Quiet(e) { QuietKeepsTables(s, e); }
    else if e.Finalize? { FinalizeKeepsFile(s, e.sid, e.owner, e.token, e.at, e.file, f); }
    else if e.RegisterExisting? || e.Repoint? { AddingKeepsFile(s, e, f); }
    else { RowEventsKeepFiles(s, e); }
  }

  lemma FinalizeKeepsFile(s: State, x: nat, owner: nat, token: nat, at: nat, file: nat, f: nat)
    requires s.db.home.Keys == s.db.files.Keys
    ensures var t := FinalizeStep(s, x, owner, token, at, file);
            && (f in s.db.files ==> f in t.db.files && t.db.files[f] == s.db.files[f])
            && (f in s.db.home ==> f in t.db.home && t.db.home[f] == s.db.home[f])
  {}

  lemma AddingKeepsFile(s: State, e: Event, f: nat)
    requires s.db.home.Keys == s.db.files.Keys && (e.RegisterExisting? || e.Repoint?)
    ensures var t := Step(s, e);
            && (f in s.db.files ==> f in t.db.files)
            && (f in s.db.home ==> f in t.db.home && t.db.home[f] == s.db.home[f])
  {}

  lemma RowEventsKeepFiles(s: State, e: Event)
    requires e.Start? || e.ClaimLease? || e.ReleaseLease? || e.Finish?
    ensures Step(s, e).db.files == s.db.files && Step(s, e).db.home == s.db.home
            && Step(s, e).verdicts.returned == s.verdicts.returned
  {}

  lemma StepWaits(s: State, e: Event)
    ensures s.now <= Step(s, e).now
  {
    if Quiet(e) { QuietKeepsTables(s, e); }
  }

  lemma StepLater(s: State, e: Event)
    requires s.db.home.Keys == s.db.files.Keys
    ensures Later(s, Step(s, e))
  {
    StepWaits(s, e);
    forall sid | sid in s.db.rows
      ensures sid in Step(s, e).db.rows && RowLater(s.db.rows[sid], Step(s, e).db.rows[sid])
    {
      StepMovesRow(s, e, sid);
    }
    forall f | f in s.db.files ensures f in Step(s, e).db.files { StepKeepsFile(s, e, f); }
    forall f | f in s.db.home ensures f in Step(s, e).db.home && Step(s, e).db.home[f] == s.db.home[f] {
      StepKeepsFile(s, e, f);
    }
  }

  lemma {:induction false} RunLater(s: State, es: seq<Event>)
    requires Inv(s)
    ensures Inv(Run(s, es)) && Later(s, Run(s, es))
    decreases |es|
  {
    if es != [] {
      RunLater(s, es[..|es| - 1]);
      StepPreservesInv(Run(s, es[..|es| - 1]), es[|es| - 1]);
      StepLater(Run(s, es[..|es| - 1]), es[|es| - 1]);
    }
  }

  /** Completed, aborted and expired sessions never change again, and a session
      that has begun aborting can only end aborted or expired. */
  lemma TerminalIsAbsorbing(es: seq<Event>, more: seq<Event>, sid: nat)
    requires sid in Run(Init(), es).db.rows
    ensures var s, t := Run(Init(), es), Run(Run(Init(), es), more);
            && sid in t.db.rows
            && (Terminal(s.db.rows[sid].phase) ==> t.db.rows[sid] == s.db.rows[sid])
            && (s.db.rows[sid].phase == Aborting ==> !(t.db.rows[sid].phase in {Active, Completing, Completed}))
  {
    Reachable(es);
    RunLater(Run(Init(), es), more);
  }

  /** Completed sessions and registered files correspond one to one. */
  lemma FilesMatchCompletedSessions(es: seq<Event>, sid: nat, f: nat)
    ensures var s := Run(Init(), es);
            && (sid in s.db.rows && s.db.rows[sid].file == Some(f) <==>
                 f in s.db.files && f in s.db.home && s.db.home[f] == sid)
            && (sid in s.db.rows ==> (s.db.rows[sid].phase == Completed <==> s.db.rows[sid].file.Some?))
            && (sid in s.db.rows && s.db.rows[sid].file == Some(f) ==> s.db.files[f].owner == s.db.rows[sid].owner)
  {
    Reachable(es);
    var s := Run(Init(), es);
    if sid in s.db.rows { assert RowOk(s, sid, s.db.rows[sid]); }
  }

  /** Any two successful finalizes of one session, however late the second and
      whoever's token it carries, return the same file. */
  lemma CompletionsAgree(es: seq<Event>, sid: nat, owner: nat, token: nat, at: nat, file: nat,
                         more: seq<Event>, owner': nat, token': nat, at': nat, file': nat)
    requires var s := Run(Init(), es);
             FinalizeResult(s, sid, owner, token, at, file).Some?
    requires var t := Run(Step(Run(Init(), es), Finalize(sid, owner, token, at, file)), more);
             FinalizeResult(t, sid, owner', token', at', file').Some?
    ensures var s := Run(Init(), es);
            var t := Run(Step(s, Finalize(sid, owner, token, at, file)), more);
            FinalizeResult(s, sid, owner, token, at, file) == FinalizeResult(t, sid, owner', token', at', file')
  {
    Reachable(es);
    var s := Run(Init(), es);
    var s1 := Step(s, Finalize(sid, owner, token, at, file));
    FinalizeStores(s, sid, owner, token, at, file);
    StepPreservesInv(s, Finalize(sid, owner, token, at, file));
    RunLater(s1, more);
    assert RowLater(s1.db.rows[sid], Run(s1, more).db.rows[sid]);
  }

  /** After a successful finalize the row is completed with the returned file. */
  lemma FinalizeStores(s: State, sid: nat, owner: nat, token: nat, at: nat, file: nat)
    requires FinalizeResult(s, sid, owner, token, at, file).Some?
    ensures var t := FinalizeStep(s, sid, owner, token, at, file);
            sid in t.db.rows && t.db.rows[sid].phase == Completed
                && t.db.rows[sid].file == FinalizeResult(s, sid, owner, token, at, file)
  {}

  // ------------------------------------------------------------------- leases

  /** The current token of a leased row was given out by a claim on that row. */
  ghost predicate Backed(s: State) {
    forall sid :: sid in s.db.rows && s.db.rows[sid].token != 0 ==> BackedBy(s, sid)
  }

  ghost predicate BackedBy(s: State, sid: nat)
    requires sid in s.db.rows
  {
    exists i :: 0 <= i < |s.leases.claims| && s.leases.claims[i].sid == sid
        && s.leases.claims[i].token == s.db.rows[sid].token
  }

  /** Claims keep their place, session and token for ever. */
  lemma StepExtendsClaims(s: State, e: Event, i: nat)
    requires i < |s.leases.claims|
    ensures var t := Step(s, e);
            && i < |t.leases.claims|
            && t.leases.claims[i].sid == s.leases.claims[i].sid && t.leases.claims[i].token == s.leases.claims[i].token
  {
    if Quiet(e) { QuietKeepsTables(s, e); }
  }

  predicate NewlyClaimed(s: State, t: State, sid: nat)
    requires sid in t.db.rows
  {
    && |t.leases.claims| == |s.leases.claims| + 1
    && t.leases.claims[|s.leases.claims|].sid == sid
    && t.leases.claims[|s.leases.claims|].token == t.db.rows[sid].token
  }

  /** A row's token is kept, cleared, or set by the claim just made. */
  lemma StepTokens(s: State, e: Event, sid: nat)
    requires sid in Step(s, e).db.rows && Step(s, e).db.rows[sid].token != 0
    ensures var t := Step(s, e);
            || (sid in s.db.rows && s.db.rows[sid].token == t.db.rows[sid].token)
            || NewlyClaimed(s, t, sid)
  {
    if Quiet(e) { QuietKeepsTables(s, e); }
    else if e.ClaimLease? { ClaimTokens(s, e.sid, e.owner, e.abort, e.token, e.at, e.until, sid); }
    else { OnlyClaimsSetTokens(s, e, sid); }
  }

  lemma OnlyClaimsSetTokens(s: State, e: Event, sid: nat)
    requires !Quiet(e) && !e.ClaimLease? && sid in Step(s, e).db.rows
    ensures Step(s, e).db.rows[sid].token == 0 || (sid in s.db.rows && s.db.rows[sid] == Step(s, e).db.rows[sid])
  {}

  lemma ClaimTokens(s: State, x: nat, owner: nat, abort: bool, token: nat, at: nat, until: nat, sid: nat)
    ensures var t := ClaimStep(s, x, owner, abort, token, at, until);
            sid in t.db.rows ==>
              (sid in s.db.rows && s.db.rows[sid].token == t.db.rows[sid].token)
              || NewlyClaimed(s, t, sid)
  {}

  lemma StepKeepsBackedBy(s: State, e: Event, sid: nat)
    requires Backed(s) && sid in Step(s, e).db.rows && Step(s, e).db.rows[sid].token != 0
    ensures BackedBy(Step(s, e), sid)
  {
    StepTokens(s, e, sid);
    if sid in s.db.rows && s.db.rows[sid].token == Step(s, e).db.rows[sid].token {
      assert BackedBy(s, sid);
      var i :| 0 <= i < |s.leases.claims| && s.leases.claims[i].sid == sid
          && s.leases.claims[i].token == s.db.rows[sid].token;
      StepExtendsClaims(s, e, i);
    }
  }

  lemma StepKeepsBacked(s: State, e: Event)
    requires Backed(s)
    ensures Backed(Step(s, e))
  {
    forall sid | sid in Step(s, e).db.rows && Step(s, e).db.rows[sid].token != 0 ensures BackedBy(Step(s, e), sid) {
      StepKeepsBackedBy(s, e, sid);
    }
  }

  lemma {:induction false} ReachableBacked(es: seq<Event>)
    ensures Inv(Run(Init(), es)) && Backed(Run(Init(), es))
    decreases |es|
  {
    if es != [] {
      ReachableBacked(es[..|es| - 1]);
      StepPreservesInv(Run(Init(), es[..|es| - 1]), es[|es| - 1]);
      StepKeepsBacked(Run(Init(), es[..|es| - 1]), es[|es| - 1]);
    }
  }

  /** Two unreleased leases on one session never overlap in time. */
  lemma LeasesNeverOverlap(es: seq<Event>, i: nat, j: nat)
    requires i < j < |Run(Init(), es).leases.claims|
    requires var s := Run(Init(), es); s.leases.claims[i].sid == s.leases.claims[j].sid && !s.leases.claims[i].released
    ensures var s := Run(Init(), es); s.leases.claims[i].until <= s.leases.claims[j].since
  {
    Reachable(es);
  }

  /** A release, finish or registering finalize that takes effect carries the
      token of the newest claim on the session. */
  lemma OnlyLatestClaimActs(es: seq<Event>, e: Event, sid: nat)
    requires var s := Run(Init(), es);
             sid in s.db.rows && Step(s, e).db.rows != s.db.rows
             && match e
                case ReleaseLease(x, _, _) => x == sid
                case Finish(x, _, _, _, _) => x == sid
                case Finalize(x, _, _, _, _) => x == sid
                case _ => false
    ensures var s := Run(Init(), es);
            exists i :: 0 <= i < |s.leases.claims| && s.leases.claims[i].sid == sid
                && s.leases.claims[i].token == e.token
                        && (forall j :: i < j < |s.leases.claims| ==> s.leases.claims[j].sid != sid)
  {
    ReachableBacked(es);
    var s := Run(Init(), es);
    assert RowOk(s, sid, s.db.rows[sid]);
    assert s.db.rows[sid].token == e.token != 0;
    assert BackedBy(s, sid);
    var i :| 0 <= i < |s.leases.claims| && s.leases.claims[i].sid == sid
        && s.leases.claims[i].token == s.db.rows[sid].token;
    assert forall j :: i < j < |s.leases.claims| ==> s.leases.claims[j].sid != sid;
  }

  /** Whatever cleanup lists can be claimed for aborting at that instant. */
  lemma ListedIsClaimable(es: seq<Event>, sid: nat, before: nat, token: nat, until: nat)
    requires var s := Run(Init(), es);
             sid in s.db.rows && Listed(s.db.rows[sid], before, s.now) && token != 0 && token !in s.leases.tokens
                 && until > s.now
    ensures ClaimSucceeds(Run(Init(), es), sid, true, token, until)
  {
    Reachable(es);
    var s := Run(Init(), es);
    assert RowOk(s, sid, s.db.rows[sid]);
    FreeRowIsClaimed(s, sid, true, token, until);
  }

  /** Cleanup lists exactly the overdue sessions that are not finished and not held
      by a running lease. */
  lemma ListedIff(es: seq<Event>, sid: nat, before: nat)
    requires sid in Run(Init(), es).db.rows
    ensures var s := Run(Init(), es);
            var r := s.db.rows[sid];
            Listed(r, before, s.now) <==>
              && r.expiresAt < before && r.phase != Completed && r.phase != Aborted && r.phase != Expired
              && (r.lease.Some? ==> r.lease.value <= s.now)
  {
    Reachable(es);
    assert RowOk(Run(Init(), es), sid, Run(Init(), es).db.rows[sid]);
  }

  /** A session starts active, without lease or file, under a path of its own. */
  lemma StartIff(s: State, sid: nat, owner: nat, p: nat, expiresAt: nat)
    ensures Step(s, Start(sid, owner, p, expiresAt)) ==
            if sid in s.db.rows || p in s.paths.generated || p in s.paths.trusted then s
            else s.(db := s.db.(rows := s.db.rows[sid := Row(owner, p, false, expiresAt, Active, 0, None, None)]),
                    paths := s.paths.(generated := s.paths.generated[p := sid]))
  {}

  /** Nobody but its owner changes a session, its file or its lease. */
  lemma StrangersChangeNothing(s: State, e: Event, sid: nat)
    requires sid in s.db.rows
    requires match e
             case ClaimLease(x, owner, _, _, _, _) => x == sid && owner != s.db.rows[sid].owner
             case ReleaseLease(x, owner, _) => x == sid && owner != s.db.rows[sid].owner
             case Finalize(x, owner, _, _, _) => x == sid && owner != s.db.rows[sid].owner
             case Finish(x, owner, _, _, _) => x == sid && owner != s.db.rows[sid].owner
             case RegisterExisting(x, _, _, _) => x == sid
             case Repoint(x, owner, _, _, _) => x == sid && owner != s.db.rows[sid].owner
             case _ => false
    ensures Step(s, e).db == s.db && Step(s, e).leases.claims == s.leases.claims
  {
    match e
    case ClaimLease(x, owner, abort, token, at, until) => assert !MayClaim(s, x, owner, abort, token, at, until);
    case Finalize(x, owner, token, at, file) => assert FinalizeResult(s, x, owner, token, at, file).None?;
    case _ =>
  }

  /** No session is stuck: an unfinished one can be aborted as soon as its lease,
      if any, has run out, and an unfinished one not yet aborting can be completed. */
  lemma NothingIsStuck(es: seq<Event>, sid: nat, token: nat, until: nat, abort: bool)
    requires sid in Run(Init(), es).db.rows && Unfinished(Run(Init(), es), sid, abort)
    requires token != 0 && token !in Run(Init(), es).leases.tokens && until > Run(Init(), es).now
    ensures ClaimSucceeds(Run(Init(), es), sid, abort, token, until)
  {
    Reachable(es);
    assert RowOk(Run(Init(), es), sid, Run(Init(), es).db.rows[sid]);
    FreeRowIsClaimed(Run(Init(), es), sid, abort, token, until);
  }

  /** Not terminal, not held by a running lease, and not already being aborted if
      it is to be completed. */
  predicate Unfinished(s: State, sid: nat, abort: bool)
    requires sid in s.db.rows
  {
    && !Terminal(s.db.rows[sid].phase) && (abort || s.db.rows[sid].phase != Aborting)
    && (s.db.rows[sid].lease.Some? ==> s.db.rows[sid].lease.value <= s.now)
  }

  ghost predicate ClaimSucceeds(s: State, sid: nat, abort: bool, token: nat, until: nat)
    requires sid in s.db.rows
  {
    var t := Step(s, ClaimLease(sid, s.db.rows[sid].owner, abort, token, s.now, until));
    sid in t.db.rows && t.db.rows[sid].phase == (if abort then Aborting else Completing)
        && t.db.rows[sid].token == token
  }

  lemma FreeRowIsClaimed(s: State, sid: nat, abort: bool, token: nat, until: nat)
    requires sid in s.db.rows && Claimable(s.db.rows[sid], abort, s.now) && token != 0 && token !in s.leases.tokens
             && until > s.now
    ensures ClaimSucceeds(s, sid, abort, token, until)
  {}
}
