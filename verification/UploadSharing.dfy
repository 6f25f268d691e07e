/** When a file's object is safe for good: the exact condition, for every file in
    every reachable state, and for registering an existing object. */
module UploadSharing {
  import opened Options
  import opened UploadMachine
  import opened UploadSafety
  import opened UploadObjects

  predicate FileAt(s: State, r: Row, p: nat) {
    r.file.Some? && r.file.value in s.db.files && s.db.files[r.file.value].path == p
  }

  /** Completer `c` will not drop the upload at `p`: it was handed the file there, or
      it will be if it still finalizes. */
  predicate Harmless(s: State, c: nat, p: nat, there: bool) {
    (c in s.verdicts.returned ==> s.verdicts.returned[c] == p) && (Pending(s, c) ==> there)
  }

  /** Nobody is left who would delete the upload `p` of session `sid`. */
  ghost predicate SessionSpares(s: State, sid: nat, p: nat)
    requires sid in s.db.rows
  {
    var r := s.db.rows[sid];
    && r.phase == Completed
    && forall c :: c in s.leases.completers && s.leases.completers[c] == sid ==> Harmless(s, c, p, FileAt(s, r, p))
  }

  /** No delete was sent to `p` and, if it is an upload path, its session spares it. */
  ghost predicate Spared(s: State, p: nat) {
    && p !in s.store.deletes
    && (p in s.paths.generated ==> s.paths.generated[p] in s.db.rows && SessionSpares(s, s.paths.generated[p], p))
  }

  predicate NoRepoint(es: seq<Event>) { forall i :: 0 <= i < |es| ==> !es[i].Repoint? }

  /** Steps any client, completer, aborter or cleaner takes, without trusted callers. */
  predicate Ordinary(es: seq<Event>) {
    forall i :: 0 <= i < |es| ==> !es[i].Repoint? && !es[i].RegisterExisting? && !es[i].VerifyTrusted?
  }

  predicate LostObject(s: State, file: nat) { file in s.db.files && s.db.files[file].path !in s.store.objects }

  // -------------------------------------------------------- spared stays spared

  lemma SparedIsNotDeleted(s: State, e: Event, p: nat)
    requires Base(s) && Spared(s, p)
    ensures p !in DeletesAfter(s, e)
  {
    match e
    case DropTemporary(token) =>
      if token in s.verdicts.returned {
        assert ReturnOk(s, token) && CompleterOk(s, token) && RowPathOk(s, s.leases.completers[token]);
        assert p in s.paths.generated && s.paths.generated[p] == s.leases.completers[token] ==>
                 Harmless(s, token, p, FileAt(s, CompleterRow(s, token), p));
      }
    case IssueDelete(token) =>
      if token in s.leases.aborters && s.leases.aborters[token] in s.db.rows {
        assert RowPathOk(s, s.leases.aborters[token]) && AborterOk(s, token);
      }
    case _ =>
  }

  lemma NoCompleterOfTerminal(s: State, e: Event, sid: nat, c: nat)
    requires sid in s.db.rows && Terminal(s.db.rows[sid].phase)
    requires c in Step(s, e).leases.completers && Step(s, e).leases.completers[c] == sid
    ensures c in s.leases.completers
  {
    if !e.ClaimLease? { OnlyClaimsAddCompleters(s, e); }
  }

  lemma FinalizeHandsOut(s: State, sid: nat, owner: nat, token: nat, at: nat, file: nat, c: nat)
    requires c in FinalizeStep(s, sid, owner, token, at, file).verdicts.returned && c !in s.verdicts.returned
    ensures c == token && Pending(s, c) && s.leases.completers[c] == sid && sid in s.db.rows
    ensures var t := FinalizeStep(s, sid, owner, token, at, file);
            s.db.rows[sid].phase == Completed ==> FileAt(s, s.db.rows[sid], t.verdicts.returned[c])
  {}

  lemma FinalizeKeepsReturned(s: State, sid: nat, owner: nat, token: nat, at: nat, file: nat, c: nat)
    requires c in s.verdicts.returned
    ensures var t := FinalizeStep(s, sid, owner, token, at, file);
            c in t.verdicts.returned && t.verdicts.returned[c] == s.verdicts.returned[c]
  {}

  /** What a completer was handed, it was handed once and for all. */
  lemma ReturnIsFinal(s: State, e: Event, c: nat)
    requires c in s.verdicts.returned
    ensures c in Step(s, e).verdicts.returned && Step(s, e).verdicts.returned[c] == s.verdicts.returned[c]
  {
    if e.Finalize? {
      FinalizeKeepsReturned(s, e.sid, e.owner, e.token, e.at, e.file, c);
    } else {
      OnlyFinalizeReturns(s, e);
    }
  }

  lemma PendingWasPending(s: State, e: Event, c: nat)
    requires c in s.leases.completers && Pending(Step(s, e), c)
    ensures Pending(s, c)
  {
    StepKeepsRetired(s, e);
    if c in s.verdicts.returned { ReturnIsFinal(s, e, c); }
  }

  /** A harmless completer of a completed session stays harmless while the
      session's file is where it was, or is moved to `p`. */
  lemma HarmlessStays(s: State, e: Event, sid: nat, c: nat, p: nat)
    requires c in s.leases.completers && s.leases.completers[c] == sid && sid in s.db.rows
             && s.db.rows[sid].phase == Completed
    requires Harmless(s, c, p, FileAt(s, s.db.rows[sid], p))
    requires sid in Step(s, e).db.rows
    requires Pending(s, c) && FileAt(s, s.db.rows[sid], p) ==> FileAt(Step(s, e), Step(s, e).db.rows[sid], p)
    ensures Harmless(Step(s, e), c, p, FileAt(Step(s, e), Step(s, e).db.rows[sid], p))
  {
    var t := Step(s, e);
    if c in s.verdicts.returned {
      ReturnIsFinal(s, e, c);
    } else if c in t.verdicts.returned {
      if !e.Finalize? { OnlyFinalizeReturns(s, e); }
      FinalizeHandsOut(s, e.sid, e.owner, e.token, e.at, e.file, c);
    }
    if Pending(t, c) { PendingWasPending(s, e, c); }
  }

  /** The step does not move the file of session `sid` away from `p` while some
      completer of it is pending. */
  predicate LeavesFile(s: State, e: Event, sid: nat, p: nat)
    requires sid in s.db.rows
  {
    e.Repoint? && s.db.rows[sid].file == Some(e.file) && e.path != p && s.db.rows[sid].phase == Completed ==>
      forall c :: c in s.leases.completers && s.leases.completers[c] == sid ==> !Pending(s, c)
  }

  lemma FileStaysAt(s: State, e: Event, sid: nat, p: nat)
    requires Inv(s) && sid in s.db.rows && s.db.rows[sid].phase == Completed && FileAt(s, s.db.rows[sid], p)
    requires !(e.Repoint? && s.db.rows[sid].file == Some(e.file) && e.path != p)
    ensures sid in Step(s, e).db.rows && FileAt(Step(s, e), Step(s, e).db.rows[sid], p)
  {
    var f := s.db.rows[sid].file.value;
    StepMovesRow(s, e, sid);
    if !(e.Repoint? && e.file == f) { OnlyRepointMoves(s, e, f); }
  }

  lemma SessionStaysSparing(s: State, e: Event, sid: nat, p: nat)
    requires Inv(s) && sid in s.db.rows && SessionSpares(s, sid, p) && LeavesFile(s, e, sid, p)
    ensures sid in Step(s, e).db.rows && SessionSpares(Step(s, e), sid, p)
  {
    var t := Step(s, e);
    StepMovesRow(s, e, sid);
    if s.db.rows[sid].phase == Completed {
      forall c | c in t.leases.completers && t.leases.completers[c] == sid
        ensures Harmless(t, c, p, FileAt(t, t.db.rows[sid], p))
      {
        NoCompleterOfTerminal(s, e, sid, c);
        StepKeepsCompleter(s, e, c);
        if Pending(s, c) && FileAt(s, s.db.rows[sid], p) { FileStaysAt(s, e, sid, p); }
        HarmlessStays(s, e, sid, c, p);
      }
    }
  }

  /** Once nobody can delete a known path, nobody ever can, unless the session's
      own file is moved away under a pending completer. */
  lemma SparedStays(s: State, e: Event, p: nat)
    requires Base(s) && Spared(s, p) && (Known(s, p) || !e.Start?)
    requires p in s.paths.generated ==> LeavesFile(s, e, s.paths.generated[p], p)
    ensures Spared(Step(s, e), p)
  {
    DeletesComeFrom(s, e);
    SparedIsNotDeleted(s, e, p);
    if p in s.paths.generated {
      StepKeepsGenerated(s, e, p);
      SessionStaysSparing(s, e, s.paths.generated[p], p);
    } else {
      StaysOutside(s, e, p);
    }
  }

  lemma StaysOutside(s: State, e: Event, p: nat)
    requires p !in s.paths.generated && (p in s.paths.trusted || !e.Start?)
    ensures p !in Step(s, e).paths.generated
  {
    if !e.Start? { OnlyStartGenerates(s, e); }
  }

  lemma {:induction false} SparedForGood(s: State, more: seq<Event>, f: nat)
    requires Base(s) && NoRepoint(more) && f in s.db.files
    requires s.db.files[f].path in s.store.objects && Spared(s, s.db.files[f].path)
    ensures var t := Run(s, more);
            && Base(t) && f in t.db.files && t.db.files[f].path == s.db.files[f].path
            && t.db.files[f].path in t.store.objects && Spared(t, t.db.files[f].path)
    decreases |more|
  {
    if more != [] {
      var front, e := more[..|more| - 1], more[|more| - 1];
      SparedForGood(s, front, f);
      var t := Run(s, front);
      StepKeepsBase(t, e);
      OnlyRepointMoves(t, e, f);
      StepKeepsObject(t, e, t.db.files[f].path);
      SparedStays(t, e, t.db.files[f].path);
    }
  }

  // ------------------------------------------------------- not spared is exposed

  lemma RunOne(s: State, a: Event)
    ensures Run(s, [a]) == Step(s, a)
  {
    assert [a][..0] == [] && Run(s, []) == s;
  }

  lemma RunTwo(s: State, a: Event, b: Event)
    ensures Run(s, [a, b]) == Step(Step(s, a), b)
  {
    assert [a, b][..1] == [a];
    RunOne(s, a);
  }

  lemma RunFour(s: State, a: Event, b: Event, c: Event, d: Event)
    ensures Run(s, [a, b, c, d]) == Step(Step(Step(Step(s, a), b), c), d)
  {
    assert [a, b, c, d][..3] == [a, b, c] && [a, b, c][..2] == [a, b];
    RunTwo(s, a, b);
    assert Run(s, [a, b, c]) == Step(Run(s, [a, b]), c);
  }

  /** A sent delete lands. */
  lemma LosesToDelete(s: State, f: nat) returns (more: seq<Event>)
    requires f in s.db.files && s.db.files[f].path in s.store.deletes
    ensures Ordinary(more) && LostObject(Run(s, more), f)
  {
    var e := DeleteLands(s.db.files[f].path);
    more := [e];
    RunOne(s, e);
    assert Step(s, e) == QuietStep(s, e);
  }

  /** A completer that was handed another file drops the upload. */
  lemma LosesToDrop(s: State, f: nat, c: nat) returns (more: seq<Event>)
    requires f in s.db.files && CompleterOf(s, c) && CompleterRow(s, c).path == s.db.files[f].path
    requires c in s.verdicts.returned && s.verdicts.returned[c] != s.db.files[f].path
    ensures Ordinary(more) && LostObject(Run(s, more), f)
  {
    var p := s.db.files[f].path;
    more := [DropTemporary(c), DeleteLands(p)];
    RunTwo(s, DropTemporary(c), DeleteLands(p));
    var s1 := Step(s, DropTemporary(c));
    assert s1 == QuietStep(s, DropTemporary(c)) && p in s1.store.deletes && s1.db == s.db;
    assert Step(s1, DeleteLands(p)) == QuietStep(s1, DeleteLands(p));
  }

  /** A stale completer verifies its upload, finds the session completed elsewhere
      and drops the upload. */
  lemma LosesToStale(s: State, f: nat, c: nat) returns (more: seq<Event>)
    requires f in s.db.files && s.db.files[f].path in s.store.objects
    requires CompleterOf(s, c) && Pending(s, c) && CompleterRow(s, c).path == s.db.files[f].path
    requires CompleterRow(s, c).phase == Completed && CompleterRow(s, c).file.Some?
             && CompleterRow(s, c).file.value in s.db.files
    requires !FileAt(s, CompleterRow(s, c), s.db.files[f].path)
    ensures Ordinary(more) && LostObject(Run(s, more), f)
  {
    var p := s.db.files[f].path;
    var sid := s.leases.completers[c];
    var finalize := Finalize(sid, s.db.rows[sid].owner, c, s.now, 0);
    var s1 := Step(s, Verify(c));
    assert s1 == QuietStep(s, Verify(c)) && s1.db == s.db && s1.leases == s.leases && c in s1.verdicts.verified;
    var s2 := StaleFinalize(s1, c, p);
    var s3 := Step(s2, DropTemporary(c));
    assert s3 == QuietStep(s2, DropTemporary(c)) && p in s3.store.deletes && s3.db == s.db;
    assert Step(s3, DeleteLands(p)) == QuietStep(s3, DeleteLands(p));
    more := [Verify(c), finalize, DropTemporary(c), DeleteLands(p)];
    RunFour(s, Verify(c), finalize, DropTemporary(c), DeleteLands(p));
  }

  lemma StaleFinalize(s: State, c: nat, p: nat) returns (t: State)
    requires CompleterOf(s, c) && Pending(s, c) && c in s.verdicts.verified
    requires CompleterRow(s, c).phase == Completed && CompleterRow(s, c).file.Some?
             && CompleterRow(s, c).file.value in s.db.files
    requires !FileAt(s, CompleterRow(s, c), p)
    ensures t == Step(s, Finalize(s.leases.completers[c], CompleterRow(s, c).owner, c, s.now, 0))
    ensures t.db == s.db && t.leases == s.leases && c in t.verdicts.returned && t.verdicts.returned[c] != p
  {
    t := FinalizeStep(s, s.leases.completers[c], CompleterRow(s, c).owner, c, s.now, 0);
  }

  lemma {:induction false} FreshToken(tokens: set<nat>) returns (token: nat)
    ensures token != 0 && token !in tokens && forall t :: t in tokens ==> t < token
    decreases tokens
  {
    if tokens == {} { return 1; }
    var x :| x in tokens;
    var rest := FreshToken(tokens - {x});
    token := if rest <= x then x + 1 else rest;
    forall t | t in tokens ensures t < token { assert t == x || t in tokens - {x}; }
  }

  /** An aborter, however late, deletes the upload. */
  lemma LosesToAborter(s: State, f: nat, token: nat) returns (more: seq<Event>)
    requires f in s.db.files && token in s.leases.aborters && s.leases.aborters[token] in s.db.rows
    requires !s.db.rows[s.leases.aborters[token]].reused
    requires s.db.rows[s.leases.aborters[token]].path == s.db.files[f].path
    ensures Ordinary(more) && LostObject(Run(s, more), f)
  {
    var p := s.db.files[f].path;
    var s1 := Step(s, IssueDelete(token));
    assert s1 == QuietStep(s, IssueDelete(token)) && p in s1.store.deletes && s1.db == s.db;
    assert Step(s1, DeleteLands(p)) == QuietStep(s1, DeleteLands(p));
    more := [IssueDelete(token), DeleteLands(p)];
    RunTwo(s, IssueDelete(token), DeleteLands(p));
  }

  /** An unfinished upload is aborted once its lease, if any, has run out. */
  lemma LosesToAbort(s: State, f: nat, sid: nat, wait: nat) returns (more: seq<Event>)
    requires sid in s.db.rows && Claimable(s.db.rows[sid], true, s.now + wait) && !s.db.rows[sid].reused
    requires f in s.db.files && s.db.files[f].path == s.db.rows[sid].path
    ensures Ordinary(more) && LostObject(Run(s, more), f)
  {
    var token := FreshToken(s.leases.tokens);
    var claim := ClaimLease(sid, s.db.rows[sid].owner, true, token, s.now + wait, s.now + wait + 1);
    var s1 := ClaimedForAbort(s, sid, wait, token);
    var rest := LosesToAborter(s1, f, token);
    more := [Tick(wait), claim] + rest;
    RunTwo(s, Tick(wait), claim);
    RunConcat(s, [Tick(wait), claim], rest);
  }

  lemma {:induction false} RunConcat(s: State, a: seq<Event>, b: seq<Event>)
    ensures Run(s, a + b) == Run(Run(s, a), b)
    decreases |b|
  {
    if b == [] {
      assert a + b == a;
    } else {
      assert (a + b)[..|a + b| - 1] == a + b[..|b| - 1];
      RunConcat(s, a, b[..|b| - 1]);
    }
  }

  lemma FreeAfter(r: Row, now: nat) returns (wait: nat)
    requires Shaped(r) && !Terminal(r.phase)
    ensures Claimable(r, true, now + wait)
  {
    wait := if r.lease.Some? && r.lease.value > now then r.lease.value - now else 0;
  }

  lemma ClaimedForAbort(s: State, sid: nat, wait: nat, token: nat) returns (t: State)
    requires sid in s.db.rows && Claimable(s.db.rows[sid], true, s.now + wait)
    requires token != 0 && token !in s.leases.tokens
    ensures var claim := ClaimLease(sid, s.db.rows[sid].owner, true, token, s.now + wait, s.now + wait + 1);
            t == Step(Step(s, Tick(wait)), claim)
    ensures sid in t.db.rows && t.db.rows[sid] == Claimed(s.db.rows[sid], true, token, s.now + wait + 1)
    ensures token in t.leases.aborters && t.leases.aborters[token] == sid && t.db.files == s.db.files
  {
    var s0 := QuietStep(s, Tick(wait));
    assert Step(s, Tick(wait)) == s0 && s0.db == s.db && s0.leases == s.leases && s0.now == s.now + wait;
    t := ClaimStep(s0, sid, s.db.rows[sid].owner, true, token, s.now + wait, s.now + wait + 1);
  }

  lemma Exposing(s: State, f: nat) returns (more: seq<Event>)
    requires Base(s) && f in s.db.files && s.db.files[f].path in s.store.objects && !Spared(s, s.db.files[f].path)
    ensures Ordinary(more) && LostObject(Run(s, more), f)
  {
    var p := s.db.files[f].path;
    if p in s.store.deletes {
      more := LosesToDelete(s, f);
    } else {
      var sid := s.paths.generated[p];
      assert GeneratedOk(s, p) && RowOk(s, sid, s.db.rows[sid]);
      if s.db.rows[sid].phase == Completed {
        var c :| c in s.leases.completers && s.leases.completers[c] == sid
            && !Harmless(s, c, p, FileAt(s, s.db.rows[sid], p));
        if c in s.verdicts.returned && s.verdicts.returned[c] != p {
          more := LosesToDrop(s, f, c);
        } else {
          more := LosesToStale(s, f, c);
        }
      } else if GivenUp(s.db.rows[sid].phase) {
        assert HasAborter(s, sid);
        var token :| token in s.leases.aborters && s.leases.aborters[token] == sid;
        more := LosesToAborter(s, f, token);
      } else {
        var wait := FreeAfter(s.db.rows[sid], s.now);
        more := LosesToAbort(s, f, sid, wait);
      }
    }
  }

  // ---------------------------------------------------------------- theorems

  /** Whatever happens short of repointing, the file keeps its object. */
  ghost predicate SafeForGood(s: State, f: nat) { forall more :: NoRepoint(more) ==> !LostObject(Run(s, more), f) }

  lemma SafeIffSpared(s: State, f: nat)
    requires Base(s) && f in s.db.files
    ensures SafeForGood(s, f) <==> s.db.files[f].path in s.store.objects && Spared(s, s.db.files[f].path)
    ensures !SafeForGood(s, f) ==> exists more :: Ordinary(more) && LostObject(Run(s, more), f)
  {
    if s.db.files[f].path !in s.store.objects {
      assert Run(s, []) == s && Ordinary([]) && NoRepoint([]) && LostObject(Run(s, []), f);
    } else if Spared(s, s.db.files[f].path) {
      forall more | NoRepoint(more) ensures !LostObject(Run(s, more), f) { SparedForGood(s, more, f); }
    } else {
      var more := Exposing(s, f);
      assert NoRepoint(more);
    }
  }

  /** In every reachable state, for every file: its object survives everything short
      of repointing exactly when it is there and its path is spared; otherwise
      ordinary clients, completers, aborters and cleaners can lose it. */
  lemma FileIsSafeIff(es: seq<Event>, f: nat)
    requires f in Run(Init(), es).db.files
    ensures var s := Run(Init(), es);
            && (SafeForGood(s, f) <==> s.db.files[f].path in s.store.objects && Spared(s, s.db.files[f].path))
            && (!SafeForGood(s, f) ==> exists more :: Ordinary(more) && LostObject(Run(s, more), f))
  {
    ReachableBase(es);
    SafeIffSpared(Run(Init(), es), f);
  }

  lemma SharingKeepsSpared(s: State, p: nat, newcomer: nat, owner: nat, file: nat)
    requires Base(s) && newcomer !in s.db.rows && file !in s.db.files
    ensures Spared(RegisterStep(s, newcomer, owner, p, file), p) <==> Spared(s, p)
  {
    var t := RegisterStep(s, newcomer, owner, p, file);
    if p in s.paths.generated {
      var sid := s.paths.generated[p];
      assert GeneratedOk(s, p) && RowOk(s, sid, s.db.rows[sid]);
      assert t.db.rows[sid] == s.db.rows[sid];
      forall c
        ensures Harmless(t, c, p, FileAt(t, t.db.rows[sid], p)) <==> Harmless(s, c, p, FileAt(s, s.db.rows[sid], p))
      {}
    }
  }

  /** Registering an existing object, in any reachable state: the new file is safe
      for good exactly when the object is there and its path is spared. */
  lemma SharingIsSafeIff(es: seq<Event>, p: nat, newcomer: nat, owner: nat, file: nat)
    requires newcomer !in Run(Init(), es).db.rows && file !in Run(Init(), es).db.files
    ensures var s := Run(Init(), es);
            var t := Step(s, RegisterExisting(newcomer, owner, p, file));
            && (SafeForGood(t, file) <==> p in s.store.objects && Spared(s, p))
            && (!SafeForGood(t, file) ==> exists more :: Ordinary(more) && LostObject(Run(t, more), file))
  {
    ReachableBase(es);
    var s := Run(Init(), es);
    var e := RegisterExisting(newcomer, owner, p, file);
    StepKeepsBase(s, e);
    TablesKeepObjects(s, e);
    SharingKeepsSpared(s, p, newcomer, owner, file);
    SafeIffSpared(Step(s, e), file);
  }

  /** A concrete loss: the object of an upload that was just put is registered for
      someone else, and an abort takes it away. */
  lemma UnfinishedUploadIsExposed()
    ensures var s := Run(Init(), [Start(1, 7, 5, 100), Put(5)]);
            var t := Step(s, RegisterExisting(2, 7, 5, 1));
            !LostObject(t, 1) && exists more :: Ordinary(more) && LostObject(Run(t, more), 1)
  {
    var es := [Start(1, 7, 5, 100), Put(5)];
    RunTwo(Init(), Start(1, 7, 5, 100), Put(5));
    var s := Run(Init(), es);
    assert s == QuietStep(StartStep(Init(), 1, 7, 5, 100), Put(5));
    assert 5 in s.paths.generated && s.paths.generated[5] == 1 && s.db.rows[1].phase == Active
           && !SessionSpares(s, 1, 5);
    SharingIsSafeIff(es, 5, 2, 7, 1);
    TablesKeepObjects(s, RegisterExisting(2, 7, 5, 1));
  }
}
