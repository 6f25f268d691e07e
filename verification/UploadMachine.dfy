/** Upload sessions, registered files and stored objects under any interleaving
    of completers, aborters, cleaners and slow object deletes.  Every conditional
    UPDATE or transaction is one step; everything a service does between two of
    them (reading a row, verifying an object, deleting it) is a step of its own. */
module UploadMachine {
  import opened Options

  datatype Phase = Active | Completing | Aborting | Completed | Aborted | Expired

  predicate Leased(p: Phase) { p == Completing || p == Aborting }
  predicate Terminal(p: Phase) { p == Completed || p == Aborted || p == Expired }

  /** Token 0 is the empty token. */
  datatype Row = Row(owner: nat, path: nat, reused: bool, expiresAt: nat,
                     phase: Phase, token: nat, lease: Option<nat>, file: Option<nat>)

  datatype File = File(owner: nat, path: nat)

  /** One successful ClaimLease: in force from the moment it was written. */
  datatype Claim = Claim(sid: nat, token: nat, since: nat, until: nat, released: bool)

  /** The database. */
  datatype Tables = Tables(rows: map<nat, Row>, files: map<nat, File>,
                           home: map<nat, nat>)            // file -> session it was registered by

  /** Paths at which the object store holds something, and deletes sent out: each
      may land at any later time, any number of times. */
  datatype ObjectStore = ObjectStore(objects: set<nat>, deletes: set<nat>)

  /** Storage paths generated for sessions, and paths vouched for by trusted callers. */
  datatype Paths = Paths(generated: map<nat, nat>, trusted: set<nat>)

  /** Tokens given out so far, those of completing and of aborting claims with the
      session they were given for, all claims in order, and the tokens whose
      completer gave up: releasing is the last thing it does. */
  datatype Leases = Leases(tokens: set<nat>, completers: map<nat, nat>, aborters: map<nat, nat>, claims: seq<Claim>,
                           retired: set<nat>)

  /** By token: the path its verifier accepted, the path of the file its finalize
      returned. */
  datatype Verdicts = Verdicts(verified: map<nat, nat>, returned: map<nat, nat>)

  datatype State = State(now: nat, db: Tables, store: ObjectStore, paths: Paths, leases: Leases, verdicts: Verdicts)

  datatype Event =
    | Tick(elapsed: nat)
    | Put(path: nat)                                                   // a client uploads through its presigned URL
    | Start(sid: nat, owner: nat, path: nat, expiresAt: nat)
    | ClaimLease(sid: nat, owner: nat, abort: bool, token: nat, at: nat, until: nat)
    | ReleaseLease(sid: nat, owner: nat, token: nat)
    | Verify(token: nat)                                               // default verifier: the session's own object
    | VerifyTrusted(token: nat, path: nat)                             // business verifier naming another object
    | Finalize(sid: nat, owner: nat, token: nat, at: nat, file: nat)
    | DropTemporary(token: nat)                                        // the file lives elsewhere: delete the upload
    | IssueDelete(token: nat)                                          // removeUnfinishedObject on the claimed row
    | DeleteLands(path: nat)
    | Finish(sid: nat, owner: nat, token: nat, to: Phase, at: nat)
    | RegisterExisting(sid: nat, owner: nat, path: nat, file: nat)
    | Repoint(sid: nat, owner: nat, file: nat, expected: nat, path: nat)

  predicate Owned(s: State, sid: nat, owner: nat) { sid in s.db.rows && s.db.rows[sid].owner == owner }

  predicate LeaseOver(r: Row, at: nat) { r.lease.Some? && r.lease.value <= at }

  /** WHERE clause of ClaimLease. */
  predicate Claimable(r: Row, abort: bool, at: nat) {
    if abort then r.phase == Active || (Leased(r.phase) && LeaseOver(r, at))
    else r.phase == Active || (r.phase == Completing && LeaseOver(r, at))
  }

  /** WHERE clause of ListExpired. */
  predicate Listed(r: Row, before: nat, now: nat) {
    r.expiresAt < before && (r.phase == Active || (Leased(r.phase) && (r.lease.None? || r.lease.value <= now)))
  }

  predicate HoldsLease(r: Row, token: nat, at: nat) {
    token != 0 && r.token == token && r.lease.Some? && at < r.lease.value
  }

  function Settled(r: Row, phase: Phase): Row { r.(phase := phase, token := 0, lease := None) }

  function MarkReleased(cs: seq<Claim>, sid: nat, token: nat): (r: seq<Claim>)
    ensures |r| == |cs|
    ensures forall i | 0 <= i < |cs| ::
              r[i] == cs[i] || (cs[i].sid == sid && cs[i].token == token && r[i] == cs[i].(released := true))
    ensures forall i :: 0 <= i < |cs| && cs[i].sid == sid && cs[i].token == token ==> r[i].released
  {
    seq(|cs|, i requires 0 <= i < |cs| =>
      if cs[i].sid == sid && cs[i].token == token then cs[i].(released := true) else cs[i])
  }

  /** A completer that may still finalize: each does so at most once. */
  predicate Pending(s: State, token: nat) {
    token in s.leases.completers && token !in s.verdicts.returned && token !in s.leases.retired
  }

  /** The file id a finalize call hands back, if it succeeds. */
  function FinalizeResult(s: State, sid: nat, owner: nat, token: nat, at: nat, file: nat): Option<nat> {
    if !Owned(s, sid, owner) || at > s.now || token !in s.verdicts.verified
       || !Pending(s, token) || s.leases.completers[token] != sid then None
    else if s.db.rows[sid].phase == Completed then s.db.rows[sid].file
    else if s.db.rows[sid].phase == Completing && HoldsLease(s.db.rows[sid], token, at) && file !in s.db.files
    then Some(file)
    else None
  }

  /** A new session gets a path no other session and no trusted caller uses. */
  function StartStep(s: State, sid: nat, owner: nat, p: nat, expiresAt: nat): State {
    if sid in s.db.rows || p in s.paths.generated || p in s.paths.trusted then s
    else s.(db := s.db.(rows := s.db.rows[sid := Row(owner, p, false, expiresAt, Active, 0, None, None)]),
            paths := s.paths.(generated := s.paths.generated[p := sid]))
  }

  predicate MayClaim(s: State, sid: nat, owner: nat, abort: bool, token: nat, at: nat, until: nat) {
    && token != 0 && token !in s.leases.tokens && at <= s.now && at < until
    && Owned(s, sid, owner) && Claimable(s.db.rows[sid], abort, at)
  }

  function Claimed(r: Row, abort: bool, token: nat, until: nat): Row {
    r.(phase := if abort then Aborting else Completing, token := token, lease := Some(until))
  }

  function GivenOut(l: Leases, sid: nat, abort: bool, token: nat, now: nat, until: nat): Leases {
    Leases(l.tokens + {token},
           if abort then l.completers else l.completers[token := sid],
           if abort then l.aborters[token := sid] else l.aborters,
           l.claims + [Claim(sid, token, now, until, false)],
           l.retired)
  }

  /** The row completes and its file is registered. */
  function WithFile(db: Tables, sid: nat, row: Row, file: nat, path: nat): Tables {
    Tables(db.rows[sid := row.(file := Some(file))], db.files[file := File(row.owner, path)], db.home[file := sid])
  }

  function ClaimStep(s: State, sid: nat, owner: nat, abort: bool, token: nat, at: nat, until: nat): State {
    if !MayClaim(s, sid, owner, abort, token, at, until) then s
    else s.(db := s.db.(rows := s.db.rows[sid := Claimed(s.db.rows[sid], abort, token, until)]),
            leases := GivenOut(s.leases, sid, abort, token, s.now, until))
  }

  predicate MayRelease(s: State, sid: nat, owner: nat, token: nat) {
    token != 0 && Owned(s, sid, owner) && s.db.rows[sid].token == token && s.db.rows[sid].phase == Completing
  }

  function ReleaseStep(s: State, sid: nat, owner: nat, token: nat): State {
    var retired := s.leases.retired + {token};
    if !MayRelease(s, sid, owner, token) then s.(leases := s.leases.(retired := retired))
    else s.(db := s.db.(rows := s.db.rows[sid := Settled(s.db.rows[sid], Active)]),
            leases := s.leases.(claims := MarkReleased(s.leases.claims, sid, token), retired := retired))
  }

  function FinalizeStep(s: State, sid: nat, owner: nat, token: nat, at: nat, file: nat): State {
    if FinalizeResult(s, sid, owner, token, at, file).None? then s
    else if s.db.rows[sid].phase == Completed then
      if s.db.rows[sid].file.value !in s.db.files then s
      else
        var existing := s.db.files[s.db.rows[sid].file.value];
        s.(verdicts := s.verdicts.(returned := s.verdicts.returned[token := existing.path]))
    else s.(db := WithFile(s.db, sid, Settled(s.db.rows[sid], Completed), file, s.verdicts.verified[token]),
            verdicts := s.verdicts.(returned := s.verdicts.returned[token := s.verdicts.verified[token]]))
  }

  function FinishStep(s: State, sid: nat, owner: nat, token: nat, to: Phase, at: nat): State {
    if (to != Aborted && to != Expired) || at > s.now || !Owned(s, sid, owner)
       || token !in s.leases.aborters || s.leases.aborters[token] != sid
       || !Leased(s.db.rows[sid].phase) || !HoldsLease(s.db.rows[sid], token, at) then s
    else s.(db := s.db.(rows := s.db.rows[sid := Settled(s.db.rows[sid], to)]))
  }

  function RegisterStep(s: State, sid: nat, owner: nat, p: nat, file: nat): State {
    if sid in s.db.rows || file in s.db.files then s
    else s.(db := WithFile(s.db, sid, Row(owner, p, true, s.now, Completed, 0, None, None), file, p),
            paths := s.paths.(trusted := s.paths.trusted + {p}))
  }

  function RepointStep(s: State, sid: nat, owner: nat, file: nat, expected: nat, p: nat): State {
    if !Owned(s, sid, owner) || s.db.rows[sid].phase != Completed || s.db.rows[sid].file != Some(file)
       || file !in s.db.files || s.db.files[file] != File(owner, expected) then s
    else s.(db := s.db.(files := s.db.files[file := File(owner, p)]),
            paths := s.paths.(trusted := s.paths.trusted + {p}))
  }

  predicate CompleterOf(s: State, token: nat) {
    token in s.leases.completers && s.leases.completers[token] in s.db.rows
  }

  /** Row of the session a completing token was given for. */
  function CompleterRow(s: State, token: nat): Row
    requires CompleterOf(s, token)
  {
    s.db.rows[s.leases.completers[token]]
  }

  function VerifiedAfter(s: State, e: Event): map<nat, nat> {
    match e
    case Verify(token) =>
      if CompleterOf(s, token) && CompleterRow(s, token).path in s.store.objects
      then s.verdicts.verified[token := CompleterRow(s, token).path] else s.verdicts.verified
    case VerifyTrusted(token, p) =>
      if CompleterOf(s, token) then s.verdicts.verified[token := p] else s.verdicts.verified
    case _ => s.verdicts.verified
  }

  function TrustedAfter(s: State, e: Event): set<nat> {
    match e
    case VerifyTrusted(token, p) => if CompleterOf(s, token) then s.paths.trusted + {p} else s.paths.trusted
    case _ => s.paths.trusted
  }

  /** Dropping a temporary upload whose file lives elsewhere, or removing the
      object of a session being aborted, only sends the delete out.  An aborter
      goes by the row it claimed, so it may do so long after it lost its lease. */
  function DeletesAfter(s: State, e: Event): set<nat> {
    match e
    case DropTemporary(token) =>
      if token in s.verdicts.returned && CompleterOf(s, token)
          && s.verdicts.returned[token] != CompleterRow(s, token).path
      then s.store.deletes + {CompleterRow(s, token).path} else s.store.deletes
    case IssueDelete(token) =>
      if token in s.leases.aborters && s.leases.aborters[token] in s.db.rows
         && !s.db.rows[s.leases.aborters[token]].reused
      then s.store.deletes + {s.db.rows[s.leases.aborters[token]].path} else s.store.deletes
    case _ => s.store.deletes
  }

  function ObjectsAfter(s: State, e: Event): set<nat> {
    match e
    case Put(p) => s.store.objects + {p}
    case DeleteLands(p) => if p in s.store.deletes then s.store.objects - {p} else s.store.objects
    case _ => s.store.objects
  }

  /** Steps that touch no row, file or claim. */
  function QuietStep(s: State, e: Event): State {
    s.(now := if e.Tick? then s.now + e.elapsed else s.now,
       verdicts := s.verdicts.(verified := VerifiedAfter(s, e)),
       paths := s.paths.(trusted := TrustedAfter(s, e)),
       store := s.store.(deletes := DeletesAfter(s, e), objects := ObjectsAfter(s, e)))
  }

  function Step(s: State, e: Event): State {
    match e
    case Start(sid, owner, p, expiresAt) => StartStep(s, sid, owner, p, expiresAt)
    case ClaimLease(sid, owner, abort, token, at, until) => ClaimStep(s, sid, owner, abort, token, at, until)
    case ReleaseLease(sid, owner, token) => ReleaseStep(s, sid, owner, token)
    case Finalize(sid, owner, token, at, file) => FinalizeStep(s, sid, owner, token, at, file)
    case Finish(sid, owner, token, to, at) => FinishStep(s, sid, owner, token, to, at)
    case RegisterExisting(sid, owner, p, file) => RegisterStep(s, sid, owner, p, file)
    case Repoint(sid, owner, file, expected, p) => RepointStep(s, sid, owner, file, expected, p)
    case _ => QuietStep(s, e)
  }

  function Init(): State {
    State(0, Tables(map[], map[], map[]), ObjectStore({}, {}), Paths(map[], {}), Leases({}, map[], map[], [], {}),
          Verdicts(map[], map[]))
  }

  function Run(s: State, es: seq<Event>): State
    decreases |es|
  {
    if es == [] then s else Step(Run(s, es[..|es| - 1]), es[|es| - 1])
  }

  // --------------------------------------------- invariants of every run

  /** A lease is there exactly in the two leased phases, a file exactly when completed. */
  predicate Shaped(r: Row) {
    && (Leased(r.phase) <==> r.lease.Some?) && (r.token != 0 <==> r.lease.Some?)
    && (r.phase == Completed <==> r.file.Some?)
  }

  /** A row's token was given out and its file is registered for it. */
  ghost predicate RowOk(s: State, sid: nat, r: Row) {
    && Shaped(r)
    && (r.token != 0 ==> r.token in s.leases.tokens)
    && (r.file.Some? ==> r.file.value in s.db.files && r.file.value in s.db.home && s.db.home[r.file.value] == sid
                         && s.db.files[r.file.value].owner == r.owner)
  }

  ghost predicate RowsOk(s: State) { forall sid :: sid in s.db.rows ==> RowOk(s, sid, s.db.rows[sid]) }

  /** Every file belongs to exactly one completed session. */
  ghost predicate FilesOk(s: State) {
    && s.db.home.Keys == s.db.files.Keys
    && (forall f :: f in s.db.home ==> s.db.home[f] in s.db.rows && s.db.rows[s.db.home[f]].file == Some(f))
  }

  ghost predicate TokensOk(s: State) {
    && 0 !in s.leases.tokens
    && (forall t :: t in s.leases.completers ==> t in s.leases.tokens && s.leases.completers[t] in s.db.rows)
    && (forall t :: t in s.leases.aborters ==> t in s.leases.tokens && s.leases.aborters[t] in s.db.rows)
  }

  /** The claim behind the current lease is the newest claim on the session, and
      every older claim was released or had run out before it was made. */
  ghost predicate ClaimOk(s: State, i: int)
    requires 0 <= i < |s.leases.claims|
  {
    var c := s.leases.claims[i];
    && c.token in s.leases.tokens && c.sid in s.db.rows && c.since <= s.now
    && (c.released ==> s.db.rows[c.sid].token != c.token)
    && (!c.released ==>
          match s.db.rows[c.sid].lease
          case Some(u) => if c.token == s.db.rows[c.sid].token then c.until == u else c.until <= s.now
          case None => c.until <= s.now || Terminal(s.db.rows[c.sid].phase))
  }

  ghost predicate ClaimsOk(s: State) { forall i :: 0 <= i < |s.leases.claims| ==> ClaimOk(s, i) }

  /** Unreleased lease intervals on one session do not overlap. */
  ghost predicate ClaimsDisjoint(s: State) {
    forall i, j | 0 <= i < j < |s.leases.claims| && s.leases.claims[i].sid == s.leases.claims[j].sid ::
      s.leases.claims[i].released || s.leases.claims[i].until <= s.leases.claims[j].since
  }

  ghost predicate LatestHolds(s: State) {
    forall i, j | 0 <= i < j < |s.leases.claims| && s.leases.claims[i].sid == s.leases.claims[j].sid ::
      s.leases.claims[i].sid in s.db.rows && s.db.rows[s.leases.claims[i].sid].token != s.leases.claims[i].token
  }

  ghost predicate TokensDistinct(s: State) {
    forall i, j | 0 <= i < j < |s.leases.claims| :: s.leases.claims[i].token != s.leases.claims[j].token
  }

  ghost predicate Inv(s: State) {
    RowsOk(s) && FilesOk(s) && TokensOk(s) && ClaimsOk(s) && ClaimsDisjoint(s) && LatestHolds(s) && TokensDistinct(s)
  }

  predicate Quiet(e: Event) {
    e.Tick? || e.Put? || e.Verify? || e.VerifyTrusted? || e.DropTemporary? || e.IssueDelete? || e.DeleteLands?
  }

  lemma QuietKeepsTables(s: State, e: Event)
    requires Quiet(e)
    ensures var t := Step(s, e);
            t.db == s.db && t.leases == s.leases && s.now <= t.now
  {
    assert Step(s, e) == QuietStep(s, e);
  }

  lemma QuietPreserves(s: State, e: Event)
    requires Inv(s)
    ensures Inv(QuietStep(s, e))
  {
    var t := QuietStep(s, e);
    assert forall sid :: sid in s.db.rows ==> RowOk(s, sid, s.db.rows[sid]);
    forall i | 0 <= i < |s.leases.claims| ensures ClaimOk(t, i) { assert ClaimOk(s, i); }
  }

  predicate Closed(r: Row) { Terminal(r.phase) && r.lease == None && r.token == 0 }

  /** Claims after a step that only settles or adds rows. */
  lemma ClaimsSurvive(s: State, t: State)
    requires Inv(s) && t.leases == s.leases && s.now == t.now && s.db.rows.Keys <= t.db.rows.Keys
    requires forall sid :: sid in s.db.rows ==> t.db.rows[sid] == s.db.rows[sid] || Closed(t.db.rows[sid])
    ensures ClaimsOk(t) && ClaimsDisjoint(t) && LatestHolds(t) && TokensDistinct(t)
  {
    forall i | 0 <= i < |t.leases.claims| ensures ClaimOk(t, i) && t.leases.claims[i].token != 0 {
      assert ClaimOk(s, i);
    }
  }

  lemma StartPreserves(s: State, sid: nat, owner: nat, p: nat, expiresAt: nat)
    requires Inv(s)
    ensures Inv(StartStep(s, sid, owner, p, expiresAt))
  {
    var t := StartStep(s, sid, owner, p, expiresAt);
    forall x | x in t.db.rows ensures RowOk(t, x, t.db.rows[x]) {
      if x in s.db.rows { assert RowOk(s, x, s.db.rows[x]); }
    }
    ClaimsSurvive(s, t);
  }

  lemma RegisterKeepsRow(s: State, sid: nat, owner: nat, p: nat, file: nat, x: nat)
    requires x in s.db.rows ==> RowOk(s, x, s.db.rows[x])
    ensures var t := RegisterStep(s, sid, owner, p, file); x in t.db.rows ==> RowOk(t, x, t.db.rows[x])
  {}

  lemma RegisterKeepsFiles(s: State, sid: nat, owner: nat, p: nat, file: nat)
    requires FilesOk(s)
    ensures FilesOk(RegisterStep(s, sid, owner, p, file))
  {
    var t := RegisterStep(s, sid, owner, p, file);
    if sid !in s.db.rows && file !in s.db.files { assert t.db.home.Keys == s.db.home.Keys + {file}; }
  }

  lemma RegisterPreserves(s: State, sid: nat, owner: nat, p: nat, file: nat)
    requires Inv(s)
    ensures Inv(RegisterStep(s, sid, owner, p, file))
  {
    var t := RegisterStep(s, sid, owner, p, file);
    forall x | x in t.db.rows ensures RowOk(t, x, t.db.rows[x]) {
      assert x in s.db.rows ==> RowOk(s, x, s.db.rows[x]);
      RegisterKeepsRow(s, sid, owner, p, file, x);
    }
    RegisterKeepsFiles(s, sid, owner, p, file);
    ClaimsSurvive(s, t);
  }

  lemma RepointPreserves(s: State, sid: nat, owner: nat, file: nat, expected: nat, p: nat)
    requires Inv(s)
    ensures Inv(RepointStep(s, sid, owner, file, expected, p))
  {
    var t := RepointStep(s, sid, owner, file, expected, p);
    forall x | x in t.db.rows ensures RowOk(t, x, t.db.rows[x]) { assert RowOk(s, x, s.db.rows[x]); }
    ClaimsSurvive(s, t);
  }

  lemma SettledPreserves(s: State, sid: nat, to: Phase)
    requires Inv(s) && sid in s.db.rows && Leased(s.db.rows[sid].phase) && (to == Aborted || to == Expired)
    ensures Inv(s.(db := s.db.(rows := s.db.rows[sid := Settled(s.db.rows[sid], to)])))
  {
    var t := s.(db := s.db.(rows := s.db.rows[sid := Settled(s.db.rows[sid], to)]));
    assert RowOk(s, sid, s.db.rows[sid]) && s.db.rows[sid].file == None;
    forall x | x in t.db.rows ensures RowOk(t, x, t.db.rows[x]) { assert RowOk(s, x, s.db.rows[x]); }
    ClaimsSurvive(s, t);
  }

  lemma FinishPreserves(s: State, sid: nat, owner: nat, token: nat, to: Phase, at: nat)
    requires Inv(s)
    ensures Inv(FinishStep(s, sid, owner, token, to, at))
  {
    var t := FinishStep(s, sid, owner, token, to, at);
    if t.db.rows != s.db.rows { SettledPreserves(s, sid, to); }
  }

  function Completion(s: State, sid: nat, file: nat, p: nat, returned: map<nat, nat>): State
    requires sid in s.db.rows
  {
    s.(db := WithFile(s.db, sid, Settled(s.db.rows[sid], Completed), file, p),
       verdicts := s.verdicts.(returned := returned))
  }

  lemma CompletionKeepsRow(s: State, sid: nat, file: nat, p: nat, returned: map<nat, nat>, x: nat)
    requires sid in s.db.rows && file !in s.db.files && x in s.db.rows && RowOk(s, x, s.db.rows[x])
    ensures var t := Completion(s, sid, file, p, returned); RowOk(t, x, t.db.rows[x])
  {}

  lemma CompletionKeepsFiles(s: State, sid: nat, file: nat, p: nat, returned: map<nat, nat>)
    requires FilesOk(s) && sid in s.db.rows && file !in s.db.files && s.db.rows[sid].file == None
    ensures FilesOk(Completion(s, sid, file, p, returned))
  {
    assert Completion(s, sid, file, p, returned).db.home.Keys == s.db.home.Keys + {file};
  }

  lemma CompletionPreserves(s: State, sid: nat, file: nat, p: nat, returned: map<nat, nat>)
    requires Inv(s) && sid in s.db.rows && s.db.rows[sid].phase == Completing && file !in s.db.files
    ensures Inv(Completion(s, sid, file, p, returned))
  {
    var t := Completion(s, sid, file, p, returned);
    forall x | x in t.db.rows ensures RowOk(t, x, t.db.rows[x]) {
      assert RowOk(s, x, s.db.rows[x]);
      CompletionKeepsRow(s, sid, file, p, returned, x);
    }
    assert RowOk(s, sid, s.db.rows[sid]);
    CompletionKeepsFiles(s, sid, file, p, returned);
    ClaimsSurvive(s, t);
  }

  lemma ReturnedIsHistory(s: State, returned: map<nat, nat>)
    requires Inv(s)
    ensures Inv(s.(verdicts := s.verdicts.(returned := returned)))
  {
    var t := s.(verdicts := s.verdicts.(returned := returned));
    forall x | x in t.db.rows ensures RowOk(t, x, t.db.rows[x]) { assert RowOk(s, x, s.db.rows[x]); }
    ClaimsSurvive(s, t);
  }

  lemma FinalizePreserves(s: State, sid: nat, owner: nat, token: nat, at: nat, file: nat)
    requires Inv(s)
    ensures Inv(FinalizeStep(s, sid, owner, token, at, file))
  {
    var t := FinalizeStep(s, sid, owner, token, at, file);
    if FinalizeResult(s, sid, owner, token, at, file).Some? {
      if s.db.rows[sid].phase == Completed { ReturnedIsHistory(s, t.verdicts.returned); }
      else { CompletionPreserves(s, sid, file, s.verdicts.verified[token], t.verdicts.returned); }
    }
  }

  lemma ClaimKeepsRow(s: State, sid: nat, owner: nat, abort: bool, token: nat, at: nat, until: nat, x: nat)
    requires MayClaim(s, sid, owner, abort, token, at, until) && x in s.db.rows && RowOk(s, x, s.db.rows[x])
    ensures var t := ClaimStep(s, sid, owner, abort, token, at, until); RowOk(t, x, t.db.rows[x])
  {}

  /** An earlier claim on the session was released or has run out by now. */
  lemma ClaimEndsClaim(s: State, sid: nat, owner: nat, abort: bool, token: nat, at: nat, until: nat, i: nat)
    requires MayClaim(s, sid, owner, abort, token, at, until) && RowOk(s, sid, s.db.rows[sid])
    requires i < |s.leases.claims| && ClaimOk(s, i)
    ensures var t := ClaimStep(s, sid, owner, abort, token, at, until);
            && ClaimOk(t, i) && t.leases.claims[i] == s.leases.claims[i] && s.leases.claims[i].token != token
            && (s.leases.claims[i].sid == sid ==> s.leases.claims[i].released || s.leases.claims[i].until <= s.now)
  {}

  lemma ClaimKeepsFilesAndTokens(s: State, sid: nat, owner: nat, abort: bool, token: nat, at: nat, until: nat)
    requires MayClaim(s, sid, owner, abort, token, at, until) && FilesOk(s) && TokensOk(s)
    ensures var t := ClaimStep(s, sid, owner, abort, token, at, until); FilesOk(t) && TokensOk(t)
  {}

  lemma ClaimPreserves(s: State, sid: nat, owner: nat, abort: bool, token: nat, at: nat, until: nat)
    requires Inv(s)
    ensures Inv(ClaimStep(s, sid, owner, abort, token, at, until))
  {
    var t := ClaimStep(s, sid, owner, abort, token, at, until);
    if MayClaim(s, sid, owner, abort, token, at, until) {
      forall x | x in t.db.rows ensures RowOk(t, x, t.db.rows[x]) {
        assert RowOk(s, x, s.db.rows[x]);
        ClaimKeepsRow(s, sid, owner, abort, token, at, until, x);
      }
      ClaimKeepsFilesAndTokens(s, sid, owner, abort, token, at, until);
      ClaimKeepsClaims(s, sid, owner, abort, token, at, until);
    }
  }

  lemma ClaimKeepsClaims(s: State, sid: nat, owner: nat, abort: bool, token: nat, at: nat, until: nat)
    requires Inv(s) && MayClaim(s, sid, owner, abort, token, at, until)
    ensures var t := ClaimStep(s, sid, owner, abort, token, at, until);
            ClaimsOk(t) && ClaimsDisjoint(t) && LatestHolds(t) && TokensDistinct(t)
  {
    var t := ClaimStep(s, sid, owner, abort, token, at, until);
    var n := |s.leases.claims|;
    assert RowOk(s, sid, s.db.rows[sid]);
    forall i | 0 <= i < n ensures ClaimOk(t, i) && t.leases.claims[i] == s.leases.claims[i]
        && s.leases.claims[i].token != token
      && (s.leases.claims[i].sid == sid ==> s.leases.claims[i].released || s.leases.claims[i].until <= s.now)
    {
      assert ClaimOk(s, i);
      ClaimEndsClaim(s, sid, owner, abort, token, at, until, i);
    }
    assert t.leases.claims[n] == Claim(sid, token, s.now, until, false) && ClaimOk(t, n);
  }

  lemma RetiredIsHistory(s: State, retired: set<nat>)
    requires Inv(s)
    ensures Inv(s.(leases := s.leases.(retired := retired)))
  {
    var t := s.(leases := s.leases.(retired := retired));
    forall x | x in t.db.rows ensures RowOk(t, x, t.db.rows[x]) { assert RowOk(s, x, s.db.rows[x]); }
    forall i | 0 <= i < |t.leases.claims| ensures ClaimOk(t, i) { assert ClaimOk(s, i); }
  }

  lemma ReleasePreserves(s: State, sid: nat, owner: nat, token: nat)
    requires Inv(s)
    ensures Inv(ReleaseStep(s, sid, owner, token))
  {
    var t := ReleaseStep(s, sid, owner, token);
    if !MayRelease(s, sid, owner, token) {
      RetiredIsHistory(s, s.leases.retired + {token});
    } else {
      forall x | x in t.db.rows ensures RowOk(t, x, t.db.rows[x]) { assert RowOk(s, x, s.db.rows[x]); }
      forall i | 0 <= i < |t.leases.claims|
        ensures ClaimOk(t, i) && t.leases.claims[i].token == s.leases.claims[i].token && t.leases.claims[i].token != 0
      { assert ClaimOk(s, i); }
    }
  }

  predicate LeaseEvent(e: Event) { e.ClaimLease? || e.ReleaseLease? || e.Finalize? || e.Finish? }

  lemma LeaseEventPreserves(s: State, e: Event)
    requires Inv(s) && LeaseEvent(e)
    ensures Inv(Step(s, e))
  {
    match e
    case ClaimLease(sid, owner, abort, token, at, until) => ClaimPreserves(s, sid, owner, abort, token, at, until);
    case ReleaseLease(sid, owner, token) => ReleasePreserves(s, sid, owner, token);
    case Finalize(sid, owner, token, at, file) => FinalizePreserves(s, sid, owner, token, at, file);
    case Finish(sid, owner, token, to, at) => FinishPreserves(s, sid, owner, token, to, at);
  }

  lemma StepPreservesInv(s: State, e: Event)
    requires Inv(s)
    ensures Inv(Step(s, e))
  {
    if LeaseEvent(e) { LeaseEventPreserves(s, e); }
    else if e.Start? { StartPreserves(s, e.sid, e.owner, e.path, e.expiresAt); }
    else if e.RegisterExisting? { RegisterPreserves(s, e.sid, e.owner, e.path, e.file); }
    else if e.Repoint? { RepointPreserves(s, e.sid, e.owner, e.file, e.expected, e.path); }
    else { QuietPreserves(s, e); }
  }

  lemma {:induction false} Reachable(es: seq<Event>)
    ensures Inv(Run(Init(), es))
    decreases |es|
  {
    if es != [] {
      Reachable(es[..|es| - 1]);
      StepPreservesInv(Run(Init(), es[..|es| - 1]), es[|es| - 1]);
    }
  }
}
