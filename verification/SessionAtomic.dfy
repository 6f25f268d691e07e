/** The session registry as one would like to read it: every use of a session
    is one atomic read-modify-write of its record.  The leased protocol of
    SessionLease is proved to refine this machine, so what is proved here about
    deadlines, lineages, credential chains and interference holds there too. */
module SessionAtomic {
  import opened SessionPolicy

  /** Outcome of proving the subject and rotating tokens under the begin lease. */
  datatype Prepare = Ready | PrepareUnauthorized | PrepareForbidden | PrepareUnavailable

  /** What a request handler makes of the session it was given. */
  datatype Online =
    | Unavailable                                        // the online check failed with neither 401 nor 403
    | Unauthorized                                       // 401: the organization is cleared, the session removed
    | Forbidden                                          // 403: the organization is cleared
    | Unchanged                                          // rejected before the check, or identity pinned afterwards
    | Adopted(organization: string, revision: string)    // central identity taken over
    | Renewed                                            // browser activity extends the idle deadline
    | Ended                                              // logout, or expiry noticed by the handler

  predicate Removes(v: Session, online: Online, now: nat, resource: bool) {
    || online.Unauthorized? || online.Ended?
    || (online.Renewed? && (now >= v.absoluteUntil || (resource && now >= v.idleUntil)))
  }

  /** Effect of a handler on the session fields; a failed renewal restores them. */
  function Handle(v: Session, online: Online, now: nat, resource: bool): Session {
    match online
    case Unauthorized => v.(organization := "")
    case Forbidden => v.(organization := "")
    case Adopted(organization, revision) => v.(organization := organization, revision := revision)
    case Renewed =>
      if Removes(v, online, now, resource) then v
      else var idle := NextSessionIdle(now, v.absoluteUntil); v.(idleUntil := idle, until := idle)
    case _ => v
  }

  /** A changed, non-empty identity is published under a new cookie value. */
  predicate Rotates(before: Session, value: Session) {
    value.organization != "" && (value.organization != before.organization || value.revision != before.revision)
  }

  datatype Phase = Waiting | Checked | Applied | Conflicted

  /** An identity-mode request between its two leases.  The snapshot and the
      working value share one SDK map, so a rotation during the online check
      shows in both. */
  datatype Request = Request(id: nat, before: Session, value: Session, remove: bool, phase: Phase)

  datatype Registry = Registry(
    now: nat,
    records: map<nat, Session>,
    lineage: map<nat, nat>,        // session id -> the login it descends from
    requests: map<nat, Request>,
    issued: set<nat>)              // every opaque value drawn so far

  /** What the holder of one lease does with the record it read. */
  datatype Update =
    | Begin(request: nat, rotation: seq<nat>, prepare: Prepare)
    | Finish(request: nat, next: nat, csrf: nat)
    | Resource(rotation: seq<nat>, online: Online, next: nat, csrf: nat)

  datatype Event =
    | Tick(elapsed: nat)
    | Draw(value: nat)
    | DropRecord(id: nat)
    | Login(id: nat, csrf: nat, sdk: seq<nat>, subject: string, organization: string, revision: string, previous: nat)
    | Check(request: nat, online: Online, rotation: seq<nat>)
    | Use(id: nat, seen: nat, update: Update)   // `seen`: when the record was read

  datatype Plan = Abandon | Write(id: nat, value: Session) | Remove(value: Session)

  predicate Fresh(a: Registry, x: nat, y: nat) {
    x !in a.issued && y !in a.issued && x != y
  }

  function ResourceValue(current: Session, u: Update, now: nat): Session
    requires u.Resource?
  {
    Handle(current.(sdk := current.sdk + u.rotation), u.online, now, true)
  }

  /** The update can be issued now: request names line up and new ids are new. */
  predicate Admissible(a: Registry, id: nat, current: Session, u: Update) {
    match u
    case Begin(r, _, _) => r !in a.requests
    case Finish(r, next, csrf) =>
      && r in a.requests && a.requests[r].id == id && a.requests[r].phase == Checked
      && (Rotates(a.requests[r].before, a.requests[r].value) && !a.requests[r].remove ==> Fresh(a, next, csrf))
    case Resource(_, online, next, csrf) =>
      && (online.Adopted? ==> online.organization != "")
      && (Rotates(current, ResourceValue(current, u, a.now)) ==> Fresh(a, next, csrf))
  }

  function PlanOf(a: Registry, id: nat, current: Session, u: Update): Plan
    requires Admissible(a, id, current, u)
  {
    match u
    case Begin(_, rotation, prepare) =>
      var denied := prepare.PrepareUnauthorized? || prepare.PrepareForbidden?;
      var value := current.(sdk := current.sdk + rotation,
                            organization := if denied then "" else current.organization);
      if prepare.PrepareUnauthorized? then Remove(value) else Write(id, value)
    case Finish(r, next, csrf) =>
      var rq := a.requests[r];
      var moves := Rotates(rq.before, rq.value) && !rq.remove;
      if rq.remove && rq.before.sdk != current.sdk then Abandon
      else (match MergeIdentityUpdate(current, rq.before, rq.value, a.now)
            case Merged(m) =>
              var value := m.(organization := rq.value.organization, revision := rq.value.revision,
                              csrf := if moves then csrf else rq.value.csrf);
              if rq.remove then Remove(value) else Write(if moves then next else id, value)
            case _ => Abandon)
    case Resource(_, online, next, csrf) =>
      var value := ResourceValue(current, u, a.now);
      var moves := Rotates(current, value);
      var saved := if moves then value.(csrf := csrf) else value;
      if Removes(current, online, a.now, true) then Remove(saved)
      else Write(if moves then next else id, saved)
  }

  /** The checks commit makes before it reaches the store. */
  predicate CommitAccepts(plan: Plan, now: nat) {
    match plan
    case Abandon => false
    case Write(_, value) => SessionDeadline(value, now).Until?
    case Remove(value) => SchemaValid(value, now)
  }

  function RequestsAfter(a: Registry, id: nat, u: Update, plan: Plan): map<nat, Request> {
    match u
    case Begin(r, _, prepare) =>
      if prepare.Ready? && plan.Write? then a.requests[r := Request(id, plan.value, plan.value, false, Waiting)]
      else a.requests
    case Finish(r, _, _) =>
      if r in a.requests
      then a.requests[r := a.requests[r].(phase := if plan.Abandon? then Conflicted else Applied)]
      else a.requests
    case Resource(_, _, _, _) => a.requests
  }

  /** Carries out an update computed from `current`, the value its reader holds. */
  function Perform(a: Registry, id: nat, current: Session, u: Update): Registry
    requires id in a.records && id in a.lineage && Admissible(a, id, current, u)
  {
    var plan := PlanOf(a, id, current, u);
    if plan.Abandon? then a.(requests := RequestsAfter(a, id, u, plan))
    else if !CommitAccepts(plan, a.now) then a
    else
      match plan
      case Write(next, value) =>
        a.(records := (a.records - {id})[next := value],
           lineage := a.lineage[next := a.lineage[id]],
           requests := RequestsAfter(a, id, u, plan),
           issued := if next == id then a.issued else a.issued + {next, value.csrf})
      case Remove(_) =>
        a.(records := a.records - {id}, requests := RequestsAfter(a, id, u, plan))
  }

  function Step(a: Registry, e: Event): Registry {
    match e
    case Tick(d) => a.(now := a.now + d)
    case Draw(x) => a.(issued := a.issued + {x})
    case DropRecord(id) => a.(records := a.records - {id})
    case Login(id, csrf, sdk, subject, organization, revision, previous) =>
      if !Fresh(a, id, csrf) || organization == "" then a
      else
        a.(records := (a.records - {previous})[id := NewSession(a.now, sdk, subject, organization, revision, csrf)],
           lineage := a.lineage[id := id],
           issued := a.issued + {id, csrf})
    case Check(r, online, rotation) =>
      if r !in a.requests || a.requests[r].phase != Waiting || (online.Adopted? && online.organization == "") then a
      else
        var rq := a.requests[r];
        var before := rq.before.(sdk := rq.before.sdk + rotation);
        var value := rq.value.(sdk := before.sdk);
        a.(requests := a.requests[r := Request(rq.id, before, Handle(value, online, a.now, false),
                                               Removes(value, online, a.now, false), Checked)])
    case Use(id, seen, u) =>
      if id !in a.records || id !in a.lineage || seen > a.now || !SessionDeadline(a.records[id], seen).Until?
         || !Admissible(a, id, a.records[id], u) then a
      else Perform(a, id, a.records[id], u)
  }

  function Init(start: nat): Registry { Registry(start + 1, map[], map[], map[], {}) }

  function Run(a: Registry, es: seq<Event>): Registry
    decreases |es|
  {
    if es == [] then a else Step(Run(a, es[..|es| - 1]), es[|es| - 1])
  }

  lemma RunAppend(a: Registry, es: seq<Event>, e: Event)
    ensures Run(a, es + [e]) == Step(Run(a, es), e)
  {
    assert (es + [e])[..|es|] == es;
  }

  // ---------------------------------------------------------------- invariant

  ghost predicate RecordsOk(a: Registry) {
    forall id :: id in a.records ==>
      SessionOk(a.records[id], a.now) && id in a.issued && id in a.lineage
  }

  /** One live record per login, and only drawn values name anything. */
  ghost predicate LineagesOk(a: Registry) {
    && (forall id :: id in a.lineage ==> id in a.issued && a.lineage[id] in a.issued)
    && (forall i, j | i in a.records && j in a.records && i in a.lineage && j in a.lineage ::
          a.lineage[i] == a.lineage[j] ==> i == j)
  }

  /** A snapshot never gets ahead of a surviving record in anything but its own
      pending extension. */
  ghost predicate RequestOk(a: Registry, rq: Request) {
    && rq.id in a.issued
    && SessionOk(rq.before, a.now) && SessionOk(rq.value, a.now) && SameLogin(rq.before, rq.value)
    && rq.before.sdk == rq.value.sdk && rq.before.csrf == rq.value.csrf
    && rq.before.idleUntil <= rq.value.idleUntil
    && (rq.phase == Waiting ==> rq.value == rq.before)
    && (rq.id in a.records ==>
          SameLogin(a.records[rq.id], rq.before) && rq.before.idleUntil <= a.records[rq.id].idleUntil)
  }

  ghost predicate RequestsOk(a: Registry) {
    forall r :: r in a.requests ==> RequestOk(a, a.requests[r])
  }

  ghost predicate Inv(a: Registry) {
    a.now > 0 && RecordsOk(a) && LineagesOk(a) && RequestsOk(a)
  }

  /** What one session record may become: the login is fixed, the idle deadline
      only grows, the credentials only extend. */
  ghost predicate Follows(earlier: Session, later: Session) {
    SameLogin(earlier, later) && earlier.idleUntil <= later.idleUntil && earlier.sdk <= later.sdk
  }

  lemma NextIdleReachesEverySession(v: Session, now: nat)
    requires SessionOk(v, now)
    ensures v.idleUntil <= NextSessionIdle(now, v.absoluteUntil)
  {}

  lemma HandlePreserves(v: Session, online: Online, now: nat, resource: bool)
    requires SessionOk(v, now)
    ensures SessionOk(Handle(v, online, now, resource), now)
    ensures Follows(v, Handle(v, online, now, resource))
    ensures Handle(v, online, now, resource).sdk == v.sdk && Handle(v, online, now, resource).csrf == v.csrf
  {
    NextIdleReachesEverySession(v, now);
  }

  /** Whatever a lease holder plans to write continues the record it read. */
  lemma PlanFollows(a: Registry, id: nat, u: Update)
    requires Inv(a) && id in a.records && Admissible(a, id, a.records[id], u)
    ensures var plan := PlanOf(a, id, a.records[id], u);
            plan.Write? ==> Follows(a.records[id], plan.value) && SessionOk(plan.value, a.now)
                            && (plan.id == id || Fresh(a, plan.id, plan.value.csrf))
  {
    var current := a.records[id];
    match u
    case Begin(_, _, _) =>
    case Finish(r, _, _) =>
      assert RequestOk(a, a.requests[r]);
    case Resource(rotation, online, _, _) =>
      HandlePreserves(current.(sdk := current.sdk + rotation), online, a.now, true);
  }

  lemma PerformPreservesRecords(a: Registry, id: nat, u: Update)
    requires Inv(a) && id in a.records && Admissible(a, id, a.records[id], u)
    ensures RecordsOk(Perform(a, id, a.records[id], u))
    ensures LineagesOk(Perform(a, id, a.records[id], u))
  {
    PlanFollows(a, id, u);
  }

  /** A request other than the one being served sees only its record move forward. */
  lemma BystanderRequestOk(a: Registry, id: nat, u: Update, rq: Request)
    requires Inv(a) && id in a.records && Admissible(a, id, a.records[id], u) && RequestOk(a, rq)
    ensures RequestOk(Perform(a, id, a.records[id], u), rq)
  {
    PlanFollows(a, id, u);
  }

  lemma PerformPreservesRequests(a: Registry, id: nat, u: Update)
    requires Inv(a) && id in a.records && Admissible(a, id, a.records[id], u)
    ensures RequestsOk(Perform(a, id, a.records[id], u))
  {
    var plan := PlanOf(a, id, a.records[id], u);
    var a' := Perform(a, id, a.records[id], u);
    forall r | r in a'.requests
      ensures RequestOk(a', a'.requests[r])
    {
      if r in a.requests {
        BystanderRequestOk(a, id, u, a.requests[r]);
      } else {
        PlanFollows(a, id, u);
        assert a'.requests[r] == Request(id, plan.value, plan.value, false, Waiting);
      }
    }
  }

  lemma OutsidePreservesInv(a: Registry, e: Event)
    requires Inv(a) && (e.Tick? || e.Draw? || e.DropRecord? || e.Login?)
    ensures Inv(Step(a, e))
  {
    forall r | r in a.requests ensures RequestOk(Step(a, e), a.requests[r]) {
      assert RequestOk(a, a.requests[r]);
    }
  }

  lemma StepPreservesInv(a: Registry, e: Event)
    requires Inv(a)
    ensures Inv(Step(a, e))
  {
    match e
    case Check(r, online, rotation) =>
      CheckPreservesInv(a, r, online, rotation);
    case Use(id, seen, u) =>
      if Step(a, e) != a {
        PerformPreservesRecords(a, id, u);
        PerformPreservesRequests(a, id, u);
      }
    case _ =>
      OutsidePreservesInv(a, e);
  }

  lemma CheckPreservesInv(a: Registry, r: nat, online: Online, rotation: seq<nat>)
    requires Inv(a)
    ensures Inv(Step(a, Check(r, online, rotation)))
  {
    var a' := Step(a, Check(r, online, rotation));
    if a' != a {
      var rq := a.requests[r];
      assert RequestOk(a, rq);
      HandlePreserves(rq.value.(sdk := rq.before.sdk + rotation), online, a.now, false);
      forall q | q in a'.requests ensures RequestOk(a', a'.requests[q]) {
        assert q in a.requests && RequestOk(a, a.requests[q]);
      }
    }
  }

  /** Every reachable registry: well-formed deadlines, one live record per
      login, snapshots never ahead of their record. */
  lemma {:induction false} Reachable(start: nat, es: seq<Event>)
    ensures Inv(Run(Init(start), es))
    decreases |es|
  {
    if es != [] {
      Reachable(start, es[..|es| - 1]);
      StepPreservesInv(Run(Init(start), es[..|es| - 1]), es[|es| - 1]);
    }
  }

  // ------------------------------------------------------------ whole-run order

  /** How a later registry relates to an earlier one of the same run. */
  ghost predicate Later(a: Registry, b: Registry) {
    && a.now <= b.now && a.issued <= b.issued
    && (forall id :: id in a.lineage ==> id in b.lineage && b.lineage[id] == a.lineage[id])
    // an issued id without a record never gets one again
    && (forall id :: id in a.issued && id !in a.records ==> id !in b.records)
    // whatever is live for a login continues what was live for it before
    && (forall i, j | i in a.records && j in b.records && i in a.lineage && j in b.lineage ::
          a.lineage[i] == b.lineage[j] ==> Follows(a.records[i], b.records[j]))
  }

  /** Each record after a step continues the record of the same login before it. */
  ghost predicate ContinuesFrom(a: Registry, b: Registry, j: nat) {
    || (j !in a.issued && j in b.lineage && b.lineage[j] == j)
    || (exists i :: i in a.records && i in a.lineage && j in b.lineage && a.lineage[i] == b.lineage[j]
                    && (i == j || j !in a.issued) && j in b.records && Follows(a.records[i], b.records[j]))
  }

  lemma StepContinues(a: Registry, e: Event, j: nat)
    requires Inv(a) && j in Step(a, e).records
    ensures ContinuesFrom(a, Step(a, e), j)
  {
    var b := Step(a, e);
    match e
    case Use(id, seen, u) =>
      if b != a {
        PlanFollows(a, id, u);
        if j in a.records && b.records[j] == a.records[j] {
          assert Follows(a.records[j], b.records[j]);
        } else {
          assert Follows(a.records[id], b.records[j]);
        }
      } else {
        assert Follows(a.records[j], b.records[j]);
      }
    case Login(id, _, _, _, _, _, _) =>
      if j in a.records && j != id { assert Follows(a.records[j], b.records[j]); }
    case _ =>
      assert Follows(a.records[j], b.records[j]);
  }

  lemma StepGrows(a: Registry, e: Event)
    requires Inv(a)
    ensures var b := Step(a, e);
            a.now <= b.now && a.issued <= b.issued
            && (forall id :: id in a.lineage ==> id in b.lineage && b.lineage[id] == a.lineage[id])
  {
    if e.Use? && Step(a, e) != a {
      PlanFollows(a, e.id, e.update);
    }
  }

  lemma LaterStep(a: Registry, b: Registry, e: Event)
    requires Inv(a) && Inv(b) && Later(a, b)
    ensures Later(a, Step(b, e))
  {
    var c := Step(b, e);
    StepGrows(b, e);
    StepPreservesInv(b, e);
    forall id | id in a.issued && id !in a.records
      ensures id !in c.records
    {
      if id in c.records { StepContinues(b, e, id); }
    }
    forall i, j | i in a.records && j in c.records && i in a.lineage && j in c.lineage
                  && a.lineage[i] == c.lineage[j]
      ensures Follows(a.records[i], c.records[j])
    {
      StepContinues(b, e, j);
      if j !in b.issued && c.lineage[j] == j {
        assert false;
      } else {
        var k :| && k in b.records && k in b.lineage && b.lineage[k] == c.lineage[j]
                 && Follows(b.records[k], c.records[j]);
        assert Follows(a.records[i], b.records[k]);
      }
    }
  }

  /** Along every run: no revival of an id, no fork of a login, idle deadlines
      never shrink, the absolute deadline never moves, and the stored SDK
      credentials form one chain of extensions. */
  lemma {:induction false} ForwardOnly(a: Registry, es: seq<Event>)
    requires Inv(a)
    ensures Inv(Run(a, es)) && Later(a, Run(a, es))
    decreases |es|
  {
    if es == [] {
      assert LineagesOk(a);
    } else {
      var front := es[..|es| - 1];
      ForwardOnly(a, front);
      LaterStep(a, Run(a, front), es[|es| - 1]);
      StepPreservesInv(Run(a, front), es[|es| - 1]);
    }
  }

  // ------------------------------------------------- what finishing achieves

  /** When an online check is merged: in every reachable state the remaining
      schema and deadline comparisons of the merge cannot fail, so the outcome
      is decided by identity, by the SDK generation for a removal, and by time. */
  lemma FinishDecision(a: Registry, id: nat, seen: nat, r: nat, next: nat, csrf: nat)
    requires Inv(a) && id in a.records && seen <= a.now < a.records[id].idleUntil
    requires Admissible(a, id, a.records[id], Finish(r, next, csrf))
    ensures var rq := a.requests[r];
            var b := Step(a, Use(id, seen, Finish(r, next, csrf)));
            r in b.requests && (SessionDeadline(a.records[id], seen).Until? ==>
              (b.requests[r].phase == Applied <==>
                 SameIdentity(a.records[id], rq.before) && (rq.remove ==> rq.before.sdk == a.records[id].sdk)))
  {
    assert RequestOk(a, a.requests[r]);
  }

  /** An applied, non-removing finish stores exactly the checked identity on top
      of the record found, with the later of the two idle deadlines. */
  lemma FinishStoresMerge(a: Registry, id: nat, seen: nat, r: nat, next: nat, csrf: nat)
    requires Inv(a) && id in a.records && seen <= a.now < a.records[id].idleUntil
    requires SessionDeadline(a.records[id], seen).Until?
    requires Admissible(a, id, a.records[id], Finish(r, next, csrf))
    requires SameIdentity(a.records[id], a.requests[r].before) && !a.requests[r].remove
    ensures var rq := a.requests[r];
            var b := Step(a, Use(id, seen, Finish(r, next, csrf)));
            var moves := Rotates(rq.before, rq.value);
            var home := if moves then next else id;
            && home in b.records && (moves ==> id !in b.records)
            && b.records[home].organization == rq.value.organization && b.records[home].revision == rq.value.revision
            && b.records[home].csrf == (if moves then csrf else a.records[id].csrf)
            && b.records[home].sdk == a.records[id].sdk
            && b.records[home].idleUntil
               == (if rq.value.idleUntil > a.records[id].idleUntil then rq.value.idleUntil else a.records[id].idleUntil)
  {
    assert RequestOk(a, a.requests[r]);
  }

  // -------------------------------------------- failed checks leave no trace

  /** Two registries that differ at most in the bookkeeping of request `f`. */
  ghost predicate SameExcept(a: Registry, b: Registry, f: nat) {
    && a.now == b.now && a.records == b.records && a.lineage == b.lineage && a.issued == b.issued
    && a.requests.Keys == b.requests.Keys
    && (forall r :: r in a.requests && r != f ==> a.requests[r] == b.requests[r])
  }

  predicate Mentions(e: Event, f: nat) {
    match e
    case Check(r, _, _) => r == f
    case Use(_, _, Begin(r, _, _)) => r == f
    case Use(_, _, Finish(r, _, _)) => r == f
    case _ => false
  }

  /** The request's online check ended with neither 401 nor 403: its working
      value is still its snapshot. */
  ghost predicate CheckFailedSoftly(a: Registry, f: nat) {
    f in a.requests && !a.requests[f].remove && a.requests[f].value == a.requests[f].before
  }

  lemma UnavailableCheckKeepsSnapshot(a: Registry, f: nat, rotation: seq<nat>)
    requires Inv(a) && f in a.requests && a.requests[f].phase == Waiting
    ensures CheckFailedSoftly(Step(a, Check(f, Unavailable, rotation)), f)
  {
    assert RequestOk(a, a.requests[f]);
  }

  /** Finishing such a request changes no stored record, id or login. */
  lemma SoftFailureFinishIsNoOp(a: Registry, id: nat, seen: nat, f: nat, next: nat, csrf: nat)
    requires Inv(a) && CheckFailedSoftly(a, f)
    ensures SameExcept(Step(a, Use(id, seen, Finish(f, next, csrf))), a, f)
  {
    var e := Use(id, seen, Finish(f, next, csrf));
    var b := Step(a, e);
    if b != a {
      assert RequestOk(a, a.requests[f]);
      var plan := PlanOf(a, id, a.records[id], e.update);
      if plan.Write? && CommitAccepts(plan, a.now) {
        assert plan.value == a.records[id];
        assert b.records == a.records;
        assert b.lineage == a.lineage;
      }
    }
  }

  lemma SameExceptPerform(a: Registry, b: Registry, f: nat, id: nat, current: Session, u: Update)
    requires SameExcept(a, b, f) && !Mentions(Use(id, 0, u), f)
    requires id in a.records && id in a.lineage && Admissible(a, id, current, u)
    ensures Admissible(b, id, current, u) && PlanOf(a, id, current, u) == PlanOf(b, id, current, u)
    ensures SameExcept(Perform(a, id, current, u), Perform(b, id, current, u), f)
  {
    assert PlanOf(a, id, current, u) == PlanOf(b, id, current, u);
  }

  lemma SameExceptAdmissible(a: Registry, b: Registry, f: nat, id: nat, current: Session, u: Update)
    requires SameExcept(a, b, f) && !Mentions(Use(id, 0, u), f)
    ensures Admissible(a, id, current, u) <==> Admissible(b, id, current, u)
  {}

  lemma SameExceptCheck(a: Registry, b: Registry, f: nat, r: nat, online: Online, rotation: seq<nat>)
    requires SameExcept(a, b, f) && r != f
    ensures SameExcept(Step(a, Check(r, online, rotation)), Step(b, Check(r, online, rotation)), f)
  {
    assert r in a.requests <==> r in b.requests;
  }

  lemma SameExceptStep(a: Registry, b: Registry, f: nat, e: Event)
    requires SameExcept(a, b, f) && !Mentions(e, f)
    ensures SameExcept(Step(a, e), Step(b, e), f)
  {
    match e
    case Use(id, seen, u) =>
      if id in a.records {
        SameExceptAdmissible(a, b, f, id, a.records[id], u);
        if id in a.lineage && Admissible(a, id, a.records[id], u) { SameExceptPerform(a, b, f, id, a.records[id], u); }
      }
    case Check(r, online, rotation) => SameExceptCheck(a, b, f, r, online, rotation);
    case _ =>
  }

  lemma {:induction false} SameExceptRun(a: Registry, b: Registry, f: nat, es: seq<Event>)
    requires SameExcept(a, b, f) && (forall e :: e in es ==> !Mentions(e, f))
    ensures SameExcept(Run(a, es), Run(b, es), f)
    decreases |es|
  {
    if es != [] {
      SameExceptRun(a, b, f, es[..|es| - 1]);
      SameExceptStep(Run(a, es[..|es| - 1]), Run(b, es[..|es| - 1]), f, es[|es| - 1]);
    }
  }

  /** Interference freedom: whatever happens before and after, every sibling
      request ends exactly as if the failed request had never finished. */
  lemma SoftFailureIsInvisible(start: nat, before: seq<Event>, id: nat, seen: nat, f: nat, next: nat, csrf: nat,
                               after: seq<Event>)
    requires CheckFailedSoftly(Run(Init(start), before), f)
    requires forall e :: e in after ==> !Mentions(e, f)
    ensures var a := Run(Init(start), before);
            SameExcept(Run(Step(a, Use(id, seen, Finish(f, next, csrf))), after), Run(a, after), f)
  {
    Reachable(start, before);
    SoftFailureFinishIsNoOp(Run(Init(start), before), id, seen, f, next, csrf);
    var a := Run(Init(start), before);
    SameExceptRun(Step(a, Use(id, seen, Finish(f, next, csrf))), a, f, after);
  }
}
