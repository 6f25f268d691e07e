/** What logins and requests leave in the session store, said outright: for every
    answer of the identity provider the whole record map, without leases, plans,
    snapshots or merging. */
module SessionOutcomes {
  import opened SessionPolicy
  import opened SessionAtomic

  // ------------------------------------------------------------------- outcomes

  /** A login stores a session good for eight hours and at most seven days, and
      drops the one it replaces. */
  function LoginOutcome(records: map<nat, Session>, id: nat, csrf: nat, sdk: seq<nat>, subject: string,
                        organization: string, revision: string, previous: nat, now: nat): map<nat, Session> {
    var idle := now + 8 * 3600 * 1000;
    (records - {previous})[id := Session(sdk, subject, organization, revision, csrf, idle, 2, now, idle,
                                         now + 7 * 24 * 3600 * 1000)]
  }

  /** Preparing a request persists the rotated credentials, whatever comes of it;
      401 deletes the session, 401 and 403 clear its organization.  Nothing is
      written to a session that has run out. */
  function BeginOutcome(records: map<nat, Session>, id: nat, rotation: seq<nat>, prepare: Prepare,
                        now: nat): map<nat, Session>
    requires id in records
  {
    var v := records[id];
    match prepare
    case PrepareUnauthorized => records - {id}
    case PrepareForbidden =>
      if now < v.idleUntil then records[id := v.(sdk := v.sdk + rotation, organization := "")] else records
    case _ =>
      if now < v.idleUntil then records[id := v.(sdk := v.sdk + rotation)] else records
  }

  /** Second half of an identity request whose identity nobody else changed.
      `current`: the stored credentials are still the request's. */
  function FinishOutcome(records: map<nat, Session>, id: nat, online: Online, current: bool, now: nat, next: nat,
                         csrf: nat): map<nat, Session>
    requires id in records
  {
    var v := records[id];
    match online
    case Unavailable => records
    case Unchanged => records
    case Unauthorized => if current then records - {id} else records
    case Ended => if current then records - {id} else records
    case Forbidden => if now < v.idleUntil then records[id := v.(organization := "")] else records
    case Adopted(organization, revision) =>
      if now >= v.idleUntil || (organization == v.organization && revision == v.revision) then records
      else (records - {id})[next := v.(organization := organization, revision := revision, csrf := csrf)]
    case Renewed =>
      if now >= v.absoluteUntil then (if current then records - {id} else records)
      else
        var idle := NextSessionIdle(now, v.absoluteUntil);
        records[id := v.(idleUntil := idle, until := idle)]
  }

  /** A request in resource mode, under one lease. */
  function ResourceOutcome(records: map<nat, Session>, id: nat, rotation: seq<nat>, online: Online, now: nat,
                           next: nat, csrf: nat): map<nat, Session>
    requires id in records
  {
    var v := records[id].(sdk := records[id].sdk + rotation);
    var live := now < v.idleUntil;
    match online
    case Unauthorized => records - {id}
    case Ended => records - {id}
    case Forbidden => if live then records[id := v.(organization := "")] else records
    case Adopted(organization, revision) =>
      if !live then records
      else if organization == v.organization && revision == v.revision then records[id := v]
      else (records - {id})[next := v.(organization := organization, revision := revision, csrf := csrf)]
    case Renewed =>
      if !live then records - {id}
      else
        var idle := NextSessionIdle(now, v.absoluteUntil);
        records[id := v.(idleUntil := idle, until := idle)]
    case _ => if live then records[id := v] else records
  }

  // --------------------------------------------------------------------- logins

  lemma LoginStores(a: Registry, id: nat, csrf: nat, sdk: seq<nat>, subject: string, organization: string,
                    revision: string, previous: nat)
    requires Inv(a) && Fresh(a, id, csrf) && organization != ""
    ensures var b := Step(a, Login(id, csrf, sdk, subject, organization, revision, previous));
            && b.records == LoginOutcome(a.records, id, csrf, sdk, subject, organization, revision, previous, a.now)
            && b.lineage == a.lineage[id := id]
  {}

  // ----------------------------------------------------------------- first lease

  /** A record that was alive when it was read. */
  ghost predicate ReadAlive(a: Registry, id: nat, seen: nat) {
    id in a.records && seen <= a.now && SessionDeadline(a.records[id], seen).Until?
  }

  /** Every begin leaves exactly its `BeginOutcome`; when it is ready and the session
      still alive, the new request holds the stored record as its snapshot. */
  lemma BeginStores(a: Registry, id: nat, seen: nat, r: nat, rotation: seq<nat>, prepare: Prepare)
    requires Inv(a) && ReadAlive(a, id, seen) && r !in a.requests
    ensures var b := Step(a, Use(id, seen, Begin(r, rotation, prepare)));
            b.records == BeginOutcome(a.records, id, rotation, prepare, a.now) && b.lineage == a.lineage
    ensures var b := Step(a, Use(id, seen, Begin(r, rotation, prepare)));
            if prepare.Ready? && a.now < a.records[id].idleUntil
            then id in b.records
                 && b.requests == a.requests[r := Request(id, b.records[id], b.records[id], false, Waiting)]
            else b.requests == a.requests
  {
    BeginPerforms(a, id, r, rotation, prepare);
    BeginRequests(a, id, r, rotation, prepare);
  }

  lemma BeginPerforms(a: Registry, id: nat, r: nat, rotation: seq<nat>, prepare: Prepare)
    requires Inv(a) && id in a.records && r !in a.requests
    ensures id in a.lineage && Admissible(a, id, a.records[id], Begin(r, rotation, prepare))
    ensures var b := Perform(a, id, a.records[id], Begin(r, rotation, prepare));
            b.records == BeginOutcome(a.records, id, rotation, prepare, a.now) && b.lineage == a.lineage
  {
    var now := Perform(a, id, a.records[id], Begin(r, rotation, prepare)).records;
    var due := BeginOutcome(a.records, id, rotation, prepare, a.now);
    assert now.Keys == due.Keys;
    forall x | x in due ensures now[x] == due[x] {}
  }

  lemma BeginRequests(a: Registry, id: nat, r: nat, rotation: seq<nat>, prepare: Prepare)
    requires Inv(a) && id in a.records && r !in a.requests
    ensures id in a.lineage && Admissible(a, id, a.records[id], Begin(r, rotation, prepare))
    ensures var b := Perform(a, id, a.records[id], Begin(r, rotation, prepare));
            if prepare.Ready? && a.now < a.records[id].idleUntil
            then id in b.records
                 && b.requests == a.requests[r := Request(id, b.records[id], b.records[id], false, Waiting)]
            else b.requests == a.requests
  {}

  // ---------------------------------------------------------------- second lease

  /** Request `r` awaits its online check and its record is unchanged in everything
      the merge compares. */
  ghost predicate Undisturbed(a: Registry, r: nat) {
    && r in a.requests && a.requests[r].phase == Waiting && a.requests[r].id in a.records
    && SameIdentity(a.records[a.requests[r].id], a.requests[r].before)
  }

  function Answered(a: Registry, r: nat, online: Online, rotation: seq<nat>): Registry {
    Step(a, Check(r, online, rotation))
  }

  lemma AnsweredRequest(a: Registry, r: nat, online: Online, rotation: seq<nat>)
    requires Inv(a) && Undisturbed(a, r) && (online.Adopted? ==> online.organization != "")
    ensures var b := Answered(a, r, online, rotation);
            var v := a.requests[r].before.(sdk := a.requests[r].before.sdk + rotation);
            && Inv(b) && b.records == a.records && b.lineage == a.lineage && b.now == a.now && b.issued == a.issued
            && r in b.requests
            && b.requests[r] == Request(a.requests[r].id, v, Handle(v, online, a.now, false),
                                        Removes(v, online, a.now, false), Checked)
  {
    assert RequestOk(a, a.requests[r]);
    StepPreservesInv(a, Check(r, online, rotation));
  }

  lemma FinishedRecords(b: Registry, r: nat, id: nat, v: Session, online: Online, next: nat, csrf: nat)
    requires Inv(b) && r in b.requests && id in b.records && SameIdentity(b.records[id], v)
    requires SessionOk(v, b.now) && SameLogin(b.records[id], v) && v.idleUntil <= b.records[id].idleUntil
    requires b.requests[r] == Request(id, v, Handle(v, online, b.now, false), Removes(v, online, b.now, false), Checked)
    requires Fresh(b, next, csrf) && (online.Adopted? ==> online.organization != "")
    ensures id in b.lineage && Admissible(b, id, b.records[id], Finish(r, next, csrf))
    ensures var n := Perform(b, id, b.records[id], Finish(r, next, csrf));
            && n.records == FinishOutcome(b.records, id, online, v.sdk == b.records[id].sdk, b.now, next, csrf)
            && (next in n.records ==> next in n.lineage && n.lineage[next] == b.lineage[id])
  {
    NextIdleReachesEverySession(b.records[id], b.now);
    NextIdleReachesEverySession(v, b.now);
    var now := Perform(b, id, b.records[id], Finish(r, next, csrf)).records;
    var due := FinishOutcome(b.records, id, online, v.sdk == b.records[id].sdk, b.now, next, csrf);
    assert now.Keys == due.Keys;
    forall x | x in due ensures now[x] == due[x] {}
  }

  /** End to end: for every answer of the online check, what an undisturbed request
      leaves in the store is exactly its `FinishOutcome`; a rotated id continues the
      same login. */
  lemma CheckThenFinish(a: Registry, r: nat, online: Online, rotation: seq<nat>, seen: nat, next: nat, csrf: nat)
    requires Inv(a) && Undisturbed(a, r) && Fresh(a, next, csrf) && (online.Adopted? ==> online.organization != "")
    requires ReadAlive(a, a.requests[r].id, seen)
    ensures var id := a.requests[r].id;
            var current := a.requests[r].before.sdk + rotation == a.records[id].sdk;
            var b := Step(Answered(a, r, online, rotation), Use(id, seen, Finish(r, next, csrf)));
            && b.records == FinishOutcome(a.records, id, online, current, a.now, next, csrf)
            && (next in b.records ==> next in b.lineage && id in a.lineage && b.lineage[next] == a.lineage[id])
  {
    assert RequestOk(a, a.requests[r]);
    AnsweredRequest(a, r, online, rotation);
    var b := Answered(a, r, online, rotation);
    FinishedRecords(b, r, a.requests[r].id, b.requests[r].before, online, next, csrf);
  }

  // --------------------------------------------------------------- resource mode

  /** What the lease holder writes, if anything: the record under its own or a new id. */
  lemma ResourcePlan(a: Registry, id: nat, rotation: seq<nat>, online: Online, next: nat, csrf: nat)
    requires Inv(a) && id in a.records && Fresh(a, next, csrf) && (online.Adopted? ==> online.organization != "")
    ensures id in a.lineage && Admissible(a, id, a.records[id], Resource(rotation, online, next, csrf))
    ensures var plan := PlanOf(a, id, a.records[id], Resource(rotation, online, next, csrf));
            var due := ResourceOutcome(a.records, id, rotation, online, a.now, next, csrf);
            && (plan.Remove? ==> due == a.records - {id} && SchemaValid(plan.value, a.now))
            && (plan.Write? && a.now < plan.value.idleUntil ==> due == (a.records - {id})[plan.id := plan.value])
            && (plan.Write? && a.now >= plan.value.idleUntil ==> due == a.records)
            && (plan.Write? ==> SchemaValid(plan.value, a.now)) && !plan.Abandon?
            && (plan.Write? ==> plan.id == id || plan.id == next)
  {
    var plan := PlanOf(a, id, a.records[id], Resource(rotation, online, next, csrf));
    var due := ResourceOutcome(a.records, id, rotation, online, a.now, next, csrf);
    if plan.Write? && a.now < plan.value.idleUntil {
      assert due.Keys == (a.records - {id})[plan.id := plan.value].Keys;
      forall x | x in due ensures due[x] == (a.records - {id})[plan.id := plan.value][x] {}
    }
  }

  lemma ResourcePerforms(a: Registry, id: nat, rotation: seq<nat>, online: Online, next: nat, csrf: nat)
    requires Inv(a) && id in a.records && Fresh(a, next, csrf) && (online.Adopted? ==> online.organization != "")
    ensures id in a.lineage && Admissible(a, id, a.records[id], Resource(rotation, online, next, csrf))
    ensures var b := Perform(a, id, a.records[id], Resource(rotation, online, next, csrf));
            && b.records == ResourceOutcome(a.records, id, rotation, online, a.now, next, csrf)
            && (next in b.records ==> next in b.lineage && b.lineage[next] == a.lineage[id])
  {
    ResourcePlan(a, id, rotation, online, next, csrf);
  }

  /** For every answer, what a request in resource mode leaves in the store is exactly
      its `ResourceOutcome`; a rotated id continues the same login. */
  lemma ResourceStores(a: Registry, id: nat, seen: nat, rotation: seq<nat>, online: Online, next: nat, csrf: nat)
    requires Inv(a) && ReadAlive(a, id, seen) && Fresh(a, next, csrf)
    requires online.Adopted? ==> online.organization != ""
    ensures var b := Step(a, Use(id, seen, Resource(rotation, online, next, csrf)));
            && b.records == ResourceOutcome(a.records, id, rotation, online, a.now, next, csrf)
            && (next in b.records ==> next in b.lineage && id in a.lineage && b.lineage[next] == a.lineage[id])
  {
    ResourcePerforms(a, id, rotation, online, next, csrf);
  }
}
