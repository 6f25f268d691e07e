/** The browser-session value kept by the BFF and the pure policy over it:
    schema check, deadlines, idle extension, the optimistic merge of a stale
    snapshot, and what an online identity check does to a snapshot.

    Times are milliseconds, 0 standing for the zero time.  The SDK storage map
    is represented by the sequence of credential rotations that produced it, so
    equality of maps is equality of sequences and "derives from" is "extends". */
module SessionPolicy {

  const POLICY_VERSION: nat := 2
  const IDLE_LIFETIME: nat := 8 * 60 * 60 * 1000
  const ABSOLUTE_LIFETIME: nat := 7 * 24 * 60 * 60 * 1000

  datatype Session = Session(
    sdk: seq<nat>,
    subject: string,
    organization: string,
    revision: string,
    csrf: nat,
    until: nat,
    policy: nat,
    authenticatedAt: nat,
    idleUntil: nat,
    absoluteUntil: nat)

  predicate SchemaValid(v: Session, now: nat) {
    && v.policy == POLICY_VERSION
    && v.authenticatedAt != 0 && v.authenticatedAt <= now
    && v.idleUntil != 0 && v.absoluteUntil != 0
    && v.until == v.idleUntil
    && v.authenticatedAt <= v.idleUntil <= v.absoluteUntil
    && v.absoluteUntil == v.authenticatedAt + ABSOLUTE_LIFETIME
  }

  datatype Deadline = Until(at: nat) | Missing | Invalid

  /** A deadline exists exactly for a well-formed session whose idle time is
      still ahead; it is the idle deadline, and never lies beyond seven days after
      the login. */
  function SessionDeadline(v: Session, now: nat): (r: Deadline)
    ensures r.Until? <==> SchemaValid(v, now) && now < v.idleUntil
    ensures r.Until? ==> now < r.at == v.idleUntil <= v.authenticatedAt + 7 * 24 * 3600 * 1000
    ensures r.Invalid? <==> !(&& v.policy == 2 && 0 < v.authenticatedAt <= now
                              && v.authenticatedAt <= v.idleUntil == v.until <= v.absoluteUntil
                              && v.absoluteUntil == v.authenticatedAt + 7 * 24 * 3600 * 1000)
  {
    if !SchemaValid(v, now) then Invalid
    else
      var deadline := if v.absoluteUntil < v.idleUntil then v.absoluteUntil else v.idleUntil;
      if now < deadline then Until(deadline) else Missing
  }

  /** The latest instant that is within eight hours and not past the absolute end. */
  function NextSessionIdle(now: nat, absolute: nat): (r: nat)
    ensures r <= now + 8 * 3600 * 1000 && r <= absolute
    ensures r == now + 8 * 3600 * 1000 || r == absolute
  {
    var next := now + IDLE_LIFETIME;
    if next > absolute then absolute else next
  }

  /** The session a successful login callback stores. */
  function NewSession(now: nat, sdk: seq<nat>, subject: string, organization: string, revision: string,
                      csrf: nat): Session {
    Session(sdk, subject, organization, revision, csrf, now + IDLE_LIFETIME, POLICY_VERSION,
            now, now + IDLE_LIFETIME, now + ABSOLUTE_LIFETIME)
  }

  /** Two values of one login: the person and the fixed deadlines agree. */
  predicate SameLogin(a: Session, b: Session) {
    a.subject == b.subject && a.authenticatedAt == b.authenticatedAt && a.absoluteUntil == b.absoluteUntil
  }

  /** What every stored session satisfies at time `now`. */
  predicate SessionOk(v: Session, now: nat) {
    SchemaValid(v, now) && v.idleUntil <= now + IDLE_LIFETIME
  }

  datatype MergeResult = Merged(value: Session) | Conflict | Malformed

  predicate SameIdentity(a: Session, b: Session) {
    a.subject == b.subject && a.organization == b.organization && a.revision == b.revision && a.csrf == b.csrf
  }

  /** Only a later idle deadline is taken over from a snapshot; everything else
      stays as it is in `current`. */
  function MergeIdentityUpdate(current: Session, before: Session, value: Session, now: nat): (r: MergeResult)
    ensures r.Merged? ==> && current.subject == before.subject && current.organization == before.organization
                          && current.revision == before.revision && current.csrf == before.csrf
    ensures r.Malformed? ==> SameIdentity(current, before) && !(SchemaValid(current, now) && SchemaValid(value, now))
    ensures r.Merged? ==> value.authenticatedAt == current.authenticatedAt == before.authenticatedAt
    ensures r.Merged? ==> SchemaValid(r.value, now) && SameLogin(r.value, current) && SameIdentity(r.value, current)
    ensures r.Merged? ==> r.value.sdk == current.sdk && current.idleUntil <= r.value.idleUntil
  {
    if !SameIdentity(current, before) then Conflict
    else if !SchemaValid(current, now) || !SchemaValid(value, now) then Malformed
    else if before.policy != POLICY_VERSION
         || current.authenticatedAt != before.authenticatedAt || value.authenticatedAt != before.authenticatedAt
         || current.absoluteUntil != before.absoluteUntil || value.absoluteUntil != before.absoluteUntil then Conflict
    else
      var idle := if value.idleUntil > current.idleUntil then value.idleUntil else current.idleUntil;
      Merged(current.(idleUntil := idle, until := idle))
  }
}
