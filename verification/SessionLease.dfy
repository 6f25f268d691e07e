/** The leased session store: the record and the lock are separate keys, either
    of which may vanish between any two steps, and a lease holder works on the
    copy its acquire returned.  Every run of this machine is a run of the atomic
    registry of SessionAtomic. */
module SessionLease {
  import opened SessionPolicy
  import A = SessionAtomic

  /** What acquire handed to a lease owner, and when. */
  datatype Grant = Grant(id: nat, value: Session, at: nat)

  datatype State = State(
    registry: A.Registry,
    locks: map<nat, nat>,          // session id -> owner token
    grants: map<nat, Grant>)       // owner token -> what it was given

  datatype Event =
    | Outside(event: A.Event)                       // clock, record expiry, login, online check
    | DropLock(id: nat)                             // the lease ran out
    | Acquire(id: nat, owner: nat)
    | Release(id: nat, owner: nat)
    | Commit(id: nat, owner: nat, update: A.Update)

  /** Events that touch records without a lease: everything but a use. */
  predicate Unleased(e: A.Event) { !e.Use? }

  /** The condition commit's script evaluates: the lock is still this owner's and
      the source record still exists. */
  predicate Holds(s: State, id: nat, owner: nat) {
    id in s.locks && s.locks[id] == owner && id in s.registry.records && id in s.registry.lineage
  }

  /** The commit of `update` by `owner` reaches the store and takes effect. */
  predicate Effective(s: State, id: nat, owner: nat, u: A.Update) {
    && owner in s.grants && s.grants[owner].id == id && Holds(s, id, owner)
    && A.Admissible(s.registry, id, s.grants[owner].value, u)
    && A.CommitAccepts(A.PlanOf(s.registry, id, s.grants[owner].value, u), s.registry.now)
  }

  function Step(s: State, e: Event): State {
    match e
    case Outside(x) => if Unleased(x) then s.(registry := A.Step(s.registry, x)) else s
    case DropLock(id) => s.(locks := s.locks - {id})
    case Acquire(id, owner) =>
      if owner in s.registry.issued || id !in s.registry.records || id in s.locks then s
      else
        var value := s.registry.records[id];
        State(A.Step(s.registry, A.Draw(owner)), s.locks[id := owner],
              if SessionDeadline(value, s.registry.now).Until?
              then s.grants[owner := Grant(id, value, s.registry.now)] else s.grants)
    case Release(id, owner) =>
      if id in s.locks && s.locks[id] == owner then s.(locks := s.locks - {id}) else s
    case Commit(id, owner, u) =>
      if owner !in s.grants || s.grants[owner].id != id || !Holds(s, id, owner)
         || !A.Admissible(s.registry, id, s.grants[owner].value, u) then s
      else
        State(A.Perform(s.registry, id, s.grants[owner].value, u),
              if Effective(s, id, owner, u) then s.locks - {id} else s.locks, s.grants)
  }

  function Init(start: nat): State { State(A.Init(start), map[], map[]) }

  function Run(s: State, es: seq<Event>): State
    decreases |es|
  {
    if es == [] then s else Step(Run(s, es[..|es| - 1]), es[|es| - 1])
  }

  // ------------------------------------------------------------ lease invariant

  /** A lease that is still in place guards exactly the value its owner read. */
  ghost predicate LeasesGuard(s: State) {
    forall id :: id in s.locks && s.locks[id] in s.grants ==>
      && s.grants[s.locks[id]].id == id
      && (id in s.registry.records ==> s.registry.records[id] == s.grants[s.locks[id]].value)
  }

  ghost predicate TokensIssued(s: State) {
    && (forall id :: id in s.locks ==> id in s.registry.issued && s.locks[id] in s.registry.issued)
    && (forall o :: o in s.grants ==> o in s.registry.issued)
  }

  /** Every granted value was alive when it was handed out. */
  ghost predicate GrantsAlive(s: State) {
    forall o :: o in s.grants ==>
      s.grants[o].at <= s.registry.now && SessionDeadline(s.grants[o].value, s.grants[o].at).Until?
  }

  ghost predicate Inv(s: State) {
    A.Inv(s.registry) && LeasesGuard(s) && TokensIssued(s) && GrantsAlive(s)
  }

  /** The atomic event an event of the leased machine amounts to. */
  function Atomically(s: State, e: Event): A.Event {
    match e
    case Outside(x) => if Unleased(x) then x else A.Tick(0)
    case Acquire(id, owner) =>
      if owner in s.registry.issued || id !in s.registry.records || id in s.locks then A.Tick(0) else A.Draw(owner)
    case Commit(id, owner, u) =>
      if owner !in s.grants || s.grants[owner].id != id || !Holds(s, id, owner)
         || !A.Admissible(s.registry, id, s.grants[owner].value, u) then A.Tick(0)
      else A.Use(id, s.grants[owner].at, u)
    case _ => A.Tick(0)
  }

  /** The heart of the lease: a use under a lease is an atomic use. */
  lemma StepRefines(s: State, e: Event)
    requires Inv(s)
    ensures Step(s, e).registry == A.Step(s.registry, Atomically(s, e))
  {
  }

  /** A write reaches the record of a held lease or a brand-new id, nothing else. */
  lemma CommitTouchesOwnId(s: State, id: nat, owner: nat, u: A.Update, other: nat)
    requires Inv(s) && other in s.registry.issued && other != id
    ensures var t := Step(s, Commit(id, owner, u));
            other in t.registry.records ==>
              other in s.registry.records && t.registry.records[other] == s.registry.records[other]
  {
    if Step(s, Commit(id, owner, u)) != s { A.PlanFollows(s.registry, id, u); }
  }

  lemma CommitKeepsGuards(s: State, id: nat, owner: nat, u: A.Update)
    requires Inv(s)
    ensures LeasesGuard(Step(s, Commit(id, owner, u)))
  {
    var t := Step(s, Commit(id, owner, u));
    forall i | i in t.locks && t.locks[i] in t.grants
      ensures t.grants[t.locks[i]].id == i
      ensures i in t.registry.records ==> t.registry.records[i] == t.grants[t.locks[i]].value
    {
      assert i in s.locks && s.locks[i] == t.locks[i];
      if i != id { CommitTouchesOwnId(s, id, owner, u, i); }
    }
  }

  /** Events without a lease never rewrite an existing record. */
  lemma OutsideKeepsGuards(s: State, x: A.Event)
    requires Inv(s)
    ensures LeasesGuard(Step(s, Outside(x)))
  {
  }

  lemma StepKeepsTokens(s: State, e: Event)
    requires Inv(s)
    ensures TokensIssued(Step(s, e)) && GrantsAlive(Step(s, e))
  {
    StepRefines(s, e);
    A.StepGrows(s.registry, Atomically(s, e));
  }

  lemma StepPreservesInv(s: State, e: Event)
    requires Inv(s)
    ensures Inv(Step(s, e))
  {
    StepRefines(s, e);
    A.StepPreservesInv(s.registry, Atomically(s, e));
    StepKeepsTokens(s, e);
    match e
    case Commit(id, owner, u) => CommitKeepsGuards(s, id, owner, u);
    case Outside(x) => OutsideKeepsGuards(s, x);
    case _ =>
  }

  lemma {:induction false} Reachable(start: nat, es: seq<Event>)
    ensures Inv(Run(Init(start), es))
    decreases |es|
  {
    if es != [] {
      Reachable(start, es[..|es| - 1]);
      StepPreservesInv(Run(Init(start), es[..|es| - 1]), es[|es| - 1]);
    }
  }

  /** The atomic run behind a leased run. */
  function Trace(s: State, es: seq<Event>): seq<A.Event>
    decreases |es|
  {
    if es == [] then []
    else Trace(s, es[..|es| - 1]) + [Atomically(Run(s, es[..|es| - 1]), es[|es| - 1])]
  }

  /** Refinement: for every interleaving of acquires, releases, commits, logins
      and expiries, the records evolve as in the atomic run `Trace`. */
  lemma {:induction false} LeasedRunRefines(start: nat, es: seq<Event>)
    ensures Run(Init(start), es).registry == A.Run(A.Init(start), Trace(Init(start), es))
    decreases |es|
  {
    if es != [] {
      var front := es[..|es| - 1];
      LeasedRunRefines(start, front);
      Reachable(start, front);
      StepRefines(Run(Init(start), front), es[|es| - 1]);
      A.RunAppend(A.Init(start), Trace(Init(start), front), Atomically(Run(Init(start), front), es[|es| - 1]));
    }
  }

  // ------------------------------------------------------------- consequences

  /** No lost update: a commit that takes effect acts on the very record its own
      acquire returned, whatever happened to lock and record in between. */
  lemma CommitActsOnOwnRead(start: nat, es: seq<Event>, id: nat, owner: nat, u: A.Update)
    requires Effective(Run(Init(start), es), id, owner, u)
    ensures var s := Run(Init(start), es); s.registry.records[id] == s.grants[owner].value
  {
    Reachable(start, es);
  }

  /** A lease lost to expiry is lost for good: once another owner holds the lock,
      or nobody does, the old owner's commits are refused for the rest of the run. */
  lemma {:induction false} LostLeaseStaysLost(s: State, es: seq<Event>, id: nat, owner: nat)
    requires Inv(s) && owner in s.registry.issued && (id !in s.locks || s.locks[id] != owner)
    ensures var t := Run(s, es);
            Inv(t) && owner in t.registry.issued && (id !in t.locks || t.locks[id] != owner)
    decreases |es|
  {
    if es != [] {
      LostLeaseStaysLost(s, es[..|es| - 1], id, owner);
      var t := Run(s, es[..|es| - 1]);
      StepPreservesInv(t, es[|es| - 1]);
      StepRefines(t, es[|es| - 1]);
      A.StepGrows(t.registry, Atomically(t, es[|es| - 1]));
    }
  }

  lemma {:induction false} ForwardFrom(s: State, more: seq<Event>)
    requires Inv(s)
    ensures Inv(Run(s, more)) && A.Later(s.registry, Run(s, more).registry)
    decreases |more|
  {
    if more == [] {
      A.ForwardOnly(s.registry, []);
    } else {
      var front := more[..|more| - 1];
      ForwardFrom(s, front);
      StepRefines(Run(s, front), more[|more| - 1]);
      A.LaterStep(s.registry, Run(s, front).registry, Atomically(Run(s, front), more[|more| - 1]));
      StepPreservesInv(Run(s, front), more[|more| - 1]);
    }
  }

  /** From any reachable state on, in every interleaving: a vanished id stays
      vanished, a login has at most one live record, its idle deadline never
      shrinks, its absolute deadline never moves, its credentials only extend. */
  lemma LeasedForwardOnly(start: nat, es: seq<Event>, more: seq<Event>)
    ensures var s := Run(Init(start), es);
            Inv(s) && Inv(Run(s, more)) && A.Later(s.registry, Run(s, more).registry)
  {
    Reachable(start, es);
    ForwardFrom(Run(Init(start), es), more);
  }

  /** Acquire never yields a session at or after seven days past its login, nor
      one whose idle deadline has passed; and no stored session is good for more
      than eight hours without activity. */
  lemma DeadlinesHold(start: nat, es: seq<Event>, id: nat, owner: nat)
    ensures var s := Run(Init(start), es);
            && (owner in s.grants ==> s.grants[owner].at < s.grants[owner].value.authenticatedAt + 7 * 24 * 3600 * 1000
                                      && s.grants[owner].at < s.grants[owner].value.idleUntil)
            && (id in s.registry.records ==>
                  s.registry.records[id].until == s.registry.records[id].idleUntil
                    <= s.registry.records[id].absoluteUntil
                    == s.registry.records[id].authenticatedAt + 7 * 24 * 3600 * 1000
                  && s.registry.records[id].idleUntil <= s.registry.now + 8 * 3600 * 1000)
  {
    Reachable(start, es);
  }

  /** Every write extends the credentials stored at that moment, and a finish
      writes back exactly the ones it finds: never an older generation. */
  lemma CredentialsChain(start: nat, es: seq<Event>, id: nat, owner: nat, u: A.Update)
    requires Effective(Run(Init(start), es), id, owner, u)
    ensures var s := Run(Init(start), es);
            var plan := A.PlanOf(s.registry, id, s.grants[owner].value, u);
            var t := Step(s, Commit(id, owner, u));
            && (plan.Write? ==>
                  plan.id in t.registry.records && s.registry.records[id].sdk <= t.registry.records[plan.id].sdk)
            && (plan.Write? && u.Finish? ==> t.registry.records[plan.id].sdk == s.registry.records[id].sdk)
  {
    Reachable(start, es);
    A.PlanFollows(Run(Init(start), es).registry, id, u);
  }

  /** A delayed 401 (or logout) removes a session only while the stored SDK
      generation, subject, organization, revision and CSRF value are still the
      ones this request was given. */
  lemma DelayedRemovalIsFenced(start: nat, es: seq<Event>, id: nat, owner: nat, r: nat, next: nat, csrf: nat)
    requires var s := Run(Init(start), es);
             Effective(s, id, owner, A.Finish(r, next, csrf)) && s.registry.requests[r].remove
    ensures var s := Run(Init(start), es);
            var before := s.registry.requests[r].before;
            var stored := s.registry.records[id];
            && stored.sdk == before.sdk && stored.subject == before.subject && stored.csrf == before.csrf
            && stored.organization == before.organization && stored.revision == before.revision
            && id !in Step(s, Commit(id, owner, A.Finish(r, next, csrf))).registry.records
  {
    Reachable(start, es);
  }

  /** Under leases too, finishing after a check that failed with neither 401 nor
      403 changes no record, id or login. */
  lemma LeasedSoftFailureIsNoOp(start: nat, es: seq<Event>, id: nat, owner: nat, f: nat, next: nat, csrf: nat)
    requires A.CheckFailedSoftly(Run(Init(start), es).registry, f)
    ensures var s := Run(Init(start), es);
            A.SameExcept(Step(s, Commit(id, owner, A.Finish(f, next, csrf))).registry, s.registry, f)
  {
    var s := Run(Init(start), es);
    Reachable(start, es);
    var e := Commit(id, owner, A.Finish(f, next, csrf));
    StepRefines(s, e);
    if Step(s, e) != s {
      A.SoftFailureFinishIsNoOp(s.registry, id, s.grants[owner].at, f, next, csrf);
    }
  }

  // -------------------------------- failed checks leave no trace, under leases too

  /** Two stores that differ at most in the bookkeeping of request `f`. */
  ghost predicate SameApart(a: State, b: State, f: nat) {
    A.SameExcept(a.registry, b.registry, f) && a.locks == b.locks && a.grants == b.grants
  }

  predicate Mentions(e: Event, f: nat) {
    match e
    case Outside(x) => A.Mentions(x, f)
    case Commit(id, _, u) => A.Mentions(A.Use(id, 0, u), f)
    case _ => false
  }

  lemma SameApartCommit(a: State, b: State, f: nat, id: nat, owner: nat, u: A.Update)
    requires SameApart(a, b, f) && !Mentions(Commit(id, owner, u), f)
    ensures SameApart(Step(a, Commit(id, owner, u)), Step(b, Commit(id, owner, u)), f)
  {
    if owner in a.grants && a.grants[owner].id == id && Holds(a, id, owner) {
      var current := a.grants[owner].value;
      A.SameExceptAdmissible(a.registry, b.registry, f, id, current, u);
      if A.Admissible(a.registry, id, current, u) { A.SameExceptPerform(a.registry, b.registry, f, id, current, u); }
    }
  }

  lemma SameApartStep(a: State, b: State, f: nat, e: Event)
    requires SameApart(a, b, f) && !Mentions(e, f)
    ensures SameApart(Step(a, e), Step(b, e), f)
  {
    match e
    case Outside(x) => A.SameExceptStep(a.registry, b.registry, f, x);
    case Commit(id, owner, u) => SameApartCommit(a, b, f, id, owner, u);
    case Acquire(id, owner) => A.SameExceptStep(a.registry, b.registry, f, A.Draw(owner));
    case _ =>
  }

  lemma {:induction false} SameApartRun(a: State, b: State, f: nat, es: seq<Event>)
    requires SameApart(a, b, f) && (forall e :: e in es ==> !Mentions(e, f))
    ensures SameApart(Run(a, es), Run(b, es), f)
    decreases |es|
  {
    if es != [] {
      SameApartRun(a, b, f, es[..|es| - 1]);
      SameApartStep(Run(a, es[..|es| - 1]), Run(b, es[..|es| - 1]), f, es[|es| - 1]);
    }
  }

  /** A softly failed request's commit and its deferred release, against the release
      alone. */
  lemma SoftCommitIsRelease(start: nat, es: seq<Event>, id: nat, owner: nat, f: nat, next: nat, csrf: nat)
    requires A.CheckFailedSoftly(Run(Init(start), es).registry, f)
    ensures var s := Run(Init(start), es);
            var finished := Step(Step(s, Commit(id, owner, A.Finish(f, next, csrf))), Release(id, owner));
            SameApart(finished, Step(s, Release(id, owner)), f)
  {
    LeasedSoftFailureIsNoOp(start, es, id, owner, f, next, csrf);
  }

  /** Interference freedom under leases: in every continuation the records, locks and
      leases, and every sibling request, are as if the failed request had only
      given its lease back. */
  lemma LeasedSoftFailureIsInvisible(start: nat, es: seq<Event>, id: nat, owner: nat, f: nat, next: nat, csrf: nat,
                                     after: seq<Event>)
    requires A.CheckFailedSoftly(Run(Init(start), es).registry, f)
    requires forall e :: e in after ==> !Mentions(e, f)
    ensures var s := Run(Init(start), es);
            var finished := Step(Step(s, Commit(id, owner, A.Finish(f, next, csrf))), Release(id, owner));
            SameApart(Run(finished, after), Run(Step(s, Release(id, owner)), after), f)
  {
    SoftCommitIsRelease(start, es, id, owner, f, next, csrf);
    var s := Run(Init(start), es);
    var finished := Step(Step(s, Commit(id, owner, A.Finish(f, next, csrf))), Release(id, owner));
    SameApartRun(finished, Step(s, Release(id, owner)), f, after);
  }
}
