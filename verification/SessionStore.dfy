/** The session store as the program works on it: Redis keys changed in place by
    atomic scripts, an acquire loop that waits for a busy lease, and the two
    identity leases built from them.  The scripts are tied to the events of
    SessionLease and the identity methods to the atomic updates of SessionAtomic. */
module SessionStore {
  import opened SessionPolicy
  import A = SessionAtomic
  import L = SessionLease
  import O = SessionOutcomes

  datatype Keys = Keys(now: nat, records: map<nat, Session>, locks: map<nat, nat>)

  /** What other clients and the clock do to the keys while this one sleeps. */
  datatype Rival =
    | Elapse(elapsed: nat)
    | PutRecord(id: nat, value: Session)
    | DelRecord(id: nat)
    | PutLock(id: nat, owner: nat)
    | DelLock(id: nat)

  function Apply(k: Keys, r: Rival): Keys {
    match r
    case Elapse(d) => k.(now := k.now + d)
    case PutRecord(id, v) => k.(records := k.records[id := v])
    case DelRecord(id) => k.(records := k.records - {id})
    case PutLock(id, o) => k.(locks := k.locks[id := o])
    case DelLock(id) => k.(locks := k.locks - {id})
  }

  function ApplyAll(k: Keys, rs: seq<Rival>): Keys
    decreases |rs|
  {
    if rs == [] then k else ApplyAll(Apply(k, rs[0]), rs[1..])
  }

  /** Nobody else ever uses this owner token. */
  predicate Foreign(rs: seq<Rival>, owner: nat) {
    forall r :: r in rs ==> !(r.PutLock? && r.owner == owner)
  }

  lemma ApplyAllForeign(k: Keys, rs: seq<Rival>, owner: nat)
    requires Foreign(rs, owner) && (forall id :: id in k.locks ==> k.locks[id] != owner)
    ensures forall id :: id in ApplyAll(k, rs).locks ==> ApplyAll(k, rs).locks[id] != owner
    decreases |rs|
  {
    if rs != [] {
      assert rs[0] in rs;
      ApplyAllForeign(Apply(k, rs[0]), rs[1..], owner);
    }
  }

  /** The keys as acquire's decisive script call finds them: the first moment at
      which the record is gone or the lock is free, or the end of its budget. */
  function Decisive(k: Keys, id: nat, naps: seq<seq<Rival>>): Keys
    decreases |naps|
  {
    if id !in k.records || id !in k.locks || naps == [] then k
    else Decisive(ApplyAll(k, naps[0]), id, naps[1..])
  }

  /** The keys after the first `n` waits. */
  function After(k: Keys, naps: seq<seq<Rival>>, n: nat): Keys
    requires n <= |naps|
    decreases n
  {
    if n == 0 then k else ApplyAll(After(k, naps, n - 1), naps[n - 1])
  }

  predicate Contended(k: Keys, id: nat) { id in k.records && id in k.locks }

  lemma {:induction false} AfterShifts(k: Keys, naps: seq<seq<Rival>>, n: nat)
    requires 0 < n <= |naps|
    ensures After(k, naps, n) == After(ApplyAll(k, naps[0]), naps[1..], n - 1)
    decreases n
  {
    if n > 1 { AfterShifts(k, naps, n - 1); }
  }

  /** Acquire waits as long as the lease is contended and its budget lasts, and no
      longer: it decides after the first wait that ends the contention. */
  lemma {:induction false} DecidesWhenFree(k: Keys, id: nat, naps: seq<seq<Rival>>) returns (n: nat)
    ensures n <= |naps| && Decisive(k, id, naps) == After(k, naps, n)
    ensures n == |naps| || !Contended(After(k, naps, n), id)
    ensures forall m: nat :: m < n ==> Contended(After(k, naps, m), id)
    decreases |naps|
  {
    if !Contended(k, id) || naps == [] {
      n := 0;
    } else {
      var later := DecidesWhenFree(ApplyAll(k, naps[0]), id, naps[1..]);
      n := later + 1;
      forall m: nat | m <= n ensures m > 0 ==> After(k, naps, m) == After(ApplyAll(k, naps[0]), naps[1..], m - 1) {
        if m > 0 { AfterShifts(k, naps, m); }
      }
    }
  }

  datatype Acquired = Owned(value: Session) | Absent | Busy | Broken
  datatype Committed = Done | Refused(deadline: Deadline)

  /** release's script: only the owner can delete the lock. */
  function ReleaseScript(k: Keys, id: nat, owner: nat): Keys {
    if id in k.locks && k.locks[id] == owner then k.(locks := k.locks - {id}) else k
  }

  function CommitScript(k: Keys, id: nat, owner: nat, next: nat, value: Session, remove: bool): Keys {
    if id !in k.locks || k.locks[id] != owner || id !in k.records then k
    else
      Keys(k.now, if remove then k.records - {id} else (k.records - {id})[next := value], k.locks - {id})
  }

  class Store {
    var now: nat
    var records: map<nat, Session>
    var locks: map<nat, nat>

    ghost function View(): Keys reads this { Keys(now, records, locks) }

    method Sleep(rivals: seq<Rival>)
      modifies this
      ensures View() == ApplyAll(old(View()), rivals)
    {
      var i := 0;
      while i < |rivals|
        invariant 0 <= i <= |rivals|
        invariant ApplyAll(View(), rivals[i..]) == ApplyAll(old(View()), rivals)
      {
        match rivals[i] {
          case Elapse(d) => now := now + d;
          case PutRecord(id, v) => records := records[id := v];
          case DelRecord(id) => records := records - {id};
          case PutLock(id, o) => locks := locks[id := o];
          case DelLock(id) => locks := locks - {id};
        }
        assert rivals[i..][1..] == rivals[i + 1..];
        i := i + 1;
      }
    }

    method Release(id: nat, owner: nat)
      modifies this
      ensures View() == ReleaseScript(old(View()), id, owner)
      ensures now == old(now) && records == old(records)
      ensures locks == if id in old(locks) && old(locks)[id] == owner then old(locks) - {id} else old(locks)
    {
      if id in locks && locks[id] == owner {
        locks := locks - {id};
      }
    }

    /** The deferred release of both identity leases. */
    method ReleaseUnless(committed: bool, id: nat, owner: nat)
      modifies this
      ensures View() == if committed then old(View()) else ReleaseScript(old(View()), id, owner)
    {
      if !committed {
        Release(id, owner);
      }
    }

    /** Waits for the lease; `naps` says what happens during each bounded wait.
        Success hands out the record under a lock of this owner; every failure
        leaves no lock of this owner behind. */
    method Acquire(id: nat, owner: nat, naps: seq<seq<Rival>>) returns (r: Acquired)
      requires forall i :: i in locks ==> locks[i] != owner
      requires forall n :: n in naps ==> Foreign(n, owner)
      modifies this
      ensures var k := Decisive(old(View()), id, naps);
              && (id !in k.records ==> r == Absent && View() == k)
              && (id in k.records && id in k.locks ==> r == Busy && View() == k)
              && (id in k.records && id !in k.locks ==>
                    match SessionDeadline(k.records[id], k.now)
                    case Until(_) => r == Owned(k.records[id]) && View() == k.(locks := k.locks[id := owner])
                    case Missing => r == Absent && View() == k
                    case Invalid => r == Broken && View() == k)
      ensures r.Owned? <==> id in locks && locks[id] == owner
      ensures forall i :: i in locks && locks[i] == owner ==> i == id
    {
      var naptime := 0;
      while true
        invariant 0 <= naptime <= |naps|
        invariant Decisive(View(), id, naps[naptime..]) == Decisive(old(View()), id, naps)
        invariant forall i :: i in locks ==> locks[i] != owner
        decreases |naps| - naptime
      {
        if id !in records {
          return Absent;
        }
        if id in locks {
          if naptime == |naps| { return Busy; }
          ghost var before := View();
          assert naps[naptime] in naps;
          Sleep(naps[naptime]);
          ApplyAllForeign(before, naps[naptime], owner);
          assert naps[naptime..][1..] == naps[naptime + 1..];
          naptime := naptime + 1;
        } else {
          ghost var k := View();
          locks := locks[id := owner];
          var value := records[id];
          match SessionDeadline(value, now) {
            case Until(_) =>
              return Owned(value);
            case Missing =>
              Release(id, owner);
              assert locks == k.locks;
              return Absent;
            case Invalid =>
              Release(id, owner);
              assert locks == k.locks;
              return Broken;
          }
        }
      }
    }

    method Commit(id: nat, owner: nat, next: nat, value: Session, remove: bool) returns (r: Committed)
      modifies this
      ensures !SchemaValid(value, now) || (!remove && !SessionDeadline(value, now).Until?) ==>
                r.Refused? && View() == old(View())
      ensures r == Done ==> View() == CommitScript(old(View()), id, owner, next, value, remove) != old(View())
      ensures r == Done ==> && now == old(now) && locks == old(locks) - {id}
                            && records == if remove then old(records) - {id} else (old(records) - {id})[next := value]
      ensures r.Refused? ==> View() == old(View())
      ensures r == Done <==> && SchemaValid(value, now) && (remove || SessionDeadline(value, now).Until?)
                             && id in old(locks) && old(locks)[id] == owner && id in old(records)
    {
      if !SchemaValid(value, now) { return Refused(Invalid); }
      if !remove {
        var deadline := SessionDeadline(value, now);
        if !deadline.Until? { return Refused(deadline); }
      }
      if id !in locks || locks[id] != owner || id !in records { return Refused(Missing); }
      assert id !in (locks - {id});
      if remove {
        records := records - {id};
      } else {
        records := records[next := value];
        if id != next { records := records - {id}; }
        assert records == (old(records) - {id})[next := value];
      }
      locks := locks - {id};
      return Done;
    }

    /** Stores a new login and deletes the session it replaces. */
    method Create(id: nat, value: Session, previous: nat) returns (r: Deadline)
      requires id != previous
      modifies this
      ensures r == SessionDeadline(value, now)
      ensures r.Until? ==> View() == old(View()).(records := (old(records) - {previous})[id := value])
      ensures !r.Until? ==> View() == old(View())
    {
      r := SessionDeadline(value, now);
      if r.Until? {
        records := records[id := value];
        records := records - {previous};
        assert records == (old(records) - {previous})[id := value];
      }
    }

    // ------------------------------------------------------ identity-mode leases

    /** First lease of a request: persist the credential rotation.  With an
        uncontended lease it is exactly the atomic begin update. */
    method BeginIdentity(id: nat, owner: nat, request: nat, rotation: seq<nat>, prepare: A.Prepare,
                         ghost world: A.Registry)
      returns (r: Acquired)
      requires id !in locks && (forall i :: i in locks ==> locks[i] != owner)
      requires A.Inv(world) && world.now == now && world.records == records && request !in world.requests
      modifies this
      ensures locks == old(locks) && now == old(now)
      ensures r.Owned? ==>
                var begin := A.Begin(request, rotation, prepare);
                && id in old(records) && records == A.Perform(world, id, old(records)[id], begin).records
                && records == O.BeginOutcome(old(records), id, rotation, prepare, now)
      ensures r.Owned? && !prepare.PrepareUnauthorized? ==> id in records && r.value == records[id]
      ensures !r.Owned? ==> records == old(records)
      ensures r.Owned? <==> id in old(records) && SessionDeadline(old(records)[id], now).Until?
    {
      r := Acquire(id, owner, []);
      if !r.Owned? { return; }
      var current := r.value;
      var value := current.(sdk := current.sdk + rotation);
      var remove := prepare.PrepareUnauthorized?;
      if prepare.PrepareUnauthorized? || prepare.PrepareForbidden? {
        value := value.(organization := "");
      }
      var done := Commit(id, owner, id, value, remove);
      ReleaseUnless(done == Done, id, owner);
      assert locks == old(locks);
      O.BeginPerforms(world, id, request, rotation, prepare);
      assert records == A.Perform(world, id, old(records)[id], A.Begin(request, rotation, prepare)).records;
      r := Owned(value);
    }

    /** Second lease: re-read, reject a stale removal, merge, commit.  With an
        uncontended lease it is exactly the atomic finish update. */
    method FinishIdentity(id: nat, owner: nat, request: nat, next: nat, csrf: nat, ghost world: A.Registry,
                          before: Session, checked: Session, remove: bool)
      returns (r: Committed)
      requires id !in locks && (forall i :: i in locks ==> locks[i] != owner)
      requires world.now == now && world.records == records && id in world.lineage && id in records
      requires A.Admissible(world, id, records[id], A.Finish(request, next, csrf))
      requires world.requests[request].before == before && world.requests[request].value == checked
      requires world.requests[request].remove == remove
      modifies this
      ensures locks == old(locks) && now == old(now)
      ensures SessionDeadline(old(records)[id], now).Until? ==>
                records == A.Perform(world, id, old(records)[id], A.Finish(request, next, csrf)).records
      ensures !SessionDeadline(old(records)[id], now).Until? ==> records == old(records) && r.Refused?
      ensures SessionDeadline(old(records)[id], now).Until? ==>
                var plan := A.PlanOf(world, id, old(records)[id], A.Finish(request, next, csrf));
                r == Done <==> A.CommitAccepts(plan, now)
    {
      var got := Acquire(id, owner, []);
      if !got.Owned? {
        return Refused(Missing);
      }
      var current := new SessionRef(got.value);
      if remove && before.sdk != current.value.sdk {
        Release(id, owner);
        assert locks == old(locks);
        return Refused(Missing);
      }
      var merge := current.MergeIdentityUpdate(before, checked, now);
      if !merge.Merged? {
        Release(id, owner);
        assert locks == old(locks);
        return Refused(Missing);
      }
      var moves := A.Rotates(before, checked) && !remove;
      current.value := current.value.(organization := checked.organization, revision := checked.revision,
                                      csrf := if moves then csrf else checked.csrf);
      r := Commit(id, owner, if moves then next else id, current.value, remove);
      ReleaseUnless(r == Done, id, owner);
      assert locks == old(locks);
    }

    /** Resource mode: one lease around the whole handler, then commit under the
        old or a fresh id.  With an uncontended lease it is exactly the atomic
        resource update. */
    method WithSession(id: nat, owner: nat, rotation: seq<nat>, online: A.Online, next: nat, csrf: nat,
                       ghost world: A.Registry)
      returns (r: Committed)
      requires id !in locks && (forall i :: i in locks ==> locks[i] != owner)
      requires A.Inv(world) && world.now == now && world.records == records && id in records
      requires A.Fresh(world, next, csrf) && (online.Adopted? ==> online.organization != "")
      modifies this
      ensures locks == old(locks) && now == old(now)
      ensures SessionDeadline(old(records)[id], now).Until? ==>
                records == O.ResourceOutcome(old(records), id, rotation, online, now, next, csrf)
      ensures !SessionDeadline(old(records)[id], now).Until? ==> records == old(records) && r.Refused?
      ensures SessionDeadline(old(records)[id], now).Until? ==> r == Done
    {
      var got := Acquire(id, owner, []);
      if !got.Owned? {
        return Refused(Missing);
      }
      var previousOrganization, previousRevision := got.value.organization, got.value.revision;
      var value := A.Handle(got.value.(sdk := got.value.sdk + rotation), online, now, true);
      var remove := A.Removes(got.value, online, now, true);
      var rotate := value.organization != ""
          && (previousOrganization != value.organization || previousRevision != value.revision);
      var nextId := id;
      if rotate {
        nextId := next;
        value := value.(csrf := csrf);
      }
      O.ResourcePerforms(world, id, rotation, online, next, csrf);
      r := Commit(id, owner, nextId, value, remove);
      ReleaseUnless(r == Done, id, owner);
      assert locks == old(locks);
    }
  }

  /** A session struct that the program updates in place. */
  class SessionRef {
    var value: Session

    constructor (v: Session)
      ensures value == v
    {
      value := v;
    }

    method MergeIdentityUpdate(before: Session, snapshot: Session, now: nat) returns (r: MergeResult)
      modifies this
      ensures r == SessionPolicy.MergeIdentityUpdate(old(value), before, snapshot, now)
      ensures value == if r.Merged? then r.value else old(value)
    {
      if !SameIdentity(value, before) { return Conflict; }
      if !SchemaValid(value, now) || !SchemaValid(snapshot, now) { return Malformed; }
      if before.policy != POLICY_VERSION
         || value.authenticatedAt != before.authenticatedAt || snapshot.authenticatedAt != before.authenticatedAt
         || value.absoluteUntil != before.absoluteUntil || snapshot.absoluteUntil != before.absoluteUntil
      {
        return Conflict;
      }
      var idle := value.idleUntil;
      if snapshot.idleUntil > idle {
        idle := snapshot.idleUntil;
      }
      value := value.(idleUntil := idle);
      value := value.(until := idle);
      return Merged(value);
    }

    /** renewSession once CSRF and headers were accepted: the online check either
        fails, reports another identity, or confirms; the extension is written
        and taken back when the view cannot be built: because the deadline has
        passed, or because reading the organization's claims failed. */
    method Renew(online: A.Online, resource: bool, viewFails: bool, now: nat) returns (renewed: bool)
      requires SchemaValid(value, now) && !online.Renewed? && !online.Ended?
      modifies this
      ensures renewed ==>
                var idle := NextSessionIdle(now, old(value).absoluteUntil);
                value == old(value).(idleUntil := idle, until := idle)
      ensures renewed ==> value == A.Handle(old(value), A.Renewed, now, resource)
      ensures renewed <==> && now < old(value).absoluteUntil && (resource ==> now < old(value).idleUntil) && !viewFails
                           && (online.Unchanged? || online == A.Adopted(old(value).organization, old(value).revision))
      ensures !renewed ==>
                var revoked := online.Unauthorized? || online.Forbidden?;
                value == if revoked then old(value).(organization := "") else old(value)
    {
      var organization, revision := value.organization, value.revision;
      match online {
        case Adopted(o, r) => value := value.(organization := o, revision := r);
        case Unauthorized => value := value.(organization := ""); return false;
        case Forbidden => value := value.(organization := ""); return false;
        case Unavailable => return false;
        case Unchanged =>
      }
      if value.organization != organization || value.revision != revision {
        value := value.(organization := organization, revision := revision);
        return false;
      }
      if resource && !SessionDeadline(value, now).Until? { return false; }
      var originalIdle, originalUntil := value.idleUntil, value.until;
      value := value.(idleUntil := NextSessionIdle(now, value.absoluteUntil));
      value := value.(until := value.idleUntil);
      if viewFails || !SessionDeadline(value, now).Until? {
        value := value.(idleUntil := originalIdle, until := originalUntil);
        return false;
      }
      return true;
    }
  }

  // ---------------------------------------------- scripts are machine events

  ghost function KeysOf(s: L.State): Keys { Keys(s.registry.now, s.registry.records, s.locks) }

  /** The commit script, given what its lease holder planned, is the commit event. */
  lemma CommitScriptIsCommit(s: L.State, id: nat, owner: nat, u: A.Update)
    requires L.Inv(s) && L.Effective(s, id, owner, u)
    ensures var plan := A.PlanOf(s.registry, id, s.grants[owner].value, u);
            KeysOf(L.Step(s, L.Commit(id, owner, u)))
              == CommitScript(KeysOf(s), id, owner, if plan.Write? then plan.id else id, plan.value, plan.Remove?)
  {
  }

  /** Release's script is the release event, and a decisive acquire on a free
      lease of a live record is the acquire event. */
  lemma ScriptsAreEvents(s: L.State, id: nat, owner: nat)
    requires L.Inv(s)
    ensures KeysOf(L.Step(s, L.Release(id, owner))) == ReleaseScript(KeysOf(s), id, owner)
    ensures owner !in s.registry.issued && id in s.registry.records && id !in s.locks ==>
              KeysOf(L.Step(s, L.Acquire(id, owner))) == KeysOf(s).(locks := s.locks[id := owner])
  {
  }
}
