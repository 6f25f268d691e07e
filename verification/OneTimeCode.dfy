/** One-time codes: the five scripts over the challenge, cooldown and counter
    keys, and what every sequence of them guarantees. */
module OneTimeCode {
  import opened Options
  import opened RateWindow

  datatype Target = Target(purpose: string, channel: string, destination: string)
  datatype Source = Source(purpose: string, channel: string, ip: string)

  datatype Policy = Policy(codeLength: int, codeTTL: nat, cooldown: nat, maxAttempts: int,
                           targetLimit: int, targetWindow: nat, ipLimit: int, ipWindow: nat)

  const SECOND: nat := 1000

  predicate ValidPolicy(p: Policy) {
    && p.codeLength == 6
    && SECOND <= p.codeTTL <= 30 * 60 * SECOND
    && SECOND <= p.cooldown <= p.codeTTL
    && 1 <= p.maxAttempts <= 20
    && 1 <= p.targetLimit <= 10000 && SECOND <= p.targetWindow <= 24 * 60 * 60 * SECOND
    && 1 <= p.ipLimit <= 100000 && SECOND <= p.ipWindow <= 24 * 60 * 60 * SECOND
  }

  /** The challenge hash with its expiry; `serial` numbers the reservation. */
  datatype Challenge = Challenge(code: string, attempts: int, claim: Option<nat>, until: nat, serial: nat)

  datatype Keys = Keys(
    now: nat,
    challenges: map<Target, Challenge>,
    rates: Rates)

  datatype Rates = Rates(cooldowns: map<Target, nat>, targetRate: map<Target, Counter>, ipRate: map<Source, Counter>)

  predicate Live(k: Keys, t: Target) { t in k.challenges && k.now < k.challenges[t].until }
  predicate Cooling(k: Keys, t: Target) { t in k.rates.cooldowns && k.now < k.rates.cooldowns[t] }
  function TargetCounter(k: Keys, t: Target): Counter {
    if t in k.rates.targetRate then k.rates.targetRate[t] else Counter(0, 0)
  }

  function IpCounter(k: Keys, s: Source): Counter { if s in k.rates.ipRate then k.rates.ipRate[s] else Counter(0, 0) }

  // -------------------------------------------------------------- scripts

  function ReserveResult(k: Keys, p: Policy, t: Target, ip: Source): int {
    if Live(k, t) && k.challenges[t].claim.Some? then 1
    else if Cooling(k, t) then 1
    else if Current(TargetCounter(k, t), k.now) >= p.targetLimit then 2
    else if Current(IpCounter(k, ip), k.now) >= p.ipLimit then 3
    else 0
  }

  function ReserveKeys(k: Keys, p: Policy, t: Target, ip: Source, code: string, serial: nat): Keys {
    if ReserveResult(k, p, t, ip) != 0 then k
    else Keys(k.now,
              k.challenges[t := Challenge(code, 0, None, k.now + p.codeTTL, serial)],
              Rates(k.rates.cooldowns[t := k.now + p.cooldown],
                    k.rates.targetRate[t := Incremented(TargetCounter(k, t), k.now, p.targetWindow)],
                    k.rates.ipRate[ip := Incremented(IpCounter(k, ip), k.now, p.ipWindow)]))
  }

  /** Result code shared by verify and verify-and-claim. */
  function VerifyResult(k: Keys, p: Policy, t: Target, code: string): int {
    if !Live(k, t) then 1
    else if k.challenges[t].claim.Some? then 4
    else if k.challenges[t].code == code then 0
    else if k.challenges[t].attempts + 1 >= p.maxAttempts then 3
    else 2
  }

  function Miscounted(k: Keys, t: Target): Keys
    requires t in k.challenges
  {
    k.(challenges := k.challenges[t := k.challenges[t].(attempts := k.challenges[t].attempts + 1)])
  }

  function Dropped(k: Keys, t: Target): Keys { k.(challenges := k.challenges - {t}) }

  function VerifyKeys(k: Keys, p: Policy, t: Target, code: string): Keys {
    match VerifyResult(k, p, t, code)
    case 0 => Dropped(k, t)
    case 3 => Dropped(k, t)
    case 2 => Miscounted(k, t)
    case _ => k
  }

  function ClaimKeys(k: Keys, p: Policy, t: Target, code: string, token: nat): Keys {
    match VerifyResult(k, p, t, code)
    case 0 => k.(challenges := k.challenges[t := k.challenges[t].(claim := Some(token))])
    case 3 => Dropped(k, t)
    case 2 => Miscounted(k, t)
    case _ => k
  }

  function TokenResult(k: Keys, t: Target, token: nat): int {
    if !Live(k, t) then 1 else if k.challenges[t].claim != Some(token) then 5 else 0
  }

  function ConsumeKeys(k: Keys, t: Target, token: nat): Keys {
    if TokenResult(k, t, token) == 0 then Dropped(k, t) else k
  }

  function ReleaseKeys(k: Keys, t: Target, token: nat): Keys {
    if TokenResult(k, t, token) == 0 then k.(challenges := k.challenges[t := k.challenges[t].(claim := None)]) else k
  }

  // -------------------------------------------------------------- machine

  /** What has happened to one reservation so far. */
  datatype Fate = Fate(
    target: Target,
    code: string,                        // as it was reserved
    reservedAt: nat,
    wrong: int,
    consumed: int,
    accepted: seq<nat>,                  // moments of successful verifications, claims and consumptions
    presented: seq<string>)              // codes with which verifications and claims succeeded

  datatype State = State(
    keys: Keys,
    fates: seq<Fate>,                    // by serial
    tokens: map<nat, nat>,               // claim token -> serial it claimed
    logs: Logs)

  /** Granted reservations by target and by source. */
  datatype Logs = Logs(targetLog: map<Target, Windows>, ipLog: map<Source, Windows>)

  datatype Event =
    | Tick(elapsed: nat)
    | Reserve(target: Target, ip: Source, code: string)
    | Verify(target: Target, code: string)
    | Claim(target: Target, code: string, token: nat)
    | Consume(target: Target, token: nat)
    | Release(target: Target, token: nat)

  function Wrong(f: Fate): Fate { f.(wrong := f.wrong + 1) }
  function Accepted(f: Fate, now: nat, code: string): Fate {
    f.(accepted := f.accepted + [now], presented := f.presented + [code])
  }
  function Used(f: Fate, now: nat): Fate { f.(consumed := f.consumed + 1, accepted := f.accepted + [now]) }
  function Verified(f: Fate, now: nat, code: string): Fate { Used(f, now).(presented := f.presented + [code]) }

  function LogOf<K>(log: map<K, Windows>, key: K): Windows { if key in log then log[key] else [] }

  /** The history entry of the reservation stored for `t` becomes `f`. */
  function SetFate(s: State, t: Target, f: Fate): seq<Fate>
    requires Concerns(s, t)
  {
    s.fates[s.keys.challenges[t].serial := f]
  }

  predicate Concerns(s: State, t: Target) { t in s.keys.challenges && s.keys.challenges[t].serial < |s.fates| }

  function FateOf(s: State, t: Target): Fate
    requires Concerns(s, t)
  {
    s.fates[s.keys.challenges[t].serial]
  }

  function ReserveStep(p: Policy, s: State, t: Target, ip: Source, code: string): State {
    var k := s.keys;
    if ReserveResult(k, p, t, ip) != 0 then s
    else State(ReserveKeys(k, p, t, ip, code, |s.fates|), s.fates + [Fate(t, code, k.now, 0, 0, [], [])], s.tokens,
               Logs(s.logs.targetLog[t := Logged(LogOf(s.logs.targetLog, t), TargetCounter(k, t), k.now)],
                    s.logs.ipLog[ip := Logged(LogOf(s.logs.ipLog, ip), IpCounter(k, ip), k.now)]))
  }

  function VerifyStep(p: Policy, s: State, t: Target, code: string): State {
    if !Concerns(s, t) then s
    else
      var r := VerifyResult(s.keys, p, t, code);
      s.(keys := VerifyKeys(s.keys, p, t, code),
         fates := if r == 0 then SetFate(s, t, Verified(FateOf(s, t), s.keys.now, code))
                  else if r == 2 || r == 3 then SetFate(s, t, Wrong(FateOf(s, t))) else s.fates)
  }

  /** Claim tokens are fresh random values. */
  function ClaimStep(p: Policy, s: State, t: Target, code: string, token: nat): State {
    if !Concerns(s, t) || token in s.tokens then s
    else
      var r := VerifyResult(s.keys, p, t, code);
      s.(keys := ClaimKeys(s.keys, p, t, code, token),
         fates := if r == 0 then SetFate(s, t, Accepted(FateOf(s, t), s.keys.now, code))
                  else if r == 2 || r == 3 then SetFate(s, t, Wrong(FateOf(s, t))) else s.fates,
         tokens := if r == 0 then s.tokens[token := s.keys.challenges[t].serial] else s.tokens)
  }

  function ConsumeStep(s: State, t: Target, token: nat): State {
    if !Concerns(s, t) || TokenResult(s.keys, t, token) != 0 then s
    else s.(keys := ConsumeKeys(s.keys, t, token), fates := SetFate(s, t, Used(FateOf(s, t), s.keys.now)))
  }

  function Step(p: Policy, s: State, e: Event): State {
    match e
    case Tick(d) => s.(keys := s.keys.(now := s.keys.now + d))
    case Reserve(t, ip, code) => ReserveStep(p, s, t, ip, code)
    case Verify(t, code) => VerifyStep(p, s, t, code)
    case Claim(t, code, token) => ClaimStep(p, s, t, code, token)
    case Consume(t, token) => ConsumeStep(s, t, token)
    case Release(t, token) => s.(keys := ReleaseKeys(s.keys, t, token))
  }

  function Init(): State { State(Keys(0, map[], Rates(map[], map[], map[])), [], map[], Logs(map[], map[])) }

  function Run(p: Policy, s: State, es: seq<Event>): State
    decreases |es|
  {
    if es == [] then s else Step(p, Run(p, s, es[..|es| - 1]), es[|es| - 1])
  }

  lemma RunAppend(p: Policy, s: State, es: seq<Event>, e: Event)
    ensures Run(p, s, es + [e]) == Step(p, Run(p, s, es), e)
  {
    assert (es + [e])[..|es|] == es;
  }

  lemma {:induction false} RunConcat(p: Policy, s: State, a: seq<Event>, b: seq<Event>)
    ensures Run(p, s, a + b) == Run(p, Run(p, s, a), b)
    decreases |b|
  {
    if b == [] {
      assert a + b == a;
    } else {
      assert a + b == (a + b[..|b| - 1]) + [b[|b| - 1]];
      RunConcat(p, s, a, b[..|b| - 1]);
      RunAppend(p, s, a + b[..|b| - 1], b[|b| - 1]);
    }
  }

  // -------------------------------------------------- one challenge, one use

  ghost predicate FateOk(p: Policy, f: Fate, now: nat) {
    && f.reservedAt <= now && 0 <= f.wrong <= p.maxAttempts && 0 <= f.consumed <= 1
    && (forall i :: 0 <= i < |f.accepted| ==> f.reservedAt <= f.accepted[i] < f.reservedAt + p.codeTTL)
    && (forall i :: 0 <= i < |f.presented| ==> f.presented[i] == f.code)
  }

  /** The stored challenge is the unconsumed one its serial says, with its
      original expiry and every wrong guess still counted. */
  ghost predicate ChallengeOk(p: Policy, s: State, t: Target)
    requires t in s.keys.challenges
  {
    var c := s.keys.challenges[t];
    && c.serial < |s.fates|
    && s.fates[c.serial].target == t && s.fates[c.serial].consumed == 0
    && s.fates[c.serial].wrong == c.attempts < p.maxAttempts
    && c.until == s.fates[c.serial].reservedAt + p.codeTTL && c.code == s.fates[c.serial].code
    && (c.claim.Some? ==> c.claim.value in s.tokens && s.tokens[c.claim.value] == c.serial)
  }

  ghost predicate CodesOk(p: Policy, s: State) {
    && (forall i :: 0 <= i < |s.fates| ==> FateOk(p, s.fates[i], s.keys.now))
    && (forall t :: t in s.keys.challenges ==> ChallengeOk(p, s, t))
  }

  lemma VerifiedFate(p: Policy, s: State, t: Target, code: string, i: nat)
    requires i < |s.fates| && FateOk(p, s.fates[i], s.keys.now) && (t in s.keys.challenges ==> ChallengeOk(p, s, t))
    ensures i < |VerifyStep(p, s, t, code).fates| && FateOk(p, VerifyStep(p, s, t, code).fates[i], s.keys.now)
  {}

  lemma ClaimedFate(p: Policy, s: State, t: Target, code: string, token: nat, i: nat)
    requires i < |s.fates| && FateOk(p, s.fates[i], s.keys.now) && (t in s.keys.challenges ==> ChallengeOk(p, s, t))
    ensures i < |ClaimStep(p, s, t, code, token).fates|
            && FateOk(p, ClaimStep(p, s, t, code, token).fates[i], s.keys.now)
  {}

  lemma ConsumedFate(p: Policy, s: State, t: Target, token: nat, i: nat)
    requires i < |s.fates| && FateOk(p, s.fates[i], s.keys.now) && (t in s.keys.challenges ==> ChallengeOk(p, s, t))
    ensures i < |ConsumeStep(s, t, token).fates| && FateOk(p, ConsumeStep(s, t, token).fates[i], s.keys.now)
  {}

  lemma GuessesKeepTime(p: Policy, s: State, e: Event)
    requires !e.Tick?
    ensures Step(p, s, e).keys.now == s.keys.now && |s.fates| <= |Step(p, s, e).fates|
    ensures !e.Reserve? ==> |Step(p, s, e).fates| == |s.fates|
  {}

  lemma FatesAfter(p: Policy, s: State, e: Event, i: nat)
    requires ValidPolicy(p) && CodesOk(p, s) && i < |Step(p, s, e).fates|
    ensures FateOk(p, Step(p, s, e).fates[i], Step(p, s, e).keys.now)
  {
    if !e.Tick? { GuessesKeepTime(p, s, e); }
    if i < |s.fates| { assert FateOk(p, s.fates[i], s.keys.now); }
    match e
    case Verify(t, code) =>
      assert t in s.keys.challenges ==> ChallengeOk(p, s, t);
      VerifiedFate(p, s, t, code, i);
    case Claim(t, code, token) =>
      assert t in s.keys.challenges ==> ChallengeOk(p, s, t);
      ClaimedFate(p, s, t, code, token, i);
    case Consume(t, token) =>
      assert t in s.keys.challenges ==> ChallengeOk(p, s, t);
      ConsumedFate(p, s, t, token, i);
    case _ =>
  }

  /** An operation on one target leaves the challenge of another alone: they hold
      different reservations. */
  lemma OthersUntouched(p: Policy, s: State, n: State, u: Target, t: Target)
    requires Concerns(s, u) && t != u && t in s.keys.challenges && ChallengeOk(p, s, t)
    requires s.fates[s.keys.challenges[u].serial].target == u
    requires t in n.keys.challenges && n.keys.challenges[t] == s.keys.challenges[t]
    requires |n.fates| == |s.fates|
    requires forall i :: 0 <= i < |s.fates| && i != s.keys.challenges[u].serial ==> n.fates[i] == s.fates[i]
    requires forall k :: k in s.tokens ==> k in n.tokens && n.tokens[k] == s.tokens[k]
    ensures ChallengeOk(p, n, t)
  {}

  lemma VerifiedChallenge(p: Policy, s: State, u: Target, code: string, t: Target)
    requires t in s.keys.challenges && ChallengeOk(p, s, t)
    requires u in s.keys.challenges ==> ChallengeOk(p, s, u)
    requires t in VerifyStep(p, s, u, code).keys.challenges
    ensures ChallengeOk(p, VerifyStep(p, s, u, code), t)
  {
    if u in s.keys.challenges && u != t { OthersUntouched(p, s, VerifyStep(p, s, u, code), u, t); }
  }

  lemma ClaimedOwnChallenge(p: Policy, s: State, t: Target, code: string, token: nat)
    requires t in s.keys.challenges && ChallengeOk(p, s, t)
    requires t in ClaimStep(p, s, t, code, token).keys.challenges
    ensures ChallengeOk(p, ClaimStep(p, s, t, code, token), t)
  {}

  lemma ClaimedChallenge(p: Policy, s: State, u: Target, code: string, token: nat, t: Target)
    requires t in s.keys.challenges && ChallengeOk(p, s, t)
    requires u in s.keys.challenges ==> ChallengeOk(p, s, u)
    requires t in ClaimStep(p, s, u, code, token).keys.challenges
    ensures ChallengeOk(p, ClaimStep(p, s, u, code, token), t)
  {
    if u == t {
      ClaimedOwnChallenge(p, s, t, code, token);
    } else if u in s.keys.challenges {
      OthersUntouched(p, s, ClaimStep(p, s, u, code, token), u, t);
    }
  }

  lemma ConsumedChallenge(p: Policy, s: State, u: Target, token: nat, t: Target)
    requires t in s.keys.challenges && ChallengeOk(p, s, t)
    requires u in s.keys.challenges ==> ChallengeOk(p, s, u)
    requires t in ConsumeStep(s, u, token).keys.challenges
    ensures ChallengeOk(p, ConsumeStep(s, u, token), t)
  {
    if u in s.keys.challenges && u != t { OthersUntouched(p, s, ConsumeStep(s, u, token), u, t); }
  }

  lemma ReservedChallenge(p: Policy, s: State, u: Target, ip: Source, code: string, t: Target)
    requires ValidPolicy(p) && (t in s.keys.challenges ==> ChallengeOk(p, s, t))
    requires t in ReserveStep(p, s, u, ip, code).keys.challenges
    ensures ChallengeOk(p, ReserveStep(p, s, u, ip, code), t)
  {}

  lemma ChallengesAfter(p: Policy, s: State, e: Event, t: Target)
    requires ValidPolicy(p) && CodesOk(p, s) && t in Step(p, s, e).keys.challenges
    ensures ChallengeOk(p, Step(p, s, e), t)
  {
    if t in s.keys.challenges { assert ChallengeOk(p, s, t); }
    match e
    case Verify(u, code) => VerifiedChallenge(p, s, u, code, t);
    case Claim(u, code, token) => ClaimedChallenge(p, s, u, code, token, t);
    case Consume(u, token) => ConsumedChallenge(p, s, u, token, t);
    case Reserve(u, ip, code) => ReservedChallenge(p, s, u, ip, code, t);
    case _ =>
  }

  lemma StepKeepsCodes(p: Policy, s: State, e: Event)
    requires ValidPolicy(p) && CodesOk(p, s)
    ensures CodesOk(p, Step(p, s, e))
  {
    forall i | 0 <= i < |Step(p, s, e).fates| ensures FateOk(p, Step(p, s, e).fates[i], Step(p, s, e).keys.now) {
      FatesAfter(p, s, e, i);
    }
    forall t | t in Step(p, s, e).keys.challenges ensures ChallengeOk(p, Step(p, s, e), t) {
      ChallengesAfter(p, s, e, t);
    }
  }

  lemma {:induction false} ReachableCodes(p: Policy, es: seq<Event>)
    requires ValidPolicy(p)
    ensures CodesOk(p, Run(p, Init(), es))
    decreases |es|
  {
    if es != [] {
      ReachableCodes(p, es[..|es| - 1]);
      StepKeepsCodes(p, Run(p, Init(), es[..|es| - 1]), es[|es| - 1]);
    }
  }

  /** For each reservation, over any mix of operations: at most one consumption,
      at most MaxAttempts wrong codes compared, nothing accepted at or after
      reservation + CodeTTL, and nothing but the reserved code. */
  lemma ReservationIsUsedOnce(p: Policy, es: seq<Event>, serial: nat)
    requires ValidPolicy(p) && serial < |Run(p, Init(), es).fates|
    ensures var f := Run(p, Init(), es).fates[serial];
            && f.consumed <= 1 && f.wrong <= p.maxAttempts
            && (forall i :: 0 <= i < |f.accepted| ==> f.accepted[i] < f.reservedAt + p.codeTTL)
            && (forall i :: 0 <= i < |f.presented| ==> f.presented[i] == f.code)
  {
    ReachableCodes(p, es);
    assert FateOk(p, Run(p, Init(), es).fates[serial], Run(p, Init(), es).keys.now);
  }

  /** The event presents the claim token stored for `t`. */
  predicate Presents(s: State, e: Event, t: Target)
    requires t in s.keys.challenges
  {
    (e.Consume? || e.Release?) && e.target == t && s.keys.challenges[t].claim == Some(e.token)
  }

  predicate SameChallenge(s: State, n: State, t: Target)
    requires t in s.keys.challenges
  {
    t in n.keys.challenges && n.keys.challenges[t] == s.keys.challenges[t]
  }

  lemma ClaimRefusesGuesses(p: Policy, s: State, u: Target, code: string, token: nat, t: Target)
    requires Live(s.keys, t) && s.keys.challenges[t].claim.Some?
    ensures SameChallenge(s, VerifyStep(p, s, u, code), t) && SameChallenge(s, ClaimStep(p, s, u, code, token), t)
  {
    assert u == t ==> VerifyResult(s.keys, p, u, code) == 4;
  }

  lemma ClaimRefusesReservation(p: Policy, s: State, u: Target, ip: Source, code: string, t: Target)
    requires Live(s.keys, t) && s.keys.challenges[t].claim.Some?
    ensures SameChallenge(s, ReserveStep(p, s, u, ip, code), t)
  {
    assert u == t ==> ReserveResult(s.keys, p, u, ip) == 1;
  }

  lemma ClaimRefusesStrangers(p: Policy, s: State, e: Event, t: Target)
    requires Live(s.keys, t) && s.keys.challenges[t].claim.Some? && !Presents(s, e, t)
    requires e.Consume? || e.Release?
    ensures SameChallenge(s, Step(p, s, e), t)
  {
    assert e.target == t ==> TokenResult(s.keys, t, e.token) == 5;
  }

  /** A claimed challenge is never overwritten, consumed or released by anyone but
      its own token while it lives: nothing else changes the stored challenge. */
  lemma ClaimHolds(p: Policy, s: State, e: Event, t: Target)
    requires Live(s.keys, t) && s.keys.challenges[t].claim.Some? && !Presents(s, e, t)
    ensures SameChallenge(s, Step(p, s, e), t)
  {
    match e
    case Tick(_) =>
    case Reserve(u, ip, code) => ClaimRefusesReservation(p, s, u, ip, code, t);
    case Verify(u, code) => ClaimRefusesGuesses(p, s, u, code, 0, t);
    case Claim(u, code, token) => ClaimRefusesGuesses(p, s, u, code, token, t);
    case _ => ClaimRefusesStrangers(p, s, e, t);
  }

  lemma StepMovesClock(p: Policy, s: State, e: Event)
    ensures s.keys.now <= Step(p, s, e).keys.now
  {}

  /** Nobody presents the claim token `claim` for `t`. */
  predicate Withheld(es: seq<Event>, t: Target, claim: Option<nat>) {
    forall i | 0 <= i < |es| && (es[i].Consume? || es[i].Release?) :: es[i].target == t ==> claim != Some(es[i].token)
  }

  /** Over whole runs: until its token is presented or its lifetime is over, a
      claimed challenge stays exactly as it is, whatever else is sent, guessed,
      claimed, consumed or released meanwhile. */
  lemma {:induction false} ClaimHoldsThroughout(p: Policy, s: State, es: seq<Event>, t: Target)
    requires t in s.keys.challenges && s.keys.challenges[t].claim.Some?
    requires Run(p, s, es).keys.now < s.keys.challenges[t].until
    requires Withheld(es, t, s.keys.challenges[t].claim)
    ensures SameChallenge(s, Run(p, s, es), t)
    decreases |es|
  {
    if es != [] {
      var front := es[..|es| - 1];
      var mid := Run(p, s, front);
      StepMovesClock(p, mid, es[|es| - 1]);
      ClaimHoldsThroughout(p, s, front, t);
      assert !Presents(mid, es[|es| - 1], t);
      ClaimHolds(p, mid, es[|es| - 1], t);
    }
  }

  /** A token consumes only the reservation it claimed. */
  lemma TokenConsumesOwnClaim(p: Policy, es: seq<Event>, t: Target, token: nat)
    requires ValidPolicy(p) && TokenResult(Run(p, Init(), es).keys, t, token) == 0
    ensures var s := Run(p, Init(), es);
            var c := s.keys.challenges[t];
            && token in s.tokens && s.tokens[token] == c.serial < |s.fates| && s.fates[c.serial].target == t
            && Step(p, s, Consume(t, token)).fates[c.serial].consumed == 1
            && t !in Step(p, s, Consume(t, token)).keys.challenges
  {
    ReachableCodes(p, es);
    assert ChallengeOk(p, Run(p, Init(), es), t);
  }

  /** Releasing a claim gives back exactly the challenge that was claimed: code,
      remaining lifetime and the count of wrong guesses. */
  lemma ReleaseUndoesClaim(p: Policy, s: State, t: Target, code: string, token: nat)
    requires CodesOk(p, s) && VerifyResult(s.keys, p, t, code) == 0 && token !in s.tokens
    ensures Step(p, Step(p, s, Claim(t, code, token)), Release(t, token)).keys == s.keys
  {
    assert ChallengeOk(p, s, t);
    var s1 := Step(p, s, Claim(t, code, token));
    assert s1.keys == s.keys.(challenges := s.keys.challenges[t := s.keys.challenges[t].(claim := Some(token))]);
    var s2 := Step(p, s1, Release(t, token));
    assert s2.keys.challenges == s.keys.challenges;
  }

  // ------------------------------------------------------------ rate limits

  ghost predicate TargetRateOk(p: Policy, s: State, t: Target) {
    if t in s.logs.targetLog then
      && t in s.keys.rates.targetRate && t in s.keys.rates.cooldowns
      && Tracks(s.logs.targetLog[t], s.keys.rates.targetRate[t], s.keys.now, p.targetLimit, p.targetWindow)
      && CooledDown(p, AllHits(s.logs.targetLog[t]), s.keys.rates.cooldowns[t])
    else t !in s.keys.rates.targetRate && t !in s.keys.rates.cooldowns
  }

  ghost predicate IpRateOk(p: Policy, s: State, i: Source) {
    if i in s.logs.ipLog then
      && i in s.keys.rates.ipRate
      && Tracks(s.logs.ipLog[i], s.keys.rates.ipRate[i], s.keys.now, p.ipLimit, p.ipWindow)
    else i !in s.keys.rates.ipRate
  }

  /** The counter keys agree with the log of granted reservations. */
  ghost predicate RatesOk(p: Policy, s: State) {
    (forall t :: TargetRateOk(p, s, t)) && (forall i :: IpRateOk(p, s, i))
  }

  /** Hits are a cooldown apart and the cooldown key covers the last one. */
  ghost predicate CooledDown(p: Policy, hits: seq<nat>, until: nat) {
    && hits != [] && until == hits[|hits| - 1] + p.cooldown
    && (forall i, j | 0 <= i < j < |hits| :: hits[i] + p.cooldown <= hits[j])
  }

  lemma LoggedAppends(ws: Windows, c: Counter, now: nat)
    ensures AllHits(Logged(ws, c, now)) == AllHits(ws) + [now]
  {
    var vs := Logged(ws, c, now);
    if now < c.until && ws != [] {
      assert vs[..|vs| - 1] == ws[..|ws| - 1];
    } else {
      assert vs[..|vs| - 1] == ws;
    }
  }

  lemma EmptyTracks(now: nat, limit: int, window: nat)
    ensures Tracks([], Counter(0, 0), now, limit, window)
  {}

  lemma CooledAppends(p: Policy, hits: seq<nat>, until: nat, now: nat)
    requires hits == [] || (CooledDown(p, hits, until) && until <= now)
    ensures CooledDown(p, hits + [now], now + p.cooldown)
  {
    var hs := hits + [now];
    forall i, j | 0 <= i < j < |hs| ensures hs[i] + p.cooldown <= hs[j] {
      if j == |hits| && i < |hits| - 1 { assert hits[i] + p.cooldown <= hits[|hits| - 1]; }
    }
  }

  lemma ReservedTargetRate(p: Policy, s: State, t: Target, ip: Source, code: string)
    requires ValidPolicy(p) && TargetRateOk(p, s, t) && ReserveResult(s.keys, p, t, ip) == 0
    ensures TargetRateOk(p, ReserveStep(p, s, t, ip, code), t)
  {
    var ws := LogOf(s.logs.targetLog, t);
    var c := TargetCounter(s.keys, t);
    if t !in s.logs.targetLog { EmptyTracks(s.keys.now, p.targetLimit, p.targetWindow); }
    HitTracks(ws, c, s.keys.now, p.targetLimit, p.targetWindow);
    LoggedAppends(ws, c, s.keys.now);
    CooledAppends(p, AllHits(ws), if t in s.keys.rates.cooldowns then s.keys.rates.cooldowns[t] else 0, s.keys.now);
  }

  lemma ReservedIpRate(p: Policy, s: State, t: Target, ip: Source, code: string)
    requires ValidPolicy(p) && IpRateOk(p, s, ip) && ReserveResult(s.keys, p, t, ip) == 0
    ensures IpRateOk(p, ReserveStep(p, s, t, ip, code), ip)
  {
    var ws := LogOf(s.logs.ipLog, ip);
    var c := IpCounter(s.keys, ip);
    if ip !in s.logs.ipLog { EmptyTracks(s.keys.now, p.ipLimit, p.ipWindow); }
    HitTracks(ws, c, s.keys.now, p.ipLimit, p.ipWindow);
  }

  /** Everything the rates are read from, apart from the clock. */
  predicate SameRates(s: State, n: State) {
    n.logs == s.logs && n.keys.rates == s.keys.rates && s.keys.now <= n.keys.now
  }

  lemma GuessesKeepRates(p: Policy, s: State, t: Target, code: string, token: nat)
    ensures SameRates(s, VerifyStep(p, s, t, code)) && SameRates(s, ClaimStep(p, s, t, code, token))
  {}

  lemma OtherEventsKeepRates(p: Policy, s: State, e: Event)
    requires !e.Reserve?
    ensures SameRates(s, Step(p, s, e))
  {
    match e
    case Verify(t, code) => GuessesKeepRates(p, s, t, code, 0);
    case Claim(t, code, token) => GuessesKeepRates(p, s, t, code, token);
    case _ =>
  }

  lemma SameRatesKeep(p: Policy, s: State, n: State, t: Target, i: Source)
    requires SameRates(s, n) && TargetRateOk(p, s, t) && IpRateOk(p, s, i)
    ensures TargetRateOk(p, n, t) && IpRateOk(p, n, i)
  {}

  lemma ReserveKeepsRates(p: Policy, s: State, u: Target, ip: Source, code: string, t: Target, i: Source)
    requires ValidPolicy(p) && TargetRateOk(p, s, t) && IpRateOk(p, s, i)
    ensures TargetRateOk(p, ReserveStep(p, s, u, ip, code), t) && IpRateOk(p, ReserveStep(p, s, u, ip, code), i)
  {
    if ReserveResult(s.keys, p, u, ip) == 0 {
      if t == u { ReservedTargetRate(p, s, t, ip, code); }
      if i == ip { ReservedIpRate(p, s, u, ip, code); }
    }
  }

  lemma EachRateKept(p: Policy, s: State, e: Event, t: Target, i: Source)
    requires ValidPolicy(p) && RatesOk(p, s)
    ensures TargetRateOk(p, Step(p, s, e), t) && IpRateOk(p, Step(p, s, e), i)
  {
    assert TargetRateOk(p, s, t) && IpRateOk(p, s, i);
    if e.Reserve? {
      ReserveKeepsRates(p, s, e.target, e.ip, e.code, t, i);
    } else {
      OtherEventsKeepRates(p, s, e);
      SameRatesKeep(p, s, Step(p, s, e), t, i);
    }
  }

  lemma StepKeepsRates(p: Policy, s: State, e: Event)
    requires ValidPolicy(p) && RatesOk(p, s)
    ensures RatesOk(p, Step(p, s, e))
  {
    var n := Step(p, s, e);
    var anyTarget, anySource := Target("", "", ""), Source("", "", "");
    forall t ensures TargetRateOk(p, n, t) { EachRateKept(p, s, e, t, anySource); }
    forall i ensures IpRateOk(p, n, i) { EachRateKept(p, s, e, anyTarget, i); }
  }

  lemma {:induction false} ReachableRates(p: Policy, es: seq<Event>)
    requires ValidPolicy(p)
    ensures RatesOk(p, Run(p, Init(), es))
    decreases |es|
  {
    if es != [] {
      ReachableRates(p, es[..|es| - 1]);
      StepKeepsRates(p, Run(p, Init(), es[..|es| - 1]), es[|es| - 1]);
    }
  }

  /** For one target, granted reservations are a cooldown apart, and any interval
      as long as the target window holds at most 2 * TargetLimit - 1 of them. */
  lemma TargetRateHolds(p: Policy, es: seq<Event>, t: Target, from: nat)
    requires ValidPolicy(p)
    ensures var hits := AllHits(LogOf(Run(p, Init(), es).logs.targetLog, t));
            && (forall i, j | 0 <= i < j < |hits| :: hits[i] + p.cooldown <= hits[j])
            && HitsIn(hits, from, from + p.targetWindow) <= 2 * p.targetLimit - 1
  {
    ReachableRates(p, es);
    assert TargetRateOk(p, Run(p, Init(), es), t);
    SlidingBound(LogOf(Run(p, Init(), es).logs.targetLog, t), p.targetLimit, p.targetWindow, from);
  }

  lemma IpRateHolds(p: Policy, es: seq<Event>, ip: Source, from: nat)
    requires ValidPolicy(p)
    ensures HitsIn(AllHits(LogOf(Run(p, Init(), es).logs.ipLog, ip)), from, from + p.ipWindow) <= 2 * p.ipLimit - 1
  {
    ReachableRates(p, es);
    assert IpRateOk(p, Run(p, Init(), es), ip);
    SlidingBound(LogOf(Run(p, Init(), es).logs.ipLog, ip), p.ipLimit, p.ipWindow, from);
  }

  /** A granted reservation adds exactly its own moment to both logs, a rejected
      one consumes no budget at all. */
  lemma BudgetIsForGrantsOnly(p: Policy, s: State, t: Target, ip: Source, code: string)
    ensures ReserveResult(s.keys, p, t, ip) != 0 ==> ReserveStep(p, s, t, ip, code) == s
    ensures ReserveResult(s.keys, p, t, ip) == 0 ==>
              var n := ReserveStep(p, s, t, ip, code);
              && AllHits(LogOf(n.logs.targetLog, t)) == AllHits(LogOf(s.logs.targetLog, t)) + [s.keys.now]
              && AllHits(LogOf(n.logs.ipLog, ip)) == AllHits(LogOf(s.logs.ipLog, ip)) + [s.keys.now]
  {
    if ReserveResult(s.keys, p, t, ip) == 0 {
      var n := ReserveStep(p, s, t, ip, code);
      LoggedAppends(LogOf(s.logs.targetLog, t), TargetCounter(s.keys, t), s.keys.now);
      LoggedAppends(LogOf(s.logs.ipLog, ip), IpCounter(s.keys, ip), s.keys.now);
      assert LogOf(n.logs.targetLog, t) == Logged(LogOf(s.logs.targetLog, t), TargetCounter(s.keys, t), s.keys.now);
    }
  }
}
