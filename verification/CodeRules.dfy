/** What the code store answers, in terms of what was sent to it: which code a
    reservation accepts, how long it stays, and when a reservation is granted. */
module CodeRules {
  import opened Options
  import opened RateWindow
  import opened OneTimeCode

  // ------------------------------------------------ a reservation and its history

  /** What identifies a reservation never changes. */
  predicate SameReservation(f: Fate, g: Fate) {
    f.target == g.target && f.code == g.code && f.reservedAt == g.reservedAt
  }

  lemma FatesKept(p: Policy, s: State, e: Event, i: nat)
    requires i < |s.fates|
    ensures i < |Step(p, s, e).fates| && SameReservation(s.fates[i], Step(p, s, e).fates[i])
  {
    match e
    case Verify(t, code) => assert i < |VerifyStep(p, s, t, code).fates|;
    case Claim(t, code, token) => assert i < |ClaimStep(p, s, t, code, token).fates|;
    case Consume(t, token) => assert i < |ConsumeStep(s, t, token).fates|;
    case _ =>
  }

  lemma {:induction false} FatesKeptThroughout(p: Policy, s: State, es: seq<Event>, i: nat)
    requires i < |s.fates|
    ensures i < |Run(p, s, es).fates| && SameReservation(s.fates[i], Run(p, s, es).fates[i])
    decreases |es|
  {
    if es != [] {
      FatesKeptThroughout(p, s, es[..|es| - 1], i);
      FatesKept(p, Run(p, s, es[..|es| - 1]), es[|es| - 1], i);
    }
  }

  // ------------------------------------------------------ stored until it is used up

  /** No later reservation was granted for the same target. */
  predicate Latest(s: State, i: nat)
    requires i < |s.fates|
  {
    forall j :: i < j < |s.fates| ==> s.fates[j].target != s.fates[i].target
  }

  predicate Open(p: Policy, s: State, i: nat)
    requires i < |s.fates|
  {
    s.fates[i].consumed == 0 && s.fates[i].wrong < p.maxAttempts && Latest(s, i)
  }

  /** Reservation `i` is the stored challenge of its target. */
  predicate Stored(s: State, i: nat)
    requires i < |s.fates|
  {
    s.fates[i].target in s.keys.challenges && s.keys.challenges[s.fates[i].target].serial == i
  }

  /** The step changes at most the reservation stored for `t`, not its identity. */
  predicate ActsOn(s: State, n: State, t: Target)
    requires t in s.keys.challenges
  {
    && |n.fates| == |s.fates|
    && (forall j :: 0 <= j < |s.fates| ==> n.fates[j].target == s.fates[j].target)
    && (forall j :: 0 <= j < |s.fates| && j != s.keys.challenges[t].serial ==> n.fates[j] == s.fates[j])
    && (forall u | u in s.keys.challenges && u != t ::
          u in n.keys.challenges && n.keys.challenges[u] == s.keys.challenges[u])
  }

  lemma OpenStaysStored(p: Policy, s: State, n: State, t: Target, i: nat)
    requires t in s.keys.challenges && ChallengeOk(p, s, t) && ActsOn(s, n, t) && i < |s.fates|
    requires Open(p, s, i) ==> Stored(s, i)
    requires Open(p, n, i) && s.keys.challenges[t].serial == i ==>
               t in n.keys.challenges && n.keys.challenges[t].serial == i
    ensures Open(p, n, i) ==> Stored(n, i)
  {
    if Open(p, n, i) {
      if s.keys.challenges[t].serial != i {
        assert n.fates[i] == s.fates[i] && Latest(s, i);
        assert s.fates[i].target != t;
      }
    }
  }

  lemma VerifyKeepsOpen(p: Policy, s: State, t: Target, code: string, i: nat)
    requires i < |s.fates| && (Open(p, s, i) ==> Stored(s, i)) && (t in s.keys.challenges ==> ChallengeOk(p, s, t))
    ensures var n := VerifyStep(p, s, t, code); i < |n.fates| && (Open(p, n, i) ==> Stored(n, i))
  {
    var n := VerifyStep(p, s, t, code);
    if t in s.keys.challenges { OpenStaysStored(p, s, n, t, i); }
  }

  lemma ClaimKeepsOpen(p: Policy, s: State, t: Target, code: string, token: nat, i: nat)
    requires i < |s.fates| && (Open(p, s, i) ==> Stored(s, i)) && (t in s.keys.challenges ==> ChallengeOk(p, s, t))
    ensures var n := ClaimStep(p, s, t, code, token); i < |n.fates| && (Open(p, n, i) ==> Stored(n, i))
  {
    var n := ClaimStep(p, s, t, code, token);
    if t in s.keys.challenges { OpenStaysStored(p, s, n, t, i); }
  }

  lemma ConsumeKeepsOpen(p: Policy, s: State, t: Target, token: nat, i: nat)
    requires i < |s.fates| && (Open(p, s, i) ==> Stored(s, i)) && (t in s.keys.challenges ==> ChallengeOk(p, s, t))
    ensures var n := ConsumeStep(s, t, token); i < |n.fates| && (Open(p, n, i) ==> Stored(n, i))
  {
    var n := ConsumeStep(s, t, token);
    if t in s.keys.challenges { OpenStaysStored(p, s, n, t, i); }
  }

  lemma ReserveKeepsOpen(p: Policy, s: State, t: Target, ip: Source, code: string, i: nat)
    requires i < |s.fates| ==> (Open(p, s, i) ==> Stored(s, i))
    requires i < |ReserveStep(p, s, t, ip, code).fates|
    ensures var n := ReserveStep(p, s, t, ip, code); Open(p, n, i) ==> Stored(n, i)
  {
    var n := ReserveStep(p, s, t, ip, code);
    if i < |s.fates| && Open(p, n, i) {
      assert n.fates[i] == s.fates[i];
      assert forall j :: i < j < |s.fates| ==> n.fates[j] == s.fates[j];
      assert Latest(s, i);
      if ReserveResult(s.keys, p, t, ip) == 0 { assert n.fates[|s.fates|].target == t; }
    }
  }

  lemma StepKeepsOpen(p: Policy, s: State, e: Event, i: nat)
    requires CodesOk(p, s) && (i < |s.fates| ==> (Open(p, s, i) ==> Stored(s, i))) && i < |Step(p, s, e).fates|
    ensures Open(p, Step(p, s, e), i) ==> Stored(Step(p, s, e), i)
  {
    if (e.Verify? || e.Claim? || e.Consume?) && e.target in s.keys.challenges { assert ChallengeOk(p, s, e.target); }
    if !e.Reserve? && !e.Tick? { GuessesKeepTime(p, s, e); }
    match e
    case Verify(t, code) => VerifyKeepsOpen(p, s, t, code, i);
    case Claim(t, code, token) => ClaimKeepsOpen(p, s, t, code, token, i);
    case Consume(t, token) => ConsumeKeepsOpen(p, s, t, token, i);
    case Reserve(t, ip, code) => ReserveKeepsOpen(p, s, t, ip, code, i);
    case _ =>
      assert Step(p, s, e).fates == s.fates;
      assert Open(p, Step(p, s, e), i) <==> Open(p, s, i);
  }

  /** In every run: the latest reservation of a target stays stored until it was
      consumed or used up its wrong guesses. */
  lemma {:induction false} OpenIsStored(p: Policy, es: seq<Event>, i: nat)
    requires ValidPolicy(p) && i < |Run(p, Init(), es).fates|
    ensures Open(p, Run(p, Init(), es), i) ==> Stored(Run(p, Init(), es), i)
    decreases |es|
  {
    if es != [] {
      var front := es[..|es| - 1];
      ReachableCodes(p, front);
      if i < |Run(p, Init(), front).fates| { OpenIsStored(p, front, i); }
      StepKeepsOpen(p, Run(p, Init(), front), es[|es| - 1], i);
    }
  }

  // ------------------------------------------------------------- which code is right

  /** A granted reservation starts with the code it was given and a clean record. */
  lemma ReservedAs(p: Policy, s: State, t: Target, ip: Source, code: string)
    requires ReserveResult(s.keys, p, t, ip) == 0
    ensures Step(p, s, Reserve(t, ip, code)).fates == s.fates + [Fate(t, code, s.keys.now, 0, 0, [], [])]
  {}

  /** After a granted reservation of code `c`, in every continuation, as long as it was
      not consumed, replaced, exhausted or past its lifetime: while it is unclaimed, `c`
      is accepted and every other code is refused and counted; while it is claimed,
      nothing is compared. */
  lemma ReservedCodeAnswers(p: Policy, es: seq<Event>, t: Target, ip: Source, c: string, more: seq<Event>, code: string)
    requires ValidPolicy(p) && ReserveResult(Run(p, Init(), es).keys, p, t, ip) == 0
    requires var s := Run(p, Init(), es);
             var u := Run(p, Init(), es + [Reserve(t, ip, c)] + more);
             |s.fates| < |u.fates| && Open(p, u, |s.fates|) && u.keys.now < s.keys.now + p.codeTTL
    ensures var s := Run(p, Init(), es);
            var u := Run(p, Init(), es + [Reserve(t, ip, c)] + more);
            && t in u.keys.challenges
            && VerifyResult(u.keys, p, t, code) ==
               if u.keys.challenges[t].claim.Some? then 4
               else if code == c then 0
               else if u.fates[|s.fates|].wrong + 1 >= p.maxAttempts then 3 else 2
  {
    var s := Run(p, Init(), es);
    var i := |s.fates|;
    var whole := es + [Reserve(t, ip, c)] + more;
    var u := Run(p, Init(), whole);
    RunAppend(p, Init(), es, Reserve(t, ip, c));
    RunConcat(p, Init(), es + [Reserve(t, ip, c)], more);
    ReservedAs(p, s, t, ip, c);
    FatesKeptThroughout(p, Step(p, s, Reserve(t, ip, c)), more, i);
    OpenIsStored(p, whole, i);
    ReachableCodes(p, whole);
    assert ChallengeOk(p, u, t);
  }

  /** What a guess at an unclaimed live challenge does: the right code uses it up or
      claims it, a wrong one is counted and the last one allowed drops it. */
  lemma GuessEffects(p: Policy, s: State, t: Target, code: string, token: nat)
    requires CodesOk(p, s) && Live(s.keys, t) && s.keys.challenges[t].claim.None? && token !in s.tokens
    ensures var c := s.keys.challenges[t];
            var v, k := Step(p, s, Verify(t, code)), Step(p, s, Claim(t, code, token));
            if code == c.code then
              && v.keys.challenges == s.keys.challenges - {t} && v.fates[c.serial].consumed == 1
              && k.keys.challenges == s.keys.challenges[t := c.(claim := Some(token))]
              && k.fates[c.serial].consumed == 0
            else
              && v.keys == k.keys && v.fates == k.fates && v.fates[c.serial].wrong == c.attempts + 1
              && v.keys.challenges == (if c.attempts + 1 >= p.maxAttempts then s.keys.challenges - {t}
                                       else s.keys.challenges[t := c.(attempts := c.attempts + 1)])
  {
    assert ChallengeOk(p, s, t);
    if code == s.keys.challenges[t].code { RightGuess(p, s, t, token); } else { WrongGuess(p, s, t, code, token); }
  }

  lemma RightGuess(p: Policy, s: State, t: Target, token: nat)
    requires Live(s.keys, t) && ChallengeOk(p, s, t) && s.keys.challenges[t].claim.None? && token !in s.tokens
    ensures var c := s.keys.challenges[t];
            var v, k := VerifyStep(p, s, t, c.code), ClaimStep(p, s, t, c.code, token);
            && v.keys.challenges == s.keys.challenges - {t} && |v.fates| == |k.fates| == |s.fates|
            && v.fates[c.serial].consumed == 1 && k.fates[c.serial].consumed == 0
            && k.keys.challenges == s.keys.challenges[t := c.(claim := Some(token))]
  {}

  lemma WrongGuess(p: Policy, s: State, t: Target, code: string, token: nat)
    requires Live(s.keys, t) && ChallengeOk(p, s, t) && s.keys.challenges[t].claim.None? && token !in s.tokens
    requires code != s.keys.challenges[t].code
    ensures var c := s.keys.challenges[t];
            var v, k := VerifyStep(p, s, t, code), ClaimStep(p, s, t, code, token);
            && v.keys == k.keys && v.fates == k.fates && |v.fates| == |s.fates|
            && v.fates[c.serial].wrong == c.attempts + 1
            && v.keys.challenges == (if c.attempts + 1 >= p.maxAttempts then s.keys.challenges - {t}
                                     else s.keys.challenges[t := c.(attempts := c.attempts + 1)])
  {}

  // ------------------------------------------------------- when a grant is made

  /** Grants that fall into the fixed window open at `now`. */
  function InWindow(ws: Windows, now: nat, window: nat): int {
    if ws != [] && ws[|ws| - 1] != [] && now < ws[|ws| - 1][0] + window then |ws[|ws| - 1]| else 0
  }

  lemma TrackedCount(ws: Windows, c: Counter, now: nat, limit: int, window: nat)
    requires Tracks(ws, c, now, limit, window)
    ensures Current(c, now) == InWindow(ws, now, window)
  {}

  /** In every reachable state a reservation is answered by history alone: 1 while a
      claim is alive or the last grant for the target is less than a cooldown ago, 2
      or 3 when the target's or the source's window is full, and granted otherwise. */
  lemma ReserveAnswers(p: Policy, es: seq<Event>, t: Target, ip: Source)
    requires ValidPolicy(p)
    ensures var s := Run(p, Init(), es);
            var hits := AllHits(LogOf(s.logs.targetLog, t));
            var claimed := && t in s.keys.challenges && s.keys.now < s.keys.challenges[t].until
                           && s.keys.challenges[t].claim.Some?;
            ReserveResult(s.keys, p, t, ip) ==
              if claimed || (hits != [] && s.keys.now < hits[|hits| - 1] + p.cooldown) then 1
              else if InWindow(LogOf(s.logs.targetLog, t), s.keys.now, p.targetWindow) >= p.targetLimit then 2
              else if InWindow(LogOf(s.logs.ipLog, ip), s.keys.now, p.ipWindow) >= p.ipLimit then 3
              else 0
  {
    ReachableRates(p, es);
    var s := Run(p, Init(), es);
    TargetByHistory(p, s, t);
    IpByHistory(p, s, ip);
  }

  lemma TargetByHistory(p: Policy, s: State, t: Target)
    requires RatesOk(p, s)
    ensures var hits := AllHits(LogOf(s.logs.targetLog, t));
            Cooling(s.keys, t) <==> hits != [] && s.keys.now < hits[|hits| - 1] + p.cooldown
    ensures Current(TargetCounter(s.keys, t), s.keys.now)
            == InWindow(LogOf(s.logs.targetLog, t), s.keys.now, p.targetWindow)
  {
    assert TargetRateOk(p, s, t);
    if t in s.logs.targetLog {
      TrackedCount(s.logs.targetLog[t], s.keys.rates.targetRate[t], s.keys.now, p.targetLimit, p.targetWindow);
    }
  }

  lemma IpByHistory(p: Policy, s: State, ip: Source)
    requires RatesOk(p, s)
    ensures Current(IpCounter(s.keys, ip), s.keys.now) == InWindow(LogOf(s.logs.ipLog, ip), s.keys.now, p.ipWindow)
  {
    assert IpRateOk(p, s, ip);
    if ip in s.logs.ipLog {
      TrackedCount(s.logs.ipLog[ip], s.keys.rates.ipRate[ip], s.keys.now, p.ipLimit, p.ipWindow);
    }
  }
}
