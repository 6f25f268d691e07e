/** The sliding bound of the fixed-window counters is attained: for every policy
    there is a run of the code store with 2 * IPLimit - 1 grants for one source
    within one window length. */
module RateTightness {
  import opened Options
  import opened RateWindow
  import opened OneTimeCode

  function TargetNo(n: nat): Target { Target("login", "email", seq(n, _ => 'x')) }

  /** No target whose destination has this length or more was used yet. */
  ghost predicate UnusedFrom(s: State, from: nat) { forall t: Target :: |t.destination| >= from ==> Untouched(s, t) }

  predicate Untouched(s: State, t: Target) {
    t !in s.keys.challenges && t !in s.keys.rates.cooldowns && t !in s.keys.rates.targetRate
  }

  /** The next reservation of a burst from one source: for a target not used yet. */
  function Next(ip: Source, k: nat): Event { Reserve(TargetNo(k), ip, "000000") }

  function Repeat(now: nat, n: nat): seq<nat> { if n == 0 then [] else Repeat(now, n - 1) + [now] }

  function IpHits(s: State, ip: Source): seq<nat> { AllHits(LogOf(s.logs.ipLog, ip)) }
  function IpCount(s: State, ip: Source): int { Current(IpCounter(s.keys, ip), s.keys.now) }

  lemma FreshTargetIsGranted(p: Policy, s: State, t: Target, ip: Source)
    requires ValidPolicy(p) && Untouched(s, t) && 0 <= IpCount(s, ip) < p.ipLimit
    ensures ReserveResult(s.keys, p, t, ip) == 0
  {}

  lemma OneGrant(p: Policy, s: State, t: Target, ip: Source, code: string)
    requires ValidPolicy(p) && Untouched(s, t) && 0 <= IpCount(s, ip) < p.ipLimit
    ensures var n := ReserveStep(p, s, t, ip, code);
            && n.keys.now == s.keys.now && IpCount(n, ip) == IpCount(s, ip) + 1
            && IpCounter(n.keys, ip).until == ExpiryAfter(p, IpCounter(s.keys, ip), s.keys.now)
            && IpHits(n, ip) == IpHits(s, ip) + [s.keys.now]
  {
    FreshTargetIsGranted(p, s, t, ip);
    BudgetIsForGrantsOnly(p, s, t, ip, code);
  }

  lemma OthersStayUntouched(p: Policy, s: State, t: Target, ip: Source, code: string, u: Target)
    requires Untouched(s, u) && u != t
    ensures Untouched(ReserveStep(p, s, t, ip, code), u)
  {}

  /** When the source's counter expires, once it was hit at `now`. */
  function ExpiryAfter(p: Policy, c: Counter, now: nat): nat { if now < c.until then c.until else now + p.ipWindow }

  /** `t` is `s` after `n` granted reservations for the targets from `from` on. */
  ghost predicate Granted(p: Policy, s: State, t: State, ip: Source, from: nat, n: nat) {
    && t.keys.now == s.keys.now && IpCount(t, ip) == IpCount(s, ip) + n
    && IpCounter(t.keys, ip).until ==
         (if n == 0 then IpCounter(s.keys, ip).until else ExpiryAfter(p, IpCounter(s.keys, ip), s.keys.now))
    && UnusedFrom(t, from + n)
    && IpHits(t, ip) == IpHits(s, ip) + Repeat(s.keys.now, n)
  }

  lemma OneMoreGranted(p: Policy, s: State, mid: State, ip: Source, from: nat, n: nat)
    requires ValidPolicy(p) && 0 <= IpCount(s, ip) && IpCount(s, ip) + n < p.ipLimit && Granted(p, s, mid, ip, from, n)
    ensures Granted(p, s, Step(p, mid, Next(ip, from + n)), ip, from, n + 1)
  {
    var target := TargetNo(from + n);
    assert |target.destination| == from + n && Untouched(mid, target);
    OneGrant(p, mid, target, ip, "000000");
    var t := ReserveStep(p, mid, target, ip, "000000");
    forall u: Target | |u.destination| >= from + n + 1 ensures Untouched(t, u) {
      assert Untouched(mid, u);
      OthersStayUntouched(p, mid, target, ip, "000000", u);
    }
    assert Repeat(s.keys.now, n + 1) == Repeat(s.keys.now, n) + [s.keys.now];
  }

  lemma NothingGranted(p: Policy, s: State, ip: Source, from: nat)
    requires UnusedFrom(s, from)
    ensures Granted(p, s, Run(p, s, []), ip, from, 0)
  {}

  lemma OneMoreRun(p: Policy, s: State, ip: Source, from: nat, n: nat, front: seq<Event>, mid: State)
    returns (es: seq<Event>, t: State)
    requires ValidPolicy(p) && 0 <= IpCount(s, ip) && IpCount(s, ip) + n < p.ipLimit
    requires mid == Run(p, s, front) && Granted(p, s, mid, ip, from, n)
    ensures t == Run(p, s, es) && Granted(p, s, t, ip, from, n + 1)
  {
    es := front + [Next(ip, from + n)];
    t := Step(p, mid, Next(ip, from + n));
    RunAppend(p, s, front, Next(ip, from + n));
    OneMoreGranted(p, s, mid, ip, from, n);
  }

  /** A burst that fits the budget can be granted. */
  lemma {:induction false} Burst(p: Policy, s: State, ip: Source, from: nat, n: nat) returns (es: seq<Event>, t: State)
    requires ValidPolicy(p) && 0 <= IpCount(s, ip) && IpCount(s, ip) + n <= p.ipLimit && UnusedFrom(s, from)
    ensures t == Run(p, s, es) && Granted(p, s, t, ip, from, n)
    decreases n
  {
    if n == 0 {
      es, t := [], s;
      NothingGranted(p, s, ip, from);
    } else {
      var front, mid := Burst(p, s, ip, from, n - 1);
      es, t := OneMoreRun(p, s, ip, from, n - 1, front, mid);
    }
  }

  lemma {:induction false} HitsRepeated(now: nat, n: nat, from: nat, to: nat)
    ensures HitsIn(Repeat(now, n), from, to) == if from <= now < to then n else 0
    decreases n
  {
    if n > 0 {
      HitsRepeated(now, n - 1, from, to);
      assert Repeat(now, n)[..|Repeat(now, n)| - 1] == Repeat(now, n - 1);
    }
  }

  function Waited(s: State, wait: nat): State { s.(keys := s.keys.(now := s.keys.now + wait)) }

  /** A burst after a wait. */
  lemma Wave(p: Policy, s: State, ip: Source, wait: nat, from: nat, n: nat) returns (es: seq<Event>)
    requires ValidPolicy(p) && 0 <= IpCount(Waited(s, wait), ip) && IpCount(Waited(s, wait), ip) + n <= p.ipLimit
    requires UnusedFrom(s, from)
    ensures Granted(p, Waited(s, wait), Run(p, s, es), ip, from, n)
  {
    forall t: Target | |t.destination| >= from ensures Untouched(Waited(s, wait), t) { assert Untouched(s, t); }
    var burst, granted := Burst(p, Waited(s, wait), ip, from, n);
    es := [Tick(wait)] + burst;
    RunConcat(p, s, [Tick(wait)], burst);
    RunTick(p, s, wait);
  }

  lemma RunTick(p: Policy, s: State, wait: nat)
    ensures Run(p, s, [Tick(wait)]) == Waited(s, wait)
  {
    assert [Tick(wait)] == [] + [Tick(wait)];
    RunAppend(p, s, [], Tick(wait));
  }

  /** Grants for a source within one window length, from just before its first
      window ends. */
  function GrantsAtTurn(p: Policy, es: seq<Event>, ip: Source): nat
    requires p.ipWindow > 0
  {
    HitsIn(IpHits(Run(p, Init(), es), ip), p.ipWindow - 1, 2 * p.ipWindow - 1)
  }

  /** At `now` the source has these hits, its counter shows `used` and expires at
      `until`, and the targets from `from` on are unused. */
  ghost predicate Stands(s: State, ip: Source, now: nat, hits: seq<nat>, until: nat, used: int, from: nat) {
    && s.keys.now == now && IpHits(s, ip) == hits
    && IpCounter(s.keys, ip).until == until && IpCount(s, ip) == used
    && UnusedFrom(s, from)
  }

  lemma FirstWave(p: Policy, ip: Source) returns (es: seq<Event>)
    requires ValidPolicy(p)
    ensures Stands(Run(p, Init(), es), ip, 0, Repeat(0, 1), p.ipWindow, 1, 1)
  {
    es := Wave(p, Init(), ip, 0, 0, 1);
    assert IpHits(Waited(Init(), 0), ip) == [];
  }

  lemma SecondWave(p: Policy, s: State, ip: Source) returns (es: seq<Event>)
    requires ValidPolicy(p) && Stands(s, ip, 0, Repeat(0, 1), p.ipWindow, 1, 1)
    ensures Stands(Run(p, s, es), ip, p.ipWindow - 1, Repeat(0, 1) + Repeat(p.ipWindow - 1, p.ipLimit - 1),
                   p.ipWindow, p.ipLimit, p.ipLimit)
  {
    es := Wave(p, s, ip, p.ipWindow - 1, 1, p.ipLimit - 1);
  }

  lemma ThirdWave(p: Policy, s: State, ip: Source, hits: seq<nat>) returns (es: seq<Event>)
    requires ValidPolicy(p) && Stands(s, ip, p.ipWindow - 1, hits, p.ipWindow, p.ipLimit, p.ipLimit)
    ensures IpHits(Run(p, s, es), ip) == hits + Repeat(p.ipWindow, p.ipLimit)
  {
    es := Wave(p, s, ip, 1, p.ipLimit, p.ipLimit);
  }

  /** One grant opens a window, the rest of its budget follows at its last moment,
      and a whole new budget right after it. */
  lemma ThreeWaves(p: Policy, ip: Source) returns (es: seq<Event>)
    requires ValidPolicy(p)
    ensures IpHits(Run(p, Init(), es), ip)
            == Repeat(0, 1) + Repeat(p.ipWindow - 1, p.ipLimit - 1) + Repeat(p.ipWindow, p.ipLimit)
  {
    var e1 := FirstWave(p, ip);
    var e2 := SecondWave(p, Run(p, Init(), e1), ip);
    RunConcat(p, Init(), e1, e2);
    var e3 := ThirdWave(p, Run(p, Init(), e1 + e2), ip, Repeat(0, 1) + Repeat(p.ipWindow - 1, p.ipLimit - 1));
    RunConcat(p, Init(), e1 + e2, e3);
    es := e1 + e2 + e3;
  }

  lemma RushCounts(w: nat, l: nat, hits: seq<nat>)
    requires w > 1 && l > 0 && hits == Repeat(0, 1) + Repeat(w - 1, l - 1) + Repeat(w, l)
    ensures HitsIn(hits, w - 1, 2 * w - 1) == 2 * l - 1
  {
    WaveHits(w, l);
    SumHits(Repeat(0, 1), Repeat(w - 1, l - 1), Repeat(w, l), w - 1, 2 * w - 1);
  }

  /** The bound of `IpRateHolds` is attained under every policy. */
  lemma IpRateIsTight(p: Policy, ip: Source)
    requires ValidPolicy(p)
    ensures exists es :: GrantsAtTurn(p, es, ip) == 2 * p.ipLimit - 1
  {
    var es := ThreeWaves(p, ip);
    RushCounts(p.ipWindow, p.ipLimit, IpHits(Run(p, Init(), es), ip));
    assert GrantsAtTurn(p, es, ip) == 2 * p.ipLimit - 1;
  }

  lemma WaveHits(w: nat, l: nat)
    requires w > 1 && l > 0
    ensures HitsIn(Repeat(0, 1), w - 1, 2 * w - 1) == 0
    ensures HitsIn(Repeat(w - 1, l - 1), w - 1, 2 * w - 1) == l - 1
    ensures HitsIn(Repeat(w, l), w - 1, 2 * w - 1) == l
  {
    HitsRepeated(0, 1, w - 1, 2 * w - 1);
    HitsRepeated(w - 1, l - 1, w - 1, 2 * w - 1);
    HitsRepeated(w, l, w - 1, 2 * w - 1);
  }

  lemma SumHits(a: seq<nat>, b: seq<nat>, c: seq<nat>, from: nat, to: nat)
    ensures HitsIn(a + b + c, from, to) == HitsIn(a, from, to) + HitsIn(b, from, to) + HitsIn(c, from, to)
  {
    HitsConcat(a + b, c, from, to);
    HitsConcat(a, b, from, to);
  }
}
