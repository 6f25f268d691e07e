/** The code store's scripts and the code generator as they run, each tied to the
    functions of `OneTimeCode`. */
module CodeStore {
  import opened Options
  import opened RateWindow
  import opened OneTimeCode

  /** INCR: a missing or expired key starts at one with no expiry of its own yet. */
  function Incr(c: Counter, now: nat): Counter {
    if now < c.until then c.(count := c.count + 1) else Counter(1, 0)
  }

  ghost predicate Counting<K(!new)>(rate: map<K, Counter>) { forall k :: k in rate ==> rate[k].count >= 1 }

  /** INCR followed by PEXPIRE on the first hit of a window. */
  method Hit<K(!new)>(rate: map<K, Counter>, key: K, now: nat, window: nat) returns (counted: map<K, Counter>)
    requires Counting(rate)
    ensures counted == rate[key := Incremented(if key in rate then rate[key] else Counter(0, 0), now, window)]
    ensures Counting(counted)
  {
    var c := Incr(if key in rate then rate[key] else Counter(0, 0), now);
    if c.count == 1 { c := c.(until := now + window); }
    counted := rate[key := c];
  }

  /** What a guess is answered, by the stored challenge: 1 none alive, 4 claimed, 0 the
      stored code, 3 the last wrong guess allowed, 2 another wrong one. */
  function Answer(challenges: map<Target, Challenge>, now: nat, p: Policy, t: Target, code: string): int {
    if t !in challenges || challenges[t].until <= now then 1
    else if challenges[t].claim != None then 4
    else if code == challenges[t].code then 0
    else if p.maxAttempts <= challenges[t].attempts + 1 then 3
    else 2
  }

  function Recounted(challenges: map<Target, Challenge>, t: Target): map<Target, Challenge> {
    if t in challenges then challenges[t := challenges[t].(attempts := challenges[t].attempts + 1)] else challenges
  }

  /** What a claim token is answered: 1 none alive, 0 the stored claim, 5 any other. */
  function TokenAnswer(challenges: map<Target, Challenge>, now: nat, t: Target, token: nat): int {
    if t !in challenges || challenges[t].until <= now then 1
    else if challenges[t].claim == Some(token) then 0
    else 5
  }

  class Store {
    var now: nat
    var challenges: map<Target, Challenge>
    var cooldowns: map<Target, nat>
    var targetRate: map<Target, Counter>
    var ipRate: map<Source, Counter>
    var granted: nat

    ghost predicate Valid()
      reads this
    {
      Counting(targetRate) && Counting(ipRate)
    }

    ghost function View(): Keys
      reads this
    {
      Keys(now, challenges, Rates(cooldowns, targetRate, ipRate))
    }

    constructor ()
      ensures Valid() && View() == Init().keys && granted == 0
    {
      now, challenges, cooldowns, targetRate, ipRate, granted := 0, map[], map[], map[], map[], 0;
    }

    method Reserve(p: Policy, t: Target, ip: Source, code: string) returns (r: int)
      requires Valid()
      modifies this
      ensures Valid()
      ensures r == ReserveResult(old(View()), p, t, ip)
      ensures View() == ReserveKeys(old(View()), p, t, ip, code, old(granted))
      ensures r != 0 ==> View() == old(View())
      ensures r == 0 ==> && challenges == old(challenges)[t := Challenge(code, 0, None, now + p.codeTTL, old(granted))]
                         && cooldowns == old(cooldowns)[t := now + p.cooldown] && now == old(now)
      ensures granted == old(granted) + (if r == 0 then 1 else 0)
    {
      if t in challenges && now < challenges[t].until && challenges[t].claim.Some? { return 1; }
      if t in cooldowns && now < cooldowns[t] { return 1; }
      if Current(if t in targetRate then targetRate[t] else Counter(0, 0), now) >= p.targetLimit { return 2; }
      if Current(if ip in ipRate then ipRate[ip] else Counter(0, 0), now) >= p.ipLimit { return 3; }
      Grant(p, t, ip, code);
      return 0;
    }

    /** The writes of a granted reservation. */
    method Grant(p: Policy, t: Target, ip: Source, code: string)
      requires Valid()
      modifies this
      ensures Valid() && now == old(now) && granted == old(granted) + 1
      ensures challenges == old(challenges)[t := Challenge(code, 0, None, now + p.codeTTL, old(granted))]
      ensures cooldowns == old(cooldowns)[t := now + p.cooldown]
      ensures targetRate == old(targetRate)[t := Incremented(TargetCounter(old(View()), t), now, p.targetWindow)]
      ensures ipRate == old(ipRate)[ip := Incremented(IpCounter(old(View()), ip), now, p.ipWindow)]
    {
      targetRate := Hit(targetRate, t, now, p.targetWindow);
      ipRate := Hit(ipRate, ip, now, p.ipWindow);
      challenges := challenges[t := Challenge(code, 0, None, now + p.codeTTL, granted)];
      cooldowns := cooldowns[t := now + p.cooldown];
      granted := granted + 1;
    }

    /** Shared end of the two verify scripts: count a wrong code, drop the challenge
        at the limit. */
    method CountWrong(p: Policy, t: Target) returns (r: int)
      requires t in challenges
      modifies this`challenges
      ensures r == if old(challenges[t].attempts) + 1 >= p.maxAttempts then 3 else 2
      ensures View() == if r == 3 then Dropped(old(View()), t) else Miscounted(old(View()), t)
    {
      challenges := challenges[t := challenges[t].(attempts := challenges[t].attempts + 1)];
      if challenges[t].attempts >= p.maxAttempts {
        challenges := challenges - {t};
        return 3;
      }
      return 2;
    }

    method Verify(p: Policy, t: Target, code: string) returns (r: int)
      modifies this`challenges
      ensures r == VerifyResult(old(View()), p, t, code) == Answer(old(challenges), now, p, t, code)
      ensures challenges == if r == 0 || r == 3 then old(challenges) - {t}
                            else if r == 2 then Recounted(old(challenges), t) else old(challenges)
      ensures View() == VerifyKeys(old(View()), p, t, code)
    {
      if !(t in challenges && now < challenges[t].until) { return 1; }
      if challenges[t].claim.Some? { return 4; }
      if challenges[t].code == code {
        challenges := challenges - {t};
        return 0;
      }
      r := CountWrong(p, t);
    }

    method VerifyAndClaim(p: Policy, t: Target, code: string, token: nat) returns (r: int)
      modifies this`challenges
      ensures r == VerifyResult(old(View()), p, t, code) == Answer(old(challenges), now, p, t, code)
      ensures r == 0 ==> challenges == old(challenges)[t := old(challenges)[t].(claim := Some(token))]
      ensures r != 0 ==> challenges == if r == 3 then old(challenges) - {t}
                                       else if r == 2 then Recounted(old(challenges), t) else old(challenges)
      ensures View() == ClaimKeys(old(View()), p, t, code, token)
    {
      if !(t in challenges && now < challenges[t].until) { return 1; }
      if challenges[t].claim.Some? { return 4; }
      if challenges[t].code == code {
        challenges := challenges[t := challenges[t].(claim := Some(token))];
        return 0;
      }
      r := CountWrong(p, t);
    }

    method ConsumeClaim(t: Target, token: nat) returns (r: int)
      modifies this`challenges
      ensures r == TokenResult(old(View()), t, token) == TokenAnswer(old(challenges), now, t, token)
      ensures challenges == if r == 0 then old(challenges) - {t} else old(challenges)
      ensures View() == ConsumeKeys(old(View()), t, token)
    {
      if !(t in challenges && now < challenges[t].until) { return 1; }
      if challenges[t].claim != Some(token) { return 5; }
      challenges := challenges - {t};
      return 0;
    }

    method ReleaseClaim(t: Target, token: nat) returns (r: int)
      modifies this`challenges
      ensures r == TokenResult(old(View()), t, token) == TokenAnswer(old(challenges), now, t, token)
      ensures r == 0 ==> challenges == old(challenges)[t := old(challenges)[t].(claim := None)]
      ensures r != 0 ==> challenges == old(challenges)
      ensures View() == ReleaseKeys(old(View()), t, token)
    {
      if !(t in challenges && now < challenges[t].until) { return 1; }
      if challenges[t].claim != Some(token) { return 5; }
      challenges := challenges[t := challenges[t].(claim := None)];
      return 0;
    }
  }

  /** The scripts are the machine's steps on the stored keys. */
  lemma ScriptsAreSteps(p: Policy, s: State, e: Event)
    requires CodesOk(p, s) && (e.Claim? ==> e.token !in s.tokens)
    ensures Step(p, s, e).keys ==
            match e
            case Tick(d) => s.keys.(now := s.keys.now + d)
            case Reserve(t, ip, code) => ReserveKeys(s.keys, p, t, ip, code, |s.fates|)
            case Verify(t, code) => VerifyKeys(s.keys, p, t, code)
            case Claim(t, code, token) => ClaimKeys(s.keys, p, t, code, token)
            case Consume(t, token) => ConsumeKeys(s.keys, t, token)
            case Release(t, token) => ReleaseKeys(s.keys, t, token)
  {
    if (e.Verify? || e.Claim? || e.Consume?) && e.target in s.keys.challenges {
      assert ChallengeOk(p, s, e.target);
    }
  }

  // -------------------------------------------------------- generating codes

  type Byte = x: int | 0 <= x < 256

  const CODE_LENGTH: nat := 6
  const REJECT_FROM: int := 250

  function Usable(bytes: seq<Byte>): seq<Byte>
    decreases |bytes|
  {
    if bytes == [] then []
    else if bytes[|bytes| - 1] >= REJECT_FROM then Usable(bytes[..|bytes| - 1])
    else Usable(bytes[..|bytes| - 1]) + [bytes[|bytes| - 1]]
  }

  function Joined(blocks: seq<seq<Byte>>): seq<Byte>
    decreases |blocks|
  {
    if blocks == [] then [] else Joined(blocks[..|blocks| - 1]) + blocks[|blocks| - 1]
  }

  function Digits(bytes: seq<Byte>): seq<char> {
    seq(|bytes|, i requires 0 <= i < |bytes| => '0' + (bytes[i] % 10) as char)
  }

  lemma UsableOne(b: Byte)
    ensures Usable([b]) == if b < 250 then [b] else []
  {
    assert [b][..0] == [];
  }

  lemma {:induction false} UsableConcat(a: seq<Byte>, b: seq<Byte>)
    ensures Usable(a + b) == Usable(a) + Usable(b)
    decreases |b|
  {
    if b == [] {
      assert a + b == a;
    } else {
      assert (a + b)[..|a + b| - 1] == a + b[..|b| - 1];
      UsableConcat(a, b[..|b| - 1]);
    }
  }

  lemma {:induction false} JoinedPrefix(blocks: seq<seq<Byte>>, n: nat)
    requires n <= |blocks|
    ensures Usable(Joined(blocks[..n])) <= Usable(Joined(blocks))
    decreases |blocks| - n
  {
    if n == |blocks| {
      assert blocks[..n] == blocks;
    } else {
      JoinedPrefix(blocks, n + 1);
      assert blocks[..n + 1][..n] == blocks[..n];
      UsableConcat(Joined(blocks[..n]), blocks[n]);
    }
  }

  /** Fills `code` from one block of random bytes, stopping when it is full. */
  method FillFrom(bytes: seq<Byte>, code0: seq<char>, ghost taken: seq<Byte>)
    returns (code: seq<char>, ghost used: seq<Byte>)
    requires |taken| < CODE_LENGTH && code0 == Digits(taken)
    ensures |used| <= CODE_LENGTH && code == Digits(used)
    ensures used <= taken + Usable(bytes) && (|used| < CODE_LENGTH ==> used == taken + Usable(bytes))
  {
    code, used := code0, taken;
    var i := 0;
    while i < |bytes|
      invariant 0 <= i <= |bytes| && |used| < CODE_LENGTH && code == Digits(used)
      invariant used == taken + Usable(bytes[..i])
    {
      assert bytes[..i + 1][..i] == bytes[..i];
      if bytes[i] < REJECT_FROM {
        code := code + ['0' + (bytes[i] % 10) as char];
        used := used + [bytes[i]];
        assert used == taken + Usable(bytes[..i + 1]);
        if |code| == CODE_LENGTH {
          assert bytes == bytes[..i + 1] + bytes[i + 1..];
          UsableConcat(bytes[..i + 1], bytes[i + 1..]);
          assert taken + Usable(bytes) == used + Usable(bytes[i + 1..]);
          return;
        }
      }
      i := i + 1;
    }
    assert bytes[..i] == bytes;
  }

  /** Reads blocks of random bytes until six are usable; a source that runs dry is
      the read error. The code is made of the first six usable bytes. */
  method GenerateCode(blocks: seq<seq<Byte>>) returns (code: Option<string>)
    ensures code.Some? <==> |Usable(Joined(blocks))| >= CODE_LENGTH
    ensures code.Some? ==> code.value == Digits(Usable(Joined(blocks))[..CODE_LENGTH])
  {
    var digits: seq<char> := [];
    ghost var used: seq<Byte> := [];
    var n := 0;
    while |digits| < CODE_LENGTH
      invariant 0 <= n <= |blocks| && |used| <= CODE_LENGTH && digits == Digits(used)
      invariant |used| < CODE_LENGTH ==> used == Usable(Joined(blocks[..n]))
      invariant used <= Usable(Joined(blocks[..n]))
      decreases |blocks| - n
    {
      if n == |blocks| {
        assert blocks[..n] == blocks;
        return None;
      }
      assert blocks[..n + 1][..n] == blocks[..n];
      UsableConcat(Joined(blocks[..n]), blocks[n]);
      ghost var before := used;
      digits, used := FillFrom(blocks[n], digits, used);
      assert Usable(Joined(blocks[..n + 1])) == before + Usable(blocks[n]);
      n := n + 1;
    }
    JoinedPrefix(blocks, n);
    assert Usable(Joined(blocks))[..CODE_LENGTH] == used;
    return Some(digits);
  }

  function Quotients(bytes: seq<Byte>): seq<int> { seq(|bytes|, i requires 0 <= i < |bytes| => bytes[i] / 10) }

  predicate IsCode(code: seq<char>) { forall i :: 0 <= i < |code| ==> '0' <= code[i] <= '9' }
  predicate IsChoice(qs: seq<int>) { forall i :: 0 <= i < |qs| ==> 0 <= qs[i] < 25 }
  predicate AllUsable(bytes: seq<Byte>) { forall i :: 0 <= i < |bytes| ==> bytes[i] < REJECT_FROM }

  function Spread(code: seq<char>, qs: seq<int>): (bytes: seq<Byte>)
    requires |code| == |qs| && IsCode(code) && IsChoice(qs)
  {
    seq(|code|, i requires 0 <= i < |code| => 10 * qs[i] + (code[i] - '0') as int)
  }

  /** No modulo bias: the usable byte strings behind one code correspond one to one
      to the strings over 25 symbols, whatever the code is. */
  lemma EveryCodeIsEquallyLikely(code: seq<char>, qs: seq<int>)
    requires |code| == |qs| && IsCode(code) && IsChoice(qs)
    ensures AllUsable(Spread(code, qs)) && Digits(Spread(code, qs)) == code && Quotients(Spread(code, qs)) == qs
    ensures forall bytes | AllUsable(bytes) :: IsCode(Digits(bytes)) && IsChoice(Quotients(bytes))
    ensures forall bytes | AllUsable(bytes) :: Spread(Digits(bytes), Quotients(bytes)) == bytes
  {
    var spread := Spread(code, qs);
    forall i | 0 <= i < |code| ensures Digits(spread)[i] == code[i] && Quotients(spread)[i] == qs[i] {
      assert spread[i] / 10 == qs[i] && spread[i] % 10 == (code[i] - '0') as int;
    }
  }
}
