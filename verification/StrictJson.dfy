/** The strict JSON object check that guards compact JOSE segments: recursive
    descent over the decoder's token stream, refusing duplicate member names
    (section 4 of RFC 7515 and of RFC 7519) and deep nesting. */
module StrictJson {
  import opened Options

  const MAX_DEPTH: int := 32

  /** `Bad` stands for whatever the decoder reports as a read or syntax error. */
  datatype Token = ObjOpen | ObjClose | ArrOpen | ArrClose | Str(text: string) | Literal(literal: string) | Bad

  datatype Value = Text(text: string) | Scalar(literal: string) | Object(members: Members) | Array(items: Items)
  datatype Members = NoMembers | Member(name: string, value: Value, rest: Members)
  datatype Items = NoItems | Item(value: Value, rest: Items)

  // ------------------------------------------- what a document should be

  function Flatten(v: Value): (ts: seq<Token>) {
    match v
    case Text(s) => [Str(s)]
    case Scalar(s) => [Literal(s)]
    case Object(ms) => [ObjOpen] + FlattenMembers(ms)
    case Array(xs) => [ArrOpen] + FlattenItems(xs)
  }

  function FlattenMembers(ms: Members): (ts: seq<Token>) {
    match ms
    case NoMembers => [ObjClose]
    case Member(n, v, rest) => [Str(n)] + Flatten(v) + FlattenMembers(rest)
  }

  function FlattenItems(xs: Items): (ts: seq<Token>) {
    match xs
    case NoItems => [ArrClose]
    case Item(v, rest) => Flatten(v) + FlattenItems(rest)
  }

  function Max(a: nat, b: nat): nat { if a < b then b else a }

  function Depth(v: Value): nat {
    match v
    case Text(_) => 0
    case Scalar(_) => 0
    case Object(ms) => 1 + MembersDepth(ms)
    case Array(xs) => 1 + ItemsDepth(xs)
  }

  function MembersDepth(ms: Members): nat {
    match ms case NoMembers => 0 case Member(_, v, rest) => Max(Depth(v), MembersDepth(rest))
  }

  function ItemsDepth(xs: Items): nat {
    match xs case NoItems => 0 case Item(v, rest) => Max(Depth(v), ItemsDepth(rest))
  }

  function Names(ms: Members): set<string> {
    match ms case NoMembers => {} case Member(n, _, rest) => {n} + Names(rest)
  }

  /** No object anywhere in the tree repeats a member name. */
  predicate Distinct(v: Value) {
    match v
    case Text(_) => true
    case Scalar(_) => true
    case Object(ms) => MembersDistinct(ms)
    case Array(xs) => ItemsDistinct(xs)
  }

  predicate MembersDistinct(ms: Members) {
    match ms case NoMembers => true case Member(n, v, rest) => n !in Names(rest) && Distinct(v) && MembersDistinct(rest)
  }

  predicate ItemsDistinct(xs: Items) {
    match xs case NoItems => true case Item(v, rest) => Distinct(v) && ItemsDistinct(rest)
  }

  predicate Strict(v: Value) { v.Object? && Depth(v) <= 32 && Distinct(v) }

  // -------------------------------------------- what the recursion reads

  /** Tokens left after one value whose container sits at `depth`. */
  function ReadValue(ts: seq<Token>, depth: int): (r: Option<seq<Token>>)
    ensures r.Some? ==> |r.value| < |ts|
    decreases |ts|, 0
  {
    if ts == [] then None
    else match ts[0]
      case Str(_) => Some(ts[1..])
      case Literal(_) => Some(ts[1..])
      case ObjOpen => ReadObject(ts[1..], depth + 1)
      case ArrOpen => ReadArray(ts[1..], depth + 1)
      case _ => None
  }

  function ReadObject(ts: seq<Token>, depth: int): (r: Option<seq<Token>>)
    ensures r.Some? ==> |r.value| < |ts|
    decreases |ts|, 2
  {
    if depth > MAX_DEPTH then None else ReadMembers(ts, depth, {})
  }

  function ReadMembers(ts: seq<Token>, depth: int, seen: set<string>): (r: Option<seq<Token>>)
    ensures r.Some? ==> |r.value| < |ts|
    decreases |ts|, 1
  {
    if ts == [] then None
    else match ts[0]
      case ObjClose => Some(ts[1..])
      case Str(n) =>
        if n in seen then None
        else (match ReadValue(ts[1..], depth) case None => None case Some(rest) => ReadMembers(rest, depth, seen + {n}))
      case _ => None
  }

  function ReadArray(ts: seq<Token>, depth: int): (r: Option<seq<Token>>)
    ensures r.Some? ==> |r.value| < |ts|
    decreases |ts|, 2
  {
    if depth > MAX_DEPTH then None else ReadItems(ts, depth)
  }

  function ReadItems(ts: seq<Token>, depth: int): (r: Option<seq<Token>>)
    ensures r.Some? ==> |r.value| < |ts|
    decreases |ts|, 1
  {
    if ts == [] then None
    else if ts[0] == ArrClose then Some(ts[1..])
    else if ts[0] == ObjClose then None
    else match ReadValue(ts, depth) case None => None case Some(rest) => ReadItems(rest, depth)
  }

  predicate Accepts(ts: seq<Token>) { ts != [] && ts[0] == ObjOpen && ReadObject(ts[1..], 1) == Some([]) }

  // ------------------------------------------------------- flattening is unambiguous

  lemma FlattenStarts(v: Value)
    ensures Flatten(v) != [] && Flatten(v)[0] != ArrClose && Flatten(v)[0] != ObjClose
  {}

  /** One token stream begins with at most one value. */
  lemma {:induction false} FlattenUnique(v: Value, w: Value, r: seq<Token>, q: seq<Token>)
    requires Flatten(v) + r == Flatten(w) + q
    ensures v == w && r == q
    decreases v
  {
    assert (Flatten(v) + r)[0] == Flatten(v)[0] && (Flatten(w) + q)[0] == Flatten(w)[0];
    assert (Flatten(v) + r)[1..] == Flatten(v)[1..] + r && (Flatten(w) + q)[1..] == Flatten(w)[1..] + q;
    match v
    case Text(_) => assert Flatten(w)[1..] == [];
    case Scalar(_) => assert Flatten(w)[1..] == [];
    case Object(ms) => MembersUnique(ms, w.members, r, q);
    case Array(xs) => ItemsUnique(xs, w.items, r, q);
  }

  lemma {:induction false} MembersUnique(ms: Members, ns: Members, r: seq<Token>, q: seq<Token>)
    requires FlattenMembers(ms) + r == FlattenMembers(ns) + q
    ensures ms == ns && r == q
    decreases ms
  {
    assert (FlattenMembers(ms) + r)[0] == FlattenMembers(ms)[0] && (FlattenMembers(ns) + q)[0] == FlattenMembers(ns)[0];
    assert (FlattenMembers(ms) + r)[1..] == FlattenMembers(ms)[1..] + r
           && (FlattenMembers(ns) + q)[1..] == FlattenMembers(ns)[1..] + q;
    if ms.Member? {
      assert FlattenMembers(ms)[1..] + r == Flatten(ms.value) + (FlattenMembers(ms.rest) + r);
      assert FlattenMembers(ns)[1..] + q == Flatten(ns.value) + (FlattenMembers(ns.rest) + q);
      FlattenUnique(ms.value, ns.value, FlattenMembers(ms.rest) + r, FlattenMembers(ns.rest) + q);
      MembersUnique(ms.rest, ns.rest, r, q);
    }
  }

  lemma {:induction false} ItemsUnique(xs: Items, ys: Items, r: seq<Token>, q: seq<Token>)
    requires FlattenItems(xs) + r == FlattenItems(ys) + q
    ensures xs == ys && r == q
    decreases xs
  {
    assert (FlattenItems(xs) + r)[0] == FlattenItems(xs)[0] && (FlattenItems(ys) + q)[0] == FlattenItems(ys)[0];
    assert (FlattenItems(xs) + r)[1..] == FlattenItems(xs)[1..] + r
           && (FlattenItems(ys) + q)[1..] == FlattenItems(ys)[1..] + q;
    if xs.Item? { FlattenStarts(xs.value); }
    if ys.Item? { FlattenStarts(ys.value); }
    if xs.Item? {
      assert FlattenItems(xs) + r == Flatten(xs.value) + (FlattenItems(xs.rest) + r);
      assert FlattenItems(ys) + q == Flatten(ys.value) + (FlattenItems(ys.rest) + q);
      FlattenUnique(xs.value, ys.value, FlattenItems(xs.rest) + r, FlattenItems(ys.rest) + q);
      ItemsUnique(xs.rest, ys.rest, r, q);
    }
  }

  // -------------------------------------------------------------- complete

  lemma {:induction false} ValueReads(v: Value, depth: int, rest: seq<Token>)
    requires Distinct(v) && depth + Depth(v) <= MAX_DEPTH
    ensures ReadValue(Flatten(v) + rest, depth) == Some(rest)
    decreases v
  {
    var ts := Flatten(v) + rest;
    assert ts[1..] == Flatten(v)[1..] + rest;
    match v
    case Text(_) =>
    case Scalar(_) =>
    case Object(ms) => MembersRead(ms, depth + 1, {}, rest);
    case Array(xs) => ItemsRead(xs, depth + 1, rest);
  }

  lemma {:induction false} MembersRead(ms: Members, depth: int, seen: set<string>, rest: seq<Token>)
    requires MembersDistinct(ms) && Names(ms) !! seen && depth + MembersDepth(ms) <= MAX_DEPTH
    ensures ReadMembers(FlattenMembers(ms) + rest, depth, seen) == Some(rest)
    decreases ms
  {
    if ms.Member? {
      var more := FlattenMembers(ms.rest) + rest;
      assert (FlattenMembers(ms) + rest)[1..] == Flatten(ms.value) + more;
      ValueReads(ms.value, depth, more);
      MembersRead(ms.rest, depth, seen + {ms.name}, rest);
    }
  }

  lemma {:induction false} ItemsRead(xs: Items, depth: int, rest: seq<Token>)
    requires ItemsDistinct(xs) && depth + ItemsDepth(xs) <= MAX_DEPTH
    ensures ReadItems(FlattenItems(xs) + rest, depth) == Some(rest)
    decreases xs
  {
    if xs.Item? {
      var more := FlattenItems(xs.rest) + rest;
      assert FlattenItems(xs) + rest == Flatten(xs.value) + more;
      FlattenStarts(xs.value);
      ValueReads(xs.value, depth, more);
      ItemsRead(xs.rest, depth, rest);
    }
  }

  // ----------------------------------------------------------------- sound

  /** What was read is the flattening of a value within the limits. */
  lemma {:induction false} ValueIsRead(ts: seq<Token>, depth: int) returns (v: Value)
    requires ReadValue(ts, depth).Some? && depth <= MAX_DEPTH
    ensures ts == Flatten(v) + ReadValue(ts, depth).value
    ensures Distinct(v) && depth + Depth(v) <= MAX_DEPTH
    decreases |ts|, 0
  {
    match ts[0]
    case Str(s) => v := Text(s);
    case Literal(s) => v := Scalar(s);
    case ObjOpen =>
      var ms := MembersAreRead(ts[1..], depth + 1, {});
      v := Object(ms);
      assert ts == [ts[0]] + ts[1..];
    case ArrOpen =>
      var xs := ItemsAreRead(ts[1..], depth + 1);
      v := Array(xs);
      assert ts == [ts[0]] + ts[1..];
  }

  lemma {:induction false} MembersAreRead(ts: seq<Token>, depth: int, seen: set<string>) returns (ms: Members)
    requires ReadMembers(ts, depth, seen).Some? && depth <= MAX_DEPTH
    ensures ts == FlattenMembers(ms) + ReadMembers(ts, depth, seen).value
    ensures MembersDistinct(ms) && Names(ms) !! seen && depth + MembersDepth(ms) <= MAX_DEPTH
    decreases |ts|, 1
  {
    if ts[0] == ObjClose {
      ms := NoMembers;
    } else {
      var v := ValueIsRead(ts[1..], depth);
      var more := ReadValue(ts[1..], depth).value;
      var rest := MembersAreRead(more, depth, seen + {ts[0].text});
      ms := Member(ts[0].text, v, rest);
      assert ts == [ts[0]] + ts[1..];
    }
  }

  lemma {:induction false} ItemsAreRead(ts: seq<Token>, depth: int) returns (xs: Items)
    requires ReadItems(ts, depth).Some? && depth <= MAX_DEPTH
    ensures ts == FlattenItems(xs) + ReadItems(ts, depth).value
    ensures ItemsDistinct(xs) && depth + ItemsDepth(xs) <= MAX_DEPTH
    decreases |ts|, 1
  {
    if ts[0] == ArrClose {
      xs := NoItems;
    } else {
      var v := ValueIsRead(ts, depth);
      var rest := ItemsAreRead(ReadValue(ts, depth).value, depth);
      xs := Item(v, rest);
    }
  }

  // --------------------------------------------------------------- theorems

  /** The check accepts exactly the flattenings of one object tree within the
      nesting limit whose objects have distinct member names. */
  lemma AcceptsExactlyStrict(ts: seq<Token>)
    ensures Accepts(ts) <==> exists v :: Strict(v) && Flatten(v) == ts
  {
    if Accepts(ts) {
      var v := ValueIsRead(ts, 0);
      assert Flatten(v) + [] == Flatten(v);
      assert Strict(v);
    }
    forall v | Strict(v) && Flatten(v) == ts ensures Accepts(ts) {
      ValueReads(v, 0, []);
      assert Flatten(v) + [] == ts;
    }
  }

  /** ... and that tree is unique. */
  lemma AcceptedTreeIsUnique(ts: seq<Token>, v: Value, w: Value)
    requires Flatten(v) == ts && Flatten(w) == ts
    ensures v == w
  {
    FlattenUnique(v, w, [], []);
  }

  /** Round trip: a tree's flattening is accepted exactly when the tree is strict. */
  lemma FlattenRoundTrip(v: Value)
    ensures Accepts(Flatten(v)) <==> Strict(v)
  {
    AcceptsExactlyStrict(Flatten(v));
    if Accepts(Flatten(v)) {
      var w :| Strict(w) && Flatten(w) == Flatten(v);
      AcceptedTreeIsUnique(Flatten(v), v, w);
    }
  }

  /** `n` arrays, or objects with one member, within each other. */
  function Nest(n: nat, objects: bool): Value {
    if n == 0 then Scalar("0")
    else if objects then Object(Member("a", Nest(n - 1, objects), NoMembers))
    else Array(Item(Nest(n - 1, objects), NoItems))
  }

  lemma {:induction false} NestMeasures(n: nat, objects: bool)
    ensures Depth(Nest(n, objects)) == n && Distinct(Nest(n, objects))
    decreases n
  {
    if n > 0 { NestMeasures(n - 1, objects); }
  }

  /** Arrays and objects count alike: a document is accepted with up to 32 containers
      within each other, and with no more. */
  lemma NestingLimit(n: nat, objects: bool)
    ensures Accepts(Flatten(Object(Member("m", Nest(n, objects), NoMembers)))) <==> n <= 31
  {
    NestMeasures(n, objects);
    var ms := Member("m", Nest(n, objects), NoMembers);
    assert MembersDepth(NoMembers) == 0 && Names(NoMembers) == {} && MembersDistinct(NoMembers);
    assert MembersDepth(ms) == n && MembersDistinct(ms);
    assert Depth(Object(ms)) == 1 + n && Distinct(Object(ms));
    FlattenRoundTrip(Object(ms));
  }

  /** A repeated member name is refused, wherever its object sits and whatever the
      values are. */
  lemma RepeatsAreRefused(name: string, v: Value, w: Value, rest: Members, more: Members)
    ensures var repeated := Object(Member(name, v, Member(name, w, rest)));
            && !Accepts(Flatten(repeated))
            && !Accepts(Flatten(Object(Member("m", Array(Item(repeated, NoItems)), more))))
  {
    var ms := Member(name, v, Member(name, w, rest));
    assert name in Names(Member(name, w, rest));
    assert !MembersDistinct(ms) && !Distinct(Object(ms));
    FlattenRoundTrip(Object(ms));
    var xs := Item(Object(ms), NoItems);
    assert !ItemsDistinct(xs) && !Distinct(Array(xs));
    assert !MembersDistinct(Member("m", Array(xs), more));
    FlattenRoundTrip(Object(Member("m", Array(xs), more)));
  }

  // ---------------------------------------------------------------- decoder

  class Decoder {
    const tokens: seq<Token>
    var pos: nat

    ghost predicate Valid()
      reads this
    {
      pos <= |tokens|
    }

    ghost function Left(): seq<Token>
      requires Valid()
      reads this
    {
      tokens[pos..]
    }

    constructor (tokens: seq<Token>)
      ensures Valid() && this.tokens == tokens && Left() == tokens
    {
      this.tokens, pos := tokens, 0;
    }

    method More() returns (more: bool)
      requires Valid()
      ensures more <==> Left() != [] && Left()[0] != ObjClose && Left()[0] != ArrClose
    {
      more := pos < |tokens| && tokens[pos] != ObjClose && tokens[pos] != ArrClose;
    }

    /** `None` is any error, end of input included. */
    method Next() returns (t: Option<Token>)
      requires Valid()
      modifies this
      ensures Valid() && old(pos) <= pos
      ensures t.Some? <==> old(Left()) != [] && old(Left())[0] != Bad
      ensures t.Some? ==> old(Left()) == [t.value] + Left() && Left() == old(Left())[1..]
    {
      if pos == |tokens| || tokens[pos] == Bad { return None; }
      t := Some(tokens[pos]);
      pos := pos + 1;
    }

    method ConsumeValue(parentDepth: int) returns (ok: bool)
      requires Valid()
      modifies this
      ensures Valid() && old(pos) <= pos
      ensures ok <==> ReadValue(old(Left()), parentDepth).Some?
      ensures ok ==> Left() == ReadValue(old(Left()), parentDepth).value
      decreases |tokens| - pos, 3
    {
      var token := Next();
      if token.None? { return false; }
      match token.value
      case Str(_) => return true;
      case Literal(_) => return true;
      case ObjOpen => ok := ConsumeObject(parentDepth + 1);
      case ArrOpen => ok := ConsumeArray(parentDepth + 1);
      case _ => return false;
    }

    method ConsumeObject(depth: int) returns (ok: bool)
      requires Valid()
      modifies this
      ensures Valid() && old(pos) <= pos
      ensures ok <==> ReadObject(old(Left()), depth).Some?
      ensures ok ==> Left() == ReadObject(old(Left()), depth).value
      decreases |tokens| - pos, 4
    {
      if depth > MAX_DEPTH { return false; }
      var members: set<string> := {};
      var more := More();
      while more
        invariant Valid() && old(pos) <= pos
        invariant more <==> Left() != [] && Left()[0] != ObjClose && Left()[0] != ArrClose
        invariant ReadMembers(Left(), depth, members) == ReadObject(old(Left()), depth)
        decreases |tokens| - pos
      {
        var name := Next();
        if name.None? || !name.value.Str? { return false; }
        if name.value.text in members { return false; }
        members := members + {name.value.text};
        var read := ConsumeValue(depth);
        if !read { return false; }
        more := More();
      }
      var closing := Next();
      ok := closing == Some(ObjClose);
    }

    method ConsumeArray(depth: int) returns (ok: bool)
      requires Valid()
      modifies this
      ensures Valid() && old(pos) <= pos
      ensures ok <==> ReadArray(old(Left()), depth).Some?
      ensures ok ==> Left() == ReadArray(old(Left()), depth).value
      decreases |tokens| - pos, 4
    {
      if depth > MAX_DEPTH { return false; }
      var more := More();
      while more
        invariant Valid() && old(pos) <= pos
        invariant more <==> Left() != [] && Left()[0] != ObjClose && Left()[0] != ArrClose
        invariant ReadItems(Left(), depth) == ReadArray(old(Left()), depth)
        decreases |tokens| - pos
      {
        var read := ConsumeValue(depth);
        if !read { return false; }
        more := More();
      }
      var closing := Next();
      ok := closing == Some(ArrClose);
    }

    /** One object from the current position to the end of the stream. */
    method ConsumeDocument() returns (ok: bool)
      requires Valid()
      modifies this
      ensures ok <==> Accepts(old(Left()))
    {
      var opening := Next();
      if opening != Some(ObjOpen) { return false; }
      var read := ConsumeObject(1);
      if !read { return false; }
      ok := pos == |tokens|;
      assert ok <==> Left() == [];
    }
  }

  /** The whole check: one strict object and nothing after it. */
  method ValidateJSONObject(document: seq<Token>) returns (ok: bool)
    ensures ok <==> exists v :: Strict(v) && Flatten(v) == document
  {
    var decoder := new Decoder(document);
    ok := decoder.ConsumeDocument();
    AcceptsExactlyStrict(document);
  }
}
