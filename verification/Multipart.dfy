/** Choice of the upload mode, validation of a multipart part list and the
    ordered list handed to the object store's merge call. */
module Multipart {
  import opened Options

  const MAX_PART_COUNT: int := 10000
  const MAX_ETAG_BYTES: int := 1024

  datatype Part = Part(number: int, etag: string)
  datatype Mode = Single | Parts(partSize: int, partCount: int)
  /** A multipart plan covers the object with no part left over: the last part is
      the only one that may be short, and it is not empty.  A count above the
      limit is reported as one more than the limit. */
  function UploadMode(size: int, allowMultipart: bool, threshold: int, partSize: int): (r: Mode)
    requires size > 0 && partSize > 0
    ensures r.Parts? <==> allowMultipart && size > threshold
    ensures r.Parts? ==> r.partSize == partSize && 1 <= r.partCount <= 10001
    ensures r.Parts? && r.partCount <= MAX_PART_COUNT ==>
              (r.partCount - 1) * r.partSize < size <= r.partCount * r.partSize
    ensures r.Parts? && r.partCount > MAX_PART_COUNT ==> size > MAX_PART_COUNT * r.partSize
  {
    if allowMultipart && size > threshold then
      var partCount := (size - 1) / partSize + 1;
      DivisionCovers(size - 1, partSize);
      if partCount > MAX_PART_COUNT then
        ProductGrows(MAX_PART_COUNT, partCount - 1, partSize);
        Parts(partSize, MAX_PART_COUNT + 1)
      else Parts(partSize, partCount)
    else Single
  }

  lemma DivisionCovers(x: int, d: int)
    requires x >= 0 && d > 0
    ensures (x / d) * d <= x < (x / d + 1) * d
    ensures x / d >= 0
  {}

  lemma ProductGrows(a: int, b: int, d: int)
    requires 0 <= a <= b && d > 0
    ensures a * d <= b * d
  {}

  // ---------------------------------------------------------------- entity tags

  predicate IsSpace(c: char) { c in " \t\n\r" || c == '\U{0b}' || c == '\U{0c}' }

  function TrimStart(s: string, cut: char -> bool): string {
    if s != [] && cut(s[0]) then TrimStart(s[1..], cut) else s
  }

  function TrimEnd(s: string, cut: char -> bool): string {
    if s != [] && cut(s[|s| - 1]) then TrimEnd(s[..|s| - 1], cut) else s
  }

  /** Trimming removes the longest cut prefix, respectively suffix, and nothing else. */
  lemma {:induction false} TrimStartSpec(s: string, cut: char -> bool)
    ensures var r := TrimStart(s, cut);
            && (r == [] || !cut(r[0])) && |r| <= |s| && r == s[|s| - |r|..]
            && forall i :: 0 <= i < |s| - |r| ==> cut(s[i])
  {
    if s != [] && cut(s[0]) { TrimStartSpec(s[1..], cut); }
  }

  lemma {:induction false} TrimEndSpec(s: string, cut: char -> bool)
    ensures var r := TrimEnd(s, cut);
            && (r == [] || !cut(r[|r| - 1])) && |r| <= |s| && r == s[..|r|]
            && forall i :: |r| <= i < |s| ==> cut(s[i])
  {
    if s != [] && cut(s[|s| - 1]) { TrimEndSpec(s[..|s| - 1], cut); }
  }

  function Trim(s: string, cut: char -> bool): string { TrimEnd(TrimStart(s, cut), cut) }
  function TrimSpace(s: string): string { Trim(s, IsSpace) }
  predicate IsQuote(c: char) { c == '"' }
  function NormalizeETag(value: string): string { Trim(TrimSpace(value), IsQuote) }

  /** Normalising a normalised tag that carries no outer space changes nothing,
      and no tag that survives is bounded by quotes. */
  lemma NormalizedTagIsBare(value: string)
    ensures var e := NormalizeETag(value);
            && (e != [] ==> e[0] != '"' && e[|e| - 1] != '"')
            && (e != [] && !IsSpace(e[0]) && !IsSpace(e[|e| - 1]) ==> NormalizeETag(e) == e)
  {
    var e := NormalizeETag(value);
    TrimKeepsBare(TrimSpace(value), IsQuote);
    if e != [] && !IsSpace(e[0]) && !IsSpace(e[|e| - 1]) {
      assert TrimStart(e, IsSpace) == e && TrimEnd(e, IsSpace) == e;
      assert TrimStart(e, IsQuote) == e && TrimEnd(e, IsQuote) == e;
    }
  }

  predicate White(c: char) {
    c == ' ' || c == '\t' || c == '\n' || c == '\r' || c == '\U{0b}' || c == '\U{0c}'
  }

  /** `value` is `core` within quotes within white space, and no more of either can
      be taken off. */
  predicate CoreWithin(value: string, a: string, b: string, core: string, c: string, d: string) {
    var quoted := b + core + c;
    && value == a + quoted + d
    && (forall x :: x in a + d ==> White(x)) && (forall x :: x in b + c ==> x == '"')
    && (quoted != [] ==> !White(quoted[0]) && !White(quoted[|quoted| - 1]))
    && (core != [] ==> core[0] != '"' && core[|core| - 1] != '"')
  }

  /** Normalising takes off exactly the outer white space and then the outer quotes. */
  lemma NormalizedTagIsCore(value: string)
    ensures exists a, b, c, d :: CoreWithin(value, a, b, NormalizeETag(value), c, d)
  {
    var t := TrimSpace(value);
    var a, d := TrimSplits(value, IsSpace);
    var b, c := TrimSplits(t, IsQuote);
    TrimKeepsBare(value, IsSpace);
    TrimKeepsBare(t, IsQuote);
    assert t == b + NormalizeETag(value) + c;
    assert CoreWithin(value, a, b, NormalizeETag(value), c, d);
  }

  /** Trimming splits off a prefix and a suffix of cut characters. */
  lemma TrimSplits(s: string, cut: char -> bool) returns (front: string, back: string)
    ensures s == front + Trim(s, cut) + back
    ensures (forall x :: x in front ==> cut(x)) && (forall x :: x in back ==> cut(x))
  {
    TrimStartSpec(s, cut);
    var t := TrimStart(s, cut);
    TrimEndSpec(t, cut);
    front := s[..|s| - |t|];
    back := t[|Trim(s, cut)|..];
  }

  predicate Blank(s: string) { forall i :: 0 <= i < |s| ==> IsSpace(s[i]) }

  lemma TrimmedAwayIsBlank(s: string)
    ensures TrimSpace(s) == "" <==> Blank(s)
  {
    var front, back := TrimSplits(s, IsSpace);
    TrimKeepsBare(s, IsSpace);
    var t := TrimSpace(s);
    if t == "" {
      forall i | 0 <= i < |s| ensures IsSpace(s[i]) { assert s[i] in front || s[i] in back; }
    } else {
      assert s[|front|] == t[0];
    }
  }

  lemma TrimKeepsBare(s: string, cut: char -> bool)
    ensures var e := Trim(s, cut); e != [] ==> !cut(e[0]) && !cut(e[|e| - 1])
  {
    TrimStartSpec(s, cut);
    TrimEndSpec(TrimStart(s, cut), cut);
  }

  // ---------------------------------------------------------------- part lists

  predicate ValidPart(p: Part, partCount: int) {
    && 1 <= p.number <= partCount && TrimSpace(p.etag) != ""
    && '\r' !in p.etag && '\n' !in p.etag && |p.etag| <= MAX_ETAG_BYTES
  }

  predicate DistinctNumbers(parts: seq<Part>) {
    forall i, j | 0 <= i < j < |parts| :: parts[i].number != parts[j].number
  }

  predicate Acceptable(partCount: int, parts: seq<Part>) {
    && |parts| == partCount <= MAX_PART_COUNT && DistinctNumbers(parts)
    && (forall i :: 0 <= i < |parts| ==> ValidPart(parts[i], partCount))
  }

  /** Accepts exactly the lists with one valid entry per part number. */
  method ValidateMultipartParts(partCount: int, parts: seq<Part>) returns (ok: bool)
    ensures ok <==> Acceptable(partCount, parts)
    ensures ok <==>
              && |parts| == partCount <= 10000
              && (forall i | 0 <= i < |parts| ::
                    && 1 <= parts[i].number <= partCount && !Blank(parts[i].etag) && |parts[i].etag| <= 1024
                    && (forall k :: 0 <= k < |parts[i].etag| ==> parts[i].etag[k] != '\r' && parts[i].etag[k] != '\n'))
              && (forall i, j | 0 <= i < j < |parts| :: parts[i].number != parts[j].number)
  {
    forall i | 0 <= i < |parts| ensures TrimSpace(parts[i].etag) == "" <==> Blank(parts[i].etag) {
      TrimmedAwayIsBlank(parts[i].etag);
    }
    if |parts| != partCount || |parts| > MAX_PART_COUNT { return false; }
    var seen: set<int> := {};
    for i := 0 to |parts|
      invariant seen == set k | 0 <= k < i :: parts[k].number
      invariant forall k :: 0 <= k < i ==> ValidPart(parts[k], partCount)
      invariant DistinctNumbers(parts[..i])
    {
      if !ValidPart(parts[i], partCount) { return false; }
      if parts[i].number in seen {
        var k :| 0 <= k < i && parts[k].number == parts[i].number;
        return false;
      }
      seen := seen + {parts[i].number};
      assert parts[..i + 1] == parts[..i] + [parts[i]];
    }
    assert parts[..|parts|] == parts;
    return true;
  }

  predicate Ascending(parts: seq<Part>) {
    forall i, j | 0 <= i < j < |parts| :: parts[i].number < parts[j].number
  }

  function Numbers(parts: seq<Part>): set<int> { set p | p in parts :: p.number }

  function Insert(parts: seq<Part>, p: Part): seq<Part> {
    if parts == [] || p.number < parts[0].number then [p] + parts
    else [parts[0]] + Insert(parts[1..], p)
  }

  lemma {:induction false} InsertElements(parts: seq<Part>, p: Part)
    ensures |Insert(parts, p)| == |parts| + 1
    ensures forall q :: q in Insert(parts, p) <==> q == p || q in parts
  {
    if parts != [] && p.number >= parts[0].number {
      InsertElements(parts[1..], p);
      assert parts == [parts[0]] + parts[1..];
    }
  }

  lemma {:induction false} InsertAscends(parts: seq<Part>, p: Part)
    requires Ascending(parts) && (forall i :: 0 <= i < |parts| ==> parts[i].number != p.number)
    ensures Ascending(Insert(parts, p))
  {
    if parts != [] && p.number >= parts[0].number {
      InsertAscends(parts[1..], p);
      InsertElements(parts[1..], p);
      var rest := Insert(parts[1..], p);
      forall i | 0 <= i < |rest| ensures parts[0].number < rest[i].number {
        assert rest[i] in rest;
      }
    }
  }

  lemma InsertNumbers(parts: seq<Part>, p: Part)
    ensures Numbers(Insert(parts, p)) == Numbers(parts) + {p.number}
  {
    InsertElements(parts, p);
  }

  predicate Mergeable(number: int, etag: string) {
    1 <= number <= MAX_PART_COUNT && NormalizeETag(etag) != ""
  }

  predicate FromMap(parts: map<int, string>, values: seq<Part>) {
    forall p :: p in values ==> p.number in parts && p.etag == parts[p.number]
  }

  lemma InsertEntry(parts: map<int, string>, values: seq<Part>, n: int)
    requires n in parts && Ascending(values) && n !in Numbers(values) && FromMap(parts, values)
    ensures var v := Insert(values, Part(n, parts[n]));
            Ascending(v) && Numbers(v) == Numbers(values) + {n} && |v| == |values| + 1 && FromMap(parts, v)
  {
    assert forall i :: 0 <= i < |values| ==> values[i] in values && values[i].number in Numbers(values);
    InsertAscends(values, Part(n, parts[n]));
    InsertNumbers(values, Part(n, parts[n]));
    InsertElements(values, Part(n, parts[n]));
  }

  /** Go iterates over a map in no particular order: any element may come next. */
  method Pick<T>(s: set<T>) returns (x: T)
    requires s != {}
    ensures x in s
  {
    x :| x in s;
  }

  /** The entries of a map, whatever its iteration order, in ascending order. */
  method SortedEntries(parts: map<int, string>) returns (values: seq<Part>)
    ensures |values| == |parts| && Ascending(values) && Numbers(values) == parts.Keys
    ensures FromMap(parts, values)
  {
    values := [];
    var rest: set<int> := parts.Keys;
    while rest != {}
      invariant rest <= parts.Keys && Ascending(values) && Numbers(values) == parts.Keys - rest
      invariant |values| + |rest| == |parts|
      invariant FromMap(parts, values)
      decreases rest
    {
      var n := Pick(rest);
      InsertEntry(parts, values, n);
      values := Insert(values, Part(n, parts[n]));
      rest := rest - {n};
    }
  }

  function Quoted(p: Part): Part { Part(p.number, "\"" + NormalizeETag(p.etag) + "\"") }

  predicate AllMergeableIn(parts: map<int, string>) { forall n :: n in parts ==> Mergeable(n, parts[n]) }

  lemma EntriesMergeable(parts: map<int, string>, values: seq<Part>)
    requires FromMap(parts, values) && Numbers(values) == parts.Keys
    ensures AllMergeable(values) <==> AllMergeableIn(parts)
  {
    if AllMergeable(values) {
      forall n | n in parts ensures Mergeable(n, parts[n]) {
        assert n in Numbers(values);
        var p :| p in values && p.number == n;
        var k :| 0 <= k < |values| && values[k] == p;
      }
    } else {
      var k :| 0 <= k < |values| && !Mergeable(values[k].number, values[k].etag);
      assert values[k] in values;
    }
  }

  lemma QuotedEntries(parts: map<int, string>, values: seq<Part>, merged: seq<Part>)
    requires FromMap(parts, values) && |values| == |parts| == |merged| && Ascending(values)
    requires forall k :: 0 <= k < |values| ==> merged[k] == Quoted(values[k])
    ensures MergedFrom(merged, parts)
  {
    forall i | 0 <= i < |merged|
      ensures merged[i].number in parts && merged[i].etag == ['"'] + NormalizeETag(parts[merged[i].number]) + ['"']
    {
      assert values[i] in values;
    }
  }

  /** Builds the merge list from an unordered map: fails exactly on an empty or
      oversized map or an unusable part; otherwise every part appears once, in
      ascending order, with its normalised tag in quotes. */
  method CompletedMultipartParts(parts: map<int, string>) returns (r: Option<seq<Part>>)
    ensures r.Some? <==> 0 < |parts| <= 10000 && AllMergeableIn(parts)
    ensures r.Some? <==>
              && 0 < |parts| <= 10000
              && (forall n :: n in parts ==> 1 <= n <= 10000 && NormalizeETag(parts[n]) != "")
    ensures r.Some? ==> MergedFrom(r.value, parts)
  {
    if |parts| == 0 || |parts| > MAX_PART_COUNT { return None; }
    var values := SortedEntries(parts);
    EntriesMergeable(parts, values);
    var completed: seq<Part> := [];
    for i := 0 to |values|
      invariant |completed| == i
      invariant forall k :: 0 <= k < i ==> completed[k] == Quoted(values[k])
      invariant forall k :: 0 <= k < i ==> Mergeable(values[k].number, values[k].etag)
    {
      if !Mergeable(values[i].number, values[i].etag) { return None; }
      completed := completed + [Quoted(values[i])];
    }
    QuotedEntries(parts, values, completed);
    return Some(completed);
  }

  lemma AscendingFillsRange(parts: seq<Part>, i: nat)
    requires Ascending(parts) && (forall k :: 0 <= k < |parts| ==> 1 <= parts[k].number <= |parts|)
    requires i < |parts|
    ensures parts[i].number >= i + 1
  {
    if i > 0 { AscendingFillsRange(parts, i - 1); }
  }

  lemma AscendingStaysBelow(parts: seq<Part>, i: nat)
    requires Ascending(parts) && (forall k :: 0 <= k < |parts| ==> 1 <= parts[k].number <= |parts|)
    requires i < |parts|
    ensures parts[i].number <= i + 1
    decreases |parts| - i
  {
    if i + 1 < |parts| { AscendingStaysBelow(parts, i + 1); }
  }

  /** Accepted parts come out of the merge list as precisely 1, 2, ..., PartCount. */
  lemma AcceptedPartsMergeInOrder(partCount: int, merged: seq<Part>)
    requires Ascending(merged) && |merged| == partCount
    requires forall k :: 0 <= k < |merged| ==> 1 <= merged[k].number <= partCount
    ensures forall i :: 0 <= i < partCount ==> merged[i].number == i + 1
  {
    forall i: nat | i < partCount ensures merged[i].number == i + 1 {
      AscendingFillsRange(merged, i);
      AscendingStaysBelow(merged, i);
    }
  }

  /** The part list as the map handed to the object store. */
  method ByNumber(parts: seq<Part>) returns (byNumber: map<int, string>)
    requires DistinctNumbers(parts)
    ensures |byNumber| == |parts| && byNumber.Keys == Numbers(parts)
    ensures forall k :: 0 <= k < |parts| ==> parts[k].number in byNumber && byNumber[parts[k].number] == parts[k].etag
  {
    byNumber := map[];
    for i := 0 to |parts|
      invariant byNumber.Keys == Numbers(parts[..i]) && |byNumber| == i
      invariant forall k :: 0 <= k < i ==> parts[k].number in byNumber && byNumber[parts[k].number] == parts[k].etag
    {
      assert parts[..i + 1] == parts[..i] + [parts[i]];
      assert parts[i].number !in byNumber;
      byNumber := byNumber[parts[i].number := parts[i].etag];
    }
    assert parts[..|parts|] == parts;
  }

  predicate AllMergeable(parts: seq<Part>) {
    forall k :: 0 <= k < |parts| ==> Mergeable(parts[k].number, parts[k].etag)
  }

  lemma MergeableByNumber(parts: seq<Part>, byNumber: map<int, string>)
    requires byNumber.Keys == Numbers(parts)
    requires forall k :: 0 <= k < |parts| ==> parts[k].number in byNumber && byNumber[parts[k].number] == parts[k].etag
    ensures AllMergeable(parts) <==> AllMergeableIn(byNumber)
  {
    forall n | n in byNumber ensures exists k :: 0 <= k < |parts| && parts[k].number == n {
      assert n in Numbers(parts);
    }
    if n :| n in byNumber && !Mergeable(n, byNumber[n]) {
      var k :| 0 <= k < |parts| && parts[k].number == n;
    }
    if k :| 0 <= k < |parts| && !Mergeable(parts[k].number, parts[k].etag) {
      assert parts[k].number in byNumber;
    }
  }

  /** The merge list holds the map's entries, ascending and requoted. */
  predicate MergedFrom(merged: seq<Part>, byNumber: map<int, string>) {
    && |merged| == |byNumber| && Ascending(merged)
    && (forall i | 0 <= i < |merged| ::
          && merged[i].number in byNumber
          && merged[i].etag == ['"'] + NormalizeETag(byNumber[merged[i].number]) + ['"'])
  }

  lemma MergedInRange(partCount: int, parts: seq<Part>, byNumber: map<int, string>, merged: seq<Part>, i: nat)
    requires Acceptable(partCount, parts) && byNumber.Keys == Numbers(parts) && i < |merged|
             && merged[i].number in byNumber
    ensures 1 <= merged[i].number <= partCount
  {
    assert merged[i].number in Numbers(parts);
    var part :| part in parts && part.number == merged[i].number;
    var k :| 0 <= k < |parts| && parts[k] == part;
    assert ValidPart(parts[k], partCount);
  }

  lemma MergedIsRange(partCount: int, parts: seq<Part>, byNumber: map<int, string>, merged: seq<Part>)
    requires Acceptable(partCount, parts) && byNumber.Keys == Numbers(parts) && |byNumber| == partCount
             && MergedFrom(merged, byNumber)
    ensures |merged| == partCount && forall i :: 0 <= i < partCount ==> merged[i].number == i + 1
  {
    forall i | 0 <= i < |merged| ensures 1 <= merged[i].number <= partCount {
      MergedInRange(partCount, parts, byNumber, merged, i);
    }
    AcceptedPartsMergeInOrder(partCount, merged);
  }

  lemma MergedAt(partCount: int, byNumber: map<int, string>, merged: seq<Part>, part: Part)
    requires MergedFrom(merged, byNumber) && |merged| == partCount && 1 <= part.number <= partCount
    requires merged[part.number - 1].number == part.number && part.number in byNumber
             && byNumber[part.number] == part.etag
    ensures merged[part.number - 1] == Part(part.number, ['"'] + NormalizeETag(part.etag) + ['"'])
  {}

  /** Every part the caller gave sits at its number, requoted. */
  predicate PlacedByNumber(merged: seq<Part>, parts: seq<Part>) {
    forall k | 0 <= k < |parts| ::
      && 1 <= parts[k].number <= |merged|
      && merged[parts[k].number - 1] == Part(parts[k].number, ['"'] + NormalizeETag(parts[k].etag) + ['"'])
  }

  lemma MergedIsPlaced(partCount: int, parts: seq<Part>, byNumber: map<int, string>, merged: seq<Part>)
    requires Acceptable(partCount, parts) && MergedFrom(merged, byNumber) && |merged| == partCount
    requires forall i :: 0 <= i < partCount ==> merged[i].number == i + 1
    requires forall k :: 0 <= k < |parts| ==> parts[k].number in byNumber && byNumber[parts[k].number] == parts[k].etag
    ensures PlacedByNumber(merged, parts)
  {
    forall k | 0 <= k < |parts|
      ensures 1 <= parts[k].number <= |merged|
      ensures merged[parts[k].number - 1] == Part(parts[k].number, ['"'] + NormalizeETag(parts[k].etag) + ['"'])
    {
      assert ValidPart(parts[k], partCount);
      MergedAt(partCount, byNumber, merged, parts[k]);
    }
  }

  /** The whole path of a multipart completion: a list that passes validation and
      whose merge list builds is merged as parts 1..PartCount, each with the
      normalised tag the caller gave for that number. */
  method MergeAccepted(partCount: int, parts: seq<Part>) returns (r: Option<seq<Part>>)
    ensures r.Some? <==> 0 < |parts| && Acceptable(partCount, parts) && AllMergeable(parts)
    ensures r.Some? ==> |r.value| == partCount && forall i :: 0 <= i < partCount ==> r.value[i].number == i + 1
    ensures r.Some? ==> PlacedByNumber(r.value, parts)
  {
    var ok := ValidateMultipartParts(partCount, parts);
    if !ok { return None; }
    var byNumber := ByNumber(parts);
    MergeableByNumber(parts, byNumber);
    r := CompletedMultipartParts(byNumber);
    if r.Some? {
      MergedIsRange(partCount, parts, byNumber, r.value);
      MergedIsPlaced(partCount, parts, byNumber, r.value);
    }
  }
}
