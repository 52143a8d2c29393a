/**
 The textual encodings that Go and Lua share: queue members `id:index`, split at
 the last colon, and comma-separated index lists.
 */
module Codec {
  import opened Types

  /* ---- decimal numbers ---- */

  function Digit(n: nat): (c: char)
    requires n < 10
    ensures IsDigit(c) && DigitValue(c) == n
  {
    ('0' as int + n) as char
  }

  predicate IsDigit(c: char) {
    '0' <= c <= '9'
  }

  function DigitValue(c: char): nat
    requires IsDigit(c)
  {
    c as int - '0' as int
  }

  predicate AllDigits(s: string) {
    forall i | 0 <= i < |s| :: IsDigit(s[i])
  }

  /** strconv.Itoa and Lua's tostring on a natural number. */
  function Itoa(n: nat): (s: string)
    ensures s != [] && AllDigits(s)
  {
    if n < 10 then [Digit(n)] else Itoa(n / 10) + [Digit(n % 10)]
  }

  function Value(s: string): nat
    requires AllDigits(s)
  {
    if s == [] then 0 else Value(s[..|s| - 1]) * 10 + DigitValue(s[|s| - 1])
  }

  lemma {:induction false} ItoaValue(n: nat)
    ensures Value(Itoa(n)) == n
  {
    if n >= 10 {
      ItoaValue(n / 10);
      var s := Itoa(n);
      assert s[..|s| - 1] == Itoa(n / 10);
    }
  }

  /** The texts that Itoa prints. */
  predicate Canonical(s: string) {
    s != [] && AllDigits(s) && (s[0] == '0' ==> |s| == 1)
  }

  lemma {:induction false} CanonicalItoa(n: nat)
    ensures Canonical(Itoa(n)) && (n > 0 ==> Itoa(n)[0] != '0')
  {
    if n >= 10 { CanonicalItoa(n / 10); }
  }

  lemma {:induction false} ItoaOfValue(s: string)
    requires Canonical(s)
    ensures Itoa(Value(s)) == s && (s[0] != '0' ==> Value(s) > 0)
  {
    var front := s[..|s| - 1];
    if front == [] {
      assert Value(front) == 0;
    } else {
      ItoaOfValue(front);
      assert front[0] != '0';
      assert Value(s) / 10 == Value(front) && Value(s) % 10 == DigitValue(s[|s| - 1]);
    }
  }

  /** Lua's tonumber on plain decimal text; other numerals are not part of this model. */
  function ToNumber(s: string): Option<nat> {
    if s != [] && AllDigits(s) then Some(Value(s)) else None
  }

  const MAX_INT: int := 0x7fff_ffff_ffff_ffff

  /** Decimal text with an optional sign. */
  function Integer(s: string): Option<int> {
    var body := if s != [] && (s[0] == '-' || s[0] == '+') then s[1..] else s;
    if body == [] || !AllDigits(body) then None
    else Some(if s[0] == '-' then 0 - Value(body) else Value(body))
  }

  /** strconv.Atoi: within 64 bits. */
  function Atoi(s: string): Option<int> {
    match Integer(s)
    case Some(v) => if -MAX_INT - 1 <= v <= MAX_INT then Some(v) else None
    case None => None
  }

  /** A score as Redis prints it. */
  function ScoreText(n: int): string {
    if n < 0 then "-" + Itoa(-n) else Itoa(n)
  }

  lemma IntegerOfDigits(s: string)
    requires s != [] && AllDigits(s)
    ensures Integer(s) == Some(Value(s)) && Integer("-" + s) == Some(0 - Value(s))
  {
    hide Value;
    assert IsDigit(s[0]);
    assert ("-" + s)[1..] == s;
  }

  lemma ScoreRoundTrip(n: int)
    ensures Integer(ScoreText(n)) == Some(n)
  {
    hide Integer, Value, Itoa;
    var m: nat := if n < 0 then -n else n;
    ItoaValue(m);
    IntegerOfDigits(Itoa(m));
  }

  /* ---- members ---- */

  /** The position of the last colon, or -1: Go's scan from the right. */
  function LastColon(s: string): (p: int)
    ensures -1 <= p < |s|
    ensures p >= 0 ==> s[p] == ':'
    ensures forall j | p < j < |s| :: s[j] != ':'
  {
    if s == [] then -1
    else if s[|s| - 1] == ':' then |s| - 1
    else LastColon(s[..|s| - 1])
  }

  /** string.find(s, ':[^:]*$'): the leftmost colon after which no colon follows, or -1. */
  function FindLastField(s: string, start: nat): (p: int)
    requires start <= |s|
    ensures p == -1 || start <= p < |s|
    decreases |s| - start
  {
    if start == |s| then -1
    else if s[start] == ':' && ':' !in s[start + 1..] then start
    else FindLastField(s, start + 1)
  }

  /** The two scans agree. */
  lemma {:induction false} ScansAgree(s: string, start: nat)
    requires start <= |s| && (LastColon(s) >= 0 ==> start <= LastColon(s))
    ensures FindLastField(s, start) == LastColon(s)
    decreases |s| - start
  {
    var p := LastColon(s);
    if start < |s| {
      if start == p {
        assert ':' !in s[start + 1..];
      } else {
        if p >= 0 { assert s[start + 1..][p - start - 1] == ':'; }
        ScansAgree(s, start + 1);
      }
    }
  }

  /** Lua's split of a member, as the batch reaper does it. */
  function LuaSplit(m: string): Option<(Id, nat)> {
    var sep := FindLastField(m, 0);
    if sep < 0 then None
    else match ToNumber(m[sep + 1..])
         case None => None
         case Some(i) => Some((m[..sep], i))
  }

  /** Go's splitMember. */
  function GoSplit(m: string): Option<(Id, nat)> {
    var sep := LastColon(m);
    if sep < 0 then None
    else match Atoi(m[sep + 1..])
         case None => None
         case Some(n) => if n < 0 then None else Some((m[..sep], n))
  }

  /** deadlineMember in Go, `member` in Lua, for a task; raw texts stand for themselves. */
  function Print(m: Member): string {
    match m
    case TaskMember(id, i) => id + ":" + Itoa(i)
    case RawMember(text) => text
  }

  /** The member a text denotes. */
  function Parse(s: string): Member {
    var sep := LastColon(s);
    if sep >= 0 && Canonical(s[sep + 1..]) then TaskMember(s[..sep], Value(s[sep + 1..])) else RawMember(s)
  }

  /** Not a raw text that stands for a task. */
  predicate Normal(m: Member) {
    Parse(Print(m)) == m
  }

  lemma LastColonOfMember(id: Id, i: nat)
    ensures var s := Print(TaskMember(id, i));
            LastColon(s) == |id| && s[..|id|] == id && s[|id| + 1..] == Itoa(i)
  {
    var s := Print(TaskMember(id, i));
    assert s[|id|] == ':';
    assert forall j | |id| < j < |s| :: s[j] == Itoa(i)[j - |id| - 1];
  }

  /** Texts and normal members correspond one to one, and every pair (id, index) is a normal member. */
  lemma MemberBijection(s: string, id: Id, i: nat)
    ensures Print(Parse(s)) == s && Normal(Parse(s))
    ensures Parse(Print(TaskMember(id, i))) == TaskMember(id, i) && Normal(TaskMember(id, i))
  {
    var sep := LastColon(s);
    if sep >= 0 && Canonical(s[sep + 1..]) {
      ItoaOfValue(s[sep + 1..]);
      assert s[..sep] + ":" + s[sep + 1..] == s;
    }
    LastColonOfMember(id, i);
    CanonicalItoa(i);
    ItoaValue(i);
  }

  lemma MemberNotEmpty(id: Id, i: nat)
    ensures Print(TaskMember(id, i)) != ""
  {
  }

  /** Go and Lua both recover the pair printed as `id:index`, for ids with colons too. */
  lemma MemberRoundTrip(id: Id, i: nat)
    ensures LuaSplit(Print(TaskMember(id, i))) == Some((id, i))
    ensures GoSplit(Print(TaskMember(id, i))) == if i <= MAX_INT then Some((id, i)) else None
  {
    var s := Print(TaskMember(id, i));
    LastColonOfMember(id, i);
    ScansAgree(s, 0);
    ItoaValue(i);
    assert IsDigit(Itoa(i)[0]);
  }

  /** The instance and task index that the reaper reads out of a deadline member. */
  function Locate(m: Member): (r: Option<(Id, nat)>)
    ensures r == LuaSplit(Print(m))
  {
    match m
    case TaskMember(id, i) => MemberRoundTrip(id, i); Some((id, i))
    case RawMember(text) => LuaSplit(text)
  }

  /** splitMember's loop. */
  method SplitMember(member: string) returns (id: Id, index: int, ok: bool)
    ensures match GoSplit(member)
            case None => !ok && id == "" && index == 0
            case Some((i, n)) => ok && id == i && index == n
  {
    var i := |member| - 1;
    while i >= 0
      invariant -1 <= i < |member|
      invariant forall j | i < j < |member| :: member[j] != ':'
    {
      if member[i] == ':' {
        assert LastColon(member) == i;
        var n := Atoi(member[i + 1..]);
        if n.None? || n.value < 0 {
          return "", 0, false;
        }
        return member[..i], n.value, true;
      }
      i := i - 1;
    }
    assert LastColon(member) == -1;
    return "", 0, false;
  }

  /* ---- index lists ---- */

  function Join(parts: seq<string>): string {
    if parts == [] then ""
    else if |parts| == 1 then parts[0]
    else parts[0] + "," + Join(parts[1..])
  }

  /** The length of the leading run of non-commas. */
  function Run(s: string): (n: nat)
    ensures n <= |s| && ',' !in s[..n] && (n < |s| ==> s[n] == ',')
  {
    if s == [] || s[0] == ',' then 0 else 1 + Run(s[1..])
  }

  /** The matches of '[^,]+' in order. */
  function Tokens(s: string): seq<string>
    decreases |s|
  {
    if s == [] then []
    else if s[0] == ',' then Tokens(s[1..])
    else var n := Run(s); assert n > 0; [s[..n]] + Tokens(s[n..])
  }

  predicate Field(s: string) {
    s != [] && ',' !in s
  }

  lemma RunOfField(f: string, rest: string)
    requires Field(f) && (rest == [] || rest[0] == ',')
    ensures Run(f + rest) == |f|
  {
    var s := f + rest;
    assert forall j | 0 <= j < |f| :: s[j] == f[j];
    assert rest != [] ==> s[|f|] == ',';
  }

  lemma {:induction false} TokensOfJoin(parts: seq<string>)
    requires forall i | 0 <= i < |parts| :: Field(parts[i])
    ensures Tokens(Join(parts)) == parts
  {
    if |parts| == 1 {
      RunOfField(parts[0], "");
      assert parts[0] + "" == parts[0];
    } else if |parts| > 1 {
      var tail := Join(parts[1..]);
      var s := parts[0] + ("," + tail);
      assert Join(parts) == s;
      RunOfField(parts[0], "," + tail);
      assert s[|parts[0]|..] == "," + tail;
      assert ("," + tail)[1..] == tail;
      TokensOfJoin(parts[1..]);
    }
  }

  function Numerals(idxs: seq<nat>): (parts: seq<string>)
    ensures |parts| == |idxs| && forall i | 0 <= i < |idxs| :: parts[i] == Itoa(idxs[i])
  {
    seq(|idxs|, i requires 0 <= i < |idxs| => Itoa(idxs[i]))
  }

  /** The script's decoding of ARGV[3]; a token that is no number is None. */
  function DecodeIndexes(csv: string): seq<Option<nat>> {
    seq(|Tokens(csv)|, i requires 0 <= i < |Tokens(csv)| => ToNumber(Tokens(csv)[i]))
  }

  /** Go's encoding of the index list, with its loop. */
  method EncodeIndexes(idxs: seq<nat>) returns (csv: string)
    ensures csv == Join(Numerals(idxs))
  {
    var parts: seq<string> := [];
    for i := 0 to |idxs|
      invariant parts == Numerals(idxs[..i])
    {
      parts := parts + [Itoa(idxs[i])];
    }
    assert idxs[..|idxs|] == idxs;
    csv := Join(parts);
  }

  /** Lua decodes exactly the index sequence that Go encoded. */
  lemma IndexListRoundTrip(idxs: seq<nat>)
    ensures var got := DecodeIndexes(Join(Numerals(idxs)));
            |got| == |idxs| && forall i | 0 <= i < |idxs| :: got[i] == Some(idxs[i])
  {
    var parts := Numerals(idxs);
    forall i | 0 <= i < |parts| ensures Field(parts[i]) {
      assert AllDigits(Itoa(idxs[i]));
    }
    TokensOfJoin(parts);
    forall i | 0 <= i < |idxs| ensures ToNumber(parts[i]) == Some(idxs[i]) {
      ItoaValue(idxs[i]);
    }
  }

  /** The indexes the script works with: what is no number fails every range check, as -1 does. */
  function Indexes(csv: string): (idxs: seq<int>)
    ensures |idxs| == |Tokens(csv)|
    ensures forall i | 0 <= i < |idxs| :: idxs[i] == IndexOf(Tokens(csv)[i])
  {
    seq(|Tokens(csv)|, i requires 0 <= i < |Tokens(csv)| => IndexOf(Tokens(csv)[i]))
  }

  function IndexOf(token: string): (i: int)
    ensures ToNumber(token) == None ==> i == -1
    ensures ToNumber(token) != None ==> Some(i) == ToNumber(token)
  {
    match ToNumber(token)
    case Some(i) => i
    case None => -1
  }

  lemma IndexesRoundTrip(idxs: seq<nat>)
    ensures Indexes(Join(Numerals(idxs))) == idxs
  {
    IndexListRoundTrip(idxs);
    var got := Indexes(Join(Numerals(idxs)));
    forall i | 0 <= i < |idxs| ensures got[i] == idxs[i] {
      assert DecodeIndexes(Join(Numerals(idxs)))[i] == Some(idxs[i]);
    }
  }

  /** The index part of a member is a one-element list. */
  lemma IndexesOfNumber(s: string)
    requires ToNumber(s).Some?
    ensures Indexes(s) == [ToNumber(s).value]
  {
    RunOfField(s, "");
    assert s + "" == s;
    assert Tokens(s) == [s] + Tokens(s[|s|..]);
  }

  /** Atoi reads back every 64-bit integer that is printed, and refuses every other. */
  lemma AtoiIs64Bit(n: int)
    ensures Atoi(ScoreText(n)) == if -9223372036854775808 <= n <= 9223372036854775807 then Some(n) else None
  {
    ScoreRoundTrip(n);
  }

  /** The texts themselves, on two examples. */
  lemma TextsOfExamples()
    ensures Print(TaskMember("a:b", 12)) == "a:b:12"
    ensures Join(Numerals([0, 10])) == "0,10"
  {
    assert Itoa(12) == Itoa(1) + [Digit(2)] == "12";
    assert Itoa(10) == Itoa(1) + [Digit(0)] == "10";
    assert Itoa(0) == "0";
    assert Numerals([0, 10]) == ["0", "10"];
    assert Join(["0", "10"]) == "0" + "," + Join(["10"]);
  }
}
