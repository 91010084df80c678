/** Text handling the plan format and the pointer file share: decimal numbers with overflow checks, hexadecimal, trimming,
    splitting (src/plan.cpp:19-89, src/hash.cpp:265-310). */
module PlanText {
  import opened Prelude

  // ---- Decimal numbers ----

  predicate IsDigit(c: char) {
    '0' <= c <= '9'
  }

  function DigitValue(c: char): nat
    requires IsDigit(c)
  {
    c as int - '0' as int
  }

  predicate AllDigits(s: string) {
    forall i :: 0 <= i < |s| ==> IsDigit(s[i])
  }

  /** The number a digit string stands for. */
  function NumberOf(s: string): nat
    requires AllDigits(s)
  {
    if s == "" then 0 else 10 * NumberOf(s[..|s| - 1]) + DigitValue(s[|s| - 1])
  }

  /** `std::to_string`. */
  function Decimal(n: nat): (s: string)
    ensures s != "" && AllDigits(s) && NumberOf(s) == n
  {
    var last := ('0' as int + n % 10) as char;
    if n < 10 then
      assert [last][..0] == "";
      [last]
    else
      var rest := Decimal(n / 10);
      assert (rest + [last])[..|rest|] == rest;
      rest + [last]
  }

  datatype NumberError = Missing | NotDecimal | Overflow

  /** `parseUnsigned`: every step is checked, and the first failing check decides. */
  method ParseUnsigned(text: string) returns (r: Result<u64, NumberError>)
    ensures r == NumberFrom(text)
  {
    hide NumberOf, NumberFrom, CheckedMul, CheckedAdd;
    NumberFromFacts(text);
    if text == "" { return Err(Missing); }
    var value: u64 := 0;
    for i := 0 to |text|
      invariant AllDigits(text[..i]) && value == NumberOf(text[..i])
    {
      if !IsDigit(text[i]) {
        NotAllDigits(text, i);
        return Err(NotDecimal);
      }
      OneMoreDigit(text, i);
      var multiplied := CheckedMul(value, 10);
      var added := if multiplied.Some? then CheckedAdd(multiplied.value, DigitValue(text[i])) else None;
      ShiftIn(value, DigitValue(text[i]));
      if added.None? {
        TooBigStays(text, i + 1);
        return Err(Overflow);
      }
      value := added.value;
    }
    assert text[..|text|] == text;
    r := Ok(value);
  }

  lemma OneMoreDigit(text: string, i: nat)
    requires i < |text| && AllDigits(text[..i]) && IsDigit(text[i])
    ensures AllDigits(text[..i + 1]) && NumberOf(text[..i + 1]) == 10 * NumberOf(text[..i]) + DigitValue(text[i])
  {
    assert text[..i + 1][..i] == text[..i];
  }

  /** The two checked operations fail exactly when the next value does not fit. */
  lemma ShiftIn(value: u64, digit: nat)
    requires digit <= 9
    ensures CheckedMul(value, 10).Some? ==> CheckedMul(value, 10).value == 10 * value
    ensures CheckedMul(value, 10).None? ==> 10 * value >= U64_LIMIT
    ensures CheckedMul(value, 10).Some? && CheckedAdd(10 * value, digit).Some? ==> CheckedAdd(10 * value, digit).value == 10 * value + digit
    ensures CheckedMul(value, 10).Some? && CheckedAdd(10 * value, digit).None? ==> 10 * value + digit >= U64_LIMIT
  {
  }

  lemma NumberFromFacts(text: string)
    ensures text == "" ==> NumberFrom(text) == Err(Missing)
    ensures text != "" && AllDigits(text) && NumberOf(text) < U64_LIMIT ==> NumberFrom(text) == Ok(NumberOf(text))
    ensures NumberOf("") == 0
  {
  }

  /** What the parser accepts, as a specification: a digit string whose value fits; the error is that of the first
      position at which the checks fail. */
  function NumberFrom(text: string): Result<u64, NumberError> {
    if text == "" then Err(Missing)
    else if AllDigits(text) && NumberOf(text) < U64_LIMIT then Ok(NumberOf(text))
    else FirstFailure(text, 0)
  }

  function FirstFailure(text: string, i: nat): Result<u64, NumberError>
    requires i <= |text| && AllDigits(text[..i])
    decreases |text| - i
  {
    if i == |text| then Err(Overflow)
    else if !IsDigit(text[i]) then Err(NotDecimal)
    else if NumberOf(text[..i + 1]) >= U64_LIMIT then Err(Overflow)
    else FirstFailure(text, i + 1)
  }

  lemma {:induction false} FailsAt(text: string, i: nat, j: nat)
    requires i <= j < |text| && AllDigits(text[..j]) && (forall k :: 0 <= k <= j ==> NumberOf(text[..k]) < U64_LIMIT)
    requires !IsDigit(text[j]) || NumberOf(text[..j + 1]) >= U64_LIMIT
    ensures FirstFailure(text, i) == Err(if !IsDigit(text[j]) then NotDecimal else Overflow)
    decreases j - i
  {
    assert text[..j][..i] == text[..i];
    if i < j {
      assert IsDigit(text[..j][i]);
      FailsAt(text, i + 1, j);
    }
  }

  lemma {:induction false} SmallPrefixes(text: string, j: nat, k: nat)
    requires k <= j <= |text| && AllDigits(text[..j]) && NumberOf(text[..j]) < U64_LIMIT
    ensures NumberOf(text[..k]) < U64_LIMIT
    decreases j
  {
    if k < j {
      assert text[..j][..j - 1] == text[..j - 1];
      SmallPrefixes(text, j - 1, k);
    }
  }

  lemma NotAllDigits(text: string, i: nat)
    requires i < |text| && AllDigits(text[..i]) && NumberOf(text[..i]) < U64_LIMIT && !IsDigit(text[i])
    ensures NumberFrom(text) == Err(NotDecimal)
  {
    forall k | 0 <= k <= i ensures NumberOf(text[..k]) < U64_LIMIT { SmallPrefixes(text, i, k); }
    FailsAt(text, 0, i);
  }

  lemma {:induction false} ValueGrows(text: string, i: nat)
    requires i <= |text| && AllDigits(text)
    ensures NumberOf(text[..i]) <= NumberOf(text)
    decreases |text|
  {
    if i < |text| {
      var n := |text| - 1;
      ValueGrows(text[..n], i);
      assert text[..n][..i] == text[..i];
    } else {
      assert text[..i] == text;
    }
  }

  lemma TooBigStays(text: string, i: nat)
    requires 0 < i <= |text| && AllDigits(text[..i]) && NumberOf(text[..i - 1]) < U64_LIMIT && NumberOf(text[..i]) >= U64_LIMIT
    ensures NumberFrom(text) == Err(Overflow)
  {
    if AllDigits(text) { ValueGrows(text, i); }
    assert text[..i][..i - 1] == text[..i - 1];
    forall k | 0 <= k <= i - 1 ensures NumberOf(text[..k]) < U64_LIMIT { SmallPrefixes(text, i - 1, k); }
    assert IsDigit(text[..i][i - 1]);
    FailsAt(text, 0, i - 1);
  }

  /** A 64-bit number printed and parsed is the same number. */
  lemma NumberRoundTrip(n: u64)
    ensures NumberFrom(Decimal(n)) == Ok(n)
  {
  }

  // ---- Hexadecimal ----

  function HexDigit(n: nat): char
    requires n < 16
  {
    if n < 10 then ('0' as int + n) as char else ('a' as int + n - 10) as char
  }

  function Nibble(c: char): Option<nat> {
    if '0' <= c <= '9' then Some(c as int - '0' as int)
    else if 'a' <= c <= 'f' then Some(c as int - 'a' as int + 10)
    else if 'A' <= c <= 'F' then Some(c as int - 'A' as int + 10)
    else None
  }

  function Hex(b: Bytes): (s: string)
    ensures |s| == 2 * |b|
  {
    if b == [] then "" else [HexDigit(b[0] / 16), HexDigit(b[0] % 16)] + Hex(b[1..])
  }

  function FromHex(s: string): (r: Option<Bytes>)
    ensures r.Some? ==> 2 * |r.value| == |s|
    decreases |s|
  {
    if s == "" then Some([])
    else if |s| < 2 then None
    else
      var high, low, rest := Nibble(s[0]), Nibble(s[1]), FromHex(s[2..]);
      if high.None? || low.None? || rest.None? || high.value > 15 || low.value > 15 then None
      else Some([high.value * 16 + low.value] + rest.value)
  }

  lemma NibbleRoundTrip(n: nat)
    requires n < 16
    ensures Nibble(HexDigit(n)) == Some(n)
  {
  }

  lemma {:induction false} HexRoundTrip(b: Bytes)
    ensures FromHex(Hex(b)) == Some(b)
  {
    if b != [] {
      NibbleRoundTrip(b[0] / 16);
      NibbleRoundTrip(b[0] % 16);
      assert Hex(b)[2..] == Hex(b[1..]);
      HexRoundTrip(b[1..]);
      assert b == [b[0]] + b[1..];
    }
  }

  // ---- Trimming and splitting ----

  predicate IsBlank(c: char) {
    c == ' ' || c == '\t' || c == '\r'
  }

  function TrimLeft(s: string): string {
    if s != "" && IsBlank(s[0]) then TrimLeft(s[1..]) else s
  }

  function TrimRight(s: string): string {
    if s != "" && IsBlank(s[|s| - 1]) then TrimRight(s[..|s| - 1]) else s
  }

  function Trim(s: string): string {
    TrimRight(TrimLeft(s))
  }

  predicate Trimmed(s: string) {
    s == "" || (!IsBlank(s[0]) && !IsBlank(s[|s| - 1]))
  }

  predicate FreeOf(s: string, c: char) {
    forall i :: 0 <= i < |s| ==> s[i] != c
  }

  lemma {:induction false} TrimLeftFacts(s: string, c: char)
    ensures var t := TrimLeft(s);
            && |t| <= |s| && t == s[|s| - |t|..] && (t != "" ==> !IsBlank(t[0])) && (FreeOf(s, c) ==> FreeOf(t, c))
  {
    if s != "" && IsBlank(s[0]) { TrimLeftFacts(s[1..], c); }
  }

  lemma {:induction false} TrimRightFacts(s: string, c: char)
    ensures var t := TrimRight(s);
            && |t| <= |s| && t == s[..|t|] && (t != "" ==> !IsBlank(t[|t| - 1])) && (FreeOf(s, c) ==> FreeOf(t, c))
  {
    if s != "" && IsBlank(s[|s| - 1]) { TrimRightFacts(s[..|s| - 1], c); }
  }

  lemma TrimIsTrimmed(s: string)
    ensures Trimmed(Trim(s)) && (FreeOf(s, '\n') ==> FreeOf(Trim(s), '\n'))
  {
    TrimLeftFacts(s, '\n');
    TrimRightFacts(TrimLeft(s), '\n');
  }

  predicate Blanks(s: string) {
    forall i :: 0 <= i < |s| ==> IsBlank(s[i])
  }

  lemma {:induction false} TrimLeftSkips(pre: string, s: string)
    requires Blanks(pre)
    ensures TrimLeft(pre + s) == TrimLeft(s)
  {
    if pre == "" {
      assert pre + s == s;
    } else {
      assert (pre + s)[0] == pre[0] && (pre + s)[1..] == pre[1..] + s;
      TrimLeftSkips(pre[1..], s);
    }
  }

  lemma {:induction false} TrimRightSkips(s: string, post: string)
    requires Blanks(post)
    ensures TrimRight(s + post) == TrimRight(s)
    decreases |post|
  {
    if post == "" {
      assert s + post == s;
    } else {
      var t := s + post;
      assert t[|t| - 1] == post[|post| - 1] && t[..|t| - 1] == s + post[..|post| - 1];
      TrimRightSkips(s, post[..|post| - 1]);
    }
  }

  lemma {:induction false} TrimAfter(s: string, post: string)
    requires Blanks(post)
    ensures Trim(s + post) == Trim(s)
  {
    if s == "" {
      assert s + post == post && post + "" == post;
      TrimLeftSkips(post, "");
    } else if IsBlank(s[0]) {
      assert (s + post)[0] == s[0] && (s + post)[1..] == s[1..] + post;
      TrimAfter(s[1..], post);
    } else {
      assert (s + post)[0] == s[0];
      TrimRightSkips(s, post);
    }
  }

  /** Blanks around a line do not matter. */
  lemma TrimAround(pre: string, s: string, post: string)
    requires Blanks(pre) && Blanks(post)
    ensures Trim(pre + s + post) == Trim(s)
  {
    assert pre + s + post == pre + (s + post);
    TrimLeftSkips(pre, s + post);
    TrimAfter(s, post);
  }

  lemma TrimmedStays(s: string)
    requires Trimmed(s)
    ensures Trim(s) == s
  {
  }

  function IndexOf(s: string, c: char): (r: Option<nat>)
    ensures r.Some? ==> r.value < |s| && s[r.value] == c && FreeOf(s[..r.value], c)
    ensures r.None? ==> FreeOf(s, c)
  {
    if s == "" then None
    else if s[0] == c then Some(0)
    else
      match IndexOf(s[1..], c)
      case None => None
      case Some(i) =>
        assert s[..i + 1] == [s[0]] + s[1..][..i];
        Some(i + 1)
  }

  lemma {:induction false} IndexIsFirst(s: string, c: char, i: nat)
    requires i < |s| && s[i] == c && FreeOf(s[..i], c)
    ensures IndexOf(s, c) == Some(i)
  {
    if i > 0 {
      assert s[..i][0] != c;
      assert s[1..][..i - 1] == s[..i][1..];
      IndexIsFirst(s[1..], c, i - 1);
    }
  }

  function Split(text: string): (lines: seq<string>)
    ensures forall l :: l in lines ==> FreeOf(l, '\n')
    decreases |text|
  {
    match IndexOf(text, '\n')
    case None => [text]
    case Some(i) => [text[..i]] + Split(text[i + 1..])
  }

  /** Each line with its newline. */
  function Join(lines: seq<string>): string {
    if lines == [] then "" else lines[0] + "\n" + Join(lines[1..])
  }

  lemma {:induction false} SplitJoin(lines: seq<string>)
    requires forall l :: l in lines ==> FreeOf(l, '\n')
    ensures Split(Join(lines)) == lines + [""]
    decreases |lines|
  {
    if lines != [] {
      var text := Join(lines);
      var l := lines[0];
      assert text[..|l|] == l && text[|l|] == '\n' && text[|l| + 1..] == Join(lines[1..]);
      IndexIsFirst(text, '\n', |l|);
      SplitJoin(lines[1..]);
      assert lines == [l] + lines[1..];
    }
  }
}

/** The live pointer file of one configuration key (src/agent.cpp:48-107). */
module PointerText {
  import opened Prelude
  import opened AgentState
  import opened AgentModel
  import opened Fields
  import opened PlanText

  function Render(p: Pointer): string {
    Decimal(p.generation) + " " + (Hex(p.digest) + " " + (p.artifact + "\n"))
  }

  predicate IsTail(c: char) {
    c == '\n' || c == '\r' || c == ' '
  }

  function DropTail(s: string): string {
    if s != "" && IsTail(s[|s| - 1]) then DropTail(s[..|s| - 1]) else s
  }

  /** `parsePointer`. The generation may be the empty string, which the loop reads as zero. */
  function Parse(text: string): Option<Pointer> {
    match IndexOf(text, ' ')
    case None => None
    case Some(i) =>
      match IndexOf(text[i + 1..], ' ')
      case None => None
      case Some(j) =>
        var number, digest, artifact := text[..i], text[i + 1..][..j], DropTail(text[i + 1..][j + 1..]);
        var generation := if number == "" then Ok(0) else NumberFrom(number);
        var bytes := FromHex(digest);
        if generation.Err? || |digest| != 64 || bytes.None? then None
        else if artifact != "" && !IsIdentifier(artifact) then None
        else Some(Pointer(generation.value, bytes.value, artifact))
  }

  lemma {:induction false} DigitsHaveNoSpace(s: string)
    requires AllDigits(s)
    ensures FreeOf(s, ' ')
  {
    forall i | 0 <= i < |s| ensures s[i] != ' ' { assert IsDigit(s[i]); }
  }

  lemma {:induction false} HexHasNoSpace(b: Bytes)
    ensures FreeOf(Hex(b), ' ')
  {
    if b != [] { HexHasNoSpace(b[1..]); }
  }

  lemma NotTail(c: char)
    requires IdentifierChar(c)
    ensures !IsTail(c)
  {
  }

  lemma IdentifierTail(s: string)
    requires s == "" || IsIdentifier(s)
    ensures DropTail(s + "\n") == s
  {
    var t := s + "\n";
    if s != "" {
      var last := s[|s| - 1];
      assert IdentifierChar(last);
      NotTail(last);
    }
    assert DropTail(s) == s;
    assert t[|t| - 1] == '\n' && t[..|t| - 1] == s;
  }

  /** What recovery reads from a pointer file is what activation wrote. */
  lemma RoundTrip(p: Pointer)
    requires |p.digest| == 32 && (p.artifact == UNSET || IsIdentifier(p.artifact))
    ensures Parse(Render(p)) == Some(p)
  {
    hide IsIdentifier, NumberFrom, Decimal, Hex, FromHex;
    var number, digest := Decimal(p.generation), Hex(p.digest);
    var tail := p.artifact + "\n";
    var text := Render(p);
    DecimalFacts(p.generation);
    DigitsHaveNoSpace(number);
    assert text[..|number|] == number;
    IndexIsFirst(text, ' ', |number|);
    var rest := text[|number| + 1..];
    assert rest == digest + " " + tail;
    HexHasNoSpace(p.digest);
    assert rest[..|digest|] == digest;
    IndexIsFirst(rest, ' ', |digest|);
    assert rest[|digest| + 1..] == tail;
    IdentifierTail(p.artifact);
    NumberRoundTrip(p.generation);
    HexRoundTrip(p.digest);
  }

  lemma DecimalFacts(n: nat)
    ensures AllDigits(Decimal(n)) && Decimal(n) != ""
  {
  }
}
