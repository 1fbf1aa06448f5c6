/**
 * The JSON text form used for creator attributes, publish attributes and
 * placeholder data: `json.dumps` with its default arguments (", " and ": "
 * separators, ASCII output with `\uXXXX` escapes) and `json.loads`, which
 * accepts whitespace between tokens.  `Loads(Dumps(v))` gives back `v` with
 * tuples turned into lists.
 */
module Json {
  import opened Strs
  import opened PyData

  // ---------------------------------------------------------------------
  // Encoding

  function HexDigit(d: nat): char
    requires d < 16
  {
    if d < 10 then DigitChar(d) else ('a' as int + d - 10) as char
  }

  /** `'{0:04x}'.format(n)`. */
  function Hex4(n: nat): string
    requires n < 0x10000
  {
    [HexDigit(n / 4096), HexDigit(n / 256 % 16), HexDigit(n / 16 % 16), HexDigit(n % 16)]
  }

  /** The escape `json.dumps` writes for one character of a string. */
  function EscapeChar(c: char): string {
    if c == '"' then "\\\""
    else if c == '\\' then "\\\\"
    else if c == '\n' then "\\n"
    else if c == '\r' then "\\r"
    else if c == '\t' then "\\t"
    else if c == '\U{8}' then "\\b"
    else if c == '\U{c}' then "\\f"
    else if ' ' <= c <= '~' then [c]
    else if (c as int) < 0x10000 then "\\u" + Hex4(c as int)
    else
      // Outside the Basic Multilingual Plane: a UTF-16 surrogate pair.
      var v := c as int - 0x10000;
      "\\u" + Hex4(0xd800 + v / 0x400) + "\\u" + Hex4(0xdc00 + v % 0x400)
  }

  function EscapeStr(s: string): string
    decreases |s|
  {
    if |s| == 0 then "" else EscapeChar(s[0]) + EscapeStr(s[1..])
  }

  function Quote(s: string): string {
    "\"" + EscapeStr(s) + "\""
  }

  /** `json.dumps(v)`. */
  function Dumps(v: Value): string
    decreases v, 3
  {
    match v
    case VNone => "null"
    case VBool(b) => if b then "true" else "false"
    case VInt(i) => IntToStr(i)
    case VFloat(t) => t
    case VStr(s) => Quote(s)
    case VList(items) => "[" + DumpItems(items) + "]"
    case VTuple(items) => "[" + DumpItems(items) + "]"
    case VDict(entries) => "{" + DumpMembers(entries, 0) + "}"
  }

  function DumpItems(items: seq<Value>): string
    decreases items
  {
    if |items| == 0 then ""
    else if |items| == 1 then Dumps(items[0])
    else Dumps(items[0]) + ", " + DumpItems(items[1..])
  }

  /** The `"key": value` members of an object from the `i`-th on, separated by `, `. */
  function DumpMembers(entries: seq<(string, Value)>, i: nat): string
    requires i <= |entries|
    decreases VDict(entries), 2, |entries| - i
  {
    if i == |entries| then ""
    else if i + 1 == |entries| then DumpMember(entries[i].0, entries[i].1)
    else DumpMember(entries[i].0, entries[i].1) + ", " + DumpMembers(entries, i + 1)
  }

  function DumpMember(k: string, x: Value): string
    decreases x, 4
  {
    Quote(k) + ": " + Dumps(x)
  }

  // ---------------------------------------------------------------------
  // Decoding

  const JsonWs: set<char> := {' ', '\t', '\n', '\r'}

  function SkipWs(s: string): (r: string)
    ensures |r| <= |s|
    ensures |r| > 0 ==> r[0] !in JsonWs
    decreases |s|
  {
    if |s| > 0 && s[0] in JsonWs then SkipWs(s[1..]) else s
  }

  function HexValue(c: char): int {
    if '0' <= c <= '9' then c as int - '0' as int
    else if 'a' <= c <= 'f' then c as int - 'a' as int + 10
    else if 'A' <= c <= 'F' then c as int - 'A' as int + 10
    else -1
  }

  predicate IsHex4(s: string) {
    |s| == 4 && forall i :: 0 <= i < 4 ==> HexValue(s[i]) >= 0
  }

  function Hex4Value(s: string): (n: nat)
    requires IsHex4(s)
    ensures n < 0x10000
  {
    assert HexValue(s[0]) >= 0 && HexValue(s[1]) >= 0 && HexValue(s[2]) >= 0 && HexValue(s[3]) >= 0;
    HexValue(s[0]) * 4096 + HexValue(s[1]) * 256 + HexValue(s[2]) * 16 + HexValue(s[3])
  }

  /** The character a one-letter escape such as `\n` stands for. */
  function SimpleEscape(e: char): Option<char> {
    if e == '"' then Some('"')
    else if e == '\\' then Some('\\')
    else if e == '/' then Some('/')
    else if e == 'b' then Some('\U{8}')
    else if e == 'f' then Some('\U{c}')
    else if e == 'n' then Some('\n')
    else if e == 'r' then Some('\r')
    else if e == 't' then Some('\t')
    else None
  }

  function Cons(c: char, r: Option<(string, string)>): Option<(string, string)> {
    match r
    case None => None
    case Some((t, rest)) => Some(([c] + t, rest))
  }

  /**
   * The escape at the start of `s` (which begins with a backslash): the
   * character it stands for and its length.  A `\uXXXX` high surrogate must be
   * followed by a low one; a lone surrogate has no `char` and is refused.
   */
  function ParseEscape(s: string): (r: Option<(char, nat)>)
    requires |s| > 0 && s[0] == '\\'
    ensures r.Some? ==> 2 <= r.value.1 <= |s|
  {
    if |s| < 2 then None
    else if SimpleEscape(s[1]).Some? then Some((SimpleEscape(s[1]).value, 2))
    else if s[1] != 'u' || |s| < 6 || !IsHex4(s[2..6]) then None
    else
      var n := Hex4Value(s[2..6]);
      if n < 0xd800 || 0xe000 <= n then Some((n as char, 6))
      else if n < 0xdc00 && |s| >= 12 && s[6..8] == "\\u" && IsHex4(s[8..12])
        && 0xdc00 <= Hex4Value(s[8..12]) < 0xe000
      then Some(((0x10000 + (n - 0xd800) * 0x400 + (Hex4Value(s[8..12]) - 0xdc00)) as char, 12))
      else None
  }

  /** The body of a string literal after its opening quote: the decoded text and what follows the closing quote. */
  function ParseStrBody(s: string): (r: Option<(string, string)>)
    ensures r.Some? ==> |r.value.1| < |s|
    decreases |s|
  {
    if |s| == 0 then None
    else if s[0] == '"' then Some(("", s[1..]))
    else if s[0] == '\\' then
      match ParseEscape(s)
      case None => None
      case Some((c, n)) => Cons(c, ParseStrBody(s[n..]))
    else if s[0] < ' ' then None
    else Cons(s[0], ParseStrBody(s[1..]))
  }

  /** Length of the exponent part `[eE][-+]?\d+` that `s` starts with, or 0. */
  function ExponentRun(s: string): (n: nat)
    ensures n <= |s|
  {
    if |s| == 0 || (s[0] != 'e' && s[0] != 'E') then 0
    else
      var sign := if |s| > 1 && (s[1] == '-' || s[1] == '+') then 1 else 0;
      var d := DigitRun(s[1 + sign..]);
      if d == 0 then 0 else 1 + sign + d
  }

  /** Length of the integer part `0|[1-9]\d*` that `t` starts with. */
  function IntPartLen(t: string): (n: nat)
    requires |t| > 0 && IsDigit(t[0])
    ensures 1 <= n <= |t|
  {
    if t[0] == '0' then 1 else DigitRun(t)
  }

  /** Length of the fraction part `\.\d+` that `a` starts with, or 0. */
  function FracLen(a: string): (n: nat)
    ensures n <= |a|
  {
    if |a| >= 2 && a[0] == '.' && IsDigit(a[1]) then 1 + DigitRun(a[1..]) else 0
  }

  /**
   * A number `-?(0|[1-9]\d*)(\.\d+)?([eE][-+]?\d+)?`: an int when it has no
   * fraction and no exponent, otherwise a float carried as its text.
   */
  function ParseNumber(s: string): (r: Option<(Value, string)>)
    ensures r.Some? ==> |r.value.1| < |s|
  {
    var sign := NumberSign(s);
    var t := s[sign..];
    if |t| == 0 || !IsDigit(t[0]) then None
    else
      var ilen := IntPartLen(t);
      var flen := FracLen(t[ilen..]);
      var elen := ExponentRun(t[ilen + flen..]);
      var total := sign + ilen + flen + elen;
      if flen == 0 && elen == 0 then
        DigitRunDigits(t);
        var n: int := DigitsValue(t[..ilen]);
        Some((VInt(if sign == 1 then -n else n), s[total..]))
      else Some((VFloat(s[..total]), s[total..]))
  }

  /** One JSON value at the start of `s` (no leading whitespace) and the text after it. */
  function ParseValue(s: string): (r: Option<(Value, string)>)
    ensures r.Some? ==> |r.value.1| < |s|
    decreases |s|, 0
  {
    if |s| == 0 then None
    else if s[0] == '"' then
      match ParseStrBody(s[1..])
      case None => None
      case Some((t, rest)) => Some((VStr(t), rest))
    else if s[0] == '{' then ParseObject(SkipWs(s[1..]))
    else if s[0] == '[' then ParseArray(SkipWs(s[1..]))
    else if s[0] == 'n' then (if StartsWith(s, "null") then Some((VNone, s[4..])) else None)
    else if s[0] == 't' then (if StartsWith(s, "true") then Some((VBool(true), s[4..])) else None)
    else if s[0] == 'f' then (if StartsWith(s, "false") then Some((VBool(false), s[5..])) else None)
    else ParseNumber(s)
  }

  /** After `[` and whitespace. */
  function ParseArray(s: string): (r: Option<(Value, string)>)
    ensures r.Some? ==> |r.value.1| < |s|
    decreases |s|, 2
  {
    if |s| > 0 && s[0] == ']' then Some((VList([]), s[1..]))
    else
      match ParseItems(s)
      case None => None
      case Some((items, rest)) => Some((VList(items), rest))
  }

  /** `value (, value)* ]`, whitespace allowed between the tokens. */
  function ParseItems(s: string): (r: Option<(seq<Value>, string)>)
    ensures r.Some? ==> |r.value.1| < |s|
    decreases |s|, 1
  {
    match ParseValue(s)
    case None => None
    case Some((v, r0)) =>
      var r1 := SkipWs(r0);
      if |r1| > 0 && r1[0] == ']' then Some(([v], r1[1..]))
      else if |r1| > 0 && r1[0] == ',' then
        match ParseItems(SkipWs(r1[1..]))
        case None => None
        case Some((vs, rest)) => Some(([v] + vs, rest))
      else None
  }

  /** After `{` and whitespace. */
  function ParseObject(s: string): (r: Option<(Value, string)>)
    ensures r.Some? ==> |r.value.1| < |s|
    decreases |s|, 2
  {
    if |s| > 0 && s[0] == '}' then Some((VDict([]), s[1..]))
    else
      match ParseMembers(s, [])
      case None => None
      case Some((entries, rest)) => Some((VDict(entries), rest))
  }

  /**
   * `"key": value (, "key": value)* }` added to `acc` as Python builds a dict
   * from pairs: a repeated key keeps its first position and its last value.
   */
  function ParseMembers(s: string, acc: Entries<Value>): (r: Option<(Entries<Value>, string)>)
    ensures r.Some? ==> |r.value.1| < |s|
    decreases |s|, 1
  {
    if |s| == 0 || s[0] != '"' then None
    else
      match ParseStrBody(s[1..])
      case None => None
      case Some((k, r0)) =>
        var r1 := SkipWs(r0);
        if |r1| == 0 || r1[0] != ':' then None
        else
          match ParseValue(SkipWs(r1[1..]))
          case None => None
          case Some((v, r2)) =>
            var r3 := SkipWs(r2);
            if |r3| > 0 && r3[0] == '}' then Some((Put(acc, k, v), r3[1..]))
            else if |r3| > 0 && r3[0] == ',' then ParseMembers(SkipWs(r3[1..]), Put(acc, k, v))
            else None
  }

  /** `json.loads(s)`; None where Python raises `JSONDecodeError`. */
  function Loads(s: string): Option<Value> {
    match ParseValue(SkipWs(s))
    case None => None
    case Some((v, rest)) => if SkipWs(rest) == "" then Some(v) else None
  }

  // ---------------------------------------------------------------------
  // The round trip

  /** 1 when `t` starts with a minus sign, else 0. */
  function NumberSign(t: string): (n: nat)
    ensures n <= 1 && n <= |t|
  {
    if |t| > 0 && t[0] == '-' then 1 else 0
  }

  /** A float text of the shape `repr` gives ordinary floats: `-?(0|[1-9]\d*)\.\d+`. */
  predicate FloatLiteral(t: string) {
    var u := t[NumberSign(t)..];
    var k := DigitRun(u);
    0 < k < |u| - 1 && u[k] == '.' && (u[0] != '0' || k == 1) && DigitRun(u[k + 1..]) == |u| - k - 1
  }

  /** Values `Dumps` writes in a form `Loads` reads back. */
  predicate Encodable(v: Value)
    decreases v
  {
    match v
    case VFloat(t) => FloatLiteral(t)
    case VList(items) => forall i :: 0 <= i < |items| ==> Encodable(items[i])
    case VTuple(items) => forall i :: 0 <= i < |items| ==> Encodable(items[i])
    case VDict(entries) => UniqueKeys(entries) && forall i :: 0 <= i < |entries| ==> Encodable(entries[i].1)
    case _ => true
  }

  /** What the round trip gives back: tuples become lists. */
  function Norm(v: Value): Value
    decreases v, 1
  {
    match v
    case VList(items) => VList(NormItems(items))
    case VTuple(items) => VList(NormItems(items))
    case VDict(entries) => VDict(NormEntries(entries))
    case _ => v
  }

  function NormItems(items: seq<Value>): (r: seq<Value>)
    ensures |r| == |items|
    decreases items, 0
  {
    if |items| == 0 then [] else [Norm(items[0])] + NormItems(items[1..])
  }

  function NormEntries(entries: seq<(string, Value)>): (r: seq<(string, Value)>)
    ensures |r| == |entries|
    ensures forall i :: 0 <= i < |entries| ==> r[i] == (entries[i].0, Norm(entries[i].1))
    decreases VDict(entries), 0
  {
    seq(|entries|, i requires 0 <= i < |entries| => (entries[i].0, Norm(entries[i].1)))
  }

  /** What may follow a value inside a document: nothing, or a delimiter. */
  predicate Stop(rest: string) {
    rest == [] || rest[0] == ',' || rest[0] == ']' || rest[0] == '}'
  }

  lemma SkipWsNonWs(s: string)
    requires |s| > 0 && s[0] !in JsonWs
    ensures SkipWs(s) == s
  {
  }

  lemma HexDigitValue(d: nat)
    requires d < 16
    ensures HexValue(HexDigit(d)) == d
  {
  }

  /** `Hex4` text reads back as the number it was written from. */
  lemma Hex4RoundTrip(n: nat)
    requires n < 0x10000
    ensures IsHex4(Hex4(n)) && Hex4Value(Hex4(n)) == n
  {
    var h := Hex4(n);
    HexDigitValue(n / 4096);
    HexDigitValue(n / 256 % 16);
    HexDigitValue(n / 16 % 16);
    HexDigitValue(n % 16);
    assert HexValue(h[0]) == n / 4096 && HexValue(h[1]) == n / 256 % 16;
    assert HexValue(h[2]) == n / 16 % 16 && HexValue(h[3]) == n % 16;
    HexArith(n);
  }

  lemma HexArith(n: nat)
    requires n < 0x10000
    ensures n / 4096 * 4096 + n / 256 % 16 * 256 + n / 16 % 16 * 16 + n % 16 == n
  {
    var a := n / 16;
    var b := a / 16;
    assert n == a * 16 + n % 16;
    assert a == b * 16 + a % 16;
    assert b == b / 16 * 16 + b % 16;
    assert n / 256 == b;
    assert n / 4096 == b / 16;
  }

  /** A character escaped by `json.dumps` is decoded back by one `ParseEscape` step. */
  lemma EscapeParses(c: char, t: string)
    requires !(' ' <= c <= '~') || c == '"' || c == '\\'
    ensures |EscapeChar(c)| > 0 && EscapeChar(c)[0] == '\\'
    ensures ParseEscape(EscapeChar(c) + t) == Some((c, |EscapeChar(c)|))
  {
    var e := EscapeChar(c);
    var s := e + t;
    if c == '"' || c == '\\' || c == '\n' || c == '\r' || c == '\t' || c == '\U{8}' || c == '\U{c}' {
      assert s[1] == e[1];
    } else if (c as int) < 0x10000 {
      Hex4RoundTrip(c as int);
      assert s[1] == 'u';
      assert s[2..6] == Hex4(c as int);
    } else {
      SurrogatePairParses(c, t);
    }
  }

  /** Where the parts of `\\uXXXX\\uXXXX` followed by `t` sit. */
  lemma PairSlices(h1: string, h2: string, t: string)
    requires |h1| == 4 && |h2| == 4
    ensures var s := "\\u" + h1 + "\\u" + h2 + t;
      |s| >= 12 && s[0] == '\\' && s[1] == 'u' && s[2..6] == h1 && s[6..8] == "\\u" && s[8..12] == h2
  {
  }

  /** The two halves of a surrogate pair and the code point they stand for. */
  lemma SurrogateArith(c: char)
    requires (c as int) >= 0x10000
    ensures var v := c as int - 0x10000;
      var hi, lo := 0xd800 + v / 0x400, 0xdc00 + v % 0x400;
      0xd800 <= hi < 0xdc00 && 0xdc00 <= lo < 0xe000
      && 0x10000 + (hi - 0xd800) * 0x400 + (lo - 0xdc00) == c as int
  {
  }

  lemma SurrogatePairParses(c: char, t: string)
    requires (c as int) >= 0x10000
    ensures EscapeChar(c)[0] == '\\'
    ensures ParseEscape(EscapeChar(c) + t) == Some((c, 12))
  {
    var v := c as int - 0x10000;
    var hi, lo := 0xd800 + v / 0x400, 0xdc00 + v % 0x400;
    assert EscapeChar(c) == "\\u" + Hex4(hi) + "\\u" + Hex4(lo);
    SurrogateArith(c);
    Hex4RoundTrip(hi);
    Hex4RoundTrip(lo);
    PairSlices(Hex4(hi), Hex4(lo), t);
    ParseEscapePair(EscapeChar(c) + t, hi, lo);
  }

  /** A high surrogate escape followed by a low one decodes to the code point of the pair. */
  lemma ParseEscapePair(s: string, hi: nat, lo: nat)
    requires |s| >= 12 && s[0] == '\\' && s[1] == 'u' && s[6..8] == "\\u"
    requires IsHex4(s[2..6]) && Hex4Value(s[2..6]) == hi && 0xd800 <= hi < 0xdc00
    requires IsHex4(s[8..12]) && Hex4Value(s[8..12]) == lo && 0xdc00 <= lo < 0xe000
    ensures ParseEscape(s) == Some(((0x10000 + (hi - 0xd800) * 0x400 + (lo - 0xdc00)) as char, 12))
  {
    assert SimpleEscape(s[1]).None?;
  }

  /** Decoding the escape of one character gives that character and goes on after it. */
  lemma EscapeCharRoundTrip(c: char, t: string)
    ensures ParseStrBody(EscapeChar(c) + t) == Cons(c, ParseStrBody(t))
  {
    var s := EscapeChar(c) + t;
    if ' ' <= c <= '~' && c != '"' && c != '\\' {
      assert s[1..] == t;
    } else {
      EscapeParses(c, t);
      assert s[|EscapeChar(c)|..] == t;
    }
  }

  lemma {:induction false} StrBodyRoundTrip(x: string, rest: string)
    ensures ParseStrBody(EscapeStr(x) + ("\"" + rest)) == Some((x, rest))
    decreases |x|
  {
    if |x| > 0 {
      StrBodyRoundTrip(x[1..], rest);
      EscapeCharRoundTrip(x[0], EscapeStr(x[1..]) + ("\"" + rest));
      Assoc(EscapeChar(x[0]), EscapeStr(x[1..]), "\"" + rest);
      assert [x[0]] + x[1..] == x;
    } else {
      assert EscapeStr(x) + ("\"" + rest) == "\"" + rest;
      HeadTail("\"", rest);
    }
  }

  lemma ParseValueNumber(s: string)
    requires |s| > 0 && (s[0] == '-' || IsDigit(s[0]))
    ensures ParseValue(s) == ParseNumber(s)
  {
    assert s[0] != '"' && s[0] != '{' && s[0] != '[' && s[0] != 'n' && s[0] != 't' && s[0] != 'f';
  }

  /** The integer part of `d + rest` is `d` when `rest` starts with a delimiter. */
  lemma IntPartOf(d: string, rest: string)
    requires |d| > 0 && (forall i :: 0 <= i < |d| ==> IsDigit(d[i]))
    requires |d| > 1 ==> d[0] != '0'
    requires Stop(rest)
    ensures IntPartLen(d + rest) == |d|
    ensures FracLen(rest) == 0 && ExponentRun(rest) == 0
  {
    if d[0] != '0' {
      DigitRunOf(d, rest);
    }
  }

  /** A number without fraction or exponent is read as an int. */
  lemma ParseIntegerNumber(s: string, sign: nat, v: string, ilen: nat)
    requires NumberSign(s) == sign && s[sign..] == v
    requires |v| > 0 && IsDigit(v[0]) && IntPartLen(v) == ilen
    requires FracLen(v[ilen..]) == 0 && ExponentRun(v[ilen..]) == 0
    requires forall i :: 0 <= i < ilen ==> IsDigit(v[i])
    ensures var n: int := DigitsValue(v[..ilen]);
      ParseNumber(s) == Some((VInt(if sign == 1 then -n else n), s[sign + ilen..]))
  {
  }

  lemma SliceSlice<T>(s: seq<T>, a: nat, b: nat)
    requires a + b <= |s|
    ensures s[a..][b..] == s[a + b..]
  {
  }

  /** Digits without a leading zero, followed by a delimiter, read as an int. */
  lemma ParseNumberDigits(s: string, sign: nat, d: string, rest: string)
    requires |d| > 0 && (forall i :: 0 <= i < |d| ==> IsDigit(d[i]))
    requires |d| > 1 ==> d[0] != '0'
    requires Stop(rest)
    requires NumberSign(s) == sign && s[sign..] == d + rest
    ensures var n: int := DigitsValue(d);
      ParseNumber(s) == Some((VInt(if sign == 1 then -n else n), rest))
  {
    IntPartOf(d, rest);
    TakeConcat(d, rest);
    SliceSlice(s, sign, |d|);
    ParseIntegerNumber(s, sign, d + rest, |d|);
  }

  /** `str(i)` starts with a minus sign exactly when `i` is negative, and then come digits. */
  lemma IntTextSign(i: int, rest: string)
    ensures var n: nat := if i < 0 then -i else i;
      var s := IntToStr(i) + rest;
      NumberSign(s) == (if i < 0 then 1 else 0) && s[NumberSign(s)..] == NatToStr(n) + rest
  {
    var n: nat := if i < 0 then -i else i;
    assert IsDigit(NatToStr(n)[0]);
    if i < 0 {
      DropHead("-" + NatToStr(n), rest);
    }
  }

  lemma IntNumber(i: int, rest: string)
    requires Stop(rest)
    ensures ParseNumber(IntToStr(i) + rest) == Some((VInt(i), rest))
  {
    var n: nat := if i < 0 then -i else i;
    DigitsOfNat(n);
    IntTextSign(i, rest);
    ParseNumberDigits(IntToStr(i) + rest, if i < 0 then 1 else 0, NatToStr(n), rest);
  }

  /** `str(i)` starts with a minus sign or a digit. */
  lemma IntTextStart(i: int)
    ensures |IntToStr(i)| > 0 && (IntToStr(i)[0] == '-' || IsDigit(IntToStr(i)[0]))
  {
    var n: nat := if i < 0 then -i else i;
    assert IsDigit(NatToStr(n)[0]);
  }

  lemma IntRoundTrip(i: int, rest: string)
    requires Stop(rest)
    ensures ParseValue(IntToStr(i) + rest) == Some((VInt(i), rest))
  {
    IntNumber(i, rest);
    IntTextStart(i);
    assert (IntToStr(i) + rest)[0] == IntToStr(i)[0];
    ParseValueNumber(IntToStr(i) + rest);
  }

  /** A fraction `.digits` followed by a delimiter is read whole. */
  lemma FracPartOf(f: string, rest: string)
    requires |f| >= 2 && f[0] == '.' && (forall i :: 1 <= i < |f| ==> IsDigit(f[i]))
    requires Stop(rest)
    ensures FracLen(f + rest) == |f|
  {
    assert (f + rest)[1..] == f[1..] + rest;
    DigitRunOf(f[1..], rest);
  }

  lemma SliceConcat(a: string, b: string, j: nat)
    requires j <= |a|
    ensures (a + b)[j..] == a[j..] + b
  {
  }

  /** Unsigned `int.frac` followed by a delimiter: the three parts the number reader sees. */
  lemma UnsignedFloatParts(u: string, k: nat, rest: string)
    requires 0 < k < |u| - 1 && u[k] == '.' && (u[0] != '0' || k == 1)
    requires forall i :: 0 <= i < k ==> IsDigit(u[i])
    requires forall i :: k < i < |u| ==> IsDigit(u[i])
    requires Stop(rest)
    ensures IntPartLen(u + rest) == k
    ensures FracLen((u + rest)[k..]) == |u| - k
    ensures (u + rest)[|u|..] == rest && ExponentRun(rest) == 0
  {
    assert u + rest == u[..k] + (u[k..] + rest);
    if u[0] != '0' {
      DigitRunOf(u[..k], u[k..] + rest);
    }
    assert (u + rest)[k..] == u[k..] + rest;
    FracPartOf(u[k..], rest);
  }

  /** A number with a fraction and no exponent is read as a float carried as its text. */
  lemma ParseFractionNumber(s: string, sign: nat, v: string, ilen: nat, flen: nat)
    requires NumberSign(s) == sign && s[sign..] == v
    requires |v| > 0 && IsDigit(v[0]) && IntPartLen(v) == ilen
    requires ilen + flen <= |v| && FracLen(v[ilen..]) == flen && flen > 0
    requires ExponentRun(v[ilen + flen..]) == 0
    ensures ParseNumber(s) == Some((VFloat(s[..sign + ilen + flen]), s[sign + ilen + flen..]))
  {
  }

  /** The digits on both sides of the point of a float literal. */
  lemma FloatLiteralDigits(t: string)
    requires FloatLiteral(t)
    ensures var u := t[NumberSign(t)..]; var k := DigitRun(u);
      (forall i :: 0 <= i < k ==> IsDigit(u[i])) && (forall i :: k < i < |u| ==> IsDigit(u[i]))
  {
    var u := t[NumberSign(t)..];
    var k := DigitRun(u);
    var f := u[k + 1..];
    DigitRunDigits(u);
    DigitRunDigits(f);
    forall i | k < i < |u| ensures IsDigit(u[i]) {
      assert u[i] == f[i - k - 1];
    }
  }

  lemma TakeConcat<T>(a: seq<T>, b: seq<T>)
    ensures (a + b)[..|a|] == a && (a + b)[|a|..] == b
  {
  }

  /** A float literal followed by a delimiter is read back as that float. */
  lemma FloatNumber(t: string, rest: string)
    requires FloatLiteral(t) && Stop(rest)
    ensures ParseNumber(t + rest) == Some((VFloat(t), rest))
  {
    var sign := NumberSign(t);
    var u := t[sign..];
    var k := DigitRun(u);
    FloatLiteralDigits(t);
    UnsignedFloatParts(u, k, rest);
    SliceConcat(t, rest, sign);
    TakeConcat(t, rest);
    ParseFractionNumber(t + rest, sign, u + rest, k, |u| - k);
  }

  lemma FloatRoundTrip(t: string, rest: string)
    requires FloatLiteral(t) && Stop(rest)
    ensures ParseValue(t + rest) == Some((VFloat(t), rest))
  {
    FloatNumber(t, rest);
    FloatLiteralDigits(t);
    assert (t + rest)[0] == t[0];
    ParseValueNumber(t + rest);
  }

  /** What `Dumps` writes starts with the token that announces the value. */
  lemma DumpsStart(v: Value)
    requires Encodable(v)
    ensures |Dumps(v)| > 0 && Dumps(v)[0] !in JsonWs && Dumps(v)[0] != ']'
  {
    match v
    case VNone => assert Dumps(v) == "null";
    case VBool(b) => assert Dumps(v)[0] in {'t', 'f'};
    case VInt(i) => IntTextStart(i);
    case VFloat(t) => FloatLiteralDigits(t);
    case VStr(s) => assert Dumps(v)[0] == '"';
    case VList(items) => assert Dumps(v)[0] == '[';
    case VTuple(items) => assert Dumps(v)[0] == '[';
    case VDict(entries) => assert Dumps(v)[0] == '{';
  }

  lemma ParseValueString(s: string)
    requires |s| > 0 && s[0] == '"'
    ensures ParseValue(s) == match ParseStrBody(s[1..])
      case None => None
      case Some((t, rest)) => Some((VStr(t), rest))
  {
  }

  lemma ParseValueArray(s: string)
    requires |s| > 0 && s[0] == '['
    ensures ParseValue(s) == ParseArray(SkipWs(s[1..]))
  {
    assert s[0] != '"' && s[0] != '{';
  }

  lemma ParseValueObject(s: string)
    requires |s| > 0 && s[0] == '{'
    ensures ParseValue(s) == ParseObject(SkipWs(s[1..]))
  {
    assert s[0] != '"';
  }

  lemma LiteralRoundTrip(v: Value, rest: string)
    requires v.VNone? || v.VBool?
    ensures ParseValue(Dumps(v) + rest) == Some((v, rest))
  {
    var lit := Dumps(v);
    var s := lit + rest;
    TakeConcat(lit, rest);
    if v.VNone? {
      assert s[0] == 'n';
    } else if v.b {
      assert s[0] == 't';
    } else {
      assert s[0] == 'f';
    }
  }

  lemma HeadTail<T>(a: seq<T>, b: seq<T>)
    requires |a| == 1
    ensures |a + b| > 0 && (a + b)[0] == a[0] && (a + b)[1..] == b
  {
  }

  lemma FirstOf<T>(a: seq<T>, b: seq<T>)
    requires |a| > 0
    ensures (a + b)[0] == a[0]
  {
  }

  lemma Assoc3R<T>(a: seq<T>, b: seq<T>, c: seq<T>, d: seq<T>)
    ensures a + b + c + d == a + (b + (c + d))
  {
  }

  /** A separator and a space before a value: whitespace skipping lands on the value. */
  lemma SepSpace(sep: char, w: string)
    requires |w| > 0 && w[0] !in JsonWs && sep !in JsonWs
    ensures var t := [sep, ' '] + w;
      SkipWs(t) == t && t[0] == sep && SkipWs(t[1..]) == w
  {
    var t := [sep, ' '] + w;
    assert t[1..] == [' '] + w;
    HeadTail([' '], w);
  }

  lemma {:induction false} ValueRoundTrip(v: Value, rest: string)
    requires Encodable(v) && Stop(rest)
    ensures ParseValue(Dumps(v) + rest) == Some((Norm(v), rest))
    decreases v, 2
  {
    match v
    case VNone => LiteralRoundTrip(v, rest);
    case VBool(_) => LiteralRoundTrip(v, rest);
    case VInt(i) => IntRoundTrip(i, rest);
    case VFloat(t) => FloatRoundTrip(t, rest);
    case VStr(x) =>
      QuotedRoundTrip(x, rest);
      ParseValueString(Quote(x) + rest);
    case VList(items) =>
      Assoc3R("[", DumpItems(items), "]", rest);
      ListRoundTrip(items, rest);
    case VTuple(items) =>
      Assoc3R("[", DumpItems(items), "]", rest);
      ListRoundTrip(items, rest);
    case VDict(entries) => DictRoundTrip(entries, rest);
  }

  /** The items of a non-empty array start with the first item. */
  lemma ItemsStart(items: seq<Value>)
    requires |items| > 0 && Encodable(items[0])
    ensures |DumpItems(items)| > 0 && DumpItems(items)[0] !in JsonWs && DumpItems(items)[0] != ']'
  {
    DumpsStart(items[0]);
    if |items| > 1 {
      FirstOf(Dumps(items[0]), ", ");
      FirstOf(Dumps(items[0]) + ", ", DumpItems(items[1..]));
    }
  }

  lemma {:induction false} ListRoundTrip(items: seq<Value>, rest: string)
    requires forall i :: 0 <= i < |items| ==> Encodable(items[i])
    requires Stop(rest)
    ensures ParseValue("[" + (DumpItems(items) + ("]" + rest))) == Some((VList(NormItems(items)), rest))
    decreases items, 1
  {
    var body := DumpItems(items) + ("]" + rest);
    HeadTail("[", body);
    ParseValueArray("[" + body);
    if |items| == 0 {
      assert body == "]" + rest;
      HeadTail("]", rest);
      SkipWsNonWs(body);
    } else {
      ItemsStart(items);
      FirstOf(DumpItems(items), "]" + rest);
      SkipWsNonWs(body);
      ItemsRoundTrip(items, rest);
    }
  }

  lemma ParseItemsLast(s: string, v: Value, r0: string, rest: string)
    requires ParseValue(s) == Some((v, r0)) && SkipWs(r0) == "]" + rest
    ensures ParseItems(s) == Some(([v], rest))
  {
    HeadTail("]", rest);
  }

  lemma ParseItemsNext(s: string, v: Value, r0: string, s2: string)
    requires ParseValue(s) == Some((v, r0))
    requires |SkipWs(r0)| > 0 && SkipWs(r0)[0] == ',' && SkipWs(SkipWs(r0)[1..]) == s2
    ensures ParseItems(s) == match ParseItems(s2)
      case None => None
      case Some((vs, rest)) => Some(([v] + vs, rest))
  {
  }

  /** The last item of an array, then `]`. */
  lemma {:induction false} LastItemRoundTrip(x: Value, rest: string)
    requires Encodable(x) && Stop(rest)
    ensures ParseItems(Dumps(x) + ("]" + rest)) == Some(([Norm(x)], rest))
    decreases x, 3
  {
    var tail := "]" + rest;
    ValueRoundTrip(x, tail);
    SkipWsNonWs(tail);
    ParseItemsLast(Dumps(x) + tail, Norm(x), tail, rest);
  }

  /** An item of an array, then `, ` and the items after it. */
  lemma {:induction false} NextItemRoundTrip(x: Value, more: string)
    requires Encodable(x) && |more| > 0 && more[0] !in JsonWs
    ensures ParseItems(Dumps(x) + (", " + more)) == match ParseItems(more)
      case None => None
      case Some((vs, rest)) => Some(([Norm(x)] + vs, rest))
    decreases x, 3
  {
    var tail := ", " + more;
    ValueRoundTrip(x, tail);
    SepSpace(',', more);
    ParseItemsNext(Dumps(x) + tail, Norm(x), tail, more);
  }

  lemma {:induction false} ItemsRoundTrip(items: seq<Value>, rest: string)
    requires |items| > 0 && forall i :: 0 <= i < |items| ==> Encodable(items[i])
    requires Stop(rest)
    ensures ParseItems(DumpItems(items) + ("]" + rest)) == Some((NormItems(items), rest))
    decreases items, 0
  {
    if |items| == 1 {
      assert DumpItems(items) == Dumps(items[0]);
      LastItemRoundTrip(items[0], rest);
      assert NormItems(items[1..]) == [];
      assert NormItems(items) == [Norm(items[0])];
    } else {
      var more := DumpItems(items[1..]) + ("]" + rest);
      Assoc3R(Dumps(items[0]), ", ", DumpItems(items[1..]), "]" + rest);
      ItemsStart(items[1..]);
      FirstOf(DumpItems(items[1..]), "]" + rest);
      NextItemRoundTrip(items[0], more);
      ItemsRoundTrip(items[1..], rest);
    }
  }

  lemma {:induction false} DictRoundTrip(entries: seq<(string, Value)>, rest: string)
    requires Encodable(VDict(entries)) && Stop(rest)
    ensures ParseValue(Dumps(VDict(entries)) + rest) == Some((VDict(NormEntries(entries)), rest))
    decreases VDict(entries), 1
  {
    var body := DumpMembers(entries, 0) + ("}" + rest);
    Assoc3R("{", DumpMembers(entries, 0), "}", rest);
    HeadTail("{", body);
    ParseValueObject("{" + body);
    if |entries| == 0 {
      assert body == "}" + rest;
      HeadTail("}", rest);
      SkipWsNonWs(body);
    } else {
      MembersStart(entries, 0, rest);
      SkipWsNonWs(body);
      MembersRoundTrip(entries, 0, rest);
      assert NormEntries(entries)[..0] == [];
    }
  }

  /** One `"key": value` member, then the closing brace. */
  lemma ParseMembersLast(s: string, acc: Entries<Value>, k: string, r0: string, v: Value, r2: string, rest: string)
    requires |s| > 0 && s[0] == '"' && ParseStrBody(s[1..]) == Some((k, r0))
    requires |SkipWs(r0)| > 0 && SkipWs(r0)[0] == ':' && ParseValue(SkipWs(SkipWs(r0)[1..])) == Some((v, r2))
    requires SkipWs(r2) == "}" + rest
    ensures ParseMembers(s, acc) == Some((Put(acc, k, v), rest))
  {
    HeadTail("}", rest);
  }

  /** One `"key": value` member, then a comma and the members after it. */
  lemma ParseMembersNext(s: string, acc: Entries<Value>, k: string, r0: string, v: Value, r2: string, s2: string)
    requires |s| > 0 && s[0] == '"' && ParseStrBody(s[1..]) == Some((k, r0))
    requires |SkipWs(r0)| > 0 && SkipWs(r0)[0] == ':' && ParseValue(SkipWs(SkipWs(r0)[1..])) == Some((v, r2))
    requires |SkipWs(r2)| > 0 && SkipWs(r2)[0] == ',' && SkipWs(SkipWs(r2)[1..]) == s2
    ensures ParseMembers(s, acc) == ParseMembers(s2, Put(acc, k, v))
  {
  }

  /** A quoted string reads back, leaving what follows its closing quote. */
  lemma QuotedRoundTrip(k: string, after: string)
    ensures var s := Quote(k) + after;
      |s| > 0 && s[0] == '"' && ParseStrBody(s[1..]) == Some((k, after))
  {
    Assoc3R("\"", EscapeStr(k), "\"", after);
    HeadTail("\"", EscapeStr(k) + ("\"" + after));
    StrBodyRoundTrip(k, after);
  }

  /** The value of a member as `Dumps` writes it reads back after the colon. */
  lemma {:induction false} MemberValue(x: Value, tail: string)
    requires Encodable(x) && Stop(tail)
    ensures var r0 := ": " + (Dumps(x) + tail);
      SkipWs(r0) == r0 && r0[0] == ':' && ParseValue(SkipWs(r0[1..])) == Some((Norm(x), tail))
    decreases x, 4
  {
    DumpsStart(x);
    FirstOf(Dumps(x), tail);
    SepSpace(':', Dumps(x) + tail);
    ValueRoundTrip(x, tail);
  }

  /** The last member of an object, then `}`. */
  lemma {:induction false} LastMemberRoundTrip(k: string, x: Value, rest: string, acc: Entries<Value>)
    requires Encodable(x) && Stop(rest)
    ensures ParseMembers(DumpMember(k, x) + ("}" + rest), acc) == Some((Put(acc, k, Norm(x)), rest))
    decreases x, 5
  {
    var tail := "}" + rest;
    var r0 := ": " + (Dumps(x) + tail);
    Assoc3R(Quote(k), ": ", Dumps(x), tail);
    QuotedRoundTrip(k, r0);
    MemberValue(x, tail);
    SkipWsNonWs(tail);
    ParseMembersLast(Quote(k) + r0, acc, k, r0, Norm(x), tail, rest);
  }

  /** A member of an object, then `, ` and the members after it. */
  lemma {:induction false} NextMemberRoundTrip(k: string, x: Value, more: string, acc: Entries<Value>)
    requires Encodable(x) && |more| > 0 && more[0] !in JsonWs
    ensures ParseMembers(DumpMember(k, x) + (", " + more), acc) == ParseMembers(more, Put(acc, k, Norm(x)))
    decreases x, 5
  {
    var tail := ", " + more;
    var r0 := ": " + (Dumps(x) + tail);
    Assoc3R(Quote(k), ": ", Dumps(x), tail);
    QuotedRoundTrip(k, r0);
    MemberValue(x, tail);
    SepSpace(',', more);
    ParseMembersNext(Quote(k) + r0, acc, k, r0, Norm(x), tail, more);
  }



  lemma DropHead<T>(a: seq<T>, b: seq<T>)
    requires |a| > 0
    ensures (a + b)[1..] == a[1..] + b
  {
  }


  /** A key that is unique in `entries` is not among the normalised entries before it. */
  lemma KeyNotBefore(entries: seq<(string, Value)>, j: nat)
    requires j < |entries| && UniqueKeys(entries)
    ensures !HasKey(NormEntries(entries)[..j], entries[j].0)
  {
    var acc := NormEntries(entries)[..j];
    forall i | 0 <= i < |acc| ensures acc[i].0 != entries[j].0 {
      assert acc[i].0 == entries[i].0;
    }
  }

  /** Adding member `j` to the first `j` normalised entries gives the first `j + 1`. */
  lemma PutNextEntry(entries: seq<(string, Value)>, j: nat)
    requires j < |entries| && UniqueKeys(entries)
    ensures Put(NormEntries(entries)[..j], entries[j].0, Norm(entries[j].1)) == NormEntries(entries)[..j + 1]
  {
    var n := NormEntries(entries);
    KeyNotBefore(entries, j);
    PrefixStep(n, j);
  }

  /** The members from `j` on start with the quote of a key. */
  lemma MembersStart(entries: seq<(string, Value)>, j: nat, rest: string)
    requires j < |entries|
    ensures var t := DumpMembers(entries, j) + ("}" + rest);
      |t| > 0 && t[0] == '"'
  {
    var m := DumpMember(entries[j].0, entries[j].1);
    var q := Quote(entries[j].0);
    FirstOf(q, ": ");
    FirstOf(q + ": ", Dumps(entries[j].1));
    if j + 1 < |entries| {
      FirstOf(m, ", ");
      FirstOf(m + ", ", DumpMembers(entries, j + 1));
    }
    FirstOf(DumpMembers(entries, j), "}" + rest);
  }

  /** Member `j` read back: the parse goes on at member `j + 1` with the entry added. */
  lemma {:induction false} MemberStep(entries: seq<(string, Value)>, j: nat, rest: string, acc: Entries<Value>)
    requires j + 1 < |entries| && Encodable(entries[j].1)
    ensures ParseMembers(DumpMembers(entries, j) + ("}" + rest), acc)
      == ParseMembers(DumpMembers(entries, j + 1) + ("}" + rest), Put(acc, entries[j].0, Norm(entries[j].1)))
    decreases VDict(entries), 0, |entries| - j, 0
  {
    var k, x := entries[j].0, entries[j].1;
    var more := DumpMembers(entries, j + 1) + ("}" + rest);
    Assoc3R(DumpMember(k, x), ", ", DumpMembers(entries, j + 1), "}" + rest);
    MembersStart(entries, j + 1, rest);
    NextMemberRoundTrip(k, x, more, acc);
  }

  lemma {:induction false} MembersRoundTrip(entries: seq<(string, Value)>, j: nat, rest: string)
    requires j < |entries| && Encodable(VDict(entries)) && Stop(rest)
    ensures ParseMembers(DumpMembers(entries, j) + ("}" + rest), NormEntries(entries)[..j])
      == Some((NormEntries(entries), rest))
    decreases VDict(entries), 0, |entries| - j, 1
  {
    PutNextEntry(entries, j);
    if j + 1 < |entries| {
      MemberStep(entries, j, rest, NormEntries(entries)[..j]);
      MembersRoundTrip(entries, j + 1, rest);
    } else {
      LastMemberRoundTrip(entries[j].0, entries[j].1, rest, NormEntries(entries)[..j]);
      FullPrefix(NormEntries(entries));
    }
  }

  /** `json.loads(json.dumps(v))` gives `v` back, with tuples as lists. */
  lemma DumpsLoads(v: Value)
    requires Encodable(v)
    ensures Loads(Dumps(v)) == Some(Norm(v))
  {
    DumpsStart(v);
    SkipWsNonWs(Dumps(v));
    assert Dumps(v) + "" == Dumps(v);
    ValueRoundTrip(v, "");
  }
}
