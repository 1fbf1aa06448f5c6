/**
 * Python `str` operations that the Maya integration relies on, stated on
 * `seq<char>`: `split`/`join` on a single character, `rsplit(c, 1)`,
 * `startswith`/`endswith`/`in`, `strip`, `replace`, ASCII `lower`, and the
 * decimal text of an integer with `rjust` zero padding.
 */
module Strs {

  datatype Option<T> = None | Some(value: T)

  /** The outcome of a call that may raise: its value, or the exception it raises. */
  datatype Result<T> = Ok(value: T) | Err(error: string)

  // ---------------------------------------------------------------------
  // Prefixes, suffixes and substrings

  predicate StartsWith(s: string, p: string) {
    |p| <= |s| && s[..|p|] == p
  }

  predicate EndsWith(s: string, p: string) {
    |p| <= |s| && s[|s| - |p|..] == p
  }

  lemma StartsWithChar(s: string, c: char)
    ensures StartsWith(s, [c]) <==> |s| > 0 && s[0] == c
  {
    if |s| > 0 && s[0] == c { assert s[..1] == [c]; }
  }

  lemma EndsWithChar(s: string, c: char)
    ensures EndsWith(s, [c]) <==> |s| > 0 && s[|s| - 1] == c
  {
    if |s| > 0 && s[|s| - 1] == c { assert s[|s| - 1..] == [c]; }
  }

  /** Python's `sub in s`. */
  predicate Contains(s: string, sub: string)
    decreases |s|
  {
    StartsWith(s, sub) || (|s| > 0 && Contains(s[1..], sub))
  }

  lemma {:induction false} ContainsAt(s: string, sub: string, i: nat)
    requires i + |sub| <= |s| && s[i..i + |sub|] == sub
    ensures Contains(s, sub)
    decreases i
  {
    if i > 0 {
      assert s[1..][i - 1..i - 1 + |sub|] == sub;
      ContainsAt(s[1..], sub, i - 1);
    }
  }

  lemma {:induction false} ContainsWitness(s: string, sub: string) returns (i: nat)
    requires Contains(s, sub)
    ensures i + |sub| <= |s| && s[i..i + |sub|] == sub
    decreases |s|
  {
    if StartsWith(s, sub) {
      i := 0;
    } else {
      var j := ContainsWitness(s[1..], sub);
      i := j + 1;
      assert s[i..i + |sub|] == s[1..][j..j + |sub|];
    }
  }

  lemma {:induction false} ContainsAppend(a: string, b: string, sub: string)
    requires Contains(a, sub) || Contains(b, sub)
    ensures Contains(a + b, sub)
  {
    if Contains(a, sub) {
      var i := ContainsWitness(a, sub);
      assert (a + b)[i..i + |sub|] == a[i..i + |sub|];
      ContainsAt(a + b, sub, i);
    } else {
      var i := ContainsWitness(b, sub);
      assert (a + b)[|a| + i..|a| + i + |sub|] == b[i..i + |sub|];
      ContainsAt(a + b, sub, |a| + i);
    }
  }

  // ---------------------------------------------------------------------
  // split / join on one character

  /** Python's `s.split(c)`: always at least one part, none containing `c`. */
  function Split(s: string, c: char): (parts: seq<string>)
    ensures |parts| >= 1
    decreases |s|
  {
    if |s| == 0 then [""]
    else if s[0] == c then [""] + Split(s[1..], c)
    else
      var rest := Split(s[1..], c);
      [[s[0]] + rest[0]] + rest[1..]
  }

  /** Python's `sep.join(parts)`. */
  function Join(parts: seq<string>, sep: string): string
    decreases |parts|
  {
    if |parts| == 0 then ""
    else if |parts| == 1 then parts[0]
    else parts[0] + sep + Join(parts[1..], sep)
  }

  lemma {:induction false} SplitPartsFree(s: string, c: char)
    ensures forall i :: 0 <= i < |Split(s, c)| ==> c !in Split(s, c)[i]
    decreases |s|
  {
    if |s| > 0 {
      SplitPartsFree(s[1..], c);
    }
  }

  /** Joining one more part adds the separator and that part. */
  lemma {:induction false} JoinSnoc(parts: seq<string>, x: string, sep: string)
    requires |parts| >= 1
    ensures Join(parts + [x], sep) == Join(parts, sep) + sep + x
    decreases |parts|
  {
    if |parts| == 1 {
      assert (parts + [x])[1..] == [x];
    } else {
      JoinSnoc(parts[1..], x, sep);
      assert (parts + [x])[1..] == parts[1..] + [x];
    }
  }

  /** A character in neither the parts nor the separator is not in their join. */
  lemma {:induction false} JoinExcludes(parts: seq<string>, sep: string, c: char)
    requires c !in sep
    requires forall i :: 0 <= i < |parts| ==> c !in parts[i]
    ensures c !in Join(parts, sep)
    decreases |parts|
  {
    if |parts| > 1 {
      JoinExcludes(parts[1..], sep, c);
    }
  }

  /** Joining the parts of a split with the separator gives the string back. */
  lemma {:induction false} JoinSplit(s: string, c: char)
    ensures Join(Split(s, c), [c]) == s
    decreases |s|
  {
    if |s| > 0 {
      var rest := Split(s[1..], c);
      JoinSplit(s[1..], c);
      if s[0] == c {
        assert Split(s, c) == [""] + rest;
        assert Join(Split(s, c), [c]) == "" + [c] + Join(rest, [c]);
      } else {
        var parts := Split(s, c);
        assert parts == [[s[0]] + rest[0]] + rest[1..];
        if |rest| == 1 {
          assert Join(parts, [c]) == [s[0]] + rest[0];
        } else {
          assert parts[1..] == rest[1..];
          assert Join(rest, [c]) == rest[0] + [c] + Join(rest[1..], [c]);
          assert Join(parts, [c]) == [s[0]] + rest[0] + [c] + Join(rest[1..], [c]);
        }
      }
    }
  }

  /** Splitting a join of separator-free parts gives the parts back. */
  lemma {:induction false} SplitJoin(parts: seq<string>, c: char)
    requires |parts| >= 1
    requires forall i :: 0 <= i < |parts| ==> c !in parts[i]
    ensures Split(Join(parts, [c]), c) == parts
    decreases |parts|
  {
    if |parts| == 1 {
      SplitFree(parts[0], c);
    } else {
      SplitJoin(parts[1..], c);
      SplitPrefix(parts[0], Join(parts[1..], [c]), c);
      assert Join(parts, [c]) == parts[0] + ([c] + Join(parts[1..], [c]));
    }
  }

  lemma {:induction false} SplitFree(s: string, c: char)
    requires c !in s
    ensures Split(s, c) == [s]
    decreases |s|
  {
    if |s| > 0 {
      SplitFree(s[1..], c);
      assert [s[0]] + s[1..] == s;
    }
  }

  lemma {:induction false} SplitPrefix(a: string, b: string, c: char)
    requires c !in a
    ensures Split(a + [c] + b, c) == [a] + Split(b, c)
    decreases |a|
  {
    if |a| == 0 {
      assert a + [c] + b == [c] + b;
      assert ([c] + b)[1..] == b;
    } else {
      assert (a + [c] + b)[1..] == a[1..] + [c] + b;
      SplitPrefix(a[1..], b, c);
      assert [a[0]] + a[1..] == a;
    }
  }

  /** A last part free of the separator is split off as the last part. */
  lemma {:induction false} SplitAppendFree(a: string, b: string, c: char)
    requires c !in b
    ensures Split(a + [c] + b, c) == Split(a, c) + [b]
    decreases |a|
  {
    if |a| == 0 {
      assert a + [c] + b == [c] + b;
      assert ([c] + b)[1..] == b;
      SplitFree(b, c);
    } else {
      assert (a + [c] + b)[1..] == a[1..] + [c] + b;
      SplitAppendFree(a[1..], b, c);
    }
  }

  /** A string made only of separators splits into empty parts. */
  lemma {:induction false} SplitAllSep(s: string, c: char)
    requires forall i :: 0 <= i < |s| ==> s[i] == c
    ensures |Split(s, c)| == |s| + 1
    ensures forall i :: 0 <= i < |Split(s, c)| ==> Split(s, c)[i] == ""
    decreases |s|
  {
    if |s| > 0 {
      SplitAllSep(s[1..], c);
    }
  }

  lemma {:induction false} SplitCount(s: string, c: char)
    ensures |Split(s, c)| == 1 + multiset(s)[c]
    decreases |s|
  {
    if |s| > 0 {
      SplitCount(s[1..], c);
      assert s == [s[0]] + s[1..];
      assert multiset(s) == multiset{s[0]} + multiset(s[1..]);
    }
  }

  // ---------------------------------------------------------------------
  // rsplit(c, 1)

  /** Index of the last `c` in `s`, or -1. */
  function LastIndex(s: string, c: char): (r: int)
    ensures -1 <= r < |s|
    ensures r >= 0 ==> s[r] == c && c !in s[r + 1..]
    ensures r == -1 ==> c !in s
  {
    var r := LastIndexBelow(s, c, |s|);
    if r >= 0 then
      var tail := s[r + 1..];
      assert forall j :: 0 <= j < |tail| ==> tail[j] == s[r + 1 + j];
      r
    else r
  }

  /** Index of the last `c` among the first `i` characters of `s`, or -1. */
  function LastIndexBelow(s: string, c: char, i: nat): (r: int)
    requires i <= |s|
    ensures -1 <= r < i
    ensures r >= 0 ==> s[r] == c && forall j :: r < j < i ==> s[j] != c
    ensures r == -1 ==> forall j :: 0 <= j < i ==> s[j] != c
  {
    if i == 0 then -1
    else if s[i - 1] == c then i - 1
    else LastIndexBelow(s, c, i - 1)
  }

  /** `s.rsplit(c, 1)[-1]`: the text after the last `c` (all of `s` without one). */
  function AfterLast(s: string, c: char): string {
    s[LastIndex(s, c) + 1..]
  }

  /** `s.rsplit(c, 1)[0]` when `c` occurs: the text before the last `c`. */
  function BeforeLast(s: string, c: char): string {
    if LastIndex(s, c) < 0 then s else s[..LastIndex(s, c)]
  }

  lemma AfterLastFree(s: string, c: char)
    ensures c !in AfterLast(s, c)
    ensures EndsWith(s, AfterLast(s, c))
  {
  }

  /** `rsplit(c, 1)` cuts the string at its last `c`. */
  lemma RSplitJoin(s: string, c: char)
    requires c in s
    ensures BeforeLast(s, c) + [c] + AfterLast(s, c) == s
  {
    var r := LastIndex(s, c);
    assert s == s[..r] + [s[r]] + s[r + 1..];
  }

  /** The last `c` of `a + [c] + b` is the one between them when `b` has none. */
  lemma RSplitAppend(a: string, b: string, c: char)
    requires c !in b
    ensures AfterLast(a + [c] + b, c) == b
    ensures BeforeLast(a + [c] + b, c) == a
  {
    var s := a + [c] + b;
    assert s[|a|] == c;
    assert s[|a| + 1..] == b;
    assert s[..|a|] == a;
  }

  // ---------------------------------------------------------------------
  // strip

  function LStrip(s: string, cs: set<char>): (r: string)
    ensures |r| <= |s| && EndsWith(s, r)
    ensures |r| > 0 ==> r[0] !in cs
    ensures forall i :: 0 <= i < |s| - |r| ==> s[i] in cs
    decreases |s|
  {
    if |s| > 0 && s[0] in cs then LStrip(s[1..], cs) else s
  }

  function RStrip(s: string, cs: set<char>): (r: string)
    ensures |r| <= |s| && StartsWith(s, r)
    ensures |r| > 0 ==> r[|r| - 1] !in cs
    ensures forall i :: |r| <= i < |s| ==> s[i] in cs
    decreases |s|
  {
    if |s| > 0 && s[|s| - 1] in cs then RStrip(s[..|s| - 1], cs) else s
  }

  /** Python's `s.strip(chars)`. */
  function Strip(s: string, cs: set<char>): string {
    RStrip(LStrip(s, cs), cs)
  }

  /**
   * The characters Python's argument-less `strip()` (and `int()`, `float()`)
   * removes: those `str.isspace()` accepts.  Besides the usual ASCII ones
   * these are the separators 0x1c-0x1f, NEL, no-break space, and the
   * Unicode space separators and line and paragraph separators.
   */
  const Whitespace: set<char> := set c: char | c <= '\U{3000}' && IsSpace(c)

  predicate IsSpace(c: char) {
    ('\t' <= c <= '\r') || ('\U{1c}' <= c <= ' ') || c == '\U{85}' || c == '\U{a0}' || c == '\U{1680}'
    || ('\U{2000}' <= c <= '\U{200a}') || c == '\U{2028}' || c == '\U{2029}' || c == '\U{202f}' || c == '\U{205f}'
    || c == '\U{3000}'
  }

  function StripWs(s: string): string {
    Strip(s, Whitespace)
  }

  /** An item `[x.strip() for x in ... if x.strip()]` keeps as it is: non-empty and already stripped. */
  predicate CleanItem(x: string) {
    x != "" && StripWs(x) == x
  }

  /** `[x.strip() for x in parts if x.strip()]`. */
  function CleanItems(parts: seq<string>): (r: seq<string>)
    ensures |r| <= |parts|
    ensures forall j :: 0 <= j < |r| ==> CleanItem(r[j])
    decreases |parts|
  {
    if |parts| == 0 then []
    else
      var x := StripWs(parts[|parts| - 1]);
      StripIdempotent(parts[|parts| - 1], Whitespace);
      CleanItems(parts[..|parts| - 1]) + (if x == "" then [] else [x])
  }

  /** `[x.strip() for x in s.split(c) if x.strip()]`. */
  function SplitClean(s: string, c: char): seq<string> {
    CleanItems(Split(s, c))
  }

  /** Stripping never brings in a character. */
  lemma StripKeepsOut(s: string, c: char)
    requires c !in s
    ensures c !in StripWs(s)
  {
    var l := LStrip(s, Whitespace);
    assert l == s[|s| - |l|..];
    var r := RStrip(l, Whitespace);
    assert r == l[..|r|];
  }

  /** No item holds an element outside the parts. */
  lemma {:induction false} CleanItemsFree(parts: seq<string>, c: char)
    requires forall i :: 0 <= i < |parts| ==> c !in parts[i]
    ensures forall j :: 0 <= j < |CleanItems(parts)| ==> c !in CleanItems(parts)[j]
    decreases |parts|
  {
    if |parts| > 0 {
      CleanItemsFree(parts[..|parts| - 1], c);
      StripKeepsOut(parts[|parts| - 1], c);
    }
  }

  /** The items of a split-and-clean hold no separator. */
  lemma SplitCleanFree(s: string, c: char)
    ensures forall j :: 0 <= j < |SplitClean(s, c)| ==> c !in SplitClean(s, c)[j]
  {
    SplitPartsFree(s, c);
    CleanItemsFree(Split(s, c), c);
  }

  /** Clean items come through unchanged. */
  lemma {:induction false} CleanItemsId(items: seq<string>)
    requires forall j :: 0 <= j < |items| ==> CleanItem(items[j])
    ensures CleanItems(items) == items
    decreases |items|
  {
    if |items| > 0 {
      CleanItemsId(items[..|items| - 1]);
      assert items[..|items| - 1] + [items[|items| - 1]] == items;
    }
  }

  /** Round trip: joining clean, separator-free items and splitting them again gives them back. */
  lemma SplitCleanJoin(items: seq<string>, c: char)
    requires forall j :: 0 <= j < |items| ==> CleanItem(items[j]) && c !in items[j]
    ensures SplitClean(Join(items, [c]), c) == items
  {
    if |items| == 0 {
      assert Split("", c) == [""];
      assert StripWs("") == "";
      assert [""][..0] == [];
    } else {
      SplitJoin(items, c);
      CleanItemsId(items);
    }
  }

  lemma StripEmptyIffAllIn(s: string, cs: set<char>)
    ensures Strip(s, cs) == "" <==> forall i :: 0 <= i < |s| ==> s[i] in cs
  {
    var l := LStrip(s, cs);
    if |l| > 0 {
      assert l[0] !in cs;
    }
  }

  lemma {:induction false} StripIdempotent(s: string, cs: set<char>)
    ensures Strip(Strip(s, cs), cs) == Strip(s, cs)
  {
    var r := Strip(s, cs);
    if |r| > 0 {
      assert r[0] !in cs;
      assert LStrip(r, cs) == r;
      assert r[|r| - 1] !in cs;
    }
  }

  /** Stripping a string with no character of `cs` at either end leaves it as it is. */
  lemma StripNone(s: string, cs: set<char>)
    requires |s| == 0 || (s[0] !in cs && s[|s| - 1] !in cs)
    ensures Strip(s, cs) == s
  {
  }

  lemma {:induction false} LStripPrefix(pre: string, s: string, cs: set<char>)
    requires forall i :: 0 <= i < |pre| ==> pre[i] in cs
    requires |s| > 0 && s[0] !in cs
    ensures LStrip(pre + s, cs) == s
    decreases |pre|
  {
    if |pre| > 0 {
      assert (pre + s)[1..] == pre[1..] + s;
      LStripPrefix(pre[1..], s, cs);
    }
  }

  lemma {:induction false} RStripSuffix(s: string, post: string, cs: set<char>)
    requires forall i :: 0 <= i < |post| ==> post[i] in cs
    requires |s| > 0 && s[|s| - 1] !in cs
    ensures RStrip(s + post, cs) == s
    decreases |post|
  {
    if |post| > 0 {
      assert (s + post)[..|s + post| - 1] == s + post[..|post| - 1];
      RStripSuffix(s, post[..|post| - 1], cs);
    }
  }

  /** `strip` removes exactly the stripped characters around a text that does not start or end with one. */
  lemma StripBetween(pre: string, s: string, post: string, cs: set<char>)
    requires forall i :: 0 <= i < |pre| ==> pre[i] in cs
    requires forall i :: 0 <= i < |post| ==> post[i] in cs
    requires |s| > 0 && s[0] !in cs && s[|s| - 1] !in cs
    ensures Strip(pre + s + post, cs) == s
  {
    assert pre + s + post == pre + (s + post);
    LStripPrefix(pre, s + post, cs);
    RStripSuffix(s, post, cs);
  }

  // ---------------------------------------------------------------------
  // replace and ASCII case

  /** Python's `s.replace(pat, rep)` for a non-empty `pat`: left to right, non-overlapping. */
  function Replace(s: string, pat: string, rep: string): string
    requires |pat| > 0
    decreases |s|
  {
    if |s| < |pat| then s
    else if s[..|pat|] == pat then rep + Replace(s[|pat|..], pat, rep)
    else [s[0]] + Replace(s[1..], pat, rep)
  }

  lemma {:induction false} ReplaceFree(s: string, pat: string, rep: string)
    requires |pat| > 0 && !Contains(s, pat)
    ensures Replace(s, pat, rep) == s
    decreases |s|
  {
    if |s| >= |pat| {
      ReplaceFree(s[1..], pat, rep);
    }
  }

  /** Text before which no occurrence can start passes through `replace` unchanged. */
  lemma {:induction false} ReplaceNoStart(a: string, t: string, pat: string, rep: string)
    requires |pat| > 0 && pat[0] !in a
    ensures Replace(a + t, pat, rep) == a + Replace(t, pat, rep)
    decreases |a|
  {
    if |a| > 0 {
      var s := a + t;
      assert s[0] == a[0] != pat[0];
      assert s[1..] == a[1..] + t;
      ReplaceNoStart(a[1..], t, pat, rep);
      if |s| >= |pat| {
        assert s[..|pat|] != pat;
      }
      assert [a[0]] + (a[1..] + Replace(t, pat, rep)) == a + Replace(t, pat, rep);
    } else {
      assert a + t == t;
    }
  }

  /** One occurrence between text free of the pattern's first character is replaced. */
  lemma ReplaceOnce(a: string, pat: string, b: string, rep: string)
    requires |pat| > 0 && pat[0] !in a && pat[0] !in b
    ensures Replace(a + pat + b, pat, rep) == a + rep + b
  {
    Assoc(a, pat, b);
    ReplaceNoStart(a, pat + b, pat, rep);
    assert (pat + b)[..|pat|] == pat && (pat + b)[|pat|..] == b;
    assert !Contains(b, pat) by {
      if Contains(b, pat) {
        var i := ContainsWitness(b, pat);
        assert false;
      }
    }
    ReplaceFree(b, pat, rep);
    Assoc(a, rep, b);
  }

  function LowerChar(c: char): char {
    if 'A' <= c <= 'Z' then (c as int + 32) as char else c
  }

  /** Python's `s.lower()` restricted to ASCII letters. */
  function Lower(s: string): (r: string)
    ensures |r| == |s|
    ensures forall i :: 0 <= i < |s| ==> r[i] == LowerChar(s[i])
  {
    seq(|s|, i requires 0 <= i < |s| => LowerChar(s[i]))
  }

  lemma LowerConcat(a: string, b: string)
    ensures Lower(a + b) == Lower(a) + Lower(b)
  {
  }

  lemma LowerIdempotent(s: string)
    ensures Lower(Lower(s)) == Lower(s)
  {
  }

  predicate IsDigit(c: char) {
    '0' <= c <= '9'
  }

  predicate IsAsciiAlnum(c: char) {
    ('a' <= c <= 'z') || ('A' <= c <= 'Z') || IsDigit(c)
  }

  // ---------------------------------------------------------------------
  // Decimal text of integers

  function DigitChar(d: nat): char
    requires d < 10
  {
    ('0' as int + d) as char
  }

  /** `str(n)` for a natural number. */
  function NatToStr(n: nat): (r: string)
    ensures |r| >= 1
    ensures forall i :: 0 <= i < |r| ==> IsDigit(r[i])
    ensures |r| > 1 ==> r[0] != '0'
    decreases n
  {
    if n < 10 then [DigitChar(n)] else NatToStr(n / 10) + [DigitChar(n % 10)]
  }

  /** `str(n)` for any Python int: a minus sign before the digits of `-n`. */
  function IntToStr(n: int): string {
    if n < 0 then "-" + NatToStr(-n) else NatToStr(n)
  }

  /** The value of a run of decimal digits. */
  function DigitsValue(s: string): nat
    requires forall i :: 0 <= i < |s| ==> IsDigit(s[i])
    decreases |s|
  {
    if |s| == 0 then 0
    else
      assert IsDigit(s[|s| - 1]);
      10 * DigitsValue(s[..|s| - 1]) + (s[|s| - 1] as int - '0' as int)
  }

  lemma {:induction false} DigitsOfNat(n: nat)
    ensures DigitsValue(NatToStr(n)) == n
    decreases n
  {
    if n >= 10 {
      DigitsOfNat(n / 10);
      var s := NatToStr(n);
      assert s[..|s| - 1] == NatToStr(n / 10);
    }
  }

  /** Different naturals have different decimal texts. */
  lemma NatToStrInjective(a: nat, b: nat)
    requires NatToStr(a) == NatToStr(b)
    ensures a == b
  {
    DigitsOfNat(a);
    DigitsOfNat(b);
  }

  /** `s.rjust(w, c)`: pad on the left with `c` up to width `w`. */
  function RJust(s: string, w: nat, c: char): (r: string)
    ensures |r| == if |s| >= w then |s| else w
    ensures EndsWith(r, s)
    ensures forall i :: 0 <= i < |r| - |s| ==> r[i] == c
  {
    if |s| >= w then s else seq(w - |s|, _ => c) + s
  }

  /** Python's `"%0{w}d" % n` for a natural number: zero padding to width `w`. */
  function ZeroPad(n: nat, w: nat): string {
    RJust(NatToStr(n), w, '0')
  }

  /** Zero-padded decimals of different naturals differ, whatever the width. */
  lemma ZeroPadInjective(a: nat, b: nat, w: nat)
    requires ZeroPad(a, w) == ZeroPad(b, w)
    ensures a == b
  {
    var sa, sb := NatToStr(a), NatToStr(b);
    var pa, pb := ZeroPad(a, w), ZeroPad(b, w);
    var za, zb := |pa| - |sa|, |pb| - |sb|;
    if za != zb {
      // One side's first digit would sit where the other still has padding.
      assert false;
    } else {
      assert sa == pa[za..] == pb[zb..] == sb;
      NatToStrInjective(a, b);
    }
  }

  /** The first index `k >= i` with `s[k] == c`, or -1 (`s.find(c, i)`). */
  function FindFrom(s: string, c: char, i: nat): (k: int)
    ensures k == -1 || (i <= k < |s| && s[k] == c)
    ensures k == -1 ==> forall j :: i <= j < |s| ==> s[j] != c
    ensures k >= 0 ==> forall j :: i <= j < k ==> s[j] != c
    decreases |s| - i
  {
    if i >= |s| then -1 else if s[i] == c then i else FindFrom(s, c, i + 1)
  }

  /** Length of the run of decimal digits that `s` starts with. */
  function DigitRun(s: string): (n: nat)
    ensures n <= |s|
    decreases |s|
  {
    if |s| > 0 && IsDigit(s[0]) then 1 + DigitRun(s[1..]) else 0
  }

  /** The run is made of digits and stops at the first non-digit. */
  lemma {:induction false} DigitRunDigits(s: string)
    ensures forall i :: 0 <= i < DigitRun(s) ==> IsDigit(s[i])
    ensures DigitRun(s) < |s| ==> !IsDigit(s[DigitRun(s)])
    decreases |s|
  {
    if |s| > 0 && IsDigit(s[0]) {
      DigitRunDigits(s[1..]);
    }
  }

  /** A digit run followed by a non-digit is exactly that run. */
  lemma {:induction false} DigitRunOf(d: string, rest: string)
    requires forall i :: 0 <= i < |d| ==> IsDigit(d[i])
    requires rest == [] || !IsDigit(rest[0])
    ensures DigitRun(d + rest) == |d|
    decreases |d|
  {
    if |d| > 0 {
      assert (d + rest)[1..] == d[1..] + rest;
      DigitRunOf(d[1..], rest);
    }
  }

  // ---------------------------------------------------------------------
  // list.index

  /** Python's `xs.index(x)`: the first position of `x`, or None (ValueError). */
  function IndexOf<T(==)>(xs: seq<T>, x: T): (r: Option<nat>)
    ensures r.Some? ==> r.value < |xs| && xs[r.value] == x
    ensures r.Some? ==> forall j :: 0 <= j < r.value ==> xs[j] != x
    ensures r.None? <==> x !in xs
  {
    if |xs| == 0 then None
    else if xs[0] == x then Some(0)
    else
      var r := IndexOf(xs[1..], x);
      assert x in xs[1..] ==> x in xs;
      assert x in xs && xs[0] != x ==> x in xs[1..];
      if r.None? then None else Some(r.value + 1)
  }

  // ---------------------------------------------------------------------
  // Sequence steps used by loop invariants

  lemma PrefixStep<T>(s: seq<T>, j: nat)
    requires j < |s|
    ensures s[..j + 1] == s[..j] + [s[j]]
  {
  }

  lemma EmptyLeft<T>(s: seq<T>)
    ensures [] + s == s
  {
  }

  lemma SliceAfter<T>(a: seq<T>, t: seq<T>, i: nat, j: nat)
    requires i <= j <= |t|
    ensures (a + t)[|a| + i..|a| + j] == t[i..j]
  {
  }

  lemma FullPrefix<T>(s: seq<T>)
    ensures s[..|s|] == s
  {
  }

  lemma TakeTake<T>(s: seq<T>, j: nat)
    requires j < |s|
    ensures s[..j + 1][..j] == s[..j] && s[..j + 1][j] == s[j]
  {
  }

  lemma Assoc<T>(a: seq<T>, b: seq<T>, c: seq<T>)
    ensures a + b + c == a + (b + c)
  {
  }

  /** Dropping the last element of `a + b` drops the last element of `b`. */
  lemma LastOfConcat<T>(a: seq<T>, b: seq<T>)
    requires |b| > 0
    ensures (a + b)[..|a + b| - 1] == a + b[..|b| - 1] && (a + b)[|a + b| - 1] == b[|b| - 1]
  {
  }

  /** A sequence is what comes before position `i`, the element there, and the rest. */
  lemma Around<T>(s: seq<T>, i: nat)
    requires i < |s|
    ensures s == s[..i] + ([s[i]] + s[i + 1..])
  {
  }

  /** Moving the middle of a concatenation from one group to the next. */
  lemma Regroup<T>(a: seq<T>, b: seq<T>, c: seq<T>, d: seq<T>)
    ensures a + (b + c) + d == a + b + (c + d)
  {
  }
  lemma CutAt<T>(s: seq<T>, i: nat) requires i <= |s| ensures s[..i] + s[i..] == s { }
  lemma TailOf<T>(s: seq<T>, i: nat) requires i < |s| ensures s[i..][0] == s[i] && s[i..][1..] == s[i + 1..] { }
  lemma DropOne<T>(a: seq<T>, s: seq<T>) requires |a| > 0
    ensures (a + s)[0] == a[0] && (a + s)[1..] == a[1..] + s && [a[0]] + a[1..] == a { }
}
