/**
 * The look collector's pure helpers: reading an attribute list from the
 * file-node tables, deciding whether a file node reads an image sequence,
 * turning a sequence path into a glob, and the data collected per member
 * of a look set.
 */
module CollectLook {
  import opened Strs
  import opened PyData
  import opened PosixPath

  // ---------------------------------------------------------------------
  // get_attributes

  /** An entry of the file-node tables: a fixed value or a function of the node. */
  datatype AttrSource = Fixed(value: Value) | Computed(f: string -> Value)

  /**
   * `get_attributes(dictionary, attr, node)`: always a list.  The entry is
   * looked up with `dictionary[attr]` first, so a missing entry raises
   * KeyError and the `.get(attr, [])` fallback is never reached.
   */
  function GetAttributes(dictionary: map<string, AttrSource>, attr: string, node: string): (r: Result<seq<Value>>)
    ensures r.Err? <==> attr !in dictionary
    ensures r.Ok? ==> var v := Produced(dictionary[attr], node);
                      (v.VList? ==> r.value == v.items) && (!v.VList? ==> r.value == [v])
  {
    if attr !in dictionary then Err("KeyError: '" + attr + "'")
    else
      var val := Produced(dictionary[attr], node);
      if val.VList? then Ok(val.items) else Ok([val])
  }

  /** The value of a table entry for a node. */
  function Produced(src: AttrSource, node: string): Value {
    match src
    case Fixed(v) => v
    case Computed(f) => f(node)
  }

  /** A single value is wrapped into a one-item list; a list comes back as it is. */
  lemma GetAttributesWraps(dictionary: map<string, AttrSource>, attr: string, node: string)
    requires attr in dictionary && !Produced(dictionary[attr], node).VList?
    ensures GetAttributes(dictionary, attr, node) == Ok([Produced(dictionary[attr], node)])
    ensures |GetAttributes(dictionary, attr, node).value| == 1
  {
  }

  // ---------------------------------------------------------------------
  // node_uses_image_sequence

  /** The path tokens that imply an image sequence. */
  const SequenceTokens: seq<string> := ["<udim>", "<tile>", "<uvtile>", "u<u>_v<v>", "<frame0", "<f4>"]

  /**
   * `node_uses_image_sequence`: true when the node's `useFrameExtension`
   * is on (False when the attribute is missing), otherwise when the
   * lowercased path holds one of the sequence tokens.
   */
  predicate UsesImageSequence(useFrameExtension: bool, path: string) {
    useFrameExtension || exists i :: 0 <= i < |SequenceTokens| && Contains(Lower(path), SequenceTokens[i])
  }

  /** A UDIM path is a sequence whatever the case of the token. */
  lemma UdimPathIsSequence(a: string, t: string, b: string)
    requires Lower(t) == "<udim>"
    ensures UsesImageSequence(false, a + t + b)
  {
    LowerConcat(a + t, b);
    LowerConcat(a, t);
    assert Lower(a + t + b) == Lower(a) + "<udim>" + Lower(b);
    ContainsAt(Lower(a + t + b), "<udim>", |a|);
    assert Contains(Lower(a + t + b), SequenceTokens[0]);
  }

  /** Without frame extension and without `<` in the path there is no sequence. */
  lemma PlainPathNoSequence(path: string)
    requires '<' !in path
    ensures !UsesImageSequence(false, path)
  {
    LowerKeepsOut(path, '<');
    forall i | 0 <= i < |SequenceTokens|
      ensures !Contains(Lower(path), SequenceTokens[i])
    {
      var t := SequenceTokens[i];
      var k := if t[0] == '<' then 0 else 1;
      assert t[k] == '<';
      NotContainsChar(Lower(path), t, k);
    }
  }

  /** `lower` only changes `A`..`Z`, so other characters are absent after it when absent before. */
  lemma LowerKeepsOut(s: string, c: char)
    requires c !in s && !('a' <= c <= 'z')
    ensures c !in Lower(s)
  {
  }

  /** A string does not hold a text with a character it lacks. */
  lemma NotContainsChar(s: string, sub: string, k: nat)
    requires k < |sub| && sub[k] !in s
    ensures !Contains(s, sub)
  {
    if Contains(s, sub) {
      var i := ContainsWitness(s, sub);
    }
  }

  // ---------------------------------------------------------------------
  // seq_to_glob: the token substitutions

  /** The regular expressions of the pattern table. */
  datatype Regex =
    | Lit(text: string)   // the text itself, ignoring case
    | UOrV                // `<u>|<v>`, ignoring case
    | FrameNum            // `<frame0\d+>`, ignoring case

  /** The pattern table of `seq_to_glob`, in order: the text looked for in the lowered path, and the regex replaced. */
  const GlobPatterns: seq<(string, Regex)> := [
    ("<udim>", Lit("<udim>")),
    ("<tile>", Lit("<tile>")),
    ("<uvtile>", Lit("<uvtile>")),
    ("#", Lit("#")),
    ("u<u>_v<v>", UOrV),
    ("<frame0", FrameNum),
    ("<f>", Lit("<f>"))
  ]

  /** Case-insensitive comparison of the start of `s` with a lower-case text. */
  predicate StartsWithCI(s: string, t: string) {
    |s| >= |t| && Lower(s[..|t|]) == t
  }

  /** The length of the regex's match at the start of `s`; 0 when there is none (no match is empty). */
  function MatchLen(re: Regex, s: string): (n: nat)
    ensures n <= |s|
  {
    match re
    case Lit(t) => if |t| > 0 && StartsWithCI(s, t) then |t| else 0
    case UOrV => if StartsWithCI(s, "<u>") || StartsWithCI(s, "<v>") then 3 else 0
    case FrameNum =>
      if StartsWithCI(s, "<frame0") then
        var k := DigitRun(s[7..]);
        if k > 0 && 7 + k < |s| && s[7 + k] == '>' then 8 + k else 0
      else 0
  }

  /** `re.sub(regex, "*", s, flags=re.IGNORECASE)`: every leftmost match, scanning on, becomes `*`. */
  function Sub(re: Regex, s: string): string
    decreases |s|
  {
    if |s| == 0 then ""
    else
      var n := MatchLen(re, s);
      if n > 0 then "*" + Sub(re, s[n..]) else [s[0]] + Sub(re, s[1..])
  }

  /** The character every match of the regex starts with, after lowering. */
  function FirstChar(re: Regex): char {
    match re
    case Lit(t) => if |t| > 0 then t[0] else '<'
    case UOrV => '<'
    case FrameNum => '<'
  }

  lemma MatchStartsWith(re: Regex, s: string)
    requires MatchLen(re, s) > 0
    ensures LowerChar(s[0]) == FirstChar(re)
  {
    match re
    case Lit(t) => assert Lower(s[..|t|])[0] == t[0];
    case UOrV => assert Lower(s[..3])[0] == '<';
    case FrameNum => assert Lower(s[..7])[0] == '<';
  }

  /** Text without the regex's first character passes through untouched. */
  lemma {:induction false} SubPrefixFree(re: Regex, a: string, s: string)
    requires forall i :: 0 <= i < |a| ==> LowerChar(a[i]) != FirstChar(re)
    ensures Sub(re, a + s) == a + Sub(re, s)
    decreases |a|
  {
    if |a| > 0 {
      DropOne(a, s);
      NoMatchAt(re, a + s);
      SubPrefixFree(re, a[1..], s);
      Assoc([a[0]], a[1..], Sub(re, s));
    } else {
      EmptyLeft(s);
      EmptyLeft(Sub(re, s));
    }
  }

  /** No match starts at a character other than the regex's first one. */
  lemma NoMatchAt(re: Regex, s: string)
    requires |s| > 0 && LowerChar(s[0]) != FirstChar(re)
    ensures Sub(re, s) == [s[0]] + Sub(re, s[1..])
  {
    if MatchLen(re, s) > 0 {
      MatchStartsWith(re, s);
    }
  }

  lemma SubFree(re: Regex, s: string)
    requires forall i :: 0 <= i < |s| ==> LowerChar(s[i]) != FirstChar(re)
    ensures Sub(re, s) == s
  {
    SubPrefixFree(re, s, "");
    assert s + "" == s;
  }

  /** What the token passes make of `path`: the first `n` table rows whose text occurs in `lower`. */
  function TokenPass(path: string, lower: string, n: nat): string
    requires n <= |GlobPatterns|
  {
    if n == 0 then path
    else
      var p := TokenPass(path, lower, n - 1);
      if Contains(lower, GlobPatterns[n - 1].0) then Sub(GlobPatterns[n - 1].1, p) else p
  }

  /** Whether one of the first `n` table texts occurs in `lower`. */
  predicate AnyToken(lower: string, n: nat)
    requires n <= |GlobPatterns|
  {
    exists i :: 0 <= i < n && Contains(lower, GlobPatterns[i].0)
  }

  // ---------------------------------------------------------------------
  // seq_to_glob: the frame number of the basename

  /** The end of the last digit run among the first `n` characters; 0 when there is none. */
  function DigitEndBelow(s: string, n: nat): (e: nat)
    requires n <= |s|
    ensures e <= n
    ensures e > 0 ==> IsDigit(s[e - 1]) && forall j :: e <= j < n ==> !IsDigit(s[j])
    ensures e == 0 ==> forall j :: 0 <= j < n ==> !IsDigit(s[j])
  {
    if n == 0 then 0 else if IsDigit(s[n - 1]) then n else DigitEndBelow(s, n - 1)
  }

  /** The start of the digit run that ends at `e`. */
  function DigitStart(s: string, e: nat): (b: nat)
    requires e <= |s|
    ensures b <= e
    ensures forall j :: b <= j < e ==> IsDigit(s[j])
    ensures b == 0 || !IsDigit(s[b - 1])
  {
    if e == 0 || !IsDigit(s[e - 1]) then e else DigitStart(s, e - 1)
  }

  /** The basename with its last run of digits replaced by `*`; unchanged when it has no digit. */
  function GlobBase(base: string): string {
    var e := DigitEndBelow(base, |base|);
    if e == 0 then base
    else
      var b := DigitStart(base, e);
      base[..b] + "*" + base[e..]
  }

  /** The digit branch of `seq_to_glob`. */
  function GlobDigits(path: string): string {
    var base := Basename(path);
    if DigitEndBelow(base, |base|) == 0 then path
    else PathJoin(Dirname(path), GlobBase(base))
  }

  /** `seq_to_glob(path)`. */
  function SeqToGlobSpec(path: Option<string>): (r: Option<string>)
    ensures r.None? <==> path.None?
  {
    match path
    case None => None
    case Some(p) =>
      var lower := Lower(p);
      if AnyToken(lower, |GlobPatterns|) then Some(TokenPass(p, lower, |GlobPatterns|))
      else Some(GlobDigits(p))
  }

  /** `seq_to_glob`: the loop over the pattern table, then the digit branch. */
  method SeqToGlob(path: Option<string>) returns (r: Option<string>)
    ensures r == SeqToGlobSpec(path)
  {
    if path.None? {
      return None;
    }
    var p := path.value;
    var lower := Lower(p);
    var hasPattern := false;
    var i := 0;
    while i < |GlobPatterns|
      invariant 0 <= i <= |GlobPatterns|
      invariant p == TokenPass(path.value, lower, i)
      invariant hasPattern <==> AnyToken(lower, i)
    {
      var (pattern, regex) := GlobPatterns[i];
      if Contains(lower, pattern) {
        p := Sub(regex, p);
        hasPattern := true;
      }
      i := i + 1;
    }
    if hasPattern {
      return Some(p);
    }
    return Some(GlobDigits(path.value));
  }

  /** `seq_to_glob(None)` is None. */
  lemma SeqToGlobNone()
    ensures SeqToGlobSpec(None) == None
  {
  }

  /** No character of `s` lowers to `<` or `#`, so no token pass changes it. */
  predicate TokenFree(s: string) {
    forall i :: 0 <= i < |s| ==> s[i] != '<' && s[i] != '#'
  }

  lemma {:induction false} TokenPassFree(path: string, lower: string, n: nat)
    requires n <= |GlobPatterns| && TokenFree(path)
    ensures TokenPass(path, lower, n) == path
  {
    if n > 0 {
      TokenPassFree(path, lower, n - 1);
      var re := GlobPatterns[n - 1].1;
      assert FirstChar(re) == '<' || FirstChar(re) == '#';
      SubFree(re, path);
    }
  }

  /** The passes after the first leave a token-free text alone. */
  lemma {:induction false} TokenPassAfterFirst(path: string, lower: string, n: nat)
    requires 1 <= n <= |GlobPatterns| && TokenFree(TokenPass(path, lower, 1))
    ensures TokenPass(path, lower, n) == TokenPass(path, lower, 1)
  {
    if n > 1 {
      TokenPassAfterFirst(path, lower, n - 1);
      var re := GlobPatterns[n - 1].1;
      assert FirstChar(re) == '<' || FirstChar(re) == '#';
      SubFree(re, TokenPass(path, lower, 1));
    }
  }

  lemma TokenFreeLowered(s: string)
    requires TokenFree(s)
    ensures forall i :: 0 <= i < |s| ==> LowerChar(s[i]) != '<' && LowerChar(s[i]) != '#'
  {
  }

  /**
   * A UDIM token, in any case, between token-free text becomes `*` and
   * the digits around it are left alone: `texture.<UDIM>.tif` gives
   * `texture.*.tif`.
   */
  lemma UdimGlob(a: string, t: string, b: string)
    requires Lower(t) == "<udim>" && TokenFree(a) && TokenFree(b)
    ensures SeqToGlobSpec(Some(a + t + b)) == Some(a + "*" + b)
  {
    var path := a + t + b;
    UdimFound(a, t, b);
    UdimFirstPass(a, t, b);
    TokenPassAfterFirst(path, Lower(path), |GlobPatterns|);
  }

  lemma UdimFound(a: string, t: string, b: string)
    requires Lower(t) == "<udim>"
    ensures AnyToken(Lower(a + t + b), |GlobPatterns|) && Contains(Lower(a + t + b), "<udim>")
  {
    var lower := Lower(a + t + b);
    LowerConcat(a + t, b);
    LowerConcat(a, t);
    ContainsAt(lower, "<udim>", |a|);
    assert Contains(lower, GlobPatterns[0].0);
  }

  /** The UDIM pass turns the token into `*`. */
  lemma UdimFirstPass(a: string, t: string, b: string)
    requires Lower(t) == "<udim>" && TokenFree(a) && TokenFree(b)
    requires Contains(Lower(a + t + b), "<udim>")
    ensures TokenPass(a + t + b, Lower(a + t + b), 1) == a + "*" + b
    ensures TokenFree(a + "*" + b)
  {
    var re := Lit("<udim>");
    TokenFreeLowered(a);
    TokenFreeLowered(b);
    assert a + t + b == a + (t + b);
    SubPrefixFree(re, a, t + b);
    assert (t + b)[..6] == t;
    assert (t + b)[6..] == b;
    assert MatchLen(re, t + b) == 6;
    SubFree(re, b);
    assert Sub(re, t + b) == "*" + b;
    Assoc(a, "*", b);
  }

  /** The docstring's example, `/path/to/texture.<UDIM>.tif`. */
  lemma UdimExample()
    ensures SeqToGlobSpec(Some("/path/to/texture." + "<UDIM>" + ".tif")) == Some("/path/to/texture." + "*" + ".tif")
  {
    UdimGlob("/path/to/texture.", "<UDIM>", ".tif");
  }

  /** No table text occurs in a path without `<` and `#`. */
  lemma NoTokenIn(path: string)
    requires TokenFree(path)
    ensures !AnyToken(Lower(path), |GlobPatterns|)
  {
    LowerKeepsOut(path, '<');
    LowerKeepsOut(path, '#');
    forall i | 0 <= i < |GlobPatterns|
      ensures !Contains(Lower(path), GlobPatterns[i].0)
    {
      var t := GlobPatterns[i].0;
      var k := if t[0] == 'u' then 1 else 0;
      assert t[k] == '<' || t[k] == '#';
      NotContainsChar(Lower(path), t, k);
    }
  }

  /** The last digit run of `pre + d + post` is `d` when `post` has no digit and `pre` does not end in one. */
  lemma GlobBaseDigits(pre: string, d: string, post: string)
    requires |d| > 0 && forall j :: 0 <= j < |d| ==> IsDigit(d[j])
    requires forall j :: 0 <= j < |post| ==> !IsDigit(post[j])
    requires pre == "" || !IsDigit(pre[|pre| - 1])
    ensures GlobBase(pre + d + post) == pre + "*" + post
    ensures DigitEndBelow(pre + d + post, |pre + d + post|) > 0
  {
    DigitEndOf(pre, d, post);
    DigitStartOf(pre, d, post);
    Pieces(pre, d, post);
  }

  /** The last digit run of `pre + d + post` ends where `d` does. */
  lemma DigitEndOf(pre: string, d: string, post: string)
    requires |d| > 0 && IsDigit(d[|d| - 1])
    requires forall j :: 0 <= j < |post| ==> !IsDigit(post[j])
    ensures DigitEndBelow(pre + d + post, |pre + d + post|) == |pre| + |d|
  {
    var base := pre + d + post;
    var e := DigitEndBelow(base, |base|);
    assert base[|pre| + |d| - 1] == d[|d| - 1];
    assert forall j :: |pre| + |d| <= j < |base| ==> base[j] == post[j - |pre| - |d|];
  }

  /** The digit run ending with `d` starts where `d` does. */
  lemma DigitStartOf(pre: string, d: string, post: string)
    requires forall j :: 0 <= j < |d| ==> IsDigit(d[j])
    requires pre == "" || !IsDigit(pre[|pre| - 1])
    ensures DigitStart(pre + d + post, |pre| + |d|) == |pre|
  {
    var base := pre + d + post;
    assert forall j :: |pre| <= j < |pre| + |d| ==> base[j] == d[j - |pre|];
    assert |pre| > 0 ==> base[|pre| - 1] == pre[|pre| - 1];
  }

  /** The three pieces of `a + b + c` by position. */
  lemma Pieces<T>(a: seq<T>, b: seq<T>, c: seq<T>)
    ensures (a + b + c)[..|a|] == a && (a + b + c)[|a| + |b|..] == c
  { }

  /**
   * Without tokens, the last run of digits in the basename becomes `*` and
   * the directory is kept: `dir/file.1001.exr` gives `dir/file.*.exr`.
   */
  lemma DigitGlob(dir: string, pre: string, d: string, post: string)
    requires |d| > 0 && forall j :: 0 <= j < |d| ==> IsDigit(d[j])
    requires forall j :: 0 <= j < |post| ==> !IsDigit(post[j])
    requires pre == "" || !IsDigit(pre[|pre| - 1])
    requires '/' !in pre && '/' !in d && '/' !in post
    requires dir == "" || dir[|dir| - 1] != '/'
    requires TokenFree(dir + "/" + (pre + d + post))
    ensures SeqToGlobSpec(Some(dir + "/" + (pre + d + post))) == Some(dir + "/" + (pre + "*" + post))
  {
    var base := pre + d + post;
    NoTokenSpec(dir + "/" + base);
    GlobBaseDigits(pre, d, post);
    GlobDigitsAt(dir, base);
    JoinAfterDir(dir, pre + "*" + post);
  }

  /** The digit branch on `dir/base` rewrites the basename only. */
  lemma GlobDigitsAt(dir: string, base: string)
    requires '/' !in base
    requires dir == "" || dir[|dir| - 1] != '/'
    requires DigitEndBelow(base, |base|) > 0
    ensures GlobDigits(dir + "/" + base) == PathJoin(if dir == "" then "/" else dir, GlobBase(base))
  {
    SplitPathAt(dir, base);
  }

  /** Without tokens only the digit branch applies. */
  lemma NoTokenSpec(path: string)
    requires TokenFree(path)
    ensures SeqToGlobSpec(Some(path)) == Some(GlobDigits(path))
  {
    NoTokenIn(path);
  }

  /** A relative name without tokens gets its last digit run replaced and nothing else. */
  lemma DigitGlobName(pre: string, d: string, post: string)
    requires |d| > 0 && forall j :: 0 <= j < |d| ==> IsDigit(d[j])
    requires forall j :: 0 <= j < |post| ==> !IsDigit(post[j])
    requires pre == "" || !IsDigit(pre[|pre| - 1])
    requires '/' !in pre + d + post && TokenFree(pre + d + post)
    ensures SeqToGlobSpec(Some(pre + d + post)) == Some(pre + "*" + post)
  {
    var path := pre + d + post;
    NoTokenSpec(path);
    GlobBaseDigits(pre, d, post);
    assert LastIndex(path, '/') == -1;
    assert path[..0] == "";
    assert path[0..] == path;
    assert Basename(path) == path && Dirname(path) == "";
    EmptyLeft(pre + "*" + post);
  }

  /** The docstring's example, `/path/to/file.1001.exr`. */
  lemma DigitExample()
    ensures SeqToGlobSpec(Some("/path/to" + "/" + ("file." + "1001" + ".exr"))) == Some("/path/to" + "/" + ("file." + "*" + ".exr"))
  {
    DigitGlob("/path/to", "file.", "1001", ".exr");
  }

  /** A path with neither a token nor a digit is returned as it is. */
  lemma PlainPathUnchanged(path: string)
    requires TokenFree(path) && forall j :: 0 <= j < |path| ==> !IsDigit(path[j])
    ensures SeqToGlobSpec(Some(path)) == Some(path)
  {
    NoTokenSpec(path);
    var base := Basename(path);
    assert forall j :: 0 <= j < |base| ==> base[j] == path[LastIndex(path, '/') + 1 + j];
  }

  // ---------------------------------------------------------------------
  // collect_member_data

  /** `member.rsplit(".", 1) + [None]`, first two: the node and its component part, if any. */
  function SplitMember(member: string): (string, Option<string>) {
    if LastIndex(member, '.') < 0 then (member, None)
    else (BeforeLast(member, '.'), Some(AfterLast(member, '.')))
  }

  /**
   * `collect_member_data`: None for a node outside the instance or without
   * an id; otherwise its name and id, and the component part when there
   * is a non-empty one.  `getId` stands for `lib.get_id`.
   */
  function CollectMemberData(member: string, members: set<string>, getId: string -> Option<string>): (r: Option<Entries<Value>>)
    ensures var (node, comp) := SplitMember(member);
            (r.None? <==> node !in members || getId(node).None? || getId(node) == Some(""))
            && (r.Some? ==> Get(r.value, "name") == Some(VStr(node)) && Get(r.value, "uuid") == Some(VStr(getId(node).value))
                            && (HasKey(r.value, "components") <==> comp.Some? && comp.value != ""))
  {
    var (node, comp) := SplitMember(member);
    if node !in members then None
    else
      var id := getId(node);
      if id.None? || id.value == "" then None
      else
        var data := [("name", VStr(node)), ("uuid", VStr(id.value))];
        assert data[..1] == [("name", VStr(node))];
        assert Get(data, "name") == Some(VStr(node)) && Get(data, "uuid") == Some(VStr(id.value));
        if comp.Some? && comp.value != "" then
          GetPut(data, "components", VStr(comp.value), "name");
          GetPut(data, "components", VStr(comp.value), "uuid");
          GetPut(data, "components", VStr(comp.value), "components");
          Some(Put(data, "components", VStr(comp.value)))
        else
          assert !HasKey(data, "components");
          Some(data)
  }

  /** The member name is the node followed by `.` and the component part, when there is one. */
  lemma SplitMemberJoin(member: string)
    ensures var (node, comp) := SplitMember(member);
            (comp.None? ==> node == member && '.' !in member)
            && (comp.Some? ==> node + "." + comp.value == member && '.' !in comp.value)
  {
    if LastIndex(member, '.') >= 0 {
      RSplitJoin(member, '.');
      AfterLastFree(member, '.');
    }
  }
}
