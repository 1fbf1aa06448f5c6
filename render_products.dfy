/**
 * Render output naming for a render layer: token detection, camera-name
 * sanitising, the AOV separator found between the layer and AOV tokens of
 * a file prefix, the per-renderer prefix rules, the expected file
 * sequence (one name per camera and frame) and the MayaHardware extension
 * table.  Maya attribute queries are parameters.
 */
module RenderProducts {
  import opened Strs

  // ---------------------------------------------------------------------
  // Case-insensitive literal tokens

  /** `s` starts with `t` when ASCII case is ignored (an `re.IGNORECASE` literal). */
  predicate TokenAt(s: string, t: string) {
    |t| <= |s| && Lower(s[..|t|]) == Lower(t)
  }

  /** Some token starts at `s`; the alternation of no tokens is `()`, which matches the empty text. */
  predicate AnyTokenAt(s: string, tokens: seq<string>) {
    |tokens| == 0 || exists k :: 0 <= k < |tokens| && TokenAt(s, tokens[k])
  }

  /** `re.search` of the token alternation: tried at every position, the end included. */
  predicate SearchTokens(s: string, tokens: seq<string>)
    decreases |s|
  {
    AnyTokenAt(s, tokens) || (|s| > 0 && SearchTokens(s[1..], tokens))
  }

  /** `has_tokens`. */
  predicate HasTokens(s: string, tokens: seq<string>) {
    SearchTokens(s, tokens)
  }

  lemma TokenAtLower(s: string, t: string)
    ensures TokenAt(s, t) <==> StartsWith(Lower(s), Lower(t))
  {
    if |t| <= |s| {
      assert Lower(s)[..|t|] == Lower(s[..|t|]);
    }
  }

  /**
   * `has_tokens` holds exactly when some token occurs in the text, case
   * ignored; an empty token list matches every text.
   */
  lemma {:induction false} HasTokensIff(s: string, tokens: seq<string>)
    ensures HasTokens(s, tokens) <==>
      |tokens| == 0 || exists k :: 0 <= k < |tokens| && Contains(Lower(s), Lower(tokens[k]))
    decreases |s|
  {
    if |s| > 0 {
      HasTokensIff(s[1..], tokens);
      assert Lower(s[1..]) == Lower(s)[1..];
    }
    forall k | 0 <= k < |tokens|
      ensures Contains(Lower(s), Lower(tokens[k])) <==>
        TokenAt(s, tokens[k]) || (|s| > 0 && Contains(Lower(s[1..]), Lower(tokens[k])))
    {
      TokenAtLower(s, tokens[k]);
    }
  }

  // ---------------------------------------------------------------------
  // Camera names

  predicate IsWordChar(c: char) {
    IsAsciiAlnum(c) || c == '_'
  }

  predicate AllWord(s: string) {
    forall i :: 0 <= i < |s| ==> IsWordChar(s[i])
  }

  /** Length of the run of characters outside `[0-9a-zA-Z_]` that starts `s`. */
  function NonWordRun(s: string): (n: nat)
    ensures n <= |s|
    ensures forall i :: 0 <= i < n ==> !IsWordChar(s[i])
    ensures n < |s| ==> IsWordChar(s[n])
    decreases |s|
  {
    if |s| == 0 || IsWordChar(s[0]) then 0 else 1 + NonWordRun(s[1..])
  }

  /** `sanitize_camera_name`: every maximal run outside `[0-9a-zA-Z_]` becomes one `_`. */
  function SanitizeCameraName(camera: string): (r: string)
    ensures AllWord(r)
    ensures |r| <= |camera|
    decreases |camera|
  {
    if |camera| == 0 then ""
    else if IsWordChar(camera[0]) then [camera[0]] + SanitizeCameraName(camera[1..])
    else "_" + SanitizeCameraName(camera[NonWordRun(camera)..])
  }

  /** A name is left as it is exactly when it is made of word characters only. */
  lemma {:induction false} SanitizeFixed(camera: string)
    ensures SanitizeCameraName(camera) == camera <==> AllWord(camera)
    decreases |camera|
  {
    if |camera| > 0 {
      SanitizeFixed(camera[1..]);
      if !IsWordChar(camera[0]) {
        assert SanitizeCameraName(camera)[0] == '_';
        assert camera[0] != '_';
      }
    }
  }

  lemma SanitizeIdempotent(camera: string)
    ensures SanitizeCameraName(SanitizeCameraName(camera)) == SanitizeCameraName(camera)
  {
    SanitizeFixed(SanitizeCameraName(camera));
  }

  lemma {:induction false} SanitizeWordPrefix(a: string, rest: string)
    requires AllWord(a)
    ensures SanitizeCameraName(a + rest) == a + SanitizeCameraName(rest)
    decreases |a|
  {
    if |a| > 0 {
      assert (a + rest)[0] == a[0] && IsWordChar(a[0]);
      assert (a + rest)[1..] == a[1..] + rest;
      SanitizeWordPrefix(a[1..], rest);
      assert SanitizeCameraName(a + rest) == [a[0]] + (a[1..] + SanitizeCameraName(rest));
      assert a == [a[0]] + a[1..];
    } else {
      assert a + rest == rest;
    }
  }

  /** One run of illegal characters between two legal names, as in `test:camera_01`. */
  lemma SanitizeOneRun(a: string, run: string, b: string)
    requires AllWord(a) && AllWord(b) && |run| > 0
    requires forall i :: 0 <= i < |run| ==> !IsWordChar(run[i])
    ensures SanitizeCameraName(a + run + b) == a + "_" + b
  {
    SanitizeWordPrefix(a, run + b);
    assert a + run + b == a + (run + b);
    var s := run + b;
    assert NonWordRun(s) == |run| by {
      assert forall i :: 0 <= i < |run| ==> s[i] == run[i];
      if |run| < |s| {
        assert s[|run|] == b[0];
      }
    }
    assert s[|run|..] == b;
    SanitizeFixed(b);
  }

  // ---------------------------------------------------------------------
  // Token substitution in the file prefix

  /** Alternatives of a pattern: none of them empty. */
  type Alternatives = alts: seq<string> | forall k :: 0 <= k < |alts| ==> |alts[k]| > 0

  /** The regular expressions the prefix is rewritten with. */
  datatype Pattern =
      /** An alternation of literal tokens, tried in order. */
    | Alts(alts: Alternatives)
      /** `\.?<f\d>\.?` */
    | FrameToken
      /** `\.?<ext>\.?` */
    | ExtToken


  /** Length of the first alternative that matches at the start of `s`, 0 for none. */
  function AltMatch(s: string, alts: Alternatives): (n: nat)
    ensures n <= |s|
  {
    if |alts| == 0 then 0
    else if TokenAt(s, alts[0]) then |alts[0]|
    else AltMatch(s, alts[1..])
  }

  /** A match has the length of a matching alternative; there is none when none matches. */
  lemma {:induction false} AltMatchSpec(s: string, alts: Alternatives)
    ensures AltMatch(s, alts) > 0 ==>
      exists k :: 0 <= k < |alts| && AltMatch(s, alts) == |alts[k]| && TokenAt(s, alts[k])
    ensures AltMatch(s, alts) == 0 <==> forall k :: 0 <= k < |alts| ==> !TokenAt(s, alts[k])
  {
    if |alts| > 0 && !TokenAt(s, alts[0]) {
      AltMatchSpec(s, alts[1..]);
      assert forall k :: 1 <= k < |alts| ==> alts[k] == alts[1..][k - 1];
      if AltMatch(s, alts) > 0 {
        var k :| 0 <= k < |alts[1..]| && AltMatch(s, alts) == |alts[1..][k]| && TokenAt(s, alts[1..][k]);
        assert alts[1..][k] == alts[k + 1];
      }
    }
  }

  /** The token a `\.?…\.?` pattern is built around, matched at the start of `s`. */
  function CoreLen(p: Pattern, s: string): (n: nat)
    requires !p.Alts?
    ensures n <= |s|
  {
    if p.FrameToken? then
      if TokenAt(s, "<f") && |s| >= 4 && IsDigit(s[2]) && s[3] == '>' then 4 else 0
    else
      if TokenAt(s, "<ext>") then 5 else 0
  }

  /** Length of the match of `p` at the start of `s`, 0 for none; optional dots are greedy. */
  function MatchLen(p: Pattern, s: string): (n: nat)
    ensures n <= |s|
  {
    match p
    case Alts(alts) => AltMatch(s, alts)
    case _ =>
      var lead := if |s| > 0 && s[0] == '.' && CoreLen(p, s[1..]) > 0 then 1 else 0;
      var core := CoreLen(p, s[lead..]);
      if core == 0 then 0
      else
        var end := lead + core;
        end + if end < |s| && s[end] == '.' then 1 else 0
  }

  /** `re.sub(p, v, s)`: leftmost, non-overlapping matches replaced by `v`. */
  function Sub(p: Pattern, s: string, v: string): string
    decreases |s|
  {
    if |s| == 0 then ""
    else
      var n := MatchLen(p, s);
      if n > 0 then v + Sub(p, s[n..], v) else [s[0]] + Sub(p, s[1..], v)
  }

  /** Text in which the pattern matches nowhere is left unchanged. */
  lemma {:induction false} SubUnchanged(p: Pattern, s: string, v: string)
    requires forall i :: 0 <= i < |s| ==> MatchLen(p, s[i..]) == 0
    ensures Sub(p, s, v) == s
    decreases |s|
  {
    if |s| > 0 {
      assert MatchLen(p, s[0..]) == 0 && s[0..] == s;
      forall i | 0 <= i < |s[1..]|
        ensures MatchLen(p, s[1..][i..]) == 0
      {
        assert s[1..][i..] == s[i + 1..];
      }
      SubUnchanged(p, s[1..], v);
    }
  }

  /** A match at the front is replaced by `v` and scanning resumes after it. */
  lemma SubFront(p: Pattern, t: string, rest: string, v: string)
    requires |t| > 0 && MatchLen(p, t + rest) == |t|
    ensures Sub(p, t + rest, v) == v + Sub(p, rest, v)
  {
    assert (t + rest)[|t|..] == rest;
  }

  /** A difference at one position, case ignored, rules a token out. */
  lemma TokenDiffers(s: string, t: string, m: nat)
    requires m < |t| && m < |s| && LowerChar(s[m]) != LowerChar(t[m])
    ensures !TokenAt(s, t)
  {
    if |t| <= |s| {
      assert Lower(s[..|t|])[m] == LowerChar(s[m]);
    }
  }

  /** A text that equals the token up to case, followed by anything, matches it. */
  lemma TokenFront(t: string, rest: string, tok: string)
    requires Lower(t) == Lower(tok)
    ensures TokenAt(t + rest, tok)
  {
    assert (t + rest)[..|t|] == t;
  }

  /** The first alternative that matches is the one taken. */
  lemma {:induction false} AltMatchFirst(s: string, alts: Alternatives, k: nat)
    requires k < |alts| && TokenAt(s, alts[k])
    requires forall j :: 0 <= j < k ==> !TokenAt(s, alts[j])
    ensures AltMatch(s, alts) == |alts[k]|
    decreases k
  {
    if k > 0 {
      assert !TokenAt(s, alts[0]);
      AltMatchFirst(s, alts[1..], k - 1);
    }
  }

  const SceneToken := Alts(["%s", "<scene>"])
  const LayerToken := Alts(["%l", "<layer>", "<renderlayer>"])
  const CameraToken := Alts(["%c", "<camera>"])
  const AovToken := Alts(["%a", "<aov>", "<renderpass>"])
  const RemoveAovToken := Alts(["_%a", ".%a", "_<aov>", ".<aov>", "_<renderpass>", ".<renderpass>"])

  /** A `<scene>` / `%s` token in any case is replaced by the scene name. */
  lemma SceneSubstituted(t: string, rest: string, scene: string)
    requires Lower(t) == "%s" || Lower(t) == "<scene>"
    ensures Sub(SceneToken, t + rest, scene) == scene + Sub(SceneToken, rest, scene)
  {
    var s := t + rest;
    var alts := SceneToken.alts;
    assert s[0] == t[0] && Lower(t)[0] == LowerChar(t[0]);
    if Lower(t) == "%s" {
      TokenFront(t, rest, alts[0]);
      AltMatchFirst(s, alts, 0);
    } else {
      TokenDiffers(s, alts[0], 0);
      TokenFront(t, rest, alts[1]);
      AltMatchFirst(s, alts, 1);
    }
    SubFront(SceneToken, t, rest, scene);
  }

  /** A layer token in any case is replaced by the layer name. */
  lemma LayerSubstituted(t: string, rest: string, layer: string)
    requires Lower(t) == "%l" || Lower(t) == "<layer>" || Lower(t) == "<renderlayer>"
    ensures Sub(LayerToken, t + rest, layer) == layer + Sub(LayerToken, rest, layer)
  {
    var s := t + rest;
    var alts := LayerToken.alts;
    assert s[0] == t[0] && Lower(t)[0] == LowerChar(t[0]);
    if Lower(t) == "%l" {
      TokenFront(t, rest, alts[0]);
      AltMatchFirst(s, alts, 0);
    } else if Lower(t) == "<layer>" {
      TokenDiffers(s, alts[0], 0);
      TokenFront(t, rest, alts[1]);
      AltMatchFirst(s, alts, 1);
    } else {
      TokenDiffers(s, alts[0], 0);
      assert s[1] == t[1] && Lower(t)[1] == LowerChar(t[1]);
      TokenDiffers(s, alts[1], 1);
      TokenFront(t, rest, alts[2]);
      AltMatchFirst(s, alts, 2);
    }
    SubFront(LayerToken, t, rest, layer);
  }

  /** Without a forced AOV name, `_` or `.` followed by an AOV token is removed with it. */
  lemma AovTokenRemoved(c: char, t: string, rest: string)
    requires c == '_' || c == '.'
    requires Lower(t) == "%a" || Lower(t) == "<aov>" || Lower(t) == "<renderpass>"
    ensures Sub(RemoveAovToken, [c] + t + rest, "") == Sub(RemoveAovToken, rest, "")
  {
    var u := [c] + t;
    var k := AovAltChosen(c, t, rest);
    AltMatchFirst(u + rest, RemoveAovToken.alts, k);
    SubFront(RemoveAovToken, u, rest, "");
  }

  /** The alternative `c` + token is the first of the six to match `c` + `t` + `rest`. */
  lemma AovAltChosen(c: char, t: string, rest: string) returns (k: nat)
    requires c == '_' || c == '.'
    requires Lower(t) == "%a" || Lower(t) == "<aov>" || Lower(t) == "<renderpass>"
    ensures k < |RemoveAovToken.alts| && |RemoveAovToken.alts[k]| == 1 + |t|
    ensures TokenAt([c] + t + rest, RemoveAovToken.alts[k])
    ensures forall j :: 0 <= j < k ==> !TokenAt([c] + t + rest, RemoveAovToken.alts[j])
  {
    var u := [c] + t;
    var s := u + rest;
    var alts := RemoveAovToken.alts;
    k := AovAltIndex(c, t);
    TokenFront(u, rest, alts[k]);
    assert s[0] == c && s[1] == t[0] && Lower(t)[0] == LowerChar(t[0]);
    assert k >= 4 ==> s[2] == t[1] && Lower(t)[1] == LowerChar(t[1]);
    forall j | 0 <= j < k
      ensures !TokenAt(s, alts[j])
    {
      if alts[j][0] != c {
        TokenDiffers(s, alts[j], 0);
      } else if j / 2 < k / 2 - 1 || k < 4 {
        TokenDiffers(s, alts[j], 1);
      } else {
        TokenDiffers(s, alts[j], 2);
      }
    }
  }

  /** Which of the six alternatives spells `c` + `t`, case ignored. */
  lemma AovAltIndex(c: char, t: string) returns (k: nat)
    requires c == '_' || c == '.'
    requires Lower(t) == "%a" || Lower(t) == "<aov>" || Lower(t) == "<renderpass>"
    ensures k < |RemoveAovToken.alts| && Lower([c] + t) == Lower(RemoveAovToken.alts[k])
    ensures k % 2 == (if c == '_' then 0 else 1)
    ensures Lower(t) == (if k < 2 then "%a" else if k < 4 then "<aov>" else "<renderpass>")
  {
    var alts := RemoveAovToken.alts;
    assert Lower([c]) == [c];
    if Lower(t) == "%a" {
      k := if c == '_' then 0 else 1;
    } else if Lower(t) == "<aov>" {
      k := if c == '_' then 2 else 3;
    } else {
      k := if c == '_' then 4 else 5;
    }
    assert alts[k] == [c] + Lower(t);
    LowerConcat([c], t);
    LowerConcat([c], Lower(t));
    LowerIdempotent(t);
  }

  /** An unfilled `<fN>` token is removed together with one dot on each side. */
  lemma FrameTokenRemoved(f: char, d: char, rest: string)
    requires LowerChar(f) == 'f' && IsDigit(d)
    ensures Sub(FrameToken, ['.', '<', f, d, '>', '.'] + rest, "") == Sub(FrameToken, rest, "")
  {
    var t := ['.', '<', f, d, '>', '.'];
    var s := t + rest;
    var s1 := s[1..];
    assert s1[..2] == ['<', f];
    assert Lower(['<', f]) == ['<', 'f'] by {
      assert Lower(['<', f])[0] == '<' && Lower(['<', f])[1] == 'f';
    }
    assert Lower("<f") == ['<', 'f'] by {
      assert Lower("<f")[0] == '<' && Lower("<f")[1] == 'f';
    }
    assert TokenAt(s1, "<f");
    assert s1[2] == d && s1[3] == '>';
    assert CoreLen(FrameToken, s1) == 4;
    assert s[5] == '.';
    assert MatchLen(FrameToken, s) == 6;
    SubFront(FrameToken, t, rest, "");
  }

  // ---------------------------------------------------------------------
  // The AOV separator

  const LayerTokens: Alternatives := ["<renderlayer>", "<layer>"]
  const AovTokens: Alternatives := ["<aov>", "<renderpass>"]

  /**
   * The last position at or below `i` where some token matches, with the
   * end of that match (the group of `(?:.*)(t1|t2)`).
   */
  function LastMatchBelow(s: string, alts: Alternatives, i: nat): (r: Option<(nat, nat)>)
    requires i <= |s|
    ensures r.None? ==> forall j :: 0 <= j <= i ==> AltMatch(s[j..], alts) == 0
    ensures r.Some? ==> r.value.0 <= i && r.value.0 < r.value.1 <= |s|
    ensures r.Some? ==> r.value.1 == r.value.0 + AltMatch(s[r.value.0..], alts)
    ensures r.Some? ==> forall j :: r.value.0 < j <= i ==> AltMatch(s[j..], alts) == 0
    decreases i
  {
    var n := AltMatch(s[i..], alts);
    if n > 0 then Some((i, i + n))
    else if i == 0 then None
    else LastMatchBelow(s, alts, i - 1)
  }

  function LastMatch(s: string, alts: Alternatives): Option<(nat, nat)>
  {
    LastMatchBelow(s, alts, |s|)
  }

  /** Python's `s[i:j]` for `0 <= i, j <= |s|`: empty when `j < i`. */
  function Slice(s: string, i: nat, j: nat): string
    requires i <= |s| && j <= |s|
  {
    if i <= j then s[i..j] else ""
  }

  /**
   * `extract_separator`: the text between the last layer token and the last
   * AOV token (whichever ends first comes first), or None when either is absent.
   */
  function ExtractSeparator(prefix: string): Option<string> {
    SeparatorOf(prefix, LayerTokens, AovTokens)
  }

  /** The separator between the last match of `layer` and the last match of `aov`. */
  function SeparatorOf(prefix: string, layer: Alternatives, aov: Alternatives): Option<string> {
    var l := LastMatch(prefix, layer);
    var a := LastMatch(prefix, aov);
    if l.None? || a.None? then None
    else if l.value.1 <= a.value.1 then Some(Slice(prefix, l.value.1, a.value.0))
    else Some(Slice(prefix, a.value.1, l.value.0))
  }

  /** No separator exactly when the prefix lacks a layer token or an AOV token. */
  lemma SeparatorNone(prefix: string)
    ensures ExtractSeparator(prefix).None? <==>
      (forall j :: 0 <= j <= |prefix| ==> AltMatch(prefix[j..], LayerTokens) == 0)
      || (forall j :: 0 <= j <= |prefix| ==> AltMatch(prefix[j..], AovTokens) == 0)
  {
  }

  /** Both token lists start every token with `<`, so a match needs a `<` there. */
  lemma MatchNeedsAngle(s: string, alts: Alternatives)
    requires forall k :: 0 <= k < |alts| ==> alts[k][0] == '<'
    requires AltMatch(s, alts) > 0
    ensures |s| > 0 && s[0] == '<'
  {
    AltMatchSpec(s, alts);
    var k :| 0 <= k < |alts| && TokenAt(s, alts[k]);
    assert Lower(s[..|alts[k]|])[0] == Lower(alts[k])[0];
  }

  /** No alternative matches at any position of `s` after `p`. */
  predicate NoMatchAfter(s: string, alts: Alternatives, p: nat) {
    forall j :: p < j <= |s| ==> AltMatch(s[j..], alts) == 0
  }

  /** The last match is at `i` when one starts there and none starts after it. */
  lemma LastMatchIs(s: string, alts: Alternatives, i: nat)
    requires i <= |s| && AltMatch(s[i..], alts) > 0
    requires NoMatchAfter(s, alts, i)
    ensures LastMatch(s, alts) == Some((i, i + AltMatch(s[i..], alts)))
  {
    var r := LastMatch(s, alts);
    if r.Some? {
      assert !(r.value.0 < i);
    }
  }

  /** A match found in a text stays the last one after any text is put before it. */
  lemma LastMatchShift(a: string, t: string, alts: Alternatives, p: nat, n: nat)
    requires p <= |t| && n > 0 && AltMatch(t[p..], alts) == n
    requires NoMatchAfter(t, alts, p)
    ensures LastMatch(a + t, alts) == Some((|a| + p, |a| + p + n))
  {
    var s := a + t;
    assert s[|a| + p..] == t[p..];
    forall j | |a| + p < j <= |s|
      ensures AltMatch(s[j..], alts) == 0
    {
      assert s[j..] == t[j - |a|..];
    }
    LastMatchIs(s, alts, |a| + p);
  }

  /** Positions without a `<` cannot start a layer or an AOV token. */
  lemma NoAngleNoMatch(s: string, alts: Alternatives, j: nat)
    requires forall k :: 0 <= k < |alts| ==> alts[k][0] == '<'
    requires j <= |s| && (j == |s| || s[j] != '<')
    ensures AltMatch(s[j..], alts) == 0
  {
    if AltMatch(s[j..], alts) > 0 {
      MatchNeedsAngle(s[j..], alts);
    }
  }

  /** In `<RenderLayer>` + sep + `<RenderPass>`, the only layer token is the first. */
  lemma TailLayer(sep: string)
    requires '<' !in sep
    ensures var t := "<RenderLayer>" + sep + "<RenderPass>";
      AltMatch(t[0..], LayerTokens) == 13 && NoMatchAfter(t, LayerTokens, 0)
  {
    var t := "<RenderLayer>" + sep + "<RenderPass>";
    var m := 13 + |sep|;
    assert t[0..][..13] == "<RenderLayer>";
    assert TokenAt(t[0..], LayerTokens[0]);
    AltMatchFirst(t[0..], LayerTokens, 0);
    assert t[m..] == "<RenderPass>";
    forall j | 0 < j <= |t|
      ensures AltMatch(t[j..], LayerTokens) == 0
    {
      if j == m {
        assert t[m..][1] == 'R' && t[m..][7] == 'P';
        TokenDiffers(t[m..], LayerTokens[0], 7);
        TokenDiffers(t[m..], LayerTokens[1], 1);
        AltMatchSpec(t[m..], LayerTokens);
      } else {
        assert j == |t| || t[j] != '<' by {
          if j < 13 {
            assert t[j] == "<RenderLayer>"[j];
          } else if j < m {
            assert t[j] == sep[j - 13];
          } else if j < |t| {
            assert t[j] == "<RenderPass>"[j - m];
          }
        }
        NoAngleNoMatch(t, LayerTokens, j);
      }
    }
  }

  /** In `<RenderLayer>` + sep + `<RenderPass>`, the last AOV token is `<RenderPass>`. */
  lemma TailAov(sep: string)
    ensures var t := "<RenderLayer>" + sep + "<RenderPass>";
      var m := 13 + |sep|;
      AltMatch(t[m..], AovTokens) == 12 && NoMatchAfter(t, AovTokens, m)
  {
    var t := "<RenderLayer>" + sep + "<RenderPass>";
    var m := 13 + |sep|;
    assert t[m..] == "<RenderPass>";
    assert t[m..][1] == 'R';
    TokenDiffers(t[m..], AovTokens[0], 1);
    assert TokenAt(t[m..], AovTokens[1]);
    AltMatchFirst(t[m..], AovTokens, 1);
    forall j | m < j <= |t|
      ensures AltMatch(t[j..], AovTokens) == 0
    {
      assert j == |t| || t[j] != '<' by {
        if j < |t| {
          assert t[j] == "<RenderPass>"[j - m];
        }
      }
      NoAngleNoMatch(t, AovTokens, j);
    }
  }

  /**
   * With the layer token and the AOV token last in the prefix, joined by a
   * separator free of `<`, that separator is what is extracted; the Arnold
   * default `<Scene>/<RenderLayer>/<RenderLayer>_<RenderPass>` gives `_`.
   */
  lemma SeparatorBetween(a: string, sep: string)
    requires '<' !in sep
    ensures ExtractSeparator(a + ("<RenderLayer>" + sep + "<RenderPass>")) == Some(sep)
  {
    var t := "<RenderLayer>" + sep + "<RenderPass>";
    var m := 13 + |sep|;
    TailLayer(sep);
    TailAov(sep);
    ShiftedSeparator(a, t, 0, 13, m, 12);
    assert t[13..m] == sep;
  }

  /** The separator found in `a + t` when `t` holds the last layer and AOV tokens. */
  lemma ShiftedSeparator(a: string, t: string, lp: nat, ln: nat, ap: nat, an: nat)
    requires lp + ln <= ap && ap + an <= |t| && ln > 0 && an > 0
    requires AltMatch(t[lp..], LayerTokens) == ln
    requires NoMatchAfter(t, LayerTokens, lp)
    requires AltMatch(t[ap..], AovTokens) == an
    requires NoMatchAfter(t, AovTokens, ap)
    ensures ExtractSeparator(a + t) == Some(t[lp + ln..ap])
  {
    LastMatchShift(a, t, LayerTokens, lp, ln);
    LastMatchShift(a, t, AovTokens, ap, an);
    ShiftedSeparatorOf(a, t, LayerTokens, AovTokens, lp, ln, ap, an);
  }

  lemma ShiftedSeparatorOf(a: string, t: string, layer: Alternatives, aov: Alternatives,
                           lp: nat, ln: nat, ap: nat, an: nat)
    requires lp + ln <= ap && ap + an <= |t|
    requires LastMatch(a + t, layer) == Some((|a| + lp, |a| + lp + ln))
    requires LastMatch(a + t, aov) == Some((|a| + ap, |a| + ap + an))
    ensures SeparatorOf(a + t, layer, aov) == Some(t[lp + ln..ap])
  {
    ExtractFromMatches(a + t, layer, aov, |a| + lp, |a| + lp + ln, |a| + ap, |a| + ap + an);
    SliceAfter(a, t, lp + ln, ap);
  }

  lemma ExtractFromMatches(s: string, layer: Alternatives, aov: Alternatives,
                            li: nat, le: nat, ai: nat, ae: nat)
    requires LastMatch(s, layer) == Some((li, le))
    requires LastMatch(s, aov) == Some((ai, ae))
    requires le <= ai <= ae <= |s|
    ensures SeparatorOf(s, layer, aov) == Some(s[le..ai])
  {
  }

  // ---------------------------------------------------------------------
  // The expected file sequence

  /** Python's `range(start, stop, step)` for a non-zero step. */
  function FrameRange(start: int, stop: int, step: int): (r: seq<int>)
    requires step != 0
    decreases if step > 0 then stop - start else start - stop
  {
    if (step > 0 && start < stop) || (step < 0 && start > stop) then
      [start] + FrameRange(start + step, stop, step)
    else []
  }

  /** The frames of a range are `start + i*step`, all before `stop`, ascending for a positive step. */
  lemma {:induction false} FrameRangeElements(start: int, stop: int, step: int)
    requires step != 0
    ensures forall i :: 0 <= i < |FrameRange(start, stop, step)| ==>
      FrameRange(start, stop, step)[i] == start + i * step
      && (step > 0 ==> FrameRange(start, stop, step)[i] < stop)
      && (step < 0 ==> FrameRange(start, stop, step)[i] > stop)
    decreases if step > 0 then stop - start else start - stop
  {
    var r := FrameRange(start, stop, step);
    if |r| > 0 {
      FrameRangeElements(start + step, stop, step);
      forall i | 0 < i < |r|
        ensures r[i] == start + i * step
      {
        assert r[i] == FrameRange(start + step, stop, step)[i - 1];
        assert (start + step) + (i - 1) * step == start + i * step;
      }
    }
  }

  /** Everything `_generate_file_sequence` reads from the layer. */
  datatype LayerData = LayerData(
    frameStart: int, frameEnd: int, frameStep: int, padding: int,
    cameras: seq<string>, sceneName: string, layerName: string,
    defaultExt: string, filePrefix: string)

  /** The prefix after all six substitutions for one camera. */
  function ResolvedPrefix(layer: LayerData, cam: string, forceAov: string): string {
    var p1 := Sub(SceneToken, layer.filePrefix, layer.sceneName);
    var p2 := Sub(LayerToken, p1, layer.layerName);
    var p3 := Sub(CameraToken, p2, SanitizeCameraName(cam));
    var p4 := if forceAov == "" then Sub(RemoveAovToken, p3, "") else Sub(AovToken, p3, forceAov);
    var p5 := Sub(FrameToken, p4, "");
    Sub(ExtToken, p5, "")
  }

  /** `str(frame).rjust(padding, "0")`; a negative width pads nothing. */
  function FrameText(frame: int, padding: int): string {
    RJust(IntToStr(frame), if padding < 0 then 0 else padding, '0')
  }

  function FileName(prefix: string, frame: int, padding: int, ext: string): string {
    prefix + "." + FrameText(frame, padding) + "." + ext
  }

  /** One name per frame, in order. */
  function FileNames(prefix: string, frames: seq<int>, padding: int, ext: string): (r: seq<string>)
    ensures |r| == |frames|
    ensures forall i :: 0 <= i < |frames| ==> r[i] == FileName(prefix, frames[i], padding, ext)
  {
    seq(|frames|, i requires 0 <= i < |frames| => FileName(prefix, frames[i], padding, ext))
  }

  /** All names for one camera, frames in range order. */
  function CameraFiles(layer: LayerData, cam: string, forceAov: string, ext: string): (r: seq<string>)
    requires layer.frameStep != 0
    ensures |r| == |FrameRange(layer.frameStart, layer.frameEnd + 1, layer.frameStep)|
  {
    FileNames(ResolvedPrefix(layer, cam, forceAov), FrameRange(layer.frameStart, layer.frameEnd + 1, layer.frameStep),
      layer.padding, ext)
  }

  /** The names for a list of cameras: cameras outermost, in order. */
  function FileSequence(layer: LayerData, cams: seq<string>, forceAov: string, ext: string): seq<string>
    requires layer.frameStep != 0
    decreases |cams|
  {
    if |cams| == 0 then []
    else FileSequence(layer, cams[..|cams| - 1], forceAov, ext) + CameraFiles(layer, cams[|cams| - 1], forceAov, ext)
  }

  /** There is one name per camera and frame. */
  lemma {:induction false} FileSequenceLength(layer: LayerData, cams: seq<string>, forceAov: string, ext: string)
    requires layer.frameStep != 0
    ensures |FileSequence(layer, cams, forceAov, ext)|
      == |cams| * |FrameRange(layer.frameStart, layer.frameEnd + 1, layer.frameStep)|
    decreases |cams|
  {
    if |cams| > 0 {
      var n := |FrameRange(layer.frameStart, layer.frameEnd + 1, layer.frameStep)|;
      FileSequenceLength(layer, cams[..|cams| - 1], forceAov, ext);
      assert (|cams| - 1) * n + n == |cams| * n;
    }
  }

  /** The names for two camera lists in a row are the two sequences in a row. */
  lemma {:induction false} FileSequenceConcat(layer: LayerData, a: seq<string>, b: seq<string>, forceAov: string, ext: string)
    requires layer.frameStep != 0
    ensures FileSequence(layer, a + b, forceAov, ext)
      == FileSequence(layer, a, forceAov, ext) + FileSequence(layer, b, forceAov, ext)
    decreases |b|
  {
    if |b| == 0 {
      assert a + b == a;
    } else {
      var b0 := b[..|b| - 1];
      var x := b[|b| - 1];
      assert (a + b)[..|a + b| - 1] == a + b0;
      assert (a + b)[|a + b| - 1] == x;
      FileSequenceConcat(layer, a, b0, forceAov, ext);
      Assoc(FileSequence(layer, a, forceAov, ext), FileSequence(layer, b0, forceAov, ext), CameraFiles(layer, x, forceAov, ext));
    }
  }

  /**
   * Cameras are the outer loop: camera `c`'s names come right after those of
   * the `c` cameras before it, that is at offset `c * F` for `F` frames.
   */
  lemma FileSequenceCamera(layer: LayerData, cams: seq<string>, forceAov: string, ext: string, c: nat)
    requires layer.frameStep != 0 && c < |cams|
    ensures FileSequence(layer, cams, forceAov, ext)
      == FileSequence(layer, cams[..c], forceAov, ext) + CameraFiles(layer, cams[c], forceAov, ext)
        + FileSequence(layer, cams[c + 1..], forceAov, ext)
    ensures |FileSequence(layer, cams[..c], forceAov, ext)|
      == c * |FrameRange(layer.frameStart, layer.frameEnd + 1, layer.frameStep)|
  {
    assert cams == cams[..c] + [cams[c]] + cams[c + 1..];
    FileSequenceConcat(layer, cams[..c] + [cams[c]], cams[c + 1..], forceAov, ext);
    FileSequenceConcat(layer, cams[..c], [cams[c]], forceAov, ext);
    assert [cams[c]][..0] == [];
    assert FileSequence(layer, [cams[c]], forceAov, ext) == CameraFiles(layer, cams[c], forceAov, ext);
    FileSequenceLength(layer, cams[..c], forceAov, ext);
  }

  /** The inner loop: one name per frame for one camera's resolved prefix. */
  method AppendCameraFiles(expected: seq<string>, layer: LayerData, cam: string, forceAov: string, ext: string)
    returns (r: seq<string>)
    requires layer.frameStep != 0
    ensures r == expected + CameraFiles(layer, cam, forceAov, ext)
  {
    var frames := FrameRange(layer.frameStart, layer.frameEnd + 1, layer.frameStep);
    var prefix := ResolvedPrefix(layer, cam, forceAov);
    ghost var files := FileNames(prefix, frames, layer.padding, ext);
    r := expected;
    for f := 0 to |frames|
      invariant r == expected + files[..f]
    {
      var name := FileName(prefix, frames[f], layer.padding, ext);
      assert files[f] == name;
      PrefixStep(files, f);
      Assoc(expected, files[..f], [name]);
      r := r + [name];
    }
    FullPrefix(files);
  }

  /**
   * `_generate_file_sequence`: None when the range is invalid (a zero step)
   * and some camera makes Python build it; the forced cameras and extension
   * win when non-empty.
   */
  method GenerateFileSequence(layer: LayerData, forceAov: string, forceExt: string, forceCameras: seq<string>)
    returns (files: Option<seq<string>>)
    ensures var cams := if |forceCameras| > 0 then forceCameras else layer.cameras;
      files.None? <==> |cams| > 0 && layer.frameStep == 0
    ensures var cams := if |forceCameras| > 0 then forceCameras else layer.cameras;
      var ext := if forceExt != "" then forceExt else layer.defaultExt;
      files.Some? && layer.frameStep != 0 ==> files.value == FileSequence(layer, cams, forceAov, ext)
    ensures files.Some? && layer.frameStep == 0 ==> files.value == []
  {
    var cameras := if |forceCameras| > 0 then forceCameras else layer.cameras;
    var ext := if forceExt != "" then forceExt else layer.defaultExt;
    if |cameras| > 0 && layer.frameStep == 0 {
      return None;
    }
    if |cameras| == 0 {
      return Some([]);
    }
    var expected: seq<string> := [];
    for c := 0 to |cameras|
      invariant expected == FileSequence(layer, cameras[..c], forceAov, ext)
    {
      TakeTake(cameras, c);
      expected := AppendCameraFiles(expected, layer, cameras[c], forceAov, ext);
    }
    FullPrefix(cameras);
    return Some(expected);
  }

  // ---------------------------------------------------------------------
  // Renderers and their prefixes

  datatype Renderer = Arnold | Vray | Redshift | Renderman | MayaHardware

  function RendererName(r: Renderer): string {
    match r
    case Arnold => "arnold"
    case Vray => "vray"
    case Redshift => "redshift"
    case Renderman => "renderman"
    case MayaHardware => "mayahardware2"
  }

  /** `get`: the render products class for the layer's current renderer, case ignored. */
  function RendererFor(name: string): (r: Option<Renderer>) {
    var n := Lower(name);
    if n == "arnold" then Some(Arnold)
    else if n == "vray" then Some(Vray)
    else if n == "redshift" then Some(Redshift)
    else if n == "renderman" then Some(Renderman)
    else if n == "mayahardware2" then Some(MayaHardware)
    else None
  }

  /** `IMAGE_PREFIXES`: the attribute holding each renderer's image prefix. */
  function ImagePrefixAttr(renderer: string): Option<string> {
    if renderer == "vray" then Some("vraySettings.fileNamePrefix")
    else if renderer == "arnold" then Some("defaultRenderGlobals.imageFilePrefix")
    else if renderer == "renderman" then Some("rmanGlobals.imageFileFormat")
    else if renderer == "redshift" then Some("defaultRenderGlobals.imageFilePrefix")
    else if renderer == "mayahardware2" then Some("defaultRenderGlobals.imageFilePrefix")
    else None
  }

  /**
   * The dispatch accepts exactly the five renderer names in any case, and
   * every class it picks has an image prefix attribute, so the base
   * prefix lookup never fails after a successful dispatch.
   */
  lemma RendererDispatch(name: string)
    ensures RendererFor(name).Some? <==>
      exists r: Renderer :: Lower(name) == RendererName(r)
    ensures RendererFor(name).Some? ==>
      Lower(name) == RendererName(RendererFor(name).value)
      && ImagePrefixAttr(RendererName(RendererFor(name).value)).Some?
  {
    forall r: Renderer | Lower(name) == RendererName(r)
      ensures RendererFor(name) == Some(r)
    {
      match r
      case Arnold =>
      case Vray =>
      case Redshift =>
      case Renderman =>
      case MayaHardware =>
    }
  }

  /**
   * `ARenderProducts.get_renderer_prefix`: None (UnsupportedRendererException)
   * for a renderer without a prefix attribute; an unset or empty attribute
   * falls back to `<Scene>`.
   */
  function BasePrefix(renderer: string, attrValue: Option<string>): (r: Option<string>)
    ensures r.None? <==> ImagePrefixAttr(renderer).None?
    ensures r.Some? ==> r.value != ""
    ensures r.Some? && attrValue.Some? && attrValue.value != "" ==> r.value == attrValue.value
  {
    if ImagePrefixAttr(renderer).None? then None
    else if attrValue.None? || attrValue.value == "" then Some("<Scene>")
    else attrValue
  }

  /** Arnold prepends `<RenderPass>/` when AOVs are not merged and the token is missing. */
  function ArnoldPrefix(prefix: string, mergeAovs: bool): string {
    if !mergeAovs && !Contains(Lower(prefix), "<renderpass>") then "<RenderPass>/" + prefix else prefix
  }

  /** V-Ray appends its render-element separator and `<aov>` unless multipart. */
  function VrayPrefix(prefix: string, multipart: bool, separator: string): string {
    if multipart then prefix else prefix + separator + "<aov>"
  }

  /** Redshift appends the extracted separator (or `_`) and `<aov>` unless multipart. */
  function RedshiftPrefix(prefix: string, multipart: bool): string {
    if multipart then prefix
    else
      var sep := ExtractSeparator(prefix);
      prefix + (if sep.None? || sep.value == "" then "_" else sep.value) + "<aov>"
  }

  /**
   * With AOVs not merged, Arnold's prefix always names the render pass, and
   * applying the rule again changes nothing.
   */
  lemma ArnoldPrefixHasPass(prefix: string, mergeAovs: bool)
    ensures !mergeAovs ==> Contains(Lower(ArnoldPrefix(prefix, mergeAovs)), "<renderpass>")
    ensures ArnoldPrefix(ArnoldPrefix(prefix, mergeAovs), mergeAovs) == ArnoldPrefix(prefix, mergeAovs)
  {
    if !mergeAovs && !Contains(Lower(prefix), "<renderpass>") {
      var r := "<RenderPass>/" + prefix;
      LowerConcat("<RenderPass>/", prefix);
      assert Lower("<RenderPass>/") == "<renderpass>/";
      assert StartsWith(Lower(r), "<renderpass>") by {
        assert Lower(r)[..12] == Lower("<RenderPass>/")[..12];
      }
    }
  }

  /** A non-multipart V-Ray or Redshift prefix ends with `<aov>`; a multipart one is kept. */
  lemma AovSuffixRules(prefix: string, multipart: bool, separator: string)
    ensures !multipart ==> EndsWith(VrayPrefix(prefix, multipart, separator), "<aov>")
    ensures !multipart ==> EndsWith(RedshiftPrefix(prefix, multipart), "<aov>")
    ensures multipart ==> VrayPrefix(prefix, multipart, separator) == prefix && RedshiftPrefix(prefix, multipart) == prefix
  {
    if !multipart {
      var v := VrayPrefix(prefix, multipart, separator);
      assert v[|v| - 5..] == "<aov>";
      var r := RedshiftPrefix(prefix, multipart);
      assert r[|r| - 5..] == "<aov>";
    }
  }

  /** Redshift's `get_files` rewrites the Beauty path tokens to scene and layer tokens. */
  const BeautyTokens := "<BeautyPath>/<BeautyFile>"
  const SceneLayerTokens := "<Scene>/<RenderLayer>/<RenderLayer>"

  /** A render product: its name, extension, camera, driver node and multipart flag. */
  datatype Product = Product(productName: string, ext: string, camera: string, driver: string, multipart: bool)

  /** The render products of one layer, whose layer data Redshift overwrites. */
  class RedshiftProducts {
    var layerData: LayerData

    constructor(layer: LayerData)
      ensures layerData == layer
    {
      layerData := layer;
    }

    /**
     * `RenderProductsRedshift.get_files`: for a separate (non-multipart)
     * AOV with a driver, the layer's file prefix becomes the driver's
     * prefix with the Beauty tokens rewritten; the files are then the
     * sequence for that product's camera, AOV name and extension.
     */
    method GetFiles(product: Product, driverPrefix: string) returns (files: Option<seq<string>>)
      modifies this
      ensures !product.multipart && product.driver != "" ==>
        layerData == old(layerData).(filePrefix := Replace(driverPrefix, BeautyTokens, SceneLayerTokens))
      ensures product.multipart || product.driver == "" ==> layerData == old(layerData)
      ensures files.None? <==> layerData.frameStep == 0
      ensures files.Some? ==>
        files.value == FileSequence(layerData, [product.camera], product.productName,
          if product.ext != "" then product.ext else layerData.defaultExt)
    {
      if !product.multipart && product.driver != "" {
        layerData := layerData.(filePrefix := Replace(driverPrefix, BeautyTokens, SceneLayerTokens));
      }
      files := GenerateFileSequence(layerData, product.productName, product.ext, [product.camera]);
    }
  }

  /** The Redshift rewrite leaves a prefix without the Beauty tokens untouched. */
  lemma RedshiftRewriteFree(prefix: string)
    requires !Contains(prefix, BeautyTokens)
    ensures Replace(prefix, BeautyTokens, SceneLayerTokens) == prefix
  {
    ReplaceFree(prefix, BeautyTokens, SceneLayerTokens);
  }

  // ---------------------------------------------------------------------
  // MayaHardware extensions

  /** The image format value: an int index, a string label, or anything else. */
  datatype FormatValue = FormatIndex(i: int) | FormatLabel(s: string) | FormatOther

  /** `RenderProductsMayaHardware._get_extension`; None is NotImplementedError. */
  function GetExtension(value: FormatValue): (r: Option<string>)
    ensures r.Some? ==> r.value in {"jpg", "png", "exr"}
  {
    match value
    case FormatIndex(i) =>
      if i == 8 then Some("jpg") else if i == 32 then Some("png") else if i == 40 then Some("exr") else None
    case FormatLabel(s) =>
      if s == "JPEG" then Some("jpg") else if s == "PNG" then Some("png") else if s == "EXR(exr)" then Some("exr") else None
    case FormatOther => None
  }

  /** Index and label name the same extension; nothing else has one. */
  lemma ExtensionTable(value: FormatValue)
    ensures GetExtension(FormatIndex(8)) == GetExtension(FormatLabel("JPEG")) == Some("jpg")
    ensures GetExtension(FormatIndex(32)) == GetExtension(FormatLabel("PNG")) == Some("png")
    ensures GetExtension(FormatIndex(40)) == GetExtension(FormatLabel("EXR(exr)")) == Some("exr")
    ensures GetExtension(value).Some? <==>
      value in {FormatIndex(8), FormatIndex(32), FormatIndex(40),
                FormatLabel("JPEG"), FormatLabel("PNG"), FormatLabel("EXR(exr)")}
  {
  }
}
