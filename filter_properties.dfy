/**
 * The USD export chaser that filters property specs by name
 * (`api/chasers/export_filter_properties.py`) and the collector that turns
 * it on (`plugins/publish/collect_maya_usd_export_filter_properties.py`).
 *
 * A text pattern is a list of space-separated sub-patterns read left to
 * right.  Each sub-pattern is a whole-name glob in the sense of Python's
 * `fnmatch.translate`; one starting with `^` excludes.  The flag starts
 * false, a matching include sets it, a matching exclude clears it, and an
 * include is not even tried while the flag is set.
 */
module FilterProperties {
  import opened Strs
  import opened PyData

  // ---------------------------------------------------------------------
  // Globs

  /** One element of a glob as `fnmatch.translate` reads it. */
  datatype Token =
    | Star
    | AnyChar
    | Lit(c: char)
      /** `[...]` or `[!...]`: inclusive character ranges, a single character being a range of one. */
    | Class(negated: bool, ranges: seq<(char, char)>)

  /** Where the body of a class opened by `p[0] == '['` starts: after a `!`. */
  function ClassStart(p: string): nat {
    if |p| > 1 && p[1] == '!' then 2 else 1
  }

  /**
   * One past the `]` that closes the class opened by `p[0] == '['`, or 0
   * when nothing closes it (the `[` is then literal).  A `]` right after
   * `[` or `[!` belongs to the body.
   */
  function ClassEnd(p: string): (j: nat)
    requires |p| > 0 && p[0] == '['
    ensures j == 0 || (ClassStart(p) < j <= |p| && p[j - 1] == ']')
  {
    var a := ClassStart(p);
    var b := if |p| > a && p[a] == ']' then a + 1 else a;
    var k := FindFrom(p, ']', b);
    if k < 0 then 0 else k + 1
  }

  /** The ranges of a class body: `x-y` is a range, any other character stands for itself. */
  function ClassRanges(body: string): (r: seq<(char, char)>)
    decreases |body|
  {
    if |body| == 0 then []
    else if |body| >= 3 && body[1] == '-' then [(body[0], body[2])] + ClassRanges(body[3..])
    else [(body[0], body[0])] + ClassRanges(body[1..])
  }

  function Tokens(p: string): seq<Token>
    decreases |p|
  {
    if |p| == 0 then []
    else if p[0] == '*' then [Star] + Tokens(p[1..])
    else if p[0] == '?' then [AnyChar] + Tokens(p[1..])
    else if p[0] == '[' && ClassEnd(p) > 0 then
      var j := ClassEnd(p);
      [Class(ClassStart(p) == 2, ClassRanges(p[ClassStart(p)..j - 1]))] + Tokens(p[j..])
    else [Lit(p[0])] + Tokens(p[1..])
  }

  predicate InRanges(c: char, ranges: seq<(char, char)>) {
    exists i :: 0 <= i < |ranges| && ranges[i].0 <= c <= ranges[i].1
  }

  /** Whether a token other than `*` accepts the character `c`. */
  predicate CharMatches(t: Token, c: char) {
    match t
    case Star => true
    case AnyChar => true
    case Lit(d) => c == d
    case Class(negated, ranges) => InRanges(c, ranges) != negated
  }

  /** The whole of `s` is matched by the tokens (`re.match` of a pattern ending in `\Z`). */
  predicate Matches(toks: seq<Token>, s: string)
    decreases |toks|, |s|
  {
    if |toks| == 0 then |s| == 0
    else if toks[0].Star? then Matches(toks[1..], s) || (|s| > 0 && Matches(toks, s[1..]))
    else |s| > 0 && CharMatches(toks[0], s[0]) && Matches(toks[1..], s[1..])
  }

  /** `re.match(fnmatch.translate(glob), name)` succeeds. */
  predicate GlobMatch(glob: string, name: string) {
    Matches(Tokens(glob), name)
  }

  // ---------------------------------------------------------------------
  // match_pattern

  /** A sub-pattern after `strip(" ")`. */
  function Trimmed(piece: string): string {
    Strip(piece, {' '})
  }

  /** The flag after one sub-pattern of the loop in `match_pattern`. */
  function Step(isMatch: bool, piece: string, name: string): bool {
    var p := Trimmed(piece);
    if p == "" then isMatch
    else
      var excludes := p[0] == '^';
      if isMatch && !excludes then isMatch
      else
        var glob := if excludes then p[1..] else p;
        if GlobMatch(glob, name) then !excludes else isMatch
  }

  /** The flag after the sub-patterns in order. */
  function Fold(isMatch: bool, pieces: seq<string>, name: string): bool
    decreases |pieces|
  {
    if |pieces| == 0 then isMatch else Fold(Step(isMatch, pieces[0], name), pieces[1..], name)
  }

  /** What `match_pattern(name, text_pattern)` returns. */
  function PatternMatches(name: string, textPattern: string): bool {
    Fold(false, Split(textPattern, ' '), name)
  }

  /** `match_pattern`: the loop over the sub-patterns with its `continue`s. */
  method MatchPattern(name: string, textPattern: string) returns (isMatch: bool)
    ensures isMatch == PatternMatches(name, textPattern)
  {
    var patterns := Split(textPattern, ' ');
    isMatch := false;
    var i := 0;
    while i < |patterns|
      invariant 0 <= i <= |patterns|
      invariant Fold(isMatch, patterns[i..], name) == PatternMatches(name, textPattern)
    {
      assert patterns[i..][1..] == patterns[i + 1..];
      var pattern := Strip(patterns[i], {' '});
      i := i + 1;
      if pattern == "" {
        continue;
      }
      var excludes := pattern[0] == '^';
      if isMatch && !excludes {
        continue;
      }
      if excludes {
        pattern := pattern[1..];
      }
      if GlobMatch(pattern, name) {
        isMatch := !excludes;
      }
    }
  }

  // ---------------------------------------------------------------------
  // What a text pattern decides

  /** The sub-pattern is an include whose glob matches `name`. */
  predicate IncludeHit(piece: string, name: string) {
    var p := Trimmed(piece);
    p != "" && p[0] != '^' && GlobMatch(p, name)
  }

  /** The sub-pattern is an exclude whose glob matches `name`. */
  predicate ExcludeHit(piece: string, name: string) {
    var p := Trimmed(piece);
    p != "" && p[0] == '^' && GlobMatch(p[1..], name)
  }

  /** The flag is cleared by a hitting exclude, else set by a hitting include. */
  lemma StepCases(isMatch: bool, piece: string, name: string)
    ensures Step(isMatch, piece, name)
      == if ExcludeHit(piece, name) then false else isMatch || IncludeHit(piece, name)
  {
  }

  /** No sub-pattern from index `lo` on is a hitting exclude. */
  predicate NoExcludeFrom(pieces: seq<string>, lo: nat, name: string) {
    forall j :: lo <= j < |pieces| ==> !ExcludeHit(pieces[j], name)
  }

  /** Some include hits and no exclude after it hits. */
  predicate Decided(pieces: seq<string>, name: string) {
    exists i :: 0 <= i < |pieces| && IncludeHit(pieces[i], name) && NoExcludeFrom(pieces, i + 1, name)
  }

  lemma NoExcludeShift(pieces: seq<string>, lo: nat, name: string)
    requires |pieces| > 0
    ensures NoExcludeFrom(pieces, lo + 1, name) <==> NoExcludeFrom(pieces[1..], lo, name)
  {
    var rest := pieces[1..];
    assert forall j :: 0 <= j < |rest| ==> rest[j] == pieces[j + 1];
    if NoExcludeFrom(pieces, lo + 1, name) {
      forall j | lo <= j < |rest|
        ensures !ExcludeHit(rest[j], name)
      {
        assert rest[j] == pieces[j + 1];
      }
    }
    if NoExcludeFrom(rest, lo, name) {
      forall j | lo + 1 <= j < |pieces|
        ensures !ExcludeHit(pieces[j], name)
      {
        assert pieces[j] == rest[j - 1];
      }
    }
  }

  lemma DecidedTail(pieces: seq<string>, name: string)
    requires |pieces| > 0 && Decided(pieces[1..], name)
    ensures Decided(pieces, name)
  {
    var rest := pieces[1..];
    var i :| 0 <= i < |rest| && IncludeHit(rest[i], name) && NoExcludeFrom(rest, i + 1, name);
    NoExcludeShift(pieces, i + 1, name);
    assert pieces[i + 1] == rest[i];
  }

  lemma DecidedSplit(pieces: seq<string>, name: string)
    requires |pieces| > 0 && Decided(pieces, name)
    ensures Decided(pieces[1..], name) || (IncludeHit(pieces[0], name) && NoExcludeFrom(pieces, 1, name))
  {
    var rest := pieces[1..];
    var i :| 0 <= i < |pieces| && IncludeHit(pieces[i], name) && NoExcludeFrom(pieces, i + 1, name);
    if i > 0 {
      NoExcludeShift(pieces, i, name);
      assert rest[i - 1] == pieces[i];
    }
  }

  /** A decision is made either by the head or already within the tail. */
  lemma DecidedCons(pieces: seq<string>, name: string)
    requires |pieces| > 0
    ensures Decided(pieces, name) <==>
      Decided(pieces[1..], name) || (IncludeHit(pieces[0], name) && NoExcludeFrom(pieces, 1, name))
  {
    if Decided(pieces, name) {
      DecidedSplit(pieces, name);
    }
    if Decided(pieces[1..], name) {
      DecidedTail(pieces, name);
    }
  }

  /**
   * The flag ends true exactly when some include hits and no exclude after
   * it hits, or it started true and no exclude hits at all.
   */
  lemma {:induction false} FoldDecides(isMatch: bool, pieces: seq<string>, name: string)
    ensures Fold(isMatch, pieces, name) <==>
      Decided(pieces, name) || (isMatch && NoExcludeFrom(pieces, 0, name))
    decreases |pieces|
  {
    if |pieces| > 0 {
      var rest := pieces[1..];
      var next := Step(isMatch, pieces[0], name);
      StepCases(isMatch, pieces[0], name);
      FoldDecides(next, rest, name);
      DecidedCons(pieces, name);
      NoExcludeShift(pieces, 0, name);
      assert NoExcludeFrom(pieces, 0, name) <==> !ExcludeHit(pieces[0], name) && NoExcludeFrom(pieces, 1, name);
      assert IncludeHit(pieces[0], name) ==> !ExcludeHit(pieces[0], name);
    }
  }

  /** `match_pattern` is true exactly when an include hits and no later exclude hits. */
  lemma PatternDecides(name: string, textPattern: string)
    ensures var pieces := Split(textPattern, ' ');
      PatternMatches(name, textPattern) <==>
        exists i :: 0 <= i < |pieces| && IncludeHit(pieces[i], name)
          && forall j :: i < j < |pieces| ==> !ExcludeHit(pieces[j], name)
  {
    var pieces := Split(textPattern, ' ');
    FoldDecides(false, pieces, name);
    assert PatternMatches(name, textPattern) == Fold(false, pieces, name);
    assert Decided(pieces, name) <==>
      exists i :: 0 <= i < |pieces| && IncludeHit(pieces[i], name)
        && forall j :: i < j < |pieces| ==> !ExcludeHit(pieces[j], name);
  }

  lemma {:induction false} FoldUnchanged(isMatch: bool, pieces: seq<string>, name: string)
    requires forall i :: 0 <= i < |pieces| ==> pieces[i] == ""
    ensures Fold(isMatch, pieces, name) == isMatch
    decreases |pieces|
  {
    if |pieces| > 0 {
      FoldUnchanged(isMatch, pieces[1..], name);
    }
  }

  /** An empty pattern, or one made only of spaces, matches no name. */
  lemma BlankMatchesNothing(name: string, textPattern: string)
    requires forall i :: 0 <= i < |textPattern| ==> textPattern[i] == ' '
    ensures !PatternMatches(name, textPattern)
  {
    SplitAllSep(textPattern, ' ');
    FoldUnchanged(false, Split(textPattern, ' '), name);
  }

  /** `*` matches any run of characters, so the glob `*` matches every name. */
  lemma {:induction false} StarMatchesAll(name: string)
    ensures Matches([Star], name)
    decreases |name|
  {
    if |name| > 0 {
      StarMatchesAll(name[1..]);
      assert [Star][1..] == [];
    } else {
      assert [Star][1..] == [];
    }
  }

  /** The text pattern `*` keeps every name. */
  lemma StarPatternMatchesAll(name: string)
    ensures PatternMatches(name, "*")
  {
    SplitFree("*", ' ');
    StripNone("*", {' '});
    assert Tokens("*") == [Star] by {
      assert "*"[1..] == [];
    }
    StarMatchesAll(name);
  }

  /** `*` followed by more tokens matches exactly when some suffix of `s` matches the rest. */
  lemma {:induction false} StarAnyRun(toks: seq<Token>, s: string)
    ensures Matches([Star] + toks, s) <==> exists k :: 0 <= k <= |s| && Matches(toks, s[k..])
    decreases |s|
  {
    var st := [Star] + toks;
    assert st[1..] == toks;
    if |s| > 0 {
      StarAnyRun(toks, s[1..]);
      if Matches(toks, s) {
        assert s[0..] == s;
      } else if Matches(st, s[1..]) {
        var k :| 0 <= k <= |s| - 1 && Matches(toks, s[1..][k..]);
        assert s[1..][k..] == s[k + 1..];
      }
      if exists k :: 0 <= k <= |s| && Matches(toks, s[k..]) {
        var k :| 0 <= k <= |s| && Matches(toks, s[k..]);
        if k > 0 {
          assert s[1..][k - 1..] == s[k..];
        } else {
          assert s[k..] == s;
        }
      }
    } else {
      if exists k :: 0 <= k <= |s| && Matches(toks, s[k..]) {
        var k :| 0 <= k <= |s| && Matches(toks, s[k..]);
        assert s[k..] == s;
      }
    }
  }

  /** A glob without `*`, `?` or `[` matches exactly the name equal to it, case included. */
  lemma {:induction false} LiteralGlob(glob: string, name: string)
    requires forall i :: 0 <= i < |glob| ==> glob[i] != '*' && glob[i] != '?' && glob[i] != '['
    ensures GlobMatch(glob, name) <==> name == glob
    decreases |glob|
  {
    if |glob| > 0 {
      LiteralGlob(glob[1..], if |name| > 0 then name[1..] else name);
      assert Tokens(glob) == [Lit(glob[0])] + Tokens(glob[1..]);
      if |name| > 0 && name[0] == glob[0] && name[1..] == glob[1..] {
        assert name == [name[0]] + name[1..];
        assert glob == [glob[0]] + glob[1..];
      }
    }
  }

  /** A sub-pattern free of spaces is its own `strip(" ")`. */
  lemma TrimmedFree(p: string)
    requires ' ' !in p
    ensures Trimmed(p) == p
  {
    if |p| > 0 {
      assert p[0] in p && p[|p| - 1] in p;
    }
    StripNone(p, {' '});
  }

  lemma {:induction false} FoldAppend(isMatch: bool, pieces: seq<string>, last: string, name: string)
    ensures Fold(isMatch, pieces + [last], name) == Step(Fold(isMatch, pieces, name), last, name)
    decreases |pieces|
  {
    if |pieces| > 0 {
      assert (pieces + [last])[1..] == pieces[1..] + [last];
      FoldAppend(Step(isMatch, pieces[0], name), pieces[1..], last, name);
    } else {
      assert (pieces + [last])[1..] == [];
    }
  }

  /** Adding a sub-pattern at the end of a text pattern applies one more step. */
  lemma AppendPiece(name: string, textPattern: string, p: string)
    requires ' ' !in p
    ensures PatternMatches(name, textPattern + " " + p) == Step(PatternMatches(name, textPattern), p, name)
  {
    SplitAppendFree(textPattern, p, ' ');
    FoldAppend(false, Split(textPattern, ' '), p, name);
  }

  /** A matching exclude at the end rejects the name, whatever came before. */
  lemma ExcludeRejects(name: string, textPattern: string, glob: string)
    requires ' ' !in glob && GlobMatch(glob, name)
    ensures !PatternMatches(name, textPattern + " " + ("^" + glob))
  {
    assert ' ' !in "^" + glob;
    AppendPiece(name, textPattern, "^" + glob);
    TrimmedFree("^" + glob);
    assert ("^" + glob)[1..] == glob;
  }

  /** An exclude that does not match leaves the decision as it was. */
  lemma ExcludeMissKeeps(name: string, textPattern: string, glob: string)
    requires ' ' !in glob && !GlobMatch(glob, name)
    ensures PatternMatches(name, textPattern + " " + ("^" + glob)) == PatternMatches(name, textPattern)
  {
    assert ' ' !in "^" + glob;
    AppendPiece(name, textPattern, "^" + glob);
    TrimmedFree("^" + glob);
    assert ("^" + glob)[1..] == glob;
  }

  /** Once the name is accepted, a later include cannot change that. */
  lemma IncludeAfterMatch(name: string, textPattern: string, p: string)
    requires ' ' !in p && (p == "" || p[0] != '^')
    requires PatternMatches(name, textPattern)
    ensures PatternMatches(name, textPattern + " " + p)
  {
    AppendPiece(name, textPattern, p);
    TrimmedFree(p);
  }

  /** A matching include at the end accepts the name, even after an exclude. */
  lemma IncludeAccepts(name: string, textPattern: string, p: string)
    requires ' ' !in p && p != "" && p[0] != '^' && GlobMatch(p, name)
    ensures PatternMatches(name, textPattern + " " + p)
  {
    AppendPiece(name, textPattern, p);
    TrimmedFree(p);
  }

  /** Order matters: `"* ^g"` rejects a name `g` matches, while `"^g *"` accepts it. */
  lemma OrderSensitive(name: string, glob: string)
    requires ' ' !in glob && GlobMatch(glob, name)
    ensures !PatternMatches(name, "*" + " " + ("^" + glob))
    ensures PatternMatches(name, ("^" + glob) + " " + "*")
  {
    ExcludeRejects(name, "*", glob);
    StarMatchesAll(name);
    assert Tokens("*") == [Star] by {
      assert "*"[1..] == [];
    }
    IncludeAccepts(name, "^" + glob, "*");
  }

  // ---------------------------------------------------------------------
  // The chaser

  /** The chaser's `pattern` argument; `*` (keep everything) when it is not given. */
  function ChaserPattern(args: map<string, string>): (p: string)
    ensures "pattern" !in args ==> p == "*"
    ensures "pattern" in args ==> p == args["pattern"]
  {
    if "pattern" in args then args["pattern"] else "*"
  }

  /**
   * A path the layer traversal visits: whether it names a property spec
   * of the layer (a property path with a `Sdf.PropertySpec` behind it) and
   * that spec's name.
   */
  datatype Visited = Visited(path: string, isPropertySpec: bool, name: string)

  /** The paths that are scheduled for removal, in visiting order. */
  function Doomed(visited: seq<Visited>, pattern: string): (r: seq<string>)
    decreases |visited|
  {
    if |visited| == 0 then []
    else
      var v := visited[|visited| - 1];
      Doomed(visited[..|visited| - 1], pattern)
        + (if v.isPropertySpec && !PatternMatches(v.name, pattern) then [v.path] else [])
  }

  /** `find_attribute_specs_to_remove` over the traversal of one layer. */
  method SpecsToRemove(visited: seq<Visited>, pattern: string) returns (specsToRemove: seq<string>)
    ensures specsToRemove == Doomed(visited, pattern)
  {
    specsToRemove := [];
    var i := 0;
    while i < |visited|
      invariant 0 <= i <= |visited|
      invariant specsToRemove == Doomed(visited[..i], pattern)
    {
      assert visited[..i + 1][..i] == visited[..i];
      var v := visited[i];
      if v.isPropertySpec {
        var keep := MatchPattern(v.name, pattern);
        if !keep {
          specsToRemove := specsToRemove + [v.path];
        }
      }
      i := i + 1;
    }
    assert visited[..|visited|] == visited;
  }

  /** A path is removed exactly when it is a property spec whose name the pattern does not match. */
  lemma {:induction false} DoomedExactly(visited: seq<Visited>, pattern: string, path: string)
    ensures path in Doomed(visited, pattern) <==>
      exists i :: 0 <= i < |visited| && visited[i].path == path
        && visited[i].isPropertySpec && !PatternMatches(visited[i].name, pattern)
    decreases |visited|
  {
    if |visited| > 0 {
      var init := visited[..|visited| - 1];
      DoomedExactly(init, pattern, path);
      if (exists i :: 0 <= i < |visited| && visited[i].path == path && visited[i].isPropertySpec && !PatternMatches(visited[i].name, pattern)) {
        var i :| 0 <= i < |visited| && visited[i].path == path
          && visited[i].isPropertySpec && !PatternMatches(visited[i].name, pattern);
        if i < |visited| - 1 {
          assert init[i] == visited[i];
        }
      }
      if path in Doomed(init, pattern) {
        var i :| 0 <= i < |init| && init[i].path == path
          && init[i].isPropertySpec && !PatternMatches(init[i].name, pattern);
        assert visited[i] == init[i];
      }
    }
  }

  /** With the default pattern `*` nothing is removed. */
  lemma {:induction false} DefaultKeepsAll(visited: seq<Visited>)
    ensures Doomed(visited, ChaserPattern(map[])) == []
    decreases |visited|
  {
    if |visited| > 0 {
      DefaultKeepsAll(visited[..|visited| - 1]);
      StarPatternMatchesAll(visited[|visited| - 1].name);
    }
  }

  /** `PostExport`: the removal list of every layer of the stack, in stack order. */
  method PostExport(layers: seq<seq<Visited>>, chaserArgs: map<string, string>)
    returns (removals: seq<seq<string>>)
    ensures |removals| == |layers|
    ensures forall i :: 0 <= i < |layers| ==> removals[i] == Doomed(layers[i], ChaserPattern(chaserArgs))
  {
    var pattern := if "pattern" in chaserArgs then chaserArgs["pattern"] else "*";
    removals := [];
    var i := 0;
    while i < |layers|
      invariant 0 <= i <= |layers|
      invariant |removals| == i
      invariant forall k :: 0 <= k < i ==> removals[k] == Doomed(layers[k], ChaserPattern(chaserArgs))
    {
      var specsToRemove := SpecsToRemove(layers[i], pattern);
      removals := removals + [specsToRemove];
      i := i + 1;
    }
  }

  // ---------------------------------------------------------------------
  // The collector

  const ChaserName: string := "AYON_filterProperties"

  /** The `filter_properties` attribute's default: empty, so the chaser is off unless a pattern is typed. */
  const DefaultFilter: string := ""

  /** The default pattern is falsy, so an instance left at the default gains no chaser. */
  lemma DefaultFilterOff()
    ensures !Truthy(VStr(DefaultFilter))
  { }

  /**
   * `data.setdefault(key, []).append(x)`; None where Python raises because
   * the value already there is not a list.
   */
  function SetDefaultAppend(data: map<string, Value>, key: string, x: Value): (r: Option<map<string, Value>>)
    ensures key !in data ==> r == Some(data[key := VList([x])])
    ensures key in data && data[key].VList? ==> r == Some(data[key := VList(data[key].items + [x])])
    ensures key in data && !data[key].VList? ==> r.None?
  {
    if key !in data then Some(data[key := VList([x])])
    else if data[key].VList? then Some(data[key := VList(data[key].items + [x])])
    else None
  }

  /**
   * `CollectMayaUsdFilterProperties.process`: `attrValues` are the plugin's
   * publish attributes for the instance.  None where an append raises.
   */
  method CollectProcess(data: map<string, Value>, attrValues: map<string, Value>)
    returns (r: Option<map<string, Value>>)
    ensures var p := if "filter_properties" in attrValues then attrValues["filter_properties"] else VNone;
      !Truthy(p) ==> r == Some(data)
    ensures var p := if "filter_properties" in attrValues then attrValues["filter_properties"] else VNone;
      Truthy(p) ==> r == match SetDefaultAppend(data, "chaser", VStr(ChaserName))
        case None => None
        case Some(d1) => SetDefaultAppend(d1, "chaserArgs", VTuple([VStr(ChaserName), VStr("pattern"), p]))
  {
    var filterPattern := if "filter_properties" in attrValues then attrValues["filter_properties"] else VNone;
    if !Truthy(filterPattern) {
      return Some(data);
    }
    var d1 := SetDefaultAppend(data, "chaser", VStr(ChaserName));
    if d1.None? {
      return None;
    }
    r := SetDefaultAppend(d1.value, "chaserArgs", VTuple([VStr(ChaserName), VStr("pattern"), filterPattern]));
  }

  /** With list-valued (or missing) `chaser` and `chaserArgs`, a pattern appends one entry to each and keeps the rest. */
  lemma CollectAppends(data: map<string, Value>, pattern: string)
    requires pattern != ""
    requires "chaser" in data ==> data["chaser"].VList?
    requires "chaserArgs" in data ==> data["chaserArgs"].VList?
    ensures var d1 := SetDefaultAppend(data, "chaser", VStr(ChaserName)).value;
      var r := SetDefaultAppend(d1, "chaserArgs", VTuple([VStr(ChaserName), VStr("pattern"), VStr(pattern)]));
      r.Some?
      && r.value["chaser"].items
        == (if "chaser" in data then data["chaser"].items else []) + [VStr(ChaserName)]
      && r.value["chaserArgs"].items
        == (if "chaserArgs" in data then data["chaserArgs"].items else [])
          + [VTuple([VStr(ChaserName), VStr("pattern"), VStr(pattern)])]
      && forall k :: k in data && k != "chaser" && k != "chaserArgs" ==> k in r.value && r.value[k] == data[k]
  {
  }
}
