/**
 * The transform naming suffix validator: a transform's name must end in
 * one of the suffixes listed for the type of its first shape (`group` when
 * it has none); a type missing from the table is decided by a flag.
 */
module ValidateTransformNamingSuffix {
  import opened Strs
  import opened PyData

  /** The default table, as its JSON text decodes (keys in order). */
  const SuffixNamingTable: Entries<seq<string>> := [
    ("mesh", ["_GEO", "_GES", "_GEP", "_OSD"]),
    ("nurbsCurve", ["_CRV"]),
    ("nurbsSurface", ["_NRB"]),
    ("locator", ["_LOC"]),
    ("group", ["_GRP"])
  ]

  const AllowIfNotInSuffixTable: bool := true

  /** The first suffix of `suffixes` that `name` ends with, searched in order. */
  function FirstSuffix(name: string, suffixes: seq<string>): (r: Option<nat>)
    ensures r.Some? ==> r.value < |suffixes| && EndsWith(name, suffixes[r.value])
    ensures r.Some? ==> forall j :: 0 <= j < r.value ==> !EndsWith(name, suffixes[j])
    ensures r.None? <==> forall j :: 0 <= j < |suffixes| ==> !EndsWith(name, suffixes[j])
  {
    if |suffixes| == 0 then None
    else if EndsWith(name, suffixes[0]) then Some(0)
    else
      match FirstSuffix(name, suffixes[1..])
      case Some(i) => Some(i + 1)
      case None => None
  }

  /** `is_valid_name`: the flag for an unknown type, else whether some suffix of the type ends the name. */
  function IsValidName(name: string, shapeType: string, table: Entries<seq<string>>, allow: bool): (r: bool)
    ensures !HasKey(table, shapeType) ==> r == allow
    ensures HasKey(table, shapeType) ==>
      (r <==> exists j :: 0 <= j < |Get(table, shapeType).value| && EndsWith(name, Get(table, shapeType).value[j]))
  {
    match Get(table, shapeType)
    case None => allow
    case Some(suffixes) => FirstSuffix(name, suffixes).Some?
  }

  /** A type whose suffix list is empty accepts no name. */
  lemma EmptySuffixesRejectAll(name: string, shapeType: string, table: Entries<seq<string>>, allow: bool)
    requires Get(table, shapeType) == Some([])
    ensures !IsValidName(name, shapeType, table, allow)
  { }

  /** A name is valid for a type exactly when it is `stem + suffix` for one of the type's suffixes. */
  lemma SuffixedNameValid(stem: string, shapeType: string, table: Entries<seq<string>>, allow: bool, j: nat)
    requires Get(table, shapeType).Some? && j < |Get(table, shapeType).value|
    ensures IsValidName(stem + Get(table, shapeType).value[j], shapeType, table, allow)
  {
    var s := Get(table, shapeType).value[j];
    assert (stem + s)[|stem|..] == s;
  }

  /** The type a transform is checked as: its first non-intermediate shape's, else `group`. */
  function ShapeType(shapes: seq<string>, nodeType: string -> string): string {
    if |shapes| > 0 then nodeType(shapes[0]) else "group"
  }

  /** The transforms whose names are not valid for their type, in order. */
  function InvalidTransforms(transforms: seq<string>, shapesOf: string -> seq<string>, nodeType: string -> string,
                             table: Entries<seq<string>>, allow: bool): seq<string>
  {
    if |transforms| == 0 then []
    else
      var t := transforms[|transforms| - 1];
      InvalidTransforms(transforms[..|transforms| - 1], shapesOf, nodeType, table, allow)
      + (if IsValidName(t, ShapeType(shapesOf(t), nodeType), table, allow) then [] else [t])
  }

  /** `get_invalid`: each transform whose name does not fit its shape type, in order. */
  method GetInvalid(transforms: seq<string>, shapesOf: string -> seq<string>, nodeType: string -> string,
                    table: Entries<seq<string>>, allow: bool) returns (invalid: seq<string>)
    ensures invalid == InvalidTransforms(transforms, shapesOf, nodeType, table, allow)
  {
    invalid := [];
    for i := 0 to |transforms|
      invariant invalid == InvalidTransforms(transforms[..i], shapesOf, nodeType, table, allow)
    {
      assert transforms[..i + 1][..i] == transforms[..i];
      var shapes := shapesOf(transforms[i]);
      var shapeType := if |shapes| > 0 then nodeType(shapes[0]) else "group";
      if !IsValidName(transforms[i], shapeType, table, allow) {
        invalid := invalid + [transforms[i]];
      }
    }
    assert transforms[..|transforms|] == transforms;
  }

  /** Exactly the transforms whose names are invalid for their type are reported. */
  lemma {:induction false} InvalidExactly(transforms: seq<string>, shapesOf: string -> seq<string>,
                                          nodeType: string -> string, table: Entries<seq<string>>, allow: bool, t: string)
    ensures t in InvalidTransforms(transforms, shapesOf, nodeType, table, allow)
        <==> t in transforms && !IsValidName(t, ShapeType(shapesOf(t), nodeType), table, allow)
    decreases |transforms|
  {
    if |transforms| > 0 {
      var init := transforms[..|transforms| - 1];
      InvalidExactly(init, shapesOf, nodeType, table, allow, t);
      assert transforms == init + [transforms[|transforms| - 1]];
    }
  }

  /** A transform without shapes is checked as a group: in the default table it must end in `_GRP`. */
  lemma GroupNeedsGrp(name: string)
    ensures IsValidName(name, ShapeType([], t => t), SuffixNamingTable, AllowIfNotInSuffixTable)
        <==> EndsWith(name, "_GRP")
  {
    assert Get(SuffixNamingTable, "group") == Some(["_GRP"]);
  }

  /** A type the default table does not list is accepted. */
  lemma UnknownTypeAllowed(name: string, shapeType: string)
    requires !HasKey(SuffixNamingTable, shapeType)
    ensures IsValidName(name, shapeType, SuffixNamingTable, AllowIfNotInSuffixTable)
  { }

  // ---------------------------------------------------------------------
  // get_table_for_invalid

  /** One line of the table: `- type: s1, s2`, the type in bold for markdown. */
  function TableLine(shapeType: string, suffixes: seq<string>, markdown: bool): string {
    (if markdown then "- **" + shapeType + "**: " else "- " + shapeType + ": ") + Join(suffixes, ", ")
  }

  function TableLines(table: Entries<seq<string>>, markdown: bool): (lines: seq<string>)
    ensures |lines| == |table|
    ensures forall i :: 0 <= i < |table| ==> lines[i] == TableLine(table[i].0, table[i].1, markdown)
  {
    seq(|table|, i requires 0 <= i < |table| => TableLine(table[i].0, table[i].1, markdown))
  }

  /** `get_table_for_invalid`: the lines joined by newlines. */
  function TableForInvalid(table: Entries<seq<string>>, markdown: bool): string {
    Join(TableLines(table, markdown), "\n")
  }

  /** No newline in the types and suffixes: splitting at newlines gives one line per type, in order. */
  lemma OneLinePerType(table: Entries<seq<string>>, markdown: bool)
    requires |table| > 0
    requires forall i :: 0 <= i < |table| ==> '\n' !in table[i].0
    requires forall i, j :: 0 <= i < |table| && 0 <= j < |table[i].1| ==> '\n' !in table[i].1[j]
    ensures Split(TableForInvalid(table, markdown), '\n') == TableLines(table, markdown)
  {
    var lines := TableLines(table, markdown);
    forall i | 0 <= i < |lines| ensures '\n' !in lines[i] {
      JoinExcludes(table[i].1, ", ", '\n');
    }
    SplitJoin(lines, '\n');
  }

  /** An empty table gives an empty text. */
  lemma EmptyTable(markdown: bool)
    ensures TableForInvalid([], markdown) == ""
  { }
}
