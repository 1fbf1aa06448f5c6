/**
 * The raw Maya scene extractor: the scene type chosen from the extension
 * mapping, the nodes selected for export, and the file type that follows
 * from the scene type.  The container lookup and the export are Maya
 * calls outside the model; the containers found are a parameter.
 */
module ExtractMayaSceneRaw {
  import opened Strs
  import opened PyData

  /** The families looked up in the extension mapping: the product type first, then the instance's families. */
  function LookupFamilies(productType: string, families: seq<string>): seq<string> {
    [productType] + families
  }

  /**
   * The `for ... else` over the families: the mapping's value for the
   * first family it holds; the default `ma` when it holds none.
   */
  method SceneType(families: seq<string>, extMapping: map<string, string>) returns (sceneType: string)
    ensures sceneType == match FirstIn(families, extMapping)
                         case Some(i) => extMapping[families[i]]
                         case None => "ma"
  {
    sceneType := "ma";
    for i := 0 to |families|
      invariant forall j :: 0 <= j < i ==> families[j] !in extMapping
    {
      if families[i] in extMapping {
        sceneType := extMapping[families[i]];
        return;
      }
    }
  }

  /** The product type's own mapping wins over every family's. */
  lemma ProductTypeFirst(productType: string, families: seq<string>, extMapping: map<string, string>)
    requires productType in extMapping
    ensures FirstIn(LookupFamilies(productType, families), extMapping) == Some(0)
  { }

  /** The Maya file type of the export. */
  function FileType(sceneType: string): (r: string)
    ensures r == "mayaAscii" <==> sceneType == "ma"
    ensures r == "mayaAscii" || r == "mayaBinary"
  {
    if sceneType == "ma" then "mayaAscii" else "mayaBinary"
  }

  /** `add_for_families and add_for_families.intersection(families)`: a family of the instance is one the containers are added for. */
  predicate AddsContainers(addForFamilies: set<string>, families: seq<string>) {
    addForFamilies != {} && exists f :: f in families && f in addForFamilies
  }

  /**
   * The nodes to export: the exact set members (which must not be empty)
   * or every node of the instance, followed by the loaded containers when
   * a family is one of `add_for_families`.
   */
  function Selected(membersOnly: bool, setMembers: seq<string>, instanceNodes: seq<string>,
                    addForFamilies: set<string>, families: seq<string>, containers: seq<string>): Result<seq<string>>
  {
    if membersOnly && |setMembers| == 0 then
      Err("RuntimeError: Can't export 'exact set members only' when set is empty.")
    else
      var members := if membersOnly then setMembers else instanceNodes;
      Ok(members + (if AddsContainers(addForFamilies, families) then containers else []))
  }

  /** The selection built step by step: the members, then the containers. */
  method Selection(membersOnly: bool, setMembers: seq<string>, instanceNodes: seq<string>,
                   addForFamilies: set<string>, families: seq<string>, containers: seq<string>)
    returns (r: Result<seq<string>>)
    ensures r == Selected(membersOnly, setMembers, instanceNodes, addForFamilies, families, containers)
  {
    var members := if membersOnly then setMembers else instanceNodes;
    if membersOnly && |members| == 0 {
      return Err("RuntimeError: Can't export 'exact set members only' when set is empty.");
    }
    var selection := members;
    if AddsContainers(addForFamilies, families) {
      selection := selection + containers;
    } else {
      assert selection == members + [];
    }
    r := Ok(selection);
  }

  /**
   * The export fails exactly for an empty exact-members set; otherwise the
   * selection starts with the chosen members, unchanged, and what follows
   * them is every container when a family asks for containers and nothing
   * otherwise.
   */
  lemma SelectionKeepsMembers(membersOnly: bool, setMembers: seq<string>, instanceNodes: seq<string>,
                              addForFamilies: set<string>, families: seq<string>, containers: seq<string>)
    ensures var r := Selected(membersOnly, setMembers, instanceNodes, addForFamilies, families, containers);
      var members := if membersOnly then setMembers else instanceNodes;
      (r.Err? <==> membersOnly && |setMembers| == 0)
      && (r.Ok? ==> |r.value| >= |members| && r.value[..|members|] == members)
      && (r.Ok? ==> r.value[|members|..] == if AddsContainers(addForFamilies, families) then containers else [])
  {
    var members := if membersOnly then setMembers else instanceNodes;
    var tail := if AddsContainers(addForFamilies, families) then containers else [];
    assert (members + tail)[..|members|] == members;
    assert (members + tail)[|members|..] == tail;
  }
}
