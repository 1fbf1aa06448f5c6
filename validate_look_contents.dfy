/**
 * The look contents validator: the collected look data must hold its
 * relationships and attribute changes, at least one relationship, an id on
 * every relationship set and on every node whose attributes changed, and
 * every file node must use at least one file.
 */
module ValidateLookContents {
  import opened Strs
  import opened PyData

  /** A shading relationship set; only its `uuid` is validated. */
  datatype Relationship = Relationship(uuid: Value)

  /** One entry of `lookData["attributes"]`: a node, its id and the attributes it changes. */
  datatype AttributeChange = AttributeChange(name: string, uuid: Value, attributes: Value)

  /** One entry of `instance.data["resources"]`: a file node and the files it uses. */
  datatype Resource = Resource(node: string, files: seq<string>)

  /** `instance.data["lookData"]`; a key the dict lacks is None. */
  datatype LookData = LookData(relationships: Option<Entries<Relationship>>, attributes: Option<seq<AttributeChange>>)

  /** An attribute change on a node with neither an id nor attributes cannot be rebuilt. */
  predicate LacksId(c: AttributeChange) {
    !Truthy(c.uuid) && !Truthy(c.attributes)
  }

  predicate SomeLacksId(changes: seq<AttributeChange>) {
    exists i :: 0 <= i < |changes| && LacksId(changes[i])
  }

  /**
   * `validate_lookdata_attributes`: the instance name once (the set holds
   * it at most once) when there are no relationships or some change lacks
   * an id; reading a missing key raises KeyError.
   */
  function LookdataProblems(name: string, lookData: LookData): Result<seq<string>> {
    if lookData.relationships.None? || lookData.attributes.None? then Err("KeyError")
    else if |lookData.relationships.value| == 0 || SomeLacksId(lookData.attributes.value) then Ok([name])
    else Ok([])
  }

  /** `validate_lookdata_attributes`, with its loop over the attribute changes. */
  method ValidateLookdataAttributes(name: string, lookData: LookData) returns (r: Result<seq<string>>)
    ensures r == LookdataProblems(name, lookData)
  {
    if lookData.relationships.None? || lookData.attributes.None? {
      return Err("KeyError");
    }
    var invalid := |lookData.relationships.value| == 0;
    var changes := lookData.attributes.value;
    for i := 0 to |changes|
      invariant invalid == (|lookData.relationships.value| == 0 || SomeLacksId(changes[..i]))
    {
      assert forall j :: 0 <= j < i ==> changes[..i + 1][j] == changes[..i][j];
      if !Truthy(changes[i].uuid) && !Truthy(changes[i].attributes) {
        assert changes[..i + 1][i] == changes[i];
        invalid := true;
      }
    }
    assert changes[..|changes|] == changes;
    return Ok(if invalid then [name] else []);
  }

  /** The names of the relationship sets without a uuid, in dict order. */
  function WithoutUuid(looks: Entries<Relationship>): seq<string> {
    if |looks| == 0 then []
    else
      var rest := WithoutUuid(looks[..|looks| - 1]);
      if Truthy(looks[|looks| - 1].1.uuid) then rest else rest + [looks[|looks| - 1].0]
  }

  /** `validate_looks`. */
  method ValidateLooks(looks: Entries<Relationship>) returns (invalid: seq<string>)
    ensures invalid == WithoutUuid(looks)
  {
    invalid := [];
    for i := 0 to |looks|
      invariant invalid == WithoutUuid(looks[..i])
    {
      assert looks[..i + 1][..i] == looks[..i];
      var (name, data) := looks[i];
      if !Truthy(data.uuid) {
        invalid := invalid + [name];
      }
    }
    assert looks[..|looks|] == looks;
  }

  /** The nodes of the resources that use no files, in order. */
  function WithoutFiles(resources: seq<Resource>): seq<string> {
    if |resources| == 0 then []
    else
      var rest := WithoutFiles(resources[..|resources| - 1]);
      if |resources[|resources| - 1].files| == 0 then rest + [resources[|resources| - 1].node] else rest
  }

  /** `validate_files`; a missing `resources` key counts as no resources. */
  method ValidateFiles(resources: Option<seq<Resource>>) returns (invalid: seq<string>)
    ensures invalid == WithoutFiles(if resources.Some? then resources.value else [])
  {
    var rs := if resources.Some? then resources.value else [];
    invalid := [];
    for i := 0 to |rs|
      invariant invalid == WithoutFiles(rs[..i])
    {
      assert rs[..i + 1][..i] == rs[..i];
      if |rs[i].files| == 0 {
        invalid := invalid + [rs[i].node];
      }
    }
    assert rs[..|rs|] == rs;
  }

  /** `get_invalid`: the relationship sets, then the instance, then the file nodes. */
  function Problems(name: string, lookData: LookData, resources: Option<seq<Resource>>): Result<seq<string>> {
    match LookdataProblems(name, lookData)
    case Err(e) => Err(e)
    case Ok(attributes) =>
      Ok(WithoutUuid(lookData.relationships.value) + attributes
         + WithoutFiles(if resources.Some? then resources.value else []))
  }

  method GetInvalid(name: string, lookData: LookData, resources: Option<seq<Resource>>) returns (r: Result<seq<string>>)
    ensures r == Problems(name, lookData, resources)
  {
    var attributes := ValidateLookdataAttributes(name, lookData);
    if attributes.Err? {
      return Err(attributes.error);
    }
    var looks := ValidateLooks(lookData.relationships.value);
    var files := ValidateFiles(resources);
    return Ok(looks + attributes.value + files);
  }

  datatype Outcome = EmptyInstance | InvalidContent(invalid: seq<string>) | Passed | Raised(error: string)

  /** `process`: an empty instance fails before anything is looked at. */
  method Process(name: string, members: seq<string>, lookData: LookData, resources: Option<seq<Resource>>) returns (outcome: Outcome)
    ensures |members| == 0 ==> outcome == EmptyInstance
    ensures |members| > 0 ==> outcome == match Problems(name, lookData, resources)
                                          case Err(e) => Raised(e)
                                          case Ok(inv) => if |inv| == 0 then Passed else InvalidContent(inv)
  {
    if |members| == 0 {
      return EmptyInstance;
    }
    var invalid := GetInvalid(name, lookData, resources);
    match invalid
    case Err(e) => return Raised(e);
    case Ok(inv) => return if |inv| == 0 then Passed else InvalidContent(inv);
  }

  /** The look data check reports the instance at most once, and nothing else. */
  lemma LookdataAtMostOnce(name: string, lookData: LookData)
    requires LookdataProblems(name, lookData).Ok?
    ensures |LookdataProblems(name, lookData).value| <= 1
    ensures forall x :: x in LookdataProblems(name, lookData).value ==> x == name
  { }

  /** No relationships make the look invalid. */
  lemma NoRelationshipsInvalid(name: string, changes: seq<AttributeChange>)
    ensures LookdataProblems(name, LookData(Some([]), Some(changes))) == Ok([name])
  { }

  /** A change on a node with neither id nor attributes makes the look invalid. */
  lemma MissingIdInvalid(name: string, looks: Entries<Relationship>, before: seq<AttributeChange>, node: string, after: seq<AttributeChange>)
    ensures LookdataProblems(name, LookData(Some(looks), Some(before + [AttributeChange(node, VStr(""), VList([]))] + after))) == Ok([name])
  {
    var changes := before + [AttributeChange(node, VStr(""), VList([]))] + after;
    assert LacksId(changes[|before|]);
  }

  /** A relationship set is reported exactly when its uuid is falsy. */
  lemma {:induction false} WithoutUuidExactly(looks: Entries<Relationship>, name: string)
    ensures name in WithoutUuid(looks) <==>
      exists i :: 0 <= i < |looks| && looks[i].0 == name && !Truthy(looks[i].1.uuid)
    decreases |looks|
  {
    if |looks| > 0 {
      var init := looks[..|looks| - 1];
      WithoutUuidExactly(init, name);
      assert forall i :: 0 <= i < |init| ==> init[i] == looks[i];
      if exists i :: 0 <= i < |looks| && looks[i].0 == name && !Truthy(looks[i].1.uuid) {
        var i :| 0 <= i < |looks| && looks[i].0 == name && !Truthy(looks[i].1.uuid);
        if i < |init| {
          assert init[i] == looks[i];
        }
      }
    }
  }

  /** A file node is reported exactly when one of its resources uses no files. */
  lemma {:induction false} WithoutFilesExactly(resources: seq<Resource>, node: string)
    ensures node in WithoutFiles(resources) <==>
      exists i :: 0 <= i < |resources| && resources[i].node == node && |resources[i].files| == 0
    decreases |resources|
  {
    if |resources| > 0 {
      var init := resources[..|resources| - 1];
      WithoutFilesExactly(init, node);
      assert forall i :: 0 <= i < |init| ==> init[i] == resources[i];
      if exists i :: 0 <= i < |resources| && resources[i].node == node && |resources[i].files| == 0 {
        var i :| 0 <= i < |resources| && resources[i].node == node && |resources[i].files| == 0;
        if i < |init| {
          assert init[i] == resources[i];
        }
      }
    }
  }

  /**
   * The look passes exactly when both keys exist, there is a relationship,
   * every relationship set and every changed node has an id, and every file
   * node uses a file.
   */
  lemma PassesIff(name: string, lookData: LookData, resources: Option<seq<Resource>>)
    requires lookData.relationships.Some? && lookData.attributes.Some?
    ensures Problems(name, lookData, resources) == Ok([]) <==>
      |lookData.relationships.value| > 0 && !SomeLacksId(lookData.attributes.value)
      && (forall i :: 0 <= i < |lookData.relationships.value| ==> Truthy(lookData.relationships.value[i].1.uuid))
      && (resources.Some? ==> forall i :: 0 <= i < |resources.value| ==> |resources.value[i].files| > 0)
  {
    var looks := lookData.relationships.value;
    var rs := if resources.Some? then resources.value else [];
    EmptyWithoutUuid(looks);
    EmptyWithoutFiles(rs);
  }

  lemma {:induction false} EmptyWithoutUuid(looks: Entries<Relationship>)
    ensures WithoutUuid(looks) == [] <==> forall i :: 0 <= i < |looks| ==> Truthy(looks[i].1.uuid)
    decreases |looks|
  {
    if |looks| > 0 {
      var init := looks[..|looks| - 1];
      EmptyWithoutUuid(init);
      assert forall i :: 0 <= i < |init| ==> init[i] == looks[i];
    }
  }

  lemma {:induction false} EmptyWithoutFiles(resources: seq<Resource>)
    ensures WithoutFiles(resources) == [] <==> forall i :: 0 <= i < |resources| ==> |resources[i].files| > 0
    decreases |resources|
  {
    if |resources| > 0 {
      var init := resources[..|resources| - 1];
      EmptyWithoutFiles(init);
      assert forall i :: 0 <= i < |init| ==> init[i] == resources[i];
    }
  }

  /** Reading look data that lacks either key raises. */
  lemma MissingKeyRaises(name: string, lookData: LookData, resources: Option<seq<Resource>>)
    requires lookData.relationships.None? || lookData.attributes.None?
    ensures Problems(name, lookData, resources).Err?
  { }
}
