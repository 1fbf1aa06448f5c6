/**
 * The instance-has-members validator: an instance whose object set has no
 * members fails, unless one of its families is allowed to be empty.
 */
module ValidateInstanceHasMembers {
  import opened Strs
  import opened PyData

  /** Families whose instances may be empty. */
  const SkipFamilies: set<string> := {"workfile", "renderlayer", "rendersetup", "mayaUsdLayer", "usdLayer", "usdAsset"}

  /** `get_invalid`: the object set's name when `setMembers` is missing or falsy. */
  function GetInvalid(name: string, setMembers: Option<Value>): (r: seq<string>)
    ensures |r| <= 1
    ensures r == [name] <==> setMembers.None? || !Truthy(setMembers.value)
    ensures r == [] <==> setMembers.Some? && Truthy(setMembers.value)
  {
    if setMembers.None? || !Truthy(setMembers.value) then [name] else []
  }

  /** `{family} | set(families)`; a missing `family` contributes None, which no skip family equals. */
  function Families(family: Option<string>, families: seq<string>): set<string> {
    (if family.Some? then {family.value} else {}) + set f | f in families
  }

  predicate Skipped(family: Option<string>, families: seq<string>) {
    Families(family, families) * SkipFamilies != {}
  }

  /** `process`: Some(the error's instance name) when it raises, None when it passes. */
  function Process(name: string, family: Option<string>, families: seq<string>, setMembers: Option<Value>): (r: Option<string>)
    ensures r.Some? <==> !Skipped(family, families) && (setMembers.None? || !Truthy(setMembers.value))
    ensures r.Some? ==> r.value == name
  {
    if Skipped(family, families) then None
    else
      var invalid := GetInvalid(name, setMembers);
      if |invalid| > 0 then Some(invalid[0]) else None
  }

  /** A workfile instance passes even without members. */
  lemma WorkfileMayBeEmpty(name: string, families: seq<string>)
    ensures Process(name, Some("workfile"), families, Some(VList([]))).None?
  {
    assert "workfile" in Families(Some("workfile"), families) * SkipFamilies;
  }

  /** A skip family among `families` skips the check whatever `family` is. */
  lemma SkipFamilyListed(family: Option<string>, families: seq<string>, i: nat)
    requires i < |families| && families[i] in SkipFamilies
    ensures Skipped(family, families)
  {
    assert families[i] in Families(family, families) * SkipFamilies;
  }

  /** Without any skip family, an instance lacking members raises with its name. */
  lemma EmptyRaises(name: string, family: Option<string>, families: seq<string>)
    requires family.None? || family.value !in SkipFamilies
    requires forall i :: 0 <= i < |families| ==> families[i] !in SkipFamilies
    ensures Process(name, family, families, None) == Some(name)
    ensures Process(name, family, families, Some(VList([]))) == Some(name)
  { }
}
