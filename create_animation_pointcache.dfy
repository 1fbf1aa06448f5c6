/**
 * The animation and pointcache creators' legacy conversion: Alembic
 * options that older scenes stored among the creator attributes move into
 * the extractor's publish attributes the first time the instance is read.
 */
module CreateAnimationPointcache {
  import opened Strs
  import opened PyData

  /** The options that used to be creator attributes; two are listed twice. */
  const LegacyAttributes: seq<string> := ["attr", "attrPrefix", "visibleOnly", "writeColorSets", "writeFaceSets",
                                          "writeNormals", "renderableOnly", "visibleOnly", "worldSpace", "renderableOnly"]

  /** The publish attributes key of each creator's extractor. */
  function ClassName(animation: bool): string {
    if animation then "ExtractAnimation" else "ExtractAlembic"
  }

  /**
   * The plugin attributes gathered and the creator attributes left after
   * going through `attributes` in order: a name the creator attributes hold
   * is popped from them into the plugin attributes, any other is skipped.
   */
  function Transfer(attributes: seq<string>, creator: Entries<Value>): (Entries<Value>, Entries<Value>) {
    if |attributes| == 0 then ([], creator)
    else
      var (plugin, rest) := Transfer(attributes[..|attributes| - 1], creator);
      var attr := attributes[|attributes| - 1];
      match Get(rest, attr)
      case None => (plugin, rest)
      case Some(v) => (Put(plugin, attr, v), Remove(rest, attr))
  }

  /**
   * `convert_legacy_alembic_creator_attributes` on the node data's
   * `publish_attributes` and `creator_attributes`: nothing happens when the
   * extractor already has publish attributes.
   */
  function Converted(publishAttributes: map<string, Entries<Value>>, creator: Entries<Value>, className: string)
    : (map<string, Entries<Value>>, Entries<Value>)
  {
    if className in publishAttributes then (publishAttributes, creator)
    else
      var (plugin, rest) := Transfer(LegacyAttributes, creator);
      (publishAttributes[className := plugin], rest)
  }

  /** The conversion's loop over the legacy attribute names. */
  method ConvertLegacy(publishAttributes: map<string, Entries<Value>>, creator: Entries<Value>, className: string)
    returns (newPublish: map<string, Entries<Value>>, newCreator: Entries<Value>)
    ensures (newPublish, newCreator) == Converted(publishAttributes, creator, className)
  {
    if className in publishAttributes {
      return publishAttributes, creator;
    }
    var attributes := LegacyAttributes;
    var plugin: Entries<Value> := [];
    newCreator := creator;
    for i := 0 to |attributes|
      invariant (plugin, newCreator) == Transfer(attributes[..i], creator)
    {
      assert attributes[..i + 1][..i] == attributes[..i];
      var attr := attributes[i];
      var found := Get(newCreator, attr);
      if found.None? {
        continue;
      }
      plugin := Put(plugin, attr, found.value);
      newCreator := Remove(newCreator, attr);
    }
    assert attributes[..|attributes|] == attributes;
    newPublish := publishAttributes[className := plugin];
  }

  /** The plugin attributes hold only listed names. */
  lemma {:induction false} OnlyListedMoved(attributes: seq<string>, creator: Entries<Value>, k: string)
    requires k !in attributes
    ensures Get(Transfer(attributes, creator).0, k).None?
    ensures Get(Transfer(attributes, creator).1, k) == Get(creator, k)
    decreases |attributes|
  {
    if |attributes| > 0 {
      var init := attributes[..|attributes| - 1];
      OnlyListedMoved(init, creator, k);
      var (plugin, rest) := Transfer(init, creator);
      var attr := attributes[|attributes| - 1];
      if Get(rest, attr).Some? {
        GetPut(plugin, attr, Get(rest, attr).value, k);
      }
    }
  }

  /**
   * Every listed name is gone from the creator attributes, and the plugin
   * attributes hold it with its original value exactly when the creator
   * attributes held it; a repeated name changes nothing the second time.
   */
  lemma {:induction false} ListedMoved(attributes: seq<string>, creator: Entries<Value>, k: string)
    requires k in attributes
    ensures !HasKey(Transfer(attributes, creator).1, k)
    ensures Get(Transfer(attributes, creator).0, k) == Get(creator, k)
    decreases |attributes|
  {
    var init := attributes[..|attributes| - 1];
    var attr := attributes[|attributes| - 1];
    assert attributes == init + [attr];
    var (plugin, rest) := Transfer(init, creator);
    if k in init {
      ListedMoved(init, creator, k);
      if Get(rest, attr).Some? {
        GetPut(plugin, attr, Get(rest, attr).value, k);
      }
    } else {
      assert k == attr;
      OnlyListedMoved(init, creator, k);
      if Get(rest, attr).Some? {
        GetPut(plugin, attr, Get(rest, attr).value, k);
      }
    }
  }

  /** Creator attributes that are not listed keep their values. */
  lemma UnlistedUntouched(creator: Entries<Value>, k: string)
    requires k !in LegacyAttributes
    ensures Get(Transfer(LegacyAttributes, creator).1, k) == Get(creator, k)
  {
    OnlyListedMoved(LegacyAttributes, creator, k);
  }

  /**
   * After the conversion the extractor has publish attributes, so
   * converting again changes nothing: the conversion is idempotent.
   */
  lemma SecondCallNoOp(publishAttributes: map<string, Entries<Value>>, creator: Entries<Value>, className: string)
    ensures var (p, c) := Converted(publishAttributes, creator, className);
      className in p && Converted(p, c, className) == (p, c)
  { }

  /**
   * The first conversion moves every listed value: the extractor's publish
   * attributes then hold each listed name with the creator's value exactly
   * when the creator held it, and the creator attributes no longer hold it.
   */
  lemma FirstCallMoves(publishAttributes: map<string, Entries<Value>>, creator: Entries<Value>, className: string, k: string)
    requires className !in publishAttributes && k in LegacyAttributes
    ensures var (p, c) := Converted(publishAttributes, creator, className);
      Get(p[className], k) == Get(creator, k) && !HasKey(c, k)
  {
    ListedMoved(LegacyAttributes, creator, k);
  }
}
