/**
 * The pointcache "visible only" collector: it copies the `visibleOnly`
 * publish attribute of the matching Alembic extractor into the instance
 * data, and writes nothing else.
 */
module CollectPointcacheVisibleOnly {
  import opened Strs
  import opened PyData

  /** The extractor whose publish attributes hold the flag. */
  function PluginName(productType: string): (r: string)
    ensures productType == "animation" <==> r == "ExtractAnimation"
    ensures productType != "animation" <==> r == "ExtractAlembic"
  {
    if productType == "animation" then "ExtractAnimation" else "ExtractAlembic"
  }

  /**
   * `process` on the instance data: `publishAttributes` is its
   * `publish_attributes` (None when missing), per plugin name.
   */
  function Collect(data: map<string, Value>, productType: string,
                   publishAttributes: Option<map<string, map<string, Value>>>): (r: map<string, Value>)
    ensures r.Keys == data.Keys || r.Keys == data.Keys + {"visibleOnly"}
    ensures forall k :: k in data && k != "visibleOnly" ==> k in r && r[k] == data[k]
  {
    var attrs := if publishAttributes.Some? then publishAttributes.value else map[];
    var pluginValues := if PluginName(productType) in attrs then attrs[PluginName(productType)] else map[];
    if "visibleOnly" in pluginValues then data["visibleOnly" := pluginValues["visibleOnly"]] else data
  }

  /** The flag is copied exactly when the plugin's attributes hold it, and then with their value. */
  lemma CopiedIff(data: map<string, Value>, productType: string, publishAttributes: Option<map<string, map<string, Value>>>)
    ensures var r := Collect(data, productType, publishAttributes);
      var name := PluginName(productType);
      if publishAttributes.Some? && name in publishAttributes.value && "visibleOnly" in publishAttributes.value[name]
      then r == data["visibleOnly" := publishAttributes.value[name]["visibleOnly"]]
      else r == data
  { }

  /** Missing publish attributes leave the data unchanged. */
  lemma MissingAttributesNoChange(data: map<string, Value>, productType: string)
    ensures Collect(data, productType, None) == data
  { }

  /** An animation instance reads the animation extractor's flag, not the Alembic one. */
  lemma AnimationReadsAnimationFlag(data: map<string, Value>, flag: Value, other: Value)
    ensures Collect(data, "animation",
                    Some(map["ExtractAnimation" := map["visibleOnly" := flag], "ExtractAlembic" := map["visibleOnly" := other]]))
            == data["visibleOnly" := flag]
  { }
}
