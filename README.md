# ayon-maya core, modelled and verified in Dafny

This project models the decision logic of AYON's Autodesk Maya integration and proves properties of it in Dafny.

- **Publish plugins.** The collectors, extractors and validators turn an instance's data and the project settings into:
  - export options: the Alembic job string, Maya USD and Multiverse USD options, and the OBJ and Redshift proxy option strings;
  - file names and representations;
  - verdicts on product names, frame ranges, naming suffixes, unique and clashing names, look contents, render settings and Alembic defaults.
- **The host library.** This covers:
  - namespaces: `get_namespace`, `strip_namespace`, `unique_namespace` and `get_custom_namespace`;
  - DAG paths: `iter_parents` and `get_highest_in_hierarchy`;
  - frame rates, component counts and `.xgen` line rewriting;
  - render products: token detection, AOV separators, per-renderer prefixes, the expected file sequence and extensions;
  - render settings: the writes that apply the studio defaults for each renderer.
- **Creators and loaders.** This covers:
  - instance caching, and the flattening of an instance's data onto its object set and back;
  - the loader colour and namespace;
  - the image and Arnold standin loaders;
  - the Ornatrix rig action.
- **The look assigner.** This covers the namespace of a node, grouping nodes by folder id, the Arnold visibility mask, filtering standin paths by id, and the assignment strings of a look.
- **Settings.** This covers the migrations of older settings overrides.

The model has these parts:
- Python values are the datatype `PyData.Value`. A dict is an ordered association list, because insertion order shows up in JSON text and in job strings.
- `Json` models `json.dumps` and `json.loads` with their default arguments.
- `PyConv` models `int()` and `float()` on text.
- `PosixPath` models the `os.path` functions.

Maya itself is not modelled:
- a scene's attributes are a map from `node.attribute` to value;
- the nodes and namespaces that exist, and the results of Maya queries, are parameters.

Where the source changes state step by step, the model is a method or a class, proved equal to a function that specifies it. Examples:
- the attribute writes of render settings;
- the loops that fill `invalid` lists;
- the in-place edits of instance data and placeholder data.

Where a line of the source looks like a slip, the model follows the code as written and proves the discrepancy on a concrete input. Beside it, the model gives the evidently intended definition and proves the intended property about it. See "## Findings".

## Model

| member | source | states |
|---|---|---|
| Plugin.GroupByMembers | client/ayon_maya/api/plugin.py:108-133 | a creator id or family is a cache key exactly when some instance set carries it, and its list is those sets in scene order |
| Plugin.CreatorOrLegacy | client/ayon_maya/api/plugin.py:114-130 | an object set is cached as a creator instance or as a legacy instance, never both; legacy ones carry an instance id |
| Plugin.CacheInstanceData | client/ayon_maya/api/plugin.py:93-134 | the loop fills both caches as the cache specification says, and the instance cache exists afterwards |
| Plugin.CachedIdempotent | client/ayon_maya/api/plugin.py:108 | once the instance cache exists, later calls leave the shared data unchanged |
| Plugin.PartsUnique | client/ayon_maya/api/plugin.py:172-176 | distinct creator-attribute keys stay distinct in the JSON part and in the flattened part |
| Plugin.SplitCreatorAttributes | client/ayon_maya/api/plugin.py:172-176 | the loop leaves exactly the non-container values in the creator attributes and moves list, tuple and dict values to the JSON dict, in order |
| Plugin.Imprint | client/ayon_maya/api/lib.py:612-661 | `imprint` succeeds exactly when every value has a supported type; then the node holds every new value (as stored) and keeps every other attribute |
| Plugin.ImprintInstanceNode | client/ayon_maya/api/plugin.py:152-203 | the node's attributes after `imprint_instance_node` equal the imprint specification of the flattened data |
| Plugin.MoveKeysStuck | client/ayon_maya/api/plugin.py:223-225 | once moving a key back raises, the whole move raises |
| Plugin.MoveCreatorKeys | client/ayon_maya/api/plugin.py:221-225 | the loop moving flattened keys back into the creator attributes computes the move specification |
| Plugin.ReadInstanceNode | client/ayon_maya/api/plugin.py:205-241 | the data read back from the node equals the read specification |
| Plugin.PartsFrom | client/ayon_maya/api/plugin.py:173-176 | every JSON-part entry is a container entry of the creator attributes and every flattened entry a non-container one |
| Plugin.PartsDisjoint | client/ayon_maya/api/plugin.py:173-176 | no key is in both the JSON part and the flattened part |
| Plugin.MoveAll | client/ayon_maya/api/plugin.py:221-225 | reading back moves each flattened key, in order, to the end of the creator attributes and removes it from the top level |
| Plugin.ScalarKeys | client/ayon_maya/api/plugin.py:179-196 | flattened keys clash with no top-level key, reserved key or comma, are storable, and the JSON part is encodable |
| Plugin.FlatLayout | client/ayon_maya/api/plugin.py:179-196 | the flattened data holds the JSON of the containers, the comma-joined key list, the flattened values and the remaining top-level values |
| Plugin.FlatStorable | client/ayon_maya/api/plugin.py:179-203 | every value of the flattened data is one `imprint` accepts |
| Plugin.ImprintedNode | client/ayon_maya/api/plugin.py:152-203 | `imprint_instance_node` succeeds on well-formed data and leaves the node holding the flattened layout |
| Plugin.ReadCreatorAttributes | client/ayon_maya/api/plugin.py:206-225 | reading decodes the JSON part, then moves every flattened key back into it |
| Plugin.DecodeContainers | client/ayon_maya/api/plugin.py:213-215 | the stored JSON decodes to the container attributes, tuples as lists |
| Plugin.KeysBack | client/ayon_maya/api/plugin.py:196-222 | the stored key list splits back into the flattened keys, or one empty name when there are none |
| Plugin.FinishBack | client/ayon_maya/api/plugin.py:228-239 | the publish attributes are decoded, `instance_node` and `instance_id` become the node name, other keys are untouched |
| Plugin.RoundTrip | client/ayon_maya/api/plugin.py:152-241 | imprint then read gives back the creator attributes (JSON-kept values first, tuples as lists, flattened ones after), the decoded publish attributes and every other top-level value as stored |
| Plugin.MovedHolds | client/ayon_maya/api/plugin.py:219-225 | after the move the creator attributes are reassembled and the other top-level values are still the node's |
| Plugin.ScalarRoundTrip | client/ayon_maya/api/plugin.py:152-241 | with only non-container creator attributes the round trip returns them exactly |
| Plugin.LoadColorFor | client/ayon_maya/api/plugin.py:625-655 | no colour exactly when the entry is falsy; ValueError exactly when it is not a 3- or 4-item list; otherwise its first three items |
| Plugin.LoadColorDropsAlpha | client/ayon_maya/api/plugin.py:644-647 | a fourth component is ignored: `[r, g, b, a]` gives the colour of `[r, g, b]` |
| Plugin.CustomNamespaceAndGroup | client/ayon_maya/api/plugin.py:668-717 | LoadError exactly when the namespace template is empty; `attach_to_root` is False exactly when the group template is empty; other options are untouched |
| SetDress.ToNamespaceParts | client/ayon_maya/api/setdress.py:30-44 | split on `\|`, the namespaced path is the original with `ns:` before every component after a `\|`, the text before the first `\|` untouched |
| SetDress.ToNamespaceRelative | client/ayon_maya/api/setdress.py:42-44 | a name without `\|` is returned unchanged |
| SetDress.ToNamespaceAbsolute | client/ayon_maya/api/setdress.py:30-44 | `\|a\|b` becomes `\|ns:a\|ns:b`, the docstring's example |
| SetDress.JoinLongSep | client/ayon_maya/api/setdress.py:44 | joining with `\|ns:` equals joining with `\|` after prefixing each later part with `ns:` |
| SetDress.Tag | client/ayon_maya/api/setdress.py:236 | the copy carries the representation id and agrees with the instance on every other key |
| SetDress.Namespace | client/ayon_maya/api/setdress.py:237 | the namespace lookup succeeds exactly when the key exists with a hashable value |
| SetDress.InstancesByNamespace | client/ayon_maya/api/setdress.py:226-241 | the nested loops compute the indexing specification, stopping at the first instance that raises |
| SetDress.IndexOkIff | client/ayon_maya/api/setdress.py:231-239 | the index exists exactly when every instance has a hashable namespace |
| SetDress.IndexKeys | client/ayon_maya/api/setdress.py:237-239 | the keys of the result are exactly the instances' namespaces |
| SetDress.IndexLast | client/ayon_maya/api/setdress.py:237-239 | under each namespace the result holds the last instance with that namespace |
| SetDress.InstancesCarryRepresentation | client/ayon_maya/api/setdress.py:231-239 | each result value is a copy of an input instance with that namespace, tagged with the id of the representation it was listed under |
| SetDress.CompareRepresentations | client/ayon_maya/api/setdress.py:595-608 | True exactly when representation name, folder id and product id all agree under Python's `==` (so `1` and `1.0` agree); False exactly when the first differing check in that order differs; otherwise a missing key raises |
| SetDress.CompareSame | client/ayon_maya/api/setdress.py:595-608 | comparing a representation with itself allows the switch |
| SetDress.CompareSymmetric | client/ayon_maya/api/setdress.py:595-608 | the answer does not depend on the direction of the switch |
| WorkfileTemplate.GroupIdsNodes | client/ayon_maya/api/workfile_template_builder.py:117-120 | an identifier is a key exactly when some node carries it, and its list is those nodes in scene order |
| WorkfileTemplate.NodeListed | client/ayon_maya/api/workfile_template_builder.py:118-120 | every placeholder node is listed under its own identifier |
| WorkfileTemplate.CollectScenePlaceholders | client/ayon_maya/api/workfile_template_builder.py:109-127 | the cached map when one exists, otherwise the grouping of the scene's nodes, which becomes the cache |
| WorkfileTemplate.EncodeValue | client/ayon_maya/api/workfile_template_builder.py:226-228 | scalars are kept; lists, tuples and dicts become `JSON::` text |
| WorkfileTemplate.ImprintPlaceholder | client/ayon_maya/api/workfile_template_builder.py:221-230 | the data is rewritten value by value in place, then imprinted on the node |
| WorkfileTemplate.DecodeValue | client/ayon_maya/api/workfile_template_builder.py:239-242 | unmarked values are kept; marked ones decode, and fail exactly when the text after `JSON::` is not JSON |
| WorkfileTemplate.DecodedPointwise | client/ayon_maya/api/workfile_template_builder.py:232-244 | `read` succeeds exactly when every marked value holds JSON, and then decodes value by value |
| WorkfileTemplate.DecodedErrFirst | client/ayon_maya/api/workfile_template_builder.py:239-242 | the first value that fails to decode decides the error |
| WorkfileTemplate.ReadPlaceholder | client/ayon_maya/api/workfile_template_builder.py:232-244 | the loop computes the decoding specification |
| WorkfileTemplate.ImprintReadRoundTrip | client/ayon_maya/api/workfile_template_builder.py:221-244 | read after imprint returns the data with tuples as lists |
| WorkfileTemplate.ChangedMembers | client/ayon_maya/api/workfile_template_builder.py:153-156 | an entry is a changed value exactly when Python's `!=` sees it differ from the item's stored value, so `2.0` over `2` or `True` over `1` is no change |
| WorkfileTemplate.ChangedValues | client/ayon_maya/api/workfile_template_builder.py:153-156 | the first loop collects exactly the entries Python's `!=` sees changed, in order |
| WorkfileTemplate.EqualNumberUnchanged | client/ayon_maya/api/workfile_template_builder.py:153-156 | an edit to `2.0` over a stored `2`, or to `True` over `1`, is no change, while the text `"2"` over `2` is one |
| WorkfileTemplate.UpdatePlaceholderAsWritten | client/ayon_maya/api/workfile_template_builder.py:150-165 | as written: every key Python's `!=` sees changed gets the last value of the first loop; the node is imprinted with exactly the changed entries |
| WorkfileTemplate.ApplyChanged | client/ayon_maya/api/workfile_template_builder.py:159-160 | the corrected second loop gives the item's data overridden by the changed values |
| WorkfileTemplate.UpdatePlaceholder | client/ayon_maya/api/workfile_template_builder.py:150-165 | corrected: each key Python's `!=` sees changed gets its own new value; the node is imprinted with exactly the changed entries |
| WorkfileTemplate.UpdatedHoldsNew | client/ayon_maya/api/workfile_template_builder.py:150-165 | after the corrected update every edited key reads its new value and unedited keys keep theirs |
| WorkfileTemplate.StaleValueShown | client/ayon_maya/api/workfile_template_builder.py:159-160 | with edits `a=1, b=2` the code as written stores 2 under `a`; the corrected update stores 1 |
| WorkfileTemplate.PlaceholderName | client/ayon_maya/api/workfile_template_builder.py:106-107 | the placeholder name has no `.` |
| WorkfileTemplate.CreatePlaceholder | client/ayon_maya/api/workfile_template_builder.py:129-148 | ValueError exactly when `use_selection_as_parent` is set and more than one node is selected; the single selected node is the parent exactly when the flag is set; the data carries the plugin identifier |
| WorkfileTemplate.PlaceholderToUpdate | client/ayon_maya/api/workfile_template_builder.py:264-282 | succeeds exactly when one selected node is a placeholder, and returns it |
| WorkfileTemplate.UpdateOnlyOne | client/ayon_maya/api/workfile_template_builder.py:277-282 | when the update goes ahead no other selected node is a placeholder |
| CollectLook.GetAttributes | client/ayon_maya/plugins/publish/collect_look.py:76-83 | KeyError exactly when the table has no entry for the attribute; otherwise a list value is returned as is and any other value wrapped in a list |
| CollectLook.GetAttributesWraps | client/ayon_maya/plugins/publish/collect_look.py:80-83 | the result is always a list built from the entry's value |
| CollectLook.UdimPathIsSequence | client/ayon_maya/plugins/publish/collect_look.py:136-148 | a path holding a sequence token (in any case) reads an image sequence |
| CollectLook.PlainPathNoSequence | client/ayon_maya/plugins/publish/collect_look.py:136-148 | without frame extension a path with no `<` holds no token and is not a sequence |
| CollectLook.SubPrefixFree | client/ayon_maya/plugins/publish/collect_look.py:183-191 | the substitution passes text without the pattern's first character through unchanged |
| CollectLook.SeqToGlob | client/ayon_maya/plugins/publish/collect_look.py:151-202 | the loop over the token table and the digit fallback compute the glob specification |
| CollectLook.SeqToGlobNone | client/ayon_maya/plugins/publish/collect_look.py:169-170 | no path gives no glob |
| CollectLook.TokenPassFree | client/ayon_maya/plugins/publish/collect_look.py:183-191 | token passes change nothing in a path without `<` and `#` |
| CollectLook.UdimGlob | client/ayon_maya/plugins/publish/collect_look.py:173-191 | `<UDIM>` between token-free text becomes `*` and nothing else changes |
| CollectLook.UdimExample | client/ayon_maya/plugins/publish/collect_look.py:158-159 | the docstring's `/path/to/texture.<UDIM>.tif` becomes `/path/to/texture.*.tif` |
| CollectLook.NoTokenIn | client/ayon_maya/plugins/publish/collect_look.py:173-191 | a path without `<` and `#` contains no token of the table |
| CollectLook.GlobBaseDigits | client/ayon_maya/plugins/publish/collect_look.py:193-202 | the last digit run of a base name is replaced by `*` |
| CollectLook.DigitGlob | client/ayon_maya/plugins/publish/collect_look.py:193-202 | without tokens, the last digit run of the basename becomes `*` and the directory is kept |
| CollectLook.DigitGlobName | client/ayon_maya/plugins/publish/collect_look.py:193-202 | the same for a name without a directory |
| CollectLook.DigitExample | client/ayon_maya/plugins/publish/collect_look.py:155-156 | the docstring's `/path/to/file.1001.exr` becomes `/path/to/file.*.exr` |
| CollectLook.PlainPathUnchanged | client/ayon_maya/plugins/publish/collect_look.py:193-202 | a path without tokens or digits is returned unchanged |
| CollectLook.CollectMemberData | client/ayon_maya/plugins/publish/collect_look.py:479-505 | None for a member outside the set or without an id; otherwise its name, id and (when it names a component) the component list |
| CollectLook.SplitMemberJoin | client/ayon_maya/plugins/publish/collect_look.py:490-495 | the node and component split puts the member back together |
| ExtractLook.GetResourceDestination | client/ayon_maya/plugins/publish/extract_look.py:744-774 | the method computes the destination specification |
| ExtractLook.DestinationName | client/ayon_maya/plugins/publish/extract_look.py:759-774 | without an overriding last processor the destination is the resources directory joined with the basename; with one, its root with the processor's extension |
| ExtractLook.DestinationLastOnly | client/ayon_maya/plugins/publish/extract_look.py:762-770 | processors before the last never change the destination |
| ExtractLook.DestinationWithMakeTx | client/ayon_maya/plugins/publish/extract_look.py:759-774 | `<dir>/<name>.exr` with `maketx` goes to `<resources>/<name>.tx` |
| ExtractLook.SetResultColorspace | client/ayon_maya/plugins/publish/extract_look.py:581-594 | afterwards the result colour space is the given one and nothing else of the resource changed |
| ExtractLook.ProcessTexture | client/ayon_maya/plugins/publish/extract_look.py:792-867 | more than one processor raises; one processor gives its result or raises on none; no processor gives a COPY of the file itself with forced copy, and raises without it |
| ExtractLook.NoHardlinkWithoutProcessor | client/ayon_maya/plugins/publish/extract_look.py:46-60 | without forced copy and processors the published-hash lookup raises |
| ExtractLook.ProcessResources | client/ayon_maya/plugins/publish/extract_look.py:596-741 | the loops compute the extraction specification, stopping at the first error |
| ExtractLook.FileStepOnce | client/ayon_maya/plugins/publish/extract_look.py:644-706 | one file makes its normalised path processed, keeps earlier results and adds a transfer exactly when the path is new |
| ExtractLook.FileReused | client/ayon_maya/plugins/publish/extract_look.py:647-673 | a file already processed changes nothing but the resource's result colour space, which becomes the earlier result |
| ExtractLook.FilesStepOnce | client/ayon_maya/plugins/publish/extract_look.py:644-706 | the same over all files of a resource |
| ExtractLook.ExtractionOnce | client/ayon_maya/plugins/publish/extract_look.py:639-741 | the processed paths are exactly the normalised paths of all files, with one transfer each and no hardlink |
| ExtractLook.ExtractionKeeps | client/ayon_maya/plugins/publish/extract_look.py:647-690 | results recorded for earlier resources are never replaced |
| ExtractLook.FirstMappedIsFirst | client/ayon_maya/plugins/publish/extract_look.py:436-446 | the scene type is that of the first family in the mapping, or unchanged when none is |
| ExtractLook.LookExtractor.GetMayaSceneType | client/ayon_maya/plugins/publish/extract_look.py:422-448 | the scene type becomes the first mapped family's; the result is `mayaAscii` exactly when it is `ma`; the model render sets extractor then prefixes it |
| ExtractLook.MayaSceneKind | client/ayon_maya/plugins/publish/extract_look.py:448 | `mayaAscii` exactly for `ma` |
| ExtractLook.ExtraArgsConcat | client/ayon_maya/plugins/publish/extract_look.py:255-265 | the argument list of two settings lists is the concatenation of theirs |
| ExtractLook.ExtraArgsOne | client/ayon_maya/plugins/publish/extract_look.py:256-265 | one item contributes its argument and parameters, or nothing when its argument is empty |
| ExtractLook.MakeTX.ApplySettings | client/ayon_maya/plugins/publish/extract_look.py:249-267 | `extra_args` becomes the in-order argument list of the settings |
| ExtractPointcache.MetersPerUnit | client/ayon_maya/plugins/publish/extract_pointcache.py:81-90 | a unit converts exactly when it is mm, cm, m or km, and then to a positive factor; any other unit is a ValueError |
| ExtractPointcache.AttrList | client/ayon_maya/plugins/publish/extract_pointcache.py:162-188 | a `;`-separated attribute setting gives its items stripped of Python whitespace (the `str.isspace` set, `\x1f` and `\xa0` included), empty ones dropped; a non-str setting fails |
| ExtractPointcache.KwargsOk | client/ayon_maya/plugins/publish/extract_pointcache.py:157-273 | the keyword arguments are built exactly when the attribute settings are strings, the extra attribute lists are iterable and the creator attributes are a dict |
| ExtractPointcache.PreRollNeverSet | client/ayon_maya/plugins/publish/extract_pointcache.py:300-306 | after the conversion `preRoll` is never set, and `preRollStartFrame` keeps its value exactly when a pre-roll was requested, else is None |
| ExtractPointcache.PreRollOnly | client/ayon_maya/plugins/publish/extract_pointcache.py:300-306 | the conversion changes nothing but the two pre-roll keywords |
| ExtractPointcache.NoNormalsNegates | client/ayon_maya/plugins/publish/extract_pointcache.py:270-272 | `noNormals` is set exactly when `writeNormals` is falsy |
| ExtractPointcache.AttrOrder | client/ayon_maya/plugins/publish/extract_pointcache.py:162-169 | `attr` is the split setting, then the instance's user-defined attributes, then the baked attributes, with `cbId` last |
| ExtractPointcache.PerFrameCallback | client/ayon_maya/plugins/publish/extract_pointcache.py:262-264 | (corrected) an unset per-frame callback falls back to its own class setting |
| ExtractPointcache.PerFrameCallbackAsWritten | client/ayon_maya/plugins/publish/extract_pointcache.py:262-264 | as written, an unset per-frame callback falls back to the post-job callback's class setting |
| ExtractPointcache.PerFrameTakesPostJob | client/ayon_maya/plugins/publish/extract_pointcache.py:262-264 | with settings `f` and `p` and no publish attribute, the code as written passes `p` as the per-frame callback where the corrected one passes `f` |
| ExtractPointcache.AttributeDefs | client/ayon_maya/plugins/publish/extract_pointcache.py:414-659 | the definitions are the base ones alone without overrides; otherwise the base, a separator and label, the listed overrides in definition order, and a closing separator |
| ExtractPointcache.Exposed | client/ayon_maya/plugins/publish/extract_pointcache.py:652-657 | a definition is shown exactly when its key is among the first n override keys and listed in the overrides |
| ExtractPointcache.ExposedExactly | client/ayon_maya/plugins/publish/extract_pointcache.py:652-657 | with overrides set, a key's definition is shown exactly when it is an overridable key that the overrides list |
| ExtractPointcache.NoOverridesBase | client/ayon_maya/plugins/publish/extract_pointcache.py:415-416 | without overrides only the base definitions are returned |
| ExtractPointcache.OutSets | client/ayon_maya/plugins/publish/extract_pointcache.py:685 | the `out_SET` candidates are exactly the members whose name ends in `out_SET` |
| ExtractPointcache.MembersAndRoots | client/ayon_maya/plugins/publish/extract_pointcache.py:670-697 | succeeds exactly when there is one `out_SET`; its members are the roots, and the nodes are the roots followed by their descendants |
| ExtractPointcache.TwoOutSetsRaise | client/ayon_maya/plugins/publish/extract_pointcache.py:685-688 | two members ending in `out_SET` make it raise |
| ExtractMayaUsd.ParseVersionText | client/ayon_maya/plugins/publish/extract_maya_usd.py:14-16 | a version written as dot-joined numbers parses back to those numbers |
| ExtractMayaUsd.ParseVersionExample | client/ayon_maya/plugins/publish/extract_maya_usd.py:15 | `0.26.0` parses to (0, 26, 0) |
| ExtractMayaUsd.VersionLessIrreflexive | client/ayon_maya/plugins/publish/extract_maya_usd.py:346 | no version is below itself |
| ExtractMayaUsd.VersionLessTransitive | client/ayon_maya/plugins/publish/extract_maya_usd.py:346 | version order is transitive |
| ExtractMayaUsd.VersionLessTotal | client/ayon_maya/plugins/publish/extract_maya_usd.py:346 | two different versions are ordered one way or the other |
| ExtractMayaUsd.TypeCheck | client/ayon_maya/plugins/publish/extract_maya_usd.py:166-188 | (corrected) a value passes when it has the declared type, or is None for an optional option, and the test never raises |
| ExtractMayaUsd.DefaultsDeclared | client/ayon_maya/plugins/publish/extract_maya_usd.py:153-217 | the defaults cover exactly the declared options |
| ExtractMayaUsd.ParseOverrides | client/ayon_maya/plugins/publish/extract_maya_usd.py:219-247 | the result is the options with each declared, well-typed override copied in and then every None value removed, or a TypeError when a type test raises |
| ExtractMayaUsd.CopyOverrides | client/ayon_maya/plugins/publish/extract_maya_usd.py:222-240 | the first loop copies exactly the accepted overrides, or stops at a raising type test |
| ExtractMayaUsd.DropNoneValues | client/ayon_maya/plugins/publish/extract_maya_usd.py:242-245 | the second loop removes exactly the None-valued options |
| ExtractMayaUsd.ParsedShape | client/ayon_maya/plugins/publish/extract_maya_usd.py:219-247 | a key is kept exactly when its copied-or-original value is not None, and every kept key is an option or a declared override |
| ExtractMayaUsd.ParsedTyped | client/ayon_maya/plugins/publish/extract_maya_usd.py:226-240 | every kept value is an override of its declared type or the option's own value |
| ExtractMayaUsd.ParseNeverRaises | client/ayon_maya/plugins/publish/extract_maya_usd.py:230 | with the corrected type test `parse_overrides` always answers |
| ExtractMayaUsd.OptionalOverrideRaises | client/ayon_maya/plugins/publish/extract_maya_usd.py:230 | as written `{"shadingMode": 1}` and `{"chaser": None}` raise TypeError; corrected, `{"chaser": None}` is accepted (with lines 167 and 183 of the same file) |
| ExtractMayaUsd.DefaultsShape | client/ayon_maya/plugins/publish/extract_maya_usd.py:190-217 | the defaults are all declared and `stripNamespaces` defaults to True |
| ExtractMayaUsd.ParseKeepsShape | client/ayon_maya/plugins/publish/extract_maya_usd.py:219-247 | from declared options the result is declared, free of None and keeps a bool `stripNamespaces`; undeclared keys never appear |
| ExtractMayaUsd.ProcessOptionsShape | client/ayon_maya/plugins/publish/extract_maya_usd.py:273-275 | after both overrides the options have that shape and hold none of `defaultPrim`, `rootPrim`, `exportRoots` |
| ExtractMayaUsd.ParseAttrStr | client/ayon_maya/plugins/publish/extract_maya_usd.py:312-327 | every item is stripped of Python whitespace (the `str.isspace` set), non-empty and free of commas |
| ExtractMayaUsd.ParseAttrStrJoin | client/ayon_maya/plugins/publish/extract_maya_usd.py:312-327 | clean, comma-free items joined with commas parse back to themselves |
| ExtractMayaUsd.UsdAttrs | client/ayon_maya/plugins/publish/extract_maya_usd.py:329-331 | the exported attribute list always ends with `cbId` |
| ExtractMayaUsd.DropUnsupported | client/ayon_maya/plugins/publish/extract_maya_usd.py:338-354 | removes exactly the options whose minimal Maya USD version is above the installed one |
| ExtractMayaUsd.RecentKeepsAll | client/ayon_maya/plugins/publish/extract_maya_usd.py:341-345 | a version of at least 0.21.0 drops nothing |
| ExtractMayaUsd.UnsupportedMonotone | client/ayon_maya/plugins/publish/extract_maya_usd.py:341-354 | an older version drops at least what a newer one drops |
| ExtractMayaUsd.OldestDropsAll | client/ayon_maya/plugins/publish/extract_maya_usd.py:335-345 | Maya USD 0.13.0 drops all three gated options |
| ExtractMayaUsd.PrimName | client/ayon_maya/plugins/publish/extract_maya_usd.py:366-369 | the default prim is a suffix of the root with no `\|`, and no `:` when namespaces are stripped |
| ExtractMayaUsd.NoMembersNoExport | client/ayon_maya/plugins/publish/extract_maya_usd.py:280-284 | with no members `process` returns without exporting and without raising; with members it exports or raises |
| ExtractMayaUsd.FilterTypesConstraint | client/ayon_maya/plugins/publish/extract_maya_usd.py:310 | whenever an export happens, its options filter constraints |
| ExtractMayaUsd.PreparedKeys | client/ayon_maya/plugins/publish/extract_maya_usd.py:287-354 | the prepared options keep `stripNamespaces`, hold the roots exactly when roots are exported, and never a default or root prim |
| ExtractMayaUsd.DefaultPrimExactly | client/ayon_maya/plugins/publish/extract_maya_usd.py:356-370 | in an export that happens, the default prim is set exactly for Maya USD 0.30.0 with at least one exported root, and is the first root's prim name |
| Alembic.ForwardSlashes | client/ayon_maya/api/alembic.py:206 | no backslash is left and every other character stays in place |
| Alembic.OrEmpty | client/ayon_maya/api/alembic.py:209-213 | a falsy list argument becomes `[]`; a truthy one is kept |
| Alembic.InitialUnique | client/ayon_maya/api/alembic.py:236-260 | the assembled options dict has distinct keys |
| Alembic.NonBlank | client/ayon_maya/api/alembic.py:281-282 | every kept item is a string that is not blank once stripped of Python whitespace (the `str.isspace` set, so `"\x1f"` is blank); a non-string item has no `strip` and fails |
| Alembic.ValidateStuck | client/ayon_maya/api/alembic.py:264-289 | once an option has raised, the later options are never looked at |
| Alembic.ValidateAllKeys | client/ayon_maya/api/alembic.py:264-289 | validation never adds a key |
| Alembic.FailStep | client/ayon_maya/api/alembic.py:273-277 | an option of the wrong type raises `TypeError`, and that is the result of the whole validation |
| Alembic.ValidateOptions | client/ayon_maya/api/alembic.py:264-289 | the loop over a copy of the options pops unknown keys and emptied lists, prunes blank list items and raises on a wrong type, as the validation specification says |
| Alembic.ValidateAllFails | client/ayon_maya/api/alembic.py:264-289 | validation fails exactly when some option fails its type check, and then with the first such option's exception |
| Alembic.ValidatedShape | client/ayon_maya/api/alembic.py:264-289 | what survives is only known flags, each of its declared type, lists as non-empty lists of non-blank strings, in the original order |
| Alembic.RenameCreasesMoves | client/ayon_maya/api/alembic.py:291-294 | from Maya 2018 on no `writeCreases` flag is left and `autoSubd` holds its value (False when absent) |
| Alembic.AddCallbacksGet | client/ayon_maya/api/alembic.py:296-305 | a callback flag is set exactly when its callback is non-empty, to that callback |
| Alembic.LastSet | client/ayon_maya/api/alembic.py:303-305 | the last set callback for a flag is the one that stays |
| Alembic.JobArgsAppend | client/ayon_maya/api/alembic.py:308-318 | the job arguments of two dicts in a row are those of each, in a row |
| Alembic.BoolFlag | client/ayon_maya/api/alembic.py:314-317 | a False flag adds no argument; a True one adds exactly its bare flag |
| Alembic.BuildJobArgs | client/ayon_maya/api/alembic.py:308-318 | the nested loop builds the job arguments of the specification, one option and one list entry at a time |
| Alembic.JobStringFile | client/ayon_maya/api/alembic.py:320-321 | the job string always ends with the `-file` argument holding the path with forward slashes only |
| Alembic.FinalOptionsReady | client/ayon_maya/api/alembic.py:291-318 | the options handed to the job-string loop are always of a type the loop can write |
| Alembic.ExtractAlembicJob | client/ayon_maya/api/alembic.py:202-321 | the step-by-step extraction computes the `extract_alembic` specification up to the export call |
| Alembic.ValidArgsGiveJob | client/ayon_maya/api/alembic.py:264-321 | once the frame range and validation succeed, the job string is always built |
| Alembic.FrameRangeCases | client/ayon_maya/api/alembic.py:215-234 | an empty frame range becomes the start and end frame joined by a space, an int bound fails the assertion, a two-item range is joined the same way and any other length fails |
| Chunking.ChunksCount | client/ayon_maya/plugins/publish/extract_camera_mayaScene.py:40-47 | there are as many chunks as it takes to hold every element n at a time, and none exactly for no elements |
| Chunking.ChunksAt | client/ayon_maya/plugins/publish/extract_camera_mayaScene.py:40-47 | chunk k is the slice starting at k·n, cut at n elements or at the end |
| Chunking.ChunksPrepend | client/ayon_maya/plugins/publish/extract_camera_mayaScene.py:40-47 | a full chunk in front adds exactly that chunk |
| Chunking.ChunksLast | client/ayon_maya/plugins/publish/extract_camera_mayaScene.py:40-47 | at most n elements form a single chunk |
| Chunking.ChunksFlatten | client/ayon_maya/plugins/publish/extract_camera_mayaScene.py:40-47 | flattening the chunks gives back the sequence |
| Chunking.ChunksSizes | client/ayon_maya/plugins/publish/extract_camera_mayaScene.py:40-47 | every chunk is non-empty with at most n elements, and all but the last hold exactly n |
| Chunking.FlattenAppend | client/ayon_maya/plugins/publish/extract_camera_mayaScene.py:40-47 | flattening distributes over concatenation |
| CollectPointcacheVisibleOnly.PluginName | client/ayon_maya/plugins/publish/collect_pointcache_visible_only.py:14-17 | `ExtractAnimation` exactly for an animation product, `ExtractAlembic` otherwise |
| CollectPointcacheVisibleOnly.Collect | client/ayon_maya/plugins/publish/collect_pointcache_visible_only.py:12-24 | the instance data gains at most the `visibleOnly` key, and every other key keeps its value |
| CollectPointcacheVisibleOnly.CopiedIff | client/ayon_maya/plugins/publish/collect_pointcache_visible_only.py:19-24 | the flag is copied exactly when the plugin's publish attributes hold it, and then with their value |
| CollectPointcacheVisibleOnly.MissingAttributesNoChange | client/ayon_maya/plugins/publish/collect_pointcache_visible_only.py:19-22 | without publish attributes the data is unchanged |
| CollectPointcacheVisibleOnly.AnimationReadsAnimationFlag | client/ayon_maya/plugins/publish/collect_pointcache_visible_only.py:14-24 | an animation instance takes the animation extractor's flag, never the Alembic one |
| ConnectOrnatrixRig.NodeNameBare | client/ayon_maya/plugins/inventory/connect_ornatrix_rig.py:15-26 | the node name holds neither `\|` nor `:` |
| ConnectOrnatrixRig.NodeNameIdempotent | client/ayon_maya/plugins/inventory/connect_ornatrix_rig.py:15-26 | taking the node name twice is taking it once |
| ConnectOrnatrixRig.NodeNameOfPath | client/ayon_maya/plugins/inventory/connect_ornatrix_rig.py:15-26 | parents and namespaces in front of a bare leaf are dropped, as the doctests show |
| ConnectOrnatrixRig.OfType | client/ayon_maya/plugins/inventory/connect_ornatrix_rig.py:38-49 | the containers grouped under a product type all have that type and come in selection order |
| ConnectOrnatrixRig.OfTypeExactly | client/ayon_maya/plugins/inventory/connect_ornatrix_rig.py:44-49 | a container is in its product type's group exactly when it was selected with that type |
| ConnectOrnatrixRig.SourcesExactly | client/ayon_maya/plugins/inventory/connect_ornatrix_rig.py:52-53 | a container is a source exactly when it is a selected animation or pointcache |
| ConnectOrnatrixRig.BaseIsDot | client/ayon_maya/plugins/inventory/connect_ornatrix_rig.py:104-107 | as written, every `.oxg.zip` rig file gets the base `.`, so the settings file looked for is `..rigsettings` |
| ConnectOrnatrixRig.BaseIntendedRoundTrip | client/ayon_maya/plugins/inventory/connect_ornatrix_rig.py:99-107 | corrected, the base with `.oxg.zip` appended is the rig file itself |
| ConnectOrnatrixRig.NodeLoads | client/ayon_maya/plugins/inventory/connect_ornatrix_rig.py:121-136 | at most one groom load per source node |
| ConnectOrnatrixRig.NodeLoadsFound | client/ayon_maya/plugins/inventory/connect_ornatrix_rig.py:121-136 | grooms are loaded only onto bare node names the scene has, and from the rig's groom file |
| ConnectOrnatrixRig.StopsAtMissingTarget | client/ayon_maya/plugins/inventory/connect_ornatrix_rig.py:124-134 | a source node without a target stops the whole action after the nodes before it |
| ConnectOrnatrixRig.Process | client/ayon_maya/plugins/inventory/connect_ornatrix_rig.py:36-136 | one warning and nothing loaded when the selection is not one alembic source and at least one rig; otherwise the loads of every rig in order, using the base as written |
| ConnectOrnatrixRig.GroomNodes | client/ayon_maya/plugins/inventory/connect_ornatrix_rig.py:121-136 | the inner loop computes the node-load specification |
| ExtractCameraMayaScene.MassageMaFile | client/ayon_maya/plugins/publish/extract_camera_mayaScene.py:14-37 | the lines written back are exactly the rewrite of the lines read: every line not starting, once stripped of Python whitespace (the `str.isspace` set), with `rename -uid `, in order |
| ExtractCameraMayaScene.MassagedAppend | client/ayon_maya/plugins/publish/extract_camera_mayaScene.py:28-34 | the rewrite works line by line: rewriting two runs of lines is rewriting each in turn |
| ExtractCameraMayaScene.MassagedKeeps | client/ayon_maya/plugins/publish/extract_camera_mayaScene.py:28-34 | a line survives exactly when it was in the file and is not a `rename -uid` line |
| ExtractCameraMayaScene.MassagedIdempotent | client/ayon_maya/plugins/publish/extract_camera_mayaScene.py:14-37 | massaging an already massaged file changes nothing |
| ExtractCameraMayaScene.Pad | client/ayon_maya/plugins/publish/extract_camera_mayaScene.py:48 | a short last group is filled with the fill value up to n, keeping its items in front |
| ExtractCameraMayaScene.GroupSizes | client/ayon_maya/plugins/publish/extract_camera_mayaScene.py:40-48 | `grouper` gives ceil(len / n) groups of exactly n items each |
| ExtractCameraMayaScene.GroupItem | client/ayon_maya/plugins/publish/extract_camera_mayaScene.py:40-48 | position i of group k holds item n*k + i where the input has one |
| ExtractCameraMayaScene.GroupFill | client/ayon_maya/plugins/publish/extract_camera_mayaScene.py:40-48 | past the end of the input the positions hold the fill value |
| ExtractCameraMayaScene.GroupIsPadded | client/ayon_maya/plugins/publish/extract_camera_mayaScene.py:40-48 | each group is the matching slice of the input padded to n |
| ExtractCameraMayaScene.ThreeGroups | client/ayon_maya/plugins/publish/extract_camera_mayaScene.py:40-48 | two full groups and a short rest become those two groups and the padded rest |
| ExtractCameraMayaScene.GrouperExample | client/ayon_maya/plugins/publish/extract_camera_mayaScene.py:44 | `grouper('ABCDEFG', 3, 'x')` gives ABC, DEF, Gxx, as the docstring says |
| ExtractCameraMayaScene.FileType | client/ayon_maya/plugins/publish/extract_camera_mayaScene.py:210 | the export is `mayaAscii` exactly for scene type `ma`, and `mayaBinary` otherwise |
| ExtractCameraMayaScene.CameraExtractor.SelectSceneType | client/ayon_maya/plugins/publish/extract_camera_mayaScene.py:105-128 | the scene type becomes the mapped extension of the first family (camera, then matchmove) the mapping holds, and stays as it was when none is mapped |
| ExtractLayout.ConvertMatrixTo4x4List | client/ayon_maya/plugins/publish/extract_layout.py:23-41 | the rows built by the loop are the slices of four of the flat list, the last cut at its end |
| ExtractLayout.RowsAreSlices | client/ayon_maya/plugins/publish/extract_layout.py:39-40 | row k is `value[4k:4k+4]` as Python slices it |
| ExtractLayout.RowsJoin | client/ayon_maya/plugins/publish/extract_layout.py:23-41 | joining the rows gives back the flat list, so no element is lost or repeated |
| ExtractLayout.RowCount | client/ayon_maya/plugins/publish/extract_layout.py:39 | there are ceil(len / 4) rows, all of four elements but possibly the last, none empty |
| ExtractLayout.SixteenRows | client/ayon_maya/plugins/publish/extract_layout.py:23-41 | a 16-element matrix becomes its four consecutive rows |
| ExtractLayout.IdentityRows | client/ayon_maya/plugins/publish/extract_layout.py:23-41 | the flat identity becomes the 4 x 4 identity |
| ExtractMultiverseUsd.DefaultsDeclared | client/ayon_maya/plugins/publish/extract_multiverse_usd.py:32-122 | every declared option has a default and every default is declared |
| ExtractMultiverseUsd.TypesSingle | client/ayon_maya/plugins/publish/extract_multiverse_usd.py:32-81 | every option is declared with one type, none as a `(type, None)` pair |
| ExtractMultiverseUsd.DefaultsTyped | client/ayon_maya/plugins/publish/extract_multiverse_usd.py:44-122 | every default has its option's declared type |
| ExtractMultiverseUsd.AnimDefaultsDiffer | client/ayon_maya/plugins/publish/extract_multiverse_usd.py:258-263 | the animation defaults have the same keys and differ only in `writeSparseOverrides`, `writeUsdAttributes` and `stripNamespaces`, all True |
| ExtractMultiverseUsd.ParseOverrides | client/ayon_maya/plugins/publish/extract_multiverse_usd.py:124-147 | walking the instance data in order, every declared key whose value has the declared type replaces the option; the result is the shared override function without the None removal |
| ExtractMultiverseUsd.NeverRaises | client/ayon_maya/plugins/publish/extract_multiverse_usd.py:134 | with single-type declarations the type test never raises |
| ExtractMultiverseUsd.OverridesTyped | client/ayon_maya/plugins/publish/extract_multiverse_usd.py:127-145 | no option is dropped, and every value is a well-typed override or the option's own value |
| ExtractMultiverseUsd.NoneKept | client/ayon_maya/plugins/publish/extract_multiverse_usd.py:124-147 | a None-valued option that is not overridden stays None |
| ExtractMultiverseUsd.MultiverseExtractor.SelectSceneType | client/ayon_maya/plugins/publish/extract_multiverse_usd.py:162-165 | an int or bool `fileFormat` index (default 0) in range picks the scene type; a float equal to 0, 1 or 2 passes the range test and raises TypeError at the list index; any other value leaves the scene type as it was |
| ExtractMultiverseUsd.FormatChoices | client/ayon_maya/plugins/publish/extract_multiverse_usd.py:162-164 | index 0 is usd; exactly the indices 0 to 2 are in range, giving usd, usda and usdz |
| ExtractMultiverseUsd.TimeOpts | client/ayon_maya/plugins/publish/extract_multiverse_usd.py:188-207 | a single frame gives no time options; otherwise the range is start minus the start handle to end plus the end handle, and a missing `step`, or a sample setting missing from the options (even when the instance has its own), is a KeyError |
| ExtractMultiverseUsd.TimeRangeCovers | client/ayon_maya/plugins/publish/extract_multiverse_usd.py:199-200 | with non-negative handles the written range covers start to end |
| ExtractMultiverseUsd.WriteOptions | client/ayon_maya/plugins/publish/extract_multiverse_usd.py:210-226 | exactly the options outside the discarded time keys are set on the write options, each with its value |
| ExtractMultiverseUsd.DefaultsWritten | client/ayon_maya/plugins/publish/extract_multiverse_usd.py:210-226 | of the defaults, the sample settings never reach the write options and `writeMeshes` does |
| ExtractMultiverseUsd.FirstOutSet | client/ayon_maya/plugins/publish/extract_multiverse_usd.py:266 | the index found is the first member ending in `out_SET`, and none is found exactly when no member ends so |
| ExtractMultiverseUsd.AnimMembers | client/ayon_maya/plugins/publish/extract_multiverse_usd.py:265-273 | the animation variant exports nothing exactly when no member ends in `out_SET`, and otherwise the members of such a set |
| ExtractObj.GetTexturesFromMtl | client/ayon_maya/plugins/publish/extract_obj.py:11-54 | the loop over the file's lines, each stripped of Python whitespace (the `str.isspace` set), collects exactly the set of textures the lines name, each joined to the `.mtl` file's folder |
| ExtractObj.TexturesMember | client/ayon_maya/plugins/publish/extract_obj.py:47-52 | a path is a texture exactly when some line starting with a map prefix names it as its last space-separated token |
| ExtractObj.TextureNamed | client/ayon_maya/plugins/publish/extract_obj.py:47-52 | every texture comes from some map line |
| ExtractObj.NamedTexture | client/ayon_maya/plugins/publish/extract_obj.py:47-52 | every map line contributes its texture |
| ExtractObj.TexturesAppend | client/ayon_maya/plugins/publish/extract_obj.py:47-52 | the textures of two runs of lines are the union of each run's |
| ExtractObj.TexturesRepeat | client/ayon_maya/plugins/publish/extract_obj.py:45-52 | reading the same lines again adds nothing, the result being a set |
| ExtractObj.TexturesIgnore | client/ayon_maya/plugins/publish/extract_obj.py:48 | a line not starting with a map prefix adds nothing wherever it stands |
| ExtractObj.MapLineTexture | client/ayon_maya/plugins/publish/extract_obj.py:32-52 | a map prefix followed by a space-free name and trailing whitespace is a map line naming exactly that file |
| ExtractObj.NotMapLine | client/ayon_maya/plugins/publish/extract_obj.py:32-48 | the prefixes are case-sensitive: a line whose first letter starts no prefix never counts |
| ExtractObj.OptionItems | client/ayon_maya/plugins/publish/extract_obj.py:114-116 | one `key=val` item per option, in the options' order |
| ExtractObj.OptionsStringItems | client/ayon_maya/plugins/publish/extract_obj.py:69-116 | the options string splits at `;` into the five default keys in order, and `materials` is 1 exactly when shaders are included |
| ExtractObj.MtlPathOf | client/ayon_maya/plugins/publish/extract_obj.py:143 | the `.mtl` path is the `.obj` path with its suffix replaced |
| ExtractObj.TextureTransfersExactly | client/ayon_maya/plugins/publish/extract_obj.py:152-157 | every texture is transferred to the publish folder under its base name, and every texture transfer is of a texture |
| ExtractObj.AddRepresentationAsWritten | client/ayon_maya/plugins/publish/extract_obj.py:159-168 | as written, appending succeeds only when `representations` already exists |
| ExtractObj.AddRepresentation | client/ayon_maya/plugins/publish/extract_obj.py:159-168 | (corrected) a missing list is created holding only the new representation, and no other key is added |
| ExtractObj.AddRepresentationAppends | client/ayon_maya/plugins/publish/extract_obj.py:168 | an existing list gains exactly the new representation at its end, as written and corrected alike |
| ExtractObj.MissingRepresentations | client/ayon_maya/plugins/publish/extract_obj.py:159-168 | without `representations` the code as written raises KeyError where the corrected guard creates the list |
| ExtractRedshiftProxy.PyRange | client/ayon_maya/plugins/publish/extract_redshift_proxy.py:56-59 | Python's `range` with a non-zero step starts at its start when it is not empty |
| ExtractRedshiftProxy.RangeSteps | client/ayon_maya/plugins/publish/extract_redshift_proxy.py:56-59 | each frame is the previous one plus the step, and every frame lies before the stop in the step's direction |
| ExtractRedshiftProxy.RangeEnds | client/ayon_maya/plugins/publish/extract_redshift_proxy.py:56-59 | the range stops at the last frame before the stop; with a positive step it is empty exactly when the start is not below the stop |
| ExtractRedshiftProxy.FrameFiles | client/ayon_maya/plugins/publish/extract_redshift_proxy.py:55-64 | one file per frame of `range(start, end + 1, step)` |
| ExtractRedshiftProxy.CollectFrameFiles | client/ayon_maya/plugins/publish/extract_redshift_proxy.py:55-64 | the files collected are exactly the file of each frame of `range(start, end + 1, step)`, in range order |
| ExtractRedshiftProxy.FilesOf | client/ayon_maya/plugins/publish/extract_redshift_proxy.py:60-64 | the loop yields one file per frame, the j-th being the name with the j-th frame padded to four digits in place of `.####.rs` |
| ExtractRedshiftProxy.FrameFileOf | client/ayon_maya/plugins/publish/extract_redshift_proxy.py:60-63 | a frame's file is the instance name, the frame right-justified to four digits with zeros, and `.rs` (with line 29 of the same file) |
| ExtractRedshiftProxy.FrameFilesDistinct | client/ayon_maya/plugins/publish/extract_redshift_proxy.py:60-63 | different frames write different files |
| ExtractRedshiftProxy.Extract | client/ayon_maya/plugins/publish/extract_redshift_proxy.py:21-100 | the export succeeds only when `animation` is set on the instance (a missing one is a KeyError) |
| ExtractRedshiftProxy.StillProxy | client/ayon_maya/plugins/publish/extract_redshift_proxy.py:36-46 | a still proxy loses exactly the six frame keys, keeps every other value, uses the base options and has the `.####.rs` pattern as its file (with lines 86-97 of the same file) |
| ExtractRedshiftProxy.AnimatedProxy | client/ayon_maya/plugins/publish/extract_redshift_proxy.py:48-64 | an animated proxy's options are the base options followed by the raw start, end and step texts, its files are those of the frames of the `int()`-converted range, and no instance key is lost |
| ExtractRedshiftProxy.FloatFrames | client/ayon_maya/plugins/publish/extract_redshift_proxy.py:48-64 | whole frames stored as floats give options carrying the float text (`1001.0`) and the files of the whole frames |
| ExtractRedshiftProxy.ZeroStep | client/ayon_maya/plugins/publish/extract_redshift_proxy.py:56-59 | a step converting to zero raises ValueError, as `range` does |
| ExtractRedshiftProxy.MissingFrameKey | client/ayon_maya/plugins/publish/extract_redshift_proxy.py:49-53 | a missing `step` raises KeyError after the two frame keys are read |
| ExtractRedshiftProxy.DefaultLayer | client/ayon_maya/plugins/publish/extract_redshift_proxy.py:73 | without `renderLayer` the export is from `defaultRenderLayer` |
| PyConv.TruncTowardZero | client/ayon_maya/plugins/publish/extract_redshift_proxy.py:57-59 | `int()` of a float text truncates toward zero, for either sign |
| PyConv.TruncWhole | client/ayon_maya/plugins/publish/extract_redshift_proxy.py:57-59 | `int()` of a whole number's float text gives the number back |
| LoadArnoldStandin.ProxyPath | client/ayon_maya/plugins/load/load_arnold_standin.py:130-136 | the proxy path is the proxy basename joined with `/` onto the published file's directory |
| LoadArnoldStandin.ProxyInsertsSuffix | client/ayon_maya/plugins/load/load_arnold_standin.py:131-134 | the proxy basename is the basename with `_proxy` inserted before its first `.`, and a basename without a `.` gets `_proxy.` appended |
| LoadArnoldStandin.OperatorUndoesProxy | client/ayon_maya/plugins/load/load_arnold_standin.py:138-148 | the operator's match is the proxy's stem and its replacement the published file's stem, so replacing turns the proxy basename into the published one |
| LoadArnoldStandin.ProxyBesidePublished | client/ayon_maya/plugins/load/load_arnold_standin.py:130-136 | the proxy lies in the published file's directory, under the proxy basename |
| LoadArnoldStandin.SelectionNodeType | client/ayon_maya/plugins/load/load_arnold_standin.py:166-170 | the operator selects `alembic` nodes exactly for `.abc` files and `procedural` nodes otherwise |
| LoadArnoldStandin.DsoPath | client/ayon_maya/plugins/load/load_arnold_standin.py:185-214 | the standin reads the proxy path exactly when the proxy exists, and the published path otherwise |
| LoadArnoldStandin.NextFreeMultiIndex | client/ayon_maya/plugins/load/load_arnold_standin.py:120-128 | the index found is the first of the first ten million without an incoming connection; none is found only when all are connected |
| LoadImage.Frame | client/ayon_maya/plugins/load/load_image.py:226-227 | the handle-inclusive frame of the entity's data wins when present, else the attribute (None when absent) |
| LoadImage.Decides | client/ayon_maya/plugins/load/load_image.py:221-237 | a sequence is found only when some entity has both frames and they differ; no entity with both frames means no sequence |
| LoadImage.IsSequence | client/ayon_maya/plugins/load/load_image.py:214-237 | the loop answers as the first complete entity of representation then version decides |
| LoadImage.RepresentationFirst | client/ayon_maya/plugins/load/load_image.py:221-235 | a representation with both frames decides by `start != end` whatever the version holds |
| LoadImage.VersionFallback | client/ayon_maya/plugins/load/load_image.py:221-235 | a representation lacking a frame defers to the version |
| LoadImage.NoRangeNoSequence | client/ayon_maya/plugins/load/load_image.py:237 | with neither entity complete the answer is False |
| LoadImage.ApplyRepresentationContext | client/ayon_maya/plugins/load/load_image.py:169-200 | the tiling mode is 3 exactly when the context has a UDIM, and the frame extension is used exactly when it has a frame and the entities make a sequence |
| LookAssignerCommands.NamespaceOfPath | client/ayon_maya/tools/mayalookassigner/commands.py:34-45 | a leaf `namespace:name` under any parents yields its namespace, nested namespaces included |
| LookAssignerCommands.RootNamespace | client/ayon_maya/tools/mayalookassigner/commands.py:44-45 | a leaf without `:` is in the root namespace `:`, with or without parents |
| LookAssignerCommands.ParentsIgnored | client/ayon_maya/tools/mayalookassigner/commands.py:44 | only the leaf after the last `\|` decides the namespace |
| LookAssignerCommands.FolderOfId | client/ayon_maya/tools/mayalookassigner/commands.py:88-99 | the folder of an id `folder:rest` is `folder` |
| LookAssignerCommands.CreateFolderIdHash | client/ayon_maya/tools/mayalookassigner/commands.py:66-102 | the loop, recursing into references, builds exactly the node names per folder that the grouping defines |
| LookAssignerCommands.AddIds | client/ayon_maya/tools/mayalookassigner/commands.py:87-93 | every id of a proxy or standin appends the node to its folder's list, in id order |
| LookAssignerCommands.PlainGrouping | client/ayon_maya/tools/mayalookassigner/commands.py:95-100 | for ordinary nodes a folder is a key exactly when some node's id lies in it, and it holds exactly those nodes' names in scene order |
| LookAssignerCommands.NoIdSkipped | client/ayon_maya/tools/mayalookassigner/commands.py:96-97 | a node without an id changes nothing |
| LookAssignerCommands.ReferenceMerged | client/ayon_maya/tools/mayalookassigner/commands.py:77-81 | a reference's own grouping is appended key by key after what came before |
| SettingsConversion.SettingsOverrides.ConvertDirmap | server/settings/conversion.py:4-14 | the dict becomes the renamed overrides |
| SettingsConversion.SettingsOverrides.ConvertRedshiftGi | server/settings/conversion.py:17-38 | the dict becomes the overrides with `gi_enabled` derived, or stays as it was and the exception is returned when a level is not a dict |
| SettingsConversion.SettingsOverrides.ConvertSettingsOverrides | server/settings/conversion.py:41-47 | both conversions in turn on the same dict, which is returned; the source version plays no part |
| SettingsConversion.DirmapRenamed | server/settings/conversion.py:6-14 | legacy settings alone are renamed: `dirmap` holds the old value, `maya_dirmap` is gone, every other key is kept |
| SettingsConversion.DirmapKept | server/settings/conversion.py:10-12 | with `dirmap` present nothing changes, a leftover `maya_dirmap` included |
| SettingsConversion.DirmapIdempotent | server/settings/conversion.py:4-14 | renaming twice is renaming once |
| SettingsConversion.GiEnabledIff | server/settings/conversion.py:35-38 | a new `gi_enabled` is set to True exactly when either GI engine (default `"0"`) is not `"0"`, and nothing changes otherwise |
| SettingsConversion.GiEnabledKept | server/settings/conversion.py:31-33 | an existing `gi_enabled` is never touched, whatever its value |
| SettingsConversion.GiMissingNoOp | server/settings/conversion.py:23-29 | without render settings or without Redshift settings nothing changes |
| SettingsConversion.GiIdempotent | server/settings/conversion.py:17-38 | deriving `gi_enabled` twice is deriving it once |
| SettingsConversion.DirmapKeepsRenderSettings | server/settings/conversion.py:4-14 | the rename leaves the render settings alone |
| SettingsConversion.GiKeepsDirmapKeys | server/settings/conversion.py:17-38 | deriving `gi_enabled` leaves both dirmap keys alone |
| SettingsConversion.ConvertIdempotent | server/settings/conversion.py:41-47 | converting converted overrides changes nothing more |
| CreateAnimationPointcache.ConvertLegacy | client/ayon_maya/plugins/create/create_animation_pointcache.py:50-80 | the loop yields exactly the converted publish and creator attributes |
| CreateAnimationPointcache.OnlyListedMoved | client/ayon_maya/plugins/create/create_animation_pointcache.py:71-77 | the plugin attributes hold only listed names, and unlisted creator values stay |
| CreateAnimationPointcache.ListedMoved | client/ayon_maya/plugins/create/create_animation_pointcache.py:72-77 | a listed name leaves the creator attributes and the plugin attributes hold its original value exactly when the creator held it |
| CreateAnimationPointcache.UnlistedUntouched | client/ayon_maya/plugins/create/create_animation_pointcache.py:59-77 | creator attributes that are not listed keep their values |
| CreateAnimationPointcache.SecondCallNoOp | client/ayon_maya/plugins/create/create_animation_pointcache.py:56-79 | after a conversion the class has publish attributes, so converting again changes nothing |
| CreateAnimationPointcache.FirstCallMoves | client/ayon_maya/plugins/create/create_animation_pointcache.py:54-79 | the first conversion gives the class each listed value the creator held and removes it from the creator attributes |
| ExtractMayaSceneRaw.SceneType | client/ayon_maya/plugins/publish/extract_maya_scene_raw.py:54-73 | the scene type is the mapping's value for the first family it holds, and the default `ma` when it holds none |
| ExtractMayaSceneRaw.ProductTypeFirst | client/ayon_maya/plugins/publish/extract_maya_scene_raw.py:57-61 | the product type comes first, so its mapping wins over every family's |
| ExtractMayaSceneRaw.FileType | client/ayon_maya/plugins/publish/extract_maya_scene_raw.py:109 | the export is `mayaAscii` exactly for scene type `ma`, and `mayaBinary` otherwise |
| ExtractMayaSceneRaw.Selection | client/ayon_maya/plugins/publish/extract_maya_scene_raw.py:82-103 | the selection built step by step is the members, then the containers when asked for, or the RuntimeError for an empty exact set |
| ExtractMayaSceneRaw.SelectionKeepsMembers | client/ayon_maya/plugins/publish/extract_maya_scene_raw.py:82-103 | the export fails exactly for an empty exact-members set; otherwise the selection starts with the members unchanged and continues with all containers exactly when a family of the instance asks for them |
| LookAssignerStandin.CalculateVisibilityMask | client/ayon_maya/tools/mayalookassigner/arnold_standin.py:45-63 | the loop computes the mask: 255 less the bit of each ray type whose attribute is present and falsy |
| LookAssignerStandin.MaskBits | client/ayon_maya/tools/mayalookassigner/arnold_standin.py:45-63 | the mask lies in 128..255, and each ray type's bit is clear exactly when the edit hides that ray type |
| LookAssignerStandin.MaskSum | client/ayon_maya/tools/mayalookassigner/arnold_standin.py:47-63 | the mask is 128 plus the weighted bit of every visible ray type |
| LookAssignerStandin.AllVisible | client/ayon_maya/tools/mayalookassigner/arnold_standin.py:56-63 | the mask is 255 exactly when no visibility attribute is falsy, and an edit without attributes gives 255 |
| LookAssignerStandin.GetNodesByIdFiltered | client/ayon_maya/tools/mayalookassigner/arnold_standin.py:251-277 | without prefixes the ids are returned as read; otherwise the filtered map |
| LookAssignerStandin.KeepUnderExactly | client/ayon_maya/tools/mayalookassigner/arnold_standin.py:269-271 | a path is kept exactly when it was one of the id's paths and starts with a prefix followed by `/` |
| LookAssignerStandin.FilteredEntries | client/ayon_maya/tools/mayalookassigner/arnold_standin.py:268-275 | each remaining id keeps exactly its paths under the prefixes and never an empty list, and an id stays exactly when one of its paths is under a prefix |
| LookAssignerStandin.PlainNoVisibility | client/ayon_maya/tools/mayalookassigner/arnold_standin.py:409-416 | the assignments of attributes not mapped to visibility never start with `visibility=` |
| LookAssignerStandin.VisibilityCollapsed | client/ayon_maya/tools/mayalookassigner/arnold_standin.py:396-423 | an edit's visibility attributes collapse into one `visibility=` assignment, present exactly when the edit sets one, and last |
| LookAssignerStandin.UnknownIgnored | client/ayon_maya/tools/mayalookassigner/arnold_standin.py:399-404 | an attribute the mapping does not know adds no assignment and does not change the mask |
| LookAssignerStandin.QuotedStringsDistinct | client/ayon_maya/tools/mayalookassigner/arnold_standin.py:406-407 | a string value is quoted, so `'1'` never reads as the number 1 |
| LookAssignerStandin.ShadingEngineAssignments | client/ayon_maya/tools/mayalookassigner/arnold_standin.py:128-165 | the method does as written: no input changes nothing; otherwise the nodes are stripped of components in place and each stripped node gets the assignment, or KeyError when the stripped node has no list |
| LookAssignerStandin.StripComponents | client/ayon_maya/tools/mayalookassigner/arnold_standin.py:154-160 | the in-place loop cuts every node back to the text before its first `.` |
| LookAssignerStandin.StripIdempotent | client/ayon_maya/tools/mayalookassigner/arnold_standin.py:383-394 | stripping twice is stripping once, so the displacement pass sees the surface pass's nodes unchanged (with lines 154-160 of the same file) |
| LookAssignerStandin.IntendedAssignsEveryNode | client/ayon_maya/tools/mayalookassigner/arnold_standin.py:154-165 | (corrected) with lists created for stripped nodes, every node of the edit ends up with the shader assignment last |
| LookAssignerStandin.AddMissing | client/ayon_maya/tools/mayalookassigner/arnold_standin.py:374-376 | every node of the edit has a list afterwards, existing lists are unchanged, and no other key appears |
| LookAssignerStandin.AddMissingNodes | client/ayon_maya/tools/mayalookassigner/arnold_standin.py:374-376 | the loop gives exactly the map with missing nodes added |
| LookAssignerStandin.AppendEach | client/ayon_maya/tools/mayalookassigner/arnold_standin.py:414-423 | appending assignments to the nodes adds no key |
| LookAssignerStandin.SetattrEdit | client/ayon_maya/tools/mayalookassigner/arnold_standin.py:396-423 | the attribute loop appends each plain assignment to every node as it goes, then the visibility one |
| LookAssignerStandin.AppendToNodes | client/ayon_maya/tools/mayalookassigner/arnold_standin.py:415-423 | one assignment appended to every node's list |
| LookAssignerStandin.NodeAssignments | client/ayon_maya/tools/mayalookassigner/arnold_standin.py:372-423 | the edit loop yields exactly the assignments per object path, or the error that stops it |
| LookAssignerStandin.EditAssignments | client/ayon_maya/tools/mayalookassigner/arnold_standin.py:373-423 | one edit: its nodes get lists, then the shading engine (skipped when it is none) or the attributes are assigned |
| LookAssignerStandin.StepWholeObjects | client/ayon_maya/tools/mayalookassigner/arnold_standin.py:373-423 | an edit on whole objects succeeds, keeps every existing list and gives each of its nodes one |
| LookAssignerStandin.WholeObjectsNeverRaise | client/ayon_maya/tools/mayalookassigner/arnold_standin.py:372-423 | edits on whole objects never fail, and every object path they name gets a list |
| LookAssignerStandin.ComponentAssignmentRaises | client/ayon_maya/tools/mayalookassigner/arnold_standin.py:374-376 | as written, a face assignment `path.f[..]` on an object no other edit names raises KeyError (with lines 155-165 of the same file) |
| MayaLib.GetNamespace | client/ayon_maya/api/lib.py:356-362 | the namespace is the leaf's text before its last `:`, or empty without one, and never holds a `\|` |
| MayaLib.GetNamespaceIgnoresParents | client/ayon_maya/api/lib.py:358 | the parents of a long name never change its namespace |
| MayaLib.GetNamespaceOfLeaf | client/ayon_maya/api/lib.py:358-360 | a leaf `ns:name` has namespace `ns`, nested namespaces included |
| MayaLib.WithColon | client/ayon_maya/api/lib.py:389-391 | the namespace used ends with `:` and starts with the one given, which is kept as it is when it already ends so |
| MayaLib.StripNamespaceComponents | client/ayon_maya/api/lib.py:395-398 | stripping keeps the path's components one for one and removes the namespace exactly from the components starting with it |
| MayaLib.StripNamespaceAbsent | client/ayon_maya/api/lib.py:366-398 | a path none of whose components starts with the namespace is left alone |
| MayaLib.StripNamespaceLeaf | client/ayon_maya/api/lib.py:396 | a single component loses the namespace it starts with |
| MayaLib.StripNamespaceChild | client/ayon_maya/api/lib.py:395-398 | a child component is stripped on its own after its stripped parent path |
| MayaLib.StripOwnNamespace | client/ayon_maya/api/lib.py:373-376 | a name in the namespace comes out bare whether or not the namespace was given with its `:` |
| MayaLib.CandidateInjective | client/ayon_maya/api/lib.py:485-486 | different iterations give different candidate names |
| MayaLib.Layout | client/ayon_maya/api/lib.py:466-476 | (corrected) an absolute namespace is numbered under itself, a relative one under the current namespace; the numbered name holds no `:`, and a trailing `:` is kept |
| MayaLib.LayoutAgrees | client/ayon_maya/api/lib.py:466-476 | as written and corrected, the layouts differ only in the root of a nested absolute namespace |
| MayaLib.LayoutPlain | client/ayon_maya/api/lib.py:447-448 | a plain name is numbered under the current namespace |
| MayaLib.LayoutAbsolute | client/ayon_maya/api/lib.py:449-450 | a name with a leading `:` is numbered under the root namespace and keeps its `:` |
| MayaLib.LayoutTrailing | client/ayon_maya/api/lib.py:451-470 | a trailing `:` is kept after the suffix |
| MayaLib.NestedAbsolute | client/ayon_maya/api/lib.py:469-475 | `:a:x` is stripped to `a:x`, whose parents are `a` and whose numbered part is `x` |
| MayaLib.DoubledRootColon | client/ayon_maya/api/lib.py:466-476 | as written `:a:x` is looked up under `::a:`; corrected, under `:a:` |
| MayaLib.NestedNamespaceReused | client/ayon_maya/api/lib.py:466-491 | as written, `unique_namespace(":a:x")` answers `:a:x01` even when that namespace exists |
| MayaLib.FirstFreeUnique | client/ayon_maya/api/lib.py:483-491 | there is only one first free iteration |
| MayaLib.PathInjective | client/ayon_maya/api/lib.py:480-486 | different iterations check different paths |
| MayaLib.FirstFreeIteration | client/ayon_maya/api/lib.py:483-491 | the loop ends with the first iteration from 1 whose path is not taken, every earlier one being taken |
| MayaLib.UniqueNamespace | client/ayon_maya/api/lib.py:439-491 | the answer is start, prefix, namespace, the first free iteration in the format, suffix and end, with every earlier iteration's path taken |
| MayaLib.HashRunEnd | client/ayon_maya/api/lib.py:421 | the run of `#` found is maximal |
| MayaLib.CustomNamespaceFormat | client/ayon_maya/api/lib.py:421-436 | the first `#` run becomes the padding width and splits base from suffix; without one the width is 2 and the suffix empty; the prefix is `_` exactly when the base is empty or starts with a digit |
| MayaLib.CustomFormatUnique | client/ayon_maya/api/lib.py:421-425 | base, width and suffix are determined by where the first `#` run is |
| MayaLib.GetCustomNamespace | client/ayon_maya/api/lib.py:401-436 | the custom format made unique, as `unique_namespace` does |
| MayaLib.FirstIterationText | client/ayon_maya/api/lib.py:428-448 | the first iteration with the default padding is `01` |
| MayaLib.CustomNamespaceNumbered | client/ayon_maya/api/lib.py:413-418 | the `#` run is replaced by the zero-padded iteration and `_` goes first when the base is empty or starts with a digit |
| MayaLib.Pairwise | client/ayon_maya/api/lib.py:546-551 | pair i is elements 2i and 2i+1, and an odd last element is dropped |
| MayaLib.PairwiseUnpair | client/ayon_maya/api/lib.py:546-551 | flattening the pairs gives the input without an odd last element |
| MayaLib.ParentsOfChild | client/ayon_maya/api/lib.py:2142-2161 | the parents of `p\|leaf` are `p` then the parents of `p` |
| MayaLib.ParentsOfTop | client/ayon_maya/api/lib.py:2155-2157 | a top-level or short name has no parents |
| MayaLib.ParentsArePrefixes | client/ayon_maya/api/lib.py:2155-2160 | every parent is the prefix before a separating `\|` |
| MayaLib.ParentsNearestFirst | client/ayon_maya/api/lib.py:2154-2160 | parents come nearest first, each shorter than the one before |
| MayaLib.ParentsComplete | client/ayon_maya/api/lib.py:2154-2160 | every separating `\|` gives a parent |
| MayaLib.ParentOfParent | client/ayon_maya/api/lib.py:2142-2160 | a parent of a parent is a parent |
| MayaLib.GetHighestInHierarchy | client/ayon_maya/api/lib.py:2115-2139 | the loop keeps, in input order, the nodes none of whose parents is an input node |
| MayaLib.HighestExactly | client/ayon_maya/api/lib.py:2133-2137 | a node is kept exactly when it is an input node with no input node above it |
| MayaLib.HighestHasNoInputParent | client/ayon_maya/api/lib.py:2133-2137 | no prefix of a kept node ending at one of its separators is an input node |
| MayaLib.HighestCovers | client/ayon_maya/api/lib.py:2115-2139 | every input node is kept or lies below a kept node |
| MayaLib.ConvertToMayaFps | client/ayon_maya/api/lib.py:3682-3742 | a whole frame rate is returned exactly when Maya offers it, and is then between 2 and 48000; any other is the ValueError |
| MayaLib.LenFlattened | client/ayon_maya/api/lib.py:3917-3946 | the loop adds up the entries each component stands for |
| MayaLib.NoRangesCountOne | client/ayon_maya/api/lib.py:3943-3944 | components without a range count one each |
| MayaLib.RangeOfDigits | client/ayon_maya/api/lib.py:3936-3942 | two digit runs between `[`, `:` and `]` are read as a range |
| MayaLib.RangeTextParses | client/ayon_maya/api/lib.py:3936-3942 | a written range `[a:b]` is read back as the same range |
| MayaLib.RangeCounts | client/ayon_maya/api/lib.py:3939-3942 | a range after a name without `[` counts `end - start + 1` entries |
| MayaLib.MatchedKey | client/ayon_maya/api/lib.py:3777-3784 | the key found is the first in dict order whose `\t<key>\t\t` starts the line, and none is found only when no key does |
| MayaLib.WriteXgen | client/ayon_maya/api/lib.py:3764-3792 | the file is rewritten exactly when every line can be looked up, line for line: a line starting with a key's tabs is replaced with the key and its value, others kept |
| MayaLib.XgenNeverFails | client/ayon_maya/api/lib.py:3777-3787 | with at least one key every line can be written |
| MayaLib.XgenReplaces | client/ayon_maya/api/lib.py:3784-3787 | a line for a key of `data` gets exactly that key's value |
| MayaLib.XgenKeepsUntabbed | client/ayon_maya/api/lib.py:3778-3784 | a line not starting with a tab is never touched |
| MayaLib.XgenEmptyDataFails | client/ayon_maya/api/lib.py:3777-3787 | with an empty dict a line of three tabs matches the empty key and the lookup raises KeyError |
| RenderProducts.HasTokensIff | client/ayon_maya/api/lib_renderproducts.py:87-92 | `has_tokens` holds exactly when some token occurs in the text, case ignored |
| RenderProducts.SanitizeCameraName | client/ayon_maya/api/lib_renderproducts.py:235-252 | the sanitized name is made of word characters only and is no longer than the camera name |
| RenderProducts.SanitizeFixed | client/ayon_maya/api/lib_renderproducts.py:252 | a name is left as it is exactly when it is made of word characters only |
| RenderProducts.SanitizeIdempotent | client/ayon_maya/api/lib_renderproducts.py:252 | sanitizing twice is sanitizing once |
| RenderProducts.SanitizeOneRun | client/ayon_maya/api/lib_renderproducts.py:235-252 | one run of illegal characters between two legal names, as in `test:camera_01`, becomes one `_` |
| RenderProducts.SubUnchanged | client/ayon_maya/api/lib_renderproducts.py:431-432 | text in which the pattern matches nowhere is left unchanged |
| RenderProducts.SubFront | client/ayon_maya/api/lib_renderproducts.py:431-432 | a match at the front is replaced and the scan resumes after it |
| RenderProducts.SceneSubstituted | client/ayon_maya/api/lib_renderproducts.py:419 | a `%s` or `<scene>` token in any case is replaced by the scene name (with line 73 of the same file) |
| RenderProducts.LayerSubstituted | client/ayon_maya/api/lib_renderproducts.py:420 | a `%l`, `<layer>` or `<renderlayer>` token in any case is replaced by the layer name (with lines 69-71 of the same file) |
| RenderProducts.AovTokenRemoved | client/ayon_maya/api/lib_renderproducts.py:424 | without a forced AOV name, `_` or `.` followed by an AOV token is removed with it (with lines 63-64 of the same file) |
| RenderProducts.FrameTokenRemoved | client/ayon_maya/api/lib_renderproducts.py:427 | an unfilled `<fN>` token is removed with one dot on each side (with line 66 of the same file) |
| RenderProducts.LastMatchBelow | client/ayon_maya/api/lib_renderproducts.py:344-346 | the match found is the last position at or below i where a token matches, with that match's end, and none is found only when no token matches there |
| RenderProducts.SeparatorNone | client/ayon_maya/api/lib_renderproducts.py:348-355 | there is no separator exactly when the prefix lacks a layer token or an AOV token |
| RenderProducts.SeparatorBetween | client/ayon_maya/api/lib_renderproducts.py:323-355 | with the layer and AOV tokens last in the prefix, joined by a separator free of `<`, that separator is extracted; `<Scene>/<RenderLayer>/<RenderLayer>_<RenderPass>` gives `_` |
| RenderProducts.FrameRangeElements | client/ayon_maya/api/lib_renderproducts.py:436-440 | the frames are `start + i*step`, all before the stop in the step's direction |
| RenderProducts.FileNames | client/ayon_maya/api/lib_renderproducts.py:441-444 | one name per frame, the frame right-justified to the padding, in order |
| RenderProducts.CameraFiles | client/ayon_maya/api/lib_renderproducts.py:416-444 | one name per frame of `range(start, end + 1, step)` for a camera |
| RenderProducts.FileSequenceLength | client/ayon_maya/api/lib_renderproducts.py:415-444 | there is one name per camera and frame |
| RenderProducts.FileSequenceConcat | client/ayon_maya/api/lib_renderproducts.py:415-444 | the names for two camera lists in a row are their two sequences in a row |
| RenderProducts.FileSequenceCamera | client/ayon_maya/api/lib_renderproducts.py:415-444 | cameras are the outer loop: camera c's names come right after those of the c cameras before it |
| RenderProducts.AppendCameraFiles | client/ayon_maya/api/lib_renderproducts.py:436-444 | the inner loop appends exactly one camera's names |
| RenderProducts.GenerateFileSequence | client/ayon_maya/api/lib_renderproducts.py:407-444 | the forced cameras and extension win when non-empty; the names are the sequence for those cameras, and a zero step fails (ValueError) exactly when some camera makes Python build the range |
| RenderProducts.RendererDispatch | client/ayon_maya/api/lib_renderproducts.py:171-183 | the dispatch accepts exactly the five renderer names in any case, and every renderer it picks has an image prefix attribute |
| RenderProducts.BasePrefix | client/ayon_maya/api/lib_renderproducts.py:254-286 | the prefix is missing (UnsupportedRendererException) exactly for a renderer without a prefix attribute; an unset or empty attribute falls back to `<Scene>`, a set one is used as it is |
| RenderProducts.ArnoldPrefixHasPass | client/ayon_maya/api/lib_renderproducts.py:530-541 | without merged AOVs Arnold's prefix always names the render pass, and applying the rule again changes nothing |
| RenderProducts.AovSuffixRules | client/ayon_maya/api/lib_renderproducts.py:1085-1101 | a non-multipart V-Ray or Redshift prefix ends with `<aov>`; a multipart one is kept (with lines 797-814 of the same file) |
| RenderProducts.RedshiftProducts.GetFiles | client/ayon_maya/api/lib_renderproducts.py:1057-1069 | a separate AOV with a driver sets the layer's prefix to the driver's with the Beauty tokens rewritten, and the files are the sequence for the product's camera, AOV name and extension (with lines 445-467 of the same file) |
| RenderProducts.RedshiftRewriteFree | client/ayon_maya/api/lib_renderproducts.py:1064-1067 | a prefix without the Beauty tokens is left as it is |
| RenderProducts.GetExtension | client/ayon_maya/api/lib_renderproducts.py:1442-1474 | an extension found is jpg, png or exr |
| RenderProducts.ExtensionTable | client/ayon_maya/api/lib_renderproducts.py:1442-1474 | an index and its label name the same extension, and nothing else has one |
| RenderSettings.ImagePrefixAttrDefined | client/ayon_maya/api/lib_rendersettings.py:16-34 | exactly the five table renderers have a prefix attribute; any other renderer is a KeyError |
| RenderSettings.PaddingBesidePrefix | client/ayon_maya/api/lib_rendersettings.py:16-42 | for every renderer with a prefix attribute except RenderMan the padding attribute is on the prefix attribute's node |
| RenderSettings.AovSeparator | client/ayon_maya/api/lib_rendersettings.py:82-90 | the separator is always `.`, `-` or `_` |
| RenderSettings.AovSeparatorNames | client/ayon_maya/api/lib_rendersettings.py:82-90 | `dot`, `dash` and `underscore` give their characters, and a missing setting or any other name gives `_` (with lines 24-28 of the same file) |
| RenderSettings.FillSeparatorOnce | client/ayon_maya/api/lib_rendersettings.py:99 | a prefix with one `{aov_separator}` token gets the separator in its place |
| RenderSettings.FillSeparatorAbsent | client/ayon_maya/api/lib_rendersettings.py:99 | a prefix without the token is written as configured |
| RenderSettings.Scene.SetAttr | client/ayon_maya/api/lib_rendersettings.py:100 | one attribute takes the value and nothing else changes |
| RenderSettings.SetGlobalOutputSettings | client/ayon_maya/api/lib_rendersettings.py:388-397 | the scene's attributes become the global output settings of the old ones |
| RenderSettings.GlobalOutputPadding | client/ayon_maya/api/lib_rendersettings.py:388-397 | afterwards every renderer but V-Ray pads frames to four digits and renders an animation, and nothing off the render globals node changes |
| RenderSettings.GlobalOutputFrame | client/ayon_maya/api/lib_rendersettings.py:388-397 | attributes off the render globals node keep their values |
| RenderSettings.SetRedshiftGI | client/ayon_maya/api/lib_rendersettings.py:216-232 | the GI block's writes, or the ValueError of a non-numeric engine after what was written before it |
| RenderSettings.RedshiftGIFinal | client/ayon_maya/api/lib_rendersettings.py:219-232 | with numeric engines GI is enabled exactly when either engine is non-zero, and both engines end up as configured, the fallbacks 4 and 2 being overwritten |
| RenderSettings.RedshiftGIFrame | client/ayon_maya/api/lib_rendersettings.py:219-232 | whether or not it completes, the GI block writes only the three GI attributes |
| RenderSettings.RedshiftGIInvalid | client/ayon_maya/api/lib_rendersettings.py:219 | a non-numeric primary engine aborts before any write |
| RenderSettings.RedshiftImageFormatIndex | client/ayon_maya/api/lib_rendersettings.py:235-237 | the index names the extension, `exr` is 1, and only the six known extensions have one (others raise ValueError) |
| RenderSettings.ConvertNumeric | client/ayon_maya/api/lib_rendersettings.py:409-414 | an integer text is accepted for every numeric type, as an int for `long`/`bool` |
| RenderSettings.ConvertOthers | client/ayon_maya/api/lib_rendersettings.py:411-420 | a string attribute takes any value as it is; an unknown type is never written |
| RenderSettings.ApplyOptionsStuck | client/ayon_maya/api/lib_rendersettings.py:404-420 | once an option has raised, the later ones change nothing |
| RenderSettings.SetAdditionalAttribs | client/ayon_maya/api/lib_rendersettings.py:399-420 | the loop's writes, log and outcome are those of applying the options in order |
| RenderSettings.ApplyOptionsFrame | client/ayon_maya/api/lib_rendersettings.py:404-420 | an attribute no option names keeps its value |
| RenderSettings.ApplyOptionsLogged | client/ayon_maya/api/lib_rendersettings.py:415-420 | when nothing raises, exactly the unsupported options are logged, in order |
| RenderSettings.ApplyOptionsLast | client/ayon_maya/api/lib_rendersettings.py:404-414 | when nothing raises, the last option's attribute holds its converted value |
| RenderSettings.MayaHardwarePrefixRaises | client/ayon_maya/api/lib_rendersettings.py:97-98 | as written, Maya Hardware 2.0 has a prefix attribute but no configured prefix, so the write raises KeyError (with lines 50-55 of the same file) |
| RenderSettings.WritePrefix | client/ayon_maya/api/lib_rendersettings.py:97-103 | (corrected) a renderer with both a prefix attribute and a configured prefix gets the prefix with the separator filled in; any other is left as it is |
| RenderSettings.WritePrefixAgrees | client/ayon_maya/api/lib_rendersettings.py:97-103 | the code raises exactly for Maya Hardware 2.0, and wherever it does not it writes what the corrected write does |
| RenderSettings.SetArnoldSettings | client/ayon_maya/api/lib_rendersettings.py:126-187 | the method's writes, log and outcome are Arnold's settings: the cameras' flags saved, the render globals reverted, the flags restored, resolution, output, prefix and driver writes, the options, then the render range reset |
| RenderSettings.RevertRenderGlobals | client/ayon_maya/api/lib_rendersettings.py:148-157 | the render globals take their defaults and then every camera's `renderable` flag is what it was before the revert |
| RenderSettings.RestoreFlagsListed | client/ayon_maya/api/lib_rendersettings.py:156-157 | after the restore loop a listed camera's flag holds its saved value |
| RenderSettings.RevertKeepsRenderable | client/ayon_maya/api/lib_rendersettings.py:148-157 | the revert does not change any camera's `renderable` flag |
| RenderSettings.ResetFrameRange | client/ayon_maya/api/lib_rendersettings.py:187 | the render start and end frames become the folder's animation range, and nothing else changes |
| RenderSettings.ArnoldRenderRange | client/ayon_maya/api/lib_rendersettings.py:183-187 | when Arnold's settings complete, the render range is the folder's animation range, even where an additional option wrote the start or end frame |
| RenderSettings.ArnoldWritesPrefix | client/ayon_maya/api/lib_rendersettings.py:154-176 | after the revert Arnold still ends up with its configured prefix, unless an additional option names the prefix attribute |
| RenderSettings.SetVraySettings | client/ayon_maya/api/lib_rendersettings.py:309-385 | the method's writes, log and outcome are V-Ray's settings |
| RenderSettings.VrayMenuCheck | client/ayon_maya/api/lib_rendersettings.py:348-360 | a separator menu that does not list the separator raises CreatorError before any write |
| RenderSettings.SetRedshiftSettings | client/ayon_maya/api/lib_rendersettings.py:189-243 | the method's writes, log and outcome are Redshift's settings |
| RenderSettings.CryptomatteFile | client/ayon_maya/api/lib_rendersettings.py:289-294 | the cryptomatte filter's file gets the separator in place of its token |
| RenderSettings.SetRendermanSettings | client/ayon_maya/api/lib_rendersettings.py:245-307 | the method's writes, log and outcome are RenderMan's settings: the output folder, each display and sample filter's file name, the global output, the resolution, then the options |
| RenderSettings.SetFilterFiles | client/ayon_maya/api/lib_rendersettings.py:256-300 | each found filter node of the kind gets its `filename`, and nothing else changes |
| RenderSettings.FilterFileWritesFrame | client/ayon_maya/api/lib_rendersettings.py:256-300 | a listed filter node ends up with its kind's file name, and every other attribute keeps its value |
| RenderSettings.RendermanKeepsFormat | client/ayon_maya/api/lib_rendersettings.py:245-307 | the RenderMan writes leave the image file format as they find it, unless an additional option names it |
| RenderSettings.SetDefaultRendererSettings | client/ayon_maya/api/lib_rendersettings.py:70-125 | the scene's attributes, log and outcome are the defaults for the renderer, Arnold's revert, flag restore and range reset and RenderMan's filter files included |
| RenderSettings.DefaultsMayaHardwareRaises | client/ayon_maya/api/lib_rendersettings.py:97-98 | setting the defaults for Maya Hardware 2.0 raises before any attribute is written |
| RenderSettings.ArnoldKeepsRawPrefix | client/ayon_maya/api/lib_rendersettings.py:175-176 | as written, Arnold ends up with its raw configured prefix, the separator token unfilled, unless an option names the prefix attribute (with lines 97-101 of the same file) |
| RenderSettings.ArnoldIntendedFilledPrefix | client/ayon_maya/api/lib_rendersettings.py:175-176 | (corrected) Arnold ends up with the separator filled in, like the other renderers (with lines 97-101 of the same file) |
| RenderSettings.ArnoldIntendedAgrees | client/ayon_maya/api/lib_rendersettings.py:175-176 | the corrected and as-written Arnold writes agree for a prefix without the separator token |
| RenderSettings.VrayWritesFrame | client/ayon_maya/api/lib_rendersettings.py:309-385 | V-Ray's settings keep every attribute neither they nor the options name |
| RenderSettings.VrayFilledPrefix | client/ayon_maya/api/lib_rendersettings.py:309-385 | V-Ray ends up with its configured prefix with the separator filled in, wherever its settings stop (with lines 97-101 of the same file) |
| RenderSettings.VraySeparatorSet | client/ayon_maya/api/lib_rendersettings.py:348-370 | when V-Ray's settings complete, the menu (if any) offers the separator and the separator attribute holds it |
| RenderSettings.RedshiftWritesFrame | client/ayon_maya/api/lib_rendersettings.py:189-243 | Redshift's settings keep every attribute they and the options do not name |
| RenderSettings.RedshiftWritesPadding | client/ayon_maya/api/lib_rendersettings.py:388-397 | with valid GI settings and format Redshift leaves frames padded to four digits (with line 239 of the same file) |
| RenderSettings.RedshiftFilledPrefix | client/ayon_maya/api/lib_rendersettings.py:189-243 | Redshift ends up with its configured prefix with the separator filled in, wherever its settings stop (with lines 97-101 of the same file) |
| RenderSettings.RendermanFilledPrefix | client/ayon_maya/api/lib_rendersettings.py:245-307 | RenderMan ends up with its configured prefix with the separator filled in (with lines 97-101 of the same file) |
| RenderSettings.ArnoldWritesPadding | client/ayon_maya/api/lib_rendersettings.py:388-397 | Arnold's settings leave frames padded to four digits (with line 173 of the same file) |
| RenderSettings.RendermanWritesPadding | client/ayon_maya/api/lib_rendersettings.py:388-397 | RenderMan's settings leave frames padded to four digits (with line 304 of the same file) |
| RenderSettings.DefaultsPadding | client/ayon_maya/api/lib_rendersettings.py:70-125 | Arnold, Redshift (with valid GI settings and format) and RenderMan render with four-digit padding unless an option overrides it |
| FilterProperties.ClassEnd | client/ayon_maya/api/chasers/export_filter_properties.py:88 | a `[` class ends just past its closing `]`, or is a literal `[` when nothing closes it |
| FilterProperties.MatchPattern | client/ayon_maya/api/chasers/export_filter_properties.py:66-92 | the loop's flag is the pattern's meaning: an include hits and no later exclude hits |
| FilterProperties.StepCases | client/ayon_maya/api/chasers/export_filter_properties.py:78-91 | each sub-pattern clears the flag when it is a hitting exclude and sets it when it is a hitting include |
| FilterProperties.DecidedCons | client/ayon_maya/api/chasers/export_filter_properties.py:70-92 | a decision is made by the first sub-pattern or within the rest |
| FilterProperties.FoldDecides | client/ayon_maya/api/chasers/export_filter_properties.py:69-92 | the flag ends true exactly when some include hits with no hitting exclude after it, or it started true and no exclude hits |
| FilterProperties.PatternDecides | client/ayon_maya/api/chasers/export_filter_properties.py:66-92 | `match_pattern` is true exactly when an include hits and no later exclude hits |
| FilterProperties.BlankMatchesNothing | client/ayon_maya/api/chasers/export_filter_properties.py:69-76 | an empty or all-space pattern matches no name |
| FilterProperties.StarMatchesAll | client/ayon_maya/api/chasers/export_filter_properties.py:71 | the glob `*` matches every name |
| FilterProperties.StarPatternMatchesAll | client/ayon_maya/api/chasers/export_filter_properties.py:112 | the text pattern `*` keeps every name |
| FilterProperties.StarAnyRun | client/ayon_maya/api/chasers/export_filter_properties.py:71 | `*` then more glob matches exactly when some suffix matches the rest |
| FilterProperties.LiteralGlob | client/ayon_maya/api/chasers/export_filter_properties.py:88-89 | a glob without wildcards matches exactly the equal name, case included |
| FilterProperties.TrimmedFree | client/ayon_maya/api/chasers/export_filter_properties.py:74 | a sub-pattern without spaces is its own `strip(" ")` |
| FilterProperties.FoldAppend | client/ayon_maya/api/chasers/export_filter_properties.py:70-91 | one more sub-pattern applies one more step |
| FilterProperties.AppendPiece | client/ayon_maya/api/chasers/export_filter_properties.py:68-92 | a sub-pattern appended to the text pattern applies one more step to its result |
| FilterProperties.ExcludeRejects | client/ayon_maya/api/chasers/export_filter_properties.py:85-91 | a hitting exclude at the end rejects the name whatever came before |
| FilterProperties.ExcludeMissKeeps | client/ayon_maya/api/chasers/export_filter_properties.py:85-91 | an exclude that misses leaves the decision as it was |
| FilterProperties.IncludeAfterMatch | client/ayon_maya/api/chasers/export_filter_properties.py:80-83 | once the name is accepted a later include cannot change that |
| FilterProperties.IncludeAccepts | client/ayon_maya/api/chasers/export_filter_properties.py:88-91 | a hitting include at the end accepts the name even after an exclude |
| FilterProperties.OrderSensitive | client/ayon_maya/api/chasers/export_filter_properties.py:68-92 | `* ^g` rejects a name `g` matches while `^g *` accepts it |
| FilterProperties.ChaserPattern | client/ayon_maya/api/chasers/export_filter_properties.py:112 | the chaser's pattern is its `pattern` argument, `*` when that is missing |
| FilterProperties.SpecsToRemove | client/ayon_maya/api/chasers/export_filter_properties.py:115-134 | the removal list is the property specs of the traversal whose names the pattern does not match, in traversal order |
| FilterProperties.DoomedExactly | client/ayon_maya/api/chasers/export_filter_properties.py:117-130 | a path is removed exactly when it is a property spec the pattern does not match |
| FilterProperties.DefaultKeepsAll | client/ayon_maya/api/chasers/export_filter_properties.py:112 | with the default pattern nothing is removed |
| FilterProperties.PostExport | client/ayon_maya/api/chasers/export_filter_properties.py:107-138 | one removal list per layer of the stack, in stack order, each that layer's doomed specs |
| FilterProperties.DefaultFilterOff | client/ayon_maya/plugins/publish/collect_maya_usd_export_filter_properties.py:15-41 | the default filter is falsy, so an instance left at it gains no chaser |
| FilterProperties.SetDefaultAppend | client/ayon_maya/plugins/publish/collect_maya_usd_export_filter_properties.py:47-48 | `setdefault(key, []).append(x)` creates, extends or raises on a non-list value |
| FilterProperties.CollectProcess | client/ayon_maya/plugins/publish/collect_maya_usd_export_filter_properties.py:37-50 | a falsy filter leaves the data alone; otherwise the chaser name and its `pattern` argument are appended, or None where an append raises |
| FilterProperties.CollectAppends | client/ayon_maya/plugins/publish/collect_maya_usd_export_filter_properties.py:47-50 | with list or missing entries, a pattern appends exactly one item to each and keeps the rest |
| ValidateAlembicOptionsDefaults.PluginName | client/ayon_maya/plugins/publish/validate_alembic_options_defaults.py:124-133 | the animation variant reads the ExtractAnimation attributes and the pointcache one the ExtractAlembic attributes (with line 24 of the same file) |
| ValidateAlembicOptionsDefaults.Differs | client/ayon_maya/plugins/publish/validate_alembic_options_defaults.py:56-64 | a non-list differs by Python's `!=`; lists differ when their elements differ as multisets; sorting a non-iterable default raises |
| ValidateAlembicOptionsDefaults.NumbersCompareByValue | client/ayon_maya/plugins/publish/validate_alembic_options_defaults.py:64 | a float equal to an integer default does not differ |
| ValidateAlembicOptionsDefaults.ListOrderIgnored | client/ayon_maya/plugins/publish/validate_alembic_options_defaults.py:58-62 | reordered lists do not differ |
| ValidateAlembicOptionsDefaults.ListElementsCompared | client/ayon_maya/plugins/publish/validate_alembic_options_defaults.py:58-64 | lists with different elements differ |
| ValidateAlembicOptionsDefaults.Process | client/ayon_maya/plugins/publish/validate_alembic_options_defaults.py:36-77 | the result is the non-default attributes, an error when one raises |
| ValidateAlembicOptionsDefaults.NonDefaultsErrSticks | client/ayon_maya/plugins/publish/validate_alembic_options_defaults.py:44-65 | once an attribute raises, the whole loop raises with that error |
| ValidateAlembicOptionsDefaults.ReportedExactly | client/ayon_maya/plugins/publish/validate_alembic_options_defaults.py:44-65 | a key is reported exactly when the settings define it and its value differs from the default |
| ValidateAlembicOptionsDefaults.PutHasKey | client/ayon_maya/plugins/publish/validate_alembic_options_defaults.py:65 | writing a key into the report adds exactly that key |
| ValidateAlembicOptionsDefaults.UnknownAttributesIgnored | client/ayon_maya/plugins/publish/validate_alembic_options_defaults.py:45-54 | attributes the settings do not define never make the instance invalid |
| ValidateAlembicOptionsDefaults.PublishAttributeValues.Repair | client/ayon_maya/plugins/publish/validate_alembic_options_defaults.py:95-121 | every attribute the settings define takes the settings' value, the rest and the order stay |
| ValidateAlembicOptionsDefaults.RepairedPasses | client/ayon_maya/plugins/publish/validate_alembic_options_defaults.py:95-121 | after the repair the validator reports nothing and raises nothing (with lines 36-77 of the same file) |
| ValidateClashingSiblingNames.StripLevelsAt | client/ayon_maya/plugins/publish/validate_clashing_sibling_names.py:28-30 | each level is stripped on its own |
| ValidateClashingSiblingNames.StripLevelFree | client/ayon_maya/plugins/publish/validate_clashing_sibling_names.py:29 | a stripped level has no `:` and gains no `\|`, and a level without `:` is kept |
| ValidateClashingSiblingNames.SplitRemoved | client/ayon_maya/plugins/publish/validate_clashing_sibling_names.py:28-30 | the levels of the result are the stripped levels of the path |
| ValidateClashingSiblingNames.KeepsPipeCount | client/ayon_maya/plugins/publish/validate_clashing_sibling_names.py:28-30 | stripping keeps the number of `\|`, so the depth |
| ValidateClashingSiblingNames.StrippedFree | client/ayon_maya/plugins/publish/validate_clashing_sibling_names.py:29 | no stripped level holds `:` |
| ValidateClashingSiblingNames.NoColonLeft | client/ayon_maya/plugins/publish/validate_clashing_sibling_names.py:28-30 | the result has no `:` left |
| ValidateClashingSiblingNames.StripLevelsId | client/ayon_maya/plugins/publish/validate_clashing_sibling_names.py:29 | levels without namespaces are left as they are |
| ValidateClashingSiblingNames.Idempotent | client/ayon_maya/plugins/publish/validate_clashing_sibling_names.py:28-30 | stripping twice is stripping once |
| ValidateClashingSiblingNames.StripLevelsSnoc | client/ayon_maya/plugins/publish/validate_clashing_sibling_names.py:28-30 | one more level adds that level's stripped name |
| ValidateClashingSiblingNames.LevelAppended | client/ayon_maya/plugins/publish/validate_clashing_sibling_names.py:18-30 | a child `ns:name` under any path adds `\|name` to the stripped path |
| ValidateClashingSiblingNames.StripsNamespace | client/ayon_maya/plugins/publish/validate_clashing_sibling_names.py:29 | `ns:name` becomes `name` |
| ValidateClashingSiblingNames.LeafRemoved | client/ayon_maya/plugins/publish/validate_clashing_sibling_names.py:18-30 | `\|ns:name` strips to `\|name` |
| ValidateClashingSiblingNames.GetInvalid | client/ayon_maya/plugins/publish/validate_clashing_sibling_names.py:42-65 | the result is the highest of the nodes sharing their stripped path with another node |
| ValidateClashingSiblingNames.HighestClashing | client/ayon_maya/plugins/publish/validate_clashing_sibling_names.py:55-65 | the clashing nodes reduced to the highest ones |
| ValidateClashingSiblingNames.ClashingNodes | client/ayon_maya/plugins/publish/validate_clashing_sibling_names.py:50-58 | the grouping collects exactly the nodes that clash |
| ValidateClashingSiblingNames.GroupBy | client/ayon_maya/plugins/publish/validate_clashing_sibling_names.py:50-53 | each group holds exactly the nodes with its key, and every node's key has a group |
| ValidateClashingSiblingNames.InLargeGroups | client/ayon_maya/plugins/publish/validate_clashing_sibling_names.py:55-58 | `invalid` holds exactly the members of the groups of more than one node |
| ValidateClashingSiblingNames.GroupOfMany | client/ayon_maya/plugins/publish/validate_clashing_sibling_names.py:57 | a group has more than one node exactly when it holds another node besides any given one |
| ValidateClashingSiblingNames.HasHighest | client/ayon_maya/plugins/publish/validate_clashing_sibling_names.py:60-63 | every non-empty set of nodes has a node without an ancestor in it |
| ValidateClashingSiblingNames.EmptyIffNoClash | client/ayon_maya/plugins/publish/validate_clashing_sibling_names.py:60-65 | the result is empty exactly when no two nodes clash |
| ValidateClashingSiblingNames.ReportedClash | client/ayon_maya/plugins/publish/validate_clashing_sibling_names.py:60-65 | every reported node clashes and no clashing node is above it |
| ValidateClashingSiblingNames.NamespacesClash | client/ayon_maya/plugins/publish/validate_clashing_sibling_names.py:50-58 | nodes differing only in their namespace clash (with lines 15-30 of the same file) |
| ValidateClashingSiblingNames.ClashWith | client/ayon_maya/plugins/publish/validate_clashing_sibling_names.py:50-58 | another node with the same stripped path is a clash |
| ValidateFrameRange.ReadRange | client/ayon_maya/plugins/publish/validate_frame_range.py:53-65 | the six values read as integers, a TypeError exactly when one is missing |
| ValidateFrameRange.Process | client/ayon_maya/plugins/publish/validate_frame_range.py:41-114 | tile rendering skips, a reversed folder range is an assertion, an excluded product type skips, else the errors are the mismatches in order |
| ValidateFrameRange.FailingHas | client/ayon_maya/plugins/publish/validate_frame_range.py:96-107 | a check is among the failures exactly when its two values differ |
| ValidateFrameRange.FailingCount | client/ayon_maya/plugins/publish/validate_frame_range.py:96-107 | at most one error per check, none exactly when all agree |
| ValidateFrameRange.NoErrorsIffEqual | client/ayon_maya/plugins/publish/validate_frame_range.py:78-114 | no error, so no raise, exactly when the six instance values equal the folder's; at most six errors |
| ValidateFrameRange.FieldRecorded | client/ayon_maya/plugins/publish/validate_frame_range.py:96-107 | each of the four field errors is recorded exactly when that field differs |
| ValidateFrameRange.BoundRecorded | client/ayon_maya/plugins/publish/validate_frame_range.py:78-94 | each bound error is recorded exactly when that bound differs |
| ValidateFrameRange.SubstringExcludes | client/ayon_maya/plugins/publish/validate_frame_range.py:73-77 | the exclusion is by substring, so `pointcache` also excludes `point` |
| ValidateFrameRange.NoExcludes | client/ayon_maya/plugins/publish/validate_frame_range.py:75-77 | with no exclusions nothing is excluded |
| ValidateFrameRange.InstanceNode.Repair | client/ayon_maya/plugins/publish/validate_frame_range.py:127-153 | with a handle attribute the handle and the frame are set apart, without one the frame takes the handle-inclusive bound, and no attribute is lost |
| ValidateFrameRange.LayerAttr.SetInLayer | client/ayon_maya/plugins/publish/validate_frame_range.py:171-200 | nothing changes when the layer already reads the value; else the last override, or the global value, is set so that the layer reads it |
| ValidateInstanceHasMembers.GetInvalid | client/ayon_maya/plugins/publish/validate_instance_has_members.py:16-23 | the set's name exactly when the members are missing or falsy, else nothing |
| ValidateInstanceHasMembers.Process | client/ayon_maya/plugins/publish/validate_instance_has_members.py:25-45 | raises with the name exactly when no skip family applies and the members are missing or falsy |
| ValidateInstanceHasMembers.WorkfileMayBeEmpty | client/ayon_maya/plugins/publish/validate_instance_has_members.py:26-36 | a workfile instance passes without members |
| ValidateInstanceHasMembers.SkipFamilyListed | client/ayon_maya/plugins/publish/validate_instance_has_members.py:33-36 | a skip family among `families` skips whatever `family` is |
| ValidateInstanceHasMembers.EmptyRaises | client/ayon_maya/plugins/publish/validate_instance_has_members.py:33-45 | without a skip family an instance lacking members raises with its name |
| ValidateInstanceSubset.EmptyNameValid | client/ayon_maya/plugins/publish/validate_instance_subset.py:16-17 | `validate_name("")` is vacuously true |
| ValidateInstanceSubset.ValidConcat | client/ayon_maya/plugins/publish/validate_instance_subset.py:16-17 | a concatenation is valid exactly when both parts are |
| ValidateInstanceSubset.AllowedIsAlnum | client/ayon_maya/plugins/publish/validate_instance_subset.py:9-13 | the allowed characters are exactly the ASCII letters, digits and `_` |
| ValidateInstanceSubset.Process | client/ayon_maya/plugins/publish/validate_instance_subset.py:27-52 | the name passes exactly when it is a string that is non-empty and valid; None or missing is the first refusal |
| ValidateInstanceSubset.EmptyRefused | client/ayon_maya/plugins/publish/validate_instance_subset.py:42-46 | the empty string is refused although `validate_name` accepts it |
| ValidateInstanceSubset.BadCharacterRefused | client/ayon_maya/plugins/publish/validate_instance_subset.py:48-52 | a name with a character outside the alphabet is refused for its characters |
| ValidateInstanceSubset.NonStringRefused | client/ayon_maya/plugins/publish/validate_instance_subset.py:37-40 | a non-string name is refused as such |
| ValidateLookContents.ValidateLookdataAttributes | client/ayon_maya/plugins/publish/validate_look_contents.py:58-94 | the loop's result is the look-data problems: the instance name when a key is missing, the relationships are empty or a change has neither id nor attributes |
| ValidateLookContents.ValidateLooks | client/ayon_maya/plugins/publish/validate_look_contents.py:96-106 | exactly the relationship sets without a uuid, in order |
| ValidateLookContents.ValidateFiles | client/ayon_maya/plugins/publish/validate_look_contents.py:108-122 | the node of every resource without files, in order |
| ValidateLookContents.GetInvalid | client/ayon_maya/plugins/publish/validate_look_contents.py:43-56 | looks, then attributes, then files |
| ValidateLookContents.Process | client/ayon_maya/plugins/publish/validate_look_contents.py:31-41 | an empty instance fails first; otherwise it fails exactly when there are problems |
| ValidateLookContents.LookdataAtMostOnce | client/ayon_maya/plugins/publish/validate_look_contents.py:67-94 | at most one entry, the instance name |
| ValidateLookContents.NoRelationshipsInvalid | client/ayon_maya/plugins/publish/validate_look_contents.py:78-84 | empty relationships make the look invalid |
| ValidateLookContents.MissingIdInvalid | client/ayon_maya/plugins/publish/validate_look_contents.py:86-92 | a change with neither id nor attributes makes the look invalid |
| ValidateLookContents.WithoutUuidExactly | client/ayon_maya/plugins/publish/validate_look_contents.py:100-104 | a set is reported exactly when its uuid is falsy |
| ValidateLookContents.WithoutFilesExactly | client/ayon_maya/plugins/publish/validate_look_contents.py:111-120 | a node is reported exactly when one of its resources has no files |
| ValidateLookContents.PassesIff | client/ayon_maya/plugins/publish/validate_look_contents.py:43-122 | the look passes exactly when there is a relationship, every set and every changed node has an id and every file node has files |
| ValidateLookContents.MissingKeyRaises | client/ayon_maya/plugins/publish/validate_look_contents.py:71-80 | look data lacking a key raises at the lookup |
| ValidateRenderSettings.ConvertToIntOrFloat | client/ayon_maya/plugins/publish/validate_rendersettings.py:18-31 | `int` first, then `float`, else the string unchanged, with Python's literal rules (a sign, surrounding whitespace and `_` between digits, so `"1_000"` is 1000) |
| ValidateRenderSettings.ConvertIntText | client/ayon_maya/plugins/publish/validate_rendersettings.py:18-28 | an integer's text converts to that integer, not to a float |
| ValidateRenderSettings.ConvertKeepsText | client/ayon_maya/plugins/publish/validate_rendersettings.py:18-31 | the string is kept exactly when `float()` rejects it, underscore-grouped literals being numbers |
| PyConv.ParseIntSeparator | client/ayon_maya/plugins/publish/validate_rendersettings.py:18-31 | `int()` reads one `_` between digit runs as nothing: `x_y` is the number `xy` |
| PyConv.ParseIntBadSeparator | client/ayon_maya/plugins/publish/validate_rendersettings.py:18-31 | a doubled, leading or trailing `_` makes `int()` fail |
| ValidateRenderSettings.Collapse | client/ayon_maya/plugins/publish/validate_rendersettings.py:330 | the `OrderedDict` has each attribute once |
| ValidateRenderSettings.Converted | client/ayon_maya/plugins/publish/validate_rendersettings.py:331 | empty values are dropped, so never more values than given |
| ValidateRenderSettings.GetNodes | client/ayon_maya/plugins/publish/validate_rendersettings.py:316-367 | one check per collapsed entry with values, a `.` and nodes, in order |
| ValidateRenderSettings.LastEntryWins | client/ayon_maya/plugins/publish/validate_rendersettings.py:330 | a later entry for an attribute replaces the earlier values |
| ValidateRenderSettings.EmptyValuesDropped | client/ayon_maya/plugins/publish/validate_rendersettings.py:331-338 | all-empty values give no check |
| ValidateRenderSettings.CheckSplitsAtFirstDot | client/ayon_maya/plugins/publish/validate_rendersettings.py:340-364 | an entry with values, a `.` and nodes gives the check on the text after the first `.` |
| ValidateRenderSettings.FloatMatchesIntSetting | client/ayon_maya/plugins/publish/validate_rendersettings.py:301-303 | a float attribute equal to an expected integer is accepted |
| ValidateRenderSettings.GetInvalid | client/ayon_maya/plugins/publish/validate_rendersettings.py:128-314 | an unknown renderer raises KeyError; otherwise the validator raises exactly when a checked node's attribute cannot be read, with the first such read's error, and else the flag is the rules' verdict |
| ValidateRenderSettings.CommonRules | client/ayon_maya/plugins/publish/validate_rendersettings.py:153-167 | the animation, layer token, camera token and padding rules (with lines 264-267 of the same file) |
| ValidateRenderSettings.RendererRules | client/ayon_maya/plugins/publish/validate_rendersettings.py:171-255 | the rules of the renderer in use |
| ValidateRenderSettings.RedshiftAovs | client/ayon_maya/plugins/publish/validate_rendersettings.py:196-224 | invalid exactly when some Redshift AOV has the wrong prefix or a non-Cryptomatte format unlike the global one |
| ValidateRenderSettings.CheckNodes | client/ayon_maya/plugins/publish/validate_rendersettings.py:284-312 | the loops' result is the checks in order, each over its nodes, the first unreadable attribute aborting them |
| ValidateRenderSettings.NodesOutcomeSpec | client/ayon_maya/plugins/publish/validate_rendersettings.py:287-312 | a check's node loop raises exactly when some node's attribute cannot be read, and otherwise flags invalid exactly when some node's value is not among the check's values |
| ValidateRenderSettings.ChecksOutcomeSpec | client/ayon_maya/plugins/publish/validate_rendersettings.py:284-312 | the check loops raise exactly when some checked attribute cannot be read, and otherwise flag invalid exactly when some value is rejected |
| ValidateRenderSettings.NodesErrSticks | client/ayon_maya/plugins/publish/validate_rendersettings.py:290-296 | once a node's read has raised, the later nodes are never read |
| ValidateRenderSettings.ChecksErrSticks | client/ayon_maya/plugins/publish/validate_rendersettings.py:284-296 | once a check has raised, the later checks are never read |
| ValidateRenderSettings.AnimationRequired | client/ayon_maya/plugins/publish/validate_rendersettings.py:153-156 | animation off alone makes the settings invalid |
| ValidateRenderSettings.LayerTokenRequired | client/ayon_maya/plugins/publish/validate_rendersettings.py:158-162 | a prefix without a layer token is invalid |
| ValidateRenderSettings.CameraTokenRequired | client/ayon_maya/plugins/publish/validate_rendersettings.py:164-169 | several cameras need `%c` or `Camera>` (with line 109 of the same file) |
| ValidateRenderSettings.PaddingFour | client/ayon_maya/plugins/publish/validate_rendersettings.py:264-267 | any padding other than four is invalid (with line 112 of the same file) |
| ValidateRenderSettings.AovTokenRules | client/ayon_maya/plugins/publish/validate_rendersettings.py:239-255 | Redshift must not have an AOV token, merged Arnold must not, unmerged Arnold must (with lines 189-194 of the same file) |
| ValidateRenderSettings.SeparatorSubstituted | client/ayon_maya/plugins/publish/validate_rendersettings.py:148-149 | the separator replaces the placeholder, `_` by default |
| ValidateRenderSettings.ValidWhenAllPass | client/ayon_maya/plugins/publish/validate_rendersettings.py:128-314 | with every rule met and every node attribute readable and accepted the settings are valid |
| ValidateSkeletonTopGroupHierarchy.NonRootExactly | client/ayon_maya/plugins/publish/validate_skeleton_top_group_hierarchy.py:19-22 | a node is returned exactly when it is an input node with more than two `\|` |
| ValidateSkeletonTopGroupHierarchy.NonRootInOrder | client/ayon_maya/plugins/publish/validate_skeleton_top_group_hierarchy.py:20-22 | the result is the input's nodes at strictly increasing positions |
| ValidateSkeletonTopGroupHierarchy.Process | client/ayon_maya/plugins/publish/validate_skeleton_top_group_hierarchy.py:36-48 | an inactive plugin or an empty skeleton mesh list passes; a raise lists some non-root nodes |
| ValidateSkeletonTopGroupHierarchy.RaisesIff | client/ayon_maya/plugins/publish/validate_skeleton_top_group_hierarchy.py:40-48 | an active check raises exactly when some node has more than two `\|` |
| ValidateTransformNamingSuffix.FirstSuffix | client/ayon_maya/plugins/publish/validate_transform_naming_suffix.py:95-99 | the first of the suffixes the name ends with, or none exactly when it ends with none |
| ValidateTransformNamingSuffix.IsValidName | client/ayon_maya/plugins/publish/validate_transform_naming_suffix.py:70-99 | an unknown type gives the allow flag, else valid exactly when one of the type's suffixes ends the name |
| ValidateTransformNamingSuffix.EmptySuffixesRejectAll | client/ayon_maya/plugins/publish/validate_transform_naming_suffix.py:95-99 | an empty suffix list accepts no name |
| ValidateTransformNamingSuffix.SuffixedNameValid | client/ayon_maya/plugins/publish/validate_transform_naming_suffix.py:95-99 | a stem followed by one of the type's suffixes is valid |
| ValidateTransformNamingSuffix.GetInvalid | client/ayon_maya/plugins/publish/validate_transform_naming_suffix.py:102-128 | each transform whose name does not fit its shape type, in order |
| ValidateTransformNamingSuffix.InvalidExactly | client/ayon_maya/plugins/publish/validate_transform_naming_suffix.py:113-126 | a transform is reported exactly when its name is invalid for its type |
| ValidateTransformNamingSuffix.GroupNeedsGrp | client/ayon_maya/plugins/publish/validate_transform_naming_suffix.py:119 | a transform without shapes is checked as `group`, so `_GRP` names pass (with lines 44-52 of the same file) |
| ValidateTransformNamingSuffix.UnknownTypeAllowed | client/ayon_maya/plugins/publish/validate_transform_naming_suffix.py:92-93 | a type the default table does not list is accepted (with line 52 of the same file) |
| ValidateTransformNamingSuffix.TableLines | client/ayon_maya/plugins/publish/validate_transform_naming_suffix.py:55-67 | one line per type, in table order |
| ValidateTransformNamingSuffix.OneLinePerType | client/ayon_maya/plugins/publish/validate_transform_naming_suffix.py:55-67 | splitting the text at newlines gives back one line per type |
| ValidateTransformNamingSuffix.EmptyTable | client/ayon_maya/plugins/publish/validate_transform_naming_suffix.py:55-67 | an empty table gives an empty text |
| ValidateUniqueNames.Considered | client/ayon_maya/plugins/publish/validate_unique_names.py:37-40 | exactly the transforms whose name contains `\|` |
| ValidateUniqueNames.GetInvalid | client/ayon_maya/plugins/publish/validate_unique_names.py:27-54 | the considered transforms whose leaf name occurs at least twice among them, in order |
| ValidateUniqueNames.CountLeaves | client/ayon_maya/plugins/publish/validate_unique_names.py:43-46 | the counter holds each leaf name's number of occurrences |
| ValidateUniqueNames.KeepRepeated | client/ayon_maya/plugins/publish/validate_unique_names.py:48-52 | the second loop keeps the transforms whose leaf counts at least two |
| ValidateUniqueNames.CountTwice | client/ayon_maya/plugins/publish/validate_unique_names.py:43-51 | a leaf counts at least two exactly when two positions hold it |
| ValidateUniqueNames.InvalidExactly | client/ayon_maya/plugins/publish/validate_unique_names.py:42-54 | a transform is reported exactly when another considered position has its leaf name |
| ValidateUniqueNames.RepeatedExactly | client/ayon_maya/plugins/publish/validate_unique_names.py:48-52 | membership in the report is a leaf count of at least two |
| ValidateUniqueNames.RepeatedInOrder | client/ayon_maya/plugins/publish/validate_unique_names.py:48-54 | the report is the transforms at strictly increasing positions |
| ValidateUniqueNames.NothingConsidered | client/ayon_maya/plugins/publish/validate_unique_names.py:37-54 | no transform with a `\|` means nothing to report |

## Left out

- Maya itself is not modelled: `cmds`, `mel`, OpenMaya and the render setup API. Node attributes, the nodes and namespaces that exist, the current namespace, the installed plug-in versions and the scene's units and frame rate are parameters or maps read by the model. Exports, selections, node creation and locking are not modelled.
- The file system is not modelled. Reading `.mtl`, `.rigsettings`, `.ma` and `.xgen` files takes their lines as input and gives the lines written as output; copies, hard links and hashes are not modelled.
- Running `maketx` and other subprocesses is not modelled. The texture processors are seen only through the extension of the files they write.
- The USD `Sdf` API is not modelled. `remove_spec` and `remove_layer_specs` are left out; `FilterProperties.PostExport` gives the paths each layer would lose.
- Multiverse's own write call is not modelled, nor is the way the Redshift proxy export and the camera export bake, unlock and transfer image planes.
- Logging is not modelled, except where a log line is part of what an operation decides (the additional render attributes that are not supported).
- pyblish's plugin registry is not modelled. The `process` of the clashing-sibling-names validator, with `is_strip_namespaces_enabled`, is left out; its `get_invalid` is modelled.
- The `repair` methods of the render settings validator and the look contents validator's `validate_renderer` are left out, because they are Maya writes and renderer-plugin queries.
- The render-layer branch of the frame range repair (`repair_renderlayer`) is left out, beyond `_set_attr_in_layer` (`ValidateFrameRange.LayerAttr.SetInLayer`), because the branch only dispatches to it.
- The frame-range reset and `currentTime` calls of `set_default_renderer_settings` (lib_rendersettings.py:91-95) are left out, because they are Maya time-slider writes.
- RenderSettings.SetArnoldSettings: the AOV list edits (lib_rendersettings.py:142-146 and 164-167) are left out, because adding and removing Arnold AOV nodes goes through the mtoa AOV interface. The render globals' defaults that `unifiedRenderGlobalsRevertToDefault` restores, the scene's cameras and the folder's animation range are parameters.
- RenderSettings.SetRendermanSettings: the display and sample filter nodes, found or created, are parameters, one per configured filter type. Node creation and the `.message` connections to `rmanGlobals` are left out, because they are Maya graph edits.
- Json.Loads: rejects the `NaN`, `Infinity` and `-Infinity` literals that `json.loads` accepts, so a `JSON::` value holding one fails to decode.
- The image loader's `_format_path` and `_get_colorspace` are left out, because they are path templating and colour management outside the loader's decisions.
- PyData.Value: floats are carried as the text of their `repr`, not as binary64. Float arithmetic and rounding are not modelled.
- PyConv.ParseFloat: keeps the literal text it parsed (`"1.50"` stays `1.50`) rather than Python's `repr` of the value (`1.5`), so two spellings of the same float compare unequal.
- PyData.PyEq: `1 == 1.0 == True` holds, and lists and tuples compare element by element. Two dicts compare by their entries in order, so the model's dict equality is order-sensitive where Python's is not.
- ValidateAlembicOptionsDefaults.Differs: lists are compared as multisets, so a list mixing types that `sorted()` cannot order does not raise TypeError. Elements of mixed numeric type (`1` and `1.0`) count as different elements.
- PyData.Repr: strings are always put in single quotes, and their quotes and backslashes are not escaped. Python switches to double quotes for a string that holds a single quote.
- Strs.Lower: ASCII-only. Python's `str.lower` and `re.IGNORECASE` fold all of Unicode.
- Strs.IsDigit: ASCII-only. Python's `\d` and `str.isdigit` accept every Unicode decimal digit.
- CollectLook.GlobDigits: POSIX paths only. On Windows the source's `os.path` is `ntpath`, which also splits at `\` and at a drive colon.
- ExtractLook.Destination: POSIX paths only, for the same reason.
- ValidateFrameRange.ReadRange: takes integer frames only. `int()` of a float frame, which truncates, is not modelled.
- ExtractMultiverseUsd.TimeOpts: takes integer frames only. Float frame values are not modelled.
- CreateAnimationPointcache.ConvertLegacy: receives the publish and creator attributes as parameters, so the KeyError that a node data lacking either key raises is not modelled.
- ExtractMayaSceneRaw.Selection: the containers found by `_get_loaded_containers` are a parameter. Its rule (the containers of the referenced members) is not modelled.
- Plugin.ReadInstanceNode: reads back the stored value. `lib.read` turns an enum attribute into its label; that read-back is dropped, so a list imprinted as an enum reads back as its index 0.
- WorkfileTemplate.ReadPlaceholder: the enum read-back of `lib.read` is dropped here too.
- Plugin.LoadColorFor: records whether the components are scaled rather than dividing them by 255. The TypeError that mixed component types raise in that division is not modelled.
- MayaLib.ConvertToMayaFps: covers whole frame rates only. The branch that matches fractional rates (23.976, 29.97 and so on) to Maya's names is left out.
- LookAssignerStandin.Assignments: `node_assignments` is a map, so the order in which the standin's operators are created is not modelled.
- LookAssignerCommands.CreateFolderIdHash: the members of a reference are taken in scene order and duplicates are kept. The source's `list(set(...))` removes duplicate members and leaves their order unspecified.
- ValidateClashingSiblingNames.GetInvalid: the result is a set, because the grouping goes through sets and the source's order is arbitrary.
- The look assigner's Maya queries are parameters:
  - creating the `aiSetParameter` operators;
  - `get_current_set_parameter_operators`;
  - reading the ids from a standin's files in `get_nodes_by_id`.
- Python's recursion limits, out-of-memory conditions and integer widths do not arise, because the model's integers are unbounded, as Python's are.

## Findings

| source | as written | input that shows it | evidently intended | confidence | as-written member | corrected member |
|---|---|---|---|---|---|---|
| client/ayon_maya/api/lib.py:466-476 | `unique_namespace` starts ROOT at `:` for an absolute namespace, then appends `start`, which already begins with `:`. A nested absolute namespace is checked under `::a:`. | `unique_namespace(":a:x")` with `:a:x01` existing answers `:a:x01`, because it checks `::a:x01`, which never exists | existence is checked under `:a:`, the namespace the result is created in | not executed | MayaLib.NestedNamespaceReused, MayaLib.DoubledRootColon | MayaLib.Layout, MayaLib.LayoutAgrees |
| client/ayon_maya/api/lib_rendersettings.py:16-22,50-55,97-100 | `_image_prefix_nodes` gives `mayahardware2` a prefix attribute, but `_image_prefixes` has no entry for it, so `self._image_prefixes[renderer]` raises KeyError | `set_default_renderer_settings("mayahardware2")` | renderers without a configured prefix keep theirs, and the rest of the defaults apply | not executed | RenderSettings.MayaHardwarePrefixRaises, RenderSettings.DefaultsMayaHardwareRaises | RenderSettings.WritePrefix, RenderSettings.WritePrefixAgrees |
| client/ayon_maya/api/lib_rendersettings.py:97-101,175-176 | `_set_arnold_settings` writes the raw configured `img_prefix` over the prefix the caller has just written with the separator filled in | an Arnold prefix `<RenderLayer>/<RenderLayer>{aov_separator}<RenderPass>` ends up with the literal `{aov_separator}` | Arnold's prefix gets the separator, like every other renderer's | not executed | RenderSettings.ArnoldKeepsRawPrefix | RenderSettings.ArnoldIntendedFilledPrefix, RenderSettings.ArnoldIntendedAgrees |
| client/ayon_maya/api/workfile_template_builder.py:159-160 | the loop over `changed_values` stores `value`, the loop variable left over from the previous loop, for every changed key | editing `a` to 1 and `b` to 2 stores 2 under both keys | each changed key stores its own new value | not executed | WorkfileTemplate.UpdatePlaceholderAsWritten, WorkfileTemplate.StaleValueShown | WorkfileTemplate.UpdatePlaceholder, WorkfileTemplate.UpdatedHoldsNew |
| client/ayon_maya/plugins/publish/extract_maya_usd.py:167-168,183-185,230 | optional options are declared as `(list, None)` or `(str, None)`, and `isinstance(value, (list, None))` raises TypeError whenever the value is not a list | `{"shadingMode": 1}` or `{"chaser": None}` | a value of another type is skipped with a warning, as the docstring says; `NoneType` was meant | not executed | ExtractMayaUsd.OptionalOverrideRaises | ExtractMayaUsd.TypeCheck, ExtractMayaUsd.ParseNeverRaises |
| client/ayon_maya/plugins/publish/extract_pointcache.py:262-264 | the per-frame callback falls back to `self.pythonPostJobCallback` | no per-frame publish attribute, settings `f` for the per-frame and `p` for the post-job callback: Alembic receives `p` per frame | the fallback is `self.pythonPerFrameCallback` | not executed | ExtractPointcache.PerFrameCallbackAsWritten, ExtractPointcache.PerFrameTakesPostJob | ExtractPointcache.PerFrameCallback |
| client/ayon_maya/plugins/publish/extract_obj.py:159-168 | the guard creates `representation` but the append goes to `representations` | instance data without `representations` raises KeyError | the guard creates `representations` | not executed | ExtractObj.AddRepresentationAsWritten, ExtractObj.MissingRepresentations | ExtractObj.AddRepresentation |
| client/ayon_maya/plugins/inventory/connect_ornatrix_rig.py:102-103 | `maya_file[-len(".oxg.zip")]` indexes one character instead of slicing | every `.oxg.zip` rig file gives the base `.` and the settings file `..rigsettings` | `maya_file[:-len(".oxg.zip")]`, the file name without its two-part extension | not executed | ConnectOrnatrixRig.BaseIsDot | ConnectOrnatrixRig.BaseIntendedRoundTrip |
| client/ayon_maya/tools/mayalookassigner/arnold_standin.py:155-165,374-376 | `shading_engine_assignments` strips the component from each node, then appends to `assignments[node]` for the stripped path. Only the unstripped paths were given lists. | a face assignment on `/root/mesh.f[0:3]` with no other edit naming `/root/mesh` raises KeyError | the stripped object path receives the assignment | not executed | LookAssignerStandin.ComponentAssignmentRaises | LookAssignerStandin.IntendedAssignsEveryNode |
