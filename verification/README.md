# AssetPack core: plugin dispatch walks, asset collection and settings rules

AssetPack turns a folder of source assets into a folder of output assets.
Its core is a set of synchronous walks over file trees. This project
models them as pure Dafny functions over immutable trees and proves what they
promise.

- The **Processor** (`packages/core`) walks a tree of input nodes three times
  per run. Each node is `added`, `modified`, `deleted` or `normal`.
  - The **clean** walk visits children before parents. A deleted node gets
    one `delete` call per applicable plugin. Then its recorded outputs are
    removed and its hash entry is set to null.
  - The **transform** walk visits parents before children. An added or
    modified node is handed to the applicable transform plugins. When none
    applies, a file is copied to its mirrored output path and a folder is
    only recorded. Output lists are kept in a per-path hash and restored
    from it. A folder-scoped plugin owns its subtree, so the walk does not
    descend below it.
  - The **post** walk gives each output record one unit that runs the
    applicable post plugins in order.
  - The helpers:
    - `getOptions` folds the path rules into one options object and looks
      the plugin up by its key;
    - `inputToOutput` computes the default output path;
    - `addToTree` and `saveToOutput` record and save outputs.
- **AssetPack** (`packages/assetpack`) does the following:
  - collects the assets to transform, pruning unchanged subtrees;
  - deletes the transformed files of deleted assets;
  - keeps per-asset transform stats;
  - decides at construction whether to clear the output and cache folders;
  - resolves the promise returned by `watch` once.
- **applySettingToAsset** folds the glob rules in order. It deep-merges
  their settings and shallow-merges their metadata, with later rules
  winning, and the asset's own metadata wins over both.

How side effects appear in the model:

- Filesystem calls and plugin hooks become entries of an effect log: copy,
  write, remove, hook call, missing-asset report.
- The existing paths are a set.
- Collaborators outside this model are function-typed parameters:
  - the glob matcher;
  - `hasTag(tree, 'path', 'ignore')`;
  - `replaceExt`;
  - a plugin's `test`;
  - the outcome of an asset's pipe transform (its rejection message, if any).
- The asset's path relative to the entry folder, which the source computes
  with `path.relative`, is a plain path value given with the glob matcher.
- The plugin map is keyed by object identity. Plugins carry an `id`, so two
  plugin objects with the same name and hooks are still different keys.
- `merge.recursive(options, settings)` is modelled over a small JSON
  datatype (module `Json`), following the `merge` package's own two steps:
  - at each top-level key of the settings, a value that is not an object in
    the options is replaced by the settings' value;
  - an object in the options takes in, one by one, the entries `for...in`
    visits on the settings' value. For an object these are its fields, for
    an array or string its indices, and for `null`, a boolean or a number
    there are none, so the object stays as it was;
  - below the top level the merge is right-biased: two objects merge key
    by key, and otherwise the later value wins.
- A throw from `getOptions` is an error value. The walk stops there and
  keeps the effects already issued, as the synchronous recursion in the
  source would.

The model keeps one behaviour of the code that a reader might not expect.
The clean walk nulls the hash entry of a deleted node. If that node still
carries a non-empty output list, the later transform walk stores the list in
the hash again, because the transform walk treats every node that is not
added or modified the same way. `ProcessorWalks.TransformRestoresOutputs`
states this for all such nodes.

Modules:

| module | contents |
|---|---|
| `Wrappers` | `Option` and `Result` |
| `Json` | JSON values, truthiness, the recursive merge |
| `Seqs` | an order-preserving `Filter` |
| `OutputPaths` | tag-group stripping (`/{(.*?)}/g`), first-occurrence replacement |
| `ProcessorModel` | nodes, records, plugins and the processor; `addPlugin`, `getOptions`, `inputToOutput`, `addToTree`, `saveToOutput`, `addToTreeAndSave` |
| `ProcessorWalks` | the clean, transform and post walks, their reference traversal orders, and `run` |
| `Assets` | assets, the collection walk and the deletion walk |
| `ApplySettings` | `applySettingToAsset` and its reference merges |
| `AssetPack` | configuration defaults, the constructor's folder decision, the per-asset transform units, `watch` and `onComplete` |

## Model

| member | source | states |
|---|---|---|
| `Json.MergeInto` | packages/core/src/Processor.ts:424 | the step on one top-level key: a base that is not an object is replaced by the later value; an object base merged with a later object gives the nested merge; an object base with a later `null`, boolean or number is kept unchanged; an object base stays an object and loses no key |
| `Json.MergeObjects` | packages/core/src/Processor.ts:424 | merging a rule's settings into the options: the result has the keys of both; a key of one side only keeps its value; on a shared key, a non-object in the options gives way to the settings' value, two objects give the nested merge, and an object in the options is kept when the settings hold `null`, a boolean or a number |
| `Json.MergeObjectsAt` | packages/core/src/Processor.ts:424 | on a key path whose first key does not pair an object in the options with a non-object in the settings, the top-level step reaches the same value as the nested merge |
| `Json.MergeLaterLeafWins` | packages/core/src/Processor.ts:424 | in the nested merge below the top-level keys, a non-object value at any key path of the later value is exactly what the merge holds there |
| `Json.MergeKeepsUntouched` | packages/core/src/Processor.ts:424 | in the nested merge, at a key path the later value does not reach, the merge holds what the earlier one holds |
| `Json.MergeObjectsDisjointCommute` | packages/assetpack/src/core/utils/applySettingToAsset.ts:20 | merging two objects with disjoint keys onto a base gives the same result in either order |
| `Json.MergeObjectsEmpty` | packages/assetpack/src/core/utils/applySettingToAsset.ts:20 | `{}` is neutral for the merge on both sides, so starting the fold from `{}` changes nothing |
| `OutputPaths.CloseOf` | packages/core/src/Processor.ts:133 | the non-greedy group body ends at the first `}` when no line terminator comes before it; otherwise no group closes |
| `OutputPaths.StripGroupsRemovesGroup` | packages/core/src/Processor.ts:133 | a `{...}` group without `}` or line break inside is removed together with its braces |
| `OutputPaths.StripGroupsGroupFree` | packages/core/src/Processor.ts:133 | after stripping, no removable group remains (the `g` flag removes all of them) |
| `OutputPaths.StripGroupsOfGroupFree` | packages/core/src/Processor.ts:133 | a path without removable groups is unchanged by stripping |
| `OutputPaths.StripGroupsIdempotent` | packages/core/src/Processor.ts:133 | stripping twice equals stripping once |
| `OutputPaths.IndexOf` | packages/core/src/Processor.ts:135 | the found index is an occurrence of the pattern with none earlier; no index means no occurrence at all |
| `OutputPaths.ReplaceFirst` | packages/core/src/Processor.ts:135 | only the first occurrence of the pattern is replaced, and nothing changes without an occurrence |
| `OutputPaths.ReplaceFirstPrefix` | packages/core/src/Processor.ts:135 | when the path starts with the pattern, that leading occurrence is replaced |
| `ProcessorModel.NewProcessor` | packages/core/src/Processor.ts:30-46 | a new processor has no plugins, an empty plugin map and an empty output hash |
| `ProcessorModel.AddPlugin` | packages/core/src/Processor.ts:48-54 | the plugin is appended to the run list and mapped to its key; other mappings and the rest of the processor are unchanged; registration of all listed plugins is preserved |
| `ProcessorModel.MergeMatchingNoMatch` | packages/core/src/Processor.ts:414-426 | without a matching rule the options stay as they were |
| `ProcessorModel.MergeMatchingUnmentioned` | packages/core/src/Processor.ts:414-426 | a key no matching rule mentions keeps its value, and its presence |
| `ProcessorModel.MergeMatchingLastWins` | packages/core/src/Processor.ts:414-426 | when matching rule `j` sets a top-level key to a non-object value, no later matching rule mentions the key, and no object sits under the key before rule `j` (neither in the starting options nor in an earlier matching rule), the folded options hold rule `j`'s value |
| `ProcessorModel.MergeMatchingObjectStays` | packages/core/src/Processor.ts:414-426 | an object under a top-level key stays an object through the fold, and stays exactly the same when every later matching rule gives the key only `null`, a boolean or a number |
| `ProcessorModel.MergeMatchingAppend` | packages/core/src/Processor.ts:414-426 | folding the rules `a + b` equals folding `b` from the result of folding `a` |
| `ProcessorModel.MergeMatchingLeafWins` | packages/core/src/Processor.ts:414-426 | when matching rule `j` holds a non-object value at key path `q` and no later matching rule reaches `q`, the folded options hold that value at `q`; for a one-key path this also needs no object under that key before rule `j` |
| `ProcessorModel.MergeMatchingKeepsUntouched` | packages/core/src/Processor.ts:414-426 | a key path that no matching rule reaches keeps the value the options held before the fold |
| `ProcessorModel.GetOptions` | packages/core/src/Processor.ts:428-432 | throws the plugin-not-found error exactly when the plugin has no key or has the falsy empty key; otherwise the result is never undefined: a truthy entry or `{}` |
| `ProcessorModel.GetOptionsUnmatched` | packages/core/src/Processor.ts:410-433 | a file no rule matches gets `{}` |
| `ProcessorModel.GetOptionsLastRuleWins` | packages/core/src/Processor.ts:414-432 | when matching rule `j` gives the plugin's key a truthy non-object value, no later matching rule mentions the key, and no earlier matching rule gives it an object, the plugin's options are exactly rule `j`'s value |
| `ProcessorModel.GetOptionsObjectKept` | packages/core/src/Processor.ts:414-432 | when matching rule `j` gives the plugin's key an object and every later matching rule gives it only `null`, a boolean or a number, the plugin's options are the object merged from the rules up to `j`: a later `true` does not replace it |
| `ProcessorModel.GetOptionsDeepLastWins` | packages/core/src/Processor.ts:414-432 | object-valued options are deep-merged: at any key path inside the plugin's entry, the last matching rule reaching it decides a non-object value |
| `ProcessorModel.GetOptionsUnreached` | packages/core/src/Processor.ts:414-432 | a key path inside the plugin's entry that no matching rule reaches is absent from the plugin's options |
| `ProcessorModel.AddPluginKeepsOthersOptions` | packages/core/src/Processor.ts:48-54 | registering another plugin object, even one with the same name and hooks, leaves the options of an already registered plugin unchanged |
| `ProcessorModel.AddPluginThenOptions` | packages/core/src/Processor.ts:428-432 | after registration under a non-empty key, looking up the plugin's options does not throw |
| `ProcessorModel.InputToOutputMirrors` | packages/core/src/Processor.ts:131-143 | a path under the entry folder, without tag groups, maps to the same relative path under the output folder |
| `ProcessorModel.InputToOutputIgnoresGroups` | packages/core/src/Processor.ts:133-135 | tag groups in the input path never influence the output path |
| `ProcessorModel.InputToOutputExtension` | packages/core/src/Processor.ts:137-140 | an empty or absent extension leaves the path alone; a non-empty one goes through `replaceExt` |
| `ProcessorModel.OutputName` | packages/core/src/Processor.ts:201-202 | an explicit output path override wins over the computed path |
| `ProcessorModel.AddToTree` | packages/core/src/Processor.ts:196-222 | exactly one record is appended and earlier records stay; the list is created if undefined; the record's path, folder flag, creator, time, path tags, id and data follow the defaults; call tags override node tags; nothing else of the node changes |
| `ProcessorModel.SaveToOutput` | packages/core/src/Processor.ts:167-184 | absent or falsy data copies the source, other data is written; both target the output name |
| `ProcessorModel.AddToTreeAndSave` | packages/core/src/Processor.ts:145-165 | the record's path and the save target are the same name, computed once |
| `ProcessorWalks.UntilThrow` | packages/core/src/Processor.ts:239-251 | the plugins consulted before a throw are a prefix of the run list in which none throws, and it ends exactly at the first plugin that throws; with no throw it is the whole list |
| `ProcessorWalks.SelectErrFirst` | packages/core/src/Processor.ts:291-310 | the error of a plugin selection names the first plugin of the run list whose options throw |
| `ProcessorWalks.Select` | packages/core/src/Processor.ts:239-251 | the chosen plugins are the applicable ones in registration order up to the first throw; an error arises iff some considered plugin's options throw, and it names that plugin |
| `ProcessorWalks.CleanStep` | packages/core/src/Processor.ts:237-264 | a non-deleted node changes nothing; a deleted node gets the delete calls of the applicable plugins; if it has outputs and nothing threw, every output is removed and its hash entry is nulled |
| `ProcessorWalks.CleanTree` | packages/core/src/Processor.ts:230-267 | the clean walk only appends delete calls and removals to the log, and is a no-op after a throw |
| `ProcessorWalks.CleanTreeIsPostOrder` | packages/core/src/Processor.ts:230-236 | the clean walk equals the clean step applied to every node in post-order, children before parent |
| `ProcessorWalks.CleanTreeNoDeleted` | packages/core/src/Processor.ts:237 | a tree without deleted nodes is left exactly as it was |
| `ProcessorWalks.CleanStepsRemovesOutputs` | packages/core/src/Processor.ts:253-263 | for every deleted node with an output list, every output path is removed and the hash entry ends up null |
| `ProcessorWalks.CleanStepFromDeleted` | packages/core/src/Processor.ts:237-263 | each effect of one clean step is a delete call for the deleted node by an applicable plugin, or the removal of one of its outputs |
| `ProcessorWalks.CleanStepsOnlyDeleted` | packages/core/src/Processor.ts:237-263 | every effect of the clean walk stems from some deleted node of the walk: its delete call by an applicable plugin, or the removal of one of its outputs; non-deleted nodes cause nothing |
| `ProcessorWalks.TransformStep` | packages/core/src/Processor.ts:274-337 | a missing source gives one error report and no descent; a node not added or modified issues nothing; only the output list of the node changes; descent only happens without an error |
| `ProcessorWalks.TransformTree` | packages/core/src/Processor.ts:274-345 | the transform walk only appends transform-phase effects, and is a no-op after a throw |
| `ProcessorWalks.TransformTreeLists` | packages/core/src/Processor.ts:274-345 | in the returned tree every node the walk visits carries the output list its transform step produced, and below every node the walk does not enter the subtree is returned as it was |
| `ProcessorWalks.TransformDispatch` | packages/core/src/Processor.ts:291-323 | a pending node whose source exists gets one transform call per applicable plugin, in order, up to the first plugin whose options throw, and that throw is the step's error; without a throw the copy-or-record fallback runs only when no plugin applied; the walk descends unless a folder-scoped plugin was chosen or the list is undefined |
| `ProcessorWalks.Handle` | packages/core/src/Processor.ts:279-324 | a node that is not added or modified is left alone and issues nothing; otherwise only its output list can change and only transform-phase effects are issued; a throw leaves the node as it was |
| `ProcessorWalks.HandleSelects` | packages/core/src/Processor.ts:291-323 | for an added or modified node the error is the plugin selection's; after a throw or when plugins were chosen, the node stays and the effects are the chosen plugins' transform calls in order; with no plugin chosen and no throw, exactly the fallback runs; descent stops iff a folder-scoped plugin was chosen and nothing threw |
| `ProcessorWalks.Dispatch` | packages/core/src/Processor.ts:291-323 | handing a node to a selection changes only its output list, issues only transform-phase effects and keeps the selection's error; after a throw the node is unchanged |
| `ProcessorWalks.Fallback` | packages/core/src/Processor.ts:313-323 | the fallback changes only the node's output list; a file gets one copy to its mirrored output path, a folder gets no effect |
| `ProcessorWalks.Place` | packages/core/src/Processor.ts:326-335 | after handling, the log grows by exactly the handled effects, only the node's output list can change, and descent only happens without an error |
| `ProcessorWalks.PlaceFrame` | packages/core/src/Processor.ts:326-335 | the hash update and the descent decision do not read the log: the same effects are appended to whatever log is given |
| `ProcessorWalks.TransformThrownStep` | packages/core/src/Processor.ts:291-310 | when a plugin's options throw, the step issues the transform calls of the plugins chosen before it and ends with that first thrower's error, the node unchanged and no descent |
| `ProcessorWalks.TransformHandledStep` | packages/core/src/Processor.ts:291-335 | when plugins were chosen and nothing threw, the step issues exactly their transform calls; it throws iff the output list is undefined, and descends iff the list is defined and no folder-scoped plugin was chosen |
| `ProcessorWalks.TransformFallbackStep` | packages/core/src/Processor.ts:313-335 | when no plugin was chosen and nothing threw, a file's step issues one copy to its mirrored path, a folder's none, and the walk descends |
| `ProcessorWalks.TransformStepFrame` | packages/core/src/Processor.ts:274-337 | one transform step appends to whatever log it is given; its node, hash, error and descent do not depend on that log |
| `ProcessorWalks.TransformTreeIsPreOrder` | packages/core/src/Processor.ts:274-345 | the transform walk equals the transform step over the pre-order of the tree, cut below missing nodes and below nodes owned by a folder plugin |
| `ProcessorWalks.TransformStepDescends` | packages/core/src/Processor.ts:305-308 | the walk descends exactly where the source exists and no folder-scoped plugin was chosen, when nothing threw |
| `ProcessorWalks.TransformMissing` | packages/core/src/Processor.ts:282-289 | a pending node whose source is gone gets one report and no plugin call, and its subtree is untouched |
| `ProcessorWalks.TransformNotPending` | packages/core/src/Processor.ts:280 | a node that is not added or modified gets no transform call, copy or write |
| `ProcessorWalks.TransformUnmatched` | packages/core/src/Processor.ts:313-323 | with no applicable plugin, a file gets one record at its mirrored path plus one copy there; a folder gets one record and no copy; the list is then hashed |
| `ProcessorWalks.TransformRestoresOutputs` | packages/core/src/Processor.ts:326-335 | for a node handled by a plugin, or not added or modified, a non-empty output list is stored in the hash and an empty one is replaced by the hashed list or `[]` |
| `ProcessorWalks.TransformUndefinedThrows` | packages/core/src/Processor.ts:328 | an undefined output list on a node that is not transformed throws at `.length` |
| `ProcessorWalks.TransformFolderStops` | packages/core/src/Processor.ts:337-342 | a node taken by a folder-scoped transform plugin keeps its children as they were, and no effects are issued for them |
| `ProcessorWalks.TransformKeepsShape` | packages/core/src/Processor.ts:274-345 | the transform walk changes output lists only: paths, states, flags, tags and the tree shape stay |
| `ProcessorWalks.PostStep` | packages/core/src/Processor.ts:357-398 | a pending node with outputs gets one unit per record with the applicable post plugins in order; a throw stops before any unit; other nodes issue nothing |
| `ProcessorWalks.PostTree` | packages/core/src/Processor.ts:352-408 | the post walk only appends post units, and is a no-op after a throw |
| `ProcessorWalks.PostTreeIsPreOrder` | packages/core/src/Processor.ts:352-408 | the post walk equals the post step over the pre-order of the tree, cut below nodes owned by a folder post plugin |
| `ProcessorWalks.PostFolderStops` | packages/core/src/Processor.ts:378-400 | a node with outputs taken by a folder-scoped post plugin gets no post units below it |
| `ProcessorWalks.Run` | packages/core/src/Processor.ts:56-129 | the run stamps its time and keeps the plugins; the log starts with the start event; a run without a throw ends with the finish event |
| `ProcessorWalks.CleanTreeFrame` | packages/core/src/Processor.ts:230-267 | the clean walk only appends to the log it is given; its hash and error do not depend on that log |
| `ProcessorWalks.TransformTreeFrame` | packages/core/src/Processor.ts:274-345 | the transform walk only appends to the log it is given; the tree it returns, its hash and its error do not depend on that log |
| `ProcessorWalks.PostTreeFrame` | packages/core/src/Processor.ts:352-408 | the post walk only appends to the log it is given; its error does not depend on that log |
| `ProcessorWalks.RunSegments` | packages/core/src/Processor.ts:56-129 | the run's log is the start event, the clean walk's own log over the root marked modified, the transform walk's own log, the post walk's own log over the tree the transform walk returned, and the finish event; each walk starts from the hash the previous one left, and the first walk that throws decides the run's error |
| `ProcessorWalks.RunRemovesOutputs` | packages/core/src/Processor.ts:81-87 | once the clean walk finishes without a throw, every output recorded on a deleted node of the tree is removed in the run's log, even if a later walk throws |
| `ProcessorWalks.RunPhaseOrder` | packages/core/src/Processor.ts:72-124 | the log is the start event, then clean effects, then transform effects, then post effects, then the finish event; phases never interleave |
| `ProcessorWalks.RunKeepsShape` | packages/core/src/Processor.ts:56-129 | a run marks the root modified and otherwise changes only output lists: paths, states, flags, tags and the tree shape stay |
| `Assets.DeleteAsset` | packages/assetpack/src/core/AssetPack.ts:256-264 | a file asset's own path is removed last, after its transform children |
| `Assets.DeleteAssetSound` | packages/assetpack/src/core/AssetPack.ts:256-264 | every removed path belongs to a file in the transform subtree; folders are never removed |
| `Assets.DeleteAssetComplete` | packages/assetpack/src/core/AssetPack.ts:256-264 | every file of the transform subtree is removed |
| `Assets.DeleteAssetFilesExactly` | packages/assetpack/src/core/AssetPack.ts:250-254 | exactly the file paths strictly below the asset in its transform subtree are removed |
| `Assets.Collect` | packages/assetpack/src/core/AssetPack.ts:235-247 | a normal asset yields nothing; only added or modified assets are collected; an added or modified asset comes before its descendants |
| `Assets.CollectIsLivePreOrder` | packages/assetpack/src/core/AssetPack.ts:235-247 | the collected assets are the added and modified ones of the pre-order cut at normal assets, in order; the removals are the deleted ones' files, in order |
| `Assets.CollectMembership` | packages/assetpack/src/core/AssetPack.ts:235-247 | an asset is collected iff it is added or modified and reachable without passing a normal asset, so children of deleted assets are still visited |
| `ApplySettings.Apply` | packages/assetpack/src/core/utils/applySettingToAsset.ts:8-30 | only settings and metadata can change; with no applying rule the asset is unchanged |
| `ApplySettings.Applying` | packages/assetpack/src/core/utils/applySettingToAsset.ts:17 | a rule applies iff one of its patterns matches the relative path |
| `ApplySettings.GatherFromNothing` | packages/assetpack/src/core/utils/applySettingToAsset.ts:11-23 | the fold yields nothing iff no rule applies; otherwise it yields the in-order merges of the applying rules onto `{}` |
| `ApplySettings.ApplyReplacesSettings` | packages/assetpack/src/core/utils/applySettingToAsset.ts:14-27 | when a rule applies, the settings become the in-order recursive merge of the applying rules' settings, whatever they were before |
| `ApplySettings.MergeMetaLastWins` | packages/assetpack/src/core/utils/applySettingToAsset.ts:21 | among the rules, the last one setting a metadata key decides it |
| `ApplySettings.ApplyMetaData` | packages/assetpack/src/core/utils/applySettingToAsset.ts:21-28 | the asset's own keys keep their values; rule keys it lacks take the last applying rule's value; no other key appears |
| `ApplySettings.GatherSwapBoth` | packages/assetpack/src/core/utils/applySettingToAsset.ts:19-22 | two applying rules with disjoint settings and metadata keys fold to the same result in either order |
| `ApplySettings.ApplySwapIndependent` | packages/assetpack/src/core/utils/applySettingToAsset.ts:14-22 | swapping two adjacent rules that do not both apply, or that set disjoint keys, does not change the result |
| `AssetPack.EffectiveConfig` | packages/assetpack/src/core/AssetPack.ts:18-49 | the effective configuration has the default keys and the user's keys; a user key has the user's value, since no default is an object; any other default key keeps its default |
| `AssetPack.CacheDefault` | packages/assetpack/src/core/AssetPack.ts:22-58 | caching is on unless configured; a configured value decides by its truthiness |
| `AssetPack.Cleared` | packages/assetpack/src/core/AssetPack.ts:65-85 | the output folder is cleared iff caching is off or no cache exists; a distinct cache folder is cleared iff caching is off |
| `AssetPack.Startup` | packages/assetpack/src/core/AssetPack.ts:65-89 | all removals come first, then the output folder and the cache folder are ensured, in that order |
| `AssetPack.StartupRemoves` | packages/assetpack/src/core/AssetPack.ts:65-85 | a folder is removed at startup iff it is one of the cleared folders |
| `AssetPack.ConfiguredStartup` | packages/assetpack/src/core/AssetPack.ts:48-89 | caching is read from the configuration merged over the defaults: with `cache` unset, the output folder is removed iff no cache exists and a distinct cache folder is kept; set falsy, both folders are removed; set truthy, the output folder is removed iff no cache exists; the two folders are ensured last |
| `AssetPack.TransformUnit` | packages/assetpack/src/core/AssetPack.ts:200-217 | stats start as a success and become a failure with the message iff the transform rejects; in this model only the stats change |
| `AssetPack.TransformUnits` | packages/assetpack/src/core/AssetPack.ts:197-230 | a skipped asset gets no stats and no transform; every other one goes through one unit; the rejection is absorbed; the counter equals the number of transformed assets, at most the number collected |
| `AssetPack.Watch` | packages/assetpack/src/core/AssetPack.ts:165-175 | `watch` installs its own resolver, replacing an earlier one, and sets the callback |
| `AssetPack.OnComplete` | packages/assetpack/src/core/AssetPack.ts:123-146 | the cache write is attempted iff caching is on; success is reported and the callback runs (iff set) unless an earlier call threw; the pending resolver, and only that one, is called and cleared iff no call threw, and a throw leaves it installed |
| `AssetPack.ResolvedAtMostInstalled` | packages/assetpack/src/core/AssetPack.ts:139-146 | over any sequence of `watch` calls and completions, throwing or not, a resolver is called no more often than it was installed |
| `AssetPack.CompleteResolvesPending` | packages/assetpack/src/core/AssetPack.ts:123-146 | a completion that runs to its end calls the pending resolver exactly once and no other; one whose cache write, buffer release or callback throws calls none |
| `AssetPack.ResolvedAfterRetry` | packages/assetpack/src/core/AssetPack.ts:123-146 | after a completion that throws, the promise is still pending and the next completion that runs to its end resolves it exactly once |
| `AssetPack.ResolvedAtMostOnce` | packages/assetpack/src/core/AssetPack.ts:165-175 | the promise of one `watch` call is resolved at most once |
| `AssetPack.NoCacheWriteWithoutCache` | packages/assetpack/src/core/AssetPack.ts:124-131 | with caching off, no completion ever writes the cache |

## Left out

- Concurrency. The hook promises, `Promise.all` and `promiseAllConcurrent(all, 5)` are not modelled: hook calls are logged in issue order and transform units run one after another. The bound of 5 depends on code that is not part of this model.
- Plugin hook bodies (`delete`, `transform`, `post`, `start`, `finish`) and `@pixi/runner`. A hook call is one logged effect. The start and finish emits are one event each. A hook that calls `addToTree` itself during the walk is not modelled.
- The private `_hash` map of the processor. It is written by the transform walk and never read.
- `Date.now`, `performance.now`, durations, the rounded progress percentage, `Logger` and `BuildReporter`. The run time is a parameter. Only the integer progress counter is kept. The reporter calls inside `onComplete` are taken not to throw; only the cache write, the buffer release and the user's callback may.
- What `AssetWatcher` does with a rejected `onComplete`. A completion that throws ends there in `AssetPack.OnComplete`, and the replay goes on with the next act.
- Filesystem calls (`copySync`, `outputFileSync`, `removeSync`, `existsSync`, `ensureDirSync`). They are log entries, and the existing paths are a set.
- `normalizePath`, which depends on the process's working directory. Entry and output paths are taken as given.
- `minimatch`, `hasTag`, `replaceExt` and plugin `test` are uninterpreted. They are passed in as functions. The result of `path.relative` is passed in as a path, and the outcome of `PipeSystem.transform` as a function giving its rejection message.
- What `PipeSystem.transform` does to an asset. It builds the asset's transform children, which `_deleteAsset` later walks. The model keeps the transform children as given. `AssetPack.TransformUnit` changes only the stats.
- `AssetCache`, `AssetWatcher`, `PipeSystem` and `generateCacheName` are not part of this model. The cache's existence is a parameter, and completions are inputs of `AssetPack.Replay`.
- The `merge` package's source is not part of this model; its two steps are written from the package's behaviour as described above. Details left out:
  - below the top-level keys, arrays are leaves that the later value replaces;
  - rule settings and metadata are always objects, so a missing or non-object `settings` value is not modelled;
  - the library's aliasing and mutation of its arguments;
  - keys explicitly set to `undefined`.
- JavaScript's prototype properties as option keys, and `$` patterns in `String.prototype.replace`. Keys and replacement strings are plain.
- The tree and hash state left behind after a throw mid-walk. The model keeps the effects and hash updates made before the throw, and the nodes it had already returned. The async rejection of `run` itself is the error value of `ProcessorWalks.Run`.
- packages/assetpack/src/cli/index.ts, eslint.config.mjs and packages/assetpack/src/texture-packer/packer/createTextureData.ts. These are process I/O, tooling and image-library code.
- Assets.DeleteAsset: its contract states only that the asset's own path comes last. That removal is exactly the subtree's file paths is stated by `Assets.DeleteAssetSound` and `Assets.DeleteAssetComplete`.
- ProcessorModel.MergeMatchingLastWins and ProcessorModel.GetOptionsLastRuleWins: "the later non-object value wins" is promised only when no object sits under the key before rule `j`. An earlier object is kept against a later `null`, boolean or number (`ProcessorModel.GetOptionsObjectKept`). Against a later string or array it takes in the indices; the model states only that it stays an object and loses no key (`Json.MergeInto`, `ProcessorModel.MergeMatchingObjectStays`).
- ProcessorModel.GetOptions: its contract states only the throw and the `|| {}` fallback. The merged value is stated by `ProcessorModel.GetOptionsLastRuleWins`, `ProcessorModel.GetOptionsDeepLastWins` and `ProcessorModel.GetOptionsUnreached`.
- ProcessorWalks.TransformStep: its contract states only the missing-source case, the nodes not added or modified, and the frame on the node. The plugin dispatch is stated by `ProcessorWalks.TransformDispatch`, the hash update by `ProcessorWalks.TransformRestoresOutputs`, and the fallback by `ProcessorWalks.TransformUnmatched`.
- ProcessorWalks.TransformTree: its contract states only how the log grows. The returned tree is stated by `ProcessorWalks.TransformTreeLists` and `ProcessorWalks.TransformKeepsShape`.
- ProcessorWalks.Run: its contract states only the time stamp and the first and last events. The contents of the log are stated by `ProcessorWalks.RunSegments` and `ProcessorWalks.RunPhaseOrder`.
