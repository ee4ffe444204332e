/**
 The processor of the asset pipeline: its tree of source nodes, the output
 records attached to them, plugin registration, per-plugin option lookup,
 the default input-to-output path mapping and the two calls plugins use to
 materialise outputs (`addToTree`, `saveToOutput`).

 Collaborators the processor only calls are parameters gathered in `Env`:
 a plugin's `test`, the `hasTag(tree, 'path', 'ignore')` check, `minimatch`,
 `replaceExt` and `existsSync` (as the set of paths that exist).
 */
module ProcessorModel {
  import opened Wrappers
  import opened Json
  import opened OutputPaths

  type Path = string
  type Tags = map<string, Json>

  datatype NodeState = Added | Modified | Deleted | Normal

  /** One produced output file or folder (a transformed tree). */
  datatype Record = Record(
    path: Path,
    isFolder: bool,
    creator: Path,
    time: int,
    fileTags: Tags,
    pathTags: Tags,
    transformId: Option<string>,
    transformData: map<string, string>)

  /** One source file or folder; `transformed` is `None` while the list is undefined. */
  datatype Node = Node(
    path: Path,
    isFolder: bool,
    state: NodeState,
    files: seq<Node>,
    transformed: Option<seq<Record>>,
    fileTags: Tags,
    pathTags: Tags)
  {
    /** The node was added or modified in this run. */
    predicate Pending()
    {
      state == Added || state == Modified
    }
  }

  /**
   A plugin object with the hooks it defines. The plugin map is keyed by
   object identity, so two plugin objects with the same name and hooks are
   still different keys: `id` tells them apart.
   */
  datatype Plugin = Plugin(id: nat, name: string, folder: bool, hasDelete: bool, hasTransform: bool, hasPost: bool)

  /** A per-path settings rule of the configuration. */
  datatype FileRule = FileRule(files: seq<string>, settings: Object)

  datatype Config = Config(entry: Path, output: Path, files: seq<FileRule>)

  /** The processor's state: registered plugins, the run time and the per-path output hash. */
  datatype Processor = Processor(
    config: Config,
    pluginMap: map<Plugin, string>,
    plugins: seq<Plugin>,
    modifiedTime: int,
    transformHash: map<Path, Option<seq<Record>>>)

  /** The collaborators whose code is outside the processor. */
  datatype Env = Env(
    test: (Plugin, Node, Json) -> bool,
    hasIgnoreTag: Node -> bool,
    matches: (Path, string) -> bool,
    replaceExt: (Path, string) -> Path,
    existing: set<Path>)

  /** The errors the processor throws. */
  datatype Error =
    | PluginNotFound(plugin: Plugin)
    | TransformedUndefined(path: Path)

  /** Bytes or text a plugin asks to be written. */
  datatype Data = Text(text: string) | Bytes(bytes: seq<bv8>)

  /** Side effects of the processor, in the order they are issued. */
  datatype Effect =
    | StartEmitted
    | DeleteCall(plugin: Plugin, path: Path)
    | Remove(path: Path)
    | TransformCall(plugin: Plugin, path: Path)
    | Copy(source: Path, target: Path)
    | Write(target: Path, data: Data)
    | MissingAsset(path: Path)
    | PostUnit(record: Record, plugins: seq<Plugin>)
    | FinishEmitted

  /** A freshly constructed processor. */
  function NewProcessor(config: Config): (p: Processor)
    ensures p.plugins == [] && p.pluginMap == map[] && p.transformHash == map[]
  {
    Processor(config, map[], [], 0, map[])
  }

  /** Every plugin in the run list is known to the plugin map. */
  predicate Registered(p: Processor)
  {
    forall q :: q in p.plugins ==> q in p.pluginMap
  }

  /** Register `plugin` under the options key `key`, after all earlier plugins. */
  function AddPlugin(p: Processor, plugin: Plugin, key: string): (q: Processor)
    ensures q.plugins == p.plugins + [plugin]
    ensures plugin in q.pluginMap && q.pluginMap[plugin] == key
    ensures forall o :: o in p.pluginMap && o != plugin ==> o in q.pluginMap && q.pluginMap[o] == p.pluginMap[o]
    ensures q.pluginMap.Keys == p.pluginMap.Keys + {plugin}
    ensures Registered(p) ==> Registered(q)
    ensures q.config == p.config && q.transformHash == p.transformHash && q.modifiedTime == p.modifiedTime
  {
    p.(pluginMap := p.pluginMap[plugin := key], plugins := p.plugins + [plugin])
  }

  /** Some pattern of the rule matches the file. */
  predicate RuleMatches(env: Env, file: Path, rule: FileRule)
  {
    exists i :: 0 <= i < |rule.files| && env.matches(file, rule.files[i])
  }

  /** Fold the settings of every rule matching `file` into `acc`, in rule order. */
  function MergeMatching(env: Env, rules: seq<FileRule>, file: Path, acc: Object): Object
    decreases |rules|
  {
    if rules == [] then acc
    else
      var acc' := if RuleMatches(env, file, rules[0]) then MergeObjects(acc, rules[0].settings) else acc;
      MergeMatching(env, rules[1..], file, acc')
  }

  /** Without a matching rule the accumulated options are returned untouched. */
  lemma {:induction false} MergeMatchingNoMatch(env: Env, rules: seq<FileRule>, file: Path, acc: Object)
    requires forall i :: 0 <= i < |rules| ==> !RuleMatches(env, file, rules[i])
    ensures MergeMatching(env, rules, file, acc) == acc
    decreases |rules|
  {
    if rules != [] {
      assert !RuleMatches(env, file, rules[0]);
      MergeMatchingNoMatch(env, rules[1..], file, acc);
    }
  }

  /** A key that no matching rule mentions keeps its accumulated value. */
  lemma {:induction false} MergeMatchingUnmentioned(env: Env, rules: seq<FileRule>, file: Path, acc: Object, k: string)
    requires forall i :: 0 <= i < |rules| && RuleMatches(env, file, rules[i]) ==> k !in rules[i].settings
    ensures k in MergeMatching(env, rules, file, acc) <==> k in acc
    ensures k in acc ==> MergeMatching(env, rules, file, acc)[k] == acc[k]
    decreases |rules|
  {
    if rules != [] {
      var acc' := if RuleMatches(env, file, rules[0]) then MergeObjects(acc, rules[0].settings) else acc;
      assert k in acc' <==> k in acc;
      assert k in acc ==> acc'[k] == acc[k];
      MergeMatchingUnmentioned(env, rules[1..], file, acc', k);
    }
  }

  /**
   No object sits under key `k` before rule `j`: neither in the options the
   fold starts from nor in an earlier matching rule's settings.
   */
  predicate NoObjectBefore(env: Env, rules: seq<FileRule>, file: Path, acc: Object, j: nat, k: string)
  {
    && (k in acc ==> !acc[k].JObj?)
    && forall i :: 0 <= i < j && i < |rules| && RuleMatches(env, file, rules[i]) && k in rules[i].settings ==>
         !rules[i].settings[k].JObj?
  }

  /** Folding one more rule keeps the options free of an object under `k` when the rule puts none there. */
  lemma NoObjectBeforeStep(env: Env, rules: seq<FileRule>, file: Path, acc: Object, j: nat, k: string)
    requires rules != [] && 0 < j && NoObjectBefore(env, rules, file, acc, j, k)
    ensures var acc' := if RuleMatches(env, file, rules[0]) then MergeObjects(acc, rules[0].settings) else acc;
            NoObjectBefore(env, rules[1..], file, acc', j - 1, k)
  {
    forall i | 0 <= i < j - 1 && i < |rules[1..]| && RuleMatches(env, file, rules[1..][i]) && k in rules[1..][i].settings
      ensures !rules[1..][i].settings[k].JObj?
    {
      assert rules[1..][i] == rules[i + 1];
    }
  }

  /**
   Later wins: when rule `j` matches and sets key `k` to a non-object value,
   no object sits under `k` before it, and no later matching rule mentions
   `k`, the merged options hold that value.
   */
  lemma {:induction false} MergeMatchingLastWins(env: Env, rules: seq<FileRule>, file: Path, acc: Object, j: nat, k: string)
    requires j < |rules| && RuleMatches(env, file, rules[j])
    requires k in rules[j].settings && !rules[j].settings[k].JObj?
    requires NoObjectBefore(env, rules, file, acc, j, k)
    requires forall i :: j < i < |rules| && RuleMatches(env, file, rules[i]) ==> k !in rules[i].settings
    ensures k in MergeMatching(env, rules, file, acc)
    ensures MergeMatching(env, rules, file, acc)[k] == rules[j].settings[k]
    decreases |rules|
  {
    var acc' := if RuleMatches(env, file, rules[0]) then MergeObjects(acc, rules[0].settings) else acc;
    if j == 0 {
      assert acc'[k] == rules[0].settings[k];
      MergeMatchingUnmentioned(env, rules[1..], file, acc', k);
    } else {
      NoObjectBeforeStep(env, rules, file, acc, j, k);
      MergeMatchingLastWins(env, rules[1..], file, acc', j - 1, k);
    }
  }

  /**
   The library's top-level step keeps an object: once the options hold an
   object under `k`, they hold one there to the end, and when the later
   matching rules give `k` only `null`, booleans or numbers, that same object.
   */
  lemma {:induction false} MergeMatchingObjectStays(env: Env, rules: seq<FileRule>, file: Path, acc: Object, k: string)
    requires k in acc && acc[k].JObj?
    ensures k in MergeMatching(env, rules, file, acc) && MergeMatching(env, rules, file, acc)[k].JObj?
    ensures (forall i :: 0 <= i < |rules| && RuleMatches(env, file, rules[i]) && k in rules[i].settings ==>
               Scalar(rules[i].settings[k]))
            ==> MergeMatching(env, rules, file, acc)[k] == acc[k]
    decreases |rules|
  {
    if rules != [] {
      var acc' := if RuleMatches(env, file, rules[0]) then MergeObjects(acc, rules[0].settings) else acc;
      MergeMatchingObjectStays(env, rules[1..], file, acc', k);
      if forall i :: 0 <= i < |rules| && RuleMatches(env, file, rules[i]) && k in rules[i].settings ==>
           Scalar(rules[i].settings[k]) {
        assert acc'[k] == acc[k];
        forall i | 0 <= i < |rules[1..]| && RuleMatches(env, file, rules[1..][i]) && k in rules[1..][i].settings
          ensures Scalar(rules[1..][i].settings[k])
        {
          assert rules[1..][i] == rules[i + 1];
        }
      }
    }
  }

  /** Folding over a concatenation folds over the first part, then over the second. */
  lemma {:induction false} MergeMatchingAppend(env: Env, a: seq<FileRule>, b: seq<FileRule>, file: Path, acc: Object)
    ensures MergeMatching(env, a + b, file, acc) == MergeMatching(env, b, file, MergeMatching(env, a, file, acc))
    decreases |a|
  {
    if a == [] {
      assert a + b == b;
    } else {
      assert (a + b)[0] == a[0] && (a + b)[1..] == a[1..] + b;
      var acc' := if RuleMatches(env, file, a[0]) then MergeObjects(acc, a[0].settings) else acc;
      MergeMatchingAppend(env, a[1..], b, file, acc');
    }
  }

  /**
   Later wins at any depth: when rule `j` matches and holds a non-object
   value `v` at key path `q`, and no later matching rule reaches `q`, the
   merged options hold `v` at `q`. On a one-key path this is the top-level
   step, so no object may sit under that key before rule `j`.
   */
  lemma {:induction false} MergeMatchingLeafWins(env: Env, rules: seq<FileRule>, file: Path, acc: Object, j: nat, q: seq<string>, v: Json)
    requires j < |rules| && RuleMatches(env, file, rules[j])
    requires At(JObj(rules[j].settings), q) == Some(v) && !v.JObj?
    requires |q| == 1 ==> NoObjectBefore(env, rules, file, acc, j, q[0])
    requires forall i :: j < i < |rules| && RuleMatches(env, file, rules[i]) ==> Untouched(JObj(rules[i].settings), q)
    ensures At(JObj(MergeMatching(env, rules, file, acc)), q) == Some(v)
    decreases |rules|
  {
    var acc' := if RuleMatches(env, file, rules[0]) then MergeObjects(acc, rules[0].settings) else acc;
    if j == 0 {
      var k := q[0];
      if |q| == 1 {
        assert acc'[k] == v;
        assert At(JObj(acc'), q) == At(v, q[1..]);
      } else {
        assert k in rules[0].settings && rules[0].settings[k].JObj? && At(rules[0].settings[k], q[1..]) == Some(v);
        MergeObjectsAt(acc, rules[0].settings, q);
        MergeLaterLeafWins(JObj(acc), JObj(rules[0].settings), q, v);
      }
      forall i | 0 <= i < |rules[1..]| && RuleMatches(env, file, rules[1..][i])
        ensures Untouched(JObj(rules[1..][i].settings), q)
      {
        assert rules[1..][i] == rules[i + 1];
      }
      MergeMatchingKeepsUntouched(env, rules[1..], file, acc', q);
    } else {
      if |q| == 1 {
        NoObjectBeforeStep(env, rules, file, acc, j, q[0]);
      }
      MergeMatchingLeafWins(env, rules[1..], file, acc', j - 1, q, v);
    }
  }

  /** A key path that no matching rule reaches keeps what the accumulated options hold there. */
  lemma {:induction false} MergeMatchingKeepsUntouched(env: Env, rules: seq<FileRule>, file: Path, acc: Object, q: seq<string>)
    requires forall i :: 0 <= i < |rules| && RuleMatches(env, file, rules[i]) ==> Untouched(JObj(rules[i].settings), q)
    ensures At(JObj(MergeMatching(env, rules, file, acc)), q) == At(JObj(acc), q)
    decreases |rules|
  {
    if rules != [] {
      var acc' := if RuleMatches(env, file, rules[0]) then MergeObjects(acc, rules[0].settings) else acc;
      if RuleMatches(env, file, rules[0]) {
        assert Untouched(JObj(rules[0].settings), q);
        if q[0] in rules[0].settings {
          assert Untouched(rules[0].settings[q[0]], q[1..]);
        }
        MergeObjectsAt(acc, rules[0].settings, q);
        MergeKeepsUntouched(JObj(acc), JObj(rules[0].settings), q);
      }
      forall i | 0 <= i < |rules[1..]| && RuleMatches(env, file, rules[1..][i])
        ensures Untouched(JObj(rules[1..][i].settings), q)
      {
        assert rules[1..][i] == rules[i + 1];
      }
      MergeMatchingKeepsUntouched(env, rules[1..], file, acc', q);
    }
  }

  /**
   The options of `plugin` for `file`: the merged settings of the matching
   rules, looked up under the plugin's key; a falsy entry gives `{}`. Throws
   when the plugin has no key, or only the (falsy) empty key.
   */
  function GetOptions(p: Processor, env: Env, file: Path, plugin: Plugin): (r: Result<Json, Error>)
    ensures r.Err? <==> plugin !in p.pluginMap || p.pluginMap[plugin] == ""
    ensures r.Err? ==> r.error == PluginNotFound(plugin)
    ensures r.Ok? ==> Truthy(r.value) || r.value == JObj(map[])
  {
    var options := MergeMatching(env, p.config.files, file, map[]);
    if plugin !in p.pluginMap || p.pluginMap[plugin] == "" then Err(PluginNotFound(plugin))
    else
      var name := p.pluginMap[plugin];
      if name in options && Truthy(options[name]) then Ok(options[name]) else Ok(JObj(map[]))
  }

  /** A file no rule matches gets the empty options object, never an undefined one. */
  lemma GetOptionsUnmatched(p: Processor, env: Env, file: Path, plugin: Plugin)
    requires plugin in p.pluginMap && p.pluginMap[plugin] != ""
    requires forall i :: 0 <= i < |p.config.files| ==> !RuleMatches(env, file, p.config.files[i])
    ensures GetOptions(p, env, file, plugin) == Ok(JObj(map[]))
  {
    MergeMatchingNoMatch(env, p.config.files, file, map[]);
  }

  /**
   The options of a plugin are the non-object value the last matching rule
   gives under its key, provided no earlier matching rule put an object
   there (an object would take the later value in rather than give way).
   */
  lemma GetOptionsLastRuleWins(p: Processor, env: Env, file: Path, plugin: Plugin, j: nat)
    requires plugin in p.pluginMap && p.pluginMap[plugin] != ""
    requires j < |p.config.files| && RuleMatches(env, file, p.config.files[j])
    requires var key := p.pluginMap[plugin];
             key in p.config.files[j].settings
             && !p.config.files[j].settings[key].JObj?
             && Truthy(p.config.files[j].settings[key])
    requires forall i :: 0 <= i < j && RuleMatches(env, file, p.config.files[i]) && p.pluginMap[plugin] in p.config.files[i].settings ==>
               !p.config.files[i].settings[p.pluginMap[plugin]].JObj?
    requires forall i :: j < i < |p.config.files| && RuleMatches(env, file, p.config.files[i]) ==>
               p.pluginMap[plugin] !in p.config.files[i].settings
    ensures GetOptions(p, env, file, plugin) == Ok(p.config.files[j].settings[p.pluginMap[plugin]])
  {
    MergeMatchingLastWins(env, p.config.files, file, map[], j, p.pluginMap[plugin]);
  }

  /**
   An object under the plugin's key is not replaced by a later `null`,
   boolean or number: when rule `j` matches with an object there and the
   later matching rules give the key only such values, the options are the
   object the rules up to `j` merged.
   */
  lemma GetOptionsObjectKept(p: Processor, env: Env, file: Path, plugin: Plugin, j: nat)
    requires plugin in p.pluginMap && p.pluginMap[plugin] != ""
    requires j < |p.config.files| && RuleMatches(env, file, p.config.files[j])
    requires var key := p.pluginMap[plugin];
             key in p.config.files[j].settings && p.config.files[j].settings[key].JObj?
    requires forall i :: (j < i < |p.config.files| && RuleMatches(env, file, p.config.files[i])
                          && p.pluginMap[plugin] in p.config.files[i].settings) ==>
               Scalar(p.config.files[i].settings[p.pluginMap[plugin]])
    ensures var before := MergeMatching(env, p.config.files[..j + 1], file, map[]);
            var key := p.pluginMap[plugin];
            && key in before && before[key].JObj?
            && GetOptions(p, env, file, plugin) == Ok(before[key])
  {
    var rules := p.config.files;
    var key := p.pluginMap[plugin];
    var pre := MergeMatching(env, rules[..j], file, map[]);
    assert rules[..j + 1] == rules[..j] + [rules[j]];
    MergeMatchingAppend(env, rules[..j], [rules[j]], file, map[]);
    assert [rules[j]][1..] == [];
    var before := MergeMatching(env, rules[..j + 1], file, map[]);
    assert before == MergeObjects(pre, rules[j].settings);
    assert key in before && before[key].JObj?;
    assert rules == rules[..j + 1] + rules[j + 1..];
    MergeMatchingAppend(env, rules[..j + 1], rules[j + 1..], file, map[]);
    var later := rules[j + 1..];
    forall i | 0 <= i < |later| && RuleMatches(env, file, later[i]) && key in later[i].settings
      ensures Scalar(later[i].settings[key])
    {
      assert later[i] == rules[j + 1 + i];
    }
    MergeMatchingObjectStays(env, later, file, before, key);
  }

  /**
   Object-valued options are deep-merged across the matching rules: a
   non-object value `v` at key path `q` inside the plugin's entry of the last
   matching rule that reaches it is what the plugin's options hold at `q`.
   */
  lemma GetOptionsDeepLastWins(p: Processor, env: Env, file: Path, plugin: Plugin, j: nat, q: seq<string>, v: Json)
    requires plugin in p.pluginMap && p.pluginMap[plugin] != "" && q != []
    requires j < |p.config.files| && RuleMatches(env, file, p.config.files[j])
    requires At(JObj(p.config.files[j].settings), [p.pluginMap[plugin]] + q) == Some(v) && !v.JObj?
    requires forall i :: j < i < |p.config.files| && RuleMatches(env, file, p.config.files[i]) ==>
               Untouched(JObj(p.config.files[i].settings), [p.pluginMap[plugin]] + q)
    ensures GetOptions(p, env, file, plugin).Ok?
    ensures At(GetOptions(p, env, file, plugin).value, q) == Some(v)
  {
    var key := p.pluginMap[plugin];
    MergeMatchingLeafWins(env, p.config.files, file, map[], j, [key] + q, v);
    assert ([key] + q)[0] == key && ([key] + q)[1..] == q;
  }

  /** A key path inside the plugin's entry that no matching rule reaches is absent from its options. */
  lemma GetOptionsUnreached(p: Processor, env: Env, file: Path, plugin: Plugin, q: seq<string>)
    requires plugin in p.pluginMap && p.pluginMap[plugin] != "" && q != []
    requires forall i :: 0 <= i < |p.config.files| && RuleMatches(env, file, p.config.files[i]) ==>
               Untouched(JObj(p.config.files[i].settings), [p.pluginMap[plugin]] + q)
    ensures GetOptions(p, env, file, plugin).Ok?
    ensures At(GetOptions(p, env, file, plugin).value, q) == None
  {
    var key := p.pluginMap[plugin];
    MergeMatchingKeepsUntouched(env, p.config.files, file, map[], [key] + q);
    assert ([key] + q)[0] == key && ([key] + q)[1..] == q;
  }

  /**
   Plugins are told apart by identity: registering another plugin object,
   even one with the same name and hooks, leaves the options of an already
   registered plugin as they were.
   */
  lemma AddPluginKeepsOthersOptions(p: Processor, env: Env, file: Path, plugin: Plugin, other: Plugin, key: string)
    requires plugin in p.pluginMap && other != plugin
    ensures GetOptions(AddPlugin(p, other, key), env, file, plugin) == GetOptions(p, env, file, plugin)
  {
  }

  /** Registering a plugin under a non-empty key makes its options available. */
  lemma AddPluginThenOptions(p: Processor, env: Env, plugin: Plugin, key: string, file: Path)
    requires key != ""
    ensures GetOptions(AddPlugin(p, plugin, key), env, file, plugin).Ok?
  {
  }

  /**
   The default output path: `{...}` groups removed, the first occurrence of
   the entry folder replaced by the output folder, and the extension replaced
   when a non-empty one is given.
   */
  function InputToOutput(p: Processor, env: Env, inputPath: Path, extension: Option<string>): Path
  {
    var target := StripGroups(inputPath);
    var output := ReplaceFirst(target, p.config.entry, p.config.output);
    if extension.Some? && extension.value != "" then env.replaceExt(output, extension.value) else output
  }

  /** A path under the entry folder, free of tag groups, is mirrored under the output folder. */
  lemma InputToOutputMirrors(p: Processor, env: Env, rest: Path)
    requires GroupFree(p.config.entry + rest)
    ensures InputToOutput(p, env, p.config.entry + rest, None) == p.config.output + rest
  {
    StripGroupsOfGroupFree(p.config.entry + rest);
    ReplaceFirstPrefix(p.config.entry, rest, p.config.output);
  }

  /** Tag groups never influence the output path: the mapping sees only the stripped path. */
  lemma InputToOutputIgnoresGroups(p: Processor, env: Env, inputPath: Path, extension: Option<string>)
    ensures InputToOutput(p, env, StripGroups(inputPath), extension) == InputToOutput(p, env, inputPath, extension)
  {
    StripGroupsIdempotent(inputPath);
  }

  /** An extension changes the path only through `replaceExt`, and only when it is non-empty. */
  lemma InputToOutputExtension(p: Processor, env: Env, inputPath: Path, extension: string)
    ensures extension == "" ==> InputToOutput(p, env, inputPath, Some(extension)) == InputToOutput(p, env, inputPath, None)
    ensures extension != "" ==>
              InputToOutput(p, env, inputPath, Some(extension))
              == env.replaceExt(InputToOutput(p, env, inputPath, None), extension)
  {
  }

  /** Where an output goes: `outputPathOverride` or else the default mapping. */
  datatype OutputOptions = OutputOptions(
    outputExtension: Option<string>,
    outputPathOverride: Option<Path>,
    outputData: Option<Data>)

  /** What an output record is tagged with. */
  datatype TransformOptions = TransformOptions(
    isFolder: Option<bool>,
    fileTags: Option<Tags>,
    transformId: Option<string>,
    transformData: Option<map<string, string>>)

  const NoOutputOptions := OutputOptions(None, None, None)
  const NoTransformOptions := TransformOptions(None, None, None, None)

  /** The output name both `addToTree` and `saveToOutput` choose. */
  function OutputName(p: Processor, env: Env, sourcePath: Path, out: OutputOptions): (r: Path)
    ensures out.outputPathOverride.Some? ==> r == out.outputPathOverride.value
    ensures out.outputPathOverride.None? ==> r == InputToOutput(p, env, sourcePath, out.outputExtension)
  {
    out.outputPathOverride.GetOr(InputToOutput(p, env, sourcePath, out.outputExtension))
  }

  /** Output data counts as given only when truthy: absent data or empty text means "copy". */
  predicate HasData(d: Option<Data>)
  {
    d.Some? && (d.value.Bytes? || d.value.text != "")
  }

  /**
   Append one output record to the node, creating the list when undefined.
   The record's tags are the node's file tags overridden by the per-call tags.
   */
  function AddToTree(p: Processor, env: Env, n: Node, out: OutputOptions, tr: TransformOptions): (n': Node)
    ensures n'.transformed.Some?
    ensures n' == n.(transformed := n'.transformed)
    ensures var before := n.transformed.GetOr([]);
            |n'.transformed.value| == |before| + 1 && n'.transformed.value[..|before|] == before
    ensures var rec := n'.transformed.value[|n'.transformed.value| - 1];
            && rec.path == OutputName(p, env, n.path, out)
            && rec.isFolder == tr.isFolder.GetOr(n.isFolder)
            && rec.creator == n.path
            && rec.time == p.modifiedTime
            && rec.pathTags == n.pathTags
            && rec.transformId == tr.transformId
            && rec.transformData == tr.transformData.GetOr(map[])
            && rec.fileTags.Keys == n.fileTags.Keys + tr.fileTags.GetOr(map[]).Keys
            && (forall k :: k in tr.fileTags.GetOr(map[]) ==> rec.fileTags[k] == tr.fileTags.GetOr(map[])[k])
            && (forall k :: k in n.fileTags && k !in tr.fileTags.GetOr(map[]) ==> rec.fileTags[k] == n.fileTags[k])
  {
    var rec := Record(
      OutputName(p, env, n.path, out),
      tr.isFolder.GetOr(n.isFolder),
      n.path,
      p.modifiedTime,
      n.fileTags + tr.fileTags.GetOr(map[]),
      n.pathTags,
      tr.transformId,
      tr.transformData.GetOr(map[]));
    var before := n.transformed.GetOr([]);
    assert (before + [rec])[..|before|] == before;
    n.(transformed := Some(before + [rec]))
  }

  /** Copy the source when no data is given, otherwise write the data; either way at the output name. */
  function SaveToOutput(p: Processor, env: Env, sourcePath: Path, out: OutputOptions): (e: Effect)
    ensures e.Copy? <==> !HasData(out.outputData)
    ensures e.Copy? ==> e.source == sourcePath && e.target == OutputName(p, env, sourcePath, out)
    ensures e.Write? ==> e.target == OutputName(p, env, sourcePath, out) && Some(e.data) == out.outputData
  {
    var name := OutputName(p, env, sourcePath, out);
    if !HasData(out.outputData) then Copy(sourcePath, name) else Write(name, out.outputData.value)
  }

  /** `addToTreeAndSave`: record the output and save it under the same, once-computed, name. */
  function AddToTreeAndSave(p: Processor, env: Env, n: Node, out: OutputOptions, tr: TransformOptions): (r: (Node, Effect))
    ensures r.0 == AddToTree(p, env, n, OutputOptions(None, Some(OutputName(p, env, n.path, out)), None), tr)
    ensures r.1.Copy? <==> !HasData(out.outputData)
    ensures r.1.Copy? ==> r.1.source == n.path
    ensures var recs := r.0.transformed.value;
            (r.1.Copy? ==> r.1.target == recs[|recs| - 1].path)
            && (r.1.Write? ==> r.1.target == recs[|recs| - 1].path)
  {
    var name := OutputName(p, env, n.path, out);
    var n' := AddToTree(p, env, n, OutputOptions(None, Some(name), None), tr);
    var e := SaveToOutput(p, env, n.path, OutputOptions(None, Some(name), out.outputData));
    (n', e)
  }
}
