/**
 Applying per-path settings rules to an asset: the matching rules are taken
 in order, their settings deep-merged and their metadata shallow-merged
 (later rules win), and the asset's own metadata wins over both.
 */
module ApplySettings {
  import opened Wrappers
  import opened Json
  import opened Assets

  /** One rule: glob patterns, the settings they carry, and the metadata they add. */
  datatype AssetSettings = AssetSettings(files: seq<string>, settings: Object, metaData: Object)

  /**
   The glob matcher (`minimatch` with dot-files included) as an opaque
   predicate, and the relative path of the asset from the entry folder.
   */
  datatype Glob = Glob(matches: (Path, string) -> bool, relativePath: Path)

  /** The rule applies: some pattern of it matches the relative path. */
  predicate Applies(g: Glob, rule: AssetSettings)
  {
    exists i :: 0 <= i < |rule.files| && g.matches(g.relativePath, rule.files[i])
  }

  /** The options and metadata gathered so far. */
  datatype Gathered = Gathered(options: Object, metaData: Object)

  /**
   The loop over the rules: each applying rule is merged into what was
   gathered, which is `None` until a rule has applied.
   */
  function Gather(g: Glob, rules: seq<AssetSettings>, acc: Option<Gathered>): (r: Option<Gathered>)
    ensures acc.Some? ==> r.Some?
    decreases |rules|
  {
    if rules == [] then acc
    else
      var rule := rules[0];
      var next := if Applies(g, rule) then
                    var base := if acc.Some? then acc.value else Gathered(map[], map[]);
                    Some(Gathered(MergeObjects(base.options, rule.settings), base.metaData + rule.metaData))
                  else acc;
      Gather(g, rules[1..], next)
  }

  /** `applySettingToAsset`: when any rule applies, replace the settings and add the rules' metadata under the asset's own. */
  function Apply(a: Asset, rules: seq<AssetSettings>, g: Glob): (r: Asset)
    ensures r == a.(settings := r.settings, metaData := r.metaData)
    ensures (forall i :: 0 <= i < |rules| ==> !Applies(g, rules[i])) ==> r == a
  {
    NoneApplyGathersNothing(g, rules, None);
    match Gather(g, rules, None)
    case None => a
    case Some(acc) => a.(settings := Some(acc.options), metaData := acc.metaData + a.metaData)
  }

  lemma {:induction false} NoneApplyGathersNothing(g: Glob, rules: seq<AssetSettings>, acc: Option<Gathered>)
    ensures (forall i :: 0 <= i < |rules| ==> !Applies(g, rules[i])) ==> Gather(g, rules, acc) == acc
    decreases |rules|
  {
    if rules != [] && forall i :: 0 <= i < |rules| ==> !Applies(g, rules[i]) {
      assert !Applies(g, rules[0]);
      assert forall i :: 0 <= i < |rules[1..]| ==> !Applies(g, rules[1..][i]) by {
        forall i | 0 <= i < |rules[1..]| ensures !Applies(g, rules[1..][i]) {
          assert rules[1..][i] == rules[i + 1];
        }
      }
      NoneApplyGathersNothing(g, rules[1..], acc);
    }
  }

  /** The applying rules, in their order. */
  function Applying(g: Glob, rules: seq<AssetSettings>): (m: seq<AssetSettings>)
    ensures forall r :: r in m <==> r in rules && Applies(g, r)
    decreases |rules|
  {
    if rules == [] then []
    else (if Applies(g, rules[0]) then [rules[0]] else []) + Applying(g, rules[1..])
  }

  /** Reference definition: the in-order merge of the given rules' settings onto `base`. */
  function MergeSettings(base: Object, rules: seq<AssetSettings>): Object
    decreases |rules|
  {
    if rules == [] then base else MergeSettings(MergeObjects(base, rules[0].settings), rules[1..])
  }

  /** Reference definition: the in-order override of the given rules' metadata onto `base`. */
  function MergeMeta(base: Object, rules: seq<AssetSettings>): Object
    decreases |rules|
  {
    if rules == [] then base else MergeMeta(base + rules[0].metaData, rules[1..])
  }

  /** Gathering from a started accumulator is the in-order merge of the applying rules. */
  lemma {:induction false} GatherIsMerge(g: Glob, rules: seq<AssetSettings>, acc: Gathered)
    ensures Gather(g, rules, Some(acc)) ==
              Some(Gathered(MergeSettings(acc.options, Applying(g, rules)),
                            MergeMeta(acc.metaData, Applying(g, rules))))
    decreases |rules|
  {
    if rules != [] {
      var rule := rules[0];
      var rest := Applying(g, rules[1..]);
      if Applies(g, rule) {
        GatherIsMerge(g, rules[1..], Gathered(MergeObjects(acc.options, rule.settings), acc.metaData + rule.metaData));
        assert ([rule] + rest)[0] == rule && ([rule] + rest)[1..] == rest;
      } else {
        assert Applying(g, rules) == rest;
        GatherIsMerge(g, rules[1..], acc);
      }
    }
  }

  /** Gathering from nothing: no applying rule gives nothing, otherwise the merge of the applying rules onto `{}`. */
  lemma {:induction false} GatherFromNothing(g: Glob, rules: seq<AssetSettings>)
    ensures var m := Applying(g, rules);
            && (m == [] ==> Gather(g, rules, None) == None)
            && (m != [] ==> Gather(g, rules, None) == Some(Gathered(MergeSettings(map[], m), MergeMeta(map[], m))))
    decreases |rules|
  {
    if rules != [] {
      var rule := rules[0];
      var rest := Applying(g, rules[1..]);
      if Applies(g, rule) {
        GatherIsMerge(g, rules[1..], Gathered(MergeObjects(map[], rule.settings), map[] + rule.metaData));
        assert ([rule] + rest)[0] == rule && ([rule] + rest)[1..] == rest;
        MergeObjectsEmpty(rule.settings);
        assert map[] + rule.metaData == rule.metaData;
      } else {
        assert Applying(g, rules) == rest;
        GatherFromNothing(g, rules[1..]);
      }
    }
  }

  /**
   When some rule applies, the asset's settings become the in-order recursive
   merge of the applying rules' settings, whatever settings it had before.
   */
  lemma ApplyReplacesSettings(a: Asset, rules: seq<AssetSettings>, g: Glob)
    requires exists i :: 0 <= i < |rules| && Applies(g, rules[i])
    ensures Apply(a, rules, g).settings == Some(MergeSettings(map[], Applying(g, rules)))
  {
    GatherFromNothing(g, rules);
    var i :| 0 <= i < |rules| && Applies(g, rules[i]);
    assert rules[i] in Applying(g, rules);
  }

  /** Merging metadata keeps every base key unless a rule sets it; a rule key takes the value of the last rule setting it. */
  lemma {:induction false} MergeMetaKeys(base: Object, rules: seq<AssetSettings>, k: string)
    ensures k in MergeMeta(base, rules) <==> k in base || exists i :: 0 <= i < |rules| && k in rules[i].metaData
    ensures (forall i :: 0 <= i < |rules| ==> k !in rules[i].metaData) && k in base ==>
              MergeMeta(base, rules)[k] == base[k]
    decreases |rules|
  {
    if rules != [] {
      MergeMetaKeys(base + rules[0].metaData, rules[1..], k);
      if exists i :: 0 <= i < |rules| && k in rules[i].metaData {
        var i :| 0 <= i < |rules| && k in rules[i].metaData;
        if i > 0 {
          assert k in rules[1..][i - 1].metaData;
        }
      }
      if exists i :: 0 <= i < |rules[1..]| && k in rules[1..][i].metaData {
        var i :| 0 <= i < |rules[1..]| && k in rules[1..][i].metaData;
        assert k in rules[i + 1].metaData;
      }
      if forall i :: 0 <= i < |rules| ==> k !in rules[i].metaData {
        assert k !in rules[0].metaData;
        assert forall i :: 0 <= i < |rules[1..]| ==> k !in rules[1..][i].metaData by {
          forall i | 0 <= i < |rules[1..]| ensures k !in rules[1..][i].metaData {
            assert rules[1..][i] == rules[i + 1];
          }
        }
      }
    }
  }

  /** Later wins: the value of a key set by rule `j` and by no later rule is rule `j`'s. */
  lemma {:induction false} MergeMetaLastWins(base: Object, rules: seq<AssetSettings>, j: nat, k: string)
    requires j < |rules| && k in rules[j].metaData
    requires forall i :: j < i < |rules| ==> k !in rules[i].metaData
    ensures k in MergeMeta(base, rules) && MergeMeta(base, rules)[k] == rules[j].metaData[k]
    decreases |rules|
  {
    if j == 0 {
      var b := base + rules[0].metaData;
      assert forall i :: 0 <= i < |rules[1..]| ==> k !in rules[1..][i].metaData by {
        forall i | 0 <= i < |rules[1..]| ensures k !in rules[1..][i].metaData {
          assert rules[1..][i] == rules[i + 1];
        }
      }
      MergeMetaKeys(b, rules[1..], k);
    } else {
      assert forall i :: j - 1 < i < |rules[1..]| ==> k !in rules[1..][i].metaData by {
        forall i | j - 1 < i < |rules[1..]| ensures k !in rules[1..][i].metaData {
          assert rules[1..][i] == rules[i + 1];
        }
      }
      MergeMetaLastWins(base + rules[0].metaData, rules[1..], j - 1, k);
    }
  }

  /**
   The asset's own metadata wins: its keys keep their values, rule keys it
   lacks are added with the value of the last applying rule that sets them,
   and no other key appears.
   */
  lemma ApplyMetaData(a: Asset, rules: seq<AssetSettings>, g: Glob, k: string)
    requires exists i :: 0 <= i < |rules| && Applies(g, rules[i])
    ensures var m := Applying(g, rules);
            var md := Apply(a, rules, g).metaData;
            && (k in md <==> k in a.metaData || exists i :: 0 <= i < |m| && k in m[i].metaData)
            && (k in a.metaData ==> md[k] == a.metaData[k])
            && (forall j :: (0 <= j < |m| && k !in a.metaData && k in m[j].metaData
                  && (forall i :: j < i < |m| ==> k !in m[i].metaData)) ==> md[k] == m[j].metaData[k])
  {
    var m := Applying(g, rules);
    GatherFromNothing(g, rules);
    var i :| 0 <= i < |rules| && Applies(g, rules[i]);
    assert rules[i] in m;
    MergeMetaKeys(map[], m, k);
    forall j | 0 <= j < |m| && k !in a.metaData && k in m[j].metaData && (forall i :: j < i < |m| ==> k !in m[i].metaData)
      ensures Apply(a, rules, g).metaData[k] == m[j].metaData[k]
    {
      MergeMetaLastWins(map[], m, j, k);
    }
  }

  /** Gathering over a concatenation gathers over the first part, then continues over the second. */
  lemma {:induction false} GatherAppend(g: Glob, a: seq<AssetSettings>, b: seq<AssetSettings>, acc: Option<Gathered>)
    ensures Gather(g, a + b, acc) == Gather(g, b, Gather(g, a, acc))
    decreases |a|
  {
    if a == [] {
      assert a + b == b;
    } else {
      assert (a + b)[0] == a[0] && (a + b)[1..] == a[1..] + b;
      var rule := a[0];
      var next := if Applies(g, rule) then
                    var base := if acc.Some? then acc.value else Gathered(map[], map[]);
                    Some(Gathered(MergeObjects(base.options, rule.settings), base.metaData + rule.metaData))
                  else acc;
      GatherAppend(g, a[1..], b, next);
    }
  }

  /** Two rules do not interact: at most one of them applies, or they set disjoint keys. */
  predicate Independent(g: Glob, r1: AssetSettings, r2: AssetSettings)
  {
    !(Applies(g, r1) && Applies(g, r2))
    || (r1.settings.Keys !! r2.settings.Keys && r1.metaData.Keys !! r2.metaData.Keys)
  }

  /** Two independent rules gathered in either order give the same result. */
  lemma GatherSwap(g: Glob, r1: AssetSettings, r2: AssetSettings, acc: Option<Gathered>)
    requires Independent(g, r1, r2)
    ensures Gather(g, [r1, r2], acc) == Gather(g, [r2, r1], acc)
  {
    assert [r1, r2][1..] == [r2] && [r2, r1][1..] == [r1];
    assert [r2][1..] == [] && [r1][1..] == [];
    if Applies(g, r1) && Applies(g, r2) {
      GatherSwapBoth(g, r1, r2, acc);
    }
  }

  /** Both rules apply: their disjoint options and metadata merge in either order. */
  lemma GatherSwapBoth(g: Glob, r1: AssetSettings, r2: AssetSettings, acc: Option<Gathered>)
    requires Applies(g, r1) && Applies(g, r2)
    requires r1.settings.Keys !! r2.settings.Keys && r1.metaData.Keys !! r2.metaData.Keys
    ensures Gather(g, [r2], Gather(g, [r1], acc)) == Gather(g, [r1], Gather(g, [r2], acc))
  {
    var base := if acc.Some? then acc.value else Gathered(map[], map[]);
    var g1 := Gathered(MergeObjects(base.options, r1.settings), base.metaData + r1.metaData);
    var g2 := Gathered(MergeObjects(base.options, r2.settings), base.metaData + r2.metaData);
    GatherOne(g, r1, acc);
    GatherOne(g, r2, acc);
    GatherOne(g, r2, Some(g1));
    GatherOne(g, r1, Some(g2));
    MergeObjectsDisjointCommute(base.options, r1.settings, r2.settings);
    UpdateDisjointCommute(base.metaData, r1.metaData, r2.metaData);
  }

  /** Overriding with two maps of disjoint keys gives the same map in either order. */
  lemma UpdateDisjointCommute<K, V>(a: map<K, V>, b1: map<K, V>, b2: map<K, V>)
    requires b1.Keys !! b2.Keys
    ensures a + b1 + b2 == a + b2 + b1
  {
    forall k | k in a + b1 + b2
      ensures (a + b1 + b2)[k] == (a + b2 + b1)[k]
    {
      if k in b1 {
        assert k !in b2;
      }
    }
  }

  /** One applying rule merges its options and metadata onto what was gathered so far. */
  lemma GatherOne(g: Glob, r: AssetSettings, acc: Option<Gathered>)
    requires Applies(g, r)
    ensures var base := if acc.Some? then acc.value else Gathered(map[], map[]);
            Gather(g, [r], acc) == Some(Gathered(MergeObjects(base.options, r.settings), base.metaData + r.metaData))
  {
    assert [r][1..] == [];
  }

  /** Swapping two adjacent independent rules does not change the outcome. */
  lemma ApplySwapIndependent(a: Asset, pre: seq<AssetSettings>, r1: AssetSettings, r2: AssetSettings,
                             post: seq<AssetSettings>, g: Glob)
    requires Independent(g, r1, r2)
    ensures Apply(a, pre + [r1, r2] + post, g) == Apply(a, pre + [r2, r1] + post, g)
  {
    var acc := Gather(g, pre, None);
    GatherAppend(g, pre + [r1, r2], post, None);
    GatherAppend(g, pre, [r1, r2], None);
    GatherAppend(g, pre + [r2, r1], post, None);
    GatherAppend(g, pre, [r2, r1], None);
    GatherSwap(g, r1, r2, acc);
  }
}
