/**
 The processor's tree walks and the order of its phases in `run`.

 Each walk threads a `Ctx`: the per-path output hash, the log of effects
 issued so far, and the error thrown, if any. Once an error is thrown the
 rest of the walk does nothing, as the synchronous walk is abandoned.
 Plugin hooks are opaque: a hook call is one logged effect.
 */
module ProcessorWalks {
  import opened Wrappers
  import opened Json
  import opened Seqs
  import opened ProcessorModel

  datatype Hook = DeleteHook | TransformHook | PostHook

  predicate HasHook(q: Plugin, h: Hook)
  {
    match h
    case DeleteHook => q.hasDelete
    case TransformHook => q.hasTransform
    case PostHook => q.hasPost
  }

  /** The plugin is consulted for the node: it defines the hook and the node has no `ignore` path tag. */
  predicate Considered(env: Env, n: Node, h: Hook, q: Plugin)
  {
    HasHook(q, h) && !env.hasIgnoreTag(n)
  }

  /** Consulting the plugin throws, because its options cannot be looked up. */
  predicate Throws(p: Processor, env: Env, n: Node, h: Hook, q: Plugin)
  {
    Considered(env, n, h, q) && GetOptions(p, env, n.path, q).Err?
  }

  /** The plugin takes part: consulted, and its `test` passes with the node's options. */
  predicate Applicable(p: Processor, env: Env, n: Node, h: Hook, q: Plugin)
  {
    Considered(env, n, h, q)
    && var o := GetOptions(p, env, n.path, q);
    o.Ok? && env.test(q, n, o.value)
  }

  /** No plugin of the run list throws when consulted for the node. */
  predicate NoThrow(p: Processor, env: Env, n: Node, h: Hook)
  {
    forall q :: q in p.plugins ==> !Throws(p, env, n, h, q)
  }

  /** The plugins consulted before the first one that throws. */
  function UntilThrow(p: Processor, env: Env, n: Node, h: Hook, qs: seq<Plugin>): (r: seq<Plugin>)
    ensures r <= qs
    ensures forall q :: q in r ==> !Throws(p, env, n, h, q)
    ensures |r| < |qs| ==> Throws(p, env, n, h, qs[|r|])
    ensures (forall q :: q in qs ==> !Throws(p, env, n, h, q)) ==> r == qs
  {
    if qs == [] then []
    else if Throws(p, env, n, h, qs[0]) then []
    else [qs[0]] + UntilThrow(p, env, n, h, qs[1..])
  }

  /** The plugins a phase calls for one node, and the error that interrupted the choice. */
  datatype Selection = Selection(chosen: seq<Plugin>, err: Option<Error>)

  /** Go through the plugins in registration order and keep the applicable ones. */
  function Select(p: Processor, env: Env, n: Node, h: Hook, qs: seq<Plugin>): (s: Selection)
    ensures s.chosen == Filter(UntilThrow(p, env, n, h, qs), q => Applicable(p, env, n, h, q))
    ensures s.err.None? <==> forall q :: q in qs ==> !Throws(p, env, n, h, q)
    ensures s.err.Some? ==> s.err.value.PluginNotFound? && s.err.value.plugin in qs
    ensures s.err.Some? ==> Throws(p, env, n, h, s.err.value.plugin)
  {
    if qs == [] then Selection([], None)
    else
      var q := qs[0];
      if Considered(env, n, h, q) then
        match GetOptions(p, env, n.path, q)
        case Err(e) => Selection([], Some(e))
        case Ok(o) =>
          var rest := Select(p, env, n, h, qs[1..]);
          if env.test(q, n, o) then Selection([q] + rest.chosen, rest.err) else rest
      else Select(p, env, n, h, qs[1..])
  }

  /** The error of a selection names the first plugin whose options throw. */
  lemma {:induction false} SelectErrFirst(p: Processor, env: Env, n: Node, h: Hook, qs: seq<Plugin>)
    ensures var s := Select(p, env, n, h, qs);
            var consulted := UntilThrow(p, env, n, h, qs);
            s.err.Some? ==> |consulted| < |qs| && s.err.value == PluginNotFound(qs[|consulted|])
    decreases |qs|
  {
    if qs != [] {
      var q := qs[0];
      if Throws(p, env, n, h, q) {
        assert Select(p, env, n, h, qs).err == Some(PluginNotFound(q));
        assert UntilThrow(p, env, n, h, qs) == [];
      } else {
        SelectErrFirst(p, env, n, h, qs[1..]);
        assert Select(p, env, n, h, qs).err == Select(p, env, n, h, qs[1..]).err;
        assert UntilThrow(p, env, n, h, qs) == [q] + UntilThrow(p, env, n, h, qs[1..]);
      }
    }
  }

  /** Some chosen plugin is folder-scoped: it owns the subtree below the node. */
  predicate StopsDescent(chosen: seq<Plugin>)
  {
    exists i :: 0 <= i < |chosen| && chosen[i].folder
  }

  function DeleteCalls(qs: seq<Plugin>, path: Path): (r: seq<Effect>)
    ensures |r| == |qs| && forall i :: 0 <= i < |qs| ==> r[i] == DeleteCall(qs[i], path)
  {
    seq(|qs|, i requires 0 <= i < |qs| => DeleteCall(qs[i], path))
  }

  function TransformCalls(qs: seq<Plugin>, path: Path): (r: seq<Effect>)
    ensures |r| == |qs| && forall i :: 0 <= i < |qs| ==> r[i] == TransformCall(qs[i], path)
  {
    seq(|qs|, i requires 0 <= i < |qs| => TransformCall(qs[i], path))
  }

  function Removes(outs: seq<Record>): (r: seq<Effect>)
    ensures |r| == |outs| && forall i :: 0 <= i < |outs| ==> r[i] == Remove(outs[i].path)
  {
    seq(|outs|, i requires 0 <= i < |outs| => Remove(outs[i].path))
  }

  function PostUnits(outs: seq<Record>, qs: seq<Plugin>): (r: seq<Effect>)
    ensures |r| == |outs| && forall i :: 0 <= i < |outs| ==> r[i] == PostUnit(outs[i], qs)
  {
    seq(|outs|, i requires 0 <= i < |outs| => PostUnit(outs[i], qs))
  }

  /** The walk state: output hash, effect log, thrown error. */
  datatype Ctx = Ctx(hash: map<Path, Option<seq<Record>>>, log: seq<Effect>, err: Option<Error>)

  datatype Phase = CleanPhase | TransformPhase | PostPhase

  /** The effects each phase may issue. */
  predicate InPhase(e: Effect, ph: Phase)
  {
    match ph
    case CleanPhase => e.DeleteCall? || e.Remove?
    case TransformPhase => e.TransformCall? || e.Copy? || e.Write? || e.MissingAsset?
    case PostPhase => e.PostUnit?
  }

  /** `b` is `a` followed by effects of phase `ph` only. */
  predicate Extends(a: seq<Effect>, b: seq<Effect>, ph: Phase)
  {
    a <= b && forall i :: |a| <= i < |b| ==> InPhase(b[i], ph)
  }

  lemma ExtendsTrans(a: seq<Effect>, b: seq<Effect>, c: seq<Effect>, ph: Phase)
    requires Extends(a, b, ph) && Extends(b, c, ph)
    ensures Extends(a, c, ph)
  {
  }

  // ---------------------------------------------------------------- clean

  /**
   The clean step for one node: a deleted node gets one `delete` call per
   applicable plugin in registration order, then every recorded output path
   is removed and its hash entry set to null. Other nodes are untouched.
   */
  function CleanStep(p: Processor, env: Env, n: Node, ctx: Ctx): (c: Ctx)
    ensures ctx.err.Some? || n.state != Deleted ==> c == ctx
    ensures ctx.err.None? && n.state == Deleted ==>
              var calls := DeleteCalls(Filter(UntilThrow(p, env, n, DeleteHook, p.plugins),
                                              q => Applicable(p, env, n, DeleteHook, q)), n.path);
              && (c.err.None? <==> NoThrow(p, env, n, DeleteHook))
              && (!NoThrow(p, env, n, DeleteHook) ==> c.log == ctx.log + calls && c.hash == ctx.hash)
              && (NoThrow(p, env, n, DeleteHook) && n.transformed.None? ==> c.log == ctx.log + calls && c.hash == ctx.hash)
              && (NoThrow(p, env, n, DeleteHook) && n.transformed.Some? ==>
                    c.log == ctx.log + calls + Removes(n.transformed.value)
                    && c.hash == ctx.hash[n.path := None])
    ensures Extends(ctx.log, c.log, CleanPhase)
  {
    if ctx.err.Some? || n.state != Deleted then ctx
    else
      var sel := Select(p, env, n, DeleteHook, p.plugins);
      var log := ctx.log + DeleteCalls(sel.chosen, n.path);
      if sel.err.Some? then Ctx(ctx.hash, log, sel.err)
      else match n.transformed
        case None => Ctx(ctx.hash, log, None)
        case Some(outs) => Ctx(ctx.hash[n.path := None], log + Removes(outs), None)
  }

  /** `_cleanTree`: all children, in order, before the node itself. */
  function CleanTree(p: Processor, env: Env, t: Node, ctx: Ctx): (c: Ctx)
    ensures ctx.err.Some? ==> c == ctx
    ensures Extends(ctx.log, c.log, CleanPhase)
    decreases t
  {
    CleanStep(p, env, t, CleanFiles(p, env, t.files, ctx))
  }

  function CleanFiles(p: Processor, env: Env, fs: seq<Node>, ctx: Ctx): (c: Ctx)
    ensures ctx.err.Some? ==> c == ctx
    ensures Extends(ctx.log, c.log, CleanPhase)
    decreases fs
  {
    if fs == [] then ctx
    else
      var c1 := CleanTree(p, env, fs[0], ctx);
      var c2 := CleanFiles(p, env, fs[1..], c1);
      ExtendsTrans(ctx.log, c1.log, c2.log, CleanPhase);
      c2
  }

  /** All nodes of a tree, every node after its children (post-order). */
  function PostOrder(t: Node): seq<Node>
    decreases t
  {
    PostOrderAll(t.files) + [t]
  }

  function PostOrderAll(fs: seq<Node>): seq<Node>
    decreases fs
  {
    if fs == [] then [] else PostOrder(fs[0]) + PostOrderAll(fs[1..])
  }

  /** The clean step applied to each node of `ns` in turn. */
  function CleanSteps(p: Processor, env: Env, ns: seq<Node>, ctx: Ctx): Ctx
    decreases |ns|
  {
    if ns == [] then ctx else CleanSteps(p, env, ns[1..], CleanStep(p, env, ns[0], ctx))
  }

  lemma {:induction false} CleanStepsAppend(p: Processor, env: Env, a: seq<Node>, b: seq<Node>, ctx: Ctx)
    ensures CleanSteps(p, env, a + b, ctx) == CleanSteps(p, env, b, CleanSteps(p, env, a, ctx))
    decreases |a|
  {
    if a == [] {
      assert a + b == b;
    } else {
      assert (a + b)[0] == a[0] && (a + b)[1..] == a[1..] + b;
      CleanStepsAppend(p, env, a[1..], b, CleanStep(p, env, a[0], ctx));
    }
  }

  /** The clean walk is the clean step applied to every node in post-order: children before parents. */
  lemma {:induction false} CleanTreeIsPostOrder(p: Processor, env: Env, t: Node, ctx: Ctx)
    ensures CleanTree(p, env, t, ctx) == CleanSteps(p, env, PostOrder(t), ctx)
    decreases t
  {
    CleanFilesIsPostOrder(p, env, t.files, ctx);
    CleanStepsAppend(p, env, PostOrderAll(t.files), [t], ctx);
  }

  lemma {:induction false} CleanFilesIsPostOrder(p: Processor, env: Env, fs: seq<Node>, ctx: Ctx)
    ensures CleanFiles(p, env, fs, ctx) == CleanSteps(p, env, PostOrderAll(fs), ctx)
    decreases fs
  {
    if fs != [] {
      CleanTreeIsPostOrder(p, env, fs[0], ctx);
      CleanFilesIsPostOrder(p, env, fs[1..], CleanTree(p, env, fs[0], ctx));
      CleanStepsAppend(p, env, PostOrder(fs[0]), PostOrderAll(fs[1..]), ctx);
    }
  }

  /** A clean pass over nodes none of which is deleted changes nothing. */
  lemma {:induction false} CleanStepsNoDeleted(p: Processor, env: Env, ns: seq<Node>, ctx: Ctx)
    requires forall i :: 0 <= i < |ns| ==> ns[i].state != Deleted
    ensures CleanSteps(p, env, ns, ctx) == ctx
    decreases |ns|
  {
    if ns != [] {
      CleanStepsNoDeleted(p, env, ns[1..], ctx);
    }
  }

  /** A tree without deleted nodes is left exactly as it was by the clean walk: no calls, no removals. */
  lemma CleanTreeNoDeleted(p: Processor, env: Env, t: Node, ctx: Ctx)
    requires forall i :: 0 <= i < |PostOrder(t)| ==> PostOrder(t)[i].state != Deleted
    ensures CleanTree(p, env, t, ctx) == ctx
  {
    CleanTreeIsPostOrder(p, env, t, ctx);
    CleanStepsNoDeleted(p, env, PostOrder(t), ctx);
  }

  /** Once thrown, an error stops every later step. */
  lemma {:induction false} CleanStepsErr(p: Processor, env: Env, ns: seq<Node>, ctx: Ctx)
    requires ctx.err.Some?
    ensures CleanSteps(p, env, ns, ctx) == ctx
    decreases |ns|
  {
    if ns != [] {
      CleanStepsErr(p, env, ns[1..], ctx);
    }
  }

  /**
   No stale output survives the clean walk: for every deleted node with a
   recorded output list, every output path is removed and the node's hash
   entry ends up null, provided the walk did not throw.
   */
  lemma {:induction false} CleanStepsRemovesOutputs(p: Processor, env: Env, ns: seq<Node>, ctx: Ctx, i: nat)
    requires i < |ns| && ns[i].state == Deleted && ns[i].transformed.Some?
    requires CleanSteps(p, env, ns, ctx).err.None?
    ensures forall r :: r in ns[i].transformed.value ==> Remove(r.path) in CleanSteps(p, env, ns, ctx).log
    ensures ns[i].path in CleanSteps(p, env, ns, ctx).hash && CleanSteps(p, env, ns, ctx).hash[ns[i].path] == None
    decreases |ns|
  {
    var c1 := CleanStep(p, env, ns[0], ctx);
    if c1.err.Some? {
      CleanStepsErr(p, env, ns[1..], c1);
    }
    if i == 0 {
      assert ctx.err.None?;
      var outs := ns[0].transformed.value;
      assert c1.log == ctx.log + DeleteCalls(Select(p, env, ns[0], DeleteHook, p.plugins).chosen, ns[0].path) + Removes(outs);
      forall r | r in outs
        ensures Remove(r.path) in c1.log
      {
        var k :| 0 <= k < |outs| && outs[k] == r;
        assert Removes(outs)[k] == Remove(r.path);
      }
      CleanStepsKeeps(p, env, ns[1..], c1, ns[0].path);
    } else {
      CleanStepsRemovesOutputs(p, env, ns[1..], c1, i - 1);
    }
  }

  /** Later clean steps keep earlier effects and never revive a nulled hash entry. */
  lemma {:induction false} CleanStepsKeeps(p: Processor, env: Env, ns: seq<Node>, ctx: Ctx, path: Path)
    requires path in ctx.hash && ctx.hash[path] == None
    ensures ctx.log <= CleanSteps(p, env, ns, ctx).log
    ensures path in CleanSteps(p, env, ns, ctx).hash && CleanSteps(p, env, ns, ctx).hash[path] == None
    decreases |ns|
  {
    if ns != [] {
      CleanStepsKeeps(p, env, ns[1..], CleanStep(p, env, ns[0], ctx), path);
    }
  }

  /**
   The clean effect `e` stems from the deleted node `n`: a `delete` call for
   it by an applicable plugin, or the removal of one of its recorded outputs.
   */
  predicate FromDeletedNode(p: Processor, env: Env, n: Node, e: Effect)
  {
    n.state == Deleted
    && (e.DeleteCall? ==> e.path == n.path && Applicable(p, env, n, DeleteHook, e.plugin))
    && (e.Remove? ==> n.transformed.Some? && exists r :: r in n.transformed.value && r.path == e.path)
  }

  lemma CleanStepFromDeleted(p: Processor, env: Env, n: Node, ctx: Ctx, k: nat)
    requires |ctx.log| <= k < |CleanStep(p, env, n, ctx).log|
    ensures FromDeletedNode(p, env, n, CleanStep(p, env, n, ctx).log[k])
  {
    var c1 := CleanStep(p, env, n, ctx);
    var chosen := Filter(UntilThrow(p, env, n, DeleteHook, p.plugins), q => Applicable(p, env, n, DeleteHook, q));
    assert ctx.err.None? && n.state == Deleted;
    var calls := DeleteCalls(chosen, n.path);
    var tail := if NoThrow(p, env, n, DeleteHook) && n.transformed.Some? then Removes(n.transformed.value) else [];
    assert c1.log == ctx.log + calls + tail;
    if k < |ctx.log| + |calls| {
      DeleteCallsFromDeleted(p, env, n, chosen, ctx.log, tail, k);
    } else {
      RemovesFromDeleted(p, env, n, ctx.log + calls, tail, k);
    }
  }

  /** Past the earlier log, a clean step's `delete` calls name the deleted node and an applicable plugin. */
  lemma DeleteCallsFromDeleted(p: Processor, env: Env, n: Node, chosen: seq<Plugin>, pre: seq<Effect>, tail: seq<Effect>, k: nat)
    requires n.state == Deleted
    requires chosen == Filter(UntilThrow(p, env, n, DeleteHook, p.plugins), q => Applicable(p, env, n, DeleteHook, q))
    requires |pre| <= k < |pre| + |DeleteCalls(chosen, n.path)|
    ensures FromDeletedNode(p, env, n, (pre + DeleteCalls(chosen, n.path) + tail)[k])
  {
    var calls := DeleteCalls(chosen, n.path);
    var j := k - |pre|;
    assert (pre + calls + tail)[k] == calls[j];
    assert chosen[j] in chosen;
  }

  /** After the `delete` calls, a clean step issues only removals of the deleted node's recorded outputs. */
  lemma RemovesFromDeleted(p: Processor, env: Env, n: Node, pre: seq<Effect>, tail: seq<Effect>, k: nat)
    requires n.state == Deleted
    requires tail == [] || (n.transformed.Some? && tail == Removes(n.transformed.value))
    requires |pre| <= k < |pre + tail|
    ensures FromDeletedNode(p, env, n, (pre + tail)[k])
  {
    var j := k - |pre|;
    assert (pre + tail)[k] == tail[j];
    assert n.transformed.value[j] in n.transformed.value;
  }

  /**
   Everything the clean walk issues stems from a deleted node: a `delete`
   call names a deleted node and an applicable plugin, a removal names an
   output recorded on a deleted node.
   */
  lemma {:induction false} CleanStepsOnlyDeleted(p: Processor, env: Env, ns: seq<Node>, ctx: Ctx)
    ensures var c := CleanSteps(p, env, ns, ctx);
            forall k :: |ctx.log| <= k < |c.log| ==>
              exists i :: 0 <= i < |ns| && FromDeletedNode(p, env, ns[i], c.log[k])
    decreases |ns|
  {
    if ns != [] {
      var c1 := CleanStep(p, env, ns[0], ctx);
      var c := CleanSteps(p, env, ns[1..], c1);
      CleanStepsOnlyDeleted(p, env, ns[1..], c1);
      CleanStepsPrefix(p, env, ns[1..], c1);
      forall k | |ctx.log| <= k < |c.log|
        ensures exists i :: 0 <= i < |ns| && FromDeletedNode(p, env, ns[i], c.log[k])
      {
        if k < |c1.log| {
          CleanStepFromDeleted(p, env, ns[0], ctx, k);
          assert c.log[k] == c1.log[k];
          assert FromDeletedNode(p, env, ns[0], c.log[k]);
        } else {
          var i :| 0 <= i < |ns[1..]| && FromDeletedNode(p, env, ns[1..][i], c.log[k]);
          assert ns[i + 1] == ns[1..][i];
        }
      }
    }
  }

  lemma {:induction false} CleanStepsPrefix(p: Processor, env: Env, ns: seq<Node>, ctx: Ctx)
    ensures ctx.log <= CleanSteps(p, env, ns, ctx).log
    decreases |ns|
  {
    if ns != [] {
      CleanStepsPrefix(p, env, ns[1..], CleanStep(p, env, ns[0], ctx));
    }
  }

  // ------------------------------------------------------------ transform

  /** The node's source path is gone although the node is to be transformed. */
  predicate Missing(env: Env, n: Node)
  {
    n.Pending() && n.path != "" && n.path !in env.existing
  }

  /** `_transformHash[path] || []`: the hashed output list, or the empty list for undefined or null. */
  function HashLookup(h: map<Path, Option<seq<Record>>>, path: Path): seq<Record>
  {
    if path in h && h[path].Some? then h[path].value else []
  }

  /** One transform visit: the updated node, the context after it, and whether to visit its children. */
  datatype Visit = Visit(node: Node, ctx: Ctx, descend: bool)

  /** The fallback for a pending node no plugin took: a file is recorded and copied, a folder only recorded. */
  function Fallback(p: Processor, env: Env, n: Node): (r: (Node, seq<Effect>))
    ensures r.0 == n.(transformed := r.0.transformed)
    ensures r.1 == if n.isFolder then [] else [Copy(n.path, InputToOutput(p, env, n.path, None))]
  {
    if !n.isFolder then
      var s := AddToTreeAndSave(p, env, n, NoOutputOptions, NoTransformOptions);
      (s.0, [s.1])
    else (AddToTree(p, env, n, NoOutputOptions, NoTransformOptions), [])
  }

  /**
   What the plugins and the fallback make of a node, before the hash
   update: the effects issued, the node after them, the error thrown while
   choosing plugins, and whether a folder-scoped plugin took the node.
   */
  datatype Handled = Handled(issued: seq<Effect>, node: Node, err: Option<Error>, stops: bool)

  /**
   An added or modified node is handed to every applicable transform plugin
   in registration order; when none applies, the fallback runs. Any other
   node is left alone.
   */
  function Handle(p: Processor, env: Env, n: Node): (h: Handled)
    ensures h.node == n.(transformed := h.node.transformed)
    ensures forall i :: 0 <= i < |h.issued| ==> InPhase(h.issued[i], TransformPhase)
    ensures !n.Pending() ==> h == Handled([], n, None, false)
    ensures h.err.Some? ==> h.node == n && !h.stops
  {
    if !n.Pending() then Handled([], n, None, false)
    else Dispatch(p, env, n, Select(p, env, n, TransformHook, p.plugins))
  }

  /** The plugins of `sel` are called; when it chose none and nothing was thrown, the fallback runs. */
  function Dispatch(p: Processor, env: Env, n: Node, sel: Selection): (h: Handled)
    ensures h.node == n.(transformed := h.node.transformed)
    ensures forall i :: 0 <= i < |h.issued| ==> InPhase(h.issued[i], TransformPhase)
    ensures h.err == sel.err
    ensures h.err.Some? ==> h.node == n && !h.stops
  {
    var calls := TransformCalls(sel.chosen, n.path);
    if sel.err.Some? then Handled(calls, n, sel.err, false)
    else if sel.chosen != [] then Handled(calls, n, None, StopsDescent(sel.chosen))
    else
      var f := Fallback(p, env, n);
      Handled(f.1, f.0, None, false)
  }

  /** How a pending node is handled: by the selected plugins, or by the fallback when none was selected. */
  lemma HandleSelects(p: Processor, env: Env, n: Node)
    requires n.Pending()
    ensures var h := Handle(p, env, n);
            var sel := Select(p, env, n, TransformHook, p.plugins);
            && h.err == sel.err
            && (sel.err.Some? || sel.chosen != [] ==> h.node == n && h.issued == TransformCalls(sel.chosen, n.path))
            && (sel.err.None? && sel.chosen == [] ==> (h.node, h.issued) == Fallback(p, env, n))
            && h.stops == (sel.err.None? && StopsDescent(sel.chosen))
  {
  }

  /**
   The transform step for one node: a pending node whose source is gone is
   reported; otherwise the node is handled, and then a non-empty output list
   is stored in the hash and an empty one is replaced by the hashed list.
   */
  function TransformStep(p: Processor, env: Env, n: Node, ctx: Ctx): (v: Visit)
    ensures ctx.err.Some? ==> v == Visit(n, ctx, false)
    ensures ctx.err.None? && Missing(env, n) ==> v == Visit(n, ctx.(log := ctx.log + [MissingAsset(n.path)]), false)
    ensures ctx.err.None? && !n.Pending() ==> v.ctx.log == ctx.log
    ensures v.node == n.(transformed := v.node.transformed)
    ensures v.descend ==> v.ctx.err.None?
    ensures Extends(ctx.log, v.ctx.log, TransformPhase)
  {
    if ctx.err.Some? then Visit(n, ctx, false)
    else if Missing(env, n) then Visit(n, ctx.(log := ctx.log + [MissingAsset(n.path)]), false)
    else Place(n, ctx, Handle(p, env, n))
  }

  /**
   The rest of the step once the node is handled: the issued effects are
   logged, then a non-empty output list is stored in the hash and an empty
   one is replaced by the hashed list; an undefined list throws.
   */
  function Place(n: Node, ctx: Ctx, h: Handled): (v: Visit)
    requires h.node == n.(transformed := h.node.transformed)
    ensures v.ctx.log == ctx.log + h.issued
    ensures v.node == n.(transformed := v.node.transformed)
    ensures v.descend == (v.ctx.err.None? && !h.stops)
  {
    var log := ctx.log + h.issued;
    if h.err.Some? then Visit(n, Ctx(ctx.hash, log, h.err), false)
    else match h.node.transformed
      case None => Visit(h.node, Ctx(ctx.hash, log, Some(TransformedUndefined(n.path))), false)
      case Some(outs) =>
        if |outs| > 0 then Visit(h.node, Ctx(ctx.hash[n.path := Some(outs)], log, None), !h.stops)
        else Visit(h.node.(transformed := Some(HashLookup(ctx.hash, n.path))), Ctx(ctx.hash, log, None), !h.stops)
  }

  /** Placing a handled node reads nothing of the log: the effects are appended to whatever log is given. */
  lemma PlaceFrame(n: Node, ctx: Ctx, h: Handled, pre: seq<Effect>)
    requires h.node == n.(transformed := h.node.transformed)
    ensures var v := Place(n, ctx, h);
            Place(n, Behind(pre, ctx), h) == v.(ctx := Behind(pre, v.ctx))
  {
    assert (pre + ctx.log) + h.issued == pre + (ctx.log + h.issued);
  }

  /** `_transformTree`: the node first, then (unless stopped) its children in order. */
  function TransformTree(p: Processor, env: Env, t: Node, ctx: Ctx): (r: (Node, Ctx))
    ensures ctx.err.Some? ==> r == (t, ctx)
    ensures Extends(ctx.log, r.1.log, TransformPhase)
    decreases t
  {
    var v := TransformStep(p, env, t, ctx);
    if !v.descend then (v.node, v.ctx)
    else
      var fr := TransformFiles(p, env, t.files, v.ctx);
      ExtendsTrans(ctx.log, v.ctx.log, fr.1.log, TransformPhase);
      (v.node.(files := fr.0), fr.1)
  }

  function TransformFiles(p: Processor, env: Env, fs: seq<Node>, ctx: Ctx): (r: (seq<Node>, Ctx))
    ensures ctx.err.Some? ==> r == (fs, ctx)
    ensures |r.0| == |fs|
    ensures Extends(ctx.log, r.1.log, TransformPhase)
    decreases fs
  {
    if fs == [] then ([], ctx)
    else
      var h := TransformTree(p, env, fs[0], ctx);
      var rest := TransformFiles(p, env, fs[1..], h.1);
      ExtendsTrans(ctx.log, h.1.log, rest.1.log, TransformPhase);
      assert ctx.err.Some? ==> [fs[0]] + fs[1..] == fs;
      ([h.0] + rest.0, rest.1)
  }

  /** Whether the transform walk descends below the node (when nothing has been thrown). */
  predicate Descends(p: Processor, env: Env, n: Node)
  {
    !Missing(env, n)
    && !(n.Pending() && StopsDescent(Select(p, env, n, TransformHook, p.plugins).chosen))
  }

  /** The nodes the transform walk visits: pre-order, cut below missing nodes and folder-owned nodes. */
  function TransformVisits(p: Processor, env: Env, t: Node): seq<Node>
    decreases t
  {
    [t] + (if Descends(p, env, t) then TransformVisitsAll(p, env, t.files) else [])
  }

  function TransformVisitsAll(p: Processor, env: Env, fs: seq<Node>): seq<Node>
    decreases fs
  {
    if fs == [] then [] else TransformVisits(p, env, fs[0]) + TransformVisitsAll(p, env, fs[1..])
  }

  function TransformSteps(p: Processor, env: Env, ns: seq<Node>, ctx: Ctx): Ctx
    decreases |ns|
  {
    if ns == [] then ctx else TransformSteps(p, env, ns[1..], TransformStep(p, env, ns[0], ctx).ctx)
  }

  lemma {:induction false} TransformStepsAppend(p: Processor, env: Env, a: seq<Node>, b: seq<Node>, ctx: Ctx)
    ensures TransformSteps(p, env, a + b, ctx) == TransformSteps(p, env, b, TransformSteps(p, env, a, ctx))
    decreases |a|
  {
    if a == [] {
      assert a + b == b;
    } else {
      assert (a + b)[0] == a[0] && (a + b)[1..] == a[1..] + b;
      TransformStepsAppend(p, env, a[1..], b, TransformStep(p, env, a[0], ctx).ctx);
    }
  }

  lemma {:induction false} TransformStepsErr(p: Processor, env: Env, ns: seq<Node>, ctx: Ctx)
    requires ctx.err.Some?
    ensures TransformSteps(p, env, ns, ctx) == ctx
    decreases |ns|
  {
    if ns != [] {
      TransformStepsErr(p, env, ns[1..], ctx);
    }
  }

  /** A step that lets the walk descend only does so where `Descends` holds. */
  lemma TransformStepDescends(p: Processor, env: Env, n: Node, ctx: Ctx)
    requires ctx.err.None?
    ensures TransformStep(p, env, n, ctx).descend ==> Descends(p, env, n)
    ensures Descends(p, env, n) && TransformStep(p, env, n, ctx).ctx.err.None? ==> TransformStep(p, env, n, ctx).descend
  {
    if !Missing(env, n) {
      assert TransformStep(p, env, n, ctx) == Place(n, ctx, Handle(p, env, n));
      if n.Pending() {
        HandleSelects(p, env, n);
      }
    }
  }

  /**
   The transform walk is the transform step applied to the nodes of
   `TransformVisits` in order: every node before its children, nothing below
   a missing node or a node owned by a folder-scoped plugin.
   */
  lemma {:induction false} TransformTreeIsPreOrder(p: Processor, env: Env, t: Node, ctx: Ctx)
    ensures TransformTree(p, env, t, ctx).1 == TransformSteps(p, env, TransformVisits(p, env, t), ctx)
    decreases t
  {
    var v := TransformStep(p, env, t, ctx);
    var below := if Descends(p, env, t) then TransformVisitsAll(p, env, t.files) else [];
    TransformStepsAppend(p, env, [t], below, ctx);
    assert TransformSteps(p, env, [t], ctx) == v.ctx;
    if ctx.err.Some? {
      TransformStepsErr(p, env, below, v.ctx);
    } else if v.descend {
      TransformStepDescends(p, env, t, ctx);
      TransformFilesIsPreOrder(p, env, t.files, v.ctx);
    } else if v.ctx.err.Some? {
      TransformStepsErr(p, env, below, v.ctx);
    } else {
      TransformStepDescends(p, env, t, ctx);
    }
  }

  lemma {:induction false} TransformFilesIsPreOrder(p: Processor, env: Env, fs: seq<Node>, ctx: Ctx)
    ensures TransformFiles(p, env, fs, ctx).1 == TransformSteps(p, env, TransformVisitsAll(p, env, fs), ctx)
    decreases fs
  {
    if fs != [] {
      TransformTreeIsPreOrder(p, env, fs[0], ctx);
      TransformFilesIsPreOrder(p, env, fs[1..], TransformTree(p, env, fs[0], ctx).1);
      TransformStepsAppend(p, env, TransformVisits(p, env, fs[0]), TransformVisitsAll(p, env, fs[1..]), ctx);
    }
  }

  /** A node whose source is gone: one error report, no plugin call, node and children untouched. */
  lemma TransformMissing(p: Processor, env: Env, t: Node, ctx: Ctx)
    requires ctx.err.None? && Missing(env, t)
    ensures TransformTree(p, env, t, ctx) == (t, ctx.(log := ctx.log + [MissingAsset(t.path)]))
  {
  }

  /** A node that is neither added nor modified gets no transform call, copy or write of its own. */
  lemma TransformNotPending(p: Processor, env: Env, n: Node, ctx: Ctx)
    requires !n.Pending()
    ensures TransformStep(p, env, n, ctx).ctx.log == ctx.log
  {
  }

  /**
   A pending node no transform plugin applies to: a file gets one new
   record at its mirrored path and one copy there; a folder gets one new
   record and no copy. The list is then stored in the hash.
   */
  lemma TransformUnmatched(p: Processor, env: Env, n: Node, ctx: Ctx)
    requires ctx.err.None? && n.Pending() && !Missing(env, n)
    requires NoThrow(p, env, n, TransformHook)
    requires forall q :: q in p.plugins ==> !Applicable(p, env, n, TransformHook, q)
    ensures var v := TransformStep(p, env, n, ctx);
            var before := n.transformed.GetOr([]);
            var out := InputToOutput(p, env, n.path, None);
            && v.node.transformed.Some?
            && |v.node.transformed.value| == |before| + 1
            && v.node.transformed.value[..|before|] == before
            && v.node.transformed.value[|before|].path == out
            && v.node.transformed.value[|before|].transformId == None
            && v.node.transformed.value[|before|].creator == n.path
            && v.ctx.hash == ctx.hash[n.path := v.node.transformed]
            && (!n.isFolder ==> v.ctx.log == ctx.log + [Copy(n.path, out)])
            && (n.isFolder ==> v.ctx.log == ctx.log)
            && v.descend
  {
    var sel := Select(p, env, n, TransformHook, p.plugins);
    FilterNone(UntilThrow(p, env, n, TransformHook, p.plugins), p, env, n, TransformHook);
    assert sel.chosen == [];
  }

  lemma {:induction false} FilterNone(qs: seq<Plugin>, p: Processor, env: Env, n: Node, h: Hook)
    requires forall q :: q in qs ==> !Applicable(p, env, n, h, q)
    ensures Filter(qs, q => Applicable(p, env, n, h, q)) == []
    decreases |qs|
  {
    if qs != [] {
      FilterNone(qs[1..], p, env, n, h);
    }
  }

  /** A throw while choosing a pending node's plugins ends its step with the first thrower's error. */
  lemma TransformThrownStep(p: Processor, env: Env, n: Node, ctx: Ctx)
    requires ctx.err.None? && n.Pending() && !Missing(env, n) && !NoThrow(p, env, n, TransformHook)
    ensures var consulted := UntilThrow(p, env, n, TransformHook, p.plugins);
            var chosen := Filter(consulted, q => Applicable(p, env, n, TransformHook, q));
            && |consulted| < |p.plugins|
            && TransformStep(p, env, n, ctx)
               == Visit(n, Ctx(ctx.hash, ctx.log + TransformCalls(chosen, n.path), Some(PluginNotFound(p.plugins[|consulted|]))), false)
  {
    SelectErrFirst(p, env, n, TransformHook, p.plugins);
  }

  /** A pending node some plugin took: its transform calls and nothing else. */
  lemma TransformHandledStep(p: Processor, env: Env, n: Node, ctx: Ctx)
    requires ctx.err.None? && n.Pending() && !Missing(env, n) && NoThrow(p, env, n, TransformHook)
    requires Filter(UntilThrow(p, env, n, TransformHook, p.plugins), q => Applicable(p, env, n, TransformHook, q)) != []
    ensures var chosen := Filter(UntilThrow(p, env, n, TransformHook, p.plugins), q => Applicable(p, env, n, TransformHook, q));
            var v := TransformStep(p, env, n, ctx);
            && v.ctx.log == ctx.log + TransformCalls(chosen, n.path)
            && (v.ctx.err.None? <==> n.transformed.Some?)
            && (v.descend <==> n.transformed.Some? && !StopsDescent(chosen))
  {
  }

  /** A pending node no plugin took: the copy of a file, nothing for a folder. */
  lemma TransformFallbackStep(p: Processor, env: Env, n: Node, ctx: Ctx)
    requires ctx.err.None? && n.Pending() && !Missing(env, n) && NoThrow(p, env, n, TransformHook)
    requires Filter(UntilThrow(p, env, n, TransformHook, p.plugins), q => Applicable(p, env, n, TransformHook, q)) == []
    ensures var v := TransformStep(p, env, n, ctx);
            && v.ctx.err.None? && v.descend
            && v.ctx.log == ctx.log + (if n.isFolder then [] else [Copy(n.path, InputToOutput(p, env, n.path, None))])
  {
    var out := InputToOutput(p, env, n.path, None);
    assert n.isFolder || Fallback(p, env, n).1 == [Copy(n.path, out)];
    assert n.isFolder ==> Fallback(p, env, n).1 == [];
  }

  /**
   A pending node whose source exists is handed, in registration order, to
   every applicable transform plugin up to the first one whose options
   throw; that throw ends the step with the plugin's error. Without a throw
   the copy-or-record fallback runs only when no plugin applied, and the walk
   descends unless a folder-scoped plugin was chosen.
   */
  lemma TransformDispatch(p: Processor, env: Env, n: Node, ctx: Ctx)
    requires ctx.err.None? && n.Pending() && !Missing(env, n)
    ensures var v := TransformStep(p, env, n, ctx);
            var consulted := UntilThrow(p, env, n, TransformHook, p.plugins);
            var chosen := Filter(consulted, q => Applicable(p, env, n, TransformHook, q));
            var calls := ctx.log + TransformCalls(chosen, n.path);
            && (!NoThrow(p, env, n, TransformHook) ==>
                  |consulted| < |p.plugins|
                  && v == Visit(n, Ctx(ctx.hash, calls, Some(PluginNotFound(p.plugins[|consulted|]))), false))
            && (NoThrow(p, env, n, TransformHook) && chosen != [] ==>
                  && v.ctx.log == calls
                  && (v.ctx.err.None? <==> n.transformed.Some?)
                  && (v.descend <==> n.transformed.Some? && !StopsDescent(chosen)))
            && (NoThrow(p, env, n, TransformHook) && chosen == [] ==>
                  && v.ctx.err.None? && v.descend
                  && v.ctx.log == ctx.log + (if n.isFolder then [] else [Copy(n.path, InputToOutput(p, env, n.path, None))]))
  {
    var chosen := Filter(UntilThrow(p, env, n, TransformHook, p.plugins), q => Applicable(p, env, n, TransformHook, q));
    if !NoThrow(p, env, n, TransformHook) {
      TransformThrownStep(p, env, n, ctx);
    } else if chosen != [] {
      TransformHandledStep(p, env, n, ctx);
    } else {
      TransformFallbackStep(p, env, n, ctx);
    }
  }

  /**
   The hash update after a node's plugins have run, or for a node that is
   not re-transformed: a non-empty output list is stored in the hash, an
   empty one is replaced by the hashed list (or `[]`).
   */
  lemma TransformRestoresOutputs(p: Processor, env: Env, n: Node, ctx: Ctx, outs: seq<Record>)
    requires ctx.err.None? && !Missing(env, n) && n.transformed == Some(outs)
    requires n.Pending() ==> NoThrow(p, env, n, TransformHook)
                             && Filter(p.plugins, q => Applicable(p, env, n, TransformHook, q)) != []
    ensures var v := TransformStep(p, env, n, ctx);
            && v.ctx.err.None?
            && (!n.Pending() ==> v.descend)
            && (|outs| > 0 ==> v.node == n && v.ctx.hash == ctx.hash[n.path := Some(outs)])
            && (|outs| == 0 ==> v.node == n.(transformed := Some(HashLookup(ctx.hash, n.path))) && v.ctx.hash == ctx.hash)
  {
  }

  /** `tree.transformed.length` on an undefined list throws for a node that is not re-transformed. */
  lemma TransformUndefinedThrows(p: Processor, env: Env, n: Node, ctx: Ctx)
    requires ctx.err.None? && !n.Pending() && n.transformed.None?
    ensures TransformStep(p, env, n, ctx).ctx.err == Some(TransformedUndefined(n.path))
  {
  }

  /**
   A pending node matched by a folder-scoped transform plugin owns its
   subtree: the walk does not descend, so the children are returned as they
   were and get no effects.
   */
  lemma TransformFolderStops(p: Processor, env: Env, t: Node, ctx: Ctx)
    requires ctx.err.None? && t.Pending() && !Missing(env, t)
    requires StopsDescent(Select(p, env, t, TransformHook, p.plugins).chosen)
    ensures TransformTree(p, env, t, ctx).0.files == t.files
    ensures TransformTree(p, env, t, ctx).1 == TransformStep(p, env, t, ctx).ctx
  {
    TransformStepDescends(p, env, t, ctx);
    var v := TransformStep(p, env, t, ctx);
    assert !v.descend;
    assert TransformTree(p, env, t, ctx) == (v.node, v.ctx);
  }

  /** The tree with every output list erased: what the transform walk must not change. */
  function Shape(t: Node): Node
    decreases t
  {
    t.(transformed := None, files := ShapeAll(t.files))
  }

  function ShapeAll(fs: seq<Node>): (r: seq<Node>)
    ensures |r| == |fs|
    decreases fs
  {
    if fs == [] then [] else [Shape(fs[0])] + ShapeAll(fs[1..])
  }

  /** The transform walk changes output lists only: paths, states, flags, tags and children stay. */
  lemma {:induction false} TransformKeepsShape(p: Processor, env: Env, t: Node, ctx: Ctx)
    ensures Shape(TransformTree(p, env, t, ctx).0) == Shape(t)
    decreases t
  {
    var v := TransformStep(p, env, t, ctx);
    if v.descend {
      TransformFilesKeepShape(p, env, t.files, v.ctx);
    }
  }

  lemma {:induction false} TransformFilesKeepShape(p: Processor, env: Env, fs: seq<Node>, ctx: Ctx)
    ensures ShapeAll(TransformFiles(p, env, fs, ctx).0) == ShapeAll(fs)
    decreases fs
  {
    if fs != [] {
      var h := TransformTree(p, env, fs[0], ctx);
      TransformKeepsShape(p, env, fs[0], ctx);
      TransformFilesKeepShape(p, env, fs[1..], h.1);
      var r := TransformFiles(p, env, fs, ctx).0;
      assert r[0] == h.0 && r[1..] == TransformFiles(p, env, fs[1..], h.1).0;
    }
  }

  /** The output lists of `r`, read at the nodes the transform walk over `t` visits, in visiting order. */
  function ListsAlong(p: Processor, env: Env, t: Node, r: Node): seq<Option<seq<Record>>>
    decreases t
  {
    [r.transformed] + (if Descends(p, env, t) then ListsAlongAll(p, env, t.files, r.files) else [])
  }

  function ListsAlongAll(p: Processor, env: Env, fs: seq<Node>, rs: seq<Node>): seq<Option<seq<Record>>>
    decreases fs
  {
    if fs == [] || rs == [] then [] else ListsAlong(p, env, fs[0], rs[0]) + ListsAlongAll(p, env, fs[1..], rs[1..])
  }

  /** The output lists of the nodes, as they are. */
  function OwnLists(ns: seq<Node>): (r: seq<Option<seq<Record>>>)
    ensures |r| == |ns| && forall i :: 0 <= i < |ns| ==> r[i] == ns[i].transformed
  {
    seq(|ns|, i requires 0 <= i < |ns| => ns[i].transformed)
  }

  /** The output list each transform step leaves on its node, one step after the other. */
  function StepLists(p: Processor, env: Env, ns: seq<Node>, ctx: Ctx): seq<Option<seq<Record>>>
    decreases |ns|
  {
    if ns == [] then []
    else
      var v := TransformStep(p, env, ns[0], ctx);
      [v.node.transformed] + StepLists(p, env, ns[1..], v.ctx)
  }

  /** Below every node the walk over `t` does not enter, `r` holds the subtree of `t` unchanged. */
  predicate CutKept(p: Processor, env: Env, t: Node, r: Node)
    decreases t
  {
    if Descends(p, env, t) then
      |r.files| == |t.files| && forall i :: 0 <= i < |t.files| ==> CutKept(p, env, t.files[i], r.files[i])
    else r.files == t.files
  }

  lemma {:induction false} StepListsAppend(p: Processor, env: Env, a: seq<Node>, b: seq<Node>, ctx: Ctx)
    ensures StepLists(p, env, a + b, ctx) == StepLists(p, env, a, ctx) + StepLists(p, env, b, TransformSteps(p, env, a, ctx))
    decreases |a|
  {
    if a == [] {
      assert a + b == b;
    } else {
      assert (a + b)[0] == a[0] && (a + b)[1..] == a[1..] + b;
      StepListsAppend(p, env, a[1..], b, TransformStep(p, env, a[0], ctx).ctx);
    }
  }

  /** After a throw every step leaves its node's list as it was. */
  lemma {:induction false} StepListsErr(p: Processor, env: Env, ns: seq<Node>, ctx: Ctx)
    requires ctx.err.Some?
    ensures StepLists(p, env, ns, ctx) == OwnLists(ns)
    decreases |ns|
  {
    if ns != [] {
      StepListsErr(p, env, ns[1..], ctx);
      assert OwnLists(ns) == [ns[0].transformed] + OwnLists(ns[1..]);
    }
  }

  /** Read along its own walk, an untouched tree gives its own lists, and it keeps every cut subtree. */
  lemma {:induction false} ListsAlongSelf(p: Processor, env: Env, t: Node)
    ensures ListsAlong(p, env, t, t) == OwnLists(TransformVisits(p, env, t))
    ensures CutKept(p, env, t, t)
    decreases t
  {
    var below := if Descends(p, env, t) then TransformVisitsAll(p, env, t.files) else [];
    assert OwnLists([t] + below) == [t.transformed] + OwnLists(below);
    if Descends(p, env, t) {
      ListsAlongAllSelf(p, env, t.files);
    }
  }

  lemma {:induction false} ListsAlongAllSelf(p: Processor, env: Env, fs: seq<Node>)
    ensures ListsAlongAll(p, env, fs, fs) == OwnLists(TransformVisitsAll(p, env, fs))
    ensures forall i :: 0 <= i < |fs| ==> CutKept(p, env, fs[i], fs[i])
    decreases fs
  {
    if fs != [] {
      ListsAlongSelf(p, env, fs[0]);
      ListsAlongAllSelf(p, env, fs[1..]);
      var a := TransformVisits(p, env, fs[0]);
      var b := TransformVisitsAll(p, env, fs[1..]);
      assert OwnLists(a + b) == OwnLists(a) + OwnLists(b);
      forall i | 0 <= i < |fs|
        ensures CutKept(p, env, fs[i], fs[i])
      {
        if i > 0 {
          assert fs[i] == fs[1..][i - 1];
        }
      }
    }
  }

  /**
   The tree the transform walk returns: read along the walk, every visited
   node carries the output list its transform step produced, and below every
   node the walk does not enter the subtree is returned as it was.
   */
  lemma {:induction false} TransformTreeLists(p: Processor, env: Env, t: Node, ctx: Ctx)
    ensures ListsAlong(p, env, t, TransformTree(p, env, t, ctx).0) == StepLists(p, env, TransformVisits(p, env, t), ctx)
    ensures CutKept(p, env, t, TransformTree(p, env, t, ctx).0)
    decreases t
  {
    var v := TransformStep(p, env, t, ctx);
    StepListsVisits(p, env, t, ctx);
    if ctx.err.Some? {
      TransformTreeListsErr(p, env, t, ctx);
    } else if v.descend {
      TransformStepDescends(p, env, t, ctx);
      TransformFilesLists(p, env, t.files, v.ctx);
    } else {
      TransformTreeListsStop(p, env, t, ctx);
    }
  }

  /** The steps over the visits of `t`: the step at `t`, then the steps over the visits below it. */
  lemma StepListsVisits(p: Processor, env: Env, t: Node, ctx: Ctx)
    ensures var v := TransformStep(p, env, t, ctx);
            var below := if Descends(p, env, t) then TransformVisitsAll(p, env, t.files) else [];
            StepLists(p, env, TransformVisits(p, env, t), ctx) == [v.node.transformed] + StepLists(p, env, below, v.ctx)
  {
    var v := TransformStep(p, env, t, ctx);
    var below := if Descends(p, env, t) then TransformVisitsAll(p, env, t.files) else [];
    assert TransformVisits(p, env, t) == [t] + below;
    StepListsAppend(p, env, [t], below, ctx);
    assert StepLists(p, env, [t], ctx) == [v.node.transformed];
    assert TransformSteps(p, env, [t], ctx) == v.ctx;
  }

  lemma TransformTreeListsErr(p: Processor, env: Env, t: Node, ctx: Ctx)
    requires ctx.err.Some?
    ensures var below := if Descends(p, env, t) then TransformVisitsAll(p, env, t.files) else [];
            && ListsAlong(p, env, t, t) == [t.transformed] + StepLists(p, env, below, ctx)
            && CutKept(p, env, t, t)
  {
    var below := if Descends(p, env, t) then TransformVisitsAll(p, env, t.files) else [];
    assert TransformVisits(p, env, t) == [t] + below;
    StepListsErr(p, env, below, ctx);
    ListsAlongSelf(p, env, t);
    OwnListsCons(t, below);
  }

  lemma OwnListsCons(n: Node, ns: seq<Node>)
    ensures OwnLists([n] + ns) == [n.transformed] + OwnLists(ns)
  {
    assert OwnLists([n] + ns) == [n.transformed] + OwnLists(ns);
  }

  lemma TransformTreeListsStop(p: Processor, env: Env, t: Node, ctx: Ctx)
    requires ctx.err.None? && !TransformStep(p, env, t, ctx).descend
    ensures var v := TransformStep(p, env, t, ctx);
            var below := if Descends(p, env, t) then TransformVisitsAll(p, env, t.files) else [];
            && TransformTree(p, env, t, ctx).0 == v.node
            && ListsAlong(p, env, t, v.node) == [v.node.transformed] + StepLists(p, env, below, v.ctx)
            && CutKept(p, env, t, v.node)
  {
    var v := TransformStep(p, env, t, ctx);
    TransformStepDescends(p, env, t, ctx);
    assert v.node.files == t.files;
    if Descends(p, env, t) {
      StepListsErr(p, env, TransformVisitsAll(p, env, t.files), v.ctx);
      ListsAlongAllSelf(p, env, t.files);
    }
  }

  lemma {:induction false} TransformFilesLists(p: Processor, env: Env, fs: seq<Node>, ctx: Ctx)
    ensures ListsAlongAll(p, env, fs, TransformFiles(p, env, fs, ctx).0) == StepLists(p, env, TransformVisitsAll(p, env, fs), ctx)
    ensures forall i :: 0 <= i < |fs| ==> CutKept(p, env, fs[i], TransformFiles(p, env, fs, ctx).0[i])
    decreases fs
  {
    if fs != [] {
      var h := TransformTree(p, env, fs[0], ctx);
      var rest := TransformFiles(p, env, fs[1..], h.1);
      var r := TransformFiles(p, env, fs, ctx).0;
      assert r == [h.0] + rest.0;
      assert r[0] == h.0 && r[1..] == rest.0;
      TransformTreeLists(p, env, fs[0], ctx);
      TransformFilesLists(p, env, fs[1..], h.1);
      TransformTreeIsPreOrder(p, env, fs[0], ctx);
      StepListsAppend(p, env, TransformVisits(p, env, fs[0]), TransformVisitsAll(p, env, fs[1..]), ctx);
      forall i | 0 <= i < |fs|
        ensures CutKept(p, env, fs[i], r[i])
      {
        if i > 0 {
          assert fs[i] == fs[1..][i - 1] && r[i] == rest.0[i - 1];
        }
      }
    }
  }

  // ----------------------------------------------------------------- post

  /**
   The post step for one node: an added or modified node with outputs gets,
   for each output record, one unit running the applicable post plugins in
   registration order.
   */
  function PostStep(p: Processor, env: Env, n: Node, ctx: Ctx): (r: (Ctx, bool))
    ensures ctx.err.Some? ==> r == (ctx, false)
    ensures ctx.err.None? && !(n.Pending() && n.transformed.Some? && |n.transformed.value| > 0) ==> r == (ctx, true)
    ensures ctx.err.None? && n.Pending() && n.transformed.Some? && |n.transformed.value| > 0
            && NoThrow(p, env, n, PostHook) ==>
              var chosen := Filter(p.plugins, q => Applicable(p, env, n, PostHook, q));
              r.0 == ctx.(log := ctx.log + PostUnits(n.transformed.value, chosen))
              && r.1 == !StopsDescent(chosen)
    ensures ctx.err.None? && n.Pending() && n.transformed.Some? && |n.transformed.value| > 0
            && !NoThrow(p, env, n, PostHook) ==>
              r.0.err.Some? && r.0.log == ctx.log && !r.1
    ensures r.1 ==> r.0.err.None?
    ensures Extends(ctx.log, r.0.log, PostPhase)
  {
    if ctx.err.Some? then (ctx, false)
    else if n.Pending() && n.transformed.Some? && |n.transformed.value| > 0 then
      PostPlace(n.transformed.value, ctx, Select(p, env, n, PostHook, p.plugins))
    else (ctx, true)
  }

  /** The rest of a post step once the plugins are chosen: one unit per record, or the thrown error. */
  function PostPlace(outs: seq<Record>, ctx: Ctx, sel: Selection): (r: (Ctx, bool))
    ensures sel.err.Some? ==> r == (ctx.(err := sel.err), false)
    ensures sel.err.None? ==> r == (ctx.(log := ctx.log + PostUnits(outs, sel.chosen)), !StopsDescent(sel.chosen))
  {
    if sel.err.Some? then (ctx.(err := sel.err), false)
    else (ctx.(log := ctx.log + PostUnits(outs, sel.chosen)), !StopsDescent(sel.chosen))
  }

  /** `_postTree`: the node first, then (unless stopped) its children in order. */
  function PostTree(p: Processor, env: Env, t: Node, ctx: Ctx): (c: Ctx)
    ensures ctx.err.Some? ==> c == ctx
    ensures Extends(ctx.log, c.log, PostPhase)
    decreases t
  {
    var s := PostStep(p, env, t, ctx);
    if !s.1 then s.0
    else
      var c := PostFiles(p, env, t.files, s.0);
      ExtendsTrans(ctx.log, s.0.log, c.log, PostPhase);
      c
  }

  function PostFiles(p: Processor, env: Env, fs: seq<Node>, ctx: Ctx): (c: Ctx)
    ensures ctx.err.Some? ==> c == ctx
    ensures Extends(ctx.log, c.log, PostPhase)
    decreases fs
  {
    if fs == [] then ctx
    else
      var c1 := PostTree(p, env, fs[0], ctx);
      var c2 := PostFiles(p, env, fs[1..], c1);
      ExtendsTrans(ctx.log, c1.log, c2.log, PostPhase);
      c2
  }

  /**
   Whether the post walk descends below the node. A folder-scoped post plugin
   stops descent only where the node has at least one output record, since
   plugins are consulted once per record.
   */
  predicate PostDescends(p: Processor, env: Env, n: Node)
  {
    !(n.Pending() && n.transformed.Some? && |n.transformed.value| > 0
      && StopsDescent(Select(p, env, n, PostHook, p.plugins).chosen))
  }

  function PostVisits(p: Processor, env: Env, t: Node): seq<Node>
    decreases t
  {
    [t] + (if PostDescends(p, env, t) then PostVisitsAll(p, env, t.files) else [])
  }

  function PostVisitsAll(p: Processor, env: Env, fs: seq<Node>): seq<Node>
    decreases fs
  {
    if fs == [] then [] else PostVisits(p, env, fs[0]) + PostVisitsAll(p, env, fs[1..])
  }

  function PostSteps(p: Processor, env: Env, ns: seq<Node>, ctx: Ctx): Ctx
    decreases |ns|
  {
    if ns == [] then ctx else PostSteps(p, env, ns[1..], PostStep(p, env, ns[0], ctx).0)
  }

  lemma {:induction false} PostStepsAppend(p: Processor, env: Env, a: seq<Node>, b: seq<Node>, ctx: Ctx)
    ensures PostSteps(p, env, a + b, ctx) == PostSteps(p, env, b, PostSteps(p, env, a, ctx))
    decreases |a|
  {
    if a == [] {
      assert a + b == b;
    } else {
      assert (a + b)[0] == a[0] && (a + b)[1..] == a[1..] + b;
      PostStepsAppend(p, env, a[1..], b, PostStep(p, env, a[0], ctx).0);
    }
  }

  lemma {:induction false} PostStepsErr(p: Processor, env: Env, ns: seq<Node>, ctx: Ctx)
    requires ctx.err.Some?
    ensures PostSteps(p, env, ns, ctx) == ctx
    decreases |ns|
  {
    if ns != [] {
      PostStepsErr(p, env, ns[1..], ctx);
    }
  }

  /** The post walk is the post step applied to the nodes of `PostVisits`, parents before children. */
  lemma {:induction false} PostTreeIsPreOrder(p: Processor, env: Env, t: Node, ctx: Ctx)
    ensures PostTree(p, env, t, ctx) == PostSteps(p, env, PostVisits(p, env, t), ctx)
    decreases t
  {
    var s := PostStep(p, env, t, ctx);
    var below := if PostDescends(p, env, t) then PostVisitsAll(p, env, t.files) else [];
    PostStepsAppend(p, env, [t], below, ctx);
    assert PostSteps(p, env, [t], ctx) == s.0;
    if s.0.err.Some? {
      PostStepsErr(p, env, below, s.0);
    } else if s.1 {
      assert PostDescends(p, env, t);
      PostFilesIsPreOrder(p, env, t.files, s.0);
    } else {
      assert !PostDescends(p, env, t);
    }
  }

  lemma {:induction false} PostFilesIsPreOrder(p: Processor, env: Env, fs: seq<Node>, ctx: Ctx)
    ensures PostFiles(p, env, fs, ctx) == PostSteps(p, env, PostVisitsAll(p, env, fs), ctx)
    decreases fs
  {
    if fs != [] {
      PostTreeIsPreOrder(p, env, fs[0], ctx);
      PostFilesIsPreOrder(p, env, fs[1..], PostTree(p, env, fs[0], ctx));
      PostStepsAppend(p, env, PostVisits(p, env, fs[0]), PostVisitsAll(p, env, fs[1..]), ctx);
    }
  }

  /** A pending node with outputs matched by a folder-scoped post plugin: its children get no post units. */
  lemma PostFolderStops(p: Processor, env: Env, t: Node, ctx: Ctx)
    requires ctx.err.None? && t.Pending() && t.transformed.Some? && |t.transformed.value| > 0
    requires StopsDescent(Select(p, env, t, PostHook, p.plugins).chosen)
    ensures PostTree(p, env, t, ctx) == PostStep(p, env, t, ctx).0
  {
  }

  // ------------------------------------------------------------------ run

  datatype RunResult = RunResult(processor: Processor, tree: Node, log: seq<Effect>, err: Option<Error>)

  /**
   `run`: stamp the run time, mark the root modified, notify plugins of the
   start, then clean, transform and post-process the tree, each phase only
   after the previous one, and finally notify plugins of the finish. A
   thrown error ends the run at once.
   */
  function Run(p: Processor, env: Env, now: int, tree: Node): (r: RunResult)
    ensures r.processor == p.(modifiedTime := now, transformHash := r.processor.transformHash)
    ensures |r.log| >= 1 && r.log[0] == StartEmitted
    ensures r.err.None? ==> |r.log| >= 2 && r.log[|r.log| - 1] == FinishEmitted
  {
    var p1 := p.(modifiedTime := now);
    var root := tree.(state := Modified);
    var c1 := CleanTree(p1, env, root, Ctx(p.transformHash, [StartEmitted], None));
    if c1.err.Some? then RunResult(p1.(transformHash := c1.hash), root, c1.log, c1.err)
    else
      var tr := TransformTree(p1, env, root, c1);
      if tr.1.err.Some? then RunResult(p1.(transformHash := tr.1.hash), tr.0, tr.1.log, tr.1.err)
      else
        var c3 := PostTree(p1, env, tr.0, tr.1);
        if c3.err.Some? then RunResult(p1.(transformHash := c3.hash), tr.0, c3.log, c3.err)
        else RunResult(p1.(transformHash := c3.hash), tr.0, c3.log + [FinishEmitted], None)
  }

  /**
   The log after the start event splits at `i`, `j` and `k` into clean
   effects, then transform effects, then post effects; only the finish
   event, if any, follows.
   */
  predicate PhasesAt(log: seq<Effect>, i: nat, j: nat, k: nat)
  {
    && 1 <= i <= j <= k <= |log|
    && (forall x :: 1 <= x < i ==> InPhase(log[x], CleanPhase))
    && (forall x :: i <= x < j ==> InPhase(log[x], TransformPhase))
    && (forall x :: j <= x < k ==> InPhase(log[x], PostPhase))
  }

  /** Logs extended by clean, then transform, then post effects split at the ends of the extensions. */
  lemma PhasesOfExtends(a: seq<Effect>, b: seq<Effect>, c: seq<Effect>, d: seq<Effect>)
    requires |a| == 1 && Extends(a, b, CleanPhase) && Extends(b, c, TransformPhase) && Extends(c, d, PostPhase)
    ensures PhasesAt(d, |b|, |c|, |d|)
  {
    assert forall x :: 1 <= x < |b| ==> d[x] == c[x] == b[x];
    assert forall x :: |b| <= x < |c| ==> d[x] == c[x];
  }

  /** Appending the finish event keeps the split. */
  lemma PhasesAtFinish(log: seq<Effect>, i: nat, j: nat, k: nat)
    requires PhasesAt(log, i, j, k) && k == |log|
    ensures PhasesAt(log + [FinishEmitted], i, j, k)
  {
    assert forall x :: 0 <= x < |log| ==> (log + [FinishEmitted])[x] == log[x];
  }

  /** The phases of a run never interleave: no transform before cleaning is done, no post before transforming is done. */
  lemma RunPhaseOrder(p: Processor, env: Env, now: int, tree: Node)
    ensures var r := Run(p, env, now, tree);
            exists i, j, k :: PhasesAt(r.log, i, j, k) && k == (if r.err.None? then |r.log| - 1 else |r.log|)
  {
    var r := Run(p, env, now, tree);
    var p1 := p.(modifiedTime := now);
    var root := tree.(state := Modified);
    var c0 := Ctx(p.transformHash, [StartEmitted], None);
    var c1 := CleanTree(p1, env, root, c0);
    if c1.err.Some? {
      PhasesOfExtends(c0.log, c1.log, c1.log, c1.log);
      assert PhasesAt(r.log, |c1.log|, |c1.log|, |c1.log|);
    } else {
      var tr := TransformTree(p1, env, root, c1);
      if tr.1.err.Some? {
        PhasesOfExtends(c0.log, c1.log, tr.1.log, tr.1.log);
        assert PhasesAt(r.log, |c1.log|, |tr.1.log|, |tr.1.log|);
      } else {
        var c3 := PostTree(p1, env, tr.0, tr.1);
        PhasesOfExtends(c0.log, c1.log, tr.1.log, c3.log);
        if c3.err.Some? {
          assert PhasesAt(r.log, |c1.log|, |tr.1.log|, |c3.log|);
        } else {
          PhasesAtFinish(c3.log, |c1.log|, |tr.1.log|, |c3.log|);
          assert PhasesAt(r.log, |c1.log|, |tr.1.log|, |c3.log|);
        }
      }
    }
  }

  /** The context with `pre` put in front of its log. */
  function Behind(pre: seq<Effect>, c: Ctx): Ctx
  {
    c.(log := pre + c.log)
  }

  lemma CleanStepFrameDeleted(p: Processor, env: Env, n: Node, ctx: Ctx, pre: seq<Effect>)
    requires ctx.err.None? && n.state == Deleted
    ensures CleanStep(p, env, n, Behind(pre, ctx)) == Behind(pre, CleanStep(p, env, n, ctx))
  {
    var sel := Select(p, env, n, DeleteHook, p.plugins);
    var calls := DeleteCalls(sel.chosen, n.path);
    assert (pre + ctx.log) + calls == pre + (ctx.log + calls);
    if sel.err.None? && n.transformed.Some? {
      var rm := Removes(n.transformed.value);
      assert (pre + ctx.log) + calls + rm == pre + (ctx.log + calls + rm);
    }
  }

  lemma CleanStepFrame(p: Processor, env: Env, n: Node, ctx: Ctx, pre: seq<Effect>)
    ensures CleanStep(p, env, n, Behind(pre, ctx)) == Behind(pre, CleanStep(p, env, n, ctx))
  {
    if ctx.err.None? && n.state == Deleted {
      CleanStepFrameDeleted(p, env, n, ctx, pre);
    }
  }

  /** The clean walk neither reads nor rewrites the log it is given: it only appends to it. */
  lemma {:induction false} CleanTreeFrame(p: Processor, env: Env, t: Node, ctx: Ctx, pre: seq<Effect>)
    ensures CleanTree(p, env, t, Behind(pre, ctx)) == Behind(pre, CleanTree(p, env, t, ctx))
    decreases t
  {
    CleanFilesFrame(p, env, t.files, ctx, pre);
    CleanStepFrame(p, env, t, CleanFiles(p, env, t.files, ctx), pre);
  }

  lemma {:induction false} CleanFilesFrame(p: Processor, env: Env, fs: seq<Node>, ctx: Ctx, pre: seq<Effect>)
    ensures CleanFiles(p, env, fs, Behind(pre, ctx)) == Behind(pre, CleanFiles(p, env, fs, ctx))
    decreases fs
  {
    if fs != [] {
      CleanTreeFrame(p, env, fs[0], ctx, pre);
      CleanFilesFrame(p, env, fs[1..], CleanTree(p, env, fs[0], ctx), pre);
    }
  }

  lemma TransformStepFrameHandled(p: Processor, env: Env, n: Node, ctx: Ctx, pre: seq<Effect>)
    requires ctx.err.None? && !Missing(env, n)
    ensures var v := TransformStep(p, env, n, ctx);
            TransformStep(p, env, n, Behind(pre, ctx)) == v.(ctx := Behind(pre, v.ctx))
  {
    PlaceFrame(n, ctx, Handle(p, env, n), pre);
  }

  lemma TransformStepFrame(p: Processor, env: Env, n: Node, ctx: Ctx, pre: seq<Effect>)
    ensures var v := TransformStep(p, env, n, ctx);
            TransformStep(p, env, n, Behind(pre, ctx)) == v.(ctx := Behind(pre, v.ctx))
  {
    if ctx.err.None? && Missing(env, n) {
      assert (pre + ctx.log) + [MissingAsset(n.path)] == pre + (ctx.log + [MissingAsset(n.path)]);
    } else if ctx.err.None? {
      TransformStepFrameHandled(p, env, n, ctx, pre);
    }
  }

  /** Likewise the transform walk: the returned tree does not depend on the log, and the log is only appended to. */
  lemma {:induction false} TransformTreeFrame(p: Processor, env: Env, t: Node, ctx: Ctx, pre: seq<Effect>)
    ensures var r := TransformTree(p, env, t, ctx);
            TransformTree(p, env, t, Behind(pre, ctx)) == (r.0, Behind(pre, r.1))
    decreases t
  {
    TransformStepFrame(p, env, t, ctx, pre);
    TransformFilesFrame(p, env, t.files, TransformStep(p, env, t, ctx).ctx, pre);
  }

  lemma {:induction false} TransformFilesFrame(p: Processor, env: Env, fs: seq<Node>, ctx: Ctx, pre: seq<Effect>)
    ensures var r := TransformFiles(p, env, fs, ctx);
            TransformFiles(p, env, fs, Behind(pre, ctx)) == (r.0, Behind(pre, r.1))
    decreases fs
  {
    if fs != [] {
      TransformTreeFrame(p, env, fs[0], ctx, pre);
      TransformFilesFrame(p, env, fs[1..], TransformTree(p, env, fs[0], ctx).1, pre);
    }
  }

  lemma PostStepFrame(p: Processor, env: Env, n: Node, ctx: Ctx, pre: seq<Effect>)
    ensures var s := PostStep(p, env, n, ctx);
            PostStep(p, env, n, Behind(pre, ctx)) == (Behind(pre, s.0), s.1)
  {
    if ctx.err.None? && n.Pending() && n.transformed.Some? && |n.transformed.value| > 0 {
      PostPlaceFrame(n.transformed.value, ctx, Select(p, env, n, PostHook, p.plugins), pre);
    }
  }

  lemma PostPlaceFrame(outs: seq<Record>, ctx: Ctx, sel: Selection, pre: seq<Effect>)
    ensures var s := PostPlace(outs, ctx, sel);
            PostPlace(outs, Behind(pre, ctx), sel) == (Behind(pre, s.0), s.1)
  {
    var units := PostUnits(outs, sel.chosen);
    assert (pre + ctx.log) + units == pre + (ctx.log + units);
  }

  /** Likewise the post walk. */
  lemma {:induction false} PostTreeFrame(p: Processor, env: Env, t: Node, ctx: Ctx, pre: seq<Effect>)
    ensures PostTree(p, env, t, Behind(pre, ctx)) == Behind(pre, PostTree(p, env, t, ctx))
    decreases t
  {
    PostStepFrame(p, env, t, ctx, pre);
    PostFilesFrame(p, env, t.files, PostStep(p, env, t, ctx).0, pre);
  }

  lemma {:induction false} PostFilesFrame(p: Processor, env: Env, fs: seq<Node>, ctx: Ctx, pre: seq<Effect>)
    ensures PostFiles(p, env, fs, Behind(pre, ctx)) == Behind(pre, PostFiles(p, env, fs, ctx))
    decreases fs
  {
    if fs != [] {
      PostTreeFrame(p, env, fs[0], ctx, pre);
      PostFilesFrame(p, env, fs[1..], PostTree(p, env, fs[0], ctx), pre);
    }
  }

  /**
   What a run does, phase by phase: each walk runs on the hash the previous
   one left, the transform walk on the root marked modified and the post walk
   on the tree the transform walk returned. The run's log is the start event,
   the three walks' own logs in order, and, without a throw, the finish
   event; the first phase that throws decides the run's error.
   */
  lemma RunSegments(p: Processor, env: Env, now: int, tree: Node)
    ensures var r := Run(p, env, now, tree);
            var p1 := p.(modifiedTime := now);
            var root := tree.(state := Modified);
            var clean := CleanTree(p1, env, root, Ctx(p.transformHash, [], None));
            var transform := TransformTree(p1, env, root, clean.(log := []));
            var post := PostTree(p1, env, transform.0, transform.1.(log := []));
            && (clean.err.Some? ==> r.err == clean.err && r.log == [StartEmitted] + clean.log)
            && (clean.err.None? && transform.1.err.Some? ==>
                  r.err == transform.1.err && r.log == [StartEmitted] + clean.log + transform.1.log)
            && (clean.err.None? && transform.1.err.None? ==>
                  && r.err == post.err
                  && r.tree == transform.0
                  && r.processor.transformHash == post.hash
                  && (post.err.None? ==> r.log == [StartEmitted] + clean.log + transform.1.log + post.log + [FinishEmitted])
                  && (post.err.Some? ==> r.log == [StartEmitted] + clean.log + transform.1.log + post.log))
  {
    var p1 := p.(modifiedTime := now);
    var root := tree.(state := Modified);
    var c0 := Ctx(p.transformHash, [], None);
    var clean := CleanTree(p1, env, root, c0);
    CleanTreeFrame(p1, env, root, c0, [StartEmitted]);
    assert Behind([StartEmitted], c0) == Ctx(p.transformHash, [StartEmitted], None);
    var c1 := CleanTree(p1, env, root, Behind([StartEmitted], c0));
    if clean.err.None? {
      var pre1 := [StartEmitted] + clean.log;
      var transform := TransformTree(p1, env, root, clean.(log := []));
      TransformTreeFrame(p1, env, root, clean.(log := []), pre1);
      assert Behind(pre1, clean.(log := [])) == c1;
      if transform.1.err.None? {
        var pre2 := pre1 + transform.1.log;
        PostTreeFrame(p1, env, transform.0, transform.1.(log := []), pre2);
        assert Behind(pre2, transform.1.(log := [])) == TransformTree(p1, env, root, c1).1;
      }
    }
  }

  /**
   No stale output survives a run: every output recorded on a deleted node
   of the tree is removed once the clean walk finishes without a throw,
   whatever the later walks do.
   */
  lemma RunRemovesOutputs(p: Processor, env: Env, now: int, tree: Node, i: nat)
    requires var root := tree.(state := Modified);
             i < |PostOrder(root)| && PostOrder(root)[i].state == Deleted && PostOrder(root)[i].transformed.Some?
    requires CleanTree(p.(modifiedTime := now), env, tree.(state := Modified), Ctx(p.transformHash, [StartEmitted], None)).err.None?
    ensures forall rec :: rec in PostOrder(tree.(state := Modified))[i].transformed.value ==>
              Remove(rec.path) in Run(p, env, now, tree).log
  {
    var r := Run(p, env, now, tree);
    var p1 := p.(modifiedTime := now);
    var root := tree.(state := Modified);
    var c0 := Ctx(p.transformHash, [StartEmitted], None);
    var c1 := CleanTree(p1, env, root, c0);
    CleanTreeIsPostOrder(p1, env, root, c0);
    CleanStepsRemovesOutputs(p1, env, PostOrder(root), c0, i);
    var tr := TransformTree(p1, env, root, c1);
    assert c1.log <= tr.1.log;
    if tr.1.err.None? {
      var c3 := PostTree(p1, env, tr.0, tr.1);
      assert tr.1.log <= c3.log <= r.log;
    }
    assert c1.log <= r.log;
    forall rec | rec in PostOrder(root)[i].transformed.value
      ensures Remove(rec.path) in r.log
    {
      var k :| 0 <= k < |c1.log| && c1.log[k] == Remove(rec.path);
      assert r.log[k] == c1.log[k];
    }
  }

  /** A run changes no node of the tree except for output lists, beyond marking the root modified. */
  lemma RunKeepsShape(p: Processor, env: Env, now: int, tree: Node)
    ensures Shape(Run(p, env, now, tree).tree) == Shape(tree.(state := Modified))
  {
    var p1 := p.(modifiedTime := now);
    var root := tree.(state := Modified);
    var c1 := CleanTree(p1, env, root, Ctx(p.transformHash, [StartEmitted], None));
    if c1.err.None? {
      TransformKeepsShape(p1, env, root, c1);
    }
  }
}
