/**
 The AssetPack driver around the asset walks: its configuration defaults,
 the output/cache clearing decided at construction, the per-asset transform
 bookkeeping, and the one-shot resolution of the promise `watch` returns.
 */
module AssetPack {
  import opened Wrappers
  import opened Json
  import opened Assets

  // ------------------------------------------------------- configuration

  /** The defaults every user configuration is merged onto. */
  function Defaults(): Object
  {
    map[
      "entry" := JStr("./static"),
      "output" := JStr("./dist"),
      "ignore" := JArr([]),
      "cache" := JBool(true),
      "cacheLocation" := JStr(".assetpack"),
      "logLevel" := JStr("info"),
      "pipes" := JArr([]),
      "strict" := JBool(false)
    ]
  }

  /** The configuration in effect: the user's keys recursively merged over the defaults. */
  function EffectiveConfig(user: Object): (cfg: Object)
    ensures cfg.Keys == Defaults().Keys + user.Keys
    ensures forall k :: k in user ==> cfg[k] == user[k]
    ensures forall k :: k in Defaults() && k !in user ==> cfg[k] == Defaults()[k]
  {
    MergeObjects(Defaults(), user)
  }

  /** Whether caching is on: the effective `cache` value is truthy. */
  predicate CacheEnabled(user: Object)
  {
    Truthy(EffectiveConfig(user)["cache"])
  }

  /** Caching is on unless the user configures it; a configured value decides by its truthiness. */
  lemma CacheDefault(user: Object)
    ensures "cache" !in user ==> CacheEnabled(user)
    ensures "cache" in user ==> (CacheEnabled(user) <==> Truthy(user["cache"]))
  {
  }

  // ------------------------------------------------------------- startup

  datatype FsOp = RemoveDir(path: Path) | EnsureDir(path: Path)

  /**
   The folders the constructor removes: without caching both the output and
   the cache folder; with caching the output folder only when no cache exists
   yet.
   */
  function Cleared(cache: bool, cacheExists: bool, output: Path, cacheLocation: Path): (r: seq<Path>)
    ensures output in r <==> !cache || !cacheExists
    ensures output != cacheLocation ==> (cacheLocation in r <==> !cache)
  {
    if !cache then [output, cacheLocation]
    else if !cacheExists then [output]
    else []
  }

  /** The folder operations of the constructor: the removals, then both folders ensured. */
  function Startup(cache: bool, cacheExists: bool, output: Path, cacheLocation: Path): (ops: seq<FsOp>)
    ensures var cleared := Cleared(cache, cacheExists, output, cacheLocation);
            && |ops| == |cleared| + 2
            && (forall i :: 0 <= i < |cleared| ==> ops[i] == RemoveDir(cleared[i]))
            && ops[|cleared|] == EnsureDir(output) && ops[|cleared| + 1] == EnsureDir(cacheLocation)
  {
    var cleared := Cleared(cache, cacheExists, output, cacheLocation);
    seq(|cleared|, i requires 0 <= i < |cleared| => RemoveDir(cleared[i])) + [EnsureDir(output), EnsureDir(cacheLocation)]
  }

  /** A folder is removed at startup iff it is one of the cleared folders. */
  lemma StartupRemoves(cache: bool, cacheExists: bool, output: Path, cacheLocation: Path, x: Path)
    ensures RemoveDir(x) in Startup(cache, cacheExists, output, cacheLocation)
            <==> x in Cleared(cache, cacheExists, output, cacheLocation)
  {
  }

  /**
   The constructor's folder operations for a user configuration: whether
   caching is on is read from the configuration merged over the defaults.
   */
  function ConfiguredStartup(user: Object, cacheExists: bool, output: Path, cacheLocation: Path): (ops: seq<FsOp>)
    ensures "cache" !in user ==> (RemoveDir(output) in ops <==> !cacheExists)
    ensures "cache" !in user && output != cacheLocation ==> RemoveDir(cacheLocation) !in ops
    ensures "cache" in user && !Truthy(user["cache"]) ==> RemoveDir(output) in ops && RemoveDir(cacheLocation) in ops
    ensures "cache" in user && Truthy(user["cache"]) ==> (RemoveDir(output) in ops <==> !cacheExists)
    ensures |ops| >= 2 && ops[|ops| - 2] == EnsureDir(output) && ops[|ops| - 1] == EnsureDir(cacheLocation)
  {
    CacheDefault(user);
    StartupRemoves(CacheEnabled(user), cacheExists, output, cacheLocation, output);
    StartupRemoves(CacheEnabled(user), cacheExists, output, cacheLocation, cacheLocation);
    Startup(CacheEnabled(user), cacheExists, output, cacheLocation)
  }

  // ----------------------------------------------------------- transform

  /** The paths of the assets that are not skipped, in order. */
  function Unskipped(xs: seq<Asset>): (r: seq<Path>)
    ensures |r| <= |xs|
    decreases |xs|
  {
    if xs == [] then []
    else
      var last := xs[|xs| - 1];
      Unskipped(xs[..|xs| - 1]) + (if last.skip then [] else [last.path])
  }

  /**
   One transform unit of `_transform` for an asset that is not skipped: its
   stats start as a success and become a failure carrying the message when
   the transform rejects with `rejection`. What the pipe transform itself
   does to the asset is not modelled, so here nothing else changes.
   */
  function TransformUnit(a: Asset, rejection: Option<string>): (r: Asset)
    ensures r == a.(stats := r.stats) && r.stats.Some?
    ensures r.stats.value.success <==> rejection.None?
    ensures r.stats.value.error == rejection
  {
    var stats := Stats(true, None);
    var stats := if rejection.Some? then stats.(success := false, error := rejection) else stats;
    a.(stats := Some(stats))
  }

  /**
   The transform units of `_transform`, run one after the other: a skipped
   asset is left alone, any other one goes through `TransformUnit` with the
   rejection `outcome` gives for it. A rejection is absorbed, and the
   progress counter counts the transformed assets.
   */
  method TransformUnits(assets: seq<Asset>, outcome: Asset -> Option<string>)
    returns (updated: seq<Asset>, transformed: seq<Path>, index: nat)
    ensures |updated| == |assets|
    ensures forall i :: 0 <= i < |assets| && assets[i].skip ==> updated[i] == assets[i]
    ensures forall i :: 0 <= i < |assets| && !assets[i].skip ==> updated[i] == TransformUnit(assets[i], outcome(assets[i]))
    ensures transformed == Unskipped(assets)
    ensures index == |transformed| <= |assets|
  {
    updated := [];
    transformed := [];
    index := 0;
    var i := 0;
    while i < |assets|
      invariant 0 <= i <= |assets|
      invariant |updated| == i
      invariant forall k :: 0 <= k < i && assets[k].skip ==> updated[k] == assets[k]
      invariant forall k :: 0 <= k < i && !assets[k].skip ==> updated[k] == TransformUnit(assets[k], outcome(assets[k]))
      invariant transformed == Unskipped(assets[..i])
      invariant index == |transformed| <= i
    {
      var a := assets[i];
      assert assets[..i + 1][..i] == assets[..i];
      if a.skip {
        updated := updated + [a];
      } else {
        updated := updated + [TransformUnit(a, outcome(a))];
        transformed := transformed + [a.path];
        index := index + 1;
      }
      i := i + 1;
    }
    assert assets[..i] == assets;
  }

  // --------------------------------------------------------------- watch

  /**
   The driver state `onComplete` reads: whether caching is on, whether a
   per-completion watch callback is set, and the pending resolver of the
   promise returned by `watch`, named by the call that created it.
   */
  datatype Pack = Pack(cache: bool, onWatchComplete: bool, resolver: Option<nat>)

  /** The calls one completion makes, in order; a call that throws is the last one made. */
  datatype Signal = CacheWritten | BuffersReleased | BuildSuccess | WatchCallback | Resolved(watch: nat)

  /** Which of the throwing calls of `onComplete` throws: the cache write, the buffer release or the user's callback. */
  datatype Throw = CacheWriteThrows | ReleaseThrows | CallbackThrows

  /** `watch`: set (or clear) the callback and install a fresh resolver, replacing any earlier one. */
  function Watch(s: Pack, hasCallback: bool, id: nat): (r: Pack)
    ensures r.cache == s.cache && r.onWatchComplete == hasCallback && r.resolver == Some(id)
  {
    s.(onWatchComplete := hasCallback, resolver := Some(id))
  }

  /** The completion stops before its end: the call named by `fault` is made and throws. */
  predicate Aborts(s: Pack, fault: Option<Throw>)
  {
    || (fault == Some(CacheWriteThrows) && s.cache)
    || (fault == Some(ReleaseThrows) && s.cache)
    || (fault == Some(CallbackThrows) && s.onWatchComplete)
  }

  /**
   `onComplete`: write the cache and release the buffers if caching, report
   success, call back, and resolve the pending promise once, clearing it. A
   call that throws rejects the completion there, so the later calls are not
   made and the resolver stays installed.
   */
  function OnComplete(s: Pack, fault: Option<Throw>): (r: (Pack, seq<Signal>))
    ensures r.0.cache == s.cache && r.0.onWatchComplete == s.onWatchComplete
    ensures r.0.resolver == if Aborts(s, fault) then s.resolver else None
    ensures CacheWritten in r.1 <==> s.cache
    ensures BuffersReleased in r.1 <==> s.cache && fault != Some(CacheWriteThrows)
    ensures BuildSuccess in r.1 <==> !(s.cache && fault in {Some(CacheWriteThrows), Some(ReleaseThrows)})
    ensures WatchCallback in r.1 <==> s.onWatchComplete && BuildSuccess in r.1
    ensures forall id: nat :: Resolved(id) in r.1 <==> !Aborts(s, fault) && s.resolver == Some(id)
  {
    var cached := if !s.cache then []
                  else if fault == Some(CacheWriteThrows) then [CacheWritten]
                  else [CacheWritten, BuffersReleased];
    if s.cache && fault in {Some(CacheWriteThrows), Some(ReleaseThrows)} then (s, cached)
    else
      var called := if s.onWatchComplete then [WatchCallback] else [];
      if s.onWatchComplete && fault == Some(CallbackThrows) then (s, cached + [BuildSuccess] + called)
      else
        var resolved := if s.resolver.Some? then [Resolved(s.resolver.value)] else [];
        (s.(resolver := None), cached + [BuildSuccess] + called + resolved)
  }

  /** A `watch` call, or a completion together with the call of it that throws, if any. */
  datatype Act = WatchCall(hasCallback: bool, id: nat) | Complete(fault: Option<Throw>)

  /** A sequence of `watch` calls and completions, replayed from state `s`. */
  function Replay(s: Pack, acts: seq<Act>): (r: (Pack, seq<Signal>))
    ensures r.0.cache == s.cache
    decreases |acts|
  {
    if acts == [] then (s, [])
    else
      var step := match acts[0]
        case WatchCall(cb, id) => (Watch(s, cb, id), [])
        case Complete(f) => OnComplete(s, f);
      var rest := Replay(step.0, acts[1..]);
      (rest.0, step.1 + rest.1)
  }

  function Count<T(==)>(x: T, xs: seq<T>): nat
    decreases |xs|
  {
    if xs == [] then 0 else (if xs[0] == x then 1 else 0) + Count(x, xs[1..])
  }

  lemma {:induction false} CountAppend<T>(x: T, a: seq<T>, b: seq<T>)
    ensures Count(x, a + b) == Count(x, a) + Count(x, b)
    decreases |a|
  {
    if a == [] {
      assert a + b == b;
    } else {
      assert (a + b)[0] == a[0] && (a + b)[1..] == a[1..] + b;
      CountAppend(x, a[1..], b);
    }
  }

  /** A value that does not occur is counted zero times. */
  lemma {:induction false} CountAbsent<T>(x: T, xs: seq<T>)
    requires x !in xs
    ensures Count(x, xs) == 0
    decreases |xs|
  {
    if xs != [] {
      assert xs[0] != x;
      assert forall y :: y in xs[1..] ==> y in xs;
      CountAbsent(x, xs[1..]);
    }
  }

  function WatchCount(acts: seq<Act>, id: nat): nat
    decreases |acts|
  {
    if acts == [] then 0 else (if acts[0].WatchCall? && acts[0].id == id then 1 else 0) + WatchCount(acts[1..], id)
  }

  /**
   Each installed resolver is called at most once: the promise of a `watch`
   call is resolved no more often than it was installed, whichever
   completions throw.
   */
  lemma {:induction false} ResolvedAtMostInstalled(s: Pack, acts: seq<Act>, id: nat)
    ensures Count(Resolved(id), Replay(s, acts).1) <= (if s.resolver == Some(id) then 1 else 0) + WatchCount(acts, id)
    decreases |acts|
  {
    if acts != [] {
      var step := match acts[0]
        case WatchCall(cb, i) => (Watch(s, cb, i), [])
        case Complete(f) => OnComplete(s, f);
      ResolvedAtMostInstalled(step.0, acts[1..], id);
      CountAppend(Resolved(id), step.1, Replay(step.0, acts[1..]).1);
      if acts[0].Complete? {
        CompleteResolvesPending(s, acts[0].fault, id);
      }
    }
  }

  /**
   One completion that runs to its end resolves the pending promise exactly
   once, and no other; one that throws before the resolver resolves none.
   */
  lemma CompleteResolvesPending(s: Pack, fault: Option<Throw>, id: nat)
    ensures Count(Resolved(id), OnComplete(s, fault).1) == if !Aborts(s, fault) && s.resolver == Some(id) then 1 else 0
  {
    var cached := if !s.cache then []
                  else if fault == Some(CacheWriteThrows) then [CacheWritten]
                  else [CacheWritten, BuffersReleased];
    var called := if s.onWatchComplete then [WatchCallback] else [];
    if Aborts(s, fault) {
      CountAbsent(Resolved(id), OnComplete(s, fault).1);
    } else {
      var resolved := if s.resolver.Some? then [Resolved(s.resolver.value)] else [];
      assert OnComplete(s, fault).1 == cached + [BuildSuccess] + called + resolved;
      CountAppend(Resolved(id), cached + [BuildSuccess] + called, resolved);
      CountAppend(Resolved(id), cached + [BuildSuccess], called);
      CountAppend(Resolved(id), cached, [BuildSuccess]);
    }
  }

  /**
   A completion that throws leaves the promise pending, and the next
   completion that runs to its end resolves it.
   */
  lemma ResolvedAfterRetry(s: Pack, fault: Option<Throw>, id: nat)
    requires s.resolver == Some(id) && Aborts(s, fault)
    ensures Count(Resolved(id), Replay(s, [Complete(fault), Complete(None)]).1) == 1
  {
    var s1 := OnComplete(s, fault).0;
    assert [Complete(fault), Complete(None)][1..] == [Complete(None)];
    assert [Complete(None)][1..] == [];
    assert Replay(s, [Complete(fault), Complete(None)]).1 == OnComplete(s, fault).1 + (OnComplete(s1, None).1 + []);
    CompleteResolvesPending(s, fault, id);
    CompleteResolvesPending(s1, None, id);
    CountAppend(Resolved(id), OnComplete(s, fault).1, OnComplete(s1, None).1 + []);
    assert OnComplete(s1, None).1 + [] == OnComplete(s1, None).1;
  }

  /** Starting with no pending resolver, a promise from a `watch` call made once is resolved at most once. */
  lemma ResolvedAtMostOnce(s: Pack, acts: seq<Act>, id: nat)
    requires s.resolver.None? && WatchCount(acts, id) <= 1
    ensures Count(Resolved(id), Replay(s, acts).1) <= 1
  {
    ResolvedAtMostInstalled(s, acts, id);
  }

  /** With caching off, no completion ever writes the cache. */
  lemma {:induction false} NoCacheWriteWithoutCache(s: Pack, acts: seq<Act>)
    requires !s.cache
    ensures CacheWritten !in Replay(s, acts).1
    decreases |acts|
  {
    if acts != [] {
      var step := match acts[0]
        case WatchCall(cb, i) => (Watch(s, cb, i), [])
        case Complete(f) => OnComplete(s, f);
      NoCacheWriteWithoutCache(step.0, acts[1..]);
    }
  }
}
