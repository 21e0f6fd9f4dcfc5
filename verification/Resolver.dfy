/** The memoised key computation and the topological resolver, as they update their state. */
module Resolver {
  import opened Common
  import opened Jobs

  datatype Error =
    | InvalidSlug(slug: string)
    | Cycle(trace: seq<string>)
    | NilDep(slug: string)
    | NilRoot
    | DepTwice(slug: string, dep: string)
    | Conflict(slug: string)

  // ---------------------------------------------------------------- cycle reports

  ghost predicate Spells(g: Graph, p: seq<nat>, trace: seq<string>) {
    |p| == |trace| && forall i | 0 <= i < |p| :: p[i] in g && g[p[i]].slug == trace[i]
  }

  /** The slugs of some path of jobs from x. */
  ghost predicate TraceFrom(g: Graph, x: nat, trace: seq<string>) {
    exists p :: PathFrom(g, x, p) && Spells(g, p, trace)
  }

  /** A genuine cycle: a path of jobs that comes back to a slug it already passed, either one that `j`
      reaches, or the slugs `above` on the stack followed by a path from `j`. */
  ghost predicate ClosesCycle(g: Graph, j: nat, above: seq<string>, trace: seq<string>) {
    && |trace| >= 2 && trace[|trace|-1] in trace[..|trace|-1]
    && (|| (above <= trace && TraceFrom(g, j, trace[|above|..]))
        || exists x :: Reaches(g, j, x) && TraceFrom(g, x, trace))
  }

  /** What an error of a key computation below `j` says of the graph. */
  ghost predicate Blames(g: Graph, j: nat, above: seq<string>, e: Error) {
    match e
    case InvalidSlug(s) => Unusable(s) && exists x :: Reaches(g, j, x) && x in g && g[x].slug == s
    case NilDep(s) => exists x :: Reaches(g, j, x) && x in g && g[x].slug == s && Nil in g[x].deps
    case Cycle(trace) => ClosesCycle(g, j, above, trace)
    case _ => false
  }

  lemma BlamesSelf(g: Graph, j: nat, above: seq<string>)
    requires j in g
    ensures !ValidSlug(g[j].slug) ==> Blames(g, j, above, InvalidSlug(g[j].slug))
    ensures Nil in g[j].deps ==> Blames(g, j, above, NilDep(g[j].slug))
  {
    ReachesItself(g, j);
    SlugsRefused(g[j].slug);
    hide Reaches;
  }

  /** Meeting a slug of the stack again. */
  lemma BlamesCycle(g: Graph, j: nat, above: seq<string>)
    requires j in g && g[j].slug in above
    ensures Blames(g, j, above, Cycle(above + [g[j].slug]))
  {
    var trace := above + [g[j].slug];
    assert trace[..|above|] == above && trace[|above|..] == [g[j].slug];
    assert PathFrom(g, j, [j]) && Spells(g, [j], [g[j].slug]);
    hide Reaches;
  }

  lemma TraceThrough(g: Graph, j: nat, r: Ref, trace: seq<string>)
    requires j in g && r in g[j].deps && r.To? && TraceFrom(g, r.id, trace)
    ensures TraceFrom(g, j, [g[j].slug] + trace)
  {
    var p :| PathFrom(g, r.id, p) && Spells(g, p, trace);
    PathCons(g, j, p);
    assert PathFrom(g, j, [j] + p) && Spells(g, [j] + p, [g[j].slug] + trace);
  }

  lemma CycleThrough(g: Graph, j: nat, r: Ref, above: seq<string>, trace: seq<string>)
    requires j in g && r in g[j].deps && r.To? && ClosesCycle(g, r.id, above + [g[j].slug], trace)
    ensures ClosesCycle(g, j, above, trace)
  {
    hide TraceFrom, Reaches;
    var inner := above + [g[j].slug];
    if inner <= trace && TraceFrom(g, r.id, trace[|inner|..]) {
      TraceThrough(g, j, r, trace[|inner|..]);
      assert trace[|above|] == inner[|above|];
      assert trace[|above|..] == [g[j].slug] + trace[|inner|..];
      assert above <= trace;
    } else {
      var x :| Reaches(g, r.id, x) && TraceFrom(g, x, trace);
      ReachesThrough(g, j, r, x);
    }
  }

  lemma BlamesThrough(g: Graph, j: nat, r: Ref, above: seq<string>, e: Error)
    requires j in g && r in g[j].deps && r.To? && Blames(g, r.id, above + [g[j].slug], e)
    ensures Blames(g, j, above, e)
  {
    hide ClosesCycle, Reaches;
    if e.Cycle? {
      CycleThrough(g, j, r, above, e.trace);
    }
    forall x | Reaches(g, r.id, x) ensures Reaches(g, j, x) {
      ReachesThrough(g, j, r, x);
    }
  }

  /** A cycle reported for a whole computation is one of jobs that its root reaches. */
  lemma CycleStart(g: Graph, j: nat, trace: seq<string>) returns (x: nat)
    requires j in g && ClosesCycle(g, j, [], trace)
    ensures Reaches(g, j, x) && TraceFrom(g, x, trace)
  {
    ReachesItself(g, j);
    hide Reaches, TraceFrom;
    assert trace[0..] == trace;
    x :| Reaches(g, j, x) && TraceFrom(g, x, trace);
  }

  /** What a computation that started at `j` blames, it blames whatever lies above. */
  lemma BlamesBelow(g: Graph, j: nat, above: seq<string>, e: Error)
    requires j in g && Blames(g, j, [], e)
    ensures Blames(g, j, above, e)
  {
    ReachesItself(g, j);
    hide TraceFrom, Reaches;
    if e.Cycle? {
      assert e.trace[0..] == e.trace;
    }
  }

  // ---------------------------------------------------------------- Key

  /** What `computeKey` leaves in the cache: keys of usable slugs over dep keys cached before. */
  ghost predicate ValidKeys(keys: map<string, Key>) {
    forall s | s in keys :: ValidSlug(s) && keys[s].slug == s && Grown(keys[s].deps, keys)
  }

  /** The keys of some deps, read off the cache. */
  ghost function ShallowDeps(g: Graph, refs: seq<Ref>, keys: map<string, Key>): map<string, Key>
    requires RefsIn(g, refs) && AllCached(g, refs, keys)
  {
    if refs == [] then map[]
    else
      var s := g[refs[|refs|-1].id].slug;
      ShallowDeps(g, refs[..|refs|-1], keys)[s := keys[s]]
  }

  lemma {:induction false} ShallowDepsAre(g: Graph, refs: seq<Ref>, keys: map<string, Key>)
    requires RefsIn(g, refs) && AllCached(g, refs, keys)
    ensures ShallowDeps(g, refs, keys).Keys == Elems(DepSlugs(g, refs))
    ensures forall s | s in ShallowDeps(g, refs, keys) :: s in keys && ShallowDeps(g, refs, keys)[s] == keys[s]
  {
    if refs != [] {
      var init, last := refs[..|refs|-1], refs[|refs|-1];
      assert refs == init + [last];
      ShallowDepsAre(g, init, keys);
      ElemsConcat(DepSlugs(g, init), [g[last.id].slug]);
      ElemsOne(g[last.id].slug);
      hide Elems;
    }
  }

  /** A job whose deps are all cached gets the hash of its own document over their cached keys, and
      a cached job its cached key; neither looks any further. */
  ghost predicate Shallow(g: Graph, j: nat, stack: set<string>, before: map<string, Key>, r: Result<Key, Error>,
                          after: map<string, Key>)
    requires j in g
  {
    var slug := g[j].slug;
    && (slug in before ==> r == Ok(before[slug]) && after == before)
    && (slug !in before && ValidSlug(slug) && slug !in stack && AllCached(g, g[j].deps, before) ==>
          r == Ok(ShallowKey(g, j, before)) && after == before[slug := ShallowKey(g, j, before)])
  }

  ghost function ShallowKey(g: Graph, j: nat, keys: map<string, Key>): Key
    requires j in g && AllCached(g, g[j].deps, keys)
  {
    Hash(g[j].name, g[j].slug, g[j].inputs, ShallowDeps(g, g[j].deps, keys))
  }

  /** The same for the loop over the deps. */
  ghost predicate ShallowSoFar(g: Graph, refs: seq<Ref>, i: nat, before: map<string, Key>, deps: map<string, Key>,
                               after: map<string, Key>)
    requires RefsIn(g, refs) && i <= |refs|
  {
    AllCached(g, refs, before) ==>
      after == before && AllCached(g, refs[..i], before) && deps == ShallowDeps(g, refs[..i], before)
  }

  lemma ShallowStart(g: Graph, refs: seq<Ref>, keys: map<string, Key>)
    requires RefsIn(g, refs)
    ensures ShallowSoFar(g, refs, 0, keys, map[], keys)
  {
    assert refs[..0] == [];
  }

  lemma ShallowStep(g: Graph, refs: seq<Ref>, i: nat, before: map<string, Key>, deps: map<string, Key>, now: map<string, Key>,
                    stack: set<string>, dk: Result<Key, Error>, after: map<string, Key>)
    requires RefsIn(g, refs) && i < |refs| && refs[i].To?
    requires ShallowSoFar(g, refs, i, before, deps, now) && Shallow(g, refs[i].id, stack, now, dk, after)
    ensures AllCached(g, refs, before) ==> dk.Ok? && after == before
    ensures dk.Ok? ==> ShallowSoFar(g, refs, i + 1, before, deps[g[refs[i].id].slug := dk.value], after)
  {
    hide ShallowKey;
    assert refs[..i+1][..i] == refs[..i] && refs[i] in refs;
    assert forall d | d in refs[..i+1] :: d in refs;
  }

  lemma ShallowEnd(g: Graph, refs: seq<Ref>, before: map<string, Key>, deps: map<string, Key>, after: map<string, Key>)
    requires RefsIn(g, refs) && ShallowSoFar(g, refs, |refs|, before, deps, after)
    ensures AllCached(g, refs, before) ==> after == before && deps == ShallowDeps(g, refs, before)
  {
    assert refs[..|refs|] == refs;
  }

  /** Cached keys are right, and a cached job's deps are cached too. */
  ghost predicate SoundKeys(g: Graph, keys: map<string, Key>) {
    && (forall j | j in g && g[j].slug in keys :: KeyOf(g, j) == Some(keys[g[j].slug]))
    && (forall j, r | j in g && g[j].slug in keys && r in g[j].deps && r.To? :: g[r.id].slug in keys)
  }

  /** Slugs that are not cached cannot lie below a cached job. */
  lemma {:induction false} CachedBelow(g: Graph, keys: map<string, Key>, j: nat, small: set<string>, extra: set<string>)
    requires SoundKeys(g, keys) && j in g && g[j].slug in keys
    requires extra !! keys.Keys && KeyBelow(g, j, small).Some?
    ensures KeyBelow(g, j, small + extra) == KeyBelow(g, j, small)
    decreases |Slugs(g) - small|, 0
  {
    var s := g[j].slug;
    PathGrows(g, j, small);
    CachedDepsBelow(g, keys, g[j].deps, small + {s}, extra);
    assert small + {s} + extra == small + extra + {s};
  }

  lemma {:induction false} CachedDepsBelow(g: Graph, keys: map<string, Key>, refs: seq<Ref>,
                                           small: set<string>, extra: set<string>)
    requires SoundKeys(g, keys) && RefsIn(g, refs)
    requires forall r | r in refs && r.To? :: g[r.id].slug in keys
    requires extra !! keys.Keys && DepKeys(g, refs, small).Some?
    ensures DepKeys(g, refs, small + extra) == DepKeys(g, refs, small)
    decreases |Slugs(g) - small|, 1, |refs|
  {
    if refs != [] {
      CachedDepsBelow(g, keys, refs[..|refs|-1], small, extra);
      CachedBelow(g, keys, refs[|refs|-1].id, small, extra);
    }
  }

  /** `keyCache`, shared by every walk of the process. */
  class KeyCache {
    var keys: map<string, Key>

    constructor ()
      ensures keys == map[]
    {
      keys := map[];
    }

    ghost predicate Sound(g: Graph)
      reads this
    {
      ValidKeys(keys) && (SlugDetermines(g) ==> SoundKeys(g, keys))
    }
  }

  /** `keyWalk`: the stack of one key computation. */
  class KeyWalk {
    const cache: KeyCache
    var onStack: set<string>
    var path: seq<string>

    constructor (cache: KeyCache)
      ensures this.cache == cache && onStack == {} && path == []
    {
      this.cache := cache;
      onStack, path := {}, [];
    }

    /** What a walk needs: right cached keys, and a stack of slugs not cached yet. */
    ghost predicate Ready(g: Graph)
      reads this, cache
    {
      cache.Sound(g) && onStack == Elems(path) && onStack !! cache.keys.Keys
    }

    /** Every answer is the key of plain recursion, and a failure means plain recursion below the
        same stack has no key either. */
    method ComputeKey(g: Graph, j: nat) returns (r: Result<Key, Error>)
      requires j in g && Ready(g)
      modifies this, cache
      ensures Ready(g) && onStack == old(onStack) && path == old(path)
      ensures Grown(old(cache.keys), cache.keys)
      ensures r.Ok? ==> g[j].slug in cache.keys && r.value == cache.keys[g[j].slug]
      ensures r.Ok? && SlugDetermines(g) ==> KeyOf(g, j) == Some(r.value)
      ensures r.Err? && SlugDetermines(g) ==> KeyBelow(g, j, onStack).None?
      ensures r.Err? ==> Blames(g, j, path, r.error)
      ensures Shallow(g, j, onStack, old(cache.keys), r, cache.keys)
      decreases |Slugs(g) - onStack|, 1
    {
      hide SlugDetermines, SoundKeys, ClosesCycle, Blames, ShallowKey;
      var job := g[j];
      var slug := job.slug;
      if !ValidSlug(slug) {
        BlamesSelf(g, j, path);
        return Err(InvalidSlug(slug));
      }
      if slug in cache.keys {
        CachedKey(g, j, cache.keys);
        return Ok(cache.keys[slug]);
      }
      if slug in onStack {
        BlamesCycle(g, j, path);
        return Err(Cycle(path + [slug]));
      }
      r := ComputeFresh(g, j);
    }

    /** The rest of `computeKey`, for a job that is neither cached nor on the stack. */
    method ComputeFresh(g: Graph, j: nat) returns (r: Result<Key, Error>)
      requires j in g && Ready(g)
      requires ValidSlug(g[j].slug) && g[j].slug !in cache.keys && g[j].slug !in onStack
      modifies this, cache
      ensures Ready(g) && onStack == old(onStack) && path == old(path)
      ensures Grown(old(cache.keys), cache.keys)
      ensures r.Ok? ==> g[j].slug in cache.keys && r.value == cache.keys[g[j].slug]
      ensures r.Ok? && SlugDetermines(g) ==> KeyOf(g, j) == Some(r.value)
      ensures r.Err? && SlugDetermines(g) ==> KeyBelow(g, j, onStack).None?
      ensures r.Err? ==> Blames(g, j, path, r.error)
      ensures Shallow(g, j, onStack, old(cache.keys), r, cache.keys)
      decreases |Slugs(g) - onStack|, 0
    {
      hide SlugDetermines, SoundKeys, ClosesCycle, KeyBelow, DepKeys, Blames, AllCached, ShallowDeps;
      hide Grown, ValidKeys, Shallow, ShallowKey, Elems;
      ghost var start, stack := cache.keys, onStack;
      var job := g[j];
      var slug := job.slug;
      PathGrows(g, j, onStack);
      PushPop(path, slug);
      onStack, path := onStack + {slug}, path + [slug];
      var deps := ComputeDeps(g, j);
      onStack, path := onStack - {slug}, path[..|path|-1];
      KeyFromDeps(g, j, onStack);
      if deps.Err? {
        ShallowFailed(g, j, stack, start, deps.error, cache.keys);
        return Err(deps.error);
      }
      var k := Hash(job.name, slug, job.inputs, deps.value);
      assert forall d | d in g[j].deps && d.To? :: g[d.id].slug in cache.keys by { DepsCached(g, g[j].deps, cache.keys); }
      StoredStaysSound(g, j, cache.keys, k);
      ShallowStored(g, j, stack, start, deps.value, cache.keys);
      StoredGrows(start, cache.keys, slug, k);
      cache.keys := cache.keys[slug := k];
      return Ok(k);
    }

    /** The loop of `computeKey` over the deps of the job on top of the stack. */
    method ComputeDeps(g: Graph, j: nat) returns (r: Result<map<string, Key>, Error>)
      requires j in g && Ready(g) && |path| > 0 && path[|path|-1] == g[j].slug
      modifies this, cache
      ensures Ready(g) && onStack == old(onStack) && path == old(path)
      ensures Grown(old(cache.keys), cache.keys)
      ensures r.Ok? ==> AllCached(g, g[j].deps, cache.keys) && Grown(r.value, cache.keys)
      ensures r.Ok? && SlugDetermines(g) ==> DepKeys(g, g[j].deps, {g[j].slug}) == Some(r.value)
      ensures r.Err? && SlugDetermines(g) ==> DepKeys(g, g[j].deps, onStack).None?
      ensures r.Err? ==> Blames(g, j, path[..|path|-1], r.error)
      ensures AllCached(g, g[j].deps, old(cache.keys)) ==>
                r == Ok(ShallowDeps(g, g[j].deps, old(cache.keys))) && cache.keys == old(cache.keys)
      decreases |Slugs(g) - onStack|, 2
    {
      hide SlugDetermines, SoundKeys, ClosesCycle, KeyBelow, DepKeys, DepSlugs, Slugs, FingerprintOf;
      hide Grown, AllCached, Blames, ShallowDeps, ShallowSoFar, Shallow;
      ghost var start := cache.keys;
      var slug, refs := g[j].slug, g[j].deps;
      var deps: map<string, Key> := map[];
      DepKeysSome(g, refs, onStack);
      NoDepKeys(g, {slug}, start);
      ShallowStart(g, refs, start);
      BlamesSelf(g, j, path[..|path|-1]);
      assert path[..|path|-1] + [slug] == path;
      for i := 0 to |refs|
        invariant Ready(g) && onStack == old(onStack) && path == old(path)
        invariant Grown(old(cache.keys), cache.keys)
        invariant Grown(deps, cache.keys)
        invariant AllCached(g, refs[..i], cache.keys)
        invariant SlugDetermines(g) ==> DepKeys(g, refs[..i], {slug}) == Some(deps)
        invariant ShallowSoFar(g, refs, i, start, deps, cache.keys)
      {
        var d := refs[i];
        assert refs[..i+1][..i] == refs[..i] && d in refs;
        if d.Nil? {
          NotAllCached(g, refs, start);
          return Err(NilDep(slug));
        }
        ghost var was := cache.keys;
        var dk := ComputeKey(g, d.id);
        GrowthAdds(start, was, cache.keys);
        ShallowStep(g, refs, i, start, deps, was, onStack, dk, cache.keys);
        if dk.Err? {
          BlamesThrough(g, j, d, path[..|path|-1], dk.error);
          return Err(dk.error);
        }
        var ds := g[d.id].slug;
        GrowthKeeps(deps, was, cache.keys, ds);
        if ds in deps && deps[ds] != dk.value {
          return Err(DepTwice(slug, ds));
        }
        ghost var before := deps;
        deps := deps[ds := dk.value];
        DepComputed(g, refs[..i+1], cache.keys, slug, before);
        StillGrown(g, refs[..i+1], start, was, cache.keys, before, ds);
      }
      ShallowEnd(g, refs, start, deps, cache.keys);
      assert refs[..|refs|] == refs;
      return Ok(deps);
    }
  }

  lemma PushPop(path: seq<string>, slug: string)
    requires slug !in Elems(path)
    ensures Elems(path + [slug]) == Elems(path) + {slug} && Elems(path) + {slug} - {slug} == Elems(path)
    ensures (path + [slug])[..|path + [slug]|-1] == path
  {
    ElemsConcat(path, [slug]);
    ElemsOne(slug);
  }

  lemma StoredGrows(before: map<string, Key>, keys: map<string, Key>, slug: string, k: Key)
    requires Grown(before, keys)
    ensures slug !in before ==> Grown(before, keys[slug := k])
  {
  }

  lemma ShallowFailed(g: Graph, j: nat, stack: set<string>, before: map<string, Key>, e: Error, after: map<string, Key>)
    requires j in g && g[j].slug !in before && !AllCached(g, g[j].deps, before)
    ensures Shallow(g, j, stack, before, Err(e), after)
  {
    hide AllCached;
  }

  lemma ShallowStored(g: Graph, j: nat, stack: set<string>, before: map<string, Key>, deps: map<string, Key>,
                      keys: map<string, Key>)
    requires j in g && g[j].slug !in before
    requires AllCached(g, g[j].deps, before) ==> deps == ShallowDeps(g, g[j].deps, before) && keys == before
    ensures var k := Hash(g[j].name, g[j].slug, g[j].inputs, deps);
            Shallow(g, j, stack, before, Ok(k), keys[g[j].slug := k])
  {
    hide AllCached, ShallowDeps;
  }

  lemma KeyFromDeps(g: Graph, j: nat, path: set<string>)
    requires j in g && ValidSlug(g[j].slug)
    ensures DepKeys(g, g[j].deps, path + {g[j].slug}).None? ==> KeyBelow(g, j, path).None?
    ensures var ks := DepKeys(g, g[j].deps, {g[j].slug});
            ks.Some? ==> KeyOf(g, j) == Some(Hash(g[j].name, g[j].slug, g[j].inputs, ks.value))
  {
    assert {} + {g[j].slug} == {g[j].slug};
  }

  ghost predicate Grown(a: map<string, Key>, b: map<string, Key>) {
    forall s | s in a :: s in b && b[s] == a[s]
  }

  lemma DepComputed(g: Graph, refs: seq<Ref>, keys: map<string, Key>, slug: string, deps: map<string, Key>)
    requires RefsIn(g, refs) && refs != [] && refs[|refs|-1].To? && g[refs[|refs|-1].id].slug in keys && slug !in keys
    requires SlugDetermines(g) ==> SoundKeys(g, keys) && DepKeys(g, refs[..|refs|-1], {slug}) == Some(deps)
    ensures var ds := g[refs[|refs|-1].id].slug;
            SlugDetermines(g) ==> DepKeys(g, refs, {slug}) == Some(deps[ds := keys[ds]])
  {
    if SlugDetermines(g) {
      CachedBelow(g, keys, refs[|refs|-1].id, {}, {slug});
      assert {} + {slug} == {slug};
    }
  }

  lemma NoDepKeys(g: Graph, path: set<string>, keys: map<string, Key>)
    ensures DepKeys(g, [], path) == Some(map[]) && AllCached(g, [], keys)
    ensures Grown(keys, keys) && Grown(map[], keys)
  {
  }

  ghost predicate AllCached(g: Graph, refs: seq<Ref>, keys: map<string, Key>)
    requires RefsIn(g, refs)
  {
    forall d | d in refs :: d.To? && g[d.id].slug in keys
  }

  lemma NotAllCached(g: Graph, refs: seq<Ref>, keys: map<string, Key>)
    requires RefsIn(g, refs) && Nil in refs
    ensures !AllCached(g, refs, keys)
  {
  }

  lemma DepsCached(g: Graph, refs: seq<Ref>, keys: map<string, Key>)
    requires RefsIn(g, refs) && AllCached(g, refs, keys)
    ensures forall d | d in refs && d.To? :: g[d.id].slug in keys
  {
  }

  lemma GrowthAdds(a: map<string, Key>, b: map<string, Key>, c: map<string, Key>)
    requires Grown(a, b) && Grown(b, c)
    ensures Grown(a, c)
  {
  }

  lemma GrowthKeeps(a: map<string, Key>, b: map<string, Key>, c: map<string, Key>, s: string)
    requires Grown(a, b) && Grown(b, c)
    ensures s in a ==> s in c && c[s] == a[s]
  {
  }

  lemma StillGrown(g: Graph, refs: seq<Ref>, start: map<string, Key>, was: map<string, Key>, keys: map<string, Key>,
                   deps: map<string, Key>, slug: string)
    requires Grown(start, was) && Grown(was, keys) && Grown(deps, was) && slug in keys
    requires RefsIn(g, refs) && refs != [] && refs[|refs|-1].To? && g[refs[|refs|-1].id].slug == slug
    requires AllCached(g, refs[..|refs|-1], was)
    ensures Grown(start, keys) && Grown(deps[slug := keys[slug]], keys) && AllCached(g, refs, keys)
  {
    GrowthAdds(start, was, keys);
    assert refs == refs[..|refs|-1] + [refs[|refs|-1]];
  }

  lemma CachedKey(g: Graph, j: nat, keys: map<string, Key>)
    requires j in g && g[j].slug in keys
    ensures SlugDetermines(g) && SoundKeys(g, keys) ==> KeyOf(g, j) == Some(keys[g[j].slug])
  {
  }

  lemma StoredStaysSound(g: Graph, j: nat, keys: map<string, Key>, k: Key)
    requires j in g && (SlugDetermines(g) ==> SoundKeys(g, keys) && KeyOf(g, j) == Some(k))
    requires forall r | r in g[j].deps && r.To? :: g[r.id].slug in keys
    requires ValidKeys(keys) && ValidSlug(g[j].slug) && g[j].slug !in keys && k.slug == g[j].slug && Grown(k.deps, keys)
    ensures SlugDetermines(g) ==> SoundKeys(g, keys[g[j].slug := k])
    ensures ValidKeys(keys[g[j].slug := k])
  {
    if SlugDetermines(g) {
      StoredSound(g, j, keys, k);
    }
  }

  lemma StoredSound(g: Graph, j: nat, keys: map<string, Key>, k: Key)
    requires SlugDetermines(g) && SoundKeys(g, keys) && j in g && KeyOf(g, j) == Some(k)
    requires forall r | r in g[j].deps && r.To? :: g[r.id].slug in keys
    ensures SoundKeys(g, keys[g[j].slug := k])
  {
    var s, new' := g[j].slug, keys[g[j].slug := k];
    forall x | x in g && g[x].slug in new' ensures KeyOf(g, x) == Some(new'[g[x].slug]) {
      if g[x].slug == s {
        SameSlugSameKey(g, x, j, {});
      }
    }
    forall x, r | x in g && g[x].slug in new' && r in g[x].deps && r.To? ensures g[r.id].slug in new' {
      if g[x].slug == s {
        DepSlugsElems(g, g[x].deps);
        DepSlugsElems(g, g[j].deps);
        SameSlugElems(g, x, j);
        assert g[r.id].slug in Elems(DepSlugs(g, g[j].deps));
      }
    }
  }

  /** `Key`: exactly the jobs with a key by plain recursion get one, and it is that key. */
  method JobKey(g: Graph, j: nat, cache: KeyCache) returns (r: Result<Key, Error>)
    requires j in g && cache.Sound(g)
    modifies cache
    ensures cache.Sound(g) && Grown(old(cache.keys), cache.keys)
    ensures r.Ok? ==> g[j].slug in cache.keys && r.value == cache.keys[g[j].slug]
    ensures SlugDetermines(g) ==> KeyOf(g, j) == (if r.Ok? then Some(r.value) else None)
    ensures r.Err? ==> Blames(g, j, [], r.error)
    ensures Shallow(g, j, {}, old(cache.keys), r, cache.keys)
  {
    hide SlugDetermines, SoundKeys, Blames, Shallow;
    var w := new KeyWalk(cache);
    r := w.ComputeKey(g, j);
  }

  // ---------------------------------------------------------------- resolve

  datatype Node = Node(job: nat, slug: string, key: Key, deps: seq<string>)

  /** Every dep edge of `n` ends in an earlier node that `sameJob` found to agree. */
  ghost predicate Placed(g: Graph, before: seq<Node>, n: Node) {
    && n.job in g && n.slug == g[n.job].slug
    && StrictlySorted(n.deps)
    && Elems(n.deps) == Elems(DepSlugs(g, g[n.job].deps))
    && AllAgree(g, before, g[n.job].deps)
  }

  ghost predicate TopologicalOrder(g: Graph, order: seq<Node>) {
    && (forall i, k | 0 <= i < k < |order| :: order[i].slug != order[k].slug)
    && forall i | 0 <= i < |order| :: Placed(g, order[..i], order[i])
  }

  ghost predicate RightKeys(g: Graph, order: seq<Node>) {
    forall n | n in order && n.job in g :: KeyOf(g, n.job) == Some(n.key)
  }

  lemma AppendNode(g: Graph, order: seq<Node>, n: Node)
    requires TopologicalOrder(g, order) && Placed(g, order, n)
    requires forall m | m in order :: m.slug != n.slug
    ensures TopologicalOrder(g, order + [n])
  {
    var new' := order + [n];
    forall i | 0 <= i < |new'| ensures Placed(g, new'[..i], new'[i]) {
      if i < |order| {
        assert new'[..i] == order[..i];
        assert Placed(g, order[..i], order[i]);
      } else {
        assert new'[..i] == order;
      }
    }
  }

  /** `byslug` indexes exactly the nodes of `order`. */
  ghost predicate Indexed(byslug: map<string, Node>, order: seq<Node>) {
    && (forall n | n in order :: n.slug in byslug && byslug[n.slug] == n)
    && forall s | s in byslug :: byslug[s] in order && byslug[s].slug == s
  }

  ghost predicate AllAgree(g: Graph, order: seq<Node>, refs: seq<Ref>)
    requires RefsIn(g, refs)
  {
    Nil !in refs && forall d | d in refs :: HasAgreeing(g, order, d.id)
  }

  /** The order only grew, by nodes that `j` reaches. */
  ghost predicate GrownFrom(g: Graph, j: nat, before: seq<Node>, after: seq<Node>) {
    before <= after && forall n | n in after && n !in before :: n.job in g && Reaches(g, j, n.job)
  }

  /** What `resolve` has settled so far. */
  ghost predicate Settled(g: Graph, byslug: map<string, Node>, order: seq<Node>) {
    TopologicalOrder(g, order) && Indexed(byslug, order) && (SlugDetermines(g) ==> RightKeys(g, order))
  }

  /** Two reachable jobs, or one and a job listed before, share a slug and differ. */
  ghost predicate Differing(g: Graph, j: nat, order: seq<Node>, slug: string, x: nat, y: nat) {
    && x in g && y in g && g[x].slug == slug && g[y].slug == slug && FingerprintOf(g, x) != FingerprintOf(g, y)
    && Reaches(g, j, x) && (Reaches(g, j, y) || exists n :: n in order && n.job == y)
  }

  /** What an error of `visit` says of the graph below `j` and the nodes listed before. */
  ghost predicate Faults(g: Graph, j: nat, above: seq<string>, order: seq<Node>, e: Error) {
    Blames(g, j, above, e) || (e.Conflict? && exists x, y :: Differing(g, j, order, e.slug, x, y))
  }

  /** What a visit of `j` finds. On success a listed node that agrees with the job, the job itself if
      its slug was new, and nothing listed that `j` does not reach; never a failure when an agreeing
      node was listed; otherwise a fault. With content-determining slugs, the right key or none. */
  ghost predicate Visited(g: Graph, j: nat, above: seq<string>, before: seq<Node>, r: Result<Node, Error>, after: seq<Node>)
    requires j in g
  {
    && (HasAgreeing(g, before, j) ==> r.Ok?)
    && match r
       case Ok(n) =>
         && n in after && n.job in g && n.slug == g[j].slug && FingerprintOf(g, n.job) == FingerprintOf(g, j)
         && GrownFrom(g, j, before, after)
         && (!Listed(before, g[j].slug) ==> n.job == j)
         && (SlugDetermines(g) ==> KeyOf(g, j) == Some(n.key))
       case Err(e) => Faults(g, j, above, before, e) && (SlugDetermines(g) ==> KeyBelow(g, j, Elems(above)).None?)
  }

  lemma VisitedListed(g: Graph, j: nat, above: seq<string>, byslug: map<string, Node>, order: seq<Node>)
    requires j in g && Settled(g, byslug, order) && g[j].slug in byslug
    ensures var n := byslug[g[j].slug];
            && n.job in g
            && Visited(g, j, above, order, if FingerprintOf(g, n.job) == FingerprintOf(g, j) then Ok(n) else Err(Conflict(g[j].slug)), order)
  {
    hide SlugDetermines, FingerprintOf, TopologicalOrder, Faults, GrownFrom;
    var n := byslug[g[j].slug];
    SameSlugAgrees(g, byslug, order, j);
    AgreeingIsIndexed(g, byslug, order, j);
    if FingerprintOf(g, n.job) != FingerprintOf(g, j) {
      FaultsConflict(g, j, above, order, n);
    } else {
      GrownByNothing(g, j, order);
    }
  }

  lemma VisitedOnStack(g: Graph, j: nat, above: seq<string>, byslug: map<string, Node>, order: seq<Node>)
    requires j in g && Settled(g, byslug, order) && g[j].slug !in byslug && g[j].slug in Elems(above)
    ensures Visited(g, j, above, order, Err(Cycle(above + [g[j].slug])), order)
  {
    hide SlugDetermines, FingerprintOf, TopologicalOrder, Faults, Blames;
    AgreeingIsIndexed(g, byslug, order, j);
    InElems(above, g[j].slug);
    BlamesCycle(g, j, above);
    FaultsKey(g, j, above, order, Cycle(above + [g[j].slug]));
    NoKeyOnStack(g, j, Elems(above));
  }

  lemma VisitedFresh(g: Graph, j: nat, above: seq<string>, byslug: map<string, Node>, order: seq<Node>, n: Node, middle: seq<Node>)
    requires j in g && n.job == j && n.slug == g[j].slug && GrownFrom(g, j, order, middle)
    requires SlugDetermines(g) ==> KeyOf(g, j) == Some(n.key)
    ensures Visited(g, j, above, order, Ok(n), middle + [n])
  {
    hide SlugDetermines, FingerprintOf, GrownFrom, HasAgreeing;
    GrownBySelf(g, j, order, middle, n);
  }

  lemma VisitedFault(g: Graph, j: nat, above: seq<string>, byslug: map<string, Node>, order: seq<Node>, e: Error, now: seq<Node>)
    requires j in g && Settled(g, byslug, order) && g[j].slug !in byslug
    requires Faults(g, j, above, order, e) && (SlugDetermines(g) ==> KeyBelow(g, j, Elems(above)).None?)
    ensures Visited(g, j, above, order, Err(e), now)
  {
    hide SlugDetermines, FingerprintOf, TopologicalOrder, Faults;
    AgreeingIsIndexed(g, byslug, order, j);
  }

  lemma FaultsThrough(g: Graph, j: nat, r: Ref, above: seq<string>, before: seq<Node>, after: seq<Node>, e: Error)
    requires j in g && r in g[j].deps && r.To? && GrownFrom(g, j, before, after)
    requires Faults(g, r.id, above + [g[j].slug], after, e)
    ensures Faults(g, j, above, before, e)
  {
    hide Blames, Reaches, FingerprintOf;
    if Blames(g, r.id, above + [g[j].slug], e) {
      BlamesThrough(g, j, r, above, e);
    } else {
      var x: nat, y: nat :| Differing(g, r.id, after, e.slug, x, y);
      ReachesThrough(g, j, r, x);
      if Reaches(g, r.id, y) {
        ReachesThrough(g, j, r, y);
      }
      assert Differing(g, j, before, e.slug, x, y);
    }
  }

  lemma FaultsKey(g: Graph, j: nat, above: seq<string>, before: seq<Node>, e: Error)
    requires Blames(g, j, above, e)
    ensures Faults(g, j, above, before, e)
  {
    hide Blames;
  }

  lemma FaultsConflict(g: Graph, j: nat, above: seq<string>, order: seq<Node>, n: Node)
    requires j in g && n in order && n.job in g && g[n.job].slug == g[j].slug && FingerprintOf(g, n.job) != FingerprintOf(g, j)
    ensures Faults(g, j, above, order, Conflict(g[j].slug))
  {
    ReachesItself(g, j);
    hide Reaches, FingerprintOf;
    assert Differing(g, j, order, g[j].slug, j, n.job);
  }

  /** The node's key is the hash of its own document over the keys of the listed nodes it depends on. */
  ghost predicate ChainedNode(g: Graph, order: seq<Node>, n: Node) {
    && ValidSlug(n.slug) && n.job in g && n.key.name == g[n.job].name && n.key.slug == n.slug && n.key.inputs == g[n.job].inputs
    && n.key.deps.Keys == Elems(n.deps)
    && forall m | m in order && m.slug in n.deps :: n.key.deps[m.slug] == m.key
  }

  ghost predicate Chained(g: Graph, order: seq<Node>) {
    forall n | n in order :: ChainedNode(g, order, n)
  }

  /** The key's document is the job's own. */
  ghost predicate KeyHasDoc(g: Graph, j: nat, k: Key)
    requires j in g
  {
    k.name == g[j].name && k.slug == g[j].slug && k.inputs == g[j].inputs && k.deps.Keys == Elems(DepSlugs(g, g[j].deps))
  }

  /** The node has the cached key of its slug, and that is made from its own job's document unless it
      was in the cache at the start. */
  ghost predicate KeyedNode(g: Graph, start: map<string, Key>, keys: map<string, Key>, n: Node) {
    && n.job in g && n.slug in keys && n.key == keys[n.slug]
    && (n.slug !in start ==> KeyHasDoc(g, n.job, n.key))
  }

  /** Nodes listed by a resolve that found the cache as `start` and left it as `keys`. */
  ghost predicate FromCache(g: Graph, start: map<string, Key>, keys: map<string, Key>, order: seq<Node>) {
    ValidKeys(keys) && Grown(start, keys) && forall n | n in order :: KeyedNode(g, start, keys, n)
  }

  /** The cache has grown by the keys of the listed nodes and nothing else. */
  ghost predicate Mirrors(g: Graph, start: map<string, Key>, keys: map<string, Key>, byslug: map<string, Node>,
                          order: seq<Node>) {
    && keys.Keys == start.Keys + byslug.Keys && Grown(start, keys)
    && forall n | n in order :: KeyedNode(g, start, keys, n)
  }

  lemma AgreeingIsCached(g: Graph, byslug: map<string, Node>, order: seq<Node>, keys: map<string, Key>, refs: seq<Ref>)
    requires RefsIn(g, refs) && AllAgree(g, order, refs) && Indexed(byslug, order) && byslug.Keys <= keys.Keys
    ensures AllCached(g, refs, keys)
  {
    hide FingerprintOf;
    forall d | d in refs ensures d.To? && g[d.id].slug in keys {
      assert HasAgreeing(g, order, d.id);
    }
  }

  lemma NewHasDoc(g: Graph, j: nat, keys: map<string, Key>)
    requires j in g && AllCached(g, g[j].deps, keys)
    ensures KeyHasDoc(g, j, ShallowKey(g, j, keys))
  {
    ShallowDepsAre(g, g[j].deps, keys);
    hide Elems, ShallowDeps, DepSlugs, AllCached;
  }

  /** The nodes of a plan chain exactly when every node's key is made from its own job's document:
      a key found in the cache may have been made from another job of that slug. */
  lemma ChainsExactly(g: Graph, start: map<string, Key>, keys: map<string, Key>, order: seq<Node>)
    requires TopologicalOrder(g, order) && FromCache(g, start, keys, order)
    ensures Chained(g, order) <==> forall n | n in order :: n.job in g && KeyHasDoc(g, n.job, n.key)
  {
    hide AllAgree, DepSlugs, Elems, StrictlySorted, ValidSlug;
    forall n | n in order ensures n.job in g && (ChainedNode(g, order, n) <==> KeyHasDoc(g, n.job, n.key)) {
      var i :| 0 <= i < |order| && order[i] == n;
      assert Placed(g, order[..i], n);
      assert KeyedNode(g, start, keys, n);
      forall m | m in order && m.slug in n.key.deps ensures n.key.deps[m.slug] == m.key {
        assert KeyedNode(g, start, keys, m);
      }
      DepsInElems(n.deps, n.key.deps);
    }
  }

  lemma DepsInElems(deps: seq<string>, keys: map<string, Key>)
    ensures keys.Keys == Elems(deps) ==> forall d :: d in deps <==> d in keys
  {
  }

  lemma AgreeingAt(g: Graph, order: seq<Node>, d: nat) returns (k: nat)
    requires d in g && HasAgreeing(g, order, d)
    ensures k < |order| && order[k].slug == g[d].slug
  {
    hide FingerprintOf;
    var m :| m in order && m.slug == g[d].slug;
    k :| 0 <= k < |order| && order[k] == m;
  }

  /** Every dep slug of a listed node is listed before it. */
  lemma DepIsEarlier(g: Graph, order: seq<Node>, i: nat, d: string) returns (k: nat)
    requires TopologicalOrder(g, order) && i < |order| && d in order[i].deps
    ensures k < i && order[k].slug == d
  {
    var n := order[i];
    assert Placed(g, order[..i], n);
    DepSlugsElems(g, g[n.job].deps);
    assert d in Elems(n.deps);
    var r :| r in g[n.job].deps && r.To? && g[r.id].slug == d;
    assert HasAgreeing(g, order[..i], r.id);
    hide TopologicalOrder, Placed, Elems, DepSlugs, FingerprintOf;
    k := AgreeingAt(g, order[..i], r.id);
  }

  lemma SettleNode(g: Graph, byslug: map<string, Node>, order: seq<Node>, n: Node, deps: seq<string>)
    requires Settled(g, byslug, order) && n.slug !in byslug
    requires n.job in g && n.slug == g[n.job].slug && n.deps == Sort(deps)
    requires AllAgree(g, order, g[n.job].deps) && Elems(deps) == Elems(DepSlugs(g, g[n.job].deps))
    requires SlugDetermines(g) ==> KeyOf(g, n.job) == Some(n.key)
    ensures Settled(g, byslug[n.slug := n], order + [n])
  {
    hide SlugDetermines, Sort, DepSlugs, AllAgree, Elems;
    SortSorted(deps);
    AppendNode(g, order, n);
  }

  /** With all deps cached, the key is the cached one or a new one made from the job's document. */
  lemma FinishedKey(g: Graph, n: Node, before: map<string, Key>, after: map<string, Key>)
    requires n.job in g && n.slug == g[n.job].slug && AllCached(g, g[n.job].deps, before)
    requires Shallow(g, n.job, {}, before, Ok(n.key), after) && ValidKeys(after) && n.slug in after
    ensures n.slug in before ==> after == before && n.key == before[n.slug]
    ensures n.slug !in before ==> after == before[n.slug := n.key] && KeyHasDoc(g, n.job, n.key)
  {
    NewHasDoc(g, n.job, before);
    hide AllCached, KeyHasDoc, ShallowKey, ValidSlug;
  }

  lemma MirrorsMore(g: Graph, start: map<string, Key>, byslug: map<string, Node>, order: seq<Node>, n: Node,
                    before: map<string, Key>, after: map<string, Key>)
    requires Mirrors(g, start, before, byslug, order) && n.slug !in byslug && n.job in g
    requires n.slug in before ==> after == before && n.key == before[n.slug]
    requires n.slug !in before ==> after == before[n.slug := n.key] && KeyHasDoc(g, n.job, n.key)
    ensures Mirrors(g, start, after, byslug[n.slug := n], order + [n])
  {
    hide KeyHasDoc;
    assert after.Keys == start.Keys + byslug[n.slug := n].Keys;
    forall m | m in order + [n] ensures KeyedNode(g, start, after, m) {
      assert m in order ==> KeyedNode(g, start, before, m);
    }
  }

  lemma SettleKey(g: Graph, start: map<string, Key>, byslug: map<string, Node>, order: seq<Node>, n: Node,
                  before: map<string, Key>, after: map<string, Key>)
    requires Settled(g, byslug, order) && n.slug !in byslug && Mirrors(g, start, before, byslug, order)
    requires n.job in g && n.slug == g[n.job].slug && AllAgree(g, order, g[n.job].deps)
    requires Shallow(g, n.job, {}, before, Ok(n.key), after) && ValidKeys(after) && n.slug in after
    ensures Mirrors(g, start, after, byslug[n.slug := n], order + [n])
  {
    hide TopologicalOrder, SlugDetermines, AllAgree;
    AgreeingIsCached(g, byslug, order, before, g[n.job].deps);
    FinishedKey(g, n, before, after);
    hide Mirrors, AllCached, KeyHasDoc, Shallow, ValidKeys, Indexed;
    MirrorsMore(g, start, byslug, order, n, before, after);
  }

  /** The state of one `resolve` call. */
  class Resolution {
    const cache: KeyCache
    var byslug: map<string, Node>
    var order: seq<Node>
    var onStack: set<string>
    var path: seq<string>

    ghost const start: map<string, Key>

    constructor (cache: KeyCache)
      ensures this.cache == cache && byslug == map[] && order == [] && onStack == {} && path == []
      ensures start == cache.keys
    {
      this.cache := cache;
      start := cache.keys;
      byslug, order, onStack, path := map[], [], {}, [];
    }

    ghost predicate Valid(g: Graph)
      reads this, cache
    {
      && cache.Sound(g)
      && Settled(g, byslug, order)
      && onStack == Elems(path)
      && onStack !! byslug.Keys
      && Mirrors(g, start, cache.keys, byslug, order)
    }

    method Visit(g: Graph, j: nat) returns (r: Result<Node, Error>)
      requires j in g && Valid(g)
      modifies this, cache
      ensures r.Ok? ==> Valid(g) && onStack == old(onStack) && path == old(path)
      ensures Visited(g, j, old(path), old(order), r, order)
      ensures cache.Sound(g)
      decreases |Slugs(g) - onStack|, 1
    {
      hide SlugDetermines, SoundKeys, ClosesCycle, Settled, AllAgree, FingerprintOf, Visited;
      hide Mirrors, ValidKeys, Elems;
      var slug := g[j].slug;
      if slug in byslug {
        var n := byslug[slug];
        VisitedListed(g, j, path, byslug, order);
        if FingerprintOf(g, n.job) != FingerprintOf(g, j) {
          return Err(Conflict(slug));
        }
        return Ok(n);
      }
      if slug in onStack {
        VisitedOnStack(g, j, path, byslug, order);
        return Err(Cycle(path + [slug]));
      }
      r := VisitFresh(g, j);
    }

    /** The rest of `visit`, for a slug met for the first time. */
    method VisitFresh(g: Graph, j: nat) returns (r: Result<Node, Error>)
      requires j in g && Valid(g)
      requires g[j].slug !in byslug && g[j].slug !in onStack
      modifies this, cache
      ensures r.Ok? ==> Valid(g) && onStack == old(onStack) && path == old(path)
      ensures Visited(g, j, old(path), old(order), r, order)
      ensures cache.Sound(g)
      decreases |Slugs(g) - onStack|, 0
    {
      hide SlugDetermines, SoundKeys, ClosesCycle, Settled, GrownFrom, AllAgree, Faults, Elems, KeyBelow, DepKeys;
      hide Mirrors, ValidKeys, DepSlugs, Visited;
      var slug := g[j].slug;
      PathGrows(g, j, onStack);
      ghost var above, nodes, was := path, byslug, order;
      PushPop(path, slug);
      onStack, path := onStack + {slug}, path + [slug];
      var deps := VisitDeps(g, j);
      if deps.Err? {
        NoDepsNoKey(g, j, Elems(above));
        VisitedFault(g, j, above, nodes, was, deps.error, order);
        return Err(deps.error);
      }
      onStack, path := onStack - {slug}, path[..|path|-1];
      assert path == above && onStack == Elems(above);
      ghost var before := order;
      r := Finish(g, j, deps.value);
      if r.Err? {
        BlamesBelow(g, j, above, r.error);
        FaultsKey(g, j, above, was, r.error);
        NoKeyAnywhere(g, j, Elems(above));
        VisitedFault(g, j, above, nodes, was, r.error, order);
      } else {
        VisitedFresh(g, j, above, nodes, was, r.value, before);
      }
    }

    /** The end of `visit`: the key, the sorted dep list, the new node. */
    method Finish(g: Graph, j: nat, deps: seq<string>) returns (r: Result<Node, Error>)
      requires j in g && Valid(g) && g[j].slug !in byslug && g[j].slug !in onStack
      requires AllAgree(g, order, g[j].deps) && Elems(deps) == Elems(DepSlugs(g, g[j].deps))
      modifies this`byslug, this`order, cache
      ensures r.Ok? ==> Valid(g)
      ensures r.Ok? ==> r.value.job == j && r.value.slug == g[j].slug && order == old(order) + [r.value]
      ensures SlugDetermines(g) ==> KeyOf(g, j) == (if r.Ok? then Some(r.value.key) else None)
      ensures r.Err? ==> Blames(g, j, [], r.error)
      ensures cache.Sound(g)
    {
      hide SlugDetermines, SoundKeys, ClosesCycle, Settled, AllAgree, Blames, Mirrors, Shallow, ValidKeys, Elems, DepSlugs;
      hide ValidSlug;
      ghost var before := cache.keys;
      var k := JobKey(g, j, cache);
      if k.Err? {
        return Err(k.error);
      }
      var n := Node(j, g[j].slug, k.value, Sort(deps));
      SettleKey(g, start, byslug, order, n, before, cache.keys);
      SettleNode(g, byslug, order, n, deps);
      order, byslug := order + [n], byslug[n.slug := n];
      return Ok(n);
    }

    /** The loop of `visit` over the deps of the job on top of the stack; the result lists each
        dep slug once, in the order met. */
    method VisitDeps(g: Graph, j: nat) returns (r: Result<seq<string>, Error>)
      requires j in g && Valid(g) && |path| > 0 && path[|path|-1] == g[j].slug
      modifies this, cache
      ensures r.Ok? ==> Valid(g) && onStack == old(onStack) && path == old(path)
      ensures r.Ok? ==> AllAgree(g, order, g[j].deps) && Elems(r.value) == Elems(DepSlugs(g, g[j].deps))
      ensures r.Ok? ==> GrownFrom(g, j, old(order), order)
      ensures r.Err? && SlugDetermines(g) ==> DepKeys(g, g[j].deps, old(onStack)).None?
      ensures r.Err? ==> Faults(g, j, old(path)[..|old(path)|-1], old(order), r.error)
      ensures cache.Sound(g)
      decreases |Slugs(g) - onStack|, 2
    {
      hide SlugDetermines, SoundKeys, ClosesCycle, Settled, GrownFrom, AllAgree, DepSlugs, KeyBelow, DepKeys, FingerprintOf;
      hide HasAgreeing, Faults, Blames, Mirrors, ValidKeys;
      var refs := g[j].deps;
      ghost var above := path[..|path|-1];
      BlamesSelf(g, j, above);
      DepKeysSome(g, refs, onStack);
      GrownByNothing(g, j, order);
      assert AllAgree(g, order, []) by { NothingToAgree(g, order); }
      assert above + [g[j].slug] == path;
      EmptyDepSlugs(g);
      var deps, seen := [], {};
      for i := 0 to |refs|
        invariant Valid(g) && onStack == old(onStack) && path == old(path)
        invariant AllAgree(g, order, refs[..i]) && GrownFrom(g, j, old(order), order)
        invariant Elems(deps) == Elems(DepSlugs(g, refs[..i])) && seen == Elems(deps)
      {
        var d := refs[i];
        assert refs[..i+1][..i] == refs[..i] && refs[..i+1] == refs[..i] + [d];
        assert d in refs;
        if d.Nil? {
          FaultsKey(g, j, above, old(order), NilDep(g[j].slug));
          return Err(NilDep(g[j].slug));
        }
        ghost var before := order;
        var dn := Visit(g, d.id);
        if dn.Err? {
          FaultsThrough(g, j, d, above, old(order), before, dn.error);
          return Err(dn.error);
        }
        GrownThrough(g, j, d, old(order), before, order);
        DepVisited(g, before, order, dn.value, refs[..i+1], deps);
        if dn.value.slug !in seen {
          seen := seen + {dn.value.slug};
          deps := deps + [dn.value.slug];
        }
      }
      assert refs[..|refs|] == refs;
      return Ok(deps);
    }
  }

  ghost predicate HasAgreeing(g: Graph, order: seq<Node>, d: nat)
    requires d in g
  {
    exists m :: m in order && m.slug == g[d].slug && m.job in g && FingerprintOf(g, m.job) == FingerprintOf(g, d)
  }

  lemma AgreeingIsIndexed(g: Graph, byslug: map<string, Node>, order: seq<Node>, j: nat)
    requires j in g && Settled(g, byslug, order)
    ensures HasAgreeing(g, order, j) ==>
              g[j].slug in byslug && byslug[g[j].slug].job in g && FingerprintOf(g, byslug[g[j].slug].job) == FingerprintOf(g, j)
  {
    hide FingerprintOf, TopologicalOrder, SlugDetermines;
  }

  lemma NoKeyOnStack(g: Graph, j: nat, stack: set<string>)
    requires j in g && g[j].slug in stack
    ensures KeyBelow(g, j, stack).None?
  {
  }

  lemma NoDepsNoKey(g: Graph, j: nat, stack: set<string>)
    requires j in g
    ensures DepKeys(g, g[j].deps, stack + {g[j].slug}).None? ==> KeyBelow(g, j, stack).None?
  {
    hide DepKeys;
  }

  lemma EmptyDepSlugs(g: Graph)
    ensures DepSlugs(g, []) == []
  {
  }

  lemma NothingToAgree(g: Graph, order: seq<Node>)
    ensures AllAgree(g, order, [])
  {
  }

  lemma GrownByNothing(g: Graph, j: nat, a: seq<Node>)
    ensures GrownFrom(g, j, a, a)
  {
  }

  lemma GrownBySelf(g: Graph, j: nat, a: seq<Node>, b: seq<Node>, n: Node)
    requires j in g && n.job == j && GrownFrom(g, j, a, b)
    ensures GrownFrom(g, j, a, b + [n])
  {
    hide Reaches;
    ReachesItself(g, j);
  }

  lemma GrownThrough(g: Graph, j: nat, d: Ref, a: seq<Node>, b: seq<Node>, c: seq<Node>)
    requires j in g && d in g[j].deps && d.To? && GrownFrom(g, j, a, b) && GrownFrom(g, d.id, b, c)
    ensures GrownFrom(g, j, a, c) && b <= c
  {
    hide Reaches;
    forall n | n in c && n !in a ensures n.job in g && Reaches(g, j, n.job) {
      if n !in b {
        ReachesThrough(g, j, d, n.job);
      }
    }
  }

  lemma SameSlugAgrees(g: Graph, byslug: map<string, Node>, order: seq<Node>, j: nat)
    requires j in g && g[j].slug in byslug && Settled(g, byslug, order)
    ensures var n := byslug[g[j].slug];
            && n in order && n.slug == g[j].slug && n.job in g && g[n.job].slug == n.slug
            && (SlugDetermines(g) ==> FingerprintOf(g, n.job) == FingerprintOf(g, j) && KeyOf(g, j) == Some(n.key))
  {
    var n := byslug[g[j].slug];
    var i :| 0 <= i < |order| && order[i] == n;
    assert Placed(g, order[..i], order[i]);
    if SlugDetermines(g) {
      SameSlugSameKey(g, n.job, j, {});
    }
  }

  lemma DepVisited(g: Graph, before: seq<Node>, order: seq<Node>, n: Node, refs: seq<Ref>, deps: seq<string>)
    requires RefsIn(g, refs) && refs != [] && refs[|refs|-1].To?
    requires before <= order && AllAgree(g, before, refs[..|refs|-1])
    requires n in order && n.job in g && n.slug == g[refs[|refs|-1].id].slug
    requires FingerprintOf(g, n.job) == FingerprintOf(g, refs[|refs|-1].id)
    requires Elems(deps) == Elems(DepSlugs(g, refs[..|refs|-1]))
    ensures AllAgree(g, order, refs)
    ensures Elems(if n.slug in deps then deps else deps + [n.slug]) == Elems(DepSlugs(g, refs))
    ensures Elems(deps + [n.slug]) == Elems(deps) + {n.slug}
  {
    hide Elems, FingerprintOf;
    ElemsOne(n.slug);
    ElemsConcat(deps, [n.slug]);
    ElemsConcat(DepSlugs(g, refs[..|refs|-1]), [n.slug]);
    InElems(deps, n.slug);
    assert Elems(DepSlugs(g, refs)) == Elems(deps) + {n.slug};
    assert HasAgreeing(g, order, refs[|refs|-1].id);
    AllAgreeMore(g, before, order, refs);
  }

  lemma InElems<T>(s: seq<T>, x: T)
    ensures x in Elems(s) <==> x in s
  {
  }

  lemma AllAgreeMore(g: Graph, before: seq<Node>, order: seq<Node>, refs: seq<Ref>)
    requires RefsIn(g, refs) && refs != [] && refs[|refs|-1].To? && HasAgreeing(g, order, refs[|refs|-1].id)
    requires before <= order && AllAgree(g, before, refs[..|refs|-1])
    ensures AllAgree(g, order, refs)
  {
    hide FingerprintOf;
    forall d | d in refs ensures d.To? && HasAgreeing(g, order, d.id) {
      if d in refs[..|refs|-1] {
        var m :| m in before && m.slug == g[d.id].slug && m.job in g && FingerprintOf(g, m.job) == FingerprintOf(g, d.id);
        assert m in order;
      }
    }
  }

  lemma NoKeyAnywhere(g: Graph, j: nat, path: set<string>)
    requires j in g
    ensures KeyOf(g, j).None? ==> KeyBelow(g, j, path).None?
  {
    if KeyBelow(g, j, path).Some? {
      KeyIgnoresPath(g, j, {}, path);
    }
  }

  ghost predicate Listed(order: seq<Node>, slug: string) {
    exists n :: n in order && n.slug == slug
  }

  ghost predicate ReachedFrom(g: Graph, roots: seq<Ref>, x: nat)
    requires RefsIn(g, roots)
  {
    exists r :: r in roots && r.To? && Reaches(g, r.id, x)
  }

  ghost predicate ReachedSlugs(g: Graph, roots: seq<Ref>, slug: string)
    requires RefsIn(g, roots)
  {
    exists x :: x in g && g[x].slug == slug && ReachedFrom(g, roots, x)
  }

  /** The nodes `resolve` returns: topologically ordered, no two sharing a slug, no job beyond what
      the roots reach, and every root agreeing with a node. */
  ghost predicate IsPlan(g: Graph, roots: seq<Ref>, order: seq<Node>)
    requires RefsIn(g, roots)
  {
    && TopologicalOrder(g, order)
    && AllAgree(g, order, roots)
    && forall n | n in order :: n.job in g && n.slug == g[n.job].slug && ReachedFrom(g, roots, n.job)
  }

  /** When slugs determine content, a plan lists exactly what the roots reach. */
  lemma PlanListsReachable(g: Graph, roots: seq<Ref>, order: seq<Node>, slug: string)
    requires RefsIn(g, roots) && SlugDetermines(g) && IsPlan(g, roots, order)
    ensures Listed(order, slug) <==> ReachedSlugs(g, roots, slug)
  {
    hide SlugDetermines, TopologicalOrder, ReachesSlug, Reaches, ReachedFrom, FingerprintOf;
    if ReachedSlugs(g, roots, slug) {
      var x: nat :| x in g && g[x].slug == slug && ReachedFrom(g, roots, x);
      var r := RootOf(g, roots, x);
      ReachedSlug(g, r.id, x);
      assert HasAgreeing(g, order, r.id);
      ReachedIsListed(g, order, r.id, slug);
    }
  }

  lemma RootOf(g: Graph, roots: seq<Ref>, x: nat) returns (r: Ref)
    requires RefsIn(g, roots) && ReachedFrom(g, roots, x)
    ensures r in roots && r.To? && Reaches(g, r.id, x)
  {
    r :| r in roots && r.To? && Reaches(g, r.id, x);
  }

  lemma ReachedIsListed(g: Graph, order: seq<Node>, j: nat, slug: string)
    requires SlugDetermines(g) && TopologicalOrder(g, order)
    requires j in g && Listed(order, g[j].slug) && ReachesSlug(g, j, slug)
    ensures Listed(order, slug)
  {
    hide SlugDetermines, TopologicalOrder;
    var p :| PathFrom(g, j, p) && g[p[|p|-1]].slug == slug;
    PathStaysListed(g, order, p);
  }

  lemma {:induction false} PathStaysListed(g: Graph, order: seq<Node>, p: seq<nat>)
    requires SlugDetermines(g) && TopologicalOrder(g, order) && IsPath(g, p) && Listed(order, g[p[0]].slug)
    ensures Listed(order, g[p[|p|-1]].slug)
    decreases |p|
  {
    if |p| > 1 {
      PathTail(g, p);
      DepListed(g, order, p[0], To(p[1]));
      PathStaysListed(g, order, p[1..]);
    }
  }

  lemma DepListed(g: Graph, order: seq<Node>, j: nat, r: Ref)
    requires SlugDetermines(g) && TopologicalOrder(g, order)
    requires j in g && r in g[j].deps && r.To? && Listed(order, g[j].slug)
    ensures Listed(order, g[r.id].slug)
  {
    var i :| 0 <= i < |order| && order[i].slug == g[j].slug;
    assert Placed(g, order[..i], order[i]);
    var m := order[i].job;
    SameSlugElems(g, j, m);
    DepSlugsElems(g, g[j].deps);
    DepSlugsElems(g, g[m].deps);
    assert g[r.id].slug in Elems(DepSlugs(g, g[m].deps));
    var q :| q in g[m].deps && q.To? && g[q.id].slug == g[r.id].slug;
    assert HasAgreeing(g, order[..i], q.id);
  }

  /** An earlier root has the same slug and fingerprint as root i. */
  ghost predicate AgreesEarlier(g: Graph, roots: seq<Ref>, i: nat)
    requires RefsIn(g, roots) && i < |roots| && roots[i].To?
  {
    exists k | 0 <= k < i :: roots[k].To? && SameOneLevel(g, roots[k].id, roots[i].id)
  }

  /** What `sameJob` checks of two jobs with one slug. */
  ghost predicate SameOneLevel(g: Graph, x: nat, y: nat) {
    x in g && y in g && g[x].slug == g[y].slug && FingerprintOf(g, x) == FingerprintOf(g, y)
  }

  /** Two jobs with one slug that differ, one below root i and one below it or an earlier root. */
  ghost predicate RootsDiffer(g: Graph, roots: seq<Ref>, i: nat, slug: string, x: nat, y: nat)
    requires RefsIn(g, roots) && i < |roots| && roots[i].To?
  {
    && x in g && y in g && g[x].slug == slug && g[y].slug == slug && FingerprintOf(g, x) != FingerprintOf(g, y)
    && Reaches(g, roots[i].id, x) && ReachedFrom(g, roots[..i+1], y)
  }

  /** What makes `resolve` fail at root i: a nil root, or a root that no earlier one agrees with and
      that reaches an unusable slug, a nil dep, a cycle, or a job that differs from another of its slug. */
  ghost predicate FaultyRoot(g: Graph, roots: seq<Ref>, i: nat, e: Error)
    requires RefsIn(g, roots) && i < |roots|
  {
    if roots[i].Nil? then e == NilRoot
    else
      && !AgreesEarlier(g, roots, i)
      && (Blames(g, roots[i].id, [], e) || (e.Conflict? && exists x, y :: RootsDiffer(g, roots, i, e.slug, x, y)))
  }

  ghost predicate SomeRootFaulty(g: Graph, roots: seq<Ref>, e: Error)
    requires RefsIn(g, roots)
  {
    exists i | 0 <= i < |roots| :: FaultyRoot(g, roots, i, e)
  }

  /** Every node's job lies below one of the roots, and the first root's own job is listed. */
  ghost predicate Covered(g: Graph, roots: seq<Ref>, i: nat, order: seq<Node>)
    requires RefsIn(g, roots) && i <= |roots|
  {
    && (forall n | n in order :: n.job in g && n.slug == g[n.job].slug && ReachedFrom(g, roots[..i], n.job))
    && (i > 0 ==> roots[0].To? && exists n :: n in order && n.job == roots[0].id)
  }

  /** `resolve`: a plan on success, and a fault of some root on failure. From an empty cache the keys
      of a plan chain. With content-determining slugs it succeeds exactly when every root is a job with
      a key, and then each node carries that key. */
  method Resolve(g: Graph, roots: seq<Ref>, cache: KeyCache) returns (r: Result<seq<Node>, Error>)
    requires RefsIn(g, roots) && cache.Sound(g)
    modifies cache
    ensures cache.Sound(g)
    ensures r.Ok? ==> IsPlan(g, roots, r.value) && Covered(g, roots, |roots|, r.value)
    ensures r.Err? ==> SomeRootFaulty(g, roots, r.error)
    ensures r.Ok? ==> FromCache(g, old(cache.keys), cache.keys, r.value)
    ensures r.Ok? && old(cache.keys) == map[] ==> Chained(g, r.value)
    ensures SlugDetermines(g) ==> (r.Ok? <==> forall j | j in roots :: j.To? && KeyOf(g, j.id).Some?)
    ensures SlugDetermines(g) && r.Ok? ==> RightKeys(g, r.value)
  {
    hide SlugDetermines, SoundKeys, ClosesCycle, Settled, GrownFrom, AllAgree, Covered, FaultyRoot, Faults, HasAgreeing;
    hide Mirrors, ValidKeys, FingerprintOf, FromCache;
    var s := new Resolution(cache);
    EmptyPlan(g, roots);
    for i := 0 to |roots|
      invariant s.Valid(g) && s.onStack == {} && s.path == [] && s.cache == cache && fresh(s)
      invariant AllAgree(g, s.order, roots[..i]) && Covered(g, roots, i, s.order)
      invariant i == 0 ==> s.order == []
      invariant s.start == old(cache.keys)
      invariant SlugDetermines(g) ==> forall j | j in roots[..i] :: j.To? && KeyOf(g, j.id).Some?
    {
      var j := roots[i];
      assert j in roots && roots[..i+1] == roots[..i] + [j];
      if j.Nil? {
        assert FaultyRoot(g, roots, i, NilRoot) by { NilIsFaulty(g, roots, i); }
        return Err(NilRoot);
      }
      ghost var before := s.order;
      var n := s.Visit(g, j.id);
      if n.Err? {
        RootFaults(g, roots, i, before, n.error);
        assert FaultyRoot(g, roots, i, n.error);
        return Err(n.error);
      }
      RootVisited(g, roots, i, before, s.order, n.value);
      RootCovered(g, roots, i, before, s.order, n.value, s.byslug);
    }
    assert roots[..|roots|] == roots;
    SettledPlan(g, roots, s.byslug, s.order);
    ListedFromCache(g, s.start, cache.keys, s.byslug, s.order);
    return Ok(s.order);
  }

  lemma ListedFromCache(g: Graph, start: map<string, Key>, keys: map<string, Key>, byslug: map<string, Node>, order: seq<Node>)
    requires TopologicalOrder(g, order) && ValidKeys(keys) && Mirrors(g, start, keys, byslug, order)
    ensures FromCache(g, start, keys, order)
    ensures start == map[] ==> Chained(g, order)
  {
    hide TopologicalOrder, ValidKeys, Chained, KeyHasDoc;
    ChainsExactly(g, start, keys, order);
  }

  lemma NilIsFaulty(g: Graph, roots: seq<Ref>, i: nat)
    requires RefsIn(g, roots) && i < |roots| && roots[i].Nil?
    ensures FaultyRoot(g, roots, i, NilRoot)
  {
  }

  lemma EarlierAgrees(g: Graph, roots: seq<Ref>, i: nat, order: seq<Node>)
    requires RefsIn(g, roots) && i < |roots| && roots[i].To? && AllAgree(g, order, roots[..i])
    ensures AgreesEarlier(g, roots, i) ==> HasAgreeing(g, order, roots[i].id)
  {
    hide FingerprintOf;
    if AgreesEarlier(g, roots, i) {
      var k :| 0 <= k < i && roots[k].To? && SameOneLevel(g, roots[k].id, roots[i].id);
      assert roots[..i][k] == roots[k];
      assert HasAgreeing(g, order, roots[k].id);
    }
  }

  lemma RootFaults(g: Graph, roots: seq<Ref>, i: nat, before: seq<Node>, e: Error)
    requires RefsIn(g, roots) && i < |roots| && roots[i].To? && Faults(g, roots[i].id, [], before, e)
    requires Covered(g, roots, i, before) && AllAgree(g, before, roots[..i]) && !HasAgreeing(g, before, roots[i].id)
    ensures FaultyRoot(g, roots, i, e)
  {
    hide Blames, Reaches, FingerprintOf;
    var j := roots[i].id;
    EarlierAgrees(g, roots, i, before);
    if !Blames(g, j, [], e) {
      var x: nat, y: nat :| Differing(g, j, before, e.slug, x, y);
      assert roots[..i+1][i] == roots[i];
      if !Reaches(g, j, y) {
        var n :| n in before && n.job == y;
        var r := RootOf(g, roots[..i], y);
        assert r in roots[..i+1];
      }
      assert RootsDiffer(g, roots, i, e.slug, x, y);
    }
  }

  lemma SettledPlan(g: Graph, roots: seq<Ref>, byslug: map<string, Node>, order: seq<Node>)
    requires RefsIn(g, roots) && Settled(g, byslug, order) && AllAgree(g, order, roots) && Covered(g, roots, |roots|, order)
    ensures IsPlan(g, roots, order) && (SlugDetermines(g) ==> RightKeys(g, order))
  {
    assert roots[..|roots|] == roots;
    hide SlugDetermines, TopologicalOrder, AllAgree;
  }

  lemma EmptyPlan(g: Graph, roots: seq<Ref>)
    requires RefsIn(g, roots)
    ensures Settled(g, map[], []) && AllAgree(g, [], []) && Covered(g, roots, 0, [])
    ensures forall keys :: Mirrors(g, keys, keys, map[], [])
  {
    hide SlugDetermines;
  }

  lemma RootVisited(g: Graph, roots: seq<Ref>, i: nat, before: seq<Node>, order: seq<Node>, n: Node)
    requires RefsIn(g, roots) && i < |roots| && roots[i].To? && n in order && n.job in g
    requires n.slug == g[roots[i].id].slug && FingerprintOf(g, n.job) == FingerprintOf(g, roots[i].id)
    requires AllAgree(g, before, roots[..i]) && GrownFrom(g, roots[i].id, before, order)
    ensures AllAgree(g, order, roots[..i+1])
  {
    assert roots[..i+1] == roots[..i] + [roots[i]] && roots[..i+1][..i] == roots[..i];
    hide FingerprintOf, Reaches;
    assert HasAgreeing(g, order, roots[i].id);
    AllAgreeMore(g, before, order, roots[..i+1]);
  }

  lemma RootCovered(g: Graph, roots: seq<Ref>, i: nat, before: seq<Node>, order: seq<Node>, n: Node, byslug: map<string, Node>)
    requires RefsIn(g, roots) && i < |roots| && roots[i].To? && n in order && (i == 0 ==> n.job == roots[0].id)
    requires Covered(g, roots, i, before) && GrownFrom(g, roots[i].id, before, order) && Settled(g, byslug, order)
    ensures Covered(g, roots, i + 1, order)
  {
    hide Reaches, SlugDetermines, TopologicalOrder, Indexed, ReachedFrom;
    forall m | m in order ensures m.job in g && m.slug == g[m.job].slug && ReachedFrom(g, roots[..i+1], m.job) {
      PlanPlaces(g, order, m);
      if m in before {
        ReachedFromMore(g, roots, i, m.job);
      } else {
        ReachedFromRoot(g, roots, i, m.job);
      }
    }
  }

  lemma ReachedFromMore(g: Graph, roots: seq<Ref>, i: nat, x: nat)
    requires RefsIn(g, roots) && i < |roots| && ReachedFrom(g, roots[..i], x)
    ensures ReachedFrom(g, roots[..i+1], x)
  {
    hide Reaches;
    var r := RootOf(g, roots[..i], x);
    assert r in roots[..i+1];
  }

  lemma ReachedFromRoot(g: Graph, roots: seq<Ref>, i: nat, x: nat)
    requires RefsIn(g, roots) && i < |roots| && roots[i].To? && Reaches(g, roots[i].id, x)
    ensures ReachedFrom(g, roots[..i+1], x)
  {
    hide Reaches;
    assert roots[..i+1][i] == roots[i];
  }

  /** A resolved plan chains the keys together: each node's key is the hash of its own document
      over the keys of its dep nodes. */
  lemma PlanChainsKeys(g: Graph, roots: seq<Ref>, order: seq<Node>, n: Node)
    requires RefsIn(g, roots) && SlugDetermines(g) && IsPlan(g, roots, order) && RightKeys(g, order) && n in order
    ensures n.job in g && n.key.slug == n.slug && n.key.deps.Keys == Elems(n.deps)
    ensures forall m | m in order && m.slug in n.deps :: n.key.deps[m.slug] == m.key
  {
    hide SlugDetermines, TopologicalOrder, ReachedFrom;
    PlanPlaces(g, order, n);
    var refs := g[n.job].deps;
    DepKeysSome(g, refs, {} + {n.slug});
    forall m | m in order && m.slug in n.deps ensures n.key.deps[m.slug] == m.key {
      PlanPlaces(g, order, m);
      DepSlugsElems(g, refs);
      assert m.slug in Elems(n.deps);
      var r :| r in refs && r.To? && g[r.id].slug == m.slug;
      DepKeysAt(g, refs, {} + {n.slug}, r);
      KeyIgnoresPath(g, r.id, {}, {} + {n.slug});
      SameSlugSameKey(g, r.id, m.job, {});
    }
  }

  lemma PlanPlaces(g: Graph, order: seq<Node>, n: Node)
    requires TopologicalOrder(g, order) && n in order
    ensures n.job in g && n.slug == g[n.job].slug && Elems(n.deps) == Elems(DepSlugs(g, g[n.job].deps))
  {
    var i :| 0 <= i < |order| && order[i] == n;
    assert Placed(g, order[..i], n);
  }
}
