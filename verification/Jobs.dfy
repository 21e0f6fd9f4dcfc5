/** Job graphs, their Merkle keys, and what a key denotes. */
module Jobs {
  import opened Common

  /** A job key. The constructor plays the part of SHA-256 over the canonical document: two
      documents have the same key exactly when they are equal. */
  datatype Key = Hash(name: string, slug: string, inputs: map<string, string>, deps: map<string, Key>)

  /** A value of the Job interface as a caller may hand it over; it may be nil. */
  datatype Ref = Nil | To(id: nat)

  datatype Job = Job(name: string, slug: string, inputs: map<string, string>, deps: seq<Ref>)

  ghost predicate Closed(g: map<nat, Job>) {
    forall j, r | j in g && r in g[j].deps :: r.To? ==> r.id in g
  }

  /** All job objects of a process by identity. Cycles are not excluded. */
  type Graph = g: map<nat, Job> | Closed(g) witness map[]

  ghost predicate RefsIn(g: Graph, refs: seq<Ref>) {
    forall r | r in refs :: r.To? ==> r.id in g
  }

  ghost function Slugs(g: Graph): set<string> {
    set j | j in g :: g[j].slug
  }

  predicate ValidSlug(s: string) {
    s != "" && '/' !in s && '\\' !in s && '\0' !in s
  }

  /** What no artifact directory or lock file may be named after: nothing at all, or a text that a
      slash, a backslash or a NUL cuts into several pieces. */
  ghost predicate Unusable(s: string) {
    s == "" || |Split(s, '/')| > 1 || |Split(s, '\\')| > 1 || |Split(s, '\0')| > 1
  }

  /** `computeKey` refuses exactly those slugs. */
  lemma SlugsRefused(s: string)
    ensures Unusable(s) <==> !ValidSlug(s)
  {
    SplitCount(s, '/');
    SplitCount(s, '\\');
    SplitCount(s, '\0');
    hide Split;
  }

  function DepSlugs(g: Graph, refs: seq<Ref>): (r: seq<string>)
    requires RefsIn(g, refs)
    ensures |r| <= |refs|
  {
    if refs == [] then []
    else DepSlugs(g, refs[..|refs|-1]) +
         (if refs[|refs|-1].Nil? then [] else [g[refs[|refs|-1].id].slug])
  }

  lemma {:induction false} DepSlugsElems(g: Graph, refs: seq<Ref>)
    requires RefsIn(g, refs)
    ensures Elems(DepSlugs(g, refs)) == set r | r in refs && r.To? :: g[r.id].slug
  {
    if refs != [] {
      var init, last := refs[..|refs|-1], refs[|refs|-1];
      DepSlugsElems(g, init);
      assert refs == init + [last];
      var tail := if last.Nil? then [] else [g[last.id].slug];
      assert Elems(DepSlugs(g, refs)) == Elems(DepSlugs(g, init)) + Elems(tail);
    }
  }

  /** What `sameJob` compares: the job's own fields and its dep slugs in sorted order. */
  datatype Fingerprint = Fingerprint(name: string, slug: string, inputs: map<string, string>, deps: multiset<string>)

  function FingerprintOf(g: Graph, j: nat): Fingerprint
    requires j in g
  {
    Fingerprint(g[j].name, g[j].slug, g[j].inputs, multiset(DepSlugs(g, g[j].deps)))
  }

  lemma {:induction false} DepSlugsConcat(g: Graph, a: seq<Ref>, b: seq<Ref>)
    requires RefsIn(g, a) && RefsIn(g, b)
    ensures RefsIn(g, a + b) && DepSlugs(g, a + b) == DepSlugs(g, a) + DepSlugs(g, b)
  {
    if b == [] {
      assert a + b == a;
    } else {
      PeelLast(a, b);
      DepSlugsConcat(g, a, b[..|b|-1]);
      assert (a + b)[..|a + b|-1] == a + b[..|b|-1];
    }
  }

  /** `b` with its element k taken out. */
  function Without<T>(b: seq<T>, k: nat): seq<T>
    requires k < |b|
  {
    b[..k] + b[k+1..]
  }

  lemma DepSlugsWithout(g: Graph, b: seq<Ref>, k: nat)
    requires RefsIn(g, b) && k < |b|
    ensures RefsIn(g, Without(b, k))
    ensures multiset(DepSlugs(g, b)) == multiset(DepSlugs(g, Without(b, k))) + multiset(DepSlugs(g, [b[k]]))
  {
    hide DepSlugs;
    assert b == b[..k] + [b[k]] + b[k+1..];
    DepSlugsConcat(g, b[..k], [b[k]]);
    DepSlugsConcat(g, b[..k] + [b[k]], b[k+1..]);
    DepSlugsConcat(g, b[..k], b[k+1..]);
  }

  lemma WithoutBag<T>(b: seq<T>, k: nat)
    requires k < |b|
    ensures multiset(Without(b, k)) == multiset(b) - multiset{b[k]}
  {
    assert b == b[..k] + [b[k]] + b[k+1..];
    assert multiset(b) == multiset(b[..k]) + multiset{b[k]} + multiset(b[k+1..]);
  }

  lemma TakenOut<T>(a: seq<T>, b: seq<T>) returns (k: nat)
    requires a != [] && multiset(a) == multiset(b)
    ensures k < |b| && b[k] == a[|a|-1] && multiset(a[..|a|-1]) == multiset(Without(b, k))
  {
    var init, last := a[..|a|-1], a[|a|-1];
    WithoutBag(a, |a| - 1);
    assert Without(a, |a| - 1) == init;
    assert last in multiset(b);
    k :| 0 <= k < |b| && b[k] == last;
    WithoutBag(b, k);
    hide Without;
  }

  lemma {:induction false} DepSlugsPermute(g: Graph, a: seq<Ref>, b: seq<Ref>)
    requires RefsIn(g, a) && RefsIn(g, b) && multiset(a) == multiset(b)
    ensures multiset(DepSlugs(g, a)) == multiset(DepSlugs(g, b))
    decreases |a|
  {
    if a == [] {
      assert |multiset(b)| == 0;
    } else {
      var init, last := a[..|a|-1], a[|a|-1];
      assert a == init + [last];
      var k := TakenOut(a, b);
      hide DepSlugs, Without;
      DepSlugsWithout(g, b, k);
      DepSlugsPermute(g, init, Without(b, k));
      DepSlugsConcat(g, init, [last]);
    }
  }

  lemma DepOrderIsNotSeen(g: Graph, x: nat, y: nat)
    requires x in g && y in g && g[x].name == g[y].name && g[x].slug == g[y].slug && g[x].inputs == g[y].inputs
    requires multiset(g[x].deps) == multiset(g[y].deps)
    ensures FingerprintOf(g, x) == FingerprintOf(g, y)
  {
    DepSlugsPermute(g, g[x].deps, g[y].deps);
    hide DepSlugs;
  }

  /** "A slug must uniquely determine a job's content within one process." */
  ghost predicate SlugDetermines(g: Graph) {
    forall a, b | a in g && b in g && g[a].slug == g[b].slug ::
      FingerprintOf(g, a) == FingerprintOf(g, b) && (Nil in g[a].deps <==> Nil in g[b].deps)
  }

  /** The key of a job by plain recursion, with no cache. `path` holds the slugs of the jobs
      above this one; meeting one of them again is a cycle. */
  ghost function KeyBelow(g: Graph, j: nat, path: set<string>): Option<Key>
    requires j in g
    decreases |Slugs(g) - path|, 0
  {
    var job := g[j];
    if !ValidSlug(job.slug) || job.slug in path then None
    else
      PathGrows(g, j, path);
      match DepKeys(g, job.deps, path + {job.slug})
      case None => None
      case Some(deps) => Some(Hash(job.name, job.slug, job.inputs, deps))
  }

  ghost function DepKeys(g: Graph, refs: seq<Ref>, path: set<string>): Option<map<string, Key>>
    requires RefsIn(g, refs)
    decreases |Slugs(g) - path|, 1, |refs|
  {
    if refs == [] then Some(map[])
    else
      var last := refs[|refs|-1];
      match DepKeys(g, refs[..|refs|-1], path)
      case None => None
      case Some(deps) =>
        if last.Nil? then None
        else match KeyBelow(g, last.id, path)
          case None => None
          case Some(k) => Some(deps[g[last.id].slug := k])
  }

  /** Going one job deeper leaves fewer slugs to meet: the measure of every recursion here. */
  lemma PathGrows(g: Graph, j: nat, path: set<string>)
    requires j in g && g[j].slug !in path
    ensures |Slugs(g) - (path + {g[j].slug})| < |Slugs(g) - path|
  {
    var rest := Slugs(g) - path;
    assert Slugs(g) - (path + {g[j].slug}) == rest - {g[j].slug};
  }

  /** The key of a job. */
  ghost function KeyOf(g: Graph, j: nat): Option<Key>
    requires j in g
  {
    KeyBelow(g, j, {})
  }

  /** The dep keys exist exactly when every dep is a job with a key. */
  lemma {:induction false} DepKeysSome(g: Graph, refs: seq<Ref>, path: set<string>)
    requires RefsIn(g, refs)
    ensures DepKeys(g, refs, path).Some? <==> forall r | r in refs :: r.To? && KeyBelow(g, r.id, path).Some?
    ensures var ks := DepKeys(g, refs, path); ks.Some? ==> ks.value.Keys == Elems(DepSlugs(g, refs))
    decreases |refs|
  {
    if refs != [] {
      var init, last := refs[..|refs|-1], refs[|refs|-1];
      DepKeysSome(g, init, path);
      assert refs == init + [last];
      hide KeyBelow;
      if DepKeys(g, refs, path).Some? {
        assert Elems(DepSlugs(g, refs)) == Elems(DepSlugs(g, init)) + {g[last.id].slug};
      } else if last.To? && KeyBelow(g, last.id, path).Some? {
        var r :| r in init && (r.Nil? || KeyBelow(g, r.id, path).None?);
        assert r in refs;
      } else {
        assert last in refs;
      }
    }
  }

  /** With no conflicting slugs, each dep slug is mapped to that dep's own key. */
  lemma {:induction false} DepKeysAt(g: Graph, refs: seq<Ref>, path: set<string>, r: Ref)
    requires RefsIn(g, refs) && SlugDetermines(g)
    requires r in refs && DepKeys(g, refs, path).Some?
    ensures r.To? && KeyBelow(g, r.id, path).Some?
    ensures g[r.id].slug in DepKeys(g, refs, path).value
    ensures DepKeys(g, refs, path).value[g[r.id].slug] == KeyBelow(g, r.id, path).value
    decreases |Slugs(g) - path|, 1, |refs|
  {
    var init, last := refs[..|refs|-1], refs[|refs|-1];
    DepKeysSome(g, refs, path);
    assert refs == init + [last];
    if g[last.id].slug == g[r.id].slug {
      SameSlugSameKey(g, last.id, r.id, path);
    } else {
      DepKeysAt(g, init, path, r);
    }
  }

  lemma {:induction false} SameSlugSameKey(g: Graph, a: nat, b: nat, path: set<string>)
    requires a in g && b in g && SlugDetermines(g) && g[a].slug == g[b].slug
    ensures KeyBelow(g, a, path) == KeyBelow(g, b, path)
    decreases |Slugs(g) - path|, 0
  {
    var s := g[a].slug;
    if ValidSlug(s) && s !in path {
      var below := path + {s};
      PathGrows(g, a, path);
      SameDepsSameKeys(g, a, b, below);
      SameDepsSameKeys(g, b, a, below);
      assert FingerprintOf(g, a) == FingerprintOf(g, b);
      var ka, kb := DepKeys(g, g[a].deps, below), DepKeys(g, g[b].deps, below);
      if ka.Some? && kb.Some? {
        DepKeysSome(g, g[a].deps, below);
        DepKeysSome(g, g[b].deps, below);
        SameSlugElems(g, a, b);
        assert ka.value.Keys == kb.value.Keys;
        assert ka.value == kb.value;
      }
    }
  }

  lemma SameSlugElems(g: Graph, a: nat, b: nat)
    requires a in g && b in g && SlugDetermines(g) && g[a].slug == g[b].slug
    ensures Elems(DepSlugs(g, g[a].deps)) == Elems(DepSlugs(g, g[b].deps))
  {
    var sa, sb := DepSlugs(g, g[a].deps), DepSlugs(g, g[b].deps);
    assert FingerprintOf(g, a) == FingerprintOf(g, b);
    assert multiset(sa) == multiset(sb);
    assert forall x :: x in sa <==> x in multiset(sa);
    assert forall x :: x in sb <==> x in multiset(sb);
  }

  /** One direction of the step above: the deps of `a` give the deps of `b` their keys. */
  lemma {:induction false} SameDepsSameKeys(g: Graph, a: nat, b: nat, path: set<string>)
    requires a in g && b in g && SlugDetermines(g) && g[a].slug == g[b].slug
    ensures DepKeys(g, g[a].deps, path).Some? ==>
              var ks := DepKeys(g, g[b].deps, path);
              && ks.Some?
              && forall s | s in ks.value && s in DepKeys(g, g[a].deps, path).value ::
                   ks.value[s] == DepKeys(g, g[a].deps, path).value[s]
    decreases |Slugs(g) - path|, 2
  {
    var ka, kb := DepKeys(g, g[a].deps, path), DepKeys(g, g[b].deps, path);
    if ka.Some? {
      DepKeysSome(g, g[a].deps, path);
      DepKeysSome(g, g[b].deps, path);
      SameSlugElems(g, a, b);
      assert Nil !in g[b].deps;
      DepSlugsElems(g, g[a].deps);
      DepSlugsElems(g, g[b].deps);
      forall rb | rb in g[b].deps
        ensures KeyBelow(g, rb.id, path).Some? && g[rb.id].slug in ka.value
             && ka.value[g[rb.id].slug] == KeyBelow(g, rb.id, path).value
      {
        assert g[rb.id].slug in Elems(DepSlugs(g, g[b].deps));
        var ra :| ra in g[a].deps && ra.To? && g[ra.id].slug == g[rb.id].slug;
        DepKeysAt(g, g[a].deps, path, ra);
        SameSlugSameKey(g, ra.id, rb.id, path);
      }
      forall s | s in kb.value ensures s in ka.value && kb.value[s] == ka.value[s] {
        var rb :| rb in g[b].deps && rb.To? && g[rb.id].slug == s;
        DepKeysAt(g, g[b].deps, path, rb);
      }
    }
  }

  /** A key found below some path does not depend on that path. */
  lemma {:induction false} KeyIgnoresPath(g: Graph, j: nat, small: set<string>, path: set<string>)
    requires j in g && small <= path
    requires KeyBelow(g, j, path).Some?
    ensures KeyBelow(g, j, small) == KeyBelow(g, j, path)
    decreases |Slugs(g) - path|, 0
  {
    var s := g[j].slug;
    PathGrows(g, j, path);
    DepKeysIgnorePath(g, g[j].deps, small + {s}, path + {s});
  }

  lemma {:induction false} DepKeysIgnorePath(g: Graph, refs: seq<Ref>, small: set<string>, path: set<string>)
    requires RefsIn(g, refs) && small <= path
    requires DepKeys(g, refs, path).Some?
    ensures DepKeys(g, refs, small) == DepKeys(g, refs, path)
    decreases |Slugs(g) - path|, 1, |refs|
  {
    if refs != [] {
      var init, last := refs[..|refs|-1], refs[|refs|-1];
      DepKeysIgnorePath(g, init, small, path);
      KeyIgnoresPath(g, last.id, small, path);
    }
  }

  /** Listing the same deps in another order changes neither what `sameJob` sees nor the key. */
  lemma DepOrderDoesNotMatter(g: Graph, x: nat, y: nat)
    requires x in g && y in g && g[x].name == g[y].name && g[x].slug == g[y].slug && g[x].inputs == g[y].inputs
    requires multiset(g[x].deps) == multiset(g[y].deps)
    ensures FingerprintOf(g, x) == FingerprintOf(g, y)
    ensures SlugDetermines(g) ==> KeyOf(g, x) == KeyOf(g, y)
  {
    DepOrderIsNotSeen(g, x, y);
    hide SlugDetermines, FingerprintOf;
    if SlugDetermines(g) {
      SameSlugSameKey(g, x, y, {});
    }
  }

  // ---------------------------------------------------------------- reachability

  /** Consecutive members are linked by a dep edge. */
  ghost predicate IsPath(g: Graph, p: seq<nat>) {
    && |p| > 0
    && (forall i | 0 <= i < |p| :: p[i] in g)
    && forall i | 0 <= i < |p| - 1 :: To(p[i+1]) in g[p[i]].deps
  }

  ghost predicate PathFrom(g: Graph, j: nat, p: seq<nat>) {
    IsPath(g, p) && p[0] == j
  }

  /** The end of the path cannot have a key: its slug is unusable, it lists a nil dep, or its
      slug already occurs earlier on the path or in `above`. */
  ghost predicate Obstructed(g: Graph, p: seq<nat>, above: set<string>)
    requires IsPath(g, p)
  {
    var end := p[|p|-1];
    || Unusable(g[end].slug)
    || Nil in g[end].deps
    || g[end].slug in above
    || exists i :: 0 <= i < |p| - 1 && g[p[i]].slug == g[end].slug
  }

  lemma PathTail(g: Graph, p: seq<nat>)
    requires IsPath(g, p) && |p| > 1
    ensures IsPath(g, p[1..]) && To(p[1]) in g[p[0]].deps
  {
    var t := p[1..];
    forall i | 0 <= i < |t| - 1 ensures To(t[i+1]) in g[t[i]].deps {
      assert t[i] == p[i+1] && t[i+1] == p[i+1+1];
      assert To(p[i+1+1]) in g[p[i+1]].deps;
    }
    assert To(p[0+1]) in g[p[0]].deps;
  }

  lemma PathCons(g: Graph, j: nat, p: seq<nat>)
    requires IsPath(g, p) && j in g && To(p[0]) in g[j].deps
    ensures IsPath(g, [j] + p)
  {
    var q := [j] + p;
    forall i | 0 <= i < |q| - 1 ensures To(q[i+1]) in g[q[i]].deps {
      if i > 0 {
        assert To(p[i-1+1]) in g[p[i-1]].deps;
      }
    }
  }

  /** A job has a key exactly when nothing reachable from it obstructs one: no invalid slug,
      no nil dep, and no cycle. */
  lemma KeyExistsIffNoObstruction(g: Graph, j: nat)
    requires j in g
    ensures KeyOf(g, j).None? <==> exists p :: PathFrom(g, j, p) && Obstructed(g, p, {})
  {
    if KeyOf(g, j).None? {
      var p := FindObstruction(g, j, {});
    }
    forall p | PathFrom(g, j, p) && Obstructed(g, p, {}) ensures KeyOf(g, j).None? {
      ObstructionDeniesKey(g, p, {});
    }
  }

  /** What obstructs a path below j obstructs the path from j. */
  lemma ObstructionBelow(g: Graph, j: nat, q: seq<nat>, path: set<string>)
    requires j in g && IsPath(g, q) && To(q[0]) in g[j].deps && Obstructed(g, q, path + {g[j].slug})
    ensures IsPath(g, [j] + q) && Obstructed(g, [j] + q, path)
  {
    PathCons(g, j, q);
    hide Unusable, IsPath;
    var p, end := [j] + q, q[|q|-1];
    assert p[|p|-1] == end;
    if g[end].slug == g[j].slug {
      assert g[p[0]].slug == g[end].slug;
    } else if i :| 0 <= i < |q| - 1 && g[q[i]].slug == g[end].slug {
      assert p[i+1] == q[i];
    }
  }

  lemma {:induction false} FindObstruction(g: Graph, j: nat, path: set<string>) returns (p: seq<nat>)
    requires j in g && KeyBelow(g, j, path).None?
    ensures PathFrom(g, j, p) && Obstructed(g, p, path)
    decreases |Slugs(g) - path|
  {
    var s := g[j].slug;
    p := [j];
    SlugsRefused(s);
    hide Unusable, ValidSlug;
    if ValidSlug(s) && s !in path && Nil !in g[j].deps {
      PathGrows(g, j, path);
      DepKeysSome(g, g[j].deps, path + {s});
      var r :| r in g[j].deps && (r.Nil? || KeyBelow(g, r.id, path + {s}).None?);
      var q := FindObstruction(g, r.id, path + {s});
      ObstructionBelow(g, j, q, path);
      p := [j] + q;
    }
  }

  lemma {:induction false} ObstructionDeniesKey(g: Graph, p: seq<nat>, path: set<string>)
    requires IsPath(g, p) && Obstructed(g, p, path)
    ensures KeyBelow(g, p[0], path).None?
    decreases |p|
  {
    var s := g[p[0]].slug;
    SlugsRefused(s);
    hide Unusable, ValidSlug;
    if |p| == 1 {
      DepKeysSome(g, g[p[0]].deps, path + {s});
    } else if ValidSlug(s) && s !in path {
      PathTail(g, p);
      var t := p[1..];
      var end := p[|p|-1];
      assert t[|t|-1] == end;
      if g[end].slug !in path + {s} && exists i :: 0 <= i < |p| - 1 && g[p[i]].slug == g[end].slug {
        var i :| 0 <= i < |p| - 1 && g[p[i]].slug == g[end].slug;
        assert t[i-1] == p[i];
      }
      ObstructionDeniesKey(g, t, path + {s});
      DepKeysSome(g, g[p[0]].deps, path + {s});
    }
  }

  // ---------------------------------------------------------------- exact sensitivity

  /** The graph in which the jobs with slug `t` have other inputs. */
  function WithInputs(g: Graph, t: string, inputs: map<string, string>): (r: Graph)
    ensures r.Keys == g.Keys
  {
    map j | j in g :: if g[j].slug == t then g[j].(inputs := inputs) else g[j]
  }

  ghost predicate ReachesSlug(g: Graph, j: nat, t: string) {
    exists p :: PathFrom(g, j, p) && g[p[|p|-1]].slug == t
  }

  lemma ReachesStep(g: Graph, j: nat, t: string)
    requires j in g
    ensures ReachesSlug(g, j, t) <==>
            g[j].slug == t || exists r :: r in g[j].deps && r.To? && ReachesSlug(g, r.id, t)
  {
    if ReachesSlug(g, j, t) && g[j].slug != t {
      var p :| PathFrom(g, j, p) && g[p[|p|-1]].slug == t;
      PathTail(g, p);
      assert PathFrom(g, p[1], p[1..]) && p[1..][|p|-2] == p[|p|-1];
      assert To(p[1]) in g[j].deps && ReachesSlug(g, To(p[1]).id, t);
    }
    if g[j].slug == t {
      assert PathFrom(g, j, [j]);
      assert g[[j][|[j]|-1]].slug == t;
    }
    forall r | r in g[j].deps && r.To? && ReachesSlug(g, r.id, t) ensures ReachesSlug(g, j, t) {
      var p :| PathFrom(g, r.id, p) && g[p[|p|-1]].slug == t;
      PathCons(g, j, p);
      var q := [j] + p;
      assert PathFrom(g, j, q) && q[|q|-1] == p[|p|-1];
    }
  }

  /** Job j reaches job x along dep edges. */
  ghost predicate Reaches(g: Graph, j: nat, x: nat) {
    exists p :: PathFrom(g, j, p) && p[|p|-1] == x
  }

  lemma ReachesItself(g: Graph, j: nat)
    requires j in g
    ensures Reaches(g, j, j)
  {
    assert PathFrom(g, j, [j]);
    assert [j][|[j]|-1] == j;
  }

  lemma ReachesThrough(g: Graph, j: nat, r: Ref, x: nat)
    requires j in g && r in g[j].deps && r.To? && Reaches(g, r.id, x)
    ensures Reaches(g, j, x) && x in g
  {
    var p :| PathFrom(g, r.id, p) && p[|p|-1] == x;
    PathCons(g, j, p);
    var q := [j] + p;
    assert PathFrom(g, j, q) && q[|q|-1] == x;
  }

  lemma ReachesOneMore(g: Graph, j: nat, x: nat, r: Ref)
    requires Reaches(g, j, x) && x in g && r in g[x].deps && r.To?
    ensures Reaches(g, j, r.id)
  {
    var p :| PathFrom(g, j, p) && p[|p|-1] == x;
    var q := p + [r.id];
    forall i | 0 <= i < |q| - 1 ensures To(q[i+1]) in g[q[i]].deps {
      if i < |p| - 1 {
        assert To(p[i+1]) in g[p[i]].deps;
      }
    }
    assert PathFrom(g, j, q) && q[|q|-1] == r.id;
  }

  lemma PathInit(g: Graph, j: nat, p: seq<nat>)
    requires PathFrom(g, j, p) && |p| > 1
    ensures PathFrom(g, j, p[..|p|-1]) && To(p[|p|-1]) in g[p[|p|-2]].deps
  {
    var q := p[..|p|-1];
    forall i | 0 <= i < |q| - 1 ensures To(q[i+1]) in g[q[i]].deps {
      assert To(p[i+1]) in g[p[i]].deps;
    }
    assert To(p[|p|-2+1]) in g[p[|p|-2]].deps;
  }

  /** A set of jobs closed under deps holds all that its members reach. */
  lemma ReachesWithin(g: Graph, area: set<nat>, j: nat, x: nat)
    requires j in area && Reaches(g, j, x)
    requires forall y, r | y in area && y in g && r in g[y].deps && r.To? :: r.id in area
    ensures x in area
  {
    var p :| PathFrom(g, j, p) && p[|p|-1] == x;
    for i := 0 to |p| - 1
      invariant p[i] in area
    {
      assert To(p[i+1]) in g[p[i]].deps;
      assert To(p[i+1]).id in area;
    }
  }

  lemma ReachedSlug(g: Graph, j: nat, x: nat)
    requires Reaches(g, j, x)
    ensures x in g && ReachesSlug(g, j, g[x].slug)
  {
    var p :| PathFrom(g, j, p) && p[|p|-1] == x;
  }

  /** Changing the inputs of `t` changes the key of exactly the jobs that reach `t`. */
  lemma KeyIsExactlySensitive(g: Graph, j: nat, t: string, inputs: map<string, string>)
    requires j in g && SlugDetermines(g) && KeyOf(g, j).Some?
    requires forall x | x in g && g[x].slug == t :: g[x].inputs != inputs
    ensures KeyOf(WithInputs(g, t, inputs), j).Some?
    ensures KeyOf(WithInputs(g, t, inputs), j) != KeyOf(g, j) <==> ReachesSlug(g, j, t)
  {
    WithInputsDetermines(g, t, inputs);
    SensitiveBelow(g, j, t, inputs, {});
  }

  lemma {:induction false} WithInputsSlugs(g: Graph, t: string, inputs: map<string, string>, refs: seq<Ref>)
    requires RefsIn(g, refs)
    ensures DepSlugs(WithInputs(g, t, inputs), refs) == DepSlugs(g, refs)
  {
    if refs != [] {
      WithInputsSlugs(g, t, inputs, refs[..|refs|-1]);
    }
  }

  lemma WithInputsDetermines(g: Graph, t: string, inputs: map<string, string>)
    requires SlugDetermines(g)
    ensures SlugDetermines(WithInputs(g, t, inputs))
    ensures Slugs(WithInputs(g, t, inputs)) == Slugs(g)
  {
    var h := WithInputs(g, t, inputs);
    forall a, b | a in h && b in h && h[a].slug == h[b].slug
      ensures FingerprintOf(h, a) == FingerprintOf(h, b) && (Nil in h[a].deps <==> Nil in h[b].deps)
    {
      assert FingerprintOf(g, a) == FingerprintOf(g, b);
      WithInputsSlugs(g, t, inputs, g[a].deps);
      WithInputsSlugs(g, t, inputs, g[b].deps);
    }
    forall x | x in Slugs(g) ensures x in Slugs(h) {
      var j :| j in g && g[j].slug == x;
      assert h[j].slug == x;
    }
  }

  /** The key of a job that has one, over the dep keys one level down. */
  lemma KeyIsHash(g: Graph, j: nat, path: set<string>)
    requires j in g
    ensures var deps := DepKeys(g, g[j].deps, path + {g[j].slug});
            KeyBelow(g, j, path) ==
            if ValidSlug(g[j].slug) && g[j].slug !in path && deps.Some?
            then Some(Hash(g[j].name, g[j].slug, g[j].inputs, deps.value)) else None
  {
    hide DepKeys;
  }

  /** One level: the key changes when the job's own inputs do or its dep keys do. */
  lemma SensitiveHere(g: Graph, j: nat, t: string, inputs: map<string, string>, path: set<string>)
    requires j in g && KeyBelow(g, j, path).Some?
    requires g[j].slug == t ==> g[j].inputs != inputs
    requires DepKeys(WithInputs(g, t, inputs), g[j].deps, path + {g[j].slug}).Some?
    ensures KeyBelow(WithInputs(g, t, inputs), j, path).Some?
    ensures KeyBelow(WithInputs(g, t, inputs), j, path) != KeyBelow(g, j, path) <==>
            g[j].slug == t
            || DepKeys(WithInputs(g, t, inputs), g[j].deps, path + {g[j].slug}) != DepKeys(g, g[j].deps, path + {g[j].slug})
  {
    var h := WithInputs(g, t, inputs);
    KeyIsHash(g, j, path);
    KeyIsHash(h, j, path);
    hide KeyBelow, DepKeys;
  }

  lemma {:induction false} SensitiveBelow(g: Graph, j: nat, t: string, inputs: map<string, string>, path: set<string>)
    requires j in g && SlugDetermines(g) && SlugDetermines(WithInputs(g, t, inputs))
    requires Slugs(WithInputs(g, t, inputs)) == Slugs(g)
    requires KeyBelow(g, j, path).Some?
    requires forall x | x in g && g[x].slug == t :: g[x].inputs != inputs
    ensures KeyBelow(WithInputs(g, t, inputs), j, path).Some?
    ensures KeyBelow(WithInputs(g, t, inputs), j, path) != KeyBelow(g, j, path) <==> ReachesSlug(g, j, t)
    decreases |Slugs(g) - path|
  {
    var h := WithInputs(g, t, inputs);
    var refs, below := g[j].deps, path + {g[j].slug};
    KeyIsHash(g, j, path);
    hide SlugDetermines, KeyBelow, DepKeys, ReachesSlug;
    PathGrows(g, j, path);
    DepKeysSome(g, refs, below);
    DepKeysSome(h, refs, below);
    forall r | r in refs
      ensures r.To? && KeyBelow(h, r.id, below).Some?
      ensures KeyBelow(h, r.id, below) != KeyBelow(g, r.id, below) <==> ReachesSlug(g, r.id, t)
    {
      SensitiveBelow(g, r.id, t, inputs, below);
    }
    WithInputsSlugs(g, t, inputs, refs);
    DifferentDepKeys(g, h, refs, below);
    SensitiveHere(g, j, t, inputs, path);
    ReachesStep(g, j, t);
  }

  /** Two graphs of the same shape give the deps different keys exactly when one dep differs. */
  lemma DifferentDepKeys(g: Graph, h: Graph, refs: seq<Ref>, path: set<string>)
    requires RefsIn(g, refs) && RefsIn(h, refs) && SlugDetermines(g) && SlugDetermines(h)
    requires forall j | j in g && j in h :: g[j].slug == h[j].slug
    requires DepSlugs(g, refs) == DepSlugs(h, refs)
    requires DepKeys(g, refs, path).Some? && DepKeys(h, refs, path).Some?
    ensures DepKeys(h, refs, path) != DepKeys(g, refs, path) <==>
            exists r :: r in refs && r.To? && KeyBelow(h, r.id, path) != KeyBelow(g, r.id, path)
  {
    hide SlugDetermines, DepSlugs, DepKeys, KeyBelow;
    var kg, kh := DepKeys(g, refs, path).value, DepKeys(h, refs, path).value;
    DepSlugsElems(g, refs);
    DepKeysSome(g, refs, path);
    DepKeysSome(h, refs, path);
    if r :| r in refs && r.To? && KeyBelow(h, r.id, path) != KeyBelow(g, r.id, path) {
      DepKeysAt(g, refs, path, r);
      DepKeysAt(h, refs, path, r);
    }
    if x :| x in kg && kg[x] != kh[x] {
      var r :| r in refs && r.To? && g[r.id].slug == x;
      DepKeysAt(g, refs, path, r);
      DepKeysAt(h, refs, path, r);
    } else {
      assert kg == kh;
    }
  }

  // ---------------------------------------------------------------- what a key denotes

  /** The part of a job a build reads besides its deps' artifacts. */
  datatype Recipe = Recipe(name: string, slug: string, inputs: map<string, string>)

  /** Job.Build, as a function of the recipe and of the deps' contents by slug. */
  type Builder<!C> = (Recipe, map<string, C>) -> C

  /** The content a key stands for. */
  ghost function Denote<C>(build: Builder<C>, k: Key): C
  {
    build(Recipe(k.name, k.slug, k.inputs), map s | s in k.deps :: Denote(build, k.deps[s]))
  }

  /** The simple thing the cache speeds up: build every dep from nothing, then the job. */
  ghost function FromScratch<C>(build: Builder<C>, g: Graph, j: nat, path: set<string>): C
    requires j in g && KeyBelow(g, j, path).Some?
    decreases |Slugs(g) - path|, 0
  {
    var job := g[j];
    PathGrows(g, j, path);
    build(Recipe(job.name, job.slug, job.inputs), DepsFromScratch(build, g, job.deps, path + {job.slug}))
  }

  ghost function DepsFromScratch<C>(build: Builder<C>, g: Graph, refs: seq<Ref>, path: set<string>): map<string, C>
    requires RefsIn(g, refs) && DepKeys(g, refs, path).Some?
    decreases |Slugs(g) - path|, 1, |refs|
  {
    if refs == [] then map[]
    else
      var last := refs[|refs|-1];
      DepsFromScratch(build, g, refs[..|refs|-1], path)[g[last.id].slug := FromScratch(build, g, last.id, path)]
  }

  /** A key denotes exactly what building its job from scratch produces. */
  lemma {:induction false} KeyDenotesFromScratch<C>(build: Builder<C>, g: Graph, j: nat, path: set<string>)
    requires j in g && KeyBelow(g, j, path).Some?
    ensures Denote(build, KeyBelow(g, j, path).value) == FromScratch(build, g, j, path)
    decreases |Slugs(g) - path|, 0
  {
    var s := g[j].slug;
    PathGrows(g, j, path);
    DepsDenoteFromScratch(build, g, g[j].deps, path + {s});
    var k := KeyBelow(g, j, path).value;
    assert (map d | d in k.deps :: Denote(build, k.deps[d])) == DepsFromScratch(build, g, g[j].deps, path + {s});
  }

  lemma {:induction false} DepsDenoteFromScratch<C>(build: Builder<C>, g: Graph, refs: seq<Ref>, path: set<string>)
    requires RefsIn(g, refs) && DepKeys(g, refs, path).Some?
    ensures var ks := DepKeys(g, refs, path).value;
            (map s | s in ks :: Denote(build, ks[s])) == DepsFromScratch(build, g, refs, path)
    decreases |Slugs(g) - path|, 1, |refs|
  {
    if refs != [] {
      var init, last := refs[..|refs|-1], refs[|refs|-1];
      DepsDenoteFromScratch(build, g, init, path);
      KeyDenotesFromScratch(build, g, last.id, path);
    }
  }
}
