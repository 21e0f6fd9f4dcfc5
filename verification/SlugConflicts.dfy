/** What an accepted plan means when slugs do not determine content: `sameJob` looks one level deep,
    so a job may hang below a duplicate that was never listed. */
module SlugConflicts {
  import opened Common
  import opened Jobs
  import opened Resolver

  /** A job's own document: everything its key covers except what its deps' keys add. */
  datatype Doc = Doc(name: string, slug: string, inputs: map<string, string>, deps: set<string>)

  ghost function DocOf(g: Graph, x: nat): Doc
    requires x in g
  {
    Doc(g[x].name, g[x].slug, g[x].inputs, Elems(DepSlugs(g, g[x].deps)))
  }

  lemma SameFingerprintSameDoc(g: Graph, x: nat, y: nat)
    requires x in g && y in g && FingerprintOf(g, x) == FingerprintOf(g, y)
    ensures DocOf(g, x) == DocOf(g, y)
  {
    var a, b := DepSlugs(g, g[x].deps), DepSlugs(g, g[y].deps);
    assert multiset(a) == multiset(b);
    assert forall s :: s in a <==> s in multiset(a);
    assert forall s :: s in b <==> s in multiset(b);
  }

  // ---------------------------------------------------------------- the property and the condition

  /** The job's own key, by plain recursion, is the key of the node listed for its slug. */
  ghost predicate OwnKey(g: Graph, order: seq<Node>, x: nat)
    requires x in g
  {
    exists n :: n in order && n.slug == g[x].slug && KeyOf(g, x) == Some(n.key)
  }

  /** Every job the roots reach is served by a node with its own key. */
  ghost predicate EachGetsOwnKey(g: Graph, roots: seq<Ref>, order: seq<Node>)
    requires RefsIn(g, roots)
  {
    forall x | x in g && ReachedFrom(g, roots, x) :: OwnKey(g, order, x)
  }

  /** The comparison of `sameJob`, made once more for the deps of two jobs that pass it. */
  ghost predicate DepsAgree(g: Graph, x: nat, y: nat)
    requires x in g && y in g
  {
    && (Nil in g[x].deps <==> Nil in g[y].deps)
    && forall a, b | a in g[x].deps && b in g[y].deps && a.To? && b.To? && g[a.id].slug == g[b.id].slug ::
         DocOf(g, a.id) == DocOf(g, b.id)
  }

  /** What a caller can check on the graph: reachable jobs with the same document have deps with the
      same documents. */
  ghost predicate DuplicatesAgreeBelow(g: Graph, roots: seq<Ref>)
    requires RefsIn(g, roots)
  {
    forall x, y | x in g && y in g && ReachedFrom(g, roots, x) && ReachedFrom(g, roots, y) && DocOf(g, x) == DocOf(g, y) ::
      DepsAgree(g, x, y)
  }

  // ---------------------------------------------------------------- condition implies property

  /** The node listed for the job's slug has the job's document, and the job lists no nil dep. */
  ghost predicate Agreed(g: Graph, order: seq<Node>, x: nat) {
    && x in g && Nil !in g[x].deps
    && exists n :: n in order && n.job in g && n.slug == g[x].slug && DocOf(g, x) == DocOf(g, n.job)
  }

  lemma NodeHasNoNil(g: Graph, order: seq<Node>, n: Node)
    requires TopologicalOrder(g, order) && n in order
    ensures n.job in g && n.slug == g[n.job].slug && Nil !in g[n.job].deps && Elems(n.deps) == DocOf(g, n.job).deps
    ensures forall r | r in g[n.job].deps :: HasAgreeing(g, order, r.id)
  {
    var i :| 0 <= i < |order| && order[i] == n;
    assert Placed(g, order[..i], n);
    forall r | r in g[n.job].deps ensures HasAgreeing(g, order, r.id) {
      assert HasAgreeing(g, order[..i], r.id);
      var m :| m in order[..i] && m.slug == g[r.id].slug && m.job in g && FingerprintOf(g, m.job) == FingerprintOf(g, r.id);
      assert m in order;
    }
  }

  /** A job with the document of a listed, reachable node has no nil dep either. */
  lemma SameDocAgreed(g: Graph, roots: seq<Ref>, order: seq<Node>, x: nat, n: Node)
    requires RefsIn(g, roots) && IsPlan(g, roots, order) && DuplicatesAgreeBelow(g, roots)
    requires x in g && ReachedFrom(g, roots, x) && n in order && n.job in g && DocOf(g, x) == DocOf(g, n.job)
    ensures Agreed(g, order, x)
  {
    hide TopologicalOrder, ReachedFrom, AllAgree;
    NodeHasNoNil(g, order, n);
    assert DepsAgree(g, x, n.job);
    assert DocOf(g, x).slug == g[x].slug && DocOf(g, n.job).slug == n.slug;
  }

  lemma AgreeingNode(g: Graph, order: seq<Node>, d: nat) returns (n: Node)
    requires d in g && HasAgreeing(g, order, d)
    ensures n in order && n.slug == g[d].slug && n.job in g && FingerprintOf(g, n.job) == FingerprintOf(g, d)
  {
    hide FingerprintOf;
    n :| n in order && n.slug == g[d].slug && n.job in g && FingerprintOf(g, n.job) == FingerprintOf(g, d);
  }

  lemma RootAgreed(g: Graph, roots: seq<Ref>, order: seq<Node>, r: Ref)
    requires RefsIn(g, roots) && IsPlan(g, roots, order) && DuplicatesAgreeBelow(g, roots) && r in roots && r.To?
    ensures Agreed(g, order, r.id)
  {
    var n := AgreeingNode(g, order, r.id);
    ReachesItself(g, r.id);
    hide TopologicalOrder, Agreed, DuplicatesAgreeBelow, FingerprintOf, DocOf, Reaches, AllAgree;
    SameFingerprintSameDoc(g, r.id, n.job);
    SameDocAgreed(g, roots, order, r.id, n);
  }

  lemma DepAgreed(g: Graph, roots: seq<Ref>, order: seq<Node>, x: nat, r: Ref)
    requires RefsIn(g, roots) && IsPlan(g, roots, order) && DuplicatesAgreeBelow(g, roots)
    requires Agreed(g, order, x) && ReachedFrom(g, roots, x) && r in g[x].deps && r.To?
    ensures Agreed(g, order, r.id) && ReachedFrom(g, roots, r.id)
  {
    hide TopologicalOrder, DuplicatesAgreeBelow, AllAgree, FingerprintOf;
    var n :| n in order && n.job in g && n.slug == g[x].slug && DocOf(g, x) == DocOf(g, n.job);
    var root := RootOf(g, roots, x);
    ReachesOneMore(g, root.id, x, r);
    hide Agreed, Reaches;
    NodeHasNoNil(g, order, n);
    DepSlugsElems(g, g[x].deps);
    DepSlugsElems(g, g[n.job].deps);
    assert g[r.id].slug in DocOf(g, x).deps;
    var q :| q in g[n.job].deps && q.To? && g[q.id].slug == g[r.id].slug;
    assert HasAgreeing(g, order, q.id);
    var m :| m in order && m.slug == g[q.id].slug && m.job in g && FingerprintOf(g, m.job) == FingerprintOf(g, q.id);
    SameFingerprintSameDoc(g, q.id, m.job);
    BelowDuplicates(g, roots, x, n.job, r, q);
    SameDocAgreed(g, roots, order, r.id, m);
  }

  lemma BelowDuplicates(g: Graph, roots: seq<Ref>, x: nat, y: nat, a: Ref, b: Ref)
    requires RefsIn(g, roots) && DuplicatesAgreeBelow(g, roots) && x in g && y in g
    requires ReachedFrom(g, roots, x) && ReachedFrom(g, roots, y) && DocOf(g, x) == DocOf(g, y)
    requires a in g[x].deps && b in g[y].deps && a.To? && b.To? && g[a.id].slug == g[b.id].slug
    ensures DocOf(g, a.id) == DocOf(g, b.id)
  {
    hide DocOf, ReachedFrom;
    assert DepsAgree(g, x, y);
  }

  lemma {:induction false} PathAgreed(g: Graph, roots: seq<Ref>, order: seq<Node>, r: Ref, p: seq<nat>)
    requires RefsIn(g, roots) && IsPlan(g, roots, order) && DuplicatesAgreeBelow(g, roots)
    requires r in roots && r.To? && PathFrom(g, r.id, p)
    ensures Agreed(g, order, p[|p|-1]) && ReachedFrom(g, roots, p[|p|-1])
  {
    hide TopologicalOrder, DuplicatesAgreeBelow, AllAgree, Agreed, DocOf, FingerprintOf, IsPlan;
    if |p| == 1 {
      RootAgreed(g, roots, order, r);
      ReachesItself(g, r.id);
    } else {
      var q := p[..|p|-1];
      PathInit(g, r.id, p);
      PathAgreed(g, roots, order, r, q);
      DepAgreed(g, roots, order, q[|q|-1], To(p[|p|-1]));
    }
  }

  lemma ReachedAgreed(g: Graph, roots: seq<Ref>, order: seq<Node>, x: nat)
    requires RefsIn(g, roots) && IsPlan(g, roots, order) && DuplicatesAgreeBelow(g, roots) && ReachedFrom(g, roots, x)
    ensures Agreed(g, order, x)
  {
    hide TopologicalOrder, DuplicatesAgreeBelow, AllAgree, Agreed, DocOf;
    var r := RootOf(g, roots, x);
    var p :| PathFrom(g, r.id, p) && p[|p|-1] == x;
    PathAgreed(g, roots, order, r, p);
  }

  /** The keys of deps, when each is known. */
  lemma {:induction false} KnownDepKeys(g: Graph, refs: seq<Ref>, path: set<string>, keys: map<string, Key>)
    requires RefsIn(g, refs)
    requires forall r | r in refs :: r.To? && g[r.id].slug in keys && KeyBelow(g, r.id, path) == Some(keys[g[r.id].slug])
    ensures var ks := DepKeys(g, refs, path);
            && ks.Some? && ks.value.Keys == Elems(DepSlugs(g, refs))
            && forall s | s in ks.value :: s in keys && ks.value[s] == keys[s]
  {
    DepKeysSome(g, refs, path);
    if refs != [] {
      var init, last := refs[..|refs|-1], refs[|refs|-1];
      assert refs == init + [last];
      hide KeyBelow, DepSlugs, Elems;
      KnownDepKeys(g, init, path, keys);
    }
  }

  ghost function SlugsOf(order: seq<Node>): set<string> {
    set n | n in order :: n.slug
  }

  lemma NodeOfAgreed(g: Graph, order: seq<Node>, i: nat, x: nat)
    requires TopologicalOrder(g, order) && i < |order| && Agreed(g, order, x) && g[x].slug == order[i].slug
    ensures order[i].job in g && DocOf(g, x) == DocOf(g, order[i].job)
    ensures Elems(order[i].deps) == Elems(DepSlugs(g, g[x].deps))
  {
    var n :| n in order && n.job in g && n.slug == g[x].slug && DocOf(g, x) == DocOf(g, n.job);
    var k :| 0 <= k < |order| && order[k] == n;
    assert k == i;
    hide TopologicalOrder, Agreed;
    NodeHasNoNil(g, order, n);
  }

  lemma PathStaysApart(g: Graph, order: seq<Node>, i: nat, k: nat, path: set<string>)
    requires TopologicalOrder(g, order) && k < i < |order| && path !! SlugsOf(order[..i+1])
    ensures path + {order[i].slug} !! SlugsOf(order[..k+1]) && order[i].slug !in path
  {
    assert order[..i+1][i] == order[i];
    hide Placed;
    forall n | n in order[..k+1] ensures n.slug != order[i].slug && n in order[..i+1] {
      var l :| 0 <= l < k + 1 && order[..k+1][l] == n;
      assert order[..i+1][l] == n;
    }
  }

  /** Every reachable job has its node's key. */
  lemma {:induction false} AgreedKey(g: Graph, roots: seq<Ref>, order: seq<Node>, i: nat, x: nat, path: set<string>)
    requires RefsIn(g, roots) && IsPlan(g, roots, order) && Chained(g, order) && DuplicatesAgreeBelow(g, roots)
    requires i < |order| && ReachedFrom(g, roots, x) && x in g && g[x].slug == order[i].slug && path !! SlugsOf(order[..i+1])
    ensures KeyBelow(g, x, path) == Some(order[i].key)
    decreases i, 1
  {
    hide TopologicalOrder, DuplicatesAgreeBelow, AllAgree, FingerprintOf, DepSlugs, Elems, DepKeys, ReachedFrom;
    ReachedAgreed(g, roots, order, x);
    NodeOfAgreed(g, order, i, x);
    var n := order[i];
    assert ChainedNode(g, order, n);
    forall r | r in g[x].deps
      ensures r.To? && g[r.id].slug in n.key.deps && KeyBelow(g, r.id, path + {n.slug}) == Some(n.key.deps[g[r.id].slug]) {
      AgreedDepKey(g, roots, order, i, x, path, r);
    }
    KnownDepKeys(g, g[x].deps, path + {n.slug}, n.key.deps);
    assert n.slug !in path by { assert order[..i+1][i] == n; }
    KeyOfDoc(g, x, path, n.key);
  }

  lemma KeyOfDoc(g: Graph, x: nat, path: set<string>, k: Key)
    requires x in g && ValidSlug(g[x].slug) && g[x].slug !in path
    requires k.name == g[x].name && k.slug == g[x].slug && k.inputs == g[x].inputs
    requires var ks := DepKeys(g, g[x].deps, path + {g[x].slug});
             ks.Some? && ks.value.Keys == k.deps.Keys && forall s | s in ks.value :: ks.value[s] == k.deps[s]
    ensures KeyBelow(g, x, path) == Some(k)
  {
    hide DepKeys;
    var ks := DepKeys(g, g[x].deps, path + {g[x].slug});
    assert ks.value == k.deps;
  }

  lemma {:induction false} AgreedDepKey(g: Graph, roots: seq<Ref>, order: seq<Node>, i: nat, x: nat, path: set<string>, r: Ref)
    requires RefsIn(g, roots) && IsPlan(g, roots, order) && Chained(g, order) && DuplicatesAgreeBelow(g, roots)
    requires i < |order| && ReachedFrom(g, roots, x) && Agreed(g, order, x) && g[x].slug == order[i].slug
    requires path !! SlugsOf(order[..i+1]) && r in g[x].deps
    ensures r.To? && g[r.id].slug in order[i].key.deps
    ensures KeyBelow(g, r.id, path + {order[i].slug}) == Some(order[i].key.deps[g[r.id].slug])
    decreases i, 0
  {
    hide TopologicalOrder, DuplicatesAgreeBelow, AllAgree, FingerprintOf, DepSlugs, DepKeys, KeyBelow, ReachedFrom, DocOf, SlugsOf;
    var n := order[i];
    NodeOfAgreed(g, order, i, x);
    DepSlugsElems(g, g[x].deps);
    assert g[r.id].slug in Elems(n.deps);
    assert ChainedNode(g, order, n);
    var k := DepIsEarlier(g, order, i, g[r.id].slug);
    DepAgreed(g, roots, order, x, r);
    PathStaysApart(g, order, i, k, path);
    AgreedKey(g, roots, order, k, r.id, path + {n.slug});
    assert order[k] in order;
  }

  // ---------------------------------------------------------------- and back

  lemma KeyShowsDoc(g: Graph, x: nat, k: Key)
    requires x in g && KeyOf(g, x) == Some(k)
    ensures DocOf(g, x) == Doc(k.name, k.slug, k.inputs, k.deps.Keys) && Nil !in g[x].deps
  {
    DepKeysSome(g, g[x].deps, {} + {g[x].slug});
    hide DepKeys, DepSlugs, Elems;
  }

  lemma OwnKeysAgree(g: Graph, order: seq<Node>, x: nat, y: nat)
    requires TopologicalOrder(g, order) && x in g && y in g && g[x].slug == g[y].slug
    requires OwnKey(g, order, x) && OwnKey(g, order, y)
    ensures DocOf(g, x) == DocOf(g, y) && Nil !in g[x].deps
  {
    hide Placed, KeyOf, DocOf;
    var n :| n in order && n.slug == g[x].slug && KeyOf(g, x) == Some(n.key);
    var m :| m in order && m.slug == g[y].slug && KeyOf(g, y) == Some(m.key);
    KeyShowsDoc(g, x, n.key);
    KeyShowsDoc(g, y, m.key);
  }

  lemma OwnKeysMeanAgreement(g: Graph, roots: seq<Ref>, order: seq<Node>)
    requires RefsIn(g, roots) && IsPlan(g, roots, order) && EachGetsOwnKey(g, roots, order)
    ensures DuplicatesAgreeBelow(g, roots)
  {
    hide TopologicalOrder, OwnKey, AllAgree, DocOf, ReachedFrom;
    forall x: nat, y: nat | x in g && y in g && ReachedFrom(g, roots, x) && ReachedFrom(g, roots, y) && DocOf(g, x) == DocOf(g, y)
      ensures DepsAgree(g, x, y)
    {
      SameDocSameSlug(g, x, y);
      OwnKeysAgree(g, order, x, y);
      OwnKeysAgree(g, order, y, x);
      forall a, b | a in g[x].deps && b in g[y].deps && a.To? && b.To? && g[a.id].slug == g[b.id].slug
        ensures DocOf(g, a.id) == DocOf(g, b.id) {
        DepReached(g, roots, x, a);
        DepReached(g, roots, y, b);
        OwnKeysAgree(g, order, a.id, b.id);
      }
    }
  }

  lemma SameDocSameSlug(g: Graph, x: nat, y: nat)
    requires x in g && y in g && DocOf(g, x) == DocOf(g, y)
    ensures g[x].slug == g[y].slug
  {
    hide DepSlugs, Elems;
    assert DocOf(g, x).slug == DocOf(g, y).slug;
  }

  lemma DepReached(g: Graph, roots: seq<Ref>, x: nat, r: Ref)
    requires RefsIn(g, roots) && ReachedFrom(g, roots, x) && x in g && r in g[x].deps && r.To?
    ensures ReachedFrom(g, roots, r.id)
  {
    var root := RootOf(g, roots, x);
    ReachesOneMore(g, root.id, x, r);
    hide Reaches;
  }

  /** What a caller can check on the graph and the cache before the call: a key cached for the slug of
      a reachable job was made from that job's document. */
  ghost predicate CacheAgrees(g: Graph, roots: seq<Ref>, start: map<string, Key>)
    requires RefsIn(g, roots)
  {
    forall x | x in g && ReachedFrom(g, roots, x) && g[x].slug in start :: KeyHasDoc(g, x, start[g[x].slug])
  }

  /** An accepted plan, whatever earlier calls left in the cache, gives every job below the roots its
      own key exactly when the comparison of `sameJob` also passes for the deps of reachable duplicates
      and for the cached documents: no reachable job differs from its namesake below the original, or
      from the job its slug's key was computed for before. */
  lemma OwnKeysExactly(g: Graph, roots: seq<Ref>, order: seq<Node>, start: map<string, Key>, keys: map<string, Key>)
    requires RefsIn(g, roots) && IsPlan(g, roots, order) && FromCache(g, start, keys, order)
    ensures EachGetsOwnKey(g, roots, order) <==> DuplicatesAgreeBelow(g, roots) && CacheAgrees(g, roots, start)
  {
    hide TopologicalOrder, DuplicatesAgreeBelow, AllAgree, ReachedFrom, Chained, OwnKey, FromCache, CacheAgrees;
    if DuplicatesAgreeBelow(g, roots) && CacheAgrees(g, roots, start) {
      AgreeingCacheChains(g, roots, order, start, keys);
      forall x | x in g && ReachedFrom(g, roots, x) ensures OwnKey(g, order, x) {
        OwnKeyOf(g, roots, order, x);
      }
    }
    if EachGetsOwnKey(g, roots, order) {
      OwnKeysMeanAgreement(g, roots, order);
      OwnKeysMeanCacheAgrees(g, roots, order, start, keys);
    }
  }

  lemma AgreeingCacheChains(g: Graph, roots: seq<Ref>, order: seq<Node>, start: map<string, Key>, keys: map<string, Key>)
    requires RefsIn(g, roots) && IsPlan(g, roots, order) && FromCache(g, start, keys, order) && CacheAgrees(g, roots, start)
    ensures Chained(g, order)
  {
    hide TopologicalOrder, AllAgree, ReachedFrom, KeyHasDoc, ValidKeys, Chained;
    forall n | n in order ensures n.job in g && KeyHasDoc(g, n.job, n.key) {
      assert KeyedNode(g, start, keys, n);
    }
    ChainsExactly(g, start, keys, order);
  }

  lemma OwnKeysMeanCacheAgrees(g: Graph, roots: seq<Ref>, order: seq<Node>, start: map<string, Key>, keys: map<string, Key>)
    requires RefsIn(g, roots) && FromCache(g, start, keys, order) && EachGetsOwnKey(g, roots, order)
    ensures CacheAgrees(g, roots, start)
  {
    hide ReachedFrom, KeyOf, ValidKeys;
    forall x | x in g && ReachedFrom(g, roots, x) && g[x].slug in start ensures KeyHasDoc(g, x, start[g[x].slug]) {
      assert OwnKey(g, order, x);
      var n :| n in order && n.slug == g[x].slug && KeyOf(g, x) == Some(n.key);
      assert KeyedNode(g, start, keys, n);
      KeyShowsDoc(g, x, n.key);
    }
  }

  /** So a root without a key is always refused when the comparisons pass. */
  lemma FaultyRootsAreRefused(g: Graph, roots: seq<Ref>, order: seq<Node>, start: map<string, Key>, keys: map<string, Key>)
    requires RefsIn(g, roots) && IsPlan(g, roots, order) && FromCache(g, start, keys, order)
    requires DuplicatesAgreeBelow(g, roots) && CacheAgrees(g, roots, start)
    ensures forall r | r in roots :: r.To? && KeyOf(g, r.id).Some?
  {
    OwnKeysExactly(g, roots, order, start, keys);
    hide TopologicalOrder, DuplicatesAgreeBelow, FromCache, CacheAgrees, HasAgreeing, KeyOf, Reaches;
    forall r | r in roots ensures r.To? && KeyOf(g, r.id).Some? {
      ReachesItself(g, r.id);
      assert OwnKey(g, order, r.id);
    }
  }

  lemma OwnKeyOf(g: Graph, roots: seq<Ref>, order: seq<Node>, x: nat)
    requires RefsIn(g, roots) && IsPlan(g, roots, order) && Chained(g, order) && DuplicatesAgreeBelow(g, roots)
    requires x in g && ReachedFrom(g, roots, x)
    ensures OwnKey(g, order, x)
  {
    hide TopologicalOrder, DuplicatesAgreeBelow, AllAgree, ReachedFrom, Chained, DocOf, IsPlan;
    ReachedAgreed(g, roots, order, x);
    var n :| n in order && n.job in g && n.slug == g[x].slug && DocOf(g, x) == DocOf(g, n.job);
    var i :| 0 <= i < |order| && order[i] == n;
    AgreedKey(g, roots, order, i, x, {});
  }

  // ---------------------------------------------------------------- what the served jobs receive

  /** The content of a listed node is its own recipe built upon the contents of the listed nodes it
      depends on, whichever jobs of those slugs the duplicates named. */
  lemma ListedContent<C>(build: Builder<C>, g: Graph, order: seq<Node>, n: Node, contents: map<string, C>)
    requires TopologicalOrder(g, order) && Chained(g, order) && n in order && contents.Keys == Elems(n.deps)
    requires forall m | m in order && m.slug in n.deps :: m.slug in contents && contents[m.slug] == Denote(build, m.key)
    ensures n.job in g && Denote(build, n.key) == build(Recipe(g[n.job].name, n.slug, g[n.job].inputs), contents)
  {
    assert ChainedNode(g, order, n);
    InElemsAll(n.deps);
    hide Denote;
    var i :| 0 <= i < |order| && order[i] == n;
    forall d | d in contents ensures contents[d] == Denote(build, n.key.deps[d]) {
      var k := DepIsEarlier(g, order, i, d);
      assert order[k] in order;
    }
    ContentOf(build, n.key, contents);
  }

  lemma ContentOf<C>(build: Builder<C>, k: Key, contents: map<string, C>)
    requires contents.Keys == k.deps.Keys && forall d | d in contents :: contents[d] == Denote(build, k.deps[d])
    ensures Denote(build, k) == build(Recipe(k.name, k.slug, k.inputs), contents)
  {
    assert k == Hash(k.name, k.slug, k.inputs, k.deps);
    assert (map d | d in k.deps :: Denote(build, k.deps[d])) == contents;
  }

  lemma InElemsAll(s: seq<string>)
    ensures forall x :: x in Elems(s) <==> x in s
  {
  }

  // ---------------------------------------------------------------- a plan that hides a conflict

  /** Two jobs named "c" that each depend on a job named "d", the two "d" differing in their inputs. */
  function Deep(): Graph {
    map[0 := Job("dep", "c", map[], [To(2)]), 1 := Job("dep", "c", map[], [To(3)]),
        2 := Job("dep", "d", map[], []), 3 := Job("dep", "d", map["flag" := "on"], [])]
  }

  lemma DeepDeps()
    ensures var g := Deep();
            && DepSlugs(g, g[0].deps) == ["d"] && DepSlugs(g, g[1].deps) == ["d"]
            && DepSlugs(g, g[2].deps) == [] && DepSlugs(g, g[3].deps) == []
  {
    var none: seq<Ref> := [];
    assert [To(2)][..0] == none && [To(3)][..0] == none;
  }

  lemma DeepRootsAgree()
    ensures SameOneLevel(Deep(), 0, 1)
  {
    hide DepSlugs;
    DeepDeps();
  }

  lemma DeepReaches(x: nat)
    requires Reaches(Deep(), 0, x)
    ensures x == 0 || x == 2
  {
    ReachesWithin(Deep(), {0, 2}, 0, x);
  }

  lemma DeepEdge(a: nat, b: nat)
    requires a in Deep() && To(b) in Deep()[a].deps
    ensures (a == 0 || a == 1) && (b == 2 || b == 3)
    ensures Deep()[a].slug == "c" && b in Deep() && Deep()[b].slug == "d"
  {
  }

  lemma DeepPath(x: nat, p: seq<nat>, trace: seq<string>)
    requires PathFrom(Deep(), x, p) && Spells(Deep(), p, trace)
    ensures |trace| < 2 || trace == ["c", "d"]
  {
    hide Deep;
    if |p| >= 2 {
      assert To(p[0+1]) in Deep()[p[0]].deps;
      DeepEdge(p[0], p[1]);
      if |p| > 2 {
        DeepEdge(p[1], p[1+1]);
      }
    }
  }

  lemma DeepHasNoCycle(trace: seq<string>)
    ensures !ClosesCycle(Deep(), 0, [], trace)
  {
    DeepName();
    hide Deep, Reaches, PathFrom, Spells;
    if ClosesCycle(Deep(), 0, [], trace) {
      var x := CycleStart(Deep(), 0, trace);
      var p :| PathFrom(Deep(), x, p) && Spells(Deep(), p, trace);
      DeepPath(x, p, trace);
    }
  }

  lemma DeepSlugsAreFine()
    ensures ValidSlug("c") && ValidSlug("d") && !Unusable("c") && !Unusable("d")
  {
    SlugsRefused("c");
    SlugsRefused("d");
  }

  lemma DeepBlamesNothing(e: Error)
    ensures !Blames(Deep(), 0, [], e)
  {
    hide Reaches, ClosesCycle;
    DeepSlugsAreFine();
    hide ValidSlug, Unusable;
    forall x | Reaches(Deep(), 0, x) ensures x == 0 || x == 2 {
      DeepReaches(x);
    }
    if e.Cycle? {
      DeepHasNoCycle(e.trace);
    }
  }

  lemma DeepHidesTheConflict(slug: string, x: nat, y: nat)
    ensures !RootsDiffer(Deep(), [To(0), To(1)], 0, slug, x, y)
  {
    hide Reaches, FingerprintOf;
    var g, roots := Deep(), [To(0), To(1)];
    assert roots[..1] == [To(0)];
    if Reaches(g, 0, x) && ReachedFrom(g, roots[..1], y) {
      DeepReaches(x);
      DeepReaches(y);
    }
  }

  lemma DeepFirstRootIsFine(e: Error)
    ensures !FaultyRoot(Deep(), [To(0), To(1)], 0, e)
  {
    hide Blames, RootsDiffer, AgreesEarlier;
    DeepBlamesNothing(e);
    forall slug, x: nat, y: nat ensures !RootsDiffer(Deep(), [To(0), To(1)], 0, slug, x, y) {
      DeepHidesTheConflict(slug, x, y);
    }
  }

  lemma DeepSecondRootIsFine(e: Error)
    ensures !FaultyRoot(Deep(), [To(0), To(1)], 1, e)
  {
    hide Blames, RootsDiffer, SameOneLevel;
    var roots := [To(0), To(1)];
    DeepRootsAgree();
    assert roots[0].To? && SameOneLevel(Deep(), roots[0].id, roots[1].id);
    assert AgreesEarlier(Deep(), roots, 1);
  }

  /** `resolve` has no reason to fail on it. */
  lemma DeepHasNoFault(e: Error)
    ensures !SomeRootFaulty(Deep(), [To(0), To(1)], e)
  {
    hide FaultyRoot, Deep;
    DeepFirstRootIsFine(e);
    DeepSecondRootIsFine(e);
  }

  // ---------------------------------------------------------------- and its keys

  lemma LeafKey(g: Graph, x: nat, path: set<string>)
    requires x in g && g[x].deps == [] && ValidSlug(g[x].slug) && g[x].slug !in path
    ensures KeyBelow(g, x, path) == Some(Hash(g[x].name, g[x].slug, g[x].inputs, map[]))
  {
  }

  lemma OneDepKey(g: Graph, x: nat, d: nat, k: Key)
    requires x in g && g[x].deps == [To(d)] && ValidSlug(g[x].slug)
    requires KeyBelow(g, d, {g[x].slug}) == Some(k)
    ensures KeyOf(g, x) == Some(Hash(g[x].name, g[x].slug, g[x].inputs, map[g[d].slug := k]))
  {
    var none: seq<Ref> := [];
    var slug := g[x].slug;
    assert [To(d)][..0] == none;
    assert DepKeys(g, none, {slug}) == Some(map[]);
    assert DepKeys(g, [To(d)], {slug}) == Some(map[g[d].slug := k]);
    assert {} + {slug} == {slug};
  }

  ghost function PlainD(): Key {
    Hash("dep", "d", map[], map[])
  }

  ghost function FlaggedD(): Key {
    Hash("dep", "d", map["flag" := "on"], map[])
  }

  lemma DeepKeys()
    ensures KeyOf(Deep(), 0) == Some(Hash("dep", "c", map[], map["d" := PlainD()]))
    ensures KeyOf(Deep(), 1) == Some(Hash("dep", "c", map[], map["d" := FlaggedD()]))
  {
    hide KeyBelow, KeyOf;
    DeepSlugsAreFine();
    hide ValidSlug;
    LeafKey(Deep(), 2, {"c"});
    LeafKey(Deep(), 3, {"c"});
    OneDepKey(Deep(), 0, 2, PlainD());
    OneDepKey(Deep(), 1, 3, FlaggedD());
  }

  lemma DeepKeysDiffer()
    ensures KeyOf(Deep(), 0).Some? && KeyOf(Deep(), 1).Some? && KeyOf(Deep(), 0) != KeyOf(Deep(), 1)
  {
    DeepKeys();
    hide KeyOf;
    var none: map<string, string> := map[];
    assert "flag" in FlaggedD().inputs && "flag" !in none;
    assert PlainD() != FlaggedD();
    var x, y := map["d" := PlainD()], map["d" := FlaggedD()];
    assert x["d"] != y["d"];
  }

  /** In a chained plan of it, the node that serves both roots has the first root's key. */
  lemma DeepServesJobZero(order: seq<Node>)
    requires IsPlan(Deep(), [To(0), To(1)], order) && Chained(Deep(), order)
    requires Covered(Deep(), [To(0), To(1)], 2, order)
    ensures exists n :: n in order && n.slug == "c" && KeyOf(Deep(), 0) == Some(n.key)
  {
    hide KeyOf, TopologicalOrder, AllAgree, Chained, DepSlugs, ReachedFrom, Deep;
    DeepName();
    var n := FirstRootNode(Deep(), [To(0), To(1)], order);
    var m := DeepDepNode(order, n);
    DeepKeyOf(order, n, m);
    DeepKeys();
  }

  lemma FirstRootNode(g: Graph, roots: seq<Ref>, order: seq<Node>) returns (n: Node)
    requires RefsIn(g, roots) && roots != [] && Covered(g, roots, |roots|, order)
    ensures roots[0].To? && n in order && n.job == roots[0].id
  {
    hide ReachedFrom;
    n :| n in order && n.job == roots[0].id;
  }

  lemma DeepKeyOf(order: seq<Node>, n: Node, m: Node)
    requires ChainedNode(Deep(), order, n) && n.job == 0 && n.slug == "c" && Elems(n.deps) == {"d"} && "d" in n.deps
    requires m in order && m.slug == "d" && m.key == PlainD()
    ensures n.key == Hash("dep", "c", map[], map["d" := PlainD()])
  {
    assert n.key.deps == map["d" := PlainD()];
  }

  /** The node its dep agrees with can only be job 2. */
  lemma DeepDepNode(order: seq<Node>, n: Node) returns (m: Node)
    requires TopologicalOrder(Deep(), order) && Chained(Deep(), order) && n in order && n.job == 0
    ensures n.slug == "c" && Elems(n.deps) == {"d"} && "d" in n.deps
    ensures m in order && m.slug == "d" && m.key == PlainD() && ChainedNode(Deep(), order, n)
  {
    var g := Deep();
    hide TopologicalOrder;
    NodeHasNoNil(g, order, n);
    assert To(2) in g[n.job].deps;
    assert HasAgreeing(g, order, 2);
    m :| m in order && m.slug == g[2].slug && m.job in g && FingerprintOf(g, m.job) == FingerprintOf(g, 2);
    SameFingerprintSameDoc(g, m.job, 2);
    NodeHasNoNil(g, order, m);
    DeepDeps();
    ElemsOne("d");
    InElemsAll(n.deps);
    assert ChainedNode(g, order, m) && ChainedNode(g, order, n);
    hide DepSlugs, Elems, ChainedNode, Chained, HasAgreeing;
    LeafDoc(g, order, m);
  }

  lemma LeafDoc(g: Graph, order: seq<Node>, m: Node)
    requires ChainedNode(g, order, m) && Elems(m.deps) == {} && m.slug == g[m.job].slug
    ensures m.key == Hash(g[m.job].name, g[m.job].slug, g[m.job].inputs, map[])
  {
    assert m.key.deps == map[];
  }

  /** A recipe that leaves its mark: it tells apart what was built from what. */
  ghost function Marked(r: Recipe, deps: map<string, Key>): Key {
    Hash(r.name, r.slug, r.inputs, deps)
  }

  lemma {:induction false} MarksAreKeys(k: Key)
    ensures Denote(Marked, k) == k
  {
    forall d | d in k.deps ensures Denote(Marked, k.deps[d]) == k.deps[d] {
      MarksAreKeys(k.deps[d]);
    }
    assert k == Hash(k.name, k.slug, k.inputs, k.deps);
    assert (map d | d in k.deps :: Denote(Marked, k.deps[d])) == k.deps;
  }

  /** So a node with job 0's key holds what job 0 builds, and that is not what job 1 would build. */
  lemma JobOneReceivesJobZero<C>(build: Builder<C>, n: Node)
    requires KeyOf(Deep(), 0) == Some(n.key)
    ensures Denote(build, n.key) == FromScratch(build, Deep(), 0, {})
    ensures KeyOf(Deep(), 1).Some? && FromScratch(Marked, Deep(), 1, {}) != FromScratch(Marked, Deep(), 0, {})
  {
    DeepKeysDiffer();
    DeepName();
    hide Deep, Marked, FromScratch, Denote;
    KeyDenotesFromScratch(build, Deep(), 0, {});
    KeyDenotesFromScratch(Marked, Deep(), 0, {});
    KeyDenotesFromScratch(Marked, Deep(), 1, {});
    MarksAreKeys(KeyOf(Deep(), 0).value);
    MarksAreKeys(KeyOf(Deep(), 1).value);
  }

  lemma DeepName()
    ensures 0 in Deep() && 1 in Deep() && Deep()[1].slug == "c" && RefsIn(Deep(), [To(0), To(1)])
  {
  }

  lemma NothingCached(g: Graph)
    ensures ValidKeys(map[]) && SoundKeys(g, map[])
  {
  }

  /** `resolve` accepts the two roots and serves both from job 0: job 1, whose own key is another,
      receives what job 0 builds. */
  method ResolveDeep() returns (order: seq<Node>)
    ensures IsPlan(Deep(), [To(0), To(1)], order) && Chained(Deep(), order)
    ensures exists n :: n in order && n.slug == Deep()[1].slug && KeyOf(Deep(), 0) == Some(n.key)
    ensures KeyOf(Deep(), 1).Some? && KeyOf(Deep(), 1) != KeyOf(Deep(), 0)
  {
    hide Deep, SomeRootFaulty, IsPlan, Chained, Covered, KeyOf;
    var cache := new KeyCache();
    NothingCached(Deep());
    DeepName();
    var r := Resolve(Deep(), [To(0), To(1)], cache);
    if r.Err? {
      DeepHasNoFault(r.error);
      assert false;
    }
    order := r.value;
    DeepServesJobZero(order);
    DeepKeysDiffer();
  }
}
