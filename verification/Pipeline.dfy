/** From a job graph to finished artifacts: `resolve` feeding `Run`. */
module Pipeline {
  import opened Common
  import opened Jobs
  import Resolver
  import SlugConflicts
  import opened Engine
  import opened EngineSafety
  import opened EngineProgress

  /** The nodes a run works on. */
  function NodesOf(order: seq<Resolver.Node>): map<string, Node> {
    if order == [] then map[]
    else
      var n := order[|order|-1];
      NodesOf(order[..|order|-1])[n.slug := Node(n.key, n.deps)]
  }

  lemma {:induction false} NodesAt(order: seq<Resolver.Node>)
    requires forall i, k | 0 <= i < k < |order| :: order[i].slug != order[k].slug
    ensures forall n | n in order :: n.slug in NodesOf(order) && NodesOf(order)[n.slug] == Node(n.key, n.deps)
    ensures forall s | s in NodesOf(order) :: exists n :: n in order && n.slug == s
  {
    if order != [] {
      var init, last := order[..|order|-1], order[|order|-1];
      NodesAt(init);
      assert order == init + [last];
    }
  }

  lemma SortedDistinct(s: seq<string>)
    requires StrictlySorted(s)
    ensures forall i, k | 0 <= i < k < |s| :: s[i] != s[k]
  {
    forall i, k | 0 <= i < k < |s| ensures s[i] != s[k] {
      LessIrreflexive(s[i]);
    }
  }

  /** A node whose key is made of the keys of the listed nodes it depends on. */
  ghost predicate KeyedByNodes(order: seq<Resolver.Node>, n: Resolver.Node) {
    && n.key.slug == n.slug && n.key.deps.Keys == Elems(n.deps)
    && forall m | m in order && m.slug in n.deps :: n.key.deps[m.slug] == m.key
  }

  lemma KeyedNodesArePlanned(g: Graph, order: seq<Resolver.Node>, s: string)
    requires Resolver.TopologicalOrder(g, order) && s in NodesOf(order)
    requires forall n | n in order :: KeyedByNodes(order, n)
    ensures Planned(NodesOf(order), s)
  {
    NodesAt(order);
    var n: Resolver.Node :| n in order && n.slug == s;
    assert KeyedByNodes(order, n);
    var i :| 0 <= i < |order| && order[i] == n;
    assert Resolver.Placed(g, order[..i], n);
    SortedDistinct(n.deps);
    forall d | d in n.deps ensures exists m :: m in order && m.slug == d {
      var k := Resolver.DepIsEarlier(g, order, i, d);
      assert order[k] in order;
    }
  }

  /** What `resolve` returns is a plan `Run` can start from. */
  lemma ResolvedNodesArePlanned(g: Graph, roots: seq<Ref>, order: seq<Resolver.Node>, s: string)
    requires RefsIn(g, roots) && SlugDetermines(g) && Resolver.IsPlan(g, roots, order) && Resolver.RightKeys(g, order)
    requires s in NodesOf(order)
    ensures Planned(NodesOf(order), s)
  {
    hide SlugDetermines, Resolver.RightKeys, Resolver.ReachedFrom, Resolver.TopologicalOrder, Resolver.AllAgree;
    forall n | n in order ensures KeyedByNodes(order, n) {
      Resolver.PlanChainsKeys(g, roots, order, n);
    }
    KeyedNodesArePlanned(g, order, s);
  }

  /** So is what it returns from an empty cache, whether slugs determine content or not. */
  lemma ChainedNodesArePlanned(g: Graph, order: seq<Resolver.Node>, s: string)
    requires Resolver.TopologicalOrder(g, order) && Resolver.Chained(g, order) && s in NodesOf(order)
    ensures Planned(NodesOf(order), s)
  {
    hide Resolver.TopologicalOrder;
    forall n | n in order ensures KeyedByNodes(order, n) {
      assert Resolver.ChainedNode(g, order, n);
    }
    KeyedNodesArePlanned(g, order, s);
  }

  /** End to end: when a run of a resolved plan reports success and no build lied, every root was
      found or published with exactly the content of its from-scratch build, whatever any other
      process did meanwhile. */
  lemma RunDeliversFromScratch<C>(build: Builder<C>, g: Graph, roots: seq<Ref>, order: seq<Resolver.Node>,
                                  states: seq<State<C>>, labels: seq<Label>, i: nat, r: nat, root: nat)
    requires RefsIn(g, roots) && SlugDetermines(g) && Resolver.IsPlan(g, roots, order) && Resolver.RightKeys(g, order)
    requires IsHistory(build, states, labels) && i < |states|
    requires r in states[0].runs && states[0].runs[r].nodes == NodesOf(order)
    requires r in states[i].runs && Finished(states[i].runs[r])
    requires Reported(states[i].runs[r]).Fine? && !states[i].runs[r].lied
    requires To(root) in roots
    ensures KeyOf(g, root).Some? && g[root].slug in states[i].runs[r].workers
    ensures states[i].runs[r].workers[g[root].slug].pc == Done(Succeeded(FromScratch(build, g, root, {})))
  {
    hide SlugDetermines, Resolver.TopologicalOrder, Resolver.ReachedFrom, Denote, Finished, Step, Invariant;
    assert Resolver.HasAgreeing(g, order, root);
    var m: Resolver.Node :| m in order && m.slug == g[root].slug && m.job in g;
    RootNode(g, order, root, m);
    StepsAddUp(build, states, labels, i, r, m.slug);
    RunReportsTruly(build, states, labels, i, r);
    KeyDenotesFromScratch(build, g, root, {});
  }

  /** Without the assumption about slugs: a successful run of an accepted plan serves every root with
      the content of the node listed for its slug, and that is the root's own from-scratch build
      whenever reachable duplicates agree below. */
  lemma RunServesListedContent<C>(build: Builder<C>, g: Graph, roots: seq<Ref>, order: seq<Resolver.Node>,
                                  states: seq<State<C>>, labels: seq<Label>, i: nat, r: nat, root: nat)
    returns (n: Resolver.Node)
    requires RefsIn(g, roots) && Resolver.IsPlan(g, roots, order) && Resolver.Chained(g, order)
    requires IsHistory(build, states, labels) && i < |states|
    requires r in states[0].runs && states[0].runs[r].nodes == NodesOf(order)
    requires r in states[i].runs && Finished(states[i].runs[r])
    requires Reported(states[i].runs[r]).Fine? && !states[i].runs[r].lied
    requires To(root) in roots
    ensures n in order && n.slug == g[root].slug && n.slug in states[i].runs[r].workers
    ensures states[i].runs[r].workers[n.slug].pc == Done(Succeeded(Denote(build, n.key)))
    ensures SlugConflicts.DuplicatesAgreeBelow(g, roots) ==>
              KeyOf(g, root).Some? && Denote(build, n.key) == FromScratch(build, g, root, {})
  {
    hide Resolver.TopologicalOrder, Resolver.ReachedFrom, Denote, Finished, Step, Invariant, KeyOf, FromScratch, Resolver.Chained;
    hide SlugConflicts.DuplicatesAgreeBelow, SlugConflicts.OwnKey;
    hide Resolver.AllAgree, IsHistory, Reported, Resolver.IsPlan;
    n := NodeFor(g, roots, order, root);
    ListedNode(g, order, n);
    StepsAddUp(build, states, labels, i, r, n.slug);
    RunReportsTruly(build, states, labels, i, r);
    if SlugConflicts.DuplicatesAgreeBelow(g, roots) {
      NodeIsOwn(build, g, roots, order, root, n);
    }
  }

  lemma NodeFor(g: Graph, roots: seq<Ref>, order: seq<Resolver.Node>, root: nat) returns (n: Resolver.Node)
    requires RefsIn(g, roots) && Resolver.IsPlan(g, roots, order) && To(root) in roots
    ensures root in g && Resolver.TopologicalOrder(g, order) && n in order && n.slug == g[root].slug
  {
    hide Resolver.TopologicalOrder, FingerprintOf;
    assert Resolver.HasAgreeing(g, order, root);
    n :| n in order && n.slug == g[root].slug && n.job in g;
  }

  lemma NodeIsOwn<C>(build: Builder<C>, g: Graph, roots: seq<Ref>, order: seq<Resolver.Node>, root: nat, n: Resolver.Node)
    requires RefsIn(g, roots) && Resolver.IsPlan(g, roots, order) && Resolver.Chained(g, order)
    requires SlugConflicts.DuplicatesAgreeBelow(g, roots) && To(root) in roots
    requires n in order && root in g && n.slug == g[root].slug
    ensures KeyOf(g, root).Some? && Denote(build, n.key) == FromScratch(build, g, root, {})
  {
    hide Resolver.TopologicalOrder, Resolver.ReachedFrom, Resolver.Chained, Denote, FromScratch;
    hide SlugConflicts.DuplicatesAgreeBelow, SlugConflicts.OwnKey;
    RootIsReached(g, roots, root);
    SlugConflicts.OwnKeyOf(g, roots, order, root);
    OwnKeyOfNode(g, order, root, n);
    KeyDenotesFromScratch(build, g, root, {});
  }

  lemma ListedNode(g: Graph, order: seq<Resolver.Node>, n: Resolver.Node)
    requires Resolver.TopologicalOrder(g, order) && n in order
    ensures n.slug in NodesOf(order) && NodesOf(order)[n.slug].key == n.key
  {
    NodesAt(order);
  }

  lemma RootIsReached(g: Graph, roots: seq<Ref>, root: nat)
    requires RefsIn(g, roots) && To(root) in roots
    ensures root in g && Resolver.ReachedFrom(g, roots, root)
  {
    ReachesItself(g, root);
  }

  lemma OwnKeyOfNode(g: Graph, order: seq<Resolver.Node>, x: nat, n: Resolver.Node)
    requires Resolver.TopologicalOrder(g, order) && x in g && n in order && n.slug == g[x].slug
    requires SlugConflicts.OwnKey(g, order, x)
    ensures KeyOf(g, x) == Some(n.key)
  {
    hide Resolver.Placed, KeyOf;
  }

  lemma RootNode(g: Graph, order: seq<Resolver.Node>, root: nat, m: Resolver.Node)
    requires SlugDetermines(g) && Resolver.TopologicalOrder(g, order) && Resolver.RightKeys(g, order)
    requires root in g && m in order && m.job in g && m.slug == g[root].slug
    ensures KeyOf(g, root) == Some(m.key)
    ensures m.slug in NodesOf(order) && NodesOf(order)[m.slug].key == m.key
  {
    NodesAt(order);
    Resolver.PlanPlaces(g, order, m);
    SameSlugSameKey(g, root, m.job, {});
  }

  /** Changing one input rebuilds exactly what depends on it: an artifact that was valid for a job
      is valid after the inputs of slug t change if and only if the job does not reach t. */
  lemma ChangeRebuildsExactlyDependents<C>(store: Store<C>, g: Graph, j: nat, t: string, inputs: map<string, string>)
    requires j in g && SlugDetermines(g) && KeyOf(g, j).Some?
    requires forall x | x in g && g[x].slug == t :: g[x].inputs != inputs
    requires ValidAt(store, g[j].slug, KeyOf(g, j).value)
    ensures var h := WithInputs(g, t, inputs);
            KeyOf(h, j).Some? && (ValidAt(store, h[j].slug, KeyOf(h, j).value) <==> !ReachesSlug(g, j, t))
  {
    hide SlugDetermines, KeyOf, ReachesSlug;
    KeyIsExactlySensitive(g, j, t, inputs);
  }
}
