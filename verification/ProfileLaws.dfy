/** What inheritance and scopes mean for a resolution, said of the profile table itself: which profile
    or scope table decides a setting, a flag, or a field of a package. */
module ProfileLaws {
  import opened Common
  import opened Profiles

  // ---------------------------------------------------------------- the chain

  lemma {:induction false} AncestorOfParent(profiles: Table, name: string, k: nat)
    requires name in profiles && name != ""
    ensures Ancestor(profiles, name, k + 1) == Ancestor(profiles, profiles[name].inherit, k)
  {
    if k > 0 {
      AncestorOfParent(profiles, name, k - 1);
    }
  }

  lemma {:induction false} ChainAt(profiles: Table, name: string, seen: set<string>, k: nat)
    requires ChainUp(profiles, name, seen).Ok? && k <= |ChainUp(profiles, name, seen).value|
    ensures var c := ChainUp(profiles, name, seen).value;
            Ancestor(profiles, name, k) == Some(if k < |c| then c[|c|-1-k] else "")
    decreases profiles.Keys - seen
  {
    if name != "" && k > 0 {
      ChainAt(profiles, profiles[name].inherit, seen + {name}, k - 1);
      AncestorOfParent(profiles, name, k - 1);
    }
  }

  /** The chain lists the ancestors root first: k places before its end stands the k-th ancestor, and
      its first profile inherits nothing. */
  lemma ChainIsAncestors(profiles: Table, name: string, chain: seq<string>)
    requires ChainUp(profiles, name, {}) == Ok(chain)
    ensures forall k | 0 <= k < |chain| :: Ancestor(profiles, name, k) == Some(chain[|chain|-1-k])
    ensures Ancestor(profiles, name, |chain|) == Some("")
  {
    forall k | 0 <= k <= |chain|
      ensures Ancestor(profiles, name, k) == Some(if k < |chain| then chain[|chain|-1-k] else "") {
      ChainAt(profiles, name, {}, k);
    }
  }

  // ---------------------------------------------------------------- layers by name

  /** The scope table the whole family of a scope shares: "deps" for "deps" and for every "deps.x". */
  function Family(scope: string): string {
    if "deps." <= scope then "deps" else scope
  }

  function TableFor(p: Profile, scope: string): Option<Profile> {
    if scope in p.scopes then Some(p.scopes[scope]) else None
  }

  /** What one profile says for a scope: its own values, its table for the scope's family, and its
      table for one dependency. */
  function Own(p: Profile, scope: string, l: nat): Option<Profile> {
    if l == 0 then Some(p)
    else if l == 1 then TableFor(p, Family(scope))
    else if l == 2 && "deps." <= scope then TableFor(p, scope)
    else None
  }

  /** What the k-th ancestor says. */
  function LayerAt(profiles: Table, name: string, scope: string, k: nat, l: nat): Option<Profile> {
    match Ancestor(profiles, name, k)
    case None => None
    case Some(x) => if x in profiles && x != "" then Own(profiles[x], scope, l) else None
  }

  /** A child is more specific than its parent, and within a profile a scope than the profile itself
      and one dependency than all of them. */
  predicate MoreSpecific(k: nat, l: nat, k': nat, l': nat) {
    k < k' || (k == k' && l > l')
  }

  predicate Sets<T>(layer: Option<Profile>, get: Profile -> Option<T>) {
    layer.Some? && get(layer.value).Some?
  }

  /** This layer sets the field, and nothing more specific does. */
  ghost predicate Decides<T>(profiles: Table, name: string, scope: string, get: Profile -> Option<T>, k: nat, l: nat) {
    && Sets(LayerAt(profiles, name, scope, k, l), get)
    && forall k': nat, l': nat | MoreSpecific(k', l', k, l) :: !Sets(LayerAt(profiles, name, scope, k', l'), get)
  }

  ghost predicate NobodySets<T>(profiles: Table, name: string, scope: string, get: Profile -> Option<T>) {
    forall k: nat, l: nat :: !Sets(LayerAt(profiles, name, scope, k, l), get)
  }

  lemma NotSetAt<T>(profiles: Table, name: string, scope: string, get: Profile -> Option<T>, k: nat, l: nat)
    requires NobodySets(profiles, name, scope, get)
    ensures !Sets(LayerAt(profiles, name, scope, k, l), get)
  {
  }

  /** Where neither the profile nor anyone above it sets the field, its own layers do not, and the
      parent's do not. */
  lemma NobodyAbove<T>(profiles: Table, name: string, scope: string, get: Profile -> Option<T>)
    requires name in profiles && name != "" && NobodySets(profiles, name, scope, get)
    ensures NobodySets(profiles, profiles[name].inherit, scope, get)
    ensures forall l: nat :: !Sets(Own(profiles[name], scope, l), get)
  {
    forall l: nat ensures !Sets(Own(profiles[name], scope, l), get) {
      LayerOfParent(profiles, name, scope, 0, l);
      NotSetAt(profiles, name, scope, get, 0, l);
    }
    forall k: nat, l: nat ensures !Sets(LayerAt(profiles, profiles[name].inherit, scope, k, l), get) {
      LayerOfParent(profiles, name, scope, k, l);
      NotSetAt(profiles, name, scope, get, k + 1, l);
    }
  }

  /** The value is that of the most specific layer that sets the field, and the default when none does. */
  ghost predicate Overrides<T>(profiles: Table, name: string, scope: string, get: Profile -> Option<T>, default: T, v: T) {
    && (NobodySets(profiles, name, scope, get) ==> v == default)
    && forall k: nat, l: nat | Decides(profiles, name, scope, get, k, l) ::
         v == get(LayerAt(profiles, name, scope, k, l).value).value
  }

  // ---------------------------------------------------------------- one profile's layers

  lemma {:induction false} LastConcat<T>(default: T, a: seq<Profile>, b: seq<Profile>, get: Profile -> Option<T>)
    ensures Last(default, a + b, get) == Last(Last(default, a, get), b, get)
  {
    if b == [] {
      assert a + b == a;
    } else {
      LastConcat(default, a, b[..|b|-1], get);
      assert (a + b)[..|a + b|-1] == a + b[..|b|-1];
    }
  }

  function OwnLayers(p: Profile, scopes: seq<string>): seq<Profile> {
    [p] + ScopesOf(p, scopes)
  }

  lemma LastOne<T>(default: T, p: Profile, get: Profile -> Option<T>)
    ensures Last(default, [p], get) == Or(get(p), default) && Last(default, [], get) == default
  {
    assert [p][..0] == [];
  }

  lemma ScopesOne(p: Profile, scopes: seq<string>, scope: string)
    ensures ScopesOf(p, scopes + [scope]) ==
            ScopesOf(p, scopes) + Listed(TableFor(p, scope))
    ensures ScopesOf(p, []) == []
  {
    assert (scopes + [scope])[..|scopes|] == scopes;
  }

  function Listed(layer: Option<Profile>): seq<Profile> {
    match layer case None => [] case Some(p) => [p]
  }

  lemma OneScope(p: Profile, scope: string)
    requires scope == "deps" || scope == "python" || scope == "pyhost"
    ensures ScopeLayers(scope).Ok?
    ensures ScopesOf(p, ScopeLayers(scope).value) == Listed(Own(p, scope, 1)) + Listed(Own(p, scope, 2))
  {
    NoDotHere(scope);
    var none: seq<string> := [];
    assert none + [scope] == [scope];
    ScopesOne(p, none, scope);
    hide ScopesOf;
  }

  lemma TwoScopes(p: Profile, scope: string)
    requires "deps." <= scope && scope != "deps."
    ensures ScopeLayers(scope) == Ok(["deps", scope])
    ensures ScopesOf(p, ["deps", scope]) == Listed(Own(p, scope, 1)) + Listed(Own(p, scope, 2))
  {
    var none: seq<string> := [];
    assert none + ["deps"] == ["deps"] && ["deps"] + [scope] == ["deps", scope];
    ScopesOne(p, none, "deps");
    ScopesOne(p, ["deps"], scope);
    NotOneScope(scope);
    hide ScopesOf;
  }

  lemma NotOneScope(scope: string)
    requires "deps." <= scope
    ensures scope != "deps" && scope != "python" && scope != "pyhost"
  {
    if scope == "deps" || scope == "python" || scope == "pyhost" {
      NoDotHere(scope);
    }
  }

  lemma ScopesOfAre(p: Profile, scope: string)
    requires ScopeLayers(scope).Ok?
    ensures ScopesOf(p, ScopeLayers(scope).value) == Listed(Own(p, scope, 1)) + Listed(Own(p, scope, 2))
  {
    if scope == "deps" || scope == "python" || scope == "pyhost" {
      OneScope(p, scope);
    } else {
      TwoScopes(p, scope);
    }
  }

  lemma NoDotHere(scope: string)
    requires scope == "deps" || scope == "python" || scope == "pyhost"
    ensures !("deps." <= scope)
  {
    assert "python"[0] == 'p' && "pyhost"[0] == 'p' && |"deps"| < |"deps."|;
  }

  /** What a profile itself says of a field for a scope, and `above` when it says nothing. */
  function OwnSays<T>(p: Profile, scope: string, get: Profile -> Option<T>, above: T): T {
    if Sets(Own(p, scope, 2), get) then get(Own(p, scope, 2).value).value
    else if Sets(Own(p, scope, 1), get) then get(Own(p, scope, 1).value).value
    else Or(get(p), above)
  }

  /** Within one profile the most specific of the three that sets the field wins. */
  lemma OwnLast<T>(default: T, p: Profile, scope: string, get: Profile -> Option<T>)
    requires ScopeLayers(scope).Ok?
    ensures Last(default, OwnLayers(p, ScopeLayers(scope).value), get) == OwnSays(p, scope, get, default)
  {
    ScopesOfAre(p, scope);
    hide ScopesOf, ScopeLayers, Own, Last;
    var own, dep := Listed(Own(p, scope, 1)), Listed(Own(p, scope, 2));
    assert OwnLayers(p, ScopeLayers(scope).value) == [p] + (own + dep);
    LastConcat(default, [p], own + dep, get);
    LastOne(default, p, get);
    LastConcat(Or(get(p), default), own, dep, get);
    LastListed(Or(get(p), default), Own(p, scope, 1), get);
    LastListed(Last(Or(get(p), default), own, get), Own(p, scope, 2), get);
  }

  lemma LastListed<T>(default: T, layer: Option<Profile>, get: Profile -> Option<T>)
    ensures Last(default, Listed(layer), get) == if Sets(layer, get) then get(layer.value).value else default
  {
    match layer
    case None =>
    case Some(p) => LastOne(default, p, get);
  }

  /** The layer of a profile that sets the field, when no more specific one of its own does. */
  lemma OwnValue<T>(p: Profile, scope: string, get: Profile -> Option<T>, above: T, l: nat)
    requires l <= 2 && Sets(Own(p, scope, l), get)
    requires l < 2 ==> !Sets(Own(p, scope, 2), get)
    requires l < 1 ==> !Sets(Own(p, scope, 1), get)
    ensures OwnSays(p, scope, get, above) == get(Own(p, scope, l).value).value
  {
  }

  lemma OwnSaysNothing<T>(p: Profile, scope: string, get: Profile -> Option<T>, above: T)
    requires forall l: nat :: !Sets(Own(p, scope, l), get)
    ensures OwnSays(p, scope, get, above) == above
  {
    assert !Sets(Own(p, scope, 0), get);
  }

  // ---------------------------------------------------------------- the law

  lemma LayerOfParent(profiles: Table, name: string, scope: string, k: nat, l: nat)
    requires name in profiles && name != ""
    ensures LayerAt(profiles, name, scope, 0, l) == Own(profiles[name], scope, l)
    ensures LayerAt(profiles, name, scope, k + 1, l) == LayerAt(profiles, profiles[name].inherit, scope, k, l)
  {
    AncestorOfParent(profiles, name, k);
  }

  /** If the profile says nothing itself, its parent decides; otherwise the parent is not asked. */
  lemma OverridesStep<T>(profiles: Table, name: string, scope: string, get: Profile -> Option<T>, default: T, above: T)
    requires name in profiles && name != ""
    requires Overrides(profiles, profiles[name].inherit, scope, get, default, above)
    ensures Overrides(profiles, name, scope, get, default, OwnSays(profiles[name], scope, get, above))
  {
    var p, parent := profiles[name], profiles[name].inherit;
    hide LayerAt, OwnSays, NobodySets, Decides;
    if NobodySets(profiles, name, scope, get) {
      NobodyAbove(profiles, name, scope, get);
      OwnSaysNothing(p, scope, get, above);
    }
    forall k: nat, l: nat | Decides(profiles, name, scope, get, k, l)
      ensures OwnSays(p, scope, get, above) == get(LayerAt(profiles, name, scope, k, l).value).value {
      if k == 0 {
        LayerOfParent(profiles, name, scope, 0, l);
        OwnDecides(profiles, name, scope, get, l);
        OwnValue(p, scope, get, above, l);
      } else {
        ParentDecides(profiles, name, scope, get, k, l);
        OwnSaysNothing(p, scope, get, above);
      }
    }
  }

  lemma OwnDecides<T>(profiles: Table, name: string, scope: string, get: Profile -> Option<T>, l: nat)
    requires name in profiles && name != "" && Decides(profiles, name, scope, get, 0, l)
    ensures l <= 2 && Sets(Own(profiles[name], scope, l), get)
    ensures l < 2 ==> !Sets(Own(profiles[name], scope, 2), get)
    ensures l < 1 ==> !Sets(Own(profiles[name], scope, 1), get)
  {
    LayerOfParent(profiles, name, scope, 0, l);
    LayerOfParent(profiles, name, scope, 0, 1);
    LayerOfParent(profiles, name, scope, 0, 2);
    hide LayerAt;
    assert l < 2 ==> MoreSpecific(0, 2, 0, l);
    assert l < 1 ==> MoreSpecific(0, 1, 0, l);
  }

  lemma ParentDecides<T>(profiles: Table, name: string, scope: string, get: Profile -> Option<T>, k: nat, l: nat)
    requires name in profiles && name != "" && k > 0 && Decides(profiles, name, scope, get, k, l)
    ensures Decides(profiles, profiles[name].inherit, scope, get, k - 1, l)
    ensures LayerAt(profiles, name, scope, k, l) == LayerAt(profiles, profiles[name].inherit, scope, k - 1, l)
    ensures forall m: nat :: !Sets(Own(profiles[name], scope, m), get)
  {
    LayerOfParent(profiles, name, scope, k - 1, l);
    hide LayerAt;
    forall m: nat ensures !Sets(Own(profiles[name], scope, m), get) {
      LayerOfParent(profiles, name, scope, 0, m);
      assert MoreSpecific(0, m, k, l);
    }
    forall k': nat, l': nat | MoreSpecific(k', l', k - 1, l)
      ensures !Sets(LayerAt(profiles, profiles[name].inherit, scope, k', l'), get) {
      LayerOfParent(profiles, name, scope, k', l');
      assert MoreSpecific(k' + 1, l', k, l);
    }
  }

  lemma {:induction false} LastOverrides<T>(profiles: Table, name: string, seen: set<string>, scope: string, default: T,
                                            get: Profile -> Option<T>)
    requires ChainUp(profiles, name, seen).Ok? && ScopeLayers(scope).Ok?
    requires forall n | n in ChainUp(profiles, name, seen).value :: n in profiles
    ensures Overrides(profiles, name, scope, get, default,
                      Last(default, LayersOf(profiles, ChainUp(profiles, name, seen).value, ScopeLayers(scope).value), get))
    decreases profiles.Keys - seen
  {
    var chain, scopes := ChainUp(profiles, name, seen).value, ScopeLayers(scope).value;
    if name == "" {
      NothingAbove(profiles, scope);
    } else {
      var above := ChainUp(profiles, profiles[name].inherit, seen + {name}).value;
      assert chain == above + [name] && chain[..|above|] == above;
      ChainDefined(profiles, profiles[name].inherit, seen + {name});
      LastOverrides(profiles, profiles[name].inherit, seen + {name}, scope, default, get);
      hide Last, ScopeLayers, ScopesOf, ChainUp, Overrides, OwnSays;
      var p, before := profiles[name], LayersOf(profiles, above, scopes);
      assert LayersOf(profiles, chain, scopes) == before + [p] + ScopesOf(p, scopes);
      hide LayersOf;
      Regroup(before, [p], ScopesOf(p, scopes));
      LastConcat(default, before, OwnLayers(p, scopes), get);
      OwnLast(Last(default, before, get), p, scope, get);
      OverridesStep(profiles, name, scope, get, default, Last(default, before, get));
    }
  }

  lemma NothingAbove(profiles: Table, scope: string)
    ensures forall k: nat, l: nat :: LayerAt(profiles, "", scope, k, l).None?
  {
    forall k: nat, l: nat ensures LayerAt(profiles, "", scope, k, l).None? {
      NoAncestors(profiles, k);
    }
  }

  lemma {:induction false} NoAncestors(profiles: Table, k: nat)
    ensures k > 0 ==> Ancestor(profiles, "", k).None?
  {
    if k > 1 {
      NoAncestors(profiles, k - 1);
    }
  }

  /** Any field that a layer either sets or leaves: the resolution has what the most specific layer that
      sets it says. */
  lemma FieldOverrides<T>(profiles: Table, name: string, scope: string, get: Profile -> Option<T>, field: Resolved -> T,
                          r: Resolved)
    requires Selected(profiles, name, scope).Some?
    requires Folded(Default(name, scope), Selected(profiles, name, scope).value) == Some(r)
    requires forall q, p :: field(Applied(q, p)) == Or(get(p), field(q))
    ensures Overrides(profiles, name, scope, get, field(Default(name, scope)), field(r))
  {
    hide Folded, Applied, Overrides, Default;
    ChainDefined(profiles, name, {});
    LastOverrides(profiles, name, {}, scope, field(Default(name, scope)), get);
    FieldLast(Default(name, scope), Selected(profiles, name, scope).value, get, field);
  }

  // ---------------------------------------------------------------- every setting

  /** What a layer says of one flag of a list: to have it, not to have it, or nothing. */
  function SaysOf(f: string, replace: Option<seq<string>>, remove: seq<string>, add: seq<string>): Option<bool> {
    if f in add then Some(true)
    else if f in remove then Some(false)
    else if replace.Some? then Some(f in replace.value)
    else None
  }

  lemma FlagSays(list: seq<string>, replace: Option<seq<string>>, remove: seq<string>, add: seq<string>, f: string)
    ensures f in FlagLayer(list, replace, remove, add) <==> Or(SaysOf(f, replace, remove, add), f in list)
  {
    KeepMembers(Or(replace, list), remove);
    hide Keep;
  }

  /** The switches and texts of a resolution, each with the value it has when no layer sets it. */
  ghost predicate SettingsOverride(profiles: Table, name: string, scope: string, r: Resolved) {
    && Overrides(profiles, name, scope, (p: Profile) => p.cxxflags, [], r.cxxflags)
    && Overrides(profiles, name, scope, (p: Profile) => p.strip, false, r.strip)
    && Overrides(profiles, name, scope, (p: Profile) => p.debug, false, r.debug)
    && Overrides(profiles, name, scope, (p: Profile) => p.testModules, false, r.testModules)
    && Overrides(profiles, name, scope, (p: Profile) => NonEmpty(p.ltoMode), "", r.ltoMode)
    && Overrides(profiles, name, scope, (p: Profile) => NonEmpty(p.pgo), "", r.pgo)
    && Overrides(profiles, name, scope, (p: Profile) => NonEmpty(p.profileTask), "", r.profileTask)
    && Overrides(profiles, name, scope, (p: Profile) => NonEmpty(p.modules), "", r.modules)
    && Overrides(profiles, name, scope, (p: Profile) => NonEmpty(p.bundle), "", r.bundle)
    && Overrides(profiles, name, scope, (p: Profile) => NonEmpty(p.toolchain), "provisioned", r.toolchain)
  }

  /** Whether each flag is there. */
  ghost predicate FlagsOverride(profiles: Table, name: string, scope: string, r: Resolved) {
    && (forall f: string :: Overrides(profiles, name, scope,
          (p: Profile) => SaysOf(f, p.cflags, p.cflagsRemove, p.cflagsAdd), false, f in r.cflags))
    && forall f: string :: Overrides(profiles, name, scope,
          (p: Profile) => SaysOf(f, p.ldflags, p.ldflagsRemove, p.ldflagsAdd), false, f in r.ldflags)
  }

  /** `Resolve`'s law: a child overrides its parent, a scope the profile it belongs to, and one
      dependency's scope the scope of all dependencies; for every switch and text, and flag by flag. */
  lemma ResolveOverrides(profiles: Table, name: string, scope: string, r: Resolved)
    requires Selected(profiles, name, scope).Some?
    requires Folded(Default(name, scope), Selected(profiles, name, scope).value) == Some(r)
    ensures r.profile == name && r.scope == scope
    ensures SettingsOverride(profiles, name, scope, r) && FlagsOverride(profiles, name, scope, r)
    ensures LTOOverrides(profiles, name, scope, r)
  {
    hide Folded, Overrides, FlagLayer, Selected, LTOOverrides, FlagsOverride, SettingsOverride;
    NamesKept(Default(name, scope), Selected(profiles, name, scope).value);
    EachSetting(profiles, name, scope, r);
    EachFlag(profiles, name, scope, r);
    LTOSetting(profiles, name, scope, r);
  }

  lemma EachSetting(profiles: Table, name: string, scope: string, r: Resolved)
    requires Selected(profiles, name, scope).Some?
    requires Folded(Default(name, scope), Selected(profiles, name, scope).value) == Some(r)
    ensures SettingsOverride(profiles, name, scope, r)
  {
    hide Folded, Overrides, FlagLayer, Selected;
    FieldOverrides(profiles, name, scope, (p: Profile) => p.cxxflags, (q: Resolved) => q.cxxflags, r);
    FieldOverrides(profiles, name, scope, (p: Profile) => p.strip, (q: Resolved) => q.strip, r);
    FieldOverrides(profiles, name, scope, (p: Profile) => p.debug, (q: Resolved) => q.debug, r);
    FieldOverrides(profiles, name, scope, (p: Profile) => p.testModules, (q: Resolved) => q.testModules, r);
    FieldOverrides(profiles, name, scope, (p: Profile) => NonEmpty(p.ltoMode), (q: Resolved) => q.ltoMode, r);
    FieldOverrides(profiles, name, scope, (p: Profile) => NonEmpty(p.pgo), (q: Resolved) => q.pgo, r);
    FieldOverrides(profiles, name, scope, (p: Profile) => NonEmpty(p.profileTask), (q: Resolved) => q.profileTask, r);
    FieldOverrides(profiles, name, scope, (p: Profile) => NonEmpty(p.modules), (q: Resolved) => q.modules, r);
    FieldOverrides(profiles, name, scope, (p: Profile) => NonEmpty(p.bundle), (q: Resolved) => q.bundle, r);
    FieldOverrides(profiles, name, scope, (p: Profile) => NonEmpty(p.toolchain), (q: Resolved) => q.toolchain, r);
  }

  lemma EachFlag(profiles: Table, name: string, scope: string, r: Resolved)
    requires Selected(profiles, name, scope).Some?
    requires Folded(Default(name, scope), Selected(profiles, name, scope).value) == Some(r)
    ensures FlagsOverride(profiles, name, scope, r)
  {
    hide Folded, Overrides, FlagLayer, Selected, SaysOf;
    forall f: string
      ensures Overrides(profiles, name, scope, (p: Profile) => SaysOf(f, p.cflags, p.cflagsRemove, p.cflagsAdd), false, f in r.cflags)
      ensures Overrides(profiles, name, scope, (p: Profile) => SaysOf(f, p.ldflags, p.ldflagsRemove, p.ldflagsAdd), false, f in r.ldflags)
    {
      forall q: Resolved, p: Profile
        ensures f in Applied(q, p).cflags <==> Or(SaysOf(f, p.cflags, p.cflagsRemove, p.cflagsAdd), f in q.cflags)
        ensures f in Applied(q, p).ldflags <==> Or(SaysOf(f, p.ldflags, p.ldflagsRemove, p.ldflagsAdd), f in q.ldflags)
      {
        FlagSays(q.cflags, p.cflags, p.cflagsRemove, p.cflagsAdd, f);
        FlagSays(q.ldflags, p.ldflags, p.ldflagsRemove, p.ldflagsAdd, f);
      }
      FieldOverrides(profiles, name, scope, (p: Profile) => SaysOf(f, p.cflags, p.cflagsRemove, p.cflagsAdd),
                     (q: Resolved) => f in q.cflags, r);
      FieldOverrides(profiles, name, scope, (p: Profile) => SaysOf(f, p.ldflags, p.ldflagsRemove, p.ldflagsAdd),
                     (q: Resolved) => f in q.ldflags, r);
    }
  }

  /** Link-time optimisation is off only where some layer says so: without one it is on. */
  ghost predicate LTOOverrides(profiles: Table, name: string, scope: string, r: Resolved) {
    Overrides(profiles, name, scope, (p: Profile) => p.lto, true, !r.ltoSet || r.lto)
  }

  lemma LTOSetting(profiles: Table, name: string, scope: string, r: Resolved)
    requires Selected(profiles, name, scope).Some?
    requires Folded(Default(name, scope), Selected(profiles, name, scope).value) == Some(r)
    ensures LTOOverrides(profiles, name, scope, r)
  {
    hide Folded, Overrides, FlagLayer, Selected;
    FieldOverrides(profiles, name, scope, (p: Profile) => p.lto, (q: Resolved) => !q.ltoSet || q.lto, r);
  }

  // ---------------------------------------------------------------- order and errors

  /** The last of the lists ends with what it adds. */
  lemma LastLayer(p: Profile, scope: string, l: nat)
    requires ScopeLayers(scope).Ok? && Own(p, scope, l).Some? && forall m: nat | m > l :: Own(p, scope, m).None?
    ensures var own := OwnLayers(p, ScopeLayers(scope).value); own[|own|-1] == Own(p, scope, l).value
  {
    ScopesOfAre(p, scope);
    hide ScopesOf, ScopeLayers;
    assert Own(p, scope, 0) == Some(p);
    assert l < 1 ==> Own(p, scope, 1).None?;
    assert l < 2 ==> Own(p, scope, 2).None?;
  }

  lemma FoldEnds(start: Resolved, layers: seq<Profile>)
    requires layers != [] && Folded(start, layers).Some?
    ensures var r, p := Folded(start, layers).value, layers[|layers|-1];
            EndsWith(r.cflags, p.cflagsAdd) && EndsWith(r.ldflags, p.ldflagsAdd)
  {
    hide Applies, Keep;
  }

  ghost predicate EndsWith(list: seq<string>, end: seq<string>) {
    |end| <= |list| && list[|list|-|end|..] == end
  }

  /** Flags are added at the end: the lists end with what the profile's most specific layer adds. */
  lemma AddsAtTheEnd(profiles: Table, name: string, scope: string, r: Resolved, l: nat)
    requires Selected(profiles, name, scope).Some?
    requires Folded(Default(name, scope), Selected(profiles, name, scope).value) == Some(r)
    requires LayerAt(profiles, name, scope, 0, l).Some? && forall m: nat | m > l :: LayerAt(profiles, name, scope, 0, m).None?
    ensures EndsWith(r.cflags, LayerAt(profiles, name, scope, 0, l).value.cflagsAdd)
    ensures EndsWith(r.ldflags, LayerAt(profiles, name, scope, 0, l).value.ldflagsAdd)
  {
    var chain, scopes := ChainUp(profiles, name, {}).value, ScopeLayers(scope).value;
    ChainDefined(profiles, name, {});
    assert chain[|chain|-1] == name;
    forall m: nat ensures LayerAt(profiles, name, scope, 0, m) == Own(profiles[name], scope, m) {
      LayerOfParent(profiles, name, scope, 0, m);
    }
    hide LayerAt, ChainUp, ScopeLayers, Own, Folded, ScopesOf, EndsWith;
    forall m: nat | m > l ensures Own(profiles[name], scope, m).None? {
      assert LayerAt(profiles, name, scope, 0, m).None?;
    }
    LastLayer(profiles[name], scope, l);
    var own, before := OwnLayers(profiles[name], scopes), LayersOf(profiles, chain[..|chain|-1], scopes);
    Regroup(before, [profiles[name]], ScopesOf(profiles[name], scopes));
    assert LayersOf(profiles, chain, scopes) == before + own;
    FoldEnds(Default(name, scope), before + own);
  }

  /** What a caller has to get right: a profile whose ancestors end, and a scope that is one of three
      or names a dependency. */
  lemma SelectedExactly(profiles: Table, name: string, scope: string)
    ensures Selected(profiles, name, scope).Some? <==>
            && EndsAtRoot(profiles, name)
            && (scope == "deps" || scope == "python" || scope == "pyhost" || exists d :: d != "" && scope == "deps." + d)
  {
    ChainErrsExactly(profiles, name);
    hide ChainUp, LayersOf;
    if "deps." <= scope && scope != "deps." {
      assert scope == "deps." + scope[|"deps."|..];
    }
    if d :| d != "" && scope == "deps." + d {
      assert scope[..|"deps."|] == "deps." && |scope| > |"deps."|;
    }
  }

  // ---------------------------------------------------------------- packages

  /** The k-th ancestor's variant sets the field. */
  ghost predicate VariantSets<T>(variants: map<string, Variant>, profiles: Table, profile: string, get: Variant -> Option<T>,
                                 k: nat)
  {
    match Ancestor(profiles, profile, k)
    case None => false
    case Some(x) => x != "" && x in variants && get(variants[x]).Some?
  }

  /** The value is what the variant of the nearest ancestor that sets the field says, and the package's
      own when none does. */
  ghost predicate VariantOverrides<T>(variants: map<string, Variant>, profiles: Table, profile: string,
                                      get: Variant -> Option<T>, own: T, v: T)
  {
    && ((forall k: nat :: !VariantSets(variants, profiles, profile, get, k)) ==> v == own)
    && forall k: nat | VariantSets(variants, profiles, profile, get, k)
                       && forall m: nat | m < k :: !VariantSets(variants, profiles, profile, get, m) ::
         v == get(variants[Ancestor(profiles, profile, k).value]).value
  }

  lemma NoAncestorPast(profiles: Table, profile: string, chain: seq<string>, k: nat)
    requires ChainUp(profiles, profile, {}) == Ok(chain) && k >= |chain|
    ensures Ancestor(profiles, profile, k) in {None, Some("")}
  {
    ChainIsAncestors(profiles, profile, chain);
    if k > |chain| {
      NothingAfter(profiles, profile, |chain|, k);
    }
  }

  lemma {:induction false} ChainNamed(profiles: Table, name: string, seen: set<string>)
    ensures ChainUp(profiles, name, seen).Ok? ==> forall x | x in ChainUp(profiles, name, seen).value :: x != ""
    decreases profiles.Keys - seen
  {
    if name != "" && name !in seen && name in profiles {
      ChainNamed(profiles, profiles[name].inherit, seen + {name});
    }
  }

  lemma VariantAt<T>(variants: map<string, Variant>, profiles: Table, profile: string, chain: seq<string>,
                     get: Variant -> Option<T>, i: nat)
    requires ChainUp(profiles, profile, {}) == Ok(chain) && i < |chain|
    ensures VariantSets(variants, profiles, profile, get, |chain|-1-i) <==> chain[i] in variants && get(variants[chain[i]]).Some?
    ensures Ancestor(profiles, profile, |chain|-1-i) == Some(chain[i])
  {
    ChainIsAncestors(profiles, profile, chain);
    ChainNamed(profiles, profile, {});
    hide ChainUp;
    assert chain[i] in chain;
  }

  lemma LastVariantOverrides<T>(variants: map<string, Variant>, profiles: Table, profile: string, chain: seq<string>,
                                get: Variant -> Option<T>, own: T)
    requires ChainUp(profiles, profile, {}) == Ok(chain)
    ensures VariantOverrides(variants, profiles, profile, get, own, LastVariant(own, variants, chain, get))
  {
    LastVariantIsLast(own, variants, chain, get);
    hide LastVariant, ChainUp;
    forall k: nat | k >= |chain| ensures !VariantSets(variants, profiles, profile, get, k) {
      NoAncestorPast(profiles, profile, chain, k);
    }
    hide VariantSets;
    if forall k: nat :: !VariantSets(variants, profiles, profile, get, k) {
      forall n | n in chain && n in variants ensures get(variants[n]).None? {
        var i :| 0 <= i < |chain| && chain[i] == n;
        VariantAt(variants, profiles, profile, chain, get, i);
      }
    }
    forall k: nat | VariantSets(variants, profiles, profile, get, k)
                    && forall m: nat | m < k :: !VariantSets(variants, profiles, profile, get, m)
      ensures Ancestor(profiles, profile, k).Some? && Ancestor(profiles, profile, k).value in variants
      ensures get(variants[Ancestor(profiles, profile, k).value]).Some?
      ensures LastVariant(own, variants, chain, get) == get(variants[Ancestor(profiles, profile, k).value]).value {
      NearestIsLast(variants, profiles, profile, chain, get, own, k);
    }
  }

  lemma NearestIsLast<T>(variants: map<string, Variant>, profiles: Table, profile: string, chain: seq<string>,
                         get: Variant -> Option<T>, own: T, k: nat)
    requires ChainUp(profiles, profile, {}) == Ok(chain) && k < |chain|
    requires VariantSets(variants, profiles, profile, get, k)
    requires forall m: nat | m < k :: !VariantSets(variants, profiles, profile, get, m)
    ensures Ancestor(profiles, profile, k).Some? && Ancestor(profiles, profile, k).value in variants
    ensures get(variants[Ancestor(profiles, profile, k).value]).Some?
    ensures LastVariant(own, variants, chain, get) == get(variants[Ancestor(profiles, profile, k).value]).value
  {
    LastVariantIsLast(own, variants, chain, get);
    var i := |chain|-1-k;
    VariantAt(variants, profiles, profile, chain, get, i);
    hide LastVariant, ChainUp, VariantSets, Ancestor;
    forall j | i < j < |chain| && chain[j] in variants ensures get(variants[chain[j]]).None? {
      VariantAt(variants, profiles, profile, chain, get, j);
    }
  }

  /** `packageFor`'s law: the nearest profile with a variant that sets a field decides it, for each of
      the three lists and for skipping; nothing else changes, and no variant is left. */
  lemma PackageOverrides(packages: map<string, Package>, profiles: Table, name: string, profile: string)
    requires name in packages && EndsAtRoot(profiles, profile)
    ensures PackageAnswer(packages, profiles, name, profile).Ok?
    ensures var p, (q, skip) := packages[name], PackageAnswer(packages, profiles, name, profile).value;
            && q.rest == p.rest && q.variants == map[]
            && VariantOverrides(p.variants, profiles, profile, (v: Variant) => v.configure, p.configure, q.configure)
            && VariantOverrides(p.variants, profiles, profile, (v: Variant) => v.provided, p.provided, q.provided)
            && VariantOverrides(p.variants, profiles, profile, (v: Variant) => v.makeVars, p.makeVars, q.makeVars)
            && VariantOverrides(p.variants, profiles, profile, (v: Variant) => v.skip, false, skip)
  {
    ChainErrsExactly(profiles, profile);
    hide ChainUp, VariantOverrides, LastVariant;
    var p, chain := packages[name], ChainUp(profiles, profile, {}).value;
    LastVariantOverrides(p.variants, profiles, profile, chain, (v: Variant) => v.configure, p.configure);
    LastVariantOverrides(p.variants, profiles, profile, chain, (v: Variant) => v.provided, p.provided);
    LastVariantOverrides(p.variants, profiles, profile, chain, (v: Variant) => v.makeVars, p.makeVars);
    LastVariantOverrides(p.variants, profiles, profile, chain, (v: Variant) => v.skip, false);
  }
}
