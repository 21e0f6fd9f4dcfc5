/** Profile inheritance, scope layers and package variants. */
module Profiles {
  import opened Common

  /** A profile or one of its scope tables; None is a field the file does not set. Unset strings
      are empty, as in the source. */
  datatype Profile = Profile(
    inherit: string,
    cflags: Option<seq<string>>, cxxflags: Option<seq<string>>, ldflags: Option<seq<string>>,
    cflagsAdd: seq<string>, cflagsRemove: seq<string>,
    ldflagsAdd: seq<string>, ldflagsRemove: seq<string>,
    strip: Option<bool>, debug: Option<bool>, lto: Option<bool>, testModules: Option<bool>,
    ltoMode: string, pgo: string, profileTask: string, modules: string, bundle: string, toolchain: string,
    scopes: map<string, Profile>)

  datatype Resolved = Resolved(
    profile: string, scope: string,
    cflags: seq<string>, cxxflags: seq<string>, ldflags: seq<string>,
    strip: bool, debug: bool, lto: bool, ltoSet: bool, testModules: bool,
    ltoMode: string, pgo: string, profileTask: string, modules: string, bundle: string, toolchain: string)

  datatype Error =
    | InheritanceCycle(name: string)
    | UnknownProfile(name: string)
    | BadScope(scope: string)
    | RemovesNothing(flag: string)
    | UnknownPackage(name: string)

  type Table = map<string, Profile>

  // ---------------------------------------------------------------- the inheritance chain

  /** The chain of `name`, root first, when the profiles in `seen` lie below it. */
  function ChainUp(profiles: Table, name: string, seen: set<string>): Result<seq<string>, Error>
    decreases profiles.Keys - seen
  {
    if name == "" then Ok([])
    else if name in seen then Err(InheritanceCycle(name))
    else if name !in profiles then Err(UnknownProfile(name))
    else
      match ChainUp(profiles, profiles[name].inherit, seen + {name})
      case Err(e) => Err(e)
      case Ok(above) => Ok(above + [name])
  }

  function Reverse(s: seq<string>): seq<string> {
    if s == [] then [] else [s[|s|-1]] + Reverse(s[..|s|-1])
  }

  lemma {:induction false} ReverseAt(s: seq<string>)
    ensures |Reverse(s)| == |s| && forall k | 0 <= k < |s| :: Reverse(s)[k] == s[|s|-1-k]
  {
    if s != [] {
      ReverseAt(s[..|s|-1]);
    }
  }

  /** `chain`: it ends on every table, with the profiles above `name` root first. */
  method Chain(profiles: Table, name: string) returns (r: Result<seq<string>, Error>)
    ensures r == ChainUp(profiles, name, {})
  {
    var out: seq<string> := [];
    var seen: set<string> := {};
    var cur := name;
    ghost var all := ChainUp(profiles, name, {});
    assert all.Ok? ==> all.value + Reverse(out) == all.value;
    while cur != ""
      invariant seen <= profiles.Keys
      invariant all ==
        match ChainUp(profiles, cur, seen) case Err(e) => Err(e) case Ok(above) => Ok(above + Reverse(out))
      decreases profiles.Keys - seen
    {
      if cur in seen {
        return Err(InheritanceCycle(cur));
      }
      if cur !in profiles {
        return Err(UnknownProfile(cur));
      }
      seen := seen + {cur};
      ghost var before := out;
      out := out + [cur];
      assert out[..|out|-1] == before;
      cur := profiles[cur].inherit;
      ghost var rest := ChainUp(profiles, cur, seen);
      if rest.Ok? {
        assert rest.value + [out[|out|-1]] + Reverse(before) == rest.value + Reverse(out);
      }
    }
    assert [] + Reverse(out) == Reverse(out);
    ghost var upward := out;
    ReverseAt(upward);
    var i, j := 0, |out| - 1;
    while i < j
      invariant 0 <= i && i + j == |upward| - 1 && |out| == |upward| && i <= j + 1
      invariant forall k | i <= k <= j :: out[k] == upward[k]
      invariant forall k | 0 <= k < i :: out[k] == upward[|upward|-1-k]
      invariant forall k | j < k < |out| :: out[k] == upward[|upward|-1-k]
    {
      assert out[i] == upward[i] && out[j] == upward[j];
      out := out[i := out[j]][j := out[i]];
      i, j := i + 1, j - 1;
    }
    assert out == Reverse(upward);
    return Ok(out);
  }

  /** The k-th profile name met when following `inherit`. */
  function Ancestor(profiles: Table, name: string, k: nat): Option<string> {
    if k == 0 then Some(name)
    else
      match Ancestor(profiles, name, k - 1)
      case None => None
      case Some(x) => if x in profiles && x != "" then Some(profiles[x].inherit) else None
  }

  /** Following `inherit` from the name ends at a profile that inherits nothing. */
  ghost predicate EndsAtRoot(profiles: Table, name: string) {
    exists k :: Ancestor(profiles, name, k) == Some("")
  }

  /** It meets a name that is not defined. */
  ghost predicate MeetsUnknown(profiles: Table, name: string) {
    exists k, x :: Ancestor(profiles, name, k) == Some(x) && x != "" && x !in profiles
  }

  /** It meets a name again. */
  ghost predicate MeetsAgain(profiles: Table, name: string) {
    exists i, k :: i < k && RepeatsAt(profiles, name, i, k)
  }

  ghost predicate RepeatsAt(profiles: Table, name: string, i: nat, k: nat) {
    Ancestor(profiles, name, i).Some? && Ancestor(profiles, name, i) == Ancestor(profiles, name, k)
    && Ancestor(profiles, name, i) != Some("")
  }

  /** A chain exists exactly when following `inherit` comes to an end; it errs exactly on an unknown
      name or on a cycle, and says which. */
  lemma ChainErrsExactly(profiles: Table, name: string)
    ensures ChainUp(profiles, name, {}).Ok? <==> EndsAtRoot(profiles, name)
    ensures ChainUp(profiles, name, {}).Err? && ChainUp(profiles, name, {}).error.UnknownProfile? <==> MeetsUnknown(profiles, name)
    ensures ChainUp(profiles, name, {}).Err? && ChainUp(profiles, name, {}).error.InheritanceCycle? <==> MeetsAgain(profiles, name)
  {
    var r := ChainUp(profiles, name, {});
    ChainOutcome(profiles, name, name, {}, 0);
    if r.Ok? {
      Settled(profiles, name, |r.value|);
    } else if r.error.UnknownProfile? {
      var k: nat :| Ancestor(profiles, name, k) == Some(r.error.name);
      Settled(profiles, name, k);
    } else {
      var i: nat, k: nat :| i < k && RepeatsAt(profiles, name, i, k);
      forall m: nat ensures Ancestor(profiles, name, m).Some? && Ancestor(profiles, name, m).value in profiles
                         && Ancestor(profiles, name, m) != Some("")
      {
        GoesRound(profiles, name, i, k, m);
      }
    }
  }

  ghost predicate MetBefore(profiles: Table, first: string, x: string, k: nat) {
    exists i: nat :: i < k && Ancestor(profiles, first, i) == Some(x)
  }

  /** What the recursion finds, told in terms of ancestors of the first name. */
  lemma {:induction false} ChainOutcome(profiles: Table, first: string, name: string, seen: set<string>, k: nat)
    requires Ancestor(profiles, first, k) == Some(name) && "" !in seen
    requires forall x | x in seen :: MetBefore(profiles, first, x, k)
    ensures var r := ChainUp(profiles, name, seen);
            match r
            case Ok(c) => Ancestor(profiles, first, k + |c|) == Some("")
            case Err(UnknownProfile(x)) =>
              x != "" && x !in profiles && exists m: nat :: Ancestor(profiles, first, m) == Some(x)
            case Err(InheritanceCycle(x)) => exists i: nat, m: nat :: i < m && RepeatsAt(profiles, first, i, m)
            case Err(_) => false
    decreases profiles.Keys - seen
  {
    if name == "" {
    } else if name in seen {
      var i: nat :| i < k && Ancestor(profiles, first, i) == Some(name);
      assert RepeatsAt(profiles, first, i, k);
    } else if name in profiles {
      assert Ancestor(profiles, first, k + 1) == Some(profiles[name].inherit);
      assert forall x | x in seen :: MetBefore(profiles, first, x, k);
      ChainOutcome(profiles, first, profiles[name].inherit, seen + {name}, k + 1);
    }
  }

  /** Where the walk stops, no other outcome is possible. */
  lemma Settled(profiles: Table, name: string, k: nat)
    requires Ancestor(profiles, name, k).Some?
    requires var x := Ancestor(profiles, name, k).value; x == "" || x !in profiles
    ensures forall m: nat | m > k :: Ancestor(profiles, name, m).None?
    ensures forall m: nat | m < k :: Ancestor(profiles, name, m).Some?
              && Ancestor(profiles, name, m).value in profiles && Ancestor(profiles, name, m) != Some("")
    ensures !MeetsAgain(profiles, name)
  {
    forall m: nat | m > k ensures Ancestor(profiles, name, m).None? {
      NothingAfter(profiles, name, k, m);
    }
    forall m: nat | m < k ensures Ancestor(profiles, name, m).Some?
                && Ancestor(profiles, name, m).value in profiles && Ancestor(profiles, name, m) != Some("")
    {
      AllBefore(profiles, name, m, k);
    }
    if i: nat, m: nat :| i < m && RepeatsAt(profiles, name, i, m) {
      if m <= k {
        ShiftedBy(profiles, name, i, m, k - m);
      }
    }
  }

  lemma {:induction false} NothingAfter(profiles: Table, name: string, k: nat, m: nat)
    requires Ancestor(profiles, name, k).Some? && m > k
    requires var x := Ancestor(profiles, name, k).value; x == "" || x !in profiles
    ensures Ancestor(profiles, name, m).None?
  {
    if m > k + 1 {
      NothingAfter(profiles, name, k, m - 1);
    }
  }

  lemma {:induction false} AllBefore(profiles: Table, name: string, m: nat, k: nat)
    requires Ancestor(profiles, name, k).Some? && m < k
    ensures Ancestor(profiles, name, m).Some? && Ancestor(profiles, name, m).value in profiles
         && Ancestor(profiles, name, m) != Some("")
    decreases k - m
  {
    if m < k - 1 {
      AllBefore(profiles, name, m, k - 1);
    }
  }

  /** Equal ancestors stay equal. */
  lemma {:induction false} ShiftedBy(profiles: Table, name: string, i: nat, k: nat, d: nat)
    requires Ancestor(profiles, name, i) == Ancestor(profiles, name, k)
    ensures Ancestor(profiles, name, i + d) == Ancestor(profiles, name, k + d)
  {
    if d > 0 {
      ShiftedBy(profiles, name, i, k, d - 1);
    }
  }

  /** A repeated name means the walk never stops. */
  lemma {:induction false} GoesRound(profiles: Table, name: string, i: nat, k: nat, m: nat)
    requires i < k && RepeatsAt(profiles, name, i, k)
    ensures Ancestor(profiles, name, m).Some? && Ancestor(profiles, name, m).value in profiles
         && Ancestor(profiles, name, m) != Some("")
    decreases m
  {
    if m < k {
      AllBefore(profiles, name, m, k);
    } else {
      GoesRound(profiles, name, i, k, m - (k - i));
      ShiftedBy(profiles, name, i, k, m - k);
    }
  }

  // ---------------------------------------------------------------- one layer

  /** The list without the flags to drop, in order. */
  function Keep(list: seq<string>, drop: seq<string>): (r: seq<string>)
    ensures forall v | v in r :: v in list && v !in drop
  {
    if list == [] then []
    else Keep(list[..|list|-1], drop) + (if list[|list|-1] in drop then [] else [list[|list|-1]])
  }

  lemma {:induction false} KeepMembers(list: seq<string>, drop: seq<string>)
    ensures forall v :: v in Keep(list, drop) <==> v in list && v !in drop
  {
    if list != [] {
      KeepMembers(list[..|list|-1], drop);
      assert list == list[..|list|-1] + [list[|list|-1]];
    }
  }

  lemma {:induction false} KeepTwice(list: seq<string>, drop: seq<string>, d: string)
    ensures Keep(Keep(list, drop), [d]) == Keep(list, drop + [d])
  {
    if list != [] {
      var init, last := list[..|list|-1], list[|list|-1];
      KeepTwice(init, drop, d);
      var k := Keep(init, drop);
      assert (k + [last])[..|k|] == k;
      if last in drop {
        assert Keep(list, drop) == k;
      } else {
        assert Keep(list, drop) == k + [last];
      }
    }
  }

  lemma {:induction false} KeepAll(list: seq<string>)
    ensures Keep(list, []) == list
  {
    if list != [] {
      KeepAll(list[..|list|-1]);
    }
  }

  /** Every flag to drop is there, and named once. */
  ghost predicate Removable(list: seq<string>, drop: seq<string>) {
    Distinct(drop) && forall d | d in drop :: d in list
  }

  /** `remove`: it succeeds exactly when each flag is there and named once, and then no dropped flag
      is left and the others keep their order. */
  method Remove(list: seq<string>, drop: seq<string>) returns (r: Result<seq<string>, Error>)
    ensures r.Ok? <==> Removable(list, drop)
    ensures r.Ok? ==> r.value == Keep(list, drop)
    ensures r.Err? ==> r.error.RemovesNothing? && r.error.flag in drop
  {
    hide Keep, Removable;
    var cur := list;
    KeepAll(list);
    NothingToRemove(list);
    for i := 0 to |drop|
      invariant cur == Keep(list, drop[..i]) && Removable(list, drop[..i])
    {
      var d := drop[i];
      var out, hit := DropOne(cur, d);
      assert drop[..i+1] == drop[..i] + [d];
      KeepMembers(list, drop[..i]);
      OneMoreRemovable(list, drop, i);
      if !hit {
        return Err(RemovesNothing(d));
      }
      KeepTwice(list, drop[..i], d);
      cur := out;
    }
    assert drop[..|drop|] == drop;
    return Ok(cur);
  }

  /** The inner loop of `remove`. */
  method DropOne(list: seq<string>, d: string) returns (out: seq<string>, hit: bool)
    ensures out == Keep(list, [d]) && (hit <==> d in list)
  {
    out, hit := [], false;
    for j := 0 to |list|
      invariant out == Keep(list[..j], [d]) && (hit <==> d in list[..j])
    {
      assert list[..j+1][..j] == list[..j];
      if list[j] == d {
        hit := true;
      } else {
        out := out + [list[j]];
      }
    }
    assert list[..|list|] == list;
  }

  lemma NothingToRemove(list: seq<string>)
    ensures Removable(list, [])
  {
  }

  lemma OneMoreRemovable(list: seq<string>, drop: seq<string>, i: nat)
    requires i < |drop| && Removable(list, drop[..i])
    ensures drop[i] in list && drop[i] !in drop[..i] ==> Removable(list, drop[..i+1])
    ensures drop[i] !in list || drop[i] in drop[..i] ==> !Removable(list, drop)
  {
    assert drop[..i+1] == drop[..i] + [drop[i]];
  }

  function Or<T>(set': Option<T>, otherwise: T): T {
    if set'.Some? then set'.value else otherwise
  }

  function NonEmpty(s: string): Option<string> {
    if s == "" then None else Some(s)
  }

  /** One layer of a flag list: replace, remove, add. */
  function FlagLayer(list: seq<string>, replace: Option<seq<string>>, remove: seq<string>, add: seq<string>): seq<string> {
    Keep(Or(replace, list), remove) + add
  }

  ghost predicate Applies(r: Resolved, p: Profile) {
    Removable(Or(p.cflags, r.cflags), p.cflagsRemove) && Removable(Or(p.ldflags, r.ldflags), p.ldflagsRemove)
  }

  function Applied(r: Resolved, p: Profile): Resolved {
    Resolved(r.profile, r.scope,
      FlagLayer(r.cflags, p.cflags, p.cflagsRemove, p.cflagsAdd),
      Or(p.cxxflags, r.cxxflags),
      FlagLayer(r.ldflags, p.ldflags, p.ldflagsRemove, p.ldflagsAdd),
      Or(p.strip, r.strip), Or(p.debug, r.debug), Or(p.lto, r.lto), r.ltoSet || p.lto.Some?,
      Or(p.testModules, r.testModules),
      Or(NonEmpty(p.ltoMode), r.ltoMode), Or(NonEmpty(p.pgo), r.pgo), Or(NonEmpty(p.profileTask), r.profileTask),
      Or(NonEmpty(p.modules), r.modules), Or(NonEmpty(p.bundle), r.bundle), Or(NonEmpty(p.toolchain), r.toolchain))
  }

  /** The `Resolved` that `apply` updates in place. */
  class Accumulator {
    const profile: string
    const scope: string
    var cflags: seq<string>
    var cxxflags: seq<string>
    var ldflags: seq<string>
    var strip: bool
    var debug: bool
    var lto: bool
    var ltoSet: bool
    var testModules: bool
    var ltoMode: string
    var pgo: string
    var profileTask: string
    var modules: string
    var bundle: string
    var toolchain: string

    constructor (profile: string, scope: string)
      ensures Value() == Default(profile, scope)
    {
      this.profile, this.scope := profile, scope;
      cflags, cxxflags, ldflags := [], [], [];
      strip, debug, lto, ltoSet, testModules := false, false, false, false, false;
      ltoMode, pgo, profileTask, modules, bundle, toolchain := "", "", "", "", "", "provisioned";
    }

    function Value(): Resolved
      reads this
    {
      Resolved(profile, scope, cflags, cxxflags, ldflags, strip, debug, lto, ltoSet, testModules,
               ltoMode, pgo, profileTask, modules, bundle, toolchain)
    }

    /** `apply`; on an error the caller drops the half-updated value. */
    method Apply(p: Profile) returns (failure: Option<Error>)
      modifies this
      ensures failure.None? <==> Applies(old(Value()), p)
      ensures failure.None? ==> Value() == Applied(old(Value()), p)
      ensures failure.Some? ==> failure.value.RemovesNothing?
    {
      failure := ApplyFlags(p);
      if failure.None? {
        ApplySwitches(p);
        ApplyStrings(p);
      }
    }

    /** The flag lists: replace, remove, add. */
    method ApplyFlags(p: Profile) returns (failure: Option<Error>)
      modifies this`cflags, this`cxxflags, this`ldflags
      ensures failure.None? <==> Applies(old(Value()), p)
      ensures failure.None? ==>
                && cflags == FlagLayer(old(cflags), p.cflags, p.cflagsRemove, p.cflagsAdd)
                && cxxflags == Or(p.cxxflags, old(cxxflags))
                && ldflags == FlagLayer(old(ldflags), p.ldflags, p.ldflagsRemove, p.ldflagsAdd)
      ensures failure.Some? ==> failure.value.RemovesNothing?
    {
      hide Keep, Removable;
      if p.cflags.Some? { cflags := p.cflags.value; }
      if p.cxxflags.Some? { cxxflags := p.cxxflags.value; }
      if p.ldflags.Some? { ldflags := p.ldflags.value; }
      var c := Remove(cflags, p.cflagsRemove);
      if c.Err? { return Some(c.error); }
      cflags := c.value;
      var l := Remove(ldflags, p.ldflagsRemove);
      if l.Err? { return Some(l.error); }
      ldflags := l.value;
      cflags := cflags + p.cflagsAdd;
      ldflags := ldflags + p.ldflagsAdd;
      return None;
    }

    /** The switches: one that is set overwrites. */
    method ApplySwitches(p: Profile)
      modifies this`strip, this`debug, this`lto, this`ltoSet, this`testModules
      ensures strip == Or(p.strip, old(strip)) && debug == Or(p.debug, old(debug))
      ensures lto == Or(p.lto, old(lto)) && ltoSet == (old(ltoSet) || p.lto.Some?)
      ensures testModules == Or(p.testModules, old(testModules))
    {
      if p.strip.Some? { strip := p.strip.value; }
      if p.debug.Some? { debug := p.debug.value; }
      if p.lto.Some? { lto, ltoSet := p.lto.value, true; }
      if p.testModules.Some? { testModules := p.testModules.value; }
    }

    /** The string settings: a non-empty one overwrites. */
    method ApplyStrings(p: Profile)
      modifies this`ltoMode, this`pgo, this`profileTask, this`modules, this`bundle, this`toolchain
      ensures ltoMode == Or(NonEmpty(p.ltoMode), old(ltoMode)) && pgo == Or(NonEmpty(p.pgo), old(pgo))
      ensures profileTask == Or(NonEmpty(p.profileTask), old(profileTask))
      ensures modules == Or(NonEmpty(p.modules), old(modules)) && bundle == Or(NonEmpty(p.bundle), old(bundle))
      ensures toolchain == Or(NonEmpty(p.toolchain), old(toolchain))
    {
      if p.ltoMode != "" { ltoMode := p.ltoMode; }
      if p.pgo != "" { pgo := p.pgo; }
      if p.profileTask != "" { profileTask := p.profileTask; }
      if p.modules != "" { modules := p.modules; }
      if p.bundle != "" { bundle := p.bundle; }
      if p.toolchain != "" { toolchain := p.toolchain; }
    }
  }

  // ---------------------------------------------------------------- all layers

  /** The result of applying all layers in order; None when a removal matches nothing. */
  ghost function Folded(start: Resolved, layers: seq<Profile>): Option<Resolved> {
    if layers == [] then Some(start)
    else
      match Folded(start, layers[..|layers|-1])
      case None => None
      case Some(r) => if Applies(r, layers[|layers|-1]) then Some(Applied(r, layers[|layers|-1])) else None
  }

  /** `scopeLayers`. */
  function ScopeLayers(scope: string): Result<seq<string>, Error> {
    if scope == "deps" || scope == "python" || scope == "pyhost" then Ok([scope])
    else if "deps." <= scope && scope != "deps." then Ok(["deps", scope])
    else Err(BadScope(scope))
  }

  /** The scope tables a profile has among those selected. */
  function ScopesOf(p: Profile, scopes: seq<string>): seq<Profile> {
    if scopes == [] then []
    else ScopesOf(p, scopes[..|scopes|-1]) +
         (if scopes[|scopes|-1] in p.scopes then [p.scopes[scopes[|scopes|-1]]] else [])
  }

  /** Per profile, root first: its own values, then its scope layers. */
  function LayersOf(profiles: Table, chain: seq<string>, scopes: seq<string>): seq<Profile>
    requires forall n | n in chain :: n in profiles
  {
    if chain == [] then []
    else
      var p := profiles[chain[|chain|-1]];
      LayersOf(profiles, chain[..|chain|-1], scopes) + [p] + ScopesOf(p, scopes)
  }

  lemma {:induction false} ChainDefined(profiles: Table, name: string, seen: set<string>)
    ensures var r := ChainUp(profiles, name, seen); r.Ok? ==> forall n | n in r.value :: n in profiles
    decreases profiles.Keys - seen
  {
    if name != "" && name !in seen && name in profiles {
      ChainDefined(profiles, profiles[name].inherit, seen + {name});
    }
  }

  function Default(profile: string, scope: string): Resolved {
    Resolved(profile, scope, [], [], [], false, false, false, false, false, "", "", "", "", "", "provisioned")
  }

  lemma FoldedMore(start: Resolved, layers: seq<Profile>, p: Profile)
    ensures Folded(start, layers + [p]) ==
            match Folded(start, layers) case None => None case Some(r) => if Applies(r, p) then Some(Applied(r, p)) else None
  {
    assert (layers + [p])[..|layers|] == layers;
  }

  lemma {:induction false} FoldedFails(start: Resolved, a: seq<Profile>, b: seq<Profile>)
    requires Folded(start, a).None?
    ensures Folded(start, a + b).None?
  {
    if b == [] {
      assert a + b == a;
    } else {
      FoldedFails(start, a, b[..|b|-1]);
      assert a + b == (a + b[..|b|-1]) + [b[|b|-1]];
      FoldedMore(start, a + b[..|b|-1], b[|b|-1]);
    }
  }

  /** The layers a resolution goes through, when chain and scope are good. */
  ghost function Selected(profiles: Table, name: string, scope: string): Option<seq<Profile>> {
    var c, s := ChainUp(profiles, name, {}), ScopeLayers(scope);
    ChainDefined(profiles, name, {});
    if c.Ok? && s.Ok? then Some(LayersOf(profiles, c.value, s.value)) else None
  }

  /** `Resolve`: the fold of all selected layers, in chain order. */
  method Resolve(profiles: Table, name: string, scope: string) returns (r: Result<Resolved, Error>)
    ensures r.Ok? <==> Selected(profiles, name, scope).Some? &&
                       Folded(Default(name, scope), Selected(profiles, name, scope).value).Some?
    ensures r.Ok? ==> Some(r.value) == Folded(Default(name, scope), Selected(profiles, name, scope).value)
    ensures ChainUp(profiles, name, {}).Err? ==> r == Err(ChainUp(profiles, name, {}).error)
  {
    hide Folded, LayersOf, ScopesOf, Applies, Applied;
    var c := Chain(profiles, name);
    if c.Err? {
      return Err(c.error);
    }
    var scopes := ScopeLayers(scope);
    if scopes.Err? {
      return Err(scopes.error);
    }
    ChainDefined(profiles, name, {});
    var chain, layers := c.value, scopes.value;
    ghost var start := Default(name, scope);
    ghost var all := LayersOf(profiles, chain, layers);
    var cur := new Accumulator(name, scope);
    NoLayers(profiles, layers, start);
    for i := 0 to |chain|
      invariant Folded(start, LayersOf(profiles, chain[..i], layers)) == Some(cur.Value())
    {
      var p := profiles[chain[i]];
      NextLayers(profiles, chain, layers, i);
      ghost var before := LayersOf(profiles, chain[..i], layers);
      FoldedMore(start, before, p);
      var a := cur.Apply(p);
      if a.Some? {
        assert before + [p] + [] == before + [p];
        StopsAt(profiles, chain, layers, i, start, before + [p], 0);
        return Err(a.value);
      }
      assert before + [p] + [] == before + [p];
      for k := 0 to |layers|
        invariant Folded(start, before + [p] + ScopesOf(p, layers[..k])) == Some(cur.Value())
      {
        NextScope(p, layers, k);
        if layers[k] in p.scopes {
          ghost var sofar := before + [p] + ScopesOf(p, layers[..k]);
          FoldedMore(start, sofar, p.scopes[layers[k]]);
          assert sofar + [p.scopes[layers[k]]] == before + [p] + ScopesOf(p, layers[..k+1]);
          var b := cur.Apply(p.scopes[layers[k]]);
          if b.Some? {
            StopsAt(profiles, chain, layers, i, start, before + [p] + ScopesOf(p, layers[..k+1]), k + 1);
            return Err(b.value);
          }
        }
      }
      assert layers[..|layers|] == layers;
    }
    assert chain[..|chain|] == chain;
    return Ok(cur.Value());
  }

  lemma NoLayers(profiles: Table, scopes: seq<string>, start: Resolved)
    ensures Folded(start, LayersOf(profiles, [], scopes)) == Some(start)
    ensures forall p :: ScopesOf(p, []) == []
  {
  }

  lemma NextLayers(profiles: Table, chain: seq<string>, scopes: seq<string>, i: nat)
    requires (forall n | n in chain :: n in profiles) && i < |chain|
    ensures var p := profiles[chain[i]];
            && LayersOf(profiles, chain[..i+1], scopes) == LayersOf(profiles, chain[..i], scopes) + [p] + ScopesOf(p, scopes)
            && ScopesOf(p, []) == []
  {
    assert chain[..i+1][..i] == chain[..i];
  }

  lemma NextScope(p: Profile, scopes: seq<string>, k: nat)
    requires k < |scopes|
    ensures ScopesOf(p, scopes[..k+1]) ==
            ScopesOf(p, scopes[..k]) + (if scopes[k] in p.scopes then [p.scopes[scopes[k]]] else [])
    ensures scopes[k] !in p.scopes ==> ScopesOf(p, scopes[..k+1]) == ScopesOf(p, scopes[..k])
  {
    assert scopes[..k+1][..k] == scopes[..k];
  }

  /** A layer that cannot be applied stops the whole resolution. */
  lemma StopsAt(profiles: Table, chain: seq<string>, scopes: seq<string>, i: nat, start: Resolved, sofar: seq<Profile>, k: nat)
    requires (forall n | n in chain :: n in profiles) && i < |chain| && k <= |scopes|
    requires var p := profiles[chain[i]];
             sofar == LayersOf(profiles, chain[..i], scopes) + [p] + ScopesOf(p, scopes[..k])
    requires Folded(start, sofar).None?
    ensures Folded(start, LayersOf(profiles, chain, scopes)).None?
  {
    hide Folded, LayersOf, ScopesOf;
    var p := profiles[chain[i]];
    NextLayers(profiles, chain, scopes, i);
    ScopesPrefix(p, scopes, k);
    LayersPrefix(profiles, chain, scopes, i + 1);
    PrefixFails(start, sofar, LayersOf(profiles, chain[..i+1], scopes));
    PrefixFails(start, LayersOf(profiles, chain[..i+1], scopes), LayersOf(profiles, chain, scopes));
  }

  lemma PrefixFails(start: Resolved, a: seq<Profile>, b: seq<Profile>)
    requires a <= b && Folded(start, a).None?
    ensures Folded(start, b).None?
  {
    FoldedFails(start, a, b[|a|..]);
    assert a + b[|a|..] == b;
  }

  lemma {:induction false} ScopesPrefix(p: Profile, scopes: seq<string>, k: nat)
    requires k <= |scopes|
    ensures ScopesOf(p, scopes[..k]) <= ScopesOf(p, scopes)
  {
    if k < |scopes| {
      ScopesPrefix(p, scopes[..|scopes|-1], k);
      assert scopes[..|scopes|-1][..k] == scopes[..k];
    } else {
      assert scopes[..k] == scopes;
    }
  }

  lemma {:induction false} LayersPrefix(profiles: Table, chain: seq<string>, scopes: seq<string>, k: nat)
    requires (forall n | n in chain :: n in profiles) && k <= |chain|
    ensures LayersOf(profiles, chain[..k], scopes) <= LayersOf(profiles, chain, scopes)
  {
    if k < |chain| {
      LayersPrefix(profiles, chain[..|chain|-1], scopes, k);
      assert chain[..|chain|-1][..k] == chain[..k];
    } else {
      assert chain[..k] == chain;
    }
  }

  // ---------------------------------------------------------------- the last writer wins

  /** What the last layer that sets a field sets it to. */
  function Last<T>(default: T, layers: seq<Profile>, get: Profile -> Option<T>): T {
    if layers == [] then default
    else Or(get(layers[|layers|-1]), Last(default, layers[..|layers|-1], get))
  }

  /** The meaning of `Last`: the value of the last setting layer, or the default when none sets it. */
  lemma {:induction false} LastIsLast<T>(default: T, layers: seq<Profile>, get: Profile -> Option<T>)
    ensures (forall p | p in layers :: get(p).None?) ==> Last(default, layers, get) == default
    ensures forall i | 0 <= i < |layers| && get(layers[i]).Some? && (forall k | i < k < |layers| :: get(layers[k]).None?) ::
              Last(default, layers, get) == get(layers[i]).value
  {
    if layers != [] {
      var init := layers[..|layers|-1];
      LastIsLast(default, init, get);
      assert forall p | p in init :: p in layers;
      forall i | 0 <= i < |layers| && get(layers[i]).Some? && (forall k | i < k < |layers| :: get(layers[k]).None?)
        ensures Last(default, layers, get) == get(layers[i]).value
      {
        if i < |init| {
          assert init[i] == layers[i] && forall k | i < k < |init| :: get(init[k]).None?;
        }
      }
    }
  }

  /** A flag list after all layers. */
  function Flags(list: seq<string>, layers: seq<Profile>, replace: Profile -> Option<seq<string>>,
                 remove: Profile -> seq<string>, add: Profile -> seq<string>): seq<string> {
    if layers == [] then list
    else
      var p := layers[|layers|-1];
      FlagLayer(Flags(list, layers[..|layers|-1], replace, remove, add), replace(p), remove(p), add(p))
  }

  /** Each switch is what the last layer that sets it says. */
  ghost predicate SwitchesAreLast(start: Resolved, layers: seq<Profile>, r: Resolved) {
    && r.strip == Last(start.strip, layers, (p: Profile) => p.strip)
    && r.debug == Last(start.debug, layers, (p: Profile) => p.debug)
    && r.lto == Last(start.lto, layers, (p: Profile) => p.lto)
    && r.testModules == Last(start.testModules, layers, (p: Profile) => p.testModules)
  }

  /** Each text setting is the last non-empty one. */
  ghost predicate TextsAreLast(start: Resolved, layers: seq<Profile>, r: Resolved) {
    && r.ltoMode == Last(start.ltoMode, layers, (p: Profile) => NonEmpty(p.ltoMode))
    && r.pgo == Last(start.pgo, layers, (p: Profile) => NonEmpty(p.pgo))
    && r.profileTask == Last(start.profileTask, layers, (p: Profile) => NonEmpty(p.profileTask))
    && r.modules == Last(start.modules, layers, (p: Profile) => NonEmpty(p.modules))
    && r.bundle == Last(start.bundle, layers, (p: Profile) => NonEmpty(p.bundle))
    && r.toolchain == Last(start.toolchain, layers, (p: Profile) => NonEmpty(p.toolchain))
  }

  /** `cxxflags` is what the last layer that sets it says; the other flag lists are replaced, cut
      down and added to layer by layer. */
  ghost predicate FlagsAreFolded(start: Resolved, layers: seq<Profile>, r: Resolved) {
    && r.cxxflags == Last(start.cxxflags, layers, (p: Profile) => p.cxxflags)
    && r.cflags == Flags(start.cflags, layers, (p: Profile) => p.cflags, (p: Profile) => p.cflagsRemove,
                         (p: Profile) => p.cflagsAdd)
    && r.ldflags == Flags(start.ldflags, layers, (p: Profile) => p.ldflags, (p: Profile) => p.ldflagsRemove,
                          (p: Profile) => p.ldflagsAdd)
  }

  lemma FoldedLast(start: Resolved, layers: seq<Profile>)
    requires layers != [] && Folded(start, layers).Some?
    ensures Folded(start, layers[..|layers|-1]).Some?
    ensures Folded(start, layers).value == Applied(Folded(start, layers[..|layers|-1]).value, layers[|layers|-1])
  {
    hide Applies, Applied;
  }

  /** A field that every layer sets or leaves ends as the last layer that sets it says. */
  lemma {:induction false} FieldLast<T>(start: Resolved, layers: seq<Profile>, get: Profile -> Option<T>, field: Resolved -> T)
    requires Folded(start, layers).Some?
    requires forall r, p :: field(Applied(r, p)) == Or(get(p), field(r))
    ensures field(Folded(start, layers).value) == Last(field(start), layers, get)
  {
    hide Applied;
    if layers != [] {
      FoldedLast(start, layers);
      FieldLast(start, layers[..|layers|-1], get, field);
      hide Folded;
    }
  }

  lemma SwitchesLast(start: Resolved, layers: seq<Profile>)
    requires Folded(start, layers).Some?
    ensures SwitchesAreLast(start, layers, Folded(start, layers).value)
  {
    hide Folded, Last, FlagLayer;
    FieldLast(start, layers, (p: Profile) => p.strip, (r: Resolved) => r.strip);
    FieldLast(start, layers, (p: Profile) => p.debug, (r: Resolved) => r.debug);
    FieldLast(start, layers, (p: Profile) => p.lto, (r: Resolved) => r.lto);
    FieldLast(start, layers, (p: Profile) => p.testModules, (r: Resolved) => r.testModules);
  }

  lemma TextsLast(start: Resolved, layers: seq<Profile>)
    requires Folded(start, layers).Some?
    ensures TextsAreLast(start, layers, Folded(start, layers).value)
  {
    hide Folded, Last, FlagLayer;
    FieldLast(start, layers, (p: Profile) => NonEmpty(p.ltoMode), (r: Resolved) => r.ltoMode);
    FieldLast(start, layers, (p: Profile) => NonEmpty(p.pgo), (r: Resolved) => r.pgo);
    FieldLast(start, layers, (p: Profile) => NonEmpty(p.profileTask), (r: Resolved) => r.profileTask);
    FieldLast(start, layers, (p: Profile) => NonEmpty(p.modules), (r: Resolved) => r.modules);
    FieldLast(start, layers, (p: Profile) => NonEmpty(p.bundle), (r: Resolved) => r.bundle);
    FieldLast(start, layers, (p: Profile) => NonEmpty(p.toolchain), (r: Resolved) => r.toolchain);
  }

  lemma {:induction false} FlagsFolded(start: Resolved, layers: seq<Profile>)
    requires Folded(start, layers).Some?
    ensures FlagsAreFolded(start, layers, Folded(start, layers).value)
  {
    hide FlagLayer, Applies;
    if layers != [] {
      FoldedLast(start, layers);
      FlagsFolded(start, layers[..|layers|-1]);
      hide Folded;
    }
  }

  lemma {:induction false} NamesKept(start: Resolved, layers: seq<Profile>)
    requires Folded(start, layers).Some?
    ensures var r := Folded(start, layers).value;
            && r.profile == start.profile && r.scope == start.scope
            && r.ltoSet == (start.ltoSet || exists p :: p in layers && p.lto.Some?)
  {
    hide FlagLayer, Applies;
    if layers != [] {
      NamesKept(start, layers[..|layers|-1]);
      assert layers == layers[..|layers|-1] + [layers[|layers|-1]];
    }
  }

  /** On success every scalar is what the last layer that sets it says, and the flag lists are
      folded layer by layer. */
  lemma LastWriterWins(start: Resolved, layers: seq<Profile>)
    requires Folded(start, layers).Some?
    ensures var r := Folded(start, layers).value;
            && SwitchesAreLast(start, layers, r) && TextsAreLast(start, layers, r) && FlagsAreFolded(start, layers, r)
            && r.profile == start.profile && r.scope == start.scope
            && r.ltoSet == (start.ltoSet || exists p :: p in layers && p.lto.Some?)
  {
    hide Folded, SwitchesAreLast, TextsAreLast, FlagsAreFolded;
    SwitchesLast(start, layers);
    TextsLast(start, layers);
    FlagsFolded(start, layers);
    NamesKept(start, layers);
  }

  /** A flag list depends only on the layers from the last one that replaces it: what came before,
      and what it started from, do not matter. */
  lemma {:induction false} FlagsForgetBeforeReplace(list: seq<string>, before: seq<Profile>, p: Profile, after: seq<Profile>,
                                   replace: Profile -> Option<seq<string>>,
                                   remove: Profile -> seq<string>, add: Profile -> seq<string>)
    requires replace(p).Some?
    ensures Flags(list, before + [p] + after, replace, remove, add) == Flags([], [p] + after, replace, remove, add)
  {
    hide FlagLayer;
    if after == [] {
      assert before + [p] + after == before + [p] && [p] + after == [p];
      assert (before + [p])[..|before|] == before;
      FlagLayerReplaced(Flags(list, before, replace, remove, add), [], replace(p), remove(p), add(p));
      assert [p][..0] == [];
    } else {
      var init, last := after[..|after|-1], after[|after|-1];
      FlagsForgetBeforeReplace(list, before, p, init, replace, remove, add);
      var a, b := before + [p] + after, [p] + after;
      assert a[..|a|-1] == before + [p] + init && a[|a|-1] == last;
      assert b[..|b|-1] == [p] + init && b[|b|-1] == last;
    }
  }

  lemma FlagLayerReplaced(a: seq<string>, b: seq<string>, replace: Option<seq<string>>, remove: seq<string>, add: seq<string>)
    requires replace.Some?
    ensures FlagLayer(a, replace, remove, add) == FlagLayer(b, replace, remove, add)
  {
  }

  // ---------------------------------------------------------------- locality

  /** Two tables give a profile the same own values and the same selected scopes. */
  ghost predicate SameFor(a: Table, b: Table, name: string, scopes: seq<string>) {
    && name in a && name in b
    && a[name].(scopes := map[]) == b[name].(scopes := map[])
    && forall s | s in scopes :: (s in a[name].scopes <==> s in b[name].scopes)
                              && (s in a[name].scopes ==> a[name].scopes[s] == b[name].scopes[s])
  }

  /** Adding or changing a profile outside the chain, or a scope that is not selected, changes no
      resolution: on tables that agree where it matters, `Resolve` folds to the same result. */
  lemma ResolutionIsLocal(a: Table, b: Table, name: string, scope: string)
    requires Selected(a, name, scope).Some?
    requires forall n | n in ChainUp(a, name, {}).value :: SameFor(a, b, n, ScopeLayers(scope).value)
    ensures Selected(b, name, scope).Some?
    ensures Folded(Default(name, scope), Selected(b, name, scope).value) ==
            Folded(Default(name, scope), Selected(a, name, scope).value)
  {
    var chain, scopes := ChainUp(a, name, {}).value, ScopeLayers(scope).value;
    ChainDefined(a, name, {});
    forall n | n in chain ensures SameParent(a, b, n) {
      assert SameFor(a, b, n, scopes);
      assert a[n].(scopes := map[]).inherit == a[n].inherit && b[n].(scopes := map[]).inherit == b[n].inherit;
    }
    SameChain(a, b, name, {});
    ChainDefined(b, name, {});
    SameFold(a, b, chain, scopes, Default(name, scope));
  }

  /** A chain depends on what its own profiles inherit and on nothing else. */
  lemma {:induction false} SameChain(a: Table, b: Table, name: string, seen: set<string>)
    requires ChainUp(a, name, seen).Ok?
    requires forall n | n in ChainUp(a, name, seen).value :: SameParent(a, b, n)
    ensures ChainUp(b, name, seen) == ChainUp(a, name, seen)
    decreases a.Keys - seen
  {
    if name != "" {
      var above := ChainUp(a, a[name].inherit, seen + {name});
      assert ChainUp(a, name, seen).value == above.value + [name];
      assert SameParent(a, b, name);
      SameChain(a, b, a[name].inherit, seen + {name});
    }
  }

  ghost predicate SameParent(a: Table, b: Table, name: string) {
    name in a && name in b && a[name].inherit == b[name].inherit
  }

  lemma {:induction false} SameFold(a: Table, b: Table, chain: seq<string>, scopes: seq<string>, start: Resolved)
    requires forall n | n in chain :: n in a && n in b
    requires forall n | n in chain :: SameFor(a, b, n, scopes)
    ensures Folded(start, LayersOf(a, chain, scopes)) == Folded(start, LayersOf(b, chain, scopes))
  {
    if chain != [] {
      var init, n := chain[..|chain|-1], chain[|chain|-1];
      assert SameFor(a, b, n, scopes);
      SameFold(a, b, init, scopes, start);
      SameScopes(a[n], b[n], scopes);
      var before, before' := LayersOf(a, init, scopes), LayersOf(b, init, scopes);
      FoldedMore(start, before, a[n]);
      FoldedMore(start, before', b[n]);
      OnlyScopesDiffer(a[n], b[n]);
      SameFromHere(start, before + [a[n]], before' + [b[n]], ScopesOf(a[n], scopes));
    }
  }

  lemma {:induction false} SameScopes(p: Profile, q: Profile, scopes: seq<string>)
    requires forall s | s in scopes :: (s in p.scopes <==> s in q.scopes) && (s in p.scopes ==> p.scopes[s] == q.scopes[s])
    ensures ScopesOf(p, scopes) == ScopesOf(q, scopes)
  {
    if scopes != [] {
      SameScopes(p, q, scopes[..|scopes|-1]);
    }
  }

  lemma OnlyScopesDiffer(p: Profile, q: Profile)
    requires p.(scopes := map[]) == q.(scopes := map[])
    ensures forall r :: Applies(r, p) <==> Applies(r, q)
    ensures forall r :: Applied(r, p) == Applied(r, q)
  {
    hide Removable, FlagLayer;
    var e := p.(scopes := map[]);
    assert p == e.(scopes := p.scopes) && q == e.(scopes := q.scopes);
  }

  lemma {:induction false} SameFromHere(start: Resolved, x: seq<Profile>, y: seq<Profile>, rest: seq<Profile>)
    requires Folded(start, x) == Folded(start, y)
    ensures Folded(start, x + rest) == Folded(start, y + rest)
  {
    if rest == [] {
      assert x + rest == x && y + rest == y;
    } else {
      var init, last := rest[..|rest|-1], rest[|rest|-1];
      SameFromHere(start, x, y, init);
      FoldedMore(start, x + init, last);
      FoldedMore(start, y + init, last);
      PeelLast(x, rest);
      PeelLast(y, rest);
    }
  }

  // ---------------------------------------------------------------- package variants

  datatype Variant = Variant(configure: Option<seq<string>>, provided: Option<seq<string>>,
                             makeVars: Option<seq<string>>, skip: Option<bool>)

  /** `rest` stands for the fields no variant touches. */
  datatype Package = Package(rest: string, configure: seq<string>, provided: seq<string>, makeVars: seq<string>,
                             variants: map<string, Variant>)

  /** What the last profile of the chain with a variant that sets the field sets it to. */
  function LastVariant<T>(default: T, variants: map<string, Variant>, chain: seq<string>, get: Variant -> Option<T>): T {
    if chain == [] then default
    else
      var above := LastVariant(default, variants, chain[..|chain|-1], get);
      var n := chain[|chain|-1];
      if n in variants then Or(get(variants[n]), above) else above
  }

  /** A package as a profile chain sees it, and whether the chain skips it. */
  ghost function Seen(p: Package, chain: seq<string>): (Package, bool) {
    (Package(p.rest,
             LastVariant(p.configure, p.variants, chain, (v: Variant) => v.configure),
             LastVariant(p.provided, p.variants, chain, (v: Variant) => v.provided),
             LastVariant(p.makeVars, p.variants, chain, (v: Variant) => v.makeVars),
             map[]),
     LastVariant(false, p.variants, chain, (v: Variant) => v.skip))
  }

  /** What `packageFor` answers. */
  ghost function PackageAnswer(packages: map<string, Package>, profiles: Table, name: string, profile: string):
    Result<(Package, bool), Error> {
    if name !in packages then Err(UnknownPackage(name))
    else match ChainUp(profiles, profile, {})
      case Err(e) => Err(e)
      case Ok(chain) => Ok(Seen(packages[name], chain))
  }

  /** `packageFor`: the package as written, except what the most derived variant sets; the variants
      of other profiles are not even part of the result. */
  method PackageFor(packages: map<string, Package>, profiles: Table, name: string, profile: string)
    returns (r: Result<(Package, bool), Error>)
    ensures r == PackageAnswer(packages, profiles, name, profile)
  {
    if name !in packages {
      return Err(UnknownPackage(name));
    }
    var c := Chain(profiles, profile);
    if c.Err? {
      return Err(c.error);
    }
    var pkg, skip := packages[name], false;
    ghost var p := pkg;
    var chain := c.value;
    for i := 0 to |chain|
      invariant pkg.rest == p.rest && pkg.variants == p.variants
      invariant pkg.configure == LastVariant(p.configure, p.variants, chain[..i], (v: Variant) => v.configure)
      invariant pkg.provided == LastVariant(p.provided, p.variants, chain[..i], (v: Variant) => v.provided)
      invariant pkg.makeVars == LastVariant(p.makeVars, p.variants, chain[..i], (v: Variant) => v.makeVars)
      invariant skip == LastVariant(false, p.variants, chain[..i], (v: Variant) => v.skip)
    {
      assert chain[..i+1][..i] == chain[..i];
      if chain[i] in pkg.variants {
        var v := pkg.variants[chain[i]];
        pkg := pkg.(configure := Or(v.configure, pkg.configure));
        pkg := pkg.(provided := Or(v.provided, pkg.provided));
        pkg := pkg.(makeVars := Or(v.makeVars, pkg.makeVars));
        skip := Or(v.skip, skip);
      }
    }
    assert chain[..|chain|] == chain;
    return Ok((pkg.(variants := map[]), skip));
  }

  lemma {:induction false} SameLastVariant<T>(default: T, a: map<string, Variant>, b: map<string, Variant>,
                                               chain: seq<string>, get: Variant -> Option<T>)
    requires forall n | n in chain :: (n in a <==> n in b) && (n in a ==> a[n] == b[n])
    ensures LastVariant(default, a, chain, get) == LastVariant(default, b, chain, get)
  {
    if chain != [] {
      SameLastVariant(default, a, b, chain[..|chain|-1], get);
    }
  }

  /** A variant written for one profile, another package, or another profile altogether does not
      disturb what a package is for a profile whose chain they are not in. */
  lemma VariantsAreLocal(before: map<string, Package>, after: map<string, Package>, a: Table, b: Table,
                         name: string, profile: string)
    requires name in before && name in after && ChainUp(a, profile, {}).Ok?
    requires before[name].(variants := map[]) == after[name].(variants := map[])
    requires forall n | n in ChainUp(a, profile, {}).value ::
               && SameParent(a, b, n)
               && (n in before[name].variants <==> n in after[name].variants)
               && (n in before[name].variants ==> before[name].variants[n] == after[name].variants[n])
    ensures PackageAnswer(after, b, name, profile) == PackageAnswer(before, a, name, profile)
  {
    SameChain(a, b, profile, {});
    var chain, p, q := ChainUp(a, profile, {}).value, before[name], after[name];
    assert q == p.(variants := map[]).(variants := q.variants);
    SameLastVariant(p.configure, p.variants, q.variants, chain, (v: Variant) => v.configure);
    SameLastVariant(p.provided, p.variants, q.variants, chain, (v: Variant) => v.provided);
    SameLastVariant(p.makeVars, p.variants, q.variants, chain, (v: Variant) => v.makeVars);
    SameLastVariant(false, p.variants, q.variants, chain, (v: Variant) => v.skip);
  }

  /** What the fields are: those of the last profile in the chain whose variant sets them, and as
      written when none does. */
  lemma {:induction false} LastVariantIsLast<T>(default: T, variants: map<string, Variant>, chain: seq<string>,
                                                get: Variant -> Option<T>)
    ensures (forall n | n in chain && n in variants :: get(variants[n]).None?) ==>
              LastVariant(default, variants, chain, get) == default
    ensures forall i | 0 <= i < |chain| && chain[i] in variants && get(variants[chain[i]]).Some?
                       && (forall k | i < k < |chain| && chain[k] in variants :: get(variants[chain[k]]).None?) ::
              LastVariant(default, variants, chain, get) == get(variants[chain[i]]).value
  {
    if chain != [] {
      var init, last := chain[..|chain|-1], chain[|chain|-1];
      assert chain == init + [last];
      LastVariantIsLast(default, variants, init, get);
    }
  }
}
