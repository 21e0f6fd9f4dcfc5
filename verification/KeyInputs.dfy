/** What a resolved profile contributes to a job's key, and what it forgets of the flag lists. */
module KeyInputs {
  import opened Common
  import opened Profiles

  const WHOLE_GRAPH := "whole-graph"

  function FormatBool(b: bool): string {
    if b then "true" else "false"
  }

  predicate IsDepScope(scope: string) {
    scope == "deps" || "deps." <= scope
  }

  function EffectiveLTO(r: Resolved): bool {
    !r.ltoSet || r.lto
  }

  function Mode(r: Resolved): string {
    if r.ltoMode == "" then WHOLE_GRAPH else r.ltoMode
  }

  const SHARED := {"cflags", "cxxflags", "ldflags", "strip", "debug", "lto_mode"}
  const PYTHON_ONLY := {"pgo", "profile_task", "test_modules", "modules", "bundle", "lto"}

  /** `Resolved.KeyInputs`: six inputs for a dependency, six more for Python, and never an empty
      LTO mode. */
  method KeyInputs(r: Resolved) returns (inputs: map<string, string>)
    ensures inputs.Keys == KeysFor(r.scope)
    ensures inputs["lto_mode"] != "" && (r.ltoMode != "" ==> inputs["lto_mode"] == r.ltoMode)
    ensures forall k | k in inputs :: inputs[k] == ValueOf(r, k)
    ensures Tells(r, inputs)
  {
    hide Join, FormatBool, EffectiveLTO, ValueOf, Tells;
    inputs := map[
      "cflags" := Join(r.cflags, " "),
      "cxxflags" := Join(r.cxxflags, " "),
      "ldflags" := Join(r.ldflags, " "),
      "strip" := FormatBool(r.strip),
      "debug" := FormatBool(r.debug)
    ];
    var mode := r.ltoMode;
    if mode == "" {
      mode := WHOLE_GRAPH;
    }
    inputs := inputs["lto_mode" := mode];
    SharedAreFilled(r, inputs);
    ModeValue(r);
    ghost var shared := inputs;
    if r.scope == "deps" || "deps." <= r.scope {
      ValuesTell(r, inputs);
      return;
    }
    inputs := inputs["pgo" := r.pgo];
    inputs := inputs["profile_task" := r.profileTask];
    inputs := inputs["test_modules" := FormatBool(r.testModules)];
    inputs := inputs["modules" := r.modules];
    inputs := inputs["bundle" := r.bundle];
    inputs := inputs["lto" := FormatBool(EffectiveLTO(r))];
    PythonOnlyAreFilled(r, shared, inputs);
    ValuesTell(r, inputs);
  }

  /** The inputs in the words they are hashed in: a dependency is told nothing of Python, and link-time
      optimisation counts as on unless it was switched off. */
  ghost predicate Tells(r: Resolved, inputs: map<string, string>) {
    && {"strip", "debug", "lto_mode"} <= inputs.Keys
    && inputs["strip"] == (if r.strip then "true" else "false") && inputs["debug"] == (if r.debug then "true" else "false")
    && inputs["lto_mode"] == (if r.ltoMode == "" then "whole-graph" else r.ltoMode)
    && ("lto" in inputs <==> !(r.scope == "deps" || "deps." <= r.scope))
    && ("lto" in inputs <==> "test_modules" in inputs) && ("lto" in inputs <==> "pgo" in inputs)
    && ("lto" in inputs ==>
          && inputs["lto"] == (if r.ltoSet && !r.lto then "false" else "true")
          && inputs["test_modules"] == (if r.testModules then "true" else "false")
          && inputs["pgo"] == r.pgo)
  }

  lemma ValuesTell(r: Resolved, inputs: map<string, string>)
    requires inputs.Keys == KeysFor(r.scope) && forall k | k in inputs :: inputs[k] == ValueOf(r, k)
    ensures Tells(r, inputs)
  {
    KeysAre(r.scope);
    ValuesAre(r);
    hide KeysFor, ValueOf, Join;
  }

  lemma KeysAre(scope: string)
    ensures {"strip", "debug", "lto_mode"} <= KeysFor(scope)
    ensures "lto" in KeysFor(scope) <==> !IsDepScope(scope)
    ensures "test_modules" in KeysFor(scope) <==> !IsDepScope(scope)
    ensures "pgo" in KeysFor(scope) <==> !IsDepScope(scope)
  {
    hide IsDepScope;
  }

  lemma ValuesAre(r: Resolved)
    ensures ValueOf(r, "strip") == FormatBool(r.strip) && ValueOf(r, "debug") == FormatBool(r.debug)
    ensures ValueOf(r, "lto_mode") == Mode(r) && ValueOf(r, "pgo") == r.pgo
    ensures ValueOf(r, "lto") == FormatBool(EffectiveLTO(r)) && ValueOf(r, "test_modules") == FormatBool(r.testModules)
  {
    hide Join, FormatBool, Mode, EffectiveLTO;
  }

  lemma SharedAreFilled(r: Resolved, inputs: map<string, string>)
    requires inputs == map["cflags" := Join(r.cflags, " "), "cxxflags" := Join(r.cxxflags, " "), "ldflags" := Join(r.ldflags, " "),
                           "strip" := FormatBool(r.strip), "debug" := FormatBool(r.debug), "lto_mode" := Mode(r)]
    ensures inputs.Keys == SHARED && forall k | k in SHARED :: inputs[k] == ValueOf(r, k)
  {
    hide Join, FormatBool, EffectiveLTO, Mode;
  }

  lemma PythonOnlyAreFilled(r: Resolved, shared: map<string, string>, inputs: map<string, string>)
    requires shared.Keys == SHARED && forall k | k in SHARED :: shared[k] == ValueOf(r, k)
    requires inputs == shared["pgo" := r.pgo]["profile_task" := r.profileTask]["test_modules" := FormatBool(r.testModules)]
                             ["modules" := r.modules]["bundle" := r.bundle]["lto" := FormatBool(EffectiveLTO(r))]
    ensures inputs.Keys == SHARED + PYTHON_ONLY && forall k | k in inputs :: inputs[k] == ValueOf(r, k)
  {
    hide Join, FormatBool, EffectiveLTO, Mode, ValueOf;
    var python := map["pgo" := r.pgo, "profile_task" := r.profileTask, "test_modules" := FormatBool(r.testModules),
                      "modules" := r.modules, "bundle" := r.bundle, "lto" := FormatBool(EffectiveLTO(r))];
    assert inputs == shared + python;
    PythonValues(r, python);
  }

  lemma PythonValues(r: Resolved, python: map<string, string>)
    requires python == map["pgo" := r.pgo, "profile_task" := r.profileTask, "test_modules" := FormatBool(r.testModules),
                           "modules" := r.modules, "bundle" := r.bundle, "lto" := FormatBool(EffectiveLTO(r))]
    ensures python.Keys == PYTHON_ONLY && forall k | k in PYTHON_ONLY :: python[k] == ValueOf(r, k)
  {
    hide Join, FormatBool, EffectiveLTO, Mode;
  }

  lemma ModeValue(r: Resolved)
    ensures ValueOf(r, "lto_mode") == Mode(r)
  {
  }

  function KeysFor(scope: string): set<string> {
    if IsDepScope(scope) then SHARED else SHARED + PYTHON_ONLY
  }

  /** What each input says. */
  function ValueOf(r: Resolved, k: string): string {
    if k == "cflags" then Join(r.cflags, " ")
    else if k == "cxxflags" then Join(r.cxxflags, " ")
    else if k == "ldflags" then Join(r.ldflags, " ")
    else if k == "strip" then FormatBool(r.strip)
    else if k == "debug" then FormatBool(r.debug)
    else if k == "lto_mode" then Mode(r)
    else if k == "pgo" then r.pgo
    else if k == "profile_task" then r.profileTask
    else if k == "test_modules" then FormatBool(r.testModules)
    else if k == "modules" then r.modules
    else if k == "bundle" then r.bundle
    else FormatBool(EffectiveLTO(r))
  }

  function Inputs(r: Resolved): map<string, string> {
    map k | k in KeysFor(r.scope) :: ValueOf(r, k)
  }

  lemma BoolsApart(a: bool, b: bool)
    ensures FormatBool(a) == FormatBool(b) <==> a == b
  {
    assert FormatBool(true)[0] == 't' && FormatBool(false)[0] == 'f';
  }

  lemma SharedInputs(r: Resolved)
    ensures var m := Inputs(r);
            && "cflags" in m && m["cflags"] == Join(r.cflags, " ")
            && "cxxflags" in m && m["cxxflags"] == Join(r.cxxflags, " ")
            && "ldflags" in m && m["ldflags"] == Join(r.ldflags, " ")
            && "strip" in m && m["strip"] == FormatBool(r.strip)
            && "debug" in m && m["debug"] == FormatBool(r.debug)
            && "lto_mode" in m && m["lto_mode"] == Mode(r)
            && ("pgo" in m <==> !IsDepScope(r.scope))
  {
    hide Join, FormatBool, Mode, EffectiveLTO, IsDepScope;
  }

  lemma PythonInputs(r: Resolved)
    requires !IsDepScope(r.scope)
    ensures var m := Inputs(r);
            && "pgo" in m && m["pgo"] == r.pgo
            && "profile_task" in m && m["profile_task"] == r.profileTask
            && "test_modules" in m && m["test_modules"] == FormatBool(r.testModules)
            && "modules" in m && m["modules"] == r.modules
            && "bundle" in m && m["bundle"] == r.bundle
            && "lto" in m && m["lto"] == FormatBool(EffectiveLTO(r))
  {
    hide Join, FormatBool, Mode, EffectiveLTO, IsDepScope;
  }

  // ---------------------------------------------------------------- same artifact

  /** Everything besides the flag lists: the switches, and for Python its optimisation and modules. */
  predicate SameSwitches(a: Resolved, b: Resolved) {
    && a.strip == b.strip && a.debug == b.debug && Mode(a) == Mode(b)
    && IsDepScope(a.scope) == IsDepScope(b.scope)
    && (!IsDepScope(a.scope) ==>
          && a.pgo == b.pgo && a.profileTask == b.profileTask && a.testModules == b.testModules
          && a.modules == b.modules && a.bundle == b.bundle && EffectiveLTO(a) == EffectiveLTO(b))
  }

  /** The tools get the same arguments, one by one. */
  predicate SameArtifact(a: Resolved, b: Resolved) {
    a.cflags == b.cflags && a.cxxflags == b.cxxflags && a.ldflags == b.ldflags && SameSwitches(a, b)
  }

  /** Flags cut at their spaces, all in one list; an empty list counts as one empty flag. */
  function Pieces(flags: seq<string>): (r: seq<string>)
    ensures r != []
  {
    if flags == [] then [""]
    else if |flags| == 1 then Split(flags[0], ' ')
    else Pieces(flags[..|flags|-1]) + Split(flags[|flags|-1], ' ')
  }

  predicate SamePieces(a: Resolved, b: Resolved) {
    Pieces(a.cflags) == Pieces(b.cflags) && Pieces(a.cxxflags) == Pieces(b.cxxflags) && Pieces(a.ldflags) == Pieces(b.ldflags)
  }

  // ---------------------------------------------------------------- what joining forgets

  lemma {:induction false} SplitOfJoin(flags: seq<string>)
    ensures Split(Join(flags, " "), ' ') == Pieces(flags)
  {
    if |flags| >= 2 {
      hide Split;
      var init, last := flags[..|flags|-1], flags[|flags|-1];
      SplitOfJoin(init);
      SplitConcat(Join(init, " "), last, ' ');
      assert Join(init, " ") + " " + last == Join(init, " ") + [' '] + last;
    }
  }

  lemma {:induction false} JoinOfSplit(s: string)
    ensures Join(Split(s, ' '), " ") == s
  {
    if s != "" {
      var init, c := s[..|s|-1], s[|s|-1];
      var parts := Split(init, ' ');
      JoinOfSplit(init);
      assert s == init + [c];
      if c == ' ' {
        assert (parts + [""])[..|parts|] == parts;
      } else {
        hide Split;
        JoinExtend(parts, c);
      }
    }
  }

  lemma LastOff(parts: seq<string>)
    requires parts != []
    ensures parts == parts[..|parts|-1] + [parts[|parts|-1]]
  {
  }

  lemma JoinExtend(parts: seq<string>, c: char)
    requires parts != []
    ensures Join(parts[..|parts|-1] + [parts[|parts|-1] + [c]], " ") == Join(parts, " ") + [c]
  {
    hide Join;
    var init, last := parts[..|parts|-1], parts[|parts|-1];
    JoinLast(init, last, " ");
    JoinLast(init, last + [c], " ");
    Regroup(Join(init, " ") + " ", last, [c]);
    LastOff(parts);
  }

  /** Two lists are joined to one text exactly when cutting their flags at spaces gives one list. */
  lemma JoinExactly(a: seq<string>, b: seq<string>)
    ensures Join(a, " ") == Join(b, " ") <==> Pieces(a) == Pieces(b)
  {
    SplitOfJoin(a);
    SplitOfJoin(b);
    JoinOfSplit(Join(a, " "));
    JoinOfSplit(Join(b, " "));
    hide Join, Pieces, Split;
  }

  predicate Spaceless(flags: seq<string>) {
    forall f | f in flags :: ' ' !in f
  }

  /** A list that joining does not confuse with another of its kind. */
  predicate Plain(flags: seq<string>) {
    flags != [] && Spaceless(flags)
  }

  lemma {:induction false} PiecesOfSpaceless(flags: seq<string>)
    requires Spaceless(flags)
    ensures Pieces(flags) == if flags == [] then [""] else flags
  {
    if |flags| == 1 {
      assert flags[0] in flags;
      OnePiece(flags[0], ' ');
    } else if |flags| > 1 {
      hide Split;
      var init, last := flags[..|flags|-1], flags[|flags|-1];
      assert last in flags && flags == init + [last];
      PiecesOfSpaceless(init);
      OnePiece(last, ' ');
    }
  }

  lemma {:induction false} SplitIsSpaceless(s: string)
    ensures Spaceless(Split(s, ' '))
  {
    if s != "" {
      var parts := Split(s[..|s|-1], ' ');
      SplitIsSpaceless(s[..|s|-1]);
      assert parts[|parts|-1] in parts;
      hide Split;
      forall f | f in WithChar(parts, s[|s|-1], ' ') ensures ' ' !in f {
        if f !in parts && s[|s|-1] != ' ' {
          assert f == parts[|parts|-1] + [s[|s|-1]];
        }
      }
    }
  }

  /** Cutting a list at its spaces gives a plain list with the same text. */
  lemma PiecesJoinAlike(flags: seq<string>)
    ensures Plain(Pieces(flags)) && Join(Pieces(flags), " ") == Join(flags, " ")
  {
    SplitOfJoin(flags);
    SplitIsSpaceless(Join(flags, " "));
    JoinOfSplit(Join(flags, " "));
    hide Join, Split;
  }

  /** The check a caller can make: some other plain list has the same text exactly when this one is
      empty or a flag of it has a space. */
  lemma CollidesExactly(a: seq<string>)
    ensures (exists b :: Plain(b) && b != a && Join(b, " ") == Join(a, " ")) <==> a == [] || !Spaceless(a)
  {
    PiecesJoinAlike(a);
    hide Join, Pieces, Spaceless;
    if a == [] || !Spaceless(a) {
      assert Pieces(a) != a;
    }
    forall b | Plain(b) && Join(b, " ") == Join(a, " ") && a != [] && Spaceless(a) ensures b == a {
      JoinExactly(a, b);
      PiecesOfSpaceless(a);
      PiecesOfSpaceless(b);
    }
  }

  // ---------------------------------------------------------------- lifted to key inputs

  predicate SameTexts(a: Resolved, b: Resolved) {
    && Join(a.cflags, " ") == Join(b.cflags, " ") && Join(a.cxxflags, " ") == Join(b.cxxflags, " ")
    && Join(a.ldflags, " ") == Join(b.ldflags, " ")
  }

  lemma SharedDecide(a: Resolved, b: Resolved)
    requires Inputs(a) == Inputs(b)
    ensures SameTexts(a, b) && a.strip == b.strip && a.debug == b.debug && Mode(a) == Mode(b)
    ensures IsDepScope(a.scope) == IsDepScope(b.scope)
  {
    SharedInputs(a);
    SharedInputs(b);
    BoolsApart(a.strip, b.strip);
    BoolsApart(a.debug, b.debug);
    hide Join, FormatBool, Mode, IsDepScope, Inputs;
  }

  lemma PythonDecides(a: Resolved, b: Resolved)
    requires Inputs(a) == Inputs(b) && !IsDepScope(a.scope) && !IsDepScope(b.scope)
    ensures a.pgo == b.pgo && a.profileTask == b.profileTask && a.testModules == b.testModules
    ensures a.modules == b.modules && a.bundle == b.bundle && EffectiveLTO(a) == EffectiveLTO(b)
  {
    PythonInputs(a);
    PythonInputs(b);
    BoolsApart(a.testModules, b.testModules);
    BoolsApart(EffectiveLTO(a), EffectiveLTO(b));
    hide FormatBool, EffectiveLTO, IsDepScope, Inputs;
  }

  lemma SameValues(a: Resolved, b: Resolved)
    requires SameTexts(a, b) && SameSwitches(a, b)
    ensures Inputs(a) == Inputs(b)
  {
    hide Join, FormatBool, Mode, EffectiveLTO, IsDepScope;
    assert KeysFor(a.scope) == KeysFor(b.scope);
    forall k | k in KeysFor(a.scope) ensures ValueOf(a, k) == ValueOf(b, k) {
    }
  }

  lemma InputsByField(a: Resolved, b: Resolved)
    ensures Inputs(a) == Inputs(b) <==> SameTexts(a, b) && SameSwitches(a, b)
  {
    hide Inputs, SameTexts, Mode, EffectiveLTO, IsDepScope;
    if Inputs(a) == Inputs(b) {
      SharedDecide(a, b);
      if !IsDepScope(a.scope) {
        PythonDecides(a, b);
      }
    }
    if SameTexts(a, b) && SameSwitches(a, b) {
      SameValues(a, b);
    }
  }

  /** For every pair: two resolutions have one key contribution exactly when their switches agree and
      their flag lists agree once every flag is cut at its spaces. */
  lemma InputsExactly(a: Resolved, b: Resolved)
    ensures Inputs(a) == Inputs(b) <==> SamePieces(a, b) && SameSwitches(a, b)
  {
    hide Join, Pieces, Inputs, SameSwitches;
    InputsByField(a, b);
    JoinExactly(a.cflags, b.cflags);
    JoinExactly(a.cxxflags, b.cxxflags);
    JoinExactly(a.ldflags, b.ldflags);
  }

  predicate AllPlain(r: Resolved) {
    Plain(r.cflags) && Plain(r.cxxflags) && Plain(r.ldflags)
  }

  /** Spaceless lists that are not one empty and the other just an empty flag. */
  predicate Distinguishable(a: seq<string>, b: seq<string>) {
    Spaceless(a) && Spaceless(b) && !(a == [] && b == [""]) && !(a == [""] && b == [])
  }

  lemma PiecesTellApart(a: seq<string>, b: seq<string>)
    requires Spaceless(a) && Spaceless(b)
    ensures Pieces(a) == Pieces(b) <==> a == b || !Distinguishable(a, b)
  {
    PiecesOfSpaceless(a);
    PiecesOfSpaceless(b);
    hide Pieces, Spaceless;
  }

  /** Without spaces in flags the key inputs are equal exactly when the tools get the same arguments
      and the switches agree: profile and scope names do not count, a dep ignores what only Python
      reads, and an empty list is told from every list but that of one empty flag. */
  lemma InputsDecideArtifact(a: Resolved, b: Resolved)
    requires Distinguishable(a.cflags, b.cflags) && Distinguishable(a.cxxflags, b.cxxflags)
    requires Distinguishable(a.ldflags, b.ldflags)
    ensures Inputs(a) == Inputs(b) <==> SameArtifact(a, b)
  {
    hide Inputs, SameSwitches, Pieces;
    InputsExactly(a, b);
    PiecesTellApart(a.cflags, b.cflags);
    PiecesTellApart(a.cxxflags, b.cxxflags);
    PiecesTellApart(a.ldflags, b.ldflags);
  }

  /** The caller's check for a whole profile: another artifact with plain lists has the same key
      inputs exactly when some list of this one is empty or has a flag with a space. */
  lemma SharesKeyExactly(a: Resolved)
    ensures (exists b :: AllPlain(b) && Inputs(b) == Inputs(a) && !SameArtifact(a, b)) <==> !AllPlain(a)
  {
    hide Inputs, Pieces, Spaceless, SameSwitches;
    var cut := a.(cflags := Pieces(a.cflags), cxxflags := Pieces(a.cxxflags), ldflags := Pieces(a.ldflags));
    PiecesJoinAlike(a.cflags);
    PiecesJoinAlike(a.cxxflags);
    PiecesJoinAlike(a.ldflags);
    SameSwitchesOf(a, cut);
    InputsByField(cut, a);
    if !AllPlain(a) {
      assert AllPlain(cut) && !SameArtifact(a, cut);
    }
    forall b | AllPlain(a) && AllPlain(b) && Inputs(b) == Inputs(a) ensures SameArtifact(a, b) {
      InputsDecideArtifact(a, b);
    }
  }

  lemma SameSwitchesOf(a: Resolved, b: Resolved)
    requires b == a.(cflags := b.cflags, cxxflags := b.cxxflags, ldflags := b.ldflags)
    ensures SameSwitches(a, b) && SameSwitches(b, a)
  {
  }

  /** Two inputs that show it: two flags and the one flag they look like; no flag and an empty flag. */
  lemma FlagsCollide(a: Resolved, f: string, g: string)
    ensures var two, one := a.(cflags := [f, g]), a.(cflags := [f + " " + g]);
            Inputs(two) == Inputs(one) && !SameArtifact(two, one)
    ensures var none, empty := a.(cflags := []), a.(cflags := [""]);
            Inputs(none) == Inputs(empty) && !SameArtifact(none, empty)
  {
    assert [f, g][..1] == [f];
    assert Join([f, g], " ") == Join([f + " " + g], " ");
    hide Inputs, SameSwitches;
    SameSwitchesOf(a.(cflags := [f, g]), a.(cflags := [f + " " + g]));
    InputsByField(a.(cflags := [f, g]), a.(cflags := [f + " " + g]));
    SameSwitchesOf(a.(cflags := []), a.(cflags := [""]));
    InputsByField(a.(cflags := []), a.(cflags := [""]));
  }
}
