/** The autoconf answers written for configure: one table filled by ranging over the merged macros
    in whatever order the map yields them. */
module ConfigSite {
  import opened Common
  import opened Probe

  datatype SiteError =
    | Contradiction(macro: string)
    | Unmeasurable(macro: string)

  datatype BoolVar = BoolVar(name: string, inverted: bool)

  /** `boolCache`. */
  function BoolCache(macro: string): Option<BoolVar> {
    if macro == "HAVE_GCC_UINT128_T" then Some(BoolVar("ac_cv_type___uint128_t", false))
    else if macro == "HAVE_GCC_ASM_FOR_X64" then Some(BoolVar("ac_cv_gcc_asm_for_x64", false))
    else if macro == "HAVE_GCC_ASM_FOR_X87" then Some(BoolVar("ac_cv_gcc_asm_for_x87", false))
    else if macro == "WORDS_BIGENDIAN" then Some(BoolVar("ac_cv_c_bigendian", false))
    else if macro == "HAVE_ALIGNED_REQUIRED" then Some(BoolVar("ac_cv_aligned_required", false))
    else if macro == "DOUBLE_IS_BIG_ENDIAN_IEEE754" then Some(BoolVar("ax_cv_c_float_words_bigendian", false))
    else if macro == "DOUBLE_IS_LITTLE_ENDIAN_IEEE754" then Some(BoolVar("ax_cv_c_float_words_bigendian", true))
    else None
  }

  function CrossAnswers(): map<string, string> {
    map[
      "ac_cv_buggy_getaddrinfo" := "no",
      "ac_cv_file__dev_ptmx" := "yes",
      "ac_cv_file__dev_ptc" := "no",
      "ac_cv_broken_nice" := "no",
      "ac_cv_broken_poll" := "no",
      "ac_cv_broken_unsetenv" := "no",
      "ac_cv_broken_mbstowcs" := "no",
      "ac_cv_broken_sem_getvalue" := "no",
      "ac_cv_pthread_system_supported" := "yes"
    ]
  }

  const SIZEOF := "SIZEOF_"
  const ALIGNOF := "ALIGNOF_"

  function LowerChar(c: char): char {
    if 'A' <= c <= 'Z' then ((c as int - 'A' as int) + 'a' as int) as char else c
  }

  /** `strings.ToLower` on ASCII letters. */
  function ToLower(s: string): (r: string)
    ensures |r| == |s|
  {
    seq(|s|, i requires 0 <= i < |s| => LowerChar(s[i]))
  }

  function SizedVar(kind: string, name: string): string {
    "ac_cv_" + kind + (if name == "_BOOL" then "__Bool" else "_" + ToLower(name))
  }

  /** `autoconfCache`: the variable that answers for a macro. */
  function CacheVar(macro: string): Option<string> {
    if SIZEOF <= macro then Some(SizedVar("sizeof", macro[|SIZEOF|..]))
    else if ALIGNOF <= macro then Some(SizedVar("alignof", macro[|ALIGNOF|..]))
    else match BoolCache(macro)
      case Some(b) => Some(b.name)
      case None => None
  }

  function YesNo(v: bool): string {
    if v then "yes" else "no"
  }

  /** What a macro's definition answers. */
  function Answer(macro: string, d: Define): string {
    match BoolCache(macro)
    case Some(b) => YesNo(!d.undef != b.inverted)
    case None => d.value
  }

  // ---------------------------------------------------------------- filling the table

  /** One turn of the loop of `configSite`. */
  function SiteStep(vars: map<string, string>, macro: string, d: Define): Result<map<string, string>, SiteError> {
    match CacheVar(macro)
    case None => Ok(vars)
    case Some(cache) =>
      var want := Answer(macro, d);
      if BoolCache(macro).Some? then
        if cache in vars && vars[cache] != want then Err(Contradiction(macro)) else Ok(vars[cache := want])
      else if d.undef then Err(Unmeasurable(macro))
      else Ok(vars[cache := want])
  }

  ghost function Site(merged: map<string, Define>, order: seq<string>): Result<map<string, string>, SiteError>
    requires forall m | m in order :: m in merged
  {
    if order == [] then Ok(CrossAnswers())
    else
      match Site(merged, order[..|order|-1])
      case Err(e) => Err(e)
      case Ok(vars) => SiteStep(vars, order[|order|-1], merged[order[|order|-1]])
  }

  /** `configSite` up to printing; `order` is the order the merged map happens to be ranged over in. */
  method ConfigSite(probed: map<string, Define>, fromAsset: map<string, Define>, order: seq<string>)
    returns (r: Result<map<string, string>, SiteError>)
    requires IsOrder(Merged(probed, fromAsset), order)
    ensures r == Site(Merged(probed, fromAsset), order)
  {
    hide CrossAnswers, CacheVar, BoolCache;
    var merged := Merge(probed, fromAsset);
    InOrder(merged, order);
    var vars := CrossAnswers();
    for i := 0 to |order|
      invariant Site(merged, order[..i]) == Ok(vars)
    {
      assert order[..i+1][..i] == order[..i];
      var macro := order[i];
      var d := merged[macro];
      ghost var next := SiteStep(vars, macro, d);
      SiteStops(merged, order, i);
      var cache := CacheVar(macro);
      if cache.None? {
        continue;
      }
      var b := BoolCache(macro);
      if b.Some? {
        var want := YesNo(!d.undef != b.value.inverted);
        if cache.value in vars && vars[cache.value] != want {
          return Err(Contradiction(macro));
        }
        vars := vars[cache.value := want];
        continue;
      }
      if d.undef {
        return Err(Unmeasurable(macro));
      }
      vars := vars[cache.value := d.value];
    }
    assert order[..|order|] == order;
    return Ok(vars);
  }

  /** An order the merged map can be ranged over in. */
  ghost predicate IsOrder(merged: map<string, Define>, order: seq<string>) {
    Distinct(order) && Elems(order) == merged.Keys
  }

  lemma InOrder(merged: map<string, Define>, order: seq<string>)
    requires IsOrder(merged, order)
    ensures forall m :: m in order <==> m in merged
  {
    assert forall m :: m in order <==> m in Elems(order);
  }

  /** Once the loop has failed it stays failed. */
  lemma {:induction false} SiteStops(merged: map<string, Define>, order: seq<string>, i: nat)
    requires i < |order| && forall m | m in order :: m in merged
    ensures Site(merged, order[..i+1]).Err? ==> Site(merged, order) == Site(merged, order[..i+1])
    decreases |order|
  {
    hide SiteStep, CrossAnswers;
    if i + 1 == |order| {
      assert order[..i+1] == order;
    } else {
      SiteStops(merged, order[..|order|-1], i);
      assert order[..|order|-1][..i+1] == order[..i+1];
    }
  }

  // ---------------------------------------------------------------- the table's variables

  /** A boolean macro is no size macro, and its variable differs from those of sizes and from the
      fixed answers by its seventh character, or its twelfth, or its second. */
  predicate BoolShape(v: string) {
    |v| > 11 && (v[1] == 'x' || v[6] == 't' || v[6] == 'g' || v[6] == 'c' || (v[6] == 'a' && v[11] == 'e'))
  }

  lemma BoolName(m: string)
    requires BoolCache(m).Some?
    ensures m != "" && m[0] != 'S' && m[0] != 'A'
  {
  }

  lemma BoolVarShape(m: string)
    requires BoolCache(m).Some?
    ensures BoolShape(BoolCache(m).value.name)
  {
    BoolVarNames(m);
    hide BoolCache;
    assert BoolShape("ac_cv_type___uint128_t") && BoolShape("ac_cv_gcc_asm_for_x64") && BoolShape("ac_cv_gcc_asm_for_x87");
    assert BoolShape("ac_cv_c_bigendian") && BoolShape("ac_cv_aligned_required");
    assert BoolShape("ax_cv_c_float_words_bigendian");
  }

  lemma BoolVarNames(m: string)
    requires BoolCache(m).Some?
    ensures BoolCache(m).value.name in {
              "ac_cv_type___uint128_t", "ac_cv_gcc_asm_for_x64", "ac_cv_gcc_asm_for_x87", "ac_cv_c_bigendian",
              "ac_cv_aligned_required", "ax_cv_c_float_words_bigendian"}
  {
  }

  lemma BoolMacro(m: string)
    requires BoolCache(m).Some?
    ensures CacheVar(m) == Some(BoolCache(m).value.name) && BoolShape(BoolCache(m).value.name)
  {
    BoolName(m);
    BoolVarShape(m);
    hide BoolCache, BoolShape;
    assert SIZEOF[0] == 'S' && ALIGNOF[0] == 'A';
  }

  lemma SizedShape(name: string)
    ensures !BoolShape(SizedVar("sizeof", name)) && !BoolShape(SizedVar("alignof", name))
  {
    var s, a := "ac_cv_" + "sizeof", "ac_cv_" + "alignof";
    assert s <= SizedVar("sizeof", name) && a <= SizedVar("alignof", name);
    assert s[1] == 'c' && s[6] == 's' && a[1] == 'c' && a[6] == 'a' && a[11] == 'o';
  }

  lemma FixedShape(v: string)
    requires v in CrossAnswers()
    ensures !BoolShape(v)
  {
  }

  /** Booleans share no variable with sizes or with the fixed answers. */
  lemma BoolsApart(m: string)
    requires BoolCache(m).Some?
    ensures CacheVar(m).Some? && CacheVar(m).value !in CrossAnswers()
    ensures forall n | BoolCache(n).None? :: CacheVar(n) != CacheVar(m)
  {
    BoolMacro(m);
    hide BoolShape, BoolCache;
    if CacheVar(m).value in CrossAnswers() {
      FixedShape(CacheVar(m).value);
    }
    forall n | BoolCache(n).None? ensures CacheVar(n) != CacheVar(m) {
      SizedShape(if SIZEOF <= n then n[|SIZEOF|..] else if ALIGNOF <= n then n[|ALIGNOF|..] else "");
    }
  }

  // ---------------------------------------------------------------- what the table holds

  /** A size stated as undefined: configure has no way to measure it. */
  ghost predicate Unanswerable(merged: map<string, Define>, m: string) {
    m in merged && CacheVar(m).Some? && BoolCache(m).None? && merged[m].undef
  }

  /** Two macros with one variable and different answers. */
  ghost predicate Differ(merged: map<string, Define>, m: string, n: string) {
    && m in merged && n in merged && CacheVar(m).Some? && CacheVar(m) == CacheVar(n)
    && Answer(m, merged[m]) != Answer(n, merged[n])
  }

  ghost predicate Opposed(merged: map<string, Define>, m: string, n: string) {
    Differ(merged, m, n) && BoolCache(m).Some?
  }

  /** What makes `configSite` fail. */
  ghost predicate Fails(merged: map<string, Define>, macros: set<string>) {
    || (exists m :: m in macros && Unanswerable(merged, m))
    || exists m, n :: m in macros && n in macros && Opposed(merged, m, n)
  }

  /** The answer of the last macro in the order that has this variable. */
  ghost function LastAnswer(merged: map<string, Define>, order: seq<string>, cache: string): Option<string>
    requires forall m | m in order :: m in merged
  {
    if order == [] then None
    else if CacheVar(order[|order|-1]) == Some(cache) then Some(Answer(order[|order|-1], merged[order[|order|-1]]))
    else LastAnswer(merged, order[..|order|-1], cache)
  }

  lemma {:induction false} LastAnswerIsSomes(merged: map<string, Define>, order: seq<string>, cache: string)
    requires forall m | m in order :: m in merged
    ensures match LastAnswer(merged, order, cache)
            case None => forall m | m in order :: CacheVar(m) != Some(cache)
            case Some(v) => exists m :: m in order && CacheVar(m) == Some(cache) && Answer(m, merged[m]) == v
  {
    if order != [] {
      hide CacheVar, Answer;
      var init, last := order[..|order|-1], order[|order|-1];
      assert order == init + [last];
      LastAnswerIsSomes(merged, init, cache);
      if CacheVar(last) == Some(cache) {
        assert last in order;
      } else if LastAnswer(merged, init, cache).Some? {
        var m :| m in init && CacheVar(m) == Some(cache) && Answer(m, merged[m]) == LastAnswer(merged, init, cache).value;
        assert m in order;
      }
    }
  }

  /** The table holds the last answer for each variable, and the fixed answers for the rest. */
  ghost predicate Holds(merged: map<string, Define>, order: seq<string>, vars: map<string, string>)
    requires forall m | m in order :: m in merged
  {
    forall c :: (if c in vars then Some(vars[c]) else None) == Entry(merged, order, c)
  }

  ghost function Entry(merged: map<string, Define>, order: seq<string>, c: string): Option<string>
    requires forall m | m in order :: m in merged
  {
    if LastAnswer(merged, order, c).Some? then LastAnswer(merged, order, c)
    else if c in CrossAnswers() then Some(CrossAnswers()[c])
    else None
  }

  lemma {:induction false} SiteExact(merged: map<string, Define>, order: seq<string>)
    requires forall m | m in order :: m in merged
    ensures Site(merged, order).Err? <==> Fails(merged, Elems(order))
    ensures Site(merged, order).Ok? ==> Holds(merged, order, Site(merged, order).value)
  {
    hide CrossAnswers, Fails, Elems, SiteStep;
    if order == [] {
      NothingFails(merged);
    } else {
      var init, last := order[..|order|-1], order[|order|-1];
      assert order == init + [last];
      SiteExact(merged, init);
      ElemsConcat(init, [last]);
      ElemsOne(last);
      FailsMore(merged, Elems(init), last);
      if Site(merged, init).Ok? {
        StepExact(merged, init, last, Site(merged, init).value);
      }
    }
  }

  lemma NothingFails(merged: map<string, Define>)
    ensures !Fails(merged, Elems([]))
  {
  }

  lemma FailsMore(merged: map<string, Define>, macros: set<string>, m: string)
    ensures Fails(merged, macros + {m}) <==>
            Fails(merged, macros) || Unanswerable(merged, m) || exists n :: n in macros && Opposed(merged, n, m)
  {
    hide Unanswerable;
    forall n ensures Opposed(merged, n, m) <==> Opposed(merged, m, n) {
      Symmetric(merged, m, n);
    }
    hide Opposed;
    if Fails(merged, macros + {m}) && !Unanswerable(merged, m) && !Fails(merged, macros) {
      var x, y :| x in macros + {m} && y in macros + {m} && Opposed(merged, x, y);
      assert x == m || y == m;
      NotItself(merged, m);
    }
  }

  lemma Symmetric(merged: map<string, Define>, m: string, n: string)
    ensures Opposed(merged, n, m) <==> Opposed(merged, m, n)
  {
    hide CacheVar, BoolCache, Answer, CrossAnswers;
    if BoolCache(m).Some? {
      BoolsApart(m);
    }
    if BoolCache(n).Some? {
      BoolsApart(n);
    }
  }

  lemma NotItself(merged: map<string, Define>, m: string)
    ensures !Opposed(merged, m, m)
  {
  }

  lemma StepExact(merged: map<string, Define>, init: seq<string>, last: string, vars: map<string, string>)
    requires last in merged && forall m | m in init :: m in merged
    requires !Fails(merged, Elems(init)) && Holds(merged, init, vars)
    ensures var r := SiteStep(vars, last, merged[last]);
            && (r.Err? <==> Unanswerable(merged, last) || exists n :: n in Elems(init) && Opposed(merged, n, last))
            && (r.Ok? ==> Holds(merged, init + [last], r.value))
  {
    hide CacheVar, BoolCache, Answer, CrossAnswers;
    var both := init + [last];
    assert both[..|both|-1] == init;
    assert forall m | m in both :: m in merged;
    if CacheVar(last).Some? {
      var cache := CacheVar(last).value;
      LastAnswerIsSomes(merged, init, cache);
      if BoolCache(last).Some? {
        BoolStepExact(merged, init, last);
      } else {
        SizedUnopposed(merged, last);
      }
    } else {
      SizedUnopposed(merged, last);
    }
  }

  lemma SizedUnopposed(merged: map<string, Define>, m: string)
    requires CacheVar(m).None? || BoolCache(m).None?
    ensures forall n :: !Opposed(merged, n, m)
  {
    hide CacheVar, BoolCache, Answer;
    forall n ensures !Opposed(merged, n, m) {
      Symmetric(merged, m, n);
    }
  }

  /** A boolean contradicts the table exactly when it contradicts an earlier boolean. */
  lemma BoolStepExact(merged: map<string, Define>, init: seq<string>, last: string)
    requires last in merged && BoolCache(last).Some? && CacheVar(last).Some? && forall m | m in init :: m in merged
    requires !Fails(merged, Elems(init))
    ensures var e := Entry(merged, init, CacheVar(last).value);
            e.Some? && e.value != Answer(last, merged[last]) <==> exists n :: n in Elems(init) && Opposed(merged, n, last)
  {
    hide CacheVar, BoolCache, Answer, CrossAnswers, LastAnswer;
    var cache := CacheVar(last).value;
    BoolsApart(last);
    LastAnswerIsSomes(merged, init, cache);
    var e := LastAnswer(merged, init, cache);
    if e.Some? {
      var m :| m in init && CacheVar(m) == Some(cache) && Answer(m, merged[m]) == e.value;
      assert BoolCache(m).Some? && m in Elems(init);
      if n :| n in Elems(init) && Opposed(merged, n, last) {
        assert !Opposed(merged, n, m);
      } else {
        assert !Opposed(merged, m, last);
      }
    }
  }

  /** The only macros that can contradict each other are the two halves of the float-endianness pair. */
  lemma OnlyFloatHalvesOppose(merged: map<string, Define>)
    ensures var big, little := "DOUBLE_IS_BIG_ENDIAN_IEEE754", "DOUBLE_IS_LITTLE_ENDIAN_IEEE754";
            (exists m, n :: Opposed(merged, m, n)) <==>
            big in merged && little in merged && merged[big].undef == merged[little].undef
  {
    var big, little := "DOUBLE_IS_BIG_ENDIAN_IEEE754", "DOUBLE_IS_LITTLE_ENDIAN_IEEE754";
    FloatHalves();
    forall m, n | Opposed(merged, m, n)
      ensures big in merged && little in merged && merged[big].undef == merged[little].undef {
      Symmetric(merged, m, n);
      BoolMacro(m);
      BoolMacro(n);
      hide CacheVar, BoolCache, BoolShape;
      SharedVariable(m, n);
    }
    hide CacheVar, BoolCache;
    if big in merged && little in merged && merged[big].undef == merged[little].undef {
      assert Opposed(merged, big, little);
    }
  }

  lemma FloatHalves()
    ensures var big, little := "DOUBLE_IS_BIG_ENDIAN_IEEE754", "DOUBLE_IS_LITTLE_ENDIAN_IEEE754";
            && BoolCache(big) == Some(BoolVar("ax_cv_c_float_words_bigendian", false))
            && BoolCache(little) == Some(BoolVar("ax_cv_c_float_words_bigendian", true))
            && CacheVar(big) == CacheVar(little) == Some("ax_cv_c_float_words_bigendian")
  {
    var big, little := "DOUBLE_IS_BIG_ENDIAN_IEEE754", "DOUBLE_IS_LITTLE_ENDIAN_IEEE754";
    assert big[10] != little[10];
    BoolMacro(big);
    BoolMacro(little);
  }

  /** The second and the last character tell the variables apart. */
  lemma BoolMark(m: string)
    requires BoolCache(m).Some?
    ensures var v := BoolCache(m).value.name;
            && |v| > 11
            && (|| (m == "HAVE_GCC_UINT128_T" && v[|v|-1] == 't')
                || (m == "HAVE_GCC_ASM_FOR_X64" && v[|v|-1] == '4')
                || (m == "HAVE_GCC_ASM_FOR_X87" && v[|v|-1] == '7')
                || (m == "WORDS_BIGENDIAN" && v[1] == 'c' && v[|v|-1] == 'n')
                || (m == "HAVE_ALIGNED_REQUIRED" && v[|v|-1] == 'd')
                || (m == "DOUBLE_IS_BIG_ENDIAN_IEEE754" && v[1] == 'x' && v[|v|-1] == 'n')
                || (m == "DOUBLE_IS_LITTLE_ENDIAN_IEEE754" && v[1] == 'x' && v[|v|-1] == 'n'))
  {
  }

  lemma SharedVariable(m: string, n: string)
    requires BoolCache(m).Some? && BoolCache(n).Some? && m != n && BoolCache(m).value.name == BoolCache(n).value.name
    ensures {m, n} == {"DOUBLE_IS_BIG_ENDIAN_IEEE754", "DOUBLE_IS_LITTLE_ENDIAN_IEEE754"}
  {
    BoolMark(m);
    BoolMark(n);
    hide BoolCache;
  }

  // ---------------------------------------------------------------- order

  /** Two macros that share a variable and disagree; `ClashesByCase` says which. */
  ghost predicate Clashes(merged: map<string, Define>) {
    exists m, n :: Differ(merged, m, n)
  }

  lemma LowerHasNoCapitals(s: string)
    ensures forall i | 0 <= i < |s| :: !('A' <= ToLower(s)[i] <= 'Z')
  {
  }

  /** One kind of size gives one variable to two names exactly when they differ in letter case only. */
  lemma SameSizedVar(kind: string, x: string, y: string)
    requires SizedVar(kind, x) == SizedVar(kind, y)
    ensures ToLower(x) == ToLower(y)
  {
    var head := "ac_cv_" + kind;
    var a := if x == "_BOOL" then "__Bool" else "_" + ToLower(x);
    var b := if y == "_BOOL" then "__Bool" else "_" + ToLower(y);
    assert SizedVar(kind, x)[|head|..] == a && SizedVar(kind, y)[|head|..] == b;
    LowerHasNoCapitals(x);
    LowerHasNoCapitals(y);
    assert "__Bool"[2] == 'B';
    assert a[1..] == (if x == "_BOOL" then "__Bool"[1..] else ToLower(x));
    assert b[1..] == (if y == "_BOOL" then "__Bool"[1..] else ToLower(y));
  }

  lemma KindsApart(x: string, y: string)
    ensures SizedVar("sizeof", x) != SizedVar("alignof", y)
  {
    var s, a := "ac_cv_" + "sizeof", "ac_cv_" + "alignof";
    assert s <= SizedVar("sizeof", x) && a <= SizedVar("alignof", y);
    assert s[6] == 's' && a[6] == 'a';
  }

  lemma LowerConcat(a: string, b: string)
    ensures ToLower(a + b) == ToLower(a) + ToLower(b)
  {
  }

  /** Macros that share a variable and disagree are two spellings of one size that differ in letter
      case only, or the two float halves. */
  lemma ClashesByCase(merged: map<string, Define>, m: string, n: string)
    requires Differ(merged, m, n)
    ensures m != n
    ensures || (BoolCache(m).None? && BoolCache(n).None? && ToLower(m) == ToLower(n))
            || {m, n} == {"DOUBLE_IS_BIG_ENDIAN_IEEE754", "DOUBLE_IS_LITTLE_ENDIAN_IEEE754"}
  {
    hide Answer, CrossAnswers, BoolCache;
    if BoolCache(m).Some? {
      BoolsApart(m);
      BoolMacro(m);
      BoolMacro(n);
      SharedVariable(m, n);
    } else {
      if BoolCache(n).Some? {
        BoolsApart(n);
      }
      SizedAlike(m, n);
    }
  }

  lemma SizedAlike(m: string, n: string)
    requires BoolCache(m).None? && BoolCache(n).None? && CacheVar(m).Some? && CacheVar(m) == CacheVar(n)
    ensures ToLower(m) == ToLower(n)
  {
    hide BoolCache, SizedVar, ToLower;
    var p := if SIZEOF <= m then SIZEOF else ALIGNOF;
    var q := if SIZEOF <= n then SIZEOF else ALIGNOF;
    assert p <= m && q <= n;
    var x, y := m[|p|..], n[|q|..];
    assert m == p + x && n == q + y;
    KindsApart(x, y);
    KindsApart(y, x);
    SameSizedVarOf(p, q, x, y, CacheVar(m).value);
    LowerConcat(p, x);
    LowerConcat(q, y);
  }

  lemma SameSizedVarOf(p: string, q: string, x: string, y: string, v: string)
    requires p in {SIZEOF, ALIGNOF} && q in {SIZEOF, ALIGNOF}
    requires v == SizedVar(if p == SIZEOF then "sizeof" else "alignof", x)
    requires v == SizedVar(if q == SIZEOF then "sizeof" else "alignof", y)
    ensures p == q && ToLower(x) == ToLower(y)
  {
    hide SizedVar, ToLower;
    KindsApart(x, y);
    KindsApart(y, x);
    SameSizedVar(if p == SIZEOF then "sizeof" else "alignof", x, y);
  }

  /** The outcome with the error's wording left out. */
  ghost function Outcome(merged: map<string, Define>, order: seq<string>): Option<map<string, string>>
    requires IsOrder(merged, order)
  {
    InOrder(merged, order);
    match Site(merged, order)
    case Ok(vars) => Some(vars)
    case Err(_) => None
  }

  /** Whether `configSite` fails does not depend on the order. */
  lemma FailsInAnyOrder(merged: map<string, Define>, order: seq<string>)
    requires IsOrder(merged, order)
    ensures Outcome(merged, order).None? <==> Fails(merged, merged.Keys)
  {
    hide Fails, Site;
    InOrder(merged, order);
    SiteExact(merged, order);
  }

  ghost predicate AnswersEach(merged: map<string, Define>, vars: map<string, string>) {
    && (forall m | m in merged && CacheVar(m).Some? ::
          CacheVar(m).value in vars && vars[CacheVar(m).value] == Answer(m, merged[m]))
    && forall c | (forall m | m in merged :: CacheVar(m) != Some(c)) ::
          if c in CrossAnswers() then c in vars && vars[c] == CrossAnswers()[c] else c !in vars
  }

  /** Without a clash, the table gives each macro's own answer, and nothing else but the fixed ones. */
  lemma TableAnswersEach(merged: map<string, Define>, order: seq<string>)
    requires IsOrder(merged, order) && !Clashes(merged) && Outcome(merged, order).Some?
    ensures AnswersEach(merged, Outcome(merged, order).value)
  {
    hide Fails, Site, CacheVar, Answer, CrossAnswers, LastAnswer, IsOrder;
    InOrder(merged, order);
    SiteExact(merged, order);
    var vars := Outcome(merged, order).value;
    assert Holds(merged, order, vars);
    forall m | m in merged && CacheVar(m).Some?
      ensures CacheVar(m).value in vars && vars[CacheVar(m).value] == Answer(m, merged[m]) {
      var c := CacheVar(m).value;
      LastAnswerIsSomes(merged, order, c);
      var n :| n in order && CacheVar(n) == Some(c) && Answer(n, merged[n]) == LastAnswer(merged, order, c).value;
      assert !Differ(merged, m, n);
      assert Entry(merged, order, c) == Some(Answer(m, merged[m]));
    }
    forall c | forall m | m in merged :: CacheVar(m) != Some(c)
      ensures if c in CrossAnswers() then c in vars && vars[c] == CrossAnswers()[c] else c !in vars {
      LastAnswerIsSomes(merged, order, c);
      assert Entry(merged, order, c) == if c in CrossAnswers() then Some(CrossAnswers()[c]) else None;
    }
  }

  lemma SameEntry(merged: map<string, Define>, v1: map<string, string>, v2: map<string, string>, c: string)
    requires AnswersEach(merged, v1) && AnswersEach(merged, v2)
    ensures c in v1 <==> c in v2
    ensures c in v1 ==> v1[c] == v2[c]
  {
    hide CacheVar, Answer, CrossAnswers;
    if m :| m in merged && CacheVar(m) == Some(c) {
      assert CacheVar(m).value == c;
    }
  }

  lemma SameTable(merged: map<string, Define>, o1: seq<string>, o2: seq<string>)
    requires IsOrder(merged, o1) && IsOrder(merged, o2) && !Clashes(merged)
    ensures Outcome(merged, o1) == Outcome(merged, o2)
  {
    hide Fails, Outcome, AnswersEach, IsOrder, Clashes;
    FailsInAnyOrder(merged, o1);
    FailsInAnyOrder(merged, o2);
    if Outcome(merged, o1).Some? {
      TableAnswersEach(merged, o1);
      TableAnswersEach(merged, o2);
      var v1, v2 := Outcome(merged, o1).value, Outcome(merged, o2).value;
      forall c ensures c in v1 <==> c in v2
               ensures c in v1 ==> v1[c] == v2[c] {
        SameEntry(merged, v1, v2, c);
      }
      assert v1 == v2;
    }
  }

  lemma {:induction false} SomeOrder(names: set<string>) returns (order: seq<string>)
    ensures Distinct(order) && Elems(order) == names
  {
    if names == {} {
      ElemsOne("");
      order := [];
    } else {
      var n :| n in names;
      order := SomeOrder(names - {n});
      assert n !in Elems(order);
      ElemsConcat(order, [n]);
      ElemsOne(n);
      order := order + [n];
    }
  }

  /** Last in the order wins. */
  lemma LastWins(merged: map<string, Define>, order: seq<string>, m: string)
    requires IsOrder(merged, order + [m]) && CacheVar(m).Some? && Outcome(merged, order + [m]).Some?
    ensures m in merged
    ensures var vars := Outcome(merged, order + [m]).value;
            CacheVar(m).value in vars && vars[CacheVar(m).value] == Answer(m, merged[m])
  {
    hide Fails, Site, CacheVar, Answer, CrossAnswers, IsOrder;
    var whole := order + [m];
    InOrder(merged, whole);
    SiteExact(merged, whole);
    assert whole[|whole|-1] == m && m in whole;
    assert Entry(merged, whole, CacheVar(m).value) == Some(Answer(m, merged[m]));
  }

  lemma TwoOrders(merged: map<string, Define>, m: string, n: string) returns (o1: seq<string>, o2: seq<string>)
    requires m in merged && n in merged && m != n
    ensures IsOrder(merged, o1 + [m]) && IsOrder(merged, o2 + [n])
  {
    o1 := SomeOrder(merged.Keys - {m});
    o2 := SomeOrder(merged.Keys - {n});
    assert m !in Elems(o1) && n !in Elems(o2);
    ElemsConcat(o1, [m]);
    ElemsConcat(o2, [n]);
    ElemsOne(m);
    ElemsOne(n);
  }

  /** The answers written for configure are the same whatever order the map is ranged over in,
      exactly when `configSite` fails or no two macros share a variable and disagree. */
  lemma OrderMattersExactly(merged: map<string, Define>)
    ensures (forall o1, o2 | IsOrder(merged, o1) && IsOrder(merged, o2) :: Outcome(merged, o1) == Outcome(merged, o2))
            <==> Fails(merged, merged.Keys) || !Clashes(merged)
  {
    hide Fails, Outcome, CacheVar, Answer, IsOrder;
    if Fails(merged, merged.Keys) {
      forall o | IsOrder(merged, o) ensures Outcome(merged, o) == None {
        FailsInAnyOrder(merged, o);
      }
    } else if m, n :| Differ(merged, m, n) {
      var o1, o2 := TwoOrders(merged, m, n);
      FailsInAnyOrder(merged, o1 + [m]);
      FailsInAnyOrder(merged, o2 + [n]);
      LastWins(merged, o1, m);
      LastWins(merged, o2, n);
      assert Outcome(merged, o1 + [m]) != Outcome(merged, o2 + [n]);
    } else {
      forall o1, o2 | IsOrder(merged, o1) && IsOrder(merged, o2) ensures Outcome(merged, o1) == Outcome(merged, o2) {
        SameTable(merged, o1, o2);
      }
    }
  }

  /** The order does matter whenever one size is stated in two spellings with different values, and
      nothing else is wrong. */
  lemma CaseClash(merged: map<string, Define>, prefix: string, x: string, y: string)
    requires prefix in {SIZEOF, ALIGNOF} && ToLower(x) == ToLower(y) && x != "_BOOL" && y != "_BOOL"
    requires prefix + x in merged && prefix + y in merged && merged[prefix + x].value != merged[prefix + y].value
    requires !Fails(merged, merged.Keys)
    ensures exists o1, o2 :: IsOrder(merged, o1) && IsOrder(merged, o2) && Outcome(merged, o1) != Outcome(merged, o2)
  {
    hide CacheVar, BoolCache, ToLower, Fails, Outcome, IsOrder;
    SizeVariable(prefix, x);
    SizeVariable(prefix, y);
    SameSpelling(prefix, x, y);
    assert Differ(merged, prefix + x, prefix + y);
    OrderMattersExactly(merged);
  }

  lemma SameSpelling(prefix: string, x: string, y: string)
    requires ToLower(x) == ToLower(y) && x != "_BOOL" && y != "_BOOL"
    ensures SizedVar(Kind(prefix), x) == SizedVar(Kind(prefix), y)
  {
    hide ToLower;
  }

  function Kind(prefix: string): string {
    if prefix == SIZEOF then "sizeof" else "alignof"
  }

  lemma SizeVariable(prefix: string, x: string)
    requires prefix in {SIZEOF, ALIGNOF}
    ensures BoolCache(prefix + x).None? && CacheVar(prefix + x) == Some(SizedVar(Kind(prefix), x))
  {
    hide SizedVar, BoolCache;
    var m := prefix + x;
    assert m[0] == prefix[0] && m[..|prefix|] == prefix && m[|prefix|..] == x;
    assert SIZEOF[0] == 'S' && ALIGNOF[0] == 'A';
    if BoolCache(m).Some? {
      BoolName(m);
    }
  }

  const PROBED_SIZES := {
    "SIZEOF_INT", "SIZEOF_LONG", "SIZEOF_LONG_LONG", "SIZEOF_VOID_P", "SIZEOF_SHORT",
    "SIZEOF_FLOAT", "SIZEOF_DOUBLE", "SIZEOF_LONG_DOUBLE", "SIZEOF_FPOS_T", "SIZEOF_SIZE_T",
    "SIZEOF_SSIZE_T", "SIZEOF_PID_T", "SIZEOF_UINTPTR_T", "SIZEOF_TIME_T", "SIZEOF_WCHAR_T", "SIZEOF__BOOL",
    "SIZEOF_OFF_T",
    "ALIGNOF_INT", "ALIGNOF_LONG", "ALIGNOF_LONG_LONG", "ALIGNOF_VOID_P", "ALIGNOF_FLOAT",
    "ALIGNOF_DOUBLE", "ALIGNOF_LONG_DOUBLE", "ALIGNOF_SIZE_T", "ALIGNOF_WCHAR_T", "ALIGNOF__BOOL"}

  /** `requireProbed`: what a probe must report to be accepted. */
  ghost predicate RequireProbed(probed: map<string, Define>) {
    && (forall m | BoolCache(m).Some? :: m in probed)
    && forall m | m in PROBED_SIZES :: m in probed && !probed[m].undef && probed[m].value != ""
  }

  /** So a probe that passes every check gives answers that depend on map order as soon as the
      fragment states the size of `int` in lower case and otherwise than the probe. */
  lemma FragmentSpelling(probed: map<string, Define>, size: string)
    requires RequireProbed(probed) && !Fails(probed, probed.Keys)
    requires "SIZEOF_INT" in probed && probed["SIZEOF_INT"].value != size
    ensures var merged := Merged(probed, map["SIZEOF_int" := Define(size, false)]);
            && !Fails(merged, merged.Keys)
            && exists o1, o2 :: IsOrder(merged, o1) && IsOrder(merged, o2) && Outcome(merged, o1) != Outcome(merged, o2)
  {
    hide Fails, Outcome, IsOrder, RequireProbed, ToLower;
    var merged := Merged(probed, map["SIZEOF_int" := Define(size, false)]);
    IntSpellings();
    OneMoreSize(probed, "int", Define(size, false));
    assert merged == probed[SIZEOF + "int" := Define(size, false)];
    CaseClash(merged, SIZEOF, "INT", "int");
  }

  lemma IntSpellings()
    ensures ToLower("INT") == ToLower("int") && "INT" != "_BOOL" && "int" != "_BOOL"
    ensures SIZEOF + "INT" == "SIZEOF_INT" && SIZEOF + "int" == "SIZEOF_int" && "SIZEOF_INT" != "SIZEOF_int"
  {
    assert "SIZEOF_INT"[7] != "SIZEOF_int"[7];
  }

  /** One more size with a value is no new reason to fail. */
  lemma OneMoreSize(probed: map<string, Define>, x: string, d: Define)
    requires !Fails(probed, probed.Keys) && !d.undef
    ensures var merged := probed[SIZEOF + x := d]; !Fails(merged, merged.Keys)
  {
    var merged, size := probed[SIZEOF + x := d], SIZEOF + x;
    SizeVariable(SIZEOF, x);
    hide BoolCache, CacheVar;
    forall m | m in merged.Keys ensures !Unanswerable(merged, m) {
      assert m == size || (m in probed.Keys && !Unanswerable(probed, m));
    }
    forall m, n | Opposed(merged, m, n) ensures m in probed && n in probed && Opposed(probed, m, n) {
      BoolsApart(m);
    }
  }

  /** Header and config.site answer alike: every macro the printed header states, read back from
      its text, is what configure is told, unless two macros clash. */
  lemma HeaderAndSiteAgree(triple: string, assetName: string, stdout: string, asset: string, order: seq<string>)
    requires '\n' !in triple && '\n' !in assetName
    requires IsOrder(Merged(Parse(stdout).defs, Parse(asset).defs), order)
    requires Outcome(Merged(Parse(stdout).defs, Parse(asset).defs), order).Some?
    requires !Clashes(Merged(Parse(stdout).defs, Parse(asset).defs))
    ensures var own := Own(Parse(stdout).order, Parse(asset).defs);
            (forall n | n in own :: n in Parse(stdout).defs)
            && var header := Parse(FragmentText(triple, assetName, Parse(stdout).defs, own, asset)).defs;
               var vars := Outcome(Merged(Parse(stdout).defs, Parse(asset).defs), order).value;
               forall m | m in header && CacheVar(m).Some? ::
                 CacheVar(m).value in vars && vars[CacheVar(m).value] == Answer(m, header[m])
  {
    hide Fails, Outcome, CacheVar, Answer, IsOrder, Parse, Own, FragmentText, Clashes, CrossAnswers;
    HeaderAnswersAlike(triple, assetName, stdout, asset);
    TableAnswersEach(Merged(Parse(stdout).defs, Parse(asset).defs), order);
  }

  // ---------------------------------------------------------------- what configure is told

  /** Lower-casing replaces the capitals A to Z and nothing else. */
  lemma LowersCapitalsOnly(s: string)
    ensures var upper, lower := "ABCDEFGHIJKLMNOPQRSTUVWXYZ", "abcdefghijklmnopqrstuvwxyz";
            forall i | 0 <= i < |s| ::
              if exists k :: 0 <= k < 26 && s[i] == upper[k]
              then exists k :: 0 <= k < 26 && s[i] == upper[k] && ToLower(s)[i] == lower[k]
              else ToLower(s)[i] == s[i]
  {
    forall i | 0 <= i < |s|
      ensures var upper, lower := "ABCDEFGHIJKLMNOPQRSTUVWXYZ", "abcdefghijklmnopqrstuvwxyz";
              if exists k :: 0 <= k < 26 && s[i] == upper[k]
              then exists k :: 0 <= k < 26 && s[i] == upper[k] && ToLower(s)[i] == lower[k]
              else ToLower(s)[i] == s[i] {
      LowerCharExact(s[i]);
    }
  }

  lemma LowerCharExact(c: char)
    ensures var upper, lower := "ABCDEFGHIJKLMNOPQRSTUVWXYZ", "abcdefghijklmnopqrstuvwxyz";
            if exists k :: 0 <= k < 26 && c == upper[k]
            then exists k :: 0 <= k < 26 && c == upper[k] && LowerChar(c) == lower[k]
            else LowerChar(c) == c
  {
    var upper, lower := "ABCDEFGHIJKLMNOPQRSTUVWXYZ", "abcdefghijklmnopqrstuvwxyz";
    if 'A' <= c <= 'Z' {
      var k := c as int - 'A' as int;
      assert upper[k] == c && lower[k] == LowerChar(c);
    }
  }

  /** The variable is there, with one of the two answers: the first when the macro is defined. */
  ghost predicate Tells(merged: map<string, Define>, vars: map<string, string>, macro: string, cache: string,
                        whenDefined: string, whenNot: string) {
    macro in merged ==> cache in vars && vars[cache] == if merged[macro].undef then whenNot else whenDefined
  }

  /** The variable of a size holds the value of its macro. */
  ghost predicate Sizes(merged: map<string, Define>, vars: map<string, string>, prefix: string, cache: string) {
    forall name | prefix + name in merged ::
      var v := cache + (if name == "_BOOL" then "__Bool" else "_" + ToLower(name));
      v in vars && vars[v] == merged[prefix + name].value
  }

  /** What configure is told about each macro, by name: a defined macro answers yes, an undefined
      one no, and the little-endian half the other way round. */
  ghost predicate BooleansTold(merged: map<string, Define>, vars: map<string, string>) {
    && Tells(merged, vars, "HAVE_GCC_UINT128_T", "ac_cv_type___uint128_t", "yes", "no")
    && Tells(merged, vars, "HAVE_GCC_ASM_FOR_X64", "ac_cv_gcc_asm_for_x64", "yes", "no")
    && Tells(merged, vars, "HAVE_GCC_ASM_FOR_X87", "ac_cv_gcc_asm_for_x87", "yes", "no")
    && Tells(merged, vars, "WORDS_BIGENDIAN", "ac_cv_c_bigendian", "yes", "no")
    && Tells(merged, vars, "HAVE_ALIGNED_REQUIRED", "ac_cv_aligned_required", "yes", "no")
    && Tells(merged, vars, "DOUBLE_IS_BIG_ENDIAN_IEEE754", "ax_cv_c_float_words_bigendian", "yes", "no")
    && Tells(merged, vars, "DOUBLE_IS_LITTLE_ENDIAN_IEEE754", "ax_cv_c_float_words_bigendian", "no", "yes")
  }

  lemma BooleansToldTruly(merged: map<string, Define>, vars: map<string, string>)
    requires AnswersEach(merged, vars)
    ensures BooleansTold(merged, vars)
  {
    ToldTruly(merged, vars, "HAVE_GCC_UINT128_T");
    ToldTruly(merged, vars, "HAVE_GCC_ASM_FOR_X64");
    ToldTruly(merged, vars, "HAVE_GCC_ASM_FOR_X87");
    ToldTruly(merged, vars, "WORDS_BIGENDIAN");
    ToldTruly(merged, vars, "HAVE_ALIGNED_REQUIRED");
    ToldTruly(merged, vars, "DOUBLE_IS_BIG_ENDIAN_IEEE754");
    ToldTruly(merged, vars, "DOUBLE_IS_LITTLE_ENDIAN_IEEE754");
    BoolTable();
    hide BoolCache, AnswersEach;
  }

  lemma ToldTruly(merged: map<string, Define>, vars: map<string, string>, macro: string)
    requires AnswersEach(merged, vars) && BoolCache(macro).Some?
    ensures var b := BoolCache(macro).value;
            Tells(merged, vars, macro, b.name, if b.inverted then "no" else "yes", if b.inverted then "yes" else "no")
  {
    BoolMacro(macro);
    hide BoolCache, CacheVar, BoolShape, CrossAnswers;
  }

  lemma BoolTable()
    ensures BoolCache("HAVE_GCC_UINT128_T") == Some(BoolVar("ac_cv_type___uint128_t", false))
    ensures BoolCache("HAVE_GCC_ASM_FOR_X64") == Some(BoolVar("ac_cv_gcc_asm_for_x64", false))
    ensures BoolCache("HAVE_GCC_ASM_FOR_X87") == Some(BoolVar("ac_cv_gcc_asm_for_x87", false))
    ensures BoolCache("WORDS_BIGENDIAN") == Some(BoolVar("ac_cv_c_bigendian", false))
    ensures BoolCache("HAVE_ALIGNED_REQUIRED") == Some(BoolVar("ac_cv_aligned_required", false))
    ensures BoolCache("DOUBLE_IS_BIG_ENDIAN_IEEE754") == Some(BoolVar("ax_cv_c_float_words_bigendian", false))
    ensures BoolCache("DOUBLE_IS_LITTLE_ENDIAN_IEEE754") == Some(BoolVar("ax_cv_c_float_words_bigendian", true))
  {
    assert "HAVE_GCC_ASM_FOR_X64"[19] != "HAVE_GCC_ASM_FOR_X87"[19];
    FloatHalves();
  }

  lemma SizesToldTruly(merged: map<string, Define>, vars: map<string, string>)
    requires AnswersEach(merged, vars)
    ensures Sizes(merged, vars, "SIZEOF_", "ac_cv_sizeof") && Sizes(merged, vars, "ALIGNOF_", "ac_cv_alignof")
  {
    SizedVarIs();
    hide SizedVar, ToLower, AnswersEach, Kind;
    forall name | SIZEOF + name in merged
      ensures var v := "ac_cv_sizeof" + (if name == "_BOOL" then "__Bool" else "_" + ToLower(name));
              v in vars && vars[v] == merged[SIZEOF + name].value {
      SizeTold(merged, vars, SIZEOF, name);
    }
    forall name | ALIGNOF + name in merged
      ensures var v := "ac_cv_alignof" + (if name == "_BOOL" then "__Bool" else "_" + ToLower(name));
              v in vars && vars[v] == merged[ALIGNOF + name].value {
      SizeTold(merged, vars, ALIGNOF, name);
    }
  }

  lemma SizedVarIs()
    ensures Kind(SIZEOF) == "sizeof" && Kind(ALIGNOF) == "alignof"
    ensures forall name :: SizedVar("sizeof", name) ==
              "ac_cv_sizeof" + (if name == "_BOOL" then "__Bool" else "_" + ToLower(name))
    ensures forall name :: SizedVar("alignof", name) ==
              "ac_cv_alignof" + (if name == "_BOOL" then "__Bool" else "_" + ToLower(name))
  {
    assert "ac_cv_" + "sizeof" == "ac_cv_sizeof" && "ac_cv_" + "alignof" == "ac_cv_alignof";
    assert SIZEOF[0] == 'S' && ALIGNOF[0] == 'A';
    hide ToLower;
  }

  lemma SizeTold(merged: map<string, Define>, vars: map<string, string>, prefix: string, name: string)
    requires AnswersEach(merged, vars) && prefix in {SIZEOF, ALIGNOF} && prefix + name in merged
    ensures var v := SizedVar(Kind(prefix), name); v in vars && vars[v] == merged[prefix + name].value
  {
    SizeVariable(prefix, name);
    hide BoolCache, CacheVar, SizedVar, CrossAnswers;
  }

  /** The questions no probe can settle: two answered yes, seven answered no. */
  ghost predicate FixedAnswers(vars: map<string, string>) {
    && (forall v | v in {"ac_cv_file__dev_ptmx", "ac_cv_pthread_system_supported"} :: v in vars && vars[v] == "yes")
    && forall v | v in {"ac_cv_buggy_getaddrinfo", "ac_cv_file__dev_ptc", "ac_cv_broken_nice", "ac_cv_broken_poll",
                        "ac_cv_broken_unsetenv", "ac_cv_broken_mbstowcs", "ac_cv_broken_sem_getvalue"} ::
         v in vars && vars[v] == "no"
  }

  lemma FixedAnswersAre()
    ensures FixedAnswers(CrossAnswers())
  {
  }

  lemma FixedApart(m: string)
    ensures CacheVar(m).Some? ==> CacheVar(m).value !in CrossAnswers()
  {
    hide CrossAnswers, SizedVar;
    if BoolCache(m).Some? {
      BoolsApart(m);
    } else if CacheVar(m).Some? {
      var kind := if SIZEOF <= m then "sizeof" else "alignof";
      SizedIsNotFixed(kind, m[if SIZEOF <= m then |SIZEOF| else |ALIGNOF|..]);
    }
  }

  lemma SizedIsNotFixed(kind: string, name: string)
    requires kind in {"sizeof", "alignof"}
    ensures SizedVar(kind, name) !in CrossAnswers()
  {
    var head := "ac_cv_" + kind;
    assert head <= SizedVar(kind, name);
    assert head[6] == kind[0] && head[7] == kind[1];
    hide SizedVar, CrossAnswers;
    if SizedVar(kind, name) in CrossAnswers() {
      FixedHeads(SizedVar(kind, name));
      assert false;
    }
  }

  lemma FixedHeads(v: string)
    requires v in CrossAnswers()
    ensures |v| > 7 && v[6] in "bfp"
  {
  }

  lemma FixedUnasked(merged: map<string, Define>, vars: map<string, string>, v: string)
    requires AnswersEach(merged, vars) && v in CrossAnswers()
    ensures v in vars && vars[v] == CrossAnswers()[v]
  {
    hide CrossAnswers, CacheVar, Answer;
    forall m ensures CacheVar(m) != Some(v) {
      FixedApart(m);
    }
  }

  lemma FixedSpread(vars: map<string, string>)
    requires FixedAnswers(CrossAnswers()) && forall v | v in CrossAnswers() :: v in vars && vars[v] == CrossAnswers()[v]
    ensures FixedAnswers(vars)
  {
    hide CrossAnswers;
  }

  lemma FixedKept(merged: map<string, Define>, vars: map<string, string>)
    requires AnswersEach(merged, vars)
    ensures FixedAnswers(vars)
  {
    hide CrossAnswers, CacheVar, Answer, FixedAnswers, AnswersEach;
    FixedAnswersAre();
    forall v | v in CrossAnswers() ensures v in vars && vars[v] == CrossAnswers()[v] {
      FixedUnasked(merged, vars, v);
    }
    FixedSpread(vars);
  }

  /** Whenever `configSite` succeeds and no two macros clash, in whatever order: a defined macro
      answers yes and an undefined one no, except that the little-endian half answers its variable
      the other way round; a size is its macro's value; the fixed answers stand. */
  lemma ConfigureIsTold(merged: map<string, Define>, order: seq<string>)
    requires IsOrder(merged, order) && !Clashes(merged) && Outcome(merged, order).Some?
    ensures var vars := Outcome(merged, order).value;
            && BooleansTold(merged, vars)
            && Sizes(merged, vars, "SIZEOF_", "ac_cv_sizeof") && Sizes(merged, vars, "ALIGNOF_", "ac_cv_alignof")
            && FixedAnswers(vars)
  {
    hide BooleansTold, Sizes, FixedAnswers, AnswersEach, IsOrder, Clashes, Outcome;
    TableAnswersEach(merged, order);
    var vars := Outcome(merged, order).value;
    BooleansToldTruly(merged, vars);
    SizesToldTruly(merged, vars);
    FixedKept(merged, vars);
  }

  /** It fails, in whatever order, exactly when a size is stated as undefined or both float halves
      are defined or both undefined. */
  lemma RefusedExactly(merged: map<string, Define>, order: seq<string>)
    requires IsOrder(merged, order)
    ensures Outcome(merged, order).None? <==>
              || (exists m :: m in merged && ("SIZEOF_" <= m || "ALIGNOF_" <= m) && merged[m].undef)
              || ("DOUBLE_IS_BIG_ENDIAN_IEEE754" in merged && "DOUBLE_IS_LITTLE_ENDIAN_IEEE754" in merged
                  && merged["DOUBLE_IS_BIG_ENDIAN_IEEE754"].undef == merged["DOUBLE_IS_LITTLE_ENDIAN_IEEE754"].undef)
  {
    FailsInAnyOrder(merged, order);
    OnlyFloatHalvesOppose(merged);
    forall m ensures Unanswerable(merged, m) <==> m in merged && ("SIZEOF_" <= m || "ALIGNOF_" <= m) && merged[m].undef {
      SizesAreNoBooleans(m);
    }
    hide Unanswerable, Opposed, CacheVar, BoolCache, Outcome, IsOrder;
    FailsSomewhere(merged);
  }

  lemma SizesAreNoBooleans(m: string)
    ensures CacheVar(m).Some? && BoolCache(m).None? <==> SIZEOF <= m || ALIGNOF <= m
  {
    hide BoolCache, SizedVar;
    assert SIZEOF[0] == 'S' && ALIGNOF[0] == 'A';
    if BoolCache(m).Some? {
      BoolName(m);
    }
  }

  lemma FailsSomewhere(merged: map<string, Define>)
    ensures Fails(merged, merged.Keys) <==>
            (exists m :: Unanswerable(merged, m)) || exists m, n :: Opposed(merged, m, n)
  {
    hide CacheVar, BoolCache, Answer;
    assert forall m :: Unanswerable(merged, m) ==> m in merged.Keys;
    assert forall m, n :: Opposed(merged, m, n) ==> m in merged.Keys && n in merged.Keys;
  }
}
