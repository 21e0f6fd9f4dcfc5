/** Small shared datatypes and the byte order on strings that both Go and strcmp use. */
module Common {

  datatype Option<+T> = None | Some(value: T)

  datatype Result<+T, +E> = Ok(value: T) | Err(error: E)

  /** Byte order, Go's `<` on strings. */
  predicate Less(a: string, b: string) {
    b != [] && (a == [] || a[0] < b[0] || (a[0] == b[0] && Less(a[1..], b[1..])))
  }

  lemma {:induction false} LessIrreflexive(a: string)
    ensures !Less(a, a)
  {
    if a != [] {
      LessIrreflexive(a[1..]);
    }
  }

  lemma {:induction false} LessTransitive(a: string, b: string, c: string)
    requires Less(a, b) && Less(b, c)
    ensures Less(a, c)
  {
    if a != [] && a[0] == b[0] == c[0] {
      LessTransitive(a[1..], b[1..], c[1..]);
    }
  }

  lemma {:induction false} LessTotal(a: string, b: string)
    ensures a == b || Less(a, b) || Less(b, a)
  {
    if a != [] && b != [] && a[0] == b[0] {
      LessTotal(a[1..], b[1..]);
      if a[1..] == b[1..] {
        assert a == [a[0]] + a[1..];
        assert b == [b[0]] + b[1..];
      }
    }
  }

  ghost predicate StrictlySorted(s: seq<string>) {
    forall i, j :: 0 <= i < j < |s| ==> Less(s[i], s[j])
  }

  /** The elements of a sequence. */
  ghost function Elems<T>(s: seq<T>): set<T> {
    set x | x in s
  }

  /** No element appears twice. */
  ghost predicate Distinct<T>(s: seq<T>) {
    forall i, j :: 0 <= i < j < |s| ==> s[i] != s[j]
  }

  /** `strings.TrimRight(s, "\r")`. */
  function TrimCR(s: string): string {
    if s != "" && s[|s|-1] == '\r' then TrimCR(s[..|s|-1]) else s
  }

  /** It drops carriage returns from the end, all of them and nothing else. */
  lemma {:induction false} TrimCRExact(s: string)
    ensures var t := TrimCR(s);
            t <= s && (t != "" ==> t[|t|-1] != '\r') && forall i | |t| <= i < |s| :: s[i] == '\r'
  {
    if s != "" && s[|s|-1] == '\r' {
      TrimCRExact(s[..|s|-1]);
    }
  }

  /** Words with gaps before, between and after them. */
  ghost function Spread(words: seq<string>, gaps: seq<string>): string
    requires |gaps| == |words| + 1
  {
    if words == [] then gaps[0]
    else Spread(words[..|words|-1], gaps[..|gaps|-1]) + words[|words|-1] + gaps[|gaps|-1]
  }

  /** `strings.Join`. */
  function Join(parts: seq<string>, sep: string): string {
    if parts == [] then ""
    else if |parts| == 1 then parts[0]
    else Join(parts[..|parts|-1], sep) + sep + parts[|parts|-1]
  }

  lemma JoinLast(init: seq<string>, last: string, sep: string)
    ensures Join(init + [last], sep) == if init == [] then last else Join(init, sep) + sep + last
  {
    assert (init + [last])[..|init|] == init;
  }

  lemma PeelLast<T>(a: seq<T>, b: seq<T>)
    requires b != []
    ensures a + b == a + b[..|b|-1] + [b[|b|-1]]
  {
  }

  lemma Regroup<T>(a: seq<T>, b: seq<T>, c: seq<T>)
    ensures a + (b + c) == a + b + c
  {
  }

  /** `strings.Split` at a single character. */
  function Split(s: string, sep: char): (r: seq<string>)
    ensures r != []
  {
    if s == "" then [""] else WithChar(Split(s[..|s|-1], sep), s[|s|-1], sep)
  }

  /** The pieces of a string with one more character. */
  function WithChar(parts: seq<string>, c: char, sep: char): (r: seq<string>)
    requires parts != []
    ensures r != []
  {
    if c == sep then parts + [""] else parts[..|parts|-1] + [parts[|parts|-1] + [c]]
  }

  lemma {:induction false} SplitConcat(a: string, b: string, sep: char)
    ensures Split(a + [sep] + b, sep) == Split(a, sep) + Split(b, sep)
  {
    hide Split, WithChar;
    if b == "" {
      SplitMore(a, sep, sep);
      NewPiece(Split(a, sep), sep);
      assert a + [sep] + b == a + [sep];
    } else {
      var init, c := b[..|b|-1], b[|b|-1];
      SplitConcat(a, init, sep);
      SplitMore(init, c, sep);
      SplitMore(a + [sep] + init, c, sep);
      WithCharConcat(Split(a, sep), Split(init, sep), c, sep);
      assert b == init + [c] && a + [sep] + b == a + [sep] + init + [c];
    }
  }

  lemma NewPiece(parts: seq<string>, sep: char)
    requires parts != []
    ensures WithChar(parts, sep, sep) == parts + Split("", sep)
  {
  }

  /** There is more than one piece exactly when the separator occurs. */
  lemma {:induction false} SplitCount(s: string, sep: char)
    ensures |Split(s, sep)| > 1 <==> sep in s
  {
    if s != "" {
      SplitCount(s[..|s|-1], sep);
      assert s == s[..|s|-1] + [s[|s|-1]];
    }
  }

  lemma SplitMore(s: string, c: char, sep: char)
    ensures Split(s + [c], sep) == WithChar(Split(s, sep), c, sep)
  {
    assert (s + [c])[..|s|] == s;
  }

  lemma WithCharConcat(x: seq<string>, y: seq<string>, c: char, sep: char)
    requires y != []
    ensures WithChar(x + y, c, sep) == x + WithChar(y, c, sep)
  {
    assert (x + y)[..|x + y|-1] == x + y[..|y|-1];
  }

  lemma {:induction false} OnePiece(s: string, sep: char)
    requires sep !in s
    ensures Split(s, sep) == [s]
  {
    if s != "" {
      hide Split;
      var init, c := s[..|s|-1], s[|s|-1];
      assert s == init + [c];
      OnePiece(init, sep);
      SplitMore(init, c, sep);
    }
  }

  /** The sum of a map's values. */
  ghost function Sum<K>(m: map<K, nat>): nat
    decreases m.Keys
  {
    if m.Keys == {} then 0
    else
      var k :| k in m.Keys;
      m[k] + Sum(m - {k})
  }

  lemma {:induction false} SumSplit<K>(m: map<K, nat>, k: K)
    requires k in m
    ensures Sum(m) == m[k] + Sum(m - {k})
    decreases m.Keys
  {
    var q :| q in m.Keys && Sum(m) == m[q] + Sum(m - {q});
    if q != k {
      SumSplit(m - {q}, k);
      SumSplit(m - {k}, q);
      assert m - {q} - {k} == m - {k} - {q};
    }
  }

  /** Lowering one value lowers the sum. */
  lemma SumLess<K>(m: map<K, nat>, n: map<K, nat>, k: K)
    requires k in m && n.Keys == m.Keys && n[k] < m[k] && forall x | x in m && x != k :: n[x] == m[x]
    ensures Sum(n) < Sum(m)
  {
    SumSplit(m, k);
    SumSplit(n, k);
    assert n - {k} == m - {k};
  }

  /** Inserts into a strictly sorted list; the list is unchanged when `x` is already there. */
  function Insert(s: seq<string>, x: string): (r: seq<string>)
  {
    if s == [] then [x]
    else if x == s[0] then s
    else if Less(x, s[0]) then [x] + s
    else [s[0]] + Insert(s[1..], x)
  }

  lemma ElemsConcat<T>(a: seq<T>, b: seq<T>)
    ensures Elems(a + b) == Elems(a) + Elems(b)
  {
  }

  lemma {:induction false} InsertElems(s: seq<string>, x: string)
    ensures Elems(Insert(s, x)) == Elems(s) + {x}
  {
    hide Elems, Less;
    if s == [] {
      ElemsConcat([], [x]);
      ElemsOne(x);
    } else {
      ElemsOne(s[0]);
      ElemsOne(x);
      ElemsConcat([s[0]], s[1..]);
      assert s == [s[0]] + s[1..];
      ElemsConcat([x], s);
      if x != s[0] && !Less(x, s[0]) {
        InsertElems(s[1..], x);
        ElemsConcat([s[0]], Insert(s[1..], x));
      }
    }
  }

  lemma ElemsOne<T>(x: T)
    ensures Elems([x]) == {x} && Elems<T>([]) == {}
  {
  }

  lemma SortedCons(x: string, s: seq<string>)
    requires StrictlySorted(s) && forall y | y in s :: Less(x, y)
    ensures StrictlySorted([x] + s)
  {
  }

  lemma {:induction false} InsertSorted(s: seq<string>, x: string)
    requires StrictlySorted(s)
    ensures StrictlySorted(Insert(s, x))
    ensures Elems(Insert(s, x)) == Elems(s) + {x}
  {
    hide Less;
    InsertElems(s, x);
    if s == [] || x == s[0] {
    } else if Less(x, s[0]) {
      forall y | y in s ensures Less(x, y) {
        if y != s[0] {
          LessTransitive(x, s[0], y);
        }
      }
      SortedCons(x, s);
    } else {
      LessTotal(x, s[0]);
      InsertElems(s[1..], x);
      InsertSorted(s[1..], x);
      forall y | y in Insert(s[1..], x) ensures Less(s[0], y) {
        assert y in Elems(Insert(s[1..], x));
      }
      SortedCons(s[0], Insert(s[1..], x));
    }
  }

  /** Sorts and drops repetitions. */
  function Sort(s: seq<string>): (r: seq<string>)
  {
    if s == [] then [] else Insert(Sort(s[..|s|-1]), s[|s|-1])
  }

  lemma {:induction false} SortSorted(s: seq<string>)
    ensures StrictlySorted(Sort(s))
    ensures Elems(Sort(s)) == Elems(s)
  {
    if s != [] {
      var init, last := s[..|s|-1], s[|s|-1];
      SortSorted(init);
      InsertSorted(Sort(init), last);
      assert s == init + [last];
    }
  }
}
