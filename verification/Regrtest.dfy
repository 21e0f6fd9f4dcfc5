/** Reading the summary regrtest prints: sections of test names, and the count of tests that passed. */
module Regrtest {
  import opened Common
  import opened Verdicts
  import Probe

  datatype Bucket = Failed | Skipped | Omitted | NoTests | EnvChanged

  function Tests(o: Outcome, b: Bucket): seq<string> {
    match b
    case Failed => o.failed
    case Skipped => o.skipped
    case Omitted => o.omitted
    case NoTests => o.noTests
    case EnvChanged => o.envChanged
  }

  function WithTests(o: Outcome, b: Bucket, names: seq<string>): (r: Outcome)
    ensures Tests(r, b) == names && r.passed == o.passed && r.requested == o.requested
    ensures forall c | c != b :: Tests(r, c) == Tests(o, c)
  {
    match b
    case Failed => o.(failed := names)
    case Skipped => o.(skipped := names)
    case Omitted => o.(omitted := names)
    case NoTests => o.(noTests := names)
    case EnvChanged => o.(envChanged := names)
  }

  // ---------------------------------------------------------------- reading one line

  predicate Starts(s: string, prefix: string) {
    prefix <= s
  }

  predicate Contains(s: string, part: string) {
    exists i | 0 <= i <= |s| :: part <= s[i..]
  }

  function TrimLeft(s: string): string {
    if s != "" && Probe.IsSpace(s[0]) then TrimLeft(s[1..]) else s
  }

  function TrimRight(s: string): string {
    if s != "" && Probe.IsSpace(s[|s|-1]) then TrimRight(s[..|s|-1]) else s
  }

  /** `strings.TrimSpace`. */
  function TrimSpace(s: string): string {
    TrimRight(TrimLeft(s))
  }

  predicate IsDigit(c: char) {
    '0' <= c <= '9'
  }

  /** How many characters the leading digits take. */
  function Digits(s: string): (n: nat)
    ensures n <= |s| && (n > 0 ==> IsDigit(s[0]))
  {
    if s != "" && IsDigit(s[0]) then 1 + Digits(s[1..]) else 0
  }

  /** Drops what `\s*` takes: unlike `IsSpace`, no vertical tab. */
  function DropBlanks(s: string): (r: string)
    ensures |r| <= |s| && r == s[|s|-|r|..]
  {
    if s != "" && s[0] in "\t\n\U{c}\r " then DropBlanks(s[1..]) else s
  }

  const MAX_INT := 0x7fff_ffff_ffff_ffff

  function Value(digits: string): nat
    requires forall c | c in digits :: IsDigit(c)
  {
    if digits == "" then 0
    else
      var last := digits[|digits|-1];
      assert IsDigit(last);
      10 * Value(digits[..|digits|-1]) + (last as int - '0' as int)
  }

  lemma {:induction false} DigitsAreDigits(s: string)
    ensures forall c | c in s[..Digits(s)] :: IsDigit(c)
  {
    if s != "" && IsDigit(s[0]) {
      DigitsAreDigits(s[1..]);
      assert s[..Digits(s)] == [s[0]] + s[1..][..Digits(s[1..])];
    }
  }

  /** The count in a line such as "All 12 tests OK."; `Atoi` stops at the largest int. */
  function OkCount(line: string): Option<nat> {
    CountIn(AfterAll(TrimSpace(line)))
  }

  function AfterAll(t: string): string {
    if Starts(t, "All ") then t[4..] else t
  }

  function CountIn(a: string): Option<nat> {
    var n := Digits(a);
    if n > 0 && a[n..] in [" test OK.", " tests OK."] then
      DigitsAreDigits(a);
      var v := Value(a[..n]);
      Some(if v < MAX_INT then v else MAX_INT)
    else None
  }

  /** What follows "tests" in a section header, without the final colon; none for a re-run section. */
  function Title(line: string): Option<string> {
    var n := Digits(line);
    if n == 0 || !Starts(line[n..], " test") then None
    else TitleIn(AfterPlural(line[n + 5..]))
  }

  function AfterPlural(a: string): string {
    if Starts(a, "s") then a[1..] else a
  }

  /** The title in what follows "tests". */
  function TitleIn(a: string): Option<string> {
    var d := DropBlanks(a);
    if d == "" || d[|d|-1] != ':' then None else Some(d[..|d|-1])
  }

  /** The bucket whose names follow this line. */
  function Header(line: string): Option<Bucket> {
    match Title(TrimCR(line))
    case None => None
    case Some(t) => SectionOf(t)
  }

  function SectionOf(title: string): Option<Bucket> {
    if title == "failed" then Some(Failed)
    else if Starts(title, "skipped") then Some(Skipped)
    else if title == "omitted" then Some(Omitted)
    else if title == "run no tests" then Some(NoTests)
    else if Contains(title, "env changed") then Some(EnvChanged)
    else None
  }

  /** A line that continues a section. */
  predicate Indented(line: string) {
    var l := TrimCR(line);
    TrimSpace(l) != "" && Starts(l, " ")
  }

  function Names(line: string): seq<string> {
    Probe.Fields(TrimCR(line))
  }

  lemma HeaderIsNotIndented(line: string)
    ensures Header(line).Some? ==> !Indented(line)
  {
    var l := TrimCR(line);
    if Indented(line) {
      assert l[0] == " "[0];
    }
  }

  lemma {:induction false} LastSurvivesTrim(s: string)
    requires s != "" && !Probe.IsSpace(s[|s|-1])
    ensures var t := TrimSpace(s); t != "" && t[|t|-1] == s[|s|-1]
  {
    LastSurvivesTrimLeft(s);
  }

  lemma {:induction false} LastSurvivesTrimLeft(s: string)
    requires s != "" && !Probe.IsSpace(s[|s|-1])
    ensures var t := TrimLeft(s); t != "" && t[|t|-1] == s[|s|-1]
  {
    if Probe.IsSpace(s[0]) {
      assert |s| > 1;
      LastSurvivesTrimLeft(s[1..]);
    }
  }

  /** No line is both a section header and a count: one ends in a colon, the other in a full stop. */
  lemma HeaderIsNoCount(line: string)
    ensures Header(line).Some? ==> OkCount(TrimCR(line)).None?
  {
    hide Title, OkCount, TrimSpace, TrimCR;
    var l := TrimCR(line);
    if Header(line).Some? && OkCount(l).Some? {
      TitleEndsInColon(l);
      CountEndsInStop(l);
      LastSurvivesTrim(l);
      assert false;
    }
  }

  lemma TitleEndsInColon(l: string)
    requires Title(l).Some?
    ensures l != "" && l[|l|-1] == ':'
  {
  }

  lemma CountEndsInStop(line: string)
    requires OkCount(line).Some?
    ensures var t := TrimSpace(line); t != "" && t[|t|-1] == '.'
  {
    var t := TrimSpace(line);
    var a := if Starts(t, "All ") then t[4..] else t;
    var n := Digits(a);
    var one, many := " test OK.", " tests OK.";
    assert a[n..][|a[n..]|-1] == a[|a|-1] == t[|t|-1];
    assert one[|one|-1] == '.' && many[|many|-1] == '.';
  }

  // ---------------------------------------------------------------- one pass over the lines

  /** The outcome so far and the section the next line may continue. */
  datatype Scan = Scan(out: Outcome, open: Option<Bucket>)

  function AddName(names: seq<string>, name: string): seq<string> {
    if name in names then names else names + [name]
  }

  function AddNames(names: seq<string>, more: seq<string>): seq<string> {
    if more == [] then names else AddName(AddNames(names, more[..|more|-1]), more[|more|-1])
  }

  function Step(s: Scan, line: string): Scan {
    if s.open.Some? && Indented(line) then
      s.(out := WithTests(s.out, s.open.value, AddNames(Tests(s.out, s.open.value), Names(line))))
    else
      match OkCount(TrimCR(line))
      case Some(n) => Scan(s.out.(passed := n), None)
      case None => Scan(s.out, Header(line))
  }

  function ScanLines(out: Outcome, lines: seq<string>): Scan {
    if lines == [] then Scan(out, None) else Step(ScanLines(out, lines[..|lines|-1]), lines[|lines|-1])
  }

  /** The names after some lines of a section. */
  function AddLines(names: seq<string>, lines: seq<string>): seq<string> {
    if lines == [] then names else AddNames(AddLines(names, lines[..|lines|-1]), Names(lines[|lines|-1]))
  }

  lemma NothingToAdd(names: seq<string>, lines: seq<string>, i: nat)
    requires i <= |lines|
    ensures AddNames(names, []) == names && AddLines(names, lines[i..i]) == names
  {
  }

  lemma IndentedIs(line: string)
    ensures Indented(line) <==> TrimSpace(TrimCR(line)) != "" && Starts(TrimCR(line), " ")
  {
    hide TrimSpace, TrimCR, Starts;
  }

  lemma AddNamesMore(names: seq<string>, more: seq<string>, i: nat)
    requires i < |more|
    ensures AddNames(names, more[..i+1]) == AddName(AddNames(names, more[..i]), more[i])
  {
    assert more[..i+1][..i] == more[..i];
  }

  lemma AddLinesMore(names: seq<string>, lines: seq<string>, i: nat, k: nat)
    requires i <= k < |lines|
    ensures AddLines(names, lines[i..k+1]) == AddNames(AddLines(names, lines[i..k]), Names(lines[k]))
  {
    hide Names;
    assert lines[i..k+1][..k-i] == lines[i..k];
  }

  /** `parseRegrtest`: however its index jumps, it reads the lines in one pass. */
  method ParseRegrtest(stdout: string, start: Outcome) returns (out: Outcome)
    ensures out == ScanLines(start, Probe.Lines(stdout)).out
  {
    hide Indented, OkCount, Header, Names, TrimCR, WithTests, Tests, AddLines;
    out := start;
    var lines := Probe.Lines(stdout);
    var i := 0;
    while i < |lines|
      invariant 0 <= i <= |lines|
      invariant ScanLines(start, lines[..i]).out == out
      invariant ScanLines(start, lines[..i]).open.Some? && i < |lines| ==> !Indented(lines[i])
    {
      assert lines[..i+1][..i] == lines[..i];
      var count := OkCount(TrimCR(lines[i]));
      if count.Some? {
        out := out.(passed := count.value);
        i := i + 1;
        continue;
      }
      var bucket := Header(lines[i]);
      if bucket.None? {
        i := i + 1;
        continue;
      }
      var names, last := CollectNames(lines, i + 1, Tests(out, bucket.value));
      ScanSection(start, lines, i + 1, last + 1, out, bucket.value);
      out := WithTests(out, bucket.value, names);
      i := last;
      i := i + 1;
    }
    assert lines[..|lines|] == lines;
  }

  /** `collectNames`: takes the indented lines from `i` on, and returns the index of the last. */
  method CollectNames(lines: seq<string>, i: nat, bucket: seq<string>) returns (names: seq<string>, last: int)
    requires i <= |lines|
    ensures i - 1 <= last < |lines|
    ensures forall k | i <= k <= last :: Indented(lines[k])
    ensures last + 1 < |lines| ==> !Indented(lines[last+1])
    ensures names == AddLines(bucket, lines[i..last+1])
  {
    hide Indented, Names, AddLines, AddNames, TrimCR, TrimSpace, Starts;
    names := bucket;
    var k := i;
    NothingToAdd(bucket, lines, i);
    while k < |lines|
      invariant i <= k <= |lines|
      invariant forall x | i <= x < k :: Indented(lines[x])
      invariant names == AddLines(bucket, lines[i..k])
    {
      var line := TrimCR(lines[k]);
      IndentedIs(lines[k]);
      if TrimSpace(line) == "" || !Starts(line, " ") {
        return names, k - 1;
      }
      var fields := Names(lines[k]);
      ghost var before := names;
      NothingToAdd(before, lines, i);
      for f := 0 to |fields|
        invariant names == AddNames(before, fields[..f])
      {
        AddNamesMore(before, fields, f);
        if fields[f] !in names {
          names := names + [fields[f]];
        }
      }
      assert fields[..|fields|] == fields;
      AddLinesMore(bucket, lines, i, k);
      k := k + 1;
    }
    return names, k - 1;
  }

  lemma WithTestsTwice(o: Outcome, b: Bucket, x: seq<string>, y: seq<string>)
    ensures WithTests(WithTests(o, b, x), b, y) == WithTests(o, b, y)
    ensures WithTests(o, b, Tests(o, b)) == o
  {
  }

  lemma ScanMore(start: Outcome, lines: seq<string>, j: nat)
    requires 0 < j <= |lines|
    ensures ScanLines(start, lines[..j]) == Step(ScanLines(start, lines[..j-1]), lines[j-1])
  {
    hide Step;
    assert lines[..j][..j-1] == lines[..j-1];
  }

  lemma StepIndented(out: Outcome, b: Bucket, line: string)
    requires Indented(line)
    ensures Step(Scan(out, Some(b)), line) == Scan(WithTests(out, b, AddNames(Tests(out, b), Names(line))), Some(b))
  {
    hide Indented, OkCount, Header, Names, TrimCR, WithTests, Tests, AddNames;
  }

  /** Scanning the lines of an open section. */
  lemma {:induction false} ScanSection(start: Outcome, lines: seq<string>, i: nat, j: nat, out: Outcome, b: Bucket)
    requires i <= j <= |lines| && ScanLines(start, lines[..i]) == Scan(out, Some(b))
    requires forall k | i <= k < j :: Indented(lines[k])
    ensures ScanLines(start, lines[..j]) == Scan(WithTests(out, b, AddLines(Tests(out, b), lines[i..j])), Some(b))
    decreases j
  {
    hide Indented, Names, WithTests, Tests, AddNames, AddLines, ScanLines, Step;
    var names := Tests(out, b);
    if i == j {
      NothingToAdd(names, lines, i);
      WithTestsTwice(out, b, names, names);
    } else {
      ScanSection(start, lines, i, j - 1, out, b);
      ScanMore(start, lines, j);
      var before := AddLines(names, lines[i..j-1]);
      StepIndented(WithTests(out, b, before), b, lines[j-1]);
      WithTestsTwice(out, b, before, AddNames(before, Names(lines[j-1])));
      AddLinesMore(names, lines, i, j - 1);
    }
  }

  // ---------------------------------------------------------------- what the scan finds

  /** Line `h` heads section `b`, and only indented lines follow up to line `k`. */
  ghost predicate Heads(lines: seq<string>, h: nat, k: nat, b: Bucket) {
    h < k <= |lines| && Header(lines[h]) == Some(b) && forall i | h < i < k :: Indented(lines[i])
  }

  /** After `k` lines, section `b` is open. */
  ghost predicate OpenAt(lines: seq<string>, k: nat, b: Bucket) {
    exists h: nat :: Heads(lines, h, k, b)
  }

  /** Line `k` belongs to a section for `b` and names the test. */
  ghost predicate ListsAt(lines: seq<string>, k: nat, b: Bucket, name: string) {
    k < |lines| && OpenAt(lines, k, b) && Indented(lines[k]) && name in Names(lines[k])
  }

  ghost predicate Lists(lines: seq<string>, b: Bucket, name: string) {
    exists k: nat :: ListsAt(lines, k, b, name)
  }

  /** A count outside every section. */
  ghost predicate CountsAt(lines: seq<string>, k: nat) {
    && k < |lines| && OkCount(TrimCR(lines[k])).Some?
    && (Indented(lines[k]) ==> forall b :: !OpenAt(lines, k, b))
  }

  lemma HeadsPrefix(lines: seq<string>, line: string, h: nat, k: nat, b: Bucket)
    requires k <= |lines|
    ensures Heads(lines + [line], h, k, b) <==> Heads(lines, h, k, b)
  {
    hide Header, Indented;
    var more := lines + [line];
    assert forall i | 0 <= i < |lines| :: more[i] == lines[i];
  }

  lemma HeadsNext(lines: seq<string>, line: string, h: nat, b: Bucket)
    ensures Heads(lines + [line], h, |lines| + 1, b) <==>
            if h == |lines| then Header(line) == Some(b) else Indented(line) && Heads(lines, h, |lines|, b)
  {
    hide Header, Indented;
    var more := lines + [line];
    assert more[|lines|] == line && forall i | 0 <= i < |lines| :: more[i] == lines[i];
    if h < |lines| && Heads(more, h, |lines| + 1, b) {
      assert Indented(more[|lines|]);
    }
  }

  lemma OpenPrefix(lines: seq<string>, line: string, k: nat, b: Bucket)
    requires k <= |lines|
    ensures OpenAt(lines + [line], k, b) <==> OpenAt(lines, k, b)
  {
    hide Heads;
    forall h: nat ensures Heads(lines + [line], h, k, b) <==> Heads(lines, h, k, b) {
      HeadsPrefix(lines, line, h, k, b);
    }
  }

  lemma OpenNext(lines: seq<string>, line: string, b: Bucket)
    ensures OpenAt(lines + [line], |lines| + 1, b) <==>
            Header(line) == Some(b) || (Indented(line) && OpenAt(lines, |lines|, b))
  {
    hide Heads, Header, Indented;
    forall h: nat ensures Heads(lines + [line], h, |lines| + 1, b) <==>
                     if h == |lines| then Header(line) == Some(b) else Indented(line) && Heads(lines, h, |lines|, b) {
      HeadsNext(lines, line, h, b);
    }
    NotHeadItself(lines, b);
    if OpenAt(lines + [line], |lines| + 1, b) {
      var h: nat :| Heads(lines + [line], h, |lines| + 1, b);
      assert h == |lines| || Heads(lines, h, |lines|, b);
    }
  }

  lemma NotHeadItself(lines: seq<string>, b: Bucket)
    ensures !Heads(lines, |lines|, |lines|, b)
  {
  }

  lemma {:induction false} OpenExact(start: Outcome, lines: seq<string>, b: Bucket)
    ensures ScanLines(start, lines).open == Some(b) <==> OpenAt(lines, |lines|, b)
  {
    if lines != [] {
      var init, last := lines[..|lines|-1], lines[|lines|-1];
      assert lines == init + [last];
      hide OpenAt, Indented, Header, OkCount, WithTests, Tests, Names, AddNames;
      OpenExact(start, init, b);
      OpenNext(init, last, b);
      HeaderIsNotIndented(last);
      HeaderIsNoCount(last);
    }
  }

  lemma {:induction false} AddNamesElems(names: seq<string>, more: seq<string>)
    ensures forall n :: n in AddNames(names, more) <==> n in names || n in more
    ensures Distinct(names) ==> Distinct(AddNames(names, more))
  {
    if more != [] {
      AddNamesElems(names, more[..|more|-1]);
      assert more == more[..|more|-1] + [more[|more|-1]];
    }
  }

  lemma ListsPrefix(lines: seq<string>, line: string, k: nat, b: Bucket, name: string)
    ensures ListsAt(lines + [line], k, b, name) <==>
            if k == |lines| then OpenAt(lines, k, b) && Indented(line) && name in Names(line) else ListsAt(lines, k, b, name)
  {
    hide OpenAt, Indented, Names;
    if k <= |lines| {
      OpenPrefix(lines, line, k, b);
    }
  }

  lemma ListsNext(lines: seq<string>, line: string, b: Bucket, name: string)
    ensures Lists(lines + [line], b, name) <==>
            Lists(lines, b, name) || (OpenAt(lines, |lines|, b) && Indented(line) && name in Names(line))
  {
    hide OpenAt, Indented, Names, ListsAt;
    forall k: nat ensures ListsAt(lines + [line], k, b, name) <==>
                          if k == |lines| then OpenAt(lines, k, b) && Indented(line) && name in Names(line)
                          else ListsAt(lines, k, b, name) {
      ListsPrefix(lines, line, k, b, name);
    }
    NothingPastEnd(lines, b, name);
  }

  lemma NothingPastEnd(lines: seq<string>, b: Bucket, name: string)
    ensures !ListsAt(lines, |lines|, b, name)
  {
  }

  lemma NoLines(start: Outcome, b: Bucket, name: string)
    ensures ScanLines(start, []).out == start && !Lists([], b, name)
  {
  }

  lemma StepTests(s: Scan, line: string, b: Bucket)
    ensures Tests(Step(s, line).out, b) ==
            if s.open == Some(b) && Indented(line) then AddNames(Tests(s.out, b), Names(line)) else Tests(s.out, b)
  {
    hide Indented, Header, OkCount, Names, AddNames;
  }

  /** A bucket gains exactly the names listed in its sections, and never repeats one. */
  lemma {:induction false} SectionsExact(start: Outcome, lines: seq<string>, b: Bucket)
    ensures forall name :: name in Tests(ScanLines(start, lines).out, b) <==> name in Tests(start, b) || Lists(lines, b, name)
    ensures Distinct(Tests(start, b)) ==> Distinct(Tests(ScanLines(start, lines).out, b))
  {
    hide OpenAt, Lists, Indented, Names, AddNames, Step, Tests, Distinct;
    forall name ensures ScanLines(start, []).out == start && !Lists([], b, name) {
      NoLines(start, b, name);
    }
    if lines != [] {
      var init, last := lines[..|lines|-1], lines[|lines|-1];
      assert lines == init + [last];
      SectionsExact(start, init, b);
      OpenExact(start, init, b);
      StepTests(ScanLines(start, init), last, b);
      AddNamesElems(Tests(ScanLines(start, init).out, b), Names(last));
      forall name ensures Lists(lines, b, name) <==>
                          Lists(init, b, name) || (OpenAt(init, |init|, b) && Indented(last) && name in Names(last)) {
        ListsNext(init, last, b, name);
      }
    }
  }

  /** The last count outside every section, or the count there was before. */
  ghost predicate LastCount(lines: seq<string>, before: nat, passed: nat) {
    || (passed == before && forall k: nat :: !CountsAt(lines, k))
    || exists k: nat :: LastCountAt(lines, k, passed)
  }

  ghost predicate LastCountAt(lines: seq<string>, k: nat, passed: nat) {
    CountsAt(lines, k) && OkCount(TrimCR(lines[k])) == Some(passed) && forall i: nat | k < i :: !CountsAt(lines, i)
  }

  lemma CountsPrefix(lines: seq<string>, line: string, k: nat)
    requires k < |lines|
    ensures CountsAt(lines + [line], k) <==> CountsAt(lines, k)
  {
    hide OpenAt, OkCount, TrimCR, Indented;
    forall b ensures OpenAt(lines + [line], k, b) <==> OpenAt(lines, k, b) {
      OpenPrefix(lines, line, k, b);
    }
  }

  lemma CountsLast(start: Outcome, lines: seq<string>, line: string)
    ensures var s := ScanLines(start, lines);
            CountsAt(lines + [line], |lines|) <==> OkCount(TrimCR(line)).Some? && !(s.open.Some? && Indented(line))
  {
    hide OpenAt, OkCount, TrimCR, Indented;
    forall b ensures ScanLines(start, lines).open == Some(b) <==> OpenAt(lines + [line], |lines|, b) {
      OpenExact(start, lines, b);
      OpenPrefix(lines, line, |lines|, b);
    }
  }

  lemma CountsMore(lines: seq<string>, line: string, k: nat)
    requires k != |lines|
    ensures CountsAt(lines + [line], k) <==> CountsAt(lines, k)
    ensures CountsAt(lines, k) ==> (lines + [line])[k] == lines[k]
  {
    CountsWithin(lines);
    CountsWithin(lines + [line]);
    hide CountsAt;
    if k < |lines| {
      CountsPrefix(lines, line, k);
    }
  }

  lemma CountsNext(lines: seq<string>, line: string, before: nat, was: nat)
    requires LastCount(lines, before, was)
    ensures !CountsAt(lines + [line], |lines|) ==> LastCount(lines + [line], before, was)
    ensures CountsAt(lines + [line], |lines|) && OkCount(TrimCR(line)).Some? ==>
              LastCount(lines + [line], before, OkCount(TrimCR(line)).value)
  {
    var more := lines + [line];
    forall k: nat | k != |lines| ensures CountsAt(more, k) <==> CountsAt(lines, k) {
      CountsMore(lines, line, k);
    }
    CountsWithin(lines);
    hide OkCount, TrimCR;
    if CountsAt(more, |lines|) {
      CountsWithin(more);
      hide CountsAt;
      if OkCount(TrimCR(line)).Some? {
        assert LastCountAt(more, |lines|, OkCount(TrimCR(line)).value);
      }
    } else if k: nat :| LastCountAt(lines, k, was) {
      CountsMore(lines, line, k);
      hide CountsAt;
      assert LastCountAt(more, k, was);
    }
  }

  lemma CountsWithin(lines: seq<string>)
    ensures forall k: nat | CountsAt(lines, k) :: k < |lines|
  {
    hide OpenAt, OkCount, TrimCR, Indented;
  }

  lemma StepCount(s: Scan, line: string)
    ensures Step(s, line).out.passed ==
            if OkCount(TrimCR(line)).Some? && !(s.open.Some? && Indented(line)) then OkCount(TrimCR(line)).value
            else s.out.passed
  {
    hide Indented, Header, OkCount, TrimCR, Names, AddNames;
  }

  lemma {:induction false} CountExact(start: Outcome, lines: seq<string>)
    ensures LastCount(lines, start.passed, ScanLines(start, lines).out.passed)
  {
    if lines == [] {
      CountsWithin(lines);
    } else {
      hide LastCount, CountsAt, Step, OkCount, TrimCR, Indented;
      var init, last := lines[..|lines|-1], lines[|lines|-1];
      assert lines == init + [last];
      CountExact(start, init);
      StepCount(ScanLines(start, init), last);
      CountsLast(start, init, last);
      CountsNext(init, last, start.passed, ScanLines(start, init).out.passed);
    }
  }

  /** An outcome read from a run's output never repeats a test within a bucket. */
  lemma ParsedIsTidy(start: Outcome, lines: seq<string>)
    requires forall b :: Tests(start, b) == []
    ensures Tidy(ScanLines(start, lines).out)
  {
    SectionsExact(start, lines, Failed);
    SectionsExact(start, lines, EnvChanged);
  }
}
