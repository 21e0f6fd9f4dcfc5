/** What the lines of the test suite's summary look like, and what a whole summary says about a test. */
module SummaryLines {
  import opened Common
  import opened Regrtest
  import Verdicts
  import Probe

  // ---------------------------------------------------------------- section headers

  ghost predicate AllDigits(s: string) {
    s != "" && forall i | 0 <= i < |s| :: '0' <= s[i] <= '9'
  }

  /** What a regular expression's `\s*` matches. */
  ghost predicate Blank(s: string) {
    forall i | 0 <= i < |s| :: BlankChar(s[i])
  }

  predicate BlankChar(c: char) {
    c in {'\t', '\n', '\U{c}', '\r', ' '}
  }

  /** The line is a count of tests, the title, and a colon. */
  ghost predicate Heading(line: string, digits: string, s: string, gap: string, title: string) {
    && AllDigits(digits) && Blank(gap) && (title != "" ==> !BlankChar(title[0]))
    && (s == "s" || (s == "" && (gap == "" && title != "" ==> title[0] != 's')))
    && line == digits + " test" + s + gap + title + ":"
  }

  /** Which section a title opens. */
  ghost predicate Opens(title: string, b: Bucket) {
    match b
    case Failed => title == "failed"
    case Skipped => "skipped" <= title
    case Omitted => title == "omitted"
    case NoTests => title == "run no tests"
    case EnvChanged => !("skipped" <= title) && exists x, y :: title == x + "env changed" + y
  }

  lemma {:induction false} DigitsEnd(digits: string, rest: string)
    requires (forall i | 0 <= i < |digits| :: '0' <= digits[i] <= '9') && (rest == "" || !IsDigit(rest[0]))
    ensures Digits(digits + rest) == |digits|
  {
    if digits == "" {
      assert digits + rest == rest;
    } else {
      DigitsEnd(digits[1..], rest);
      assert (digits + rest)[1..] == digits[1..] + rest;
    }
  }

  lemma DropsBlank(s: string)
    requires s != ""
    ensures DropBlanks(s) == if BlankChar(s[0]) then DropBlanks(s[1..]) else s
  {
  }

  lemma {:induction false} BlanksEnd(gap: string, rest: string)
    requires Blank(gap) && (rest == "" || !BlankChar(rest[0]))
    ensures DropBlanks(gap + rest) == rest
  {
    hide DropBlanks, BlankChar;
    if gap == "" {
      assert gap + rest == rest;
      if rest != "" {
        DropsBlank(rest);
      } else {
        NoBlanks();
      }
    } else {
      assert BlankChar(gap[0]) && Blank(gap[1..]);
      BlanksEnd(gap[1..], rest);
      assert (gap + rest)[1..] == gap[1..] + rest;
      DropsBlank(gap + rest);
    }
  }

  lemma NoBlanks()
    ensures DropBlanks("") == ""
  {
  }

  lemma {:induction false} BlanksDropped(s: string)
    ensures var r := DropBlanks(s); |r| <= |s| && Blank(s[..|s|-|r|]) && (r != "" ==> !BlankChar(r[0]))
  {
    hide DropBlanks, BlankChar;
    if s != "" {
      DropsBlank(s);
      if BlankChar(s[0]) {
        BlanksDropped(s[1..]);
        var k := |s[1..]| - |DropBlanks(s[1..])|;
        assert s[..k+1] == [s[0]] + s[1..][..k];
      }
    }
  }

  lemma CutTwice(x: string, p: string, a: string)
    ensures var s := x + (p + a); s[|x|..] == p + a && s[|x| + |p|..] == a && p <= s[|x|..]
  {
  }

  lemma Prefixed(s: string, n: nat, p: string)
    requires n <= |s| && p <= s[n..]
    ensures n + |p| <= |s| && s == s[..n] + (p + s[n + |p|..])
  {
    assert p == s[n..][..|p|];
  }

  lemma TitleOfRest(digits: string, rest: string)
    requires AllDigits(digits)
    ensures Title(digits + (" test" + rest)) == TitleIn(AfterPlural(rest))
  {
    DigitsThenTests(digits, rest);
    CutTwice(digits, " test", rest);
    hide Digits, TitleIn, AfterPlural;
  }

  lemma TailRead(s: string, gap: string, title: string)
    requires Blank(gap) && (title != "" ==> !BlankChar(title[0]))
    requires s == "s" || (s == "" && (gap == "" && title != "" ==> title[0] != 's'))
    ensures TitleIn(AfterPlural(s + (gap + (title + ":")))) == Some(title)
  {
    var end := title + ":";
    assert end[0] == if title == "" then ':' else title[0];
    NoS(gap, end);
    TitleInRead(gap, title);
    hide BlankChar, Blank, TitleIn, AfterPlural;
    AfterS(s, gap + end);
  }

  lemma HeadingRead(line: string, digits: string, s: string, gap: string, title: string)
    requires Heading(line, digits, s, gap, title)
    ensures Title(line) == Some(title)
  {
    Regrouped(digits, " test", s, gap, title, ":");
    TailRead(s, gap, title);
    hide AllDigits, BlankChar, Blank, Title, TitleIn, AfterPlural;
    TitleOfRest(digits, s + (gap + (title + ":")));
  }

  lemma DigitsThenTests(digits: string, a: string)
    requires AllDigits(digits)
    ensures Digits(digits + (" test" + a)) == |digits|
  {
    hide Digits;
    assert (" test" + a)[0] == ' ';
    DigitsEnd(digits, " test" + a);
  }

  lemma TitleInRead(gap: string, title: string)
    requires Blank(gap) && (title != "" ==> !BlankChar(title[0]))
    ensures TitleIn(gap + (title + ":")) == Some(title)
  {
    var end := title + ":";
    assert end[0] == if title == "" then ':' else title[0];
    hide DropBlanks, Blank;
    BlanksEnd(gap, end);
    assert end[..|title|] == title && end[|title|] == ':';
  }

  /** Blanks and a title do not begin with an s unless the title does. */
  lemma NoS(gap: string, end: string)
    requires Blank(gap)
    ensures gap + end != "" && (gap + end)[0] == 's' ==> gap == "" && end[0] == 's'
  {
    if gap != "" {
      assert (gap + end)[0] == gap[0] && BlankChar(gap[0]);
    } else {
      assert gap + end == end;
    }
  }

  lemma AfterS(s: string, rest: string)
    requires s == "s" || (s == "" && (rest == "" || rest[0] != 's'))
    ensures AfterPlural(s + rest) == rest
  {
    var a := s + rest;
    if s == "" {
      assert a == rest;
    } else {
      assert a[0] == 's' && a[1..] == rest && a[..1] == "s";
    }
  }

  lemma {:induction false} DigitsTaken(s: string)
    ensures forall i | 0 <= i < Digits(s) :: '0' <= s[i] <= '9'
  {
    if s != "" && IsDigit(s[0]) {
      DigitsTaken(s[1..]);
    }
  }

  lemma Divide(a: string, n: nat)
    requires n <= |a|
    ensures a == a[..n] + a[n..]
  {
  }

  lemma WithoutLast(d: string)
    ensures d != "" && d[|d|-1] == ':' ==> d == d[..|d|-1] + ":"
    ensures |d| > 1 ==> d[..|d|-1][0] == d[0]
  {
  }

  lemma TitleInTaken(a: string) returns (gap: string)
    requires TitleIn(a).Some?
    ensures var title := TitleIn(a).value;
            a == gap + (title + ":") && Blank(gap) && (title != "" ==> !BlankChar(title[0]))
  {
    BlanksDropped(a);
    var d := DropBlanks(a);
    gap := a[..|a|-|d|];
    Divide(a, |a| - |d|);
    WithoutLast(d);
    hide DropBlanks, Blank, BlankChar;
  }

  lemma WithoutS(a: string) returns (s: string)
    ensures a == s + AfterPlural(a) && (s == "s" || (s == "" && (a == "" || a[0] != 's')))
  {
    s := if Starts(a, "s") then "s" else "";
    assert a != "" && a[0] == 's' ==> "s" == a[..1];
  }

  lemma TitleTaken(line: string) returns (digits: string, s: string, gap: string)
    requires Title(line).Some?
    ensures Heading(line, digits, s, gap, Title(line).value)
  {
    hide DropBlanks, BlankChar, Blank, TitleIn, Digits, AfterPlural;
    var n := Digits(line);
    DigitsTaken(line);
    Prefixed(line, n, " test");
    digits := line[..n];
    var a := line[n + 5..];
    s := WithoutS(a);
    gap := TitleInTaken(AfterPlural(a));
    var title := Title(line).value;
    Regrouped(digits, " test", s, gap, title, ":");
    assert s == "" && gap == "" && title != "" ==> a[0] == title[0];
  }

  lemma Regrouped(a: string, b: string, c: string, d: string, e: string, f: string)
    ensures a + (b + (c + (d + (e + f)))) == a + b + c + d + e + f
  {
  }

  lemma TitleOpens(title: string, b: Bucket)
    ensures Opens(title, b) <==>
            match b
            case Failed => title == "failed"
            case Skipped => "skipped" <= title
            case Omitted => title == "omitted"
            case NoTests => title == "run no tests"
            case EnvChanged => !("skipped" <= title) && Contains(title, "env changed")
  {
    if b == EnvChanged {
      if Contains(title, "env changed") {
        var i :| 0 <= i <= |title| && "env changed" <= title[i..];
        assert title == title[..i] + "env changed" + title[i + |"env changed"|..];
      }
      if x, y :| title == x + "env changed" + y {
        assert title[|x|..] == "env changed" + y;
      }
    }
  }

  /** The line is headed by a count and a title that opens the section. */
  ghost predicate OpensSection(line: string, b: Bucket) {
    exists digits, s, gap, title :: Heading(line, digits, s, gap, title) && Opens(title, b)
  }

  lemma OpensByTitle(l: string, b: Bucket)
    ensures OpensSection(l, b) <==> Title(l).Some? && Opens(Title(l).value, b)
  {
    hide Opens;
    forall digits, s, gap, title | Heading(l, digits, s, gap, title) ensures Title(l) == Some(title) {
      HeadingRead(l, digits, s, gap, title);
    }
    if Title(l).Some? {
      var digits, s, gap := TitleTaken(l);
      hide Heading, Title;
    }
  }

  /** A line opens a section exactly when it is a count of tests, a title that names the section,
      and a colon; a re-run section is none. */
  lemma HeaderExactly(line: string, b: Bucket)
    ensures Header(line) == Some(b) <==> OpensSection(TrimCR(line), b)
  {
    hide OpensSection, Opens, Title, SectionOf, TrimCR;
    OpensByTitle(TrimCR(line), b);
    if Title(TrimCR(line)).Some? {
      SectionOpens(Title(TrimCR(line)).value, b);
    }
  }

  lemma SectionOpens(t: string, b: Bucket)
    ensures SectionOf(t) == Some(b) <==> Opens(t, b)
  {
    TitleOpens(t, b);
    if t == "failed" || t == "omitted" || t == "run no tests" {
      NoOtherSection(t);
    }
    hide Contains, Opens;
    assert |"failed"| == 6 && |"omitted"| == 7 && |"run no tests"| == 12;
  }

  lemma NotWithin(t: string)
    requires t == "failed" || t == "omitted" || t == "run no tests"
    ensures !Contains(t, "env changed")
  {
    var part := "env changed";
    forall i | 0 <= i <= |t| ensures !(part <= t[i..]) {
      if i + |part| <= |t| {
        assert t[i..][0] == t[i] && t[i] != part[0];
      }
    }
  }

  /** The whole titles do not contain what the other sections look for. */
  lemma NoOtherSection(t: string)
    requires t == "failed" || t == "omitted" || t == "run no tests"
    ensures !("skipped" <= t) && !Contains(t, "env changed")
  {
    assert t[0] != 's' && "skipped"[0] == 's';
    assert !Contains(t, "env changed") by { NotWithin(t); }
  }

  // ---------------------------------------------------------------- counts

  /** A number in decimal. */
  function Decimal(n: nat): (r: string)
    ensures AllDigits(r)
  {
    var last := ['0' + (n % 10) as char];
    if n < 10 then last else Decimal(n / 10) + last
  }

  lemma {:induction false} DecimalValue(n: nat)
    ensures (forall c | c in Decimal(n) :: IsDigit(c)) && Value(Decimal(n)) == n
  {
    var last := ['0' + (n % 10) as char];
    var d := Decimal(n);
    assert forall c | c in d :: IsDigit(c);
    if n < 10 {
      assert d[..0] == "" && Value("") == 0;
    } else {
      DecimalValue(n / 10);
      assert d[..|d|-1] == Decimal(n / 10);
    }
  }

  lemma {:induction false} TrimsLeft(pad: string, t: string)
    requires Probe.AllSpace(pad) && t != "" && !Probe.IsSpace(t[0])
    ensures TrimLeft(pad + t) == t
  {
    hide Probe.IsSpace;
    if pad == "" {
      assert pad + t == t;
    } else {
      TrimsLeft(pad[1..], t);
      assert (pad + t)[1..] == pad[1..] + t && Probe.IsSpace(pad[0]);
    }
  }

  lemma {:induction false} TrimsRight(t: string, pad: string)
    requires Probe.AllSpace(pad) && t != "" && !Probe.IsSpace(t[|t|-1])
    ensures TrimRight(t + pad) == t
  {
    hide Probe.IsSpace;
    if pad == "" {
      assert t + pad == t;
    } else {
      var n := |pad| - 1;
      TrimsRight(t, pad[..n]);
      assert (t + pad)[..|t| + n] == t + pad[..n] && Probe.IsSpace(pad[n]);
    }
  }

  lemma Trims(left: string, t: string, right: string)
    requires Probe.AllSpace(left) && Probe.AllSpace(right) && t != "" && !Probe.IsSpace(t[0]) && !Probe.IsSpace(t[|t|-1])
    ensures TrimSpace(left + t + right) == t
  {
    hide Probe.IsSpace, TrimLeft, TrimRight;
    assert left + t + right == left + (t + right);
    TrimsLeft(left, t + right);
    TrimsRight(t, right);
  }

  /** A count of tests that are fine, with anything blank around it. */
  ghost predicate CountLine(line: string, all: string, digits: string, s: string, left: string, right: string) {
    && all in {"", "All "} && s in {"", "s"} && AllDigits(digits) && Probe.AllSpace(left) && Probe.AllSpace(right)
    && line == left + (all + (digits + (" test" + s + " OK."))) + right
  }

  lemma CountEnd(s: string)
    requires s in {"", "s"}
    ensures var e := " test" + s + " OK."; e in [" test OK.", " tests OK."] && e[0] == ' ' && e[|e|-1] == '.'
  {
    assert " test" + "" + " OK." == " test OK." && " test" + "s" + " OK." == " tests OK.";
  }

  lemma CountTail(digits: string, e: string)
    requires AllDigits(digits) && e in [" test OK.", " tests OK."] && forall c | c in digits :: IsDigit(c)
    ensures CountIn(digits + e) == Some(if Value(digits) < MAX_INT then Value(digits) else MAX_INT)
    ensures !Starts(digits + e, "All ")
  {
    var a := digits + e;
    assert e[0] == ' ';
    DigitsEnd(digits, e);
    assert a[..|digits|] == digits && a[|digits|..] == e;
    assert a[0] == digits[0] && "All "[0] == 'A';
    hide Digits, Value;
  }

  lemma CountRead(line: string, all: string, digits: string, s: string, left: string, right: string)
    requires CountLine(line, all, digits, s, left, right)
    ensures forall c | c in digits :: IsDigit(c)
    ensures OkCount(line) == Some(if Value(digits) < MAX_INT then Value(digits) else MAX_INT)
  {
    assert forall c | c in digits :: IsDigit(c);
    var e := " test" + s + " OK.";
    CountEnd(s);
    CountTail(digits, e);
    var a := digits + e;
    var t := all + a;
    BothEnds(all, digits, e);
    hide AllDigits, Probe.AllSpace, Probe.IsSpace, TrimSpace, CountIn, Value, Digits;
    Trims(left, t, right);
    AfterAllOf(all, a);
  }

  lemma {:induction false} TrimmedLeft(s: string) returns (left: string)
    ensures Probe.AllSpace(left) && s == left + TrimLeft(s)
  {
    hide Probe.IsSpace;
    left := "";
    if s != "" && Probe.IsSpace(s[0]) {
      left := TrimmedLeft(s[1..]);
      assert s == [s[0]] + s[1..];
      left := [s[0]] + left;
    }
  }

  lemma {:induction false} TrimmedRight(s: string) returns (right: string)
    ensures Probe.AllSpace(right) && s == TrimRight(s) + right
  {
    hide Probe.IsSpace;
    right := "";
    if s != "" && Probe.IsSpace(s[|s|-1]) {
      right := TrimmedRight(s[..|s|-1]);
      assert s == s[..|s|-1] + [s[|s|-1]];
      right := right + [s[|s|-1]];
    }
  }

  lemma CountInTaken(a: string) returns (digits: string, s: string)
    requires CountIn(a).Some?
    ensures AllDigits(digits) && s in {"", "s"} && a == digits + (" test" + s + " OK.")
  {
    var n := Digits(a);
    DigitsTaken(a);
    digits := a[..n];
    s := if a[n..] == " test OK." then "" else "s";
    CountEnd(s);
    Divide(a, n);
    assert " test" + "" + " OK." == " test OK." && " test" + "s" + " OK." == " tests OK.";
    hide Digits, Value;
  }

  lemma AllTaken(t: string) returns (all: string)
    ensures all in {"", "All "} && t == all + AfterAll(t)
  {
    all := if Starts(t, "All ") then "All " else "";
    if Starts(t, "All ") {
      assert "All " == t[..4];
    }
  }

  /** Exactly the lines "<n> test(s) OK.", with "All" before them or not and blanks around them, are
      counts. */
  lemma CountLinesExactly(line: string)
    ensures OkCount(line).Some? <==>
            exists all, digits, s, left, right :: CountLine(line, all, digits, s, left, right)
  {
    if all, digits, s, left, right :| CountLine(line, all, digits, s, left, right) {
      CountRead(line, all, digits, s, left, right);
    }
    if OkCount(line).Some? {
      hide TrimLeft, TrimRight, CountIn, AfterAll, Probe.AllSpace, AllDigits;
      var left := TrimmedLeft(line);
      var right := TrimmedRight(TrimLeft(line));
      var all := AllTaken(TrimSpace(line));
      var digits, s := CountInTaken(AfterAll(TrimSpace(line)));
      Regroup(left, TrimSpace(line), right);
      assert CountLine(line, all, digits, s, left, right);
    }
  }

  /** Every count in decimal is read as that number, up to the largest int. */
  lemma CountReadsBack(line: string, all: string, n: nat, s: string, left: string, right: string)
    requires CountLine(line, all, Decimal(n), s, left, right)
    ensures OkCount(line) == Some(if n < 9223372036854775807 then n else 9223372036854775807)
  {
    DecimalValue(n);
    hide CountLine, OkCount, Decimal, Value;
    CountRead(line, all, Decimal(n), s, left, right);
  }

  lemma BothEnds(all: string, digits: string, e: string)
    requires all in {"", "All "} && AllDigits(digits) && e in [" test OK.", " tests OK."]
    ensures var t := all + (digits + e); t != "" && !Probe.IsSpace(t[0]) && !Probe.IsSpace(t[|t|-1])
  {
    var t := all + (digits + e);
    assert e[|e|-1] == '.' && t[|t|-1] == e[|e|-1];
    assert "All "[0] == 'A';
    assert t[0] == if all == "" then digits[0] else 'A';
  }

  lemma AfterAllOf(all: string, a: string)
    requires all in {"", "All "} && !Starts(a, "All ")
    ensures AfterAll(all + a) == a
  {
    if all == "" {
      assert all + a == a;
    } else {
      assert (all + a)[4..] == a;
    }
  }

  // ---------------------------------------------------------------- lines of names

  lemma {:induction false} TrimmedAway(s: string)
    ensures TrimLeft(s) == "" <==> Probe.AllSpace(s)
    ensures TrimRight(s) == "" <==> Probe.AllSpace(s)
  {
    hide Probe.IsSpace;
    if s != "" {
      TrimmedAway(s[1..]);
      TrimmedAway(s[..|s|-1]);
    }
  }

  lemma {:induction false} LeftTrimmed(s: string)
    ensures TrimLeft(s) != "" ==> !Probe.IsSpace(TrimLeft(s)[0])
  {
    hide Probe.IsSpace;
    if s != "" {
      LeftTrimmed(s[1..]);
    }
  }

  /** A line belongs to the open section exactly when it starts with a space and is not blank. */
  lemma IndentedExactly(line: string)
    ensures Indented(line) <==> line != "" && line[0] == ' ' && !Probe.AllSpace(line)
  {
    var l := TrimCR(line);
    TrimCRExact(line);
    hide Probe.AllSpace, TrimLeft, TrimRight, TrimCR, Probe.IsSpace;
    assert Starts(l, " ") <==> l != "" && l[0] == ' ' by { StartsWithSpace(l); }
    assert l == line[..|l|];
    TrimmedAway(l);
    TrimmedAway(TrimLeft(l));
    LeftTrimmed(l);
    BlankStart(TrimLeft(l));
    BlankTail(line, |l|);
    BlankStart("");
  }

  lemma StartsWithSpace(l: string)
    ensures Starts(l, " ") <==> l != "" && l[0] == ' '
  {
    if l != "" && l[0] == ' ' {
      assert l[..1] == " ";
    }
  }

  lemma BlankStart(s: string)
    requires s != "" ==> !Probe.IsSpace(s[0])
    ensures Probe.AllSpace(s) <==> s == ""
  {
    hide Probe.IsSpace;
  }

  /** Carriage returns at the end are space like any other. */
  lemma BlankTail(line: string, n: nat)
    requires n <= |line| && forall i | n <= i < |line| :: line[i] == '\r'
    ensures Probe.AllSpace(line[..n]) <==> Probe.AllSpace(line)
    ensures line != "" && line[0] == ' ' ==> n > 0
  {
    assert Probe.IsSpace('\r');
    hide Probe.IsSpace;
    assert forall i | 0 <= i < n :: line[..n][i] == line[i];
  }

  lemma ReturnsAreSpace(s: string)
    requires forall i | 0 <= i < |s| :: s[i] == '\r'
    ensures Probe.AllSpace(s)
  {
  }

  /** The names on a line are its words, whatever white space is around them. */
  lemma NamesRead(words: seq<string>, gaps: seq<string>)
    requires Probe.Apart(words, gaps)
    ensures Names(Spread(words, gaps)) == words
  {
    var line := Spread(words, gaps);
    var l := TrimCR(line);
    TrimCRExact(line);
    Probe.FieldsOfSpread(words, gaps);
    hide Probe.Fields, Spread, Probe.Apart, TrimCR;
    assert l == line[..|l|];
    Divide(line, |l|);
    assert Probe.AllSpace(line[|l|..]) by { ReturnsAreSpace(line[|l|..]); }
    hide Probe.AllSpace;
    Probe.SpacesScan(l, line[|l|..]);
  }

  // ---------------------------------------------------------------- what a summary says about a test

  lemma {:induction false} ScanKeepsRequest(start: Verdicts.Outcome, lines: seq<string>)
    ensures ScanLines(start, lines).out.requested == start.requested
  {
    if lines != [] {
      ScanKeepsRequest(start, lines[..|lines|-1]);
      hide Indented, OkCount, Header, Names, AddNames, Tests, WithTests;
      KeepsRequest(ScanLines(start, lines[..|lines|-1]), lines[|lines|-1]);
    }
  }

  lemma KeepsRequest(s: Scan, line: string)
    ensures Step(s, line).out.requested == s.out.requested
  {
    hide Indented, OkCount, Header, Names, AddNames, Tests;
  }

  lemma StatusByBucket(o: Verdicts.Outcome, test: string)
    ensures var status := Verdicts.StatusOf(o, test);
            var failed := test in Tests(o, Failed) || test in Tests(o, EnvChanged);
            var skipped := test in Tests(o, Skipped) || test in Tests(o, Omitted) || test in Tests(o, NoTests);
            && (status.TestFailed? <==> failed)
            && (status.TestSkipped? <==> skipped && !failed)
            && (status.TestPassed? <==> !failed && !skipped && (o.requested.None? || test in o.requested.value))
  {
  }

  lemma SectionRead(start: Verdicts.Outcome, lines: seq<string>, b: Bucket, test: string)
    requires start == Verdicts.Outcome([], [], [], [], [], 0, start.requested, start.timedOut)
    ensures test in Tests(ScanLines(start, lines).out, b) <==> Lists(lines, b, test)
  {
    assert Tests(start, b) == [];
    hide ScanLines, Lists, Tests;
    SectionsExact(start, lines, b);
  }

  /** What a run's output says about a test, read from nothing: it failed when a section of failed
      tests or of tests that changed the environment lists it, was skipped when only another section
      does, and passed when no section lists it and it was to be run, as in a full run every test is. */
  lemma StatusRead(requested: Option<seq<string>>, timedOut: bool, lines: seq<string>, test: string)
    ensures var start := Verdicts.Outcome([], [], [], [], [], 0, requested, timedOut);
            var status := Verdicts.StatusOf(ScanLines(start, lines).out, test);
            var failed := Lists(lines, Failed, test) || Lists(lines, EnvChanged, test);
            var skipped := Lists(lines, Skipped, test) || Lists(lines, Omitted, test) || Lists(lines, NoTests, test);
            && (status.TestFailed? <==> failed)
            && (status.TestSkipped? <==> skipped && !failed)
            && (status.TestPassed? <==> !failed && !skipped && (requested.None? || test in requested.value))
  {
    var start := Verdicts.Outcome([], [], [], [], [], 0, requested, timedOut);
    ScanKeepsRequest(start, lines);
    hide ScanLines, Lists, Tests, Verdicts.StatusOf;
    SectionRead(start, lines, Failed, test);
    SectionRead(start, lines, EnvChanged, test);
    SectionRead(start, lines, Skipped, test);
    SectionRead(start, lines, Omitted, test);
    SectionRead(start, lines, NoTests, test);
    StatusByBucket(ScanLines(start, lines).out, test);
  }
}
