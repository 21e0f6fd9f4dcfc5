/** The ABI probe's answers: parsing them, merging them with the hand-written fragment, printing
    the merged header and reading it back. */
module Probe {
  import opened Common

  datatype Define = Define(value: string, undef: bool)

  /** What `parseDefines` returns: the last definition of each macro, and first-seen order. */
  datatype Parsed = Parsed(defs: map<string, Define>, order: seq<string>)

  // ---------------------------------------------------------------- splitting text

  /** `unicode.IsSpace`. */
  predicate IsSpace(c: char) {
    var n := c as int;
    (0x09 <= n <= 0x0d) || n == 0x20 || n == 0x85 || n == 0xa0 || n == 0x1680 || (0x2000 <= n <= 0x200a)
    || n == 0x2028 || n == 0x2029 || n == 0x202f || n == 0x205f || n == 0x3000
  }

  /** `strings.Split(text, "\n")`. */
  function Lines(text: string): (r: seq<string>)
    ensures r != []
  {
    Split(text, '\n')
  }

  /** Fields so far and the field being read. */
  datatype Fielder = Fielder(done: seq<string>, cur: string)

  function ScanFields(s: string): Fielder {
    if s == "" then Fielder([], "")
    else
      var f := ScanFields(s[..|s|-1]);
      var c := s[|s|-1];
      if IsSpace(c) then (if f.cur == "" then f else Fielder(f.done + [f.cur], ""))
      else f.(cur := f.cur + [c])
  }

  /** `strings.Fields`. */
  function Fields(s: string): seq<string> {
    var f := ScanFields(s);
    if f.cur == "" then f.done else f.done + [f.cur]
  }

  /** A word: not empty and without spaces. */
  predicate IsWord(w: string) {
    w != "" && forall i | 0 <= i < |w| :: !IsSpace(w[i])
  }

  lemma LinesConcat(a: string, b: string)
    ensures Lines(a + "\n" + b) == Lines(a) + Lines(b)
  {
    SplitConcat(a, b, '\n');
    assert a + "\n" + b == a + ['\n'] + b;
  }

  lemma OneLine(s: string)
    requires '\n' !in s
    ensures Lines(s) == [s]
  {
    OnePiece(s, '\n');
  }

  lemma {:induction false} FieldsAreWords(s: string)
    ensures forall w | w in Fields(s) :: IsWord(w)
    ensures forall w | w in ScanFields(s).done :: IsWord(w)
    ensures ScanFields(s).cur == "" || IsWord(ScanFields(s).cur)
  {
    if s != "" {
      FieldsAreWords(s[..|s|-1]);
    }
  }

  lemma {:induction false} FieldsAcross(a: string, c: char, b: string)
    requires IsSpace(c)
    ensures Fields(a + [c] + b) == Fields(a) + Fields(b)
    ensures ScanFields(a + [c] + b).cur == ScanFields(b).cur
    ensures ScanFields(a + [c] + b).done == Fields(a) + ScanFields(b).done
  {
    var s := a + [c] + b;
    if b == "" {
      assert s[..|s|-1] == a;
    } else {
      FieldsAcross(a, c, b[..|b|-1]);
      assert s[..|s|-1] == a + [c] + b[..|b|-1];
      var f := ScanFields(b[..|b|-1]);
      Regroup(Fields(a), f.done, [f.cur]);
    }
    var g := ScanFields(b);
    Regroup(Fields(a), g.done, [g.cur]);
  }

  lemma {:induction false} WordIsField(w: string)
    requires forall i | 0 <= i < |w| :: !IsSpace(w[i])
    ensures ScanFields(w) == Fielder([], w)
    ensures w != "" ==> Fields(w) == [w]
  {
    if w != "" {
      WordIsField(w[..|w|-1]);
    }
  }

  lemma NoFields()
    ensures Fields("") == []
  {
  }

  /** Only white space. */
  predicate AllSpace(s: string) {
    forall i | 0 <= i < |s| :: IsSpace(s[i])
  }

  lemma ScanMore(s: string, c: char)
    ensures var f, g := ScanFields(s), ScanFields(s + [c]);
            g == if !IsSpace(c) then f.(cur := f.cur + [c]) else if f.cur == "" then f else Fielder(f.done + [f.cur], "")
  {
    hide IsSpace;
    assert (s + [c])[..|s|] == s;
  }

  lemma {:induction false} SpacesScan(a: string, gap: string)
    requires AllSpace(gap)
    ensures Fields(a + gap) == Fields(a)
    ensures gap != "" ==> ScanFields(a + gap) == Fielder(Fields(a), "")
  {
    hide IsSpace, ScanFields;
    if gap == "" {
      assert a + gap == a;
    } else {
      var init, c := gap[..|gap|-1], gap[|gap|-1];
      SpacesScan(a, init);
      ScanMore(a + init, c);
      PeelLast(a, gap);
    }
  }

  lemma Rejoined(init: string, c: char, w: string)
    requires w != "" && init == w[..|w|-1] && c == w[|w|-1]
    ensures init + [c] == w
  {
  }

  lemma {:induction false} WordScans(a: string, w: string)
    requires ScanFields(a).cur == "" && forall i | 0 <= i < |w| :: !IsSpace(w[i])
    ensures ScanFields(a + w) == Fielder(ScanFields(a).done, w)
  {
    hide IsSpace, ScanFields;
    if w == "" {
      assert a + w == a;
    } else {
      var init, c := w[..|w|-1], w[|w|-1];
      WordScans(a, init);
      ScanMore(a + init, c);
      PeelLast(a, w);
      Rejoined(init, c, w);
    }
  }

  /** Words stand apart from each other, and only white space is between them. */
  ghost predicate Apart(words: seq<string>, gaps: seq<string>) {
    && |gaps| == |words| + 1 && (forall w | w in words :: IsWord(w)) && (forall g | g in gaps :: AllSpace(g))
    && forall i | 0 < i < |words| :: gaps[i] != ""
  }

  /** `strings.Fields` gives the words of a text, in order, however much white space is around them. */
  lemma {:induction false} FieldsOfSpread(words: seq<string>, gaps: seq<string>)
    requires Apart(words, gaps)
    ensures Fields(Spread(words, gaps)) == words
    ensures gaps[|words|] != "" || words == [] ==> ScanFields(Spread(words, gaps)).cur == ""
  {
    var n := |words|;
    assert AllSpace(gaps[n]);
    if words == [] {
      SpacesScan("", gaps[0]);
      assert "" + gaps[0] == gaps[0];
      NoFields();
    } else {
      var init, word := words[..n-1], words[n-1];
      assert IsWord(word) && words == init + [word];
      FieldsOfSpread(init, gaps[..n]);
      var before := Spread(init, gaps[..n]);
      assert gaps[..n][n-1] == gaps[n-1];
      WordScans(before, word);
      SpacesScan(before + word, gaps[n]);
    }
  }

  lemma {:induction false} FieldsOfJoin(fs: seq<string>)
    requires forall w | w in fs :: IsWord(w)
    ensures Fields(Join(fs, " ")) == fs
  {
    NoFields();
    hide Fields, ScanFields;
    if fs != [] {
      var init, last := fs[..|fs|-1], fs[|fs|-1];
      assert last in fs && fs == init + [last];
      FieldsOfJoin(init);
      JoinLast(init, last, " ");
      hide Join;
      FieldsAcross(Join(init, " "), ' ', last);
      WordIsField(last);
    }
  }

  lemma {:induction false} WordsStayOnLine(fs: seq<string>)
    requires forall w | w in fs :: IsWord(w)
    ensures '\n' !in Join(fs, " ")
  {
    if fs != [] {
      assert fs[|fs|-1] in fs;
      WordsStayOnLine(fs[..|fs|-1]);
    }
  }

  /** A line that begins with a non-space begins its first field with it. */
  lemma {:induction false} FirstFieldStarts(s: string)
    requires s != "" && !IsSpace(s[0])
    ensures Fields(s) != [] && Fields(s)[0] != "" && Fields(s)[0][0] == s[0]
    ensures var f := ScanFields(s); if f.done == [] then f.cur != "" && f.cur[0] == s[0] else f.done[0] != "" && f.done[0][0] == s[0]
  {
    if |s| == 1 {
      WordIsField(s);
    } else {
      FirstFieldStarts(s[..|s|-1]);
    }
  }

  // ---------------------------------------------------------------- parsing

  const DEFINE := "#define"
  const UNDEF := "#undef"

  /** What one line defines. */
  function ParseLine(line: string): Option<(string, Define)> {
    var fields := Fields(line);
    if |fields| < 2 then None
    else if fields[0] == DEFINE then Some((fields[1], Define(Join(fields[2..], " "), false)))
    else if fields[0] == UNDEF then Some((fields[1], Define("", true)))
    else None
  }

  /** What a line of words with any white space around them defines: its first word says whether,
      its second names the macro, and the others, a space between each two, are the value. */
  lemma LineRead(words: seq<string>, gaps: seq<string>)
    requires Apart(words, gaps)
    ensures ParseLine(Spread(words, gaps)) ==
            if |words| > 1 && words[0] == "#define" then Some((words[1], Define(Join(words[2..], " "), false)))
            else if |words| > 1 && words[0] == "#undef" then Some((words[1], Define("", true)))
            else None
  {
    FieldsOfSpread(words, gaps);
    hide Fields, Spread, Join, Apart;
  }

  function Absorb(p: Parsed, line: string): Parsed {
    match ParseLine(line)
    case None => p
    case Some((name, d)) => Parsed(p.defs[name := d], if name in p.defs then p.order else p.order + [name])
  }

  function AbsorbAll(p: Parsed, lines: seq<string>): Parsed {
    if lines == [] then p else Absorb(AbsorbAll(p, lines[..|lines|-1]), lines[|lines|-1])
  }

  function Parse(text: string): Parsed {
    AbsorbAll(Parsed(map[], []), Lines(text))
  }

  /** `parseDefines`. */
  method ParseDefines(text: string) returns (out: map<string, Define>, order: seq<string>)
    ensures Parsed(out, order) == Parse(text)
  {
    out, order := map[], [];
    var lines := Lines(text);
    for i := 0 to |lines|
      invariant Parsed(out, order) == AbsorbAll(Parsed(map[], []), lines[..i])
    {
      assert lines[..i+1][..i] == lines[..i];
      var fields := Fields(lines[i]);
      if |fields| < 2 {
        continue;
      }
      var d: Define;
      if fields[0] == DEFINE {
        d := Define(Join(fields[2..], " "), false);
      } else if fields[0] == UNDEF {
        d := Define("", true);
      } else {
        continue;
      }
      var name := fields[1];
      if name !in out {
        order := order + [name];
      }
      out := out[name := d];
    }
    assert lines[..|lines|] == lines;
  }

  lemma {:induction false} AbsorbConcat(p: Parsed, a: seq<string>, b: seq<string>)
    ensures AbsorbAll(p, a + b) == AbsorbAll(AbsorbAll(p, a), b)
  {
    hide Absorb;
    if b == [] {
      assert a + b == a;
    } else {
      AbsorbConcat(p, a, b[..|b|-1]);
      assert (a + b)[..|a + b|-1] == a + b[..|b|-1];
    }
  }

  /** Names are words and values are words joined by single spaces, so printing loses nothing. */
  ghost predicate Clean(p: Parsed) {
    && p.defs.Keys == Elems(p.order) && Distinct(p.order)
    && forall n | n in p.defs :: IsWord(n) && CleanDefine(p.defs[n])
  }

  ghost predicate CleanDefine(d: Define) {
    if d.undef then d.value == "" else Join(Fields(d.value), " ") == d.value && '\n' !in d.value
  }

  lemma ParsedLineIsClean(line: string)
    ensures ParseLine(line).Some? ==> IsWord(ParseLine(line).value.0) && CleanDefine(ParseLine(line).value.1)
  {
    FieldsAreWords(line);
    var fields := Fields(line);
    if |fields| >= 2 {
      assert fields[1] in fields;
      var rest := fields[2..];
      assert forall w | w in rest :: w in fields;
      FieldsOfJoin(rest);
      WordsStayOnLine(rest);
    }
  }

  lemma {:induction false} ParsedIsClean(lines: seq<string>)
    ensures Clean(AbsorbAll(Parsed(map[], []), lines))
  {
    if lines != [] {
      var init, last := lines[..|lines|-1], lines[|lines|-1];
      ParsedIsClean(init);
      ParsedLineIsClean(last);
      var p := AbsorbAll(Parsed(map[], []), init);
      hide IsWord, CleanDefine, ParseLine;
      if ParseLine(last).Some? {
        ElemsConcat(p.order, [ParseLine(last).value.0]);
        ElemsOne(ParseLine(last).value.0);
        assert forall x :: x in p.order <==> x in Elems(p.order);
      }
    }
  }

  // ---------------------------------------------------------------- printing

  function PrintDefine(name: string, d: Define): string {
    if d.undef then UNDEF + [' '] + name else DEFINE + [' '] + name + [' '] + d.value
  }

  lemma Directives()
    ensures IsWord(DEFINE) && IsWord(UNDEF) && DEFINE != UNDEF
  {
    assert DEFINE[1] != UNDEF[1];
  }

  lemma PrintedReadsBack(name: string, d: Define)
    requires IsWord(name) && CleanDefine(d)
    ensures ParseLine(PrintDefine(name, d)) == Some((name, d)) && '\n' !in PrintDefine(name, d)
    ensures PrintDefine(name, d) == if d.undef then "#undef " + name else "#define " + name + " " + d.value
  {
    Directives();
    assert DEFINE + [' '] == "#define " && UNDEF + [' '] == "#undef ";
    if d.undef {
      TwoFields(UNDEF, name);
    } else {
      TwoFields(DEFINE, name);
      FieldsAcross(DEFINE + [' '] + name, ' ', d.value);
      assert ([DEFINE, name] + Fields(d.value))[2..] == Fields(d.value);
    }
  }

  lemma TwoFields(a: string, b: string)
    requires IsWord(a) && IsWord(b)
    ensures Fields(a + [' '] + b) == [a, b] && '\n' !in a + [' '] + b
  {
    FieldsAcross(a, ' ', b);
    WordIsField(a);
    WordIsField(b);
    WordHasNoNewline(a);
    WordHasNoNewline(b);
  }

  lemma WordHasNoNewline(w: string)
    requires IsWord(w)
    ensures '\n' !in w
  {
  }

  /** Lines, each ended by a newline. */
  function TextOf(lines: seq<string>): string {
    if lines == [] then "" else TextOf(lines[..|lines|-1]) + lines[|lines|-1] + "\n"
  }

  lemma {:induction false} LinesOfText(lines: seq<string>, rest: string)
    requires forall l | l in lines :: '\n' !in l
    ensures Lines(TextOf(lines) + rest) == lines + Lines(rest)
  {
    hide Lines;
    if lines == [] {
      assert TextOf(lines) + rest == rest;
    } else {
      var init, last := lines[..|lines|-1], lines[|lines|-1];
      assert last in lines;
      LinesOfText(init, last + "\n" + rest);
      LinesConcat(last, rest);
      OneLine(last);
      assert TextOf(lines) + rest == TextOf(init) + (last + "\n" + rest);
      assert lines == init + [last];
    }
  }

  /** The names of the probe half: those the asset does not state. */
  function Own(order: seq<string>, fromAsset: map<string, Define>): seq<string> {
    if order == [] then []
    else Own(order[..|order|-1], fromAsset) + (if order[|order|-1] in fromAsset then [] else [order[|order|-1]])
  }

  function OwnLines(names: seq<string>, probed: map<string, Define>): seq<string>
    requires forall n | n in names :: n in probed
  {
    if names == [] then []
    else OwnLines(names[..|names|-1], probed) + [PrintDefine(names[|names|-1], probed[names[|names|-1]])]
  }

  lemma {:induction false} OwnMembers(order: seq<string>, fromAsset: map<string, Define>)
    ensures forall n :: n in Own(order, fromAsset) <==> n in order && n !in fromAsset
    ensures Distinct(order) ==> Distinct(Own(order, fromAsset))
  {
    if order != [] {
      OwnMembers(order[..|order|-1], fromAsset);
      assert order == order[..|order|-1] + [order[|order|-1]];
    }
  }

  function Banner(triple: string): string {
    "/* Generated by staticpy: ABI probe for " + triple + ". */"
  }

  function AssetBanner(assetName: string): string {
    "/* assets/files/" + assetName + " */"
  }

  /** The asset, ended by a newline unless it is empty. */
  function Ended(asset: string): string {
    if asset != "" && asset[|asset|-1] != '\n' then asset + "\n" else asset
  }

  function FragmentText(triple: string, assetName: string, probed: map<string, Define>, own: seq<string>, asset: string): string
    requires forall n | n in own :: n in probed
  {
    TextOf([Banner(triple)] + OwnLines(own, probed) + ["", AssetBanner(assetName)]) + Ended(asset)
  }

  lemma TextMore(lines: seq<string>, line: string)
    ensures TextOf(lines + [line]) == TextOf(lines) + line + "\n"
  {
    assert (lines + [line])[..|lines|] == lines;
  }

  /** `pyconfigFragment`. */
  method PyconfigFragment(triple: string, assetName: string, probed: map<string, Define>, order: seq<string>,
                          fromAsset: map<string, Define>, asset: string) returns (text: string)
    requires forall n | n in order :: n in probed
    ensures (forall n | n in Own(order, fromAsset) :: n in probed)
    ensures text == FragmentText(triple, assetName, probed, Own(order, fromAsset), asset)
  {
    hide TextOf, Banner, AssetBanner, Own, OwnLines, PrintDefine, FragmentText;
    OwnMembers(order, fromAsset);
    var banner := Banner(triple);
    OneLineText(banner);
    NoOwn(banner, probed, fromAsset);
    text := banner + "\n";
    for i := 0 to |order|
      invariant forall n | n in Own(order[..i], fromAsset) :: n in probed
      invariant text == TextOf([banner] + OwnLines(Own(order[..i], fromAsset), probed))
    {
      NextOwn(order, fromAsset, probed, i, banner);
      if order[i] in fromAsset {
        continue;
      }
      text := text + PrintDefine(order[i], probed[order[i]]) + "\n";
    }
    assert order[..|order|] == order;
    FragmentEnds(triple, assetName, probed, Own(order, fromAsset), asset);
    text := text + "\n" + AssetBanner(assetName) + "\n";
    text := text + asset;
    if |asset| > 0 && asset[|asset|-1] != '\n' {
      text := text + "\n";
    }
  }

  lemma FragmentEnds(triple: string, assetName: string, probed: map<string, Define>, own: seq<string>, asset: string)
    requires forall n | n in own :: n in probed
    ensures var head := TextOf([Banner(triple)] + OwnLines(own, probed)) + "\n" + AssetBanner(assetName) + "\n";
            FragmentText(triple, assetName, probed, own, asset) ==
            if |asset| > 0 && asset[|asset|-1] != '\n' then head + asset + "\n" else head + asset
  {
    hide TextOf, Banner, AssetBanner, OwnLines;
    var lines := [Banner(triple)] + OwnLines(own, probed);
    TextMore(lines, "");
    TextMore(lines + [""], AssetBanner(assetName));
    assert lines + [""] + [AssetBanner(assetName)] == lines + ["", AssetBanner(assetName)];
  }

  lemma OneLineText(line: string)
    ensures TextOf([line]) == line + "\n"
  {
    assert [line][..0] == [];
  }

  lemma NoOwn(banner: string, probed: map<string, Define>, fromAsset: map<string, Define>)
    ensures Own([], fromAsset) == [] && [banner] + OwnLines([], probed) == [banner]
  {
  }

  lemma OwnNext(order: seq<string>, fromAsset: map<string, Define>, i: nat)
    requires i < |order|
    ensures Own(order[..i+1], fromAsset) ==
            Own(order[..i], fromAsset) + (if order[i] in fromAsset then [] else [order[i]])
  {
    assert order[..i+1][..i] == order[..i];
  }

  lemma OwnLinesMore(names: seq<string>, probed: map<string, Define>, n: string)
    requires n in probed && forall m | m in names :: m in probed
    ensures forall m | m in names + [n] :: m in probed
    ensures OwnLines(names + [n], probed) == OwnLines(names, probed) + [PrintDefine(n, probed[n])]
  {
    hide PrintDefine;
    assert (names + [n])[..|names|] == names;
  }

  lemma NextOwn(order: seq<string>, fromAsset: map<string, Define>, probed: map<string, Define>, i: nat, banner: string)
    requires i < |order| && forall n | n in order :: n in probed
    ensures forall n | n in Own(order[..i], fromAsset) :: n in probed
    ensures forall n | n in Own(order[..i+1], fromAsset) :: n in probed
    ensures order[i] in fromAsset ==> Own(order[..i+1], fromAsset) == Own(order[..i], fromAsset)
    ensures order[i] !in fromAsset ==>
              TextOf([banner] + OwnLines(Own(order[..i+1], fromAsset), probed)) ==
              TextOf([banner] + OwnLines(Own(order[..i], fromAsset), probed)) + PrintDefine(order[i], probed[order[i]]) + "\n"
  {
    OwnMembers(order[..i], fromAsset);
    OwnMembers(order[..i+1], fromAsset);
    OwnNext(order, fromAsset, i);
    hide TextOf, PrintDefine, Own, OwnLines;
    if order[i] !in fromAsset {
      var own, line := Own(order[..i], fromAsset), PrintDefine(order[i], probed[order[i]]);
      OwnLinesMore(own, probed, order[i]);
      TextMore([banner] + OwnLines(own, probed), line);
      Regroup([banner], OwnLines(own, probed), [line]);
    }
  }

  // ---------------------------------------------------------------- reading the header back

  /** The merge both outputs use: the asset wins. */
  function Merged(probed: map<string, Define>, fromAsset: map<string, Define>): map<string, Define> {
    probed + fromAsset
  }

  /** The probe's definitions of some macros, in order. */
  function Half(own: seq<string>, probed: map<string, Define>): Parsed
    requires forall n | n in own :: n in probed
  {
    Parsed(map n | n in own :: probed[n], own)
  }

  ghost predicate Printable(own: seq<string>, probed: map<string, Define>) {
    Distinct(own) && forall n | n in own :: n in probed && IsWord(n) && CleanDefine(probed[n])
  }

  lemma HalfMore(init: seq<string>, n: string, probed: map<string, Define>)
    requires Printable(init + [n], probed)
    ensures Printable(init, probed) && IsWord(n) && n in probed && CleanDefine(probed[n])
    ensures var h := Half(init, probed);
            n !in h.defs && Half(init + [n], probed) == Parsed(h.defs[n := probed[n]], h.order + [n])
  {
    hide IsWord, CleanDefine;
    var own := init + [n];
    assert own[|init|] == n && forall x | x in init :: x in own;
    assert forall i | 0 <= i < |init| :: own[i] == init[i];
  }

  /** The own lines, absorbed from nothing, give back the probe half. */
  lemma {:induction false} OwnLinesReadBack(own: seq<string>, probed: map<string, Define>)
    requires Printable(own, probed)
    ensures AbsorbAll(Parsed(map[], []), OwnLines(own, probed)) == Half(own, probed)
    ensures forall l | l in OwnLines(own, probed) :: '\n' !in l
  {
    if own != [] {
      hide PrintDefine, ParseLine, CleanDefine, IsWord, Half, AbsorbAll, Printable;
      var init, last := own[..|own|-1], own[|own|-1];
      assert own == init + [last];
      HalfMore(init, last, probed);
      OwnLinesReadBack(init, probed);
      PrintedReadsBack(last, probed[last]);
      AbsorbConcat(Parsed(map[], []), OwnLines(init, probed), [PrintDefine(last, probed[last])]);
      AbsorbOne(Half(init, probed), PrintDefine(last, probed[last]));
    }
  }

  /** Absorbing lines after macros they do not mention adds what they define by themselves. */
  lemma {:induction false} AbsorbDisjoint(p: Parsed, lines: seq<string>)
    requires p.defs.Keys !! AbsorbAll(Parsed(map[], []), lines).defs.Keys
    ensures var q := AbsorbAll(Parsed(map[], []), lines);
            AbsorbAll(p, lines) == Parsed(p.defs + q.defs, p.order + q.order)
  {
    hide ParseLine;
    if lines == [] {
      assert p.defs + map[] == p.defs && p.order + [] == p.order;
    } else {
      var init, last := lines[..|lines|-1], lines[|lines|-1];
      var q := AbsorbAll(Parsed(map[], []), init);
      assert q.defs.Keys <= Absorb(q, last).defs.Keys;
      AbsorbDisjoint(p, init);
      if ParseLine(last).Some? {
        var (n, d) := ParseLine(last).value;
        assert n in Absorb(q, last).defs;
        assert (p.defs + q.defs)[n := d] == p.defs + q.defs[n := d];
        assert p.order + q.order + [n] == p.order + (q.order + [n]);
      }
    }
  }

  lemma CommentIsIgnored(line: string)
    requires line != "" && line[0] == '/'
    ensures ParseLine(line) == None
  {
    FirstFieldStarts(line);
    assert DEFINE[0] == '#' && UNDEF[0] == '#';
  }

  lemma BannersAreIgnored(triple: string, assetName: string)
    ensures ParseLine(Banner(triple)) == None && ParseLine(AssetBanner(assetName)) == None && ParseLine("") == None
    ensures '\n' !in triple ==> '\n' !in Banner(triple)
    ensures '\n' !in assetName ==> '\n' !in AssetBanner(assetName)
  {
    hide ParseLine;
    assert Banner(triple)[0] == '/' && AssetBanner(assetName)[0] == '/';
    CommentIsIgnored(Banner(triple));
    CommentIsIgnored(AssetBanner(assetName));
    EmptyIsIgnored();
  }

  lemma EmptyIsIgnored()
    ensures ParseLine("") == None
  {
  }

  /** A final newline adds no definition. */
  lemma EndedParsesAlike(asset: string)
    ensures Parse(Ended(asset)) == Parse(asset)
  {
    if asset != "" && asset[|asset|-1] != '\n' {
      LinesConcat(asset, "");
      assert asset + "\n" + "" == asset + "\n";
      var ls := Lines(asset);
      EmptyIsIgnored();
      assert (ls + [""])[..|ls|] == ls;
    }
  }

  /** Round trip (b): parsing the printed header gives, macro by macro, the same asset-wins merge
      that config.site is written from, and lists the probe's own macros first. */
  lemma HeaderAnswersAlike(triple: string, assetName: string, stdout: string, asset: string)
    requires '\n' !in triple && '\n' !in assetName
    ensures var probed, fromAsset := Parse(stdout), Parse(asset);
            var own := Own(probed.order, fromAsset.defs);
            && (forall n | n in own :: n in probed.defs)
            && Parse(FragmentText(triple, assetName, probed.defs, own, asset)) ==
               Parsed(Merged(probed.defs, fromAsset.defs), own + fromAsset.order)
  {
    var probed, fromAsset := Parse(stdout), Parse(asset);
    var own := Own(probed.order, fromAsset.defs);
    OwnIsPrintable(stdout, fromAsset.defs);
    HalfMerges(stdout, fromAsset.defs);
    hide Own, Printable, Parse, FragmentText, Half;
    FragmentParses(triple, assetName, probed.defs, own, asset);
    EndedParsesAlike(asset);
    AfterHalf(own, probed.defs, asset);
  }

  lemma OrderHasAll(stdout: string)
    ensures forall n :: n in Parse(stdout).order <==> n in Parse(stdout).defs
  {
    hide IsWord, CleanDefine, ParseLine, Lines;
    ParsedIsClean(Lines(stdout));
    assert forall n :: n in Parse(stdout).order <==> n in Elems(Parse(stdout).order);
  }

  lemma OwnIsPrintable(stdout: string, fromAsset: map<string, Define>)
    ensures Printable(Own(Parse(stdout).order, fromAsset), Parse(stdout).defs)
  {
    ParsedIsClean(Lines(stdout));
    OrderHasAll(stdout);
    OwnMembers(Parse(stdout).order, fromAsset);
    hide Own, Lines, AbsorbAll, IsWord, CleanDefine;
  }

  lemma HalfMerges(stdout: string, fromAsset: map<string, Define>)
    ensures var probed := Parse(stdout);
            var own := Own(probed.order, fromAsset);
            && (forall n | n in own :: n in probed.defs)
            && Half(own, probed.defs).defs.Keys !! fromAsset.Keys
            && Half(own, probed.defs).defs + fromAsset == Merged(probed.defs, fromAsset)
  {
    OrderHasAll(stdout);
    OwnMembers(Parse(stdout).order, fromAsset);
    hide Own, Parse;
  }

  lemma FragmentParses(triple: string, assetName: string, probed: map<string, Define>, own: seq<string>, asset: string)
    requires Printable(own, probed) && '\n' !in triple && '\n' !in assetName
    ensures Parse(FragmentText(triple, assetName, probed, own, asset)) == AbsorbAll(Half(own, probed), Lines(Ended(asset)))
  {
    hide OwnLines, ParseLine, CleanDefine, IsWord, Lines, Banner, AssetBanner, Ended, TextOf, AbsorbAll, Half;
    OwnLinesReadBack(own, probed);
    BannersAreIgnored(triple, assetName);
    var head := [Banner(triple)] + OwnLines(own, probed) + ["", AssetBanner(assetName)];
    LinesOfText(head, Ended(asset));
    AbsorbConcat(Parsed(map[], []), head, Lines(Ended(asset)));
    HeadAbsorbs(Banner(triple), OwnLines(own, probed), AssetBanner(assetName));
  }

  lemma AfterHalf(own: seq<string>, probed: map<string, Define>, asset: string)
    requires (forall n | n in own :: n in probed) && Half(own, probed).defs.Keys !! Parse(Ended(asset)).defs.Keys
    ensures var q := Parse(Ended(asset));
            AbsorbAll(Half(own, probed), Lines(Ended(asset))) == Parsed(Half(own, probed).defs + q.defs, own + q.order)
  {
    hide Lines, Ended;
    AbsorbDisjoint(Half(own, probed), Lines(Ended(asset)));
  }

  /** Comments and blank lines around the own lines change nothing. */
  lemma HeadAbsorbs(a: string, lines: seq<string>, b: string)
    requires ParseLine(a) == None && ParseLine(b) == None && ParseLine("") == None
    ensures var none := Parsed(map[], []);
            AbsorbAll(none, [a] + lines + ["", b]) == AbsorbAll(none, lines)
  {
    hide ParseLine;
    var none := Parsed(map[], []);
    assert [a] + lines + ["", b] == [a] + lines + [""] + [b];
    AbsorbConcat(none, [a] + lines + [""], [b]);
    AbsorbConcat(none, [a] + lines, [""]);
    AbsorbConcat(none, [a], lines);
    AbsorbOne(none, a);
    AbsorbOne(AbsorbAll(none, lines), "");
    AbsorbOne(AbsorbAll(none, lines), b);
  }

  lemma AbsorbOne(p: Parsed, line: string)
    ensures AbsorbAll(p, [line]) == Absorb(p, line)
  {
    var none: seq<string> := [];
    assert [line][..0] == none;
  }

  /** The merge loops of `configSite`, in whatever order the maps are ranged over. */
  method Merge(probed: map<string, Define>, fromAsset: map<string, Define>) returns (merged: map<string, Define>)
    ensures merged == Merged(probed, fromAsset)
  {
    merged := map[];
    var left := probed.Keys;
    while left != {}
      invariant left <= probed.Keys && merged.Keys == probed.Keys - left
      invariant forall k | k in merged :: merged[k] == probed[k]
      decreases left
    {
      var k :| k in left;
      merged, left := merged[k := probed[k]], left - {k};
    }
    assert merged == probed;
    left := fromAsset.Keys;
    while left != {}
      invariant left <= fromAsset.Keys && merged.Keys == probed.Keys + (fromAsset.Keys - left)
      invariant forall k | k in merged :: merged[k] == if k in fromAsset && k !in left then fromAsset[k] else probed[k]
      decreases left
    {
      var k :| k in left;
      merged, left := merged[k := fromAsset[k]], left - {k};
    }
  }
}
