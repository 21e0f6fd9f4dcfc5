/** Quoting of recorded commands, and the two readers of it: the shell and the word splitter. */
module Shell {
  import opened Common

  predicate SafeChar(c: char) {
    || 'a' <= c <= 'z' || 'A' <= c <= 'Z' || '0' <= c <= '9'
    || c in "@%_-+=:,./"
  }

  predicate Safe(s: string) {
    forall i | 0 <= i < |s| :: SafeChar(s[i])
  }

  /** `strings.ReplaceAll(s, "'", `'\''`)`. */
  function EscapeQuotes(s: string): string {
    if s == "" then ""
    else EscapeQuotes(s[..|s|-1]) + (if s[|s|-1] == '\'' then "'\\''" else [s[|s|-1]])
  }

  /** `shellQuoteOne`. */
  function QuoteOne(s: string): string {
    if s == "" then "''" else if Safe(s) then s else "'" + EscapeQuotes(s) + "'"
  }

  /** `ShellQuote`. */
  function Quote(args: seq<string>): string {
    if args == [] then ""
    else if |args| == 1 then QuoteOne(args[0])
    else Quote(args[..|args|-1]) + " " + QuoteOne(args[|args|-1])
  }

  /** The characters that need no quotes, by their codes: small letters, capitals, digits, and ten more. */
  ghost predicate Unquoted(c: char) {
    var n := c as int;
    || 0x61 <= n <= 0x7a || 0x41 <= n <= 0x5a || 0x30 <= n <= 0x39
    || n in {0x40, 0x25, 0x5f, 0x2d, 0x2b, 0x3d, 0x3a, 0x2c, 0x2e, 0x2f}
  }

  lemma SafeIsUnquoted(c: char)
    ensures SafeChar(c) <==> Unquoted(c)
  {
  }

  lemma {:induction false} EscapingNeverShortens(s: string)
    ensures |EscapeQuotes(s)| >= |s|
  {
    if s != "" {
      EscapingNeverShortens(s[..|s|-1]);
    }
  }

  /** An argument is left as it is exactly when it is not empty and no character of it needs quotes. */
  lemma QuotesOnlyWhenNeeded(s: string)
    ensures QuoteOne(s) == s <==> s != "" && forall i | 0 <= i < |s| :: Unquoted(s[i])
  {
    forall i | 0 <= i < |s| ensures SafeChar(s[i]) <==> Unquoted(s[i]) {
      SafeIsUnquoted(s[i]);
    }
    EscapingNeverShortens(s);
    hide SafeChar, Unquoted;
    if QuoteOne(s) == s {
      assert |QuoteOne(s)| == |s|;
    }
  }

  // ---------------------------------------------------------------- the shell's reading

  /** Reading a command line: finished words, the current word, whether a word has begun, and the
      quoting state. */
  datatype Mode = Plain | Quoted | Escaped

  datatype Reader = Reader(words: seq<string>, word: string, begun: bool, mode: Mode)

  /** Characters that stand for themselves outside quotes: all but those section 2.2 says to quote,
      which could be operators, expansions, quotes, patterns, comments or home directories. */
  predicate Literal(c: char) {
    c !in {'|', '&', ';', '<', '>', '(', ')', '$', '`', '\\', '"', '\'', ' ', '\t', '\n', '*', '?', '[', '#', '~'}
  }

  lemma SafeIsLiteral(c: char)
    ensures SafeChar(c) ==> Literal(c)
  {
  }

  /** Token recognition and quoting (section 2.2 of the Shell Command Language of POSIX.1-2017);
      None where an unquoted character would have a meaning of its own. */
  function ReadChar(r: Reader, c: char): Option<Reader> {
    match r.mode
    case Quoted => Some(if c == '\'' then r.(mode := Plain) else r.(word := r.word + [c]))
    case Escaped => Some(r.(word := r.word + [c], mode := Plain))
    case Plain =>
      if c == '\'' then Some(r.(begun := true, mode := Quoted))
      else if c == '\\' then Some(r.(begun := true, mode := Escaped))
      else if c == ' ' || c == '\t' then
        Some(if r.begun then Reader(r.words + [r.word], "", false, Plain) else r)
      else if Literal(c) then Some(r.(word := r.word + [c], begun := true))
      else None
  }

  function Read(r: Reader, s: string): Option<Reader> {
    if s == "" then Some(r)
    else match Read(r, s[..|s|-1])
      case None => None
      case Some(q) => ReadChar(q, s[|s|-1])
  }

  /** The words the shell makes of a line. */
  function ShellWords(s: string): Option<seq<string>> {
    match Read(Reader([], "", false, Plain), s)
    case None => None
    case Some(r) =>
      if r.mode != Plain then None
      else Some(if r.begun then r.words + [r.word] else r.words)
  }

  lemma {:induction false} ReadConcat(r: Reader, a: string, b: string)
    ensures Read(r, a + b) == match Read(r, a) case None => None case Some(q) => Read(q, b)
  {
    if b == "" {
      assert a + b == a;
    } else {
      ReadConcat(r, a, b[..|b|-1]);
      assert (a + b)[..|a + b|-1] == a + b[..|b|-1];
    }
  }

  lemma ReadOne(r: Reader, c: char)
    ensures Read(r, [c]) == ReadChar(r, c)
  {
    assert [c][..0] == "";
  }

  lemma ReadMore(r: Reader, s: string, c: char)
    ensures Read(r, s + [c]) == match Read(r, s) case None => None case Some(q) => ReadChar(q, c)
  {
    hide ReadChar;
    assert (s + [c])[..|s|] == s;
  }

  lemma SafePart(s: string, n: nat)
    requires Safe(s) && n <= |s|
    ensures Safe(s[..n])
  {
  }

  lemma {:induction false} ReadsSafe(r: Reader, s: string)
    requires Safe(s) && s != "" && r.mode == Plain
    ensures Read(r, s) == Some(r.(word := r.word + s, begun := true))
  {
    var init, last := s[..|s|-1], s[|s|-1];
    assert SafeChar(last) && s == init + [last];
    SafeIsLiteral(last);
    assert last !in {'\'', '\\', ' ', '\t'};
    hide Read, Safe, SafeChar, Literal;
    if init == "" {
      ReadOne(r, last);
    } else {
      assert Safe(init) by { SafePart(s, |init|); }
      ReadsSafe(r, init);
      ReadMore(r, init, last);
      Regroup(r.word, init, [last]);
    }
  }

  /** Inside quotes the escaped text reads as the text, and leaves the reader inside quotes. */
  lemma {:induction false} ReadsEscaped(r: Reader, s: string)
    requires r.mode == Quoted && r.begun
    ensures Read(r, EscapeQuotes(s)) == Some(r.(word := r.word + s))
  {
    if s == "" {
      assert r.word + s == r.word;
    } else {
      var init, last := s[..|s|-1], s[|s|-1];
      ReadsEscaped(r, init);
      var q := r.(word := r.word + init);
      assert r.word + init + [last] == r.word + s;
      if last == '\'' {
        ReadConcat(r, EscapeQuotes(init), "'\\''");
        ReadsEscapedQuote(q);
      } else {
        ReadConcat(r, EscapeQuotes(init), [last]);
        ReadOne(q, last);
      }
    }
  }

  lemma ReadsEscapedQuote(q: Reader)
    requires q.mode == Quoted && q.begun
    ensures Read(q, "'\\''") == Some(q.(word := q.word + "'"))
  {
    var p := q.(mode := Plain);
    ReadOne(q, '\'');
    ReadConcat(q, "'", "\\");
    ReadOne(p, '\\');
    ReadConcat(q, "'" + "\\", "'");
    ReadOne(p.(mode := Escaped), '\'');
    ReadConcat(q, "'" + "\\" + "'", "'");
    ReadOne(p.(word := q.word + "'"), '\'');
    assert "'" + "\\" + "'" + "'" == "'\\''";
  }

  lemma ReadsQuoted(r: Reader, s: string)
    requires r.mode == Plain && !r.begun && r.word == ""
    ensures Read(r, QuoteOne(s)) == Some(r.(word := s, begun := true))
  {
    if s == "" {
      ReadOne(r, '\'');
      ReadConcat(r, "'", "'");
      ReadOne(r.(begun := true, mode := Quoted), '\'');
      assert "'" + "'" == "''";
    } else if Safe(s) {
      ReadsSafe(r, s);
      assert "" + s == s;
    } else {
      var q := r.(begun := true, mode := Quoted);
      ReadOne(r, '\'');
      ReadConcat(r, "'", EscapeQuotes(s));
      ReadsEscaped(q, s);
      ReadConcat(r, "'" + EscapeQuotes(s), "'");
      ReadOne(q.(word := q.word + s), '\'');
      assert "" + s == s;
    }
  }

  lemma {:induction false} ReadsAll(args: seq<string>)
    requires args != []
    ensures Read(Reader([], "", false, Plain), Quote(args)) ==
            Some(Reader(args[..|args|-1], args[|args|-1], true, Plain))
  {
    hide Read, QuoteOne;
    var start := Reader([], "", false, Plain);
    if |args| == 1 {
      ReadsQuoted(start, args[0]);
    } else {
      var init, last := args[..|args|-1], args[|args|-1];
      ReadsAll(init);
      ReadConcat(start, Quote(init), " ");
      var r := Reader(init[..|init|-1], init[|init|-1], true, Plain);
      ReadOne(r, ' ');
      assert init[..|init|-1] + [init[|init|-1]] == init;
      ReadConcat(start, Quote(init) + " ", QuoteOne(last));
      ReadsQuoted(Reader(init, "", false, Plain), last);
    }
  }

  lemma ReadsNothing()
    ensures ShellWords(Quote([])) == Some([])
  {
  }

  /** Round trip (a): the shell reads a quoted argument list back as exactly that list, whatever the
      arguments contain, and never meets an unquoted character with a meaning of its own. */
  lemma ShellReadsBack(args: seq<string>)
    ensures ShellWords(Quote(args)) == Some(args)
  {
    hide Read, Quote;
    if args == [] {
      ReadsNothing();
    } else {
      ReadsAll(args);
      assert args[..|args|-1] + [args[|args|-1]] == args;
    }
  }

  // ---------------------------------------------------------------- the word splitter's reading

  /** The state of `splitShell`. */
  datatype Splitter = Splitter(out: seq<string>, cur: string, inQuote: bool, has: bool)

  function SplitChar(p: Splitter, c: char): Splitter {
    if c == '\'' then p.(inQuote := !p.inQuote, has := true)
    else if (c == ' ' || c == '\t') && !p.inQuote then
      if p.has || p.cur != "" then Splitter(p.out + [p.cur], "", p.inQuote, false) else p
    else p.(cur := p.cur + [c])
  }

  function SplitFrom(p: Splitter, s: string): Splitter {
    if s == "" then p else SplitChar(SplitFrom(p, s[..|s|-1]), s[|s|-1])
  }

  function Words(p: Splitter): seq<string> {
    if p.has || p.cur != "" then p.out + [p.cur] else p.out
  }

  function SplitWords(s: string): seq<string> {
    Words(SplitFrom(Splitter([], "", false, false), s))
  }

  /** `splitShell`, byte by byte. */
  method SplitShell(s: string) returns (out: seq<string>)
    ensures out == SplitWords(s)
  {
    out := [];
    var cur := "";
    var inQuote, has := false, false;
    for i := 0 to |s|
      invariant Splitter(out, cur, inQuote, has) == SplitFrom(Splitter([], "", false, false), s[..i])
    {
      assert s[..i+1][..i] == s[..i];
      var c := s[i];
      if c == '\'' {
        inQuote := !inQuote;
        has := true;
      } else if (c == ' ' || c == '\t') && !inQuote {
        if has || |cur| > 0 {
          out := out + [cur];
          cur := "";
          has := false;
        }
      } else {
        cur := cur + [c];
      }
    }
    assert s[..|s|] == s;
    if has || |cur| > 0 {
      out := out + [cur];
    }
  }

  lemma {:induction false} SplitConcat(p: Splitter, a: string, b: string)
    ensures SplitFrom(p, a + b) == SplitFrom(SplitFrom(p, a), b)
  {
    if b == "" {
      assert a + b == a;
    } else {
      SplitConcat(p, a, b[..|b|-1]);
      assert (a + b)[..|a + b|-1] == a + b[..|b|-1];
    }
  }

  lemma SplitOne(p: Splitter, c: char)
    ensures SplitFrom(p, [c]) == SplitChar(p, c)
  {
    assert [c][..0] == "";
  }

  /** Text without quotes is copied, inside quotes always, outside when it has no blank. */
  lemma {:induction false} SplitCopies(p: Splitter, s: string)
    requires '\'' !in s && (p.inQuote || (' ' !in s && '\t' !in s))
    ensures SplitFrom(p, s) == p.(cur := p.cur + s)
  {
    if s == "" {
      assert p.cur + s == p.cur;
    } else {
      SplitCopies(p, s[..|s|-1]);
      assert p.cur + s[..|s|-1] + [s[|s|-1]] == p.cur + s;
    }
  }

  lemma SafeHasNoBlank(s: string)
    requires Safe(s)
    ensures ' ' !in s && '\t' !in s
  {
    assert !SafeChar(' ') && !SafeChar('\t');
  }

  lemma {:induction false} NothingToEscape(s: string)
    requires '\'' !in s
    ensures EscapeQuotes(s) == s
  {
    if s != "" {
      NothingToEscape(s[..|s|-1]);
    }
  }

  lemma SplitsQuoted(p: Splitter, s: string)
    requires !p.inQuote && !p.has && p.cur == "" && '\'' !in s
    ensures SplitFrom(p, QuoteOne(s)) == p.(cur := s, has := s == "" || !Safe(s))
  {
    assert "" + s == s;
    if s != "" && Safe(s) {
      SafeHasNoBlank(s);
      SplitCopies(p, s);
    } else {
      NothingToEscape(s);
      assert QuoteOne(s) == "'" + s + "'";
      var q := p.(inQuote := true, has := true);
      SplitOne(p, '\'');
      SplitConcat(p, "'", s);
      SplitCopies(q, s);
      SplitConcat(p, "'" + s, "'");
      SplitOne(q.(cur := q.cur + s), '\'');
    }
  }

  lemma {:induction false} SplitsAll(args: seq<string>)
    requires args != [] && forall a | a in args :: '\'' !in a
    ensures var last := args[|args|-1];
            SplitFrom(Splitter([], "", false, false), Quote(args)) ==
            Splitter(args[..|args|-1], last, false, last == "" || !Safe(last))
  {
    var start := Splitter([], "", false, false);
    var init, last := args[..|args|-1], args[|args|-1];
    if |args| == 1 {
      SplitsQuoted(start, args[0]);
    } else {
      SplitsAll(init);
      var p := SplitFrom(start, Quote(init));
      SplitConcat(start, Quote(init), " ");
      SplitOne(p, ' ');
      assert init[..|init|-1] + [init[|init|-1]] == init;
      SplitConcat(start, Quote(init) + " ", QuoteOne(last));
      SplitsQuoted(Splitter(init, "", false, false), last);
    }
  }

  /** The splitter drops every quote, so no word it returns has one. */
  lemma {:induction false} SplitterDropsQuotes(p: Splitter, s: string)
    requires '\'' !in p.cur && forall w | w in p.out :: '\'' !in w
    ensures var q := SplitFrom(p, s); '\'' !in q.cur && forall w | w in q.out :: '\'' !in w
  {
    if s != "" {
      SplitterDropsQuotes(p, s[..|s|-1]);
    }
  }

  lemma QuoteNothing()
    ensures Quote([]) == "" && SplitFrom(Splitter([], "", false, false), "") == Splitter([], "", false, false)
  {
  }

  /** `splitShell` reads a quoted argument list back if and only if no argument has a single quote. */
  lemma SplitterReadsBackIff(args: seq<string>)
    ensures SplitWords(Quote(args)) == args <==> forall a | a in args :: '\'' !in a
  {
    hide SplitFrom, Quote;
    if forall a | a in args :: '\'' !in a {
      if args == [] {
        QuoteNothing();
      } else {
        SplitsAll(args);
        assert args[..|args|-1] + [args[|args|-1]] == args;
      }
    } else {
      SplitterDropsQuotes(Splitter([], "", false, false), Quote(args));
    }
  }

  // ---------------------------------------------------------------- any line of words

  /** A word in quotes, or as it stands when it is not empty and has no blank. */
  ghost predicate Writes(text: string, word: string) {
    '\'' !in word && (text == "'" + word + "'" || (text == word && word != "" && ' ' !in word && '\t' !in word))
  }

  predicate Blanks(s: string) {
    forall i | 0 <= i < |s| :: s[i] == ' ' || s[i] == '\t'
  }

  /** A line of words with blanks before, between and after them. */
  ghost predicate Line(texts: seq<string>, gaps: seq<string>, words: seq<string>) {
    && |texts| == |words| && |gaps| == |words| + 1
    && (forall i | 0 <= i < |words| :: Writes(texts[i], words[i])) && (forall g | g in gaps :: Blanks(g))
    && forall i | 0 < i < |words| :: gaps[i] != ""
  }

  lemma SplitsText(p: Splitter, text: string, word: string)
    requires !p.inQuote && !p.has && p.cur == "" && Writes(text, word)
    ensures SplitFrom(p, text) == p.(cur := word, has := text == "'" + word + "'")
  {
    assert "" + word == word;
    if text == "'" + word + "'" {
      var q := p.(inQuote := true, has := true);
      SplitOne(p, '\'');
      SplitConcat(p, "'", word);
      SplitCopies(q, word);
      SplitConcat(p, "'" + word, "'");
      SplitOne(q.(cur := q.cur + word), '\'');
    } else {
      SplitCopies(p, word);
    }
  }

  /** Blanks end the word before them, if there is one. */
  lemma {:induction false} SplitsGap(p: Splitter, gap: string)
    requires Blanks(gap) && !p.inQuote
    ensures SplitFrom(p, gap) == if gap == "" then p else Splitter(Words(p), "", false, false)
  {
    if gap != "" {
      SplitsGap(p, gap[..|gap|-1]);
    }
  }

  lemma SplitsNext(done: seq<string>, text: string, word: string, gap: string)
    requires Writes(text, word) && Blanks(gap)
    ensures var p := SplitFrom(Splitter(done, "", false, false), text + gap);
            Words(p) == done + [word] && !p.inQuote && (gap != "" ==> p == Splitter(done + [word], "", false, false))
  {
    var start := Splitter(done, "", false, false);
    assert text != "'" + word + "'" ==> word != "";
    hide Writes, Blanks, SplitFrom;
    SplitsText(start, text, word);
    SplitConcat(start, text, gap);
    SplitsGap(start.(cur := word, has := text == "'" + word + "'"), gap);
  }

  lemma NoWords()
    ensures Words(Splitter([], "", false, false)) == []
  {
  }

  lemma LinePrefix(texts: seq<string>, gaps: seq<string>, words: seq<string>)
    requires Line(texts, gaps, words) && words != []
    ensures var n := |words|;
            && Line(texts[..n-1], gaps[..n], words[..n-1]) && Writes(texts[n-1], words[n-1]) && Blanks(gaps[n])
            && gaps[..n][n-1] == gaps[n-1] && (n > 1 ==> gaps[n-1] != "")
  {
    hide Writes, Blanks;
  }

  lemma {:induction false} SplitsLine(texts: seq<string>, gaps: seq<string>, words: seq<string>)
    requires Line(texts, gaps, words)
    ensures var p := SplitFrom(Splitter([], "", false, false), Spread(texts, gaps));
            Words(p) == words && !p.inQuote && (gaps[|words|] != "" ==> p == Splitter(words, "", false, false))
            && (words == [] ==> p == Splitter([], "", false, false))
  {
    var start, n := Splitter([], "", false, false), |words|;
    hide SplitFrom, Words, Writes, Blanks;
    if n == 0 {
      assert Blanks(gaps[0]);
      SplitsGap(start, gaps[0]);
      NoWords();
    } else {
      LinePrefix(texts, gaps, words);
      hide Line;
      var before := Spread(texts[..n-1], gaps[..n]);
      SplitsLine(texts[..n-1], gaps[..n], words[..n-1]);
      Regroup(before, texts[n-1], gaps[n]);
      SplitConcat(start, before, texts[n-1] + gaps[n]);
      SplitsNext(words[..n-1], texts[n-1], words[n-1], gaps[n]);
      assert words[..n-1] + [words[n-1]] == words;
    }
  }

  /** `splitShell` reads every line of words, each as it stands or in quotes, with spaces and tabs
      between them in any number, as those words. */
  lemma SplitterReadsLines(texts: seq<string>, gaps: seq<string>, words: seq<string>)
    requires Line(texts, gaps, words)
    ensures SplitWords(Spread(texts, gaps)) == words
  {
    SplitsLine(texts, gaps, words);
  }
}
