/** Exactly which streams the bounded tail gets right however they are cut into writes. */
module TailExact {
  import opened Common
  import opened TailRing

  /** A stream cut at newlines, carriage returns kept. */
  function Raw(stream: string): Cut {
    if stream == "" then Cut([], "")
    else
      var c := Raw(stream[..|stream|-1]);
      if stream[|stream|-1] == '\n' then Cut(c.lines + [c.part], "")
      else c.(part := c.part + [stream[|stream|-1]])
  }

  function Trims(lines: seq<string>): (r: seq<string>)
    ensures |r| == |lines| && forall i | 0 <= i < |r| :: r[i] == TrimCR(lines[i])
  {
    if lines == [] then [] else Trims(lines[..|lines|-1]) + [TrimCR(lines[|lines|-1])]
  }

  lemma TrimsConcat(a: seq<string>, b: seq<string>)
    ensures Trims(a + b) == Trims(a) + Trims(b)
  {
  }

  lemma {:induction false} ScanOfRaw(stream: string)
    ensures Scan(stream) == Cut(Trims(Raw(stream).lines), Raw(stream).part)
  {
    if stream != "" {
      hide TrimCR;
      var c := Raw(stream[..|stream|-1]);
      ScanOfRaw(stream[..|stream|-1]);
      TrimsConcat(c.lines, [c.part]);
    }
  }

  lemma {:induction false} RawNoNewline(s: string)
    requires '\n' !in s
    ensures Raw(s) == Cut([], s)
  {
    if s != "" {
      RawNoNewline(s[..|s|-1]);
      assert s == s[..|s|-1] + [s[|s|-1]];
    }
  }

  lemma {:induction false} RawHasNoNewline(s: string)
    ensures '\n' !in Raw(s).part && forall l | l in Raw(s).lines :: '\n' !in l
  {
    if s != "" {
      RawHasNoNewline(s[..|s|-1]);
    }
  }

  lemma {:induction false} RawResumes(a: string, b: string)
    ensures Raw(a + b) == Cut(Raw(a).lines + Raw(Raw(a).part + b).lines, Raw(Raw(a).part + b).part)
  {
    if b == "" {
      assert a + b == a && Raw(a).part + b == Raw(a).part;
      RawHasNoNewline(a);
      RawNoNewline(Raw(a).part);
      assert Raw(a).lines + [] == Raw(a).lines;
    } else {
      var init, last := b[..|b|-1], b[|b|-1];
      RawResumes(a, init);
      assert (a + b)[..|a + b|-1] == a + init;
      assert (Raw(a).part + b)[..|Raw(a).part + b|-1] == Raw(a).part + init;
      var c := Raw(Raw(a).part + init);
      assert Raw(a).lines + (c.lines + [c.part]) == Raw(a).lines + c.lines + [c.part];
    }
  }

  /** Text before the first newline only lengthens the first line. */
  lemma {:induction false} RawAfter(x: string, t: string)
    requires '\n' !in x
    ensures var r := Raw(t);
            Raw(x + t) == if r.lines == [] then Cut([], x + r.part) else Cut([x + r.lines[0]] + r.lines[1..], r.part)
  {
    if t == "" {
      assert x + t == x;
      RawNoNewline(x);
    } else {
      var init, last := t[..|t|-1], t[|t|-1];
      RawAfter(x, init);
      assert (x + t)[..|x + t|-1] == x + init;
      var r := Raw(init);
      if last == '\n' && r.lines != [] {
        assert ([x + r.lines[0]] + r.lines[1..]) + [r.part] == [x + (r.lines + [r.part])[0]] + (r.lines + [r.part])[1..];
      } else if last == '\n' {
        assert Raw(t).lines == [r.part] && [r.part][1..] == [];
      } else {
        assert x + (r.part + [last]) == x + r.part + [last];
      }
    }
  }

  // ---------------------------------------------------------------- everything ever pushed

  /** The writer with a ring that forgets nothing. */
  function Unbounded(chunks: seq<string>): Cut {
    if chunks == [] then Cut([], "") else WriteAll(Unbounded(chunks[..|chunks|-1]), chunks[|chunks|-1])
  }

  function WriteAll(c: Cut, p: string): Cut {
    var s := Scan(c.part + p);
    if |s.part| > MAX_PART then Cut(c.lines + s.lines + [s.part], "") else Cut(c.lines + s.lines, s.part)
  }

  lemma {:induction false} RingOfUnbounded(n: nat, chunks: seq<string>)
    ensures AfterAll(n, chunks) == Cut(LastN(Unbounded(chunks).lines, n), Unbounded(chunks).part)
  {
    hide Scan;
    if chunks != [] {
      var u, p := Unbounded(chunks[..|chunks|-1]), chunks[|chunks|-1];
      RingOfUnbounded(n, chunks[..|chunks|-1]);
      var s := Scan(u.part + p);
      LastNTwice(u.lines, s.lines, n);
      LastNTwice(u.lines + s.lines, [s.part], n);
    }
  }

  /** What was pushed for one finished line: one entry when it is not overlong; otherwise possibly some
      flushed pieces, and last what was left of it. */
  ghost predicate GroupOf(g: seq<string>, line: string) {
    && g != [] && (exists y: nat :: y <= |line| && g[|g|-1] == TrimCR(line[y..]))
    && (|line| <= MAX_PART ==> g == [TrimCR(line)])
  }

  ghost predicate Groups(pushed: seq<string>, lines: seq<string>)
    decreases |lines|
  {
    if lines == [] then pushed == []
    else exists i: nat :: i <= |pushed| && Groups(pushed[..i], lines[..|lines|-1]) && GroupOf(pushed[i..], lines[|lines|-1])
  }

  lemma GroupsMore(pushed: seq<string>, lines: seq<string>, g: seq<string>, line: string)
    requires Groups(pushed, lines) && GroupOf(g, line)
    ensures Groups(pushed + g, lines + [line])
  {
    hide GroupOf;
    var all := pushed + g;
    assert all[..|pushed|] == pushed && all[|pushed|..] == g;
    assert (lines + [line])[..|lines|] == lines;
  }

  lemma OneGroup(line: string)
    ensures GroupOf([TrimCR(line)], line)
  {
    hide TrimCR;
    assert line[0..] == line;
  }

  lemma {:induction false} GroupsOfLines(pushed: seq<string>, lines: seq<string>, more: seq<string>)
    requires Groups(pushed, lines)
    ensures Groups(pushed + Trims(more), lines + more)
  {
    hide TrimCR;
    if more == [] {
      assert pushed + Trims(more) == pushed && lines + more == lines;
    } else {
      hide Groups, GroupOf;
      var init, last := more[..|more|-1], more[|more|-1];
      GroupsOfLines(pushed, lines, init);
      OneGroup(last);
      GroupsMore(pushed + Trims(init), lines + init, [TrimCR(last)], last);
      Regroup(pushed, Trims(init), [TrimCR(last)]);
      PeelLast(lines, more);
    }
  }

  lemma PiecesAndRest(pieces: seq<string>, x: string, rest: string)
    requires if x == "" then pieces == [] else |x| > MAX_PART
    ensures GroupOf(pieces + [TrimCR(rest)], x + rest)
  {
    hide TrimCR;
    var g := pieces + [TrimCR(rest)];
    assert (x + rest)[|x|..] == rest;
    assert g[|g|-1] == TrimCR((x + rest)[|x|..]);
    if x == "" {
      assert x + rest == rest && g == [TrimCR(rest)];
    }
  }

  /** How the entries pushed so far come from the stream so far: groups for the finished lines, then
      `pieces` flushed from the unfinished one, `x` being their text. */
  ghost predicate Explains(u: Cut, raw: Cut, done: seq<string>, pieces: seq<string>, x: string) {
    && u.lines == done + pieces && raw.part == x + u.part && Groups(done, raw.lines)
    && (if x == "" then pieces == [] else |x| > MAX_PART && (|x| == MAX_PART + 1 ==> pieces == [x]))
  }

  lemma {:induction false} Explanation(chunks: seq<string>) returns (done: seq<string>, pieces: seq<string>, x: string)
    ensures Explains(Unbounded(chunks), Raw(Concat(chunks)), done, pieces, x)
    decreases |chunks|
  {
    done, pieces, x := [], [], "";
    if chunks != [] {
      hide Explains, Raw, WriteAll;
      done, pieces, x := Explanation(chunks[..|chunks|-1]);
      var u, raw, p := Unbounded(chunks[..|chunks|-1]), Raw(Concat(chunks[..|chunks|-1])), chunks[|chunks|-1];
      RawResumes(Concat(chunks[..|chunks|-1]), p);
      RawHasNoNewline(Concat(chunks[..|chunks|-1]));
      done, pieces, x := ExplainWrite(u, raw, p, done, pieces, x);
    }
  }

  lemma ExplainWrite(u: Cut, raw: Cut, p: string, done: seq<string>, pieces: seq<string>, x: string)
    returns (done': seq<string>, pieces': seq<string>, x': string)
    requires Explains(u, raw, done, pieces, x) && '\n' !in raw.part
    ensures var r := Raw(raw.part + p); Explains(WriteAll(u, p), Cut(raw.lines + r.lines, r.part), done', pieces', x')
  {
    hide Groups, Raw, Scan, Explains;
    var t := u.part + p;
    ScanOfRaw(t);
    TextSoFar(u, raw, p, done, pieces, x);
    var r := Raw(t);
    var u1, raw1 := Cut(u.lines + Trims(r.lines), r.part), Cut(raw.lines + Raw(x + t).lines, Raw(x + t).part);
    if r.lines == [] {
      done', pieces', x' := done, pieces, x;
      ExplainPart(u, raw, t, done, pieces, x);
    } else {
      done', pieces', x' := done + (pieces + [TrimCR(r.lines[0])]) + Trims(r.lines[1..]), [], "";
      ExplainLines(u, raw, t, done, pieces, x);
    }
    if |r.part| > MAX_PART {
      ExplainFlush(u1, raw1, done', pieces', x');
      pieces', x' := pieces' + [r.part], x' + r.part;
    }
  }

  lemma TextSoFar(u: Cut, raw: Cut, p: string, done: seq<string>, pieces: seq<string>, x: string)
    requires Explains(u, raw, done, pieces, x)
    ensures raw.part + p == x + (u.part + p)
  {
    hide Groups;
  }

  lemma ExplainPart(u: Cut, raw: Cut, t: string, done: seq<string>, pieces: seq<string>, x: string)
    requires Explains(u, raw, done, pieces, x) && '\n' !in raw.part && Raw(t).lines == []
    ensures Explains(Cut(u.lines + Trims([]), Raw(t).part), Cut(raw.lines + Raw(x + t).lines, Raw(x + t).part), done, pieces, x)
  {
    hide Groups, Raw;
    RawAfter(x, t);
    assert raw.lines + [] == raw.lines && u.lines + [] == u.lines;
  }

  lemma ExplainLines(u: Cut, raw: Cut, t: string, done: seq<string>, pieces: seq<string>, x: string)
    requires Explains(u, raw, done, pieces, x) && '\n' !in raw.part && Raw(t).lines != []
    ensures var r := Raw(t);
            Explains(Cut(u.lines + Trims(r.lines), r.part), Cut(raw.lines + Raw(x + t).lines, Raw(x + t).part),
                     done + (pieces + [TrimCR(r.lines[0])]) + Trims(r.lines[1..]), [], "")
  {
    hide Groups, Raw, TrimCR, GroupOf, Trims;
    RawAfter(x, t);
    var r := Raw(t);
    var first, rest := r.lines[0], r.lines[1..];
    PiecesAndRest(pieces, x, first);
    GroupsMore(done, raw.lines, pieces + [TrimCR(first)], x + first);
    GroupsOfLines(done + (pieces + [TrimCR(first)]), raw.lines + [x + first], rest);
    assert r.lines == [first] + rest;
    TrimsConcat([first], rest);
    TrimsOne(first);
    Reassociate(raw.lines, [], x + first, rest);
    Reassociate(done, pieces, TrimCR(first), Trims(rest));
    assert "" + r.part == r.part;
  }

  lemma Reassociate(a: seq<string>, b: seq<string>, x: string, c: seq<string>)
    ensures a + b + ([x] + c) == a + (b + [x]) + c && a + (b + [x]) + c + [] == a + (b + [x]) + c
    ensures a + ([x] + c) == a + [x] + c
  {
  }

  lemma TrimsOne(line: string)
    ensures Trims([line]) == [TrimCR(line)]
  {
    hide TrimCR;
    assert [line][..0] == [];
  }

  lemma ExplainFlush(u: Cut, raw: Cut, done: seq<string>, pieces: seq<string>, x: string)
    requires Explains(u, raw, done, pieces, x) && |u.part| > MAX_PART
    ensures Explains(Cut(u.lines + [u.part], ""), raw, done, pieces + [u.part], x + u.part)
  {
    hide Groups;
    assert done + pieces + [u.part] == done + (pieces + [u.part]);
    assert x + u.part + "" == x + u.part;
    if x == "" {
      assert x + u.part == u.part && pieces + [u.part] == [u.part];
    }
  }

  // ---------------------------------------------------------------- the lines a caller sees

  /** An overlong line does no harm where the ring begins, if nothing of it but carriage returns shows. */
  ghost predicate Harmless(n: nat, lines: seq<string>, k: nat)
    requires k < |lines|
  {
    |lines[k]| <= MAX_PART || (k + n == |lines| && TrimCR(lines[k]) == "")
  }

  /** What a caller can check of a stream: neither its unfinished line nor any of the last n lines is
      overlong. */
  ghost predicate TailFits(n: nat, stream: string) {
    var raw := Raw(stream);
    |raw.part| <= MAX_PART && LastHarmless(n, raw.lines)
  }

  ghost predicate LastHarmless(n: nat, lines: seq<string>) {
    forall k: nat | k < |lines| && k + n >= |lines| :: Harmless(n, lines, k)
  }

  lemma LastHarmlessInit(n: nat, lines: seq<string>)
    requires LastHarmless(n, lines) && n > 0 && lines != []
    ensures LastHarmless(n - 1, lines[..|lines|-1]) && Harmless(n, lines, |lines| - 1)
  {
    hide TrimCR;
    var init := lines[..|lines|-1];
    forall k: nat {:trigger Harmless(n - 1, init, k)} | k < |init| && k + (n - 1) >= |init| ensures Harmless(n - 1, init, k) {
      assert Harmless(n, lines, k) && init[k] == lines[k];
    }
  }

  /** The ring and the part are those of the whole stream. */
  ghost predicate TailIsExact(n: nat, chunks: seq<string>) {
    var c := Scan(Concat(chunks));
    AfterAll(n, chunks) == Cut(LastN(c.lines, n), c.part)
  }

  lemma {:induction false} CarriageReturnsTrimAway(s: string, y: nat)
    requires TrimCR(s) == "" && y <= |s|
    ensures TrimCR(s[y..]) == ""
    decreases |s|
  {
    if y < |s| {
      assert s[|s|-1] == '\r';
      CarriageReturnsTrimAway(s[..|s|-1], y);
      assert s[y..][..|s[y..]|-1] == s[..|s|-1][y..];
    } else {
      assert s[y..] == "";
    }
  }

  lemma {:induction false} GroupsTail(n: nat, pushed: seq<string>, lines: seq<string>)
    requires Groups(pushed, lines) && LastHarmless(n, lines)
    ensures LastN(pushed, n) == LastN(Trims(lines), n)
    decreases |lines|
  {
    if n > 0 && lines != [] {
      hide TrimCR, Harmless, LastHarmless, LastN, GroupOf, Groups;
      var init, last := lines[..|lines|-1], lines[|lines|-1];
      var i := GroupStart(pushed, lines);
      LastHarmlessInit(n, lines);
      if |last| <= MAX_PART {
        GroupsTail(n - 1, pushed[..i], init);
        LastGroup(n, pushed[..i], pushed[i..], Trims(init), last);
      } else {
        LastShown(n, lines, pushed[..i], pushed[i..]);
      }
    }
  }

  lemma GroupStart(pushed: seq<string>, lines: seq<string>) returns (i: nat)
    requires Groups(pushed, lines) && lines != []
    ensures i <= |pushed| && Groups(pushed[..i], lines[..|lines|-1]) && GroupOf(pushed[i..], lines[|lines|-1])
    ensures pushed == pushed[..i] + pushed[i..]
  {
    hide GroupOf;
    i :| i <= |pushed| && Groups(pushed[..i], lines[..|lines|-1]) && GroupOf(pushed[i..], lines[|lines|-1]);
  }

  lemma LastGroup(n: nat, pushed: seq<string>, g: seq<string>, trims: seq<string>, line: string)
    requires n > 0 && LastN(pushed, n - 1) == LastN(trims, n - 1) && GroupOf(g, line) && |line| <= MAX_PART
    ensures LastN(pushed + g, n) == LastN(trims + [TrimCR(line)], n)
  {
    hide TrimCR, LastN;
    LastNPlus(pushed, TrimCR(line), n);
    LastNPlus(trims, TrimCR(line), n);
  }

  lemma LastShown(n: nat, lines: seq<string>, pushed: seq<string>, g: seq<string>)
    requires lines != [] && Harmless(n, lines, |lines| - 1) && |lines[|lines|-1]| > MAX_PART
    requires n > 0 && GroupOf(g, lines[|lines|-1])
    ensures LastN(pushed + g, n) == LastN(Trims(lines), n)
  {
    var last := lines[|lines|-1];
    var y: nat :| y <= |last| && g[|g|-1] == TrimCR(last[y..]);
    CarriageReturnsTrimAway(last, y);
    hide TrimCR;
    assert n == 1;
    assert (pushed + g)[|pushed + g|-1] == "" && Trims(lines)[|lines|-1] == "";
  }

  lemma LastNPlus(s: seq<string>, line: string, n: nat)
    requires n > 0
    ensures LastN(s + [line], n) == LastN(s, n - 1) + [line]
  {
  }

  /** A stream whose tail fits is exact however it is cut. */
  lemma FittingIsExact(n: nat, chunks: seq<string>)
    requires TailFits(n, Concat(chunks))
    ensures TailIsExact(n, chunks)
  {
    hide Raw, Scan, Groups, AfterAll, Unbounded, LastN;
    var stream := Concat(chunks);
    var done, pieces, x := Explanation(chunks);
    RingOfUnbounded(n, chunks);
    ScanOfRaw(stream);
    GroupsTail(n, done, Raw(stream).lines);
    assert x == "" && done + [] == done && "" + Unbounded(chunks).part == Unbounded(chunks).part;
  }

  // ---------------------------------------------------------------- and what goes wrong otherwise

  /** Line k of a stream, and the stream before and after it. */
  lemma {:induction false} LineAt(stream: string, k: nat) returns (a: string, b: string)
    requires k < |Raw(stream).lines|
    ensures stream == a + Raw(stream).lines[k] + "\n" + b && '\n' !in Raw(stream).lines[k]
    ensures Raw(a) == Cut(Raw(stream).lines[..k], "")
    ensures Raw(b) == Cut(Raw(stream).lines[k+1..], Raw(stream).part)
  {
    RawHasNoNewline(stream);
    var init, last := stream[..|stream|-1], stream[|stream|-1];
    var c := Raw(init);
    assert stream == init + [last];
    if last == '\n' && k == |c.lines| {
      a := BeforePart(init);
      b := "";
      assert stream == a + c.part + "\n" + b;
    } else {
      a, b := LineAt(init, k);
      assert init + [last] == a + c.lines[k] + "\n" + (b + [last]);
      assert (b + [last])[..|b|] == b;
      b := b + [last];
      assert last == '\n' ==> (c.lines + [c.part])[k+1..] == c.lines[k+1..] + [c.part];
      assert last == '\n' ==> (c.lines + [c.part])[..k] == c.lines[..k];
    }
  }

  lemma {:induction false} BeforePart(s: string) returns (a: string)
    ensures s == a + Raw(s).part && Raw(a) == Cut(Raw(s).lines, "")
  {
    if s == "" {
      a := "";
    } else if s[|s|-1] == '\n' {
      a := s;
    } else {
      a := BeforePart(s[..|s|-1]);
      assert s == s[..|s|-1] + [s[|s|-1]];
    }
  }

  /** An overlong unfinished line is flushed by a single write of the whole stream. */
  lemma OverlongPartShows(n: nat, stream: string)
    requires |Raw(stream).part| > MAX_PART
    ensures Concat([stream]) == stream && !TailIsExact(n, [stream])
  {
    OneChunk(n, stream);
    ScanOfRaw(stream);
    hide Raw, Scan;
  }

  lemma OneChunk(n: nat, p: string)
    ensures Concat([p]) == p && AfterAll(n, [p]) == AfterWrite(n, [], "", p)
  {
    var none: seq<string> := [];
    assert [p][..0] == none && "" + p == p;
  }

  lemma TwoChunks(n: nat, p: string, q: string)
    ensures Concat([p, q]) == p + q
    ensures var c := AfterWrite(n, [], "", p); AfterAll(n, [p, q]) == AfterWrite(n, c.lines, c.part, q)
  {
    hide AfterWrite;
    OneChunk(n, p);
    assert [p, q][..1] == [p];
  }

  /** An overlong finished line is flushed by a write that ends just before its newline. */
  lemma CutAtLine(n: nat, a: string, line: string, b: string)
    requires '\n' !in line && |line| > MAX_PART && Raw(a).part == "" && |Raw(b).part| <= MAX_PART
    ensures AfterAll(n, [a + line, "\n" + b]) ==
            Cut(LastN(Trims(Raw(a).lines) + [line] + [""] + Trims(Raw(b).lines), n), Raw(b).part)
  {
    hide Raw, Scan, LastN, TrimCR;
    var x, y := Trims(Raw(a).lines), Trims(Raw(b).lines);
    FirstHalf(a, line);
    SecondHalf(b);
    TwoChunks(n, a + line, "\n" + b);
    assert "" + (a + line) == a + line && "" + ("\n" + b) == "\n" + b;
    assert [] + x == x;
    LastNTwice(x, [line], n);
    LastNTwice(x + [line], [""] + y, n);
    assert x + [line] + ([""] + y) == x + [line] + [""] + y;
  }

  lemma FirstHalf(a: string, line: string)
    requires '\n' !in line && Raw(a).part == ""
    ensures Scan(a + line) == Cut(Trims(Raw(a).lines), line)
  {
    hide Raw, TrimCR;
    RawResumes(a, line);
    assert "" + line == line;
    RawNoNewline(line);
    assert Raw(a).lines + [] == Raw(a).lines;
    ScanOfRaw(a + line);
  }

  lemma SecondHalf(b: string)
    ensures Scan("\n" + b) == Cut([""] + Trims(Raw(b).lines), Raw(b).part)
  {
    var nl := "\n";
    assert nl[..0] == "" && Raw(nl) == Cut([""], "");
    RawResumes(nl, b);
    assert "" + b == b;
    hide Raw;
    ScanOfRaw(nl + b);
    TrimsConcat([""], Raw(b).lines);
    TrimsOne("");
  }

  lemma {:induction false} TrimmedEnds(s: string)
    ensures var t := TrimCR(s); t == "" || t[|t|-1] != '\r'
  {
    if s != "" && s[|s|-1] == '\r' {
      TrimmedEnds(s[..|s|-1]);
    }
  }

  lemma {:induction false} TrimsToNothing(s: string)
    requires TrimCR(s) == "" && s != ""
    ensures s[|s|-1] == '\r'
  {
  }

  /** Two rings that differ: the line flushed raw and then an empty rest, against the line itself. */
  lemma RingsDiffer(n: nat, before: seq<string>, line: string, after: seq<string>)
    requires |after| < n && line != "" && (TrimCR(line) == "" ==> |after| + 1 < n)
    requires forall l | l in before :: l == "" || l[|l|-1] != '\r'
    ensures LastN(before + [line] + [""] + after, n) != LastN(before + [TrimCR(line)] + after, n)
  {
    hide LastN, TrimCR;
    var p, q := before + [line] + [""] + after, before + [TrimCR(line)] + after;
    var m := |after|;
    assert p[|p|-1-m] == "" && q[|q|-1-m] == TrimCR(line);
    LastNAt(p, n, m);
    LastNAt(q, n, m);
    if TrimCR(line) == "" {
      TrimsToNothing(line);
      assert p[|p|-2-m] == line;
      LastNAt(p, n, m + 1);
      if before != [] {
        assert before[|before|-1] in before;
        assert q[|q|-2-m] == before[|before|-1];
        LastNAt(q, n, m + 1);
      }
    }
  }

  lemma LastNAt(s: seq<string>, n: nat, m: nat)
    requires m < n && m < |s|
    ensures var x := LastN(s, n); m < |x| && x[|x|-1-m] == s[|s|-1-m] && (|s| <= n ==> |x| == |s|)
  {
  }

  lemma OverlongLineShows(n: nat, stream: string, k: nat) returns (chunks: seq<string>)
    requires |Raw(stream).part| <= MAX_PART && k < |Raw(stream).lines| && k + n >= |Raw(stream).lines|
    requires !Harmless(n, Raw(stream).lines, k)
    ensures Concat(chunks) == stream && !TailIsExact(n, chunks)
  {
    hide Raw, Scan, LastN, TrimCR, AfterAll;
    var lines := Raw(stream).lines;
    var a, b := LineAt(stream, k);
    var line := lines[k];
    chunks := [a + line, "\n" + b];
    TwoChunks(n, a + line, "\n" + b);
    assert a + line + ("\n" + b) == a + line + "\n" + b;
    CutAtLine(n, a, line, b);
    ScanOfRaw(stream);
    assert lines == lines[..k] + [line] + lines[k+1..];
    TrimsConcat(lines[..k] + [line], lines[k+1..]);
    TrimsConcat(lines[..k], [line]);
    TrimsOne(line);
    TrimsEnd(lines[..k]);
    RingsDiffer(n, Trims(lines[..k]), line, Trims(lines[k+1..]));
  }

  lemma TrimsEnd(lines: seq<string>)
    ensures forall l | l in Trims(lines) :: l == "" || l[|l|-1] != '\r'
  {
    hide TrimCR;
    forall l | l in Trims(lines) ensures l == "" || l[|l|-1] != '\r' {
      var i :| 0 <= i < |lines| && Trims(lines)[i] == l;
      TrimmedEnds(lines[i]);
    }
  }

  /** The whole-stream statement, exactly: every way to cut a stream into writes leaves the ring and
      the part of the whole stream if and only if its tail fits. */
  lemma ExactForEveryCutting(n: nat, stream: string)
    ensures (forall chunks | Concat(chunks) == stream :: TailIsExact(n, chunks)) <==> TailFits(n, stream)
  {
    hide Raw, TailIsExact, Harmless, Concat;
    if TailFits(n, stream) {
      forall chunks | Concat(chunks) == stream ensures TailIsExact(n, chunks) {
        FittingIsExact(n, chunks);
      }
    } else if |Raw(stream).part| > MAX_PART {
      OverlongPartShows(n, stream);
    } else {
      var k: nat :| k < |Raw(stream).lines| && k + n >= |Raw(stream).lines| && !Harmless(n, Raw(stream).lines, k);
      var chunks := OverlongLineShows(n, stream, k);
    }
  }
}
