/** What `tailWriter.String` returns for a stream, and when that does not depend on how the stream is
    cut into writes. */
module TailText {
  import opened Common
  import opened TailRing
  import opened TailExact

  /** The unfinished line is shown only when there is one. */
  function Rest(part: string): seq<string> {
    if part == "" then [] else [part]
  }

  /** The lines `String` joins. */
  function Shown(n: nat, c: Cut): seq<string> {
    LastN(c.lines + Rest(c.part), n)
  }

  /** `String` returns the text of the whole stream's last n lines. */
  ghost predicate TextIsExact(n: nat, chunks: seq<string>) {
    Join(Shown(n, AfterAll(n, chunks)), "\n") == TailOf(Concat(chunks), n)
  }

  /** What a caller can check of a stream: the unfinished line is at most one over the limit, and none
      of the finished lines shown beside it is overlong. */
  ghost predicate TextFits(n: nat, stream: string) {
    var raw := Raw(stream);
    n == 0 || (|raw.part| <= MAX_PART + 1 && LastHarmless(n - |Rest(raw.part)|, raw.lines))
  }

  // ---------------------------------------------------------------- streams that fit

  lemma UnboundedPart(chunks: seq<string>)
    ensures |Unbounded(chunks).part| <= MAX_PART
  {
    hide Scan;
  }

  lemma TailOfRaw(stream: string, n: nat)
    ensures TailOf(stream, n) == Join(LastN(Trims(Raw(stream).lines) + Rest(Raw(stream).part), n), "\n")
  {
    ScanOfRaw(stream);
    hide Scan, Raw, Join, LastN;
  }

  lemma ShownAfterAll(n: nat, chunks: seq<string>)
    ensures var u := Unbounded(chunks); Shown(n, AfterAll(n, chunks)) == LastN(u.lines + Rest(u.part), n)
  {
    var u := Unbounded(chunks);
    RingOfUnbounded(n, chunks);
    hide Unbounded, AfterAll, LastN;
    LastNTwice(u.lines, Rest(u.part), n);
  }

  /** An unfinished line of one over the limit is flushed by its last character, as a whole. */
  lemma RestShown(u: Cut, raw: Cut, done: seq<string>, pieces: seq<string>, x: string)
    requires Explains(u, raw, done, pieces, x) && |u.part| <= MAX_PART && |raw.part| <= MAX_PART + 1
    ensures u.lines + Rest(u.part) == done + Rest(raw.part)
  {
    hide Groups;
    if x == "" {
      assert x + u.part == u.part && done + [] == done;
    } else {
      assert u.part == "" && raw.part == x;
      assert done + [x] + [] == done + [x];
    }
  }

  lemma SameTail(n: nat, done: seq<string>, trims: seq<string>, rest: seq<string>)
    requires |rest| <= n && |rest| <= 1 && LastN(done, n - |rest|) == LastN(trims, n - |rest|)
    ensures LastN(done + rest, n) == LastN(trims + rest, n)
  {
    hide LastN;
    if rest == [] {
      assert done + rest == done && trims + rest == trims;
    } else {
      assert rest == [rest[0]];
      LastNPlus(done, rest[0], n);
      LastNPlus(trims, rest[0], n);
    }
  }

  lemma FittingLists(n: nat, u: Cut, raw: Cut, done: seq<string>, pieces: seq<string>, x: string)
    requires Explains(u, raw, done, pieces, x) && |u.part| <= MAX_PART && n > 0
    requires |raw.part| <= MAX_PART + 1 && LastHarmless(n - |Rest(raw.part)|, raw.lines)
    ensures LastN(u.lines + Rest(u.part), n) == LastN(Trims(raw.lines) + Rest(raw.part), n)
  {
    hide LastN, Trims, Groups, LastHarmless;
    RestShown(u, raw, done, pieces, x);
    GroupsTail(n - |Rest(raw.part)|, done, raw.lines);
    hide Explains, Rest;
    SameTail(n, done, Trims(raw.lines), Rest(raw.part));
  }

  /** The entries pushed show the stream's last n lines. */
  lemma FittingShows(n: nat, chunks: seq<string>)
    requires n > 0 && TextFits(n, Concat(chunks))
    ensures var u, raw := Unbounded(chunks), Raw(Concat(chunks));
            LastN(u.lines + Rest(u.part), n) == LastN(Trims(raw.lines) + Rest(raw.part), n)
  {
    hide LastN, Raw, Explains, Unbounded, Trims, LastHarmless, Concat;
    UnboundedPart(chunks);
    var done, pieces, x := Explanation(chunks);
    FittingLists(n, Unbounded(chunks), Raw(Concat(chunks)), done, pieces, x);
  }

  lemma NothingShown(a: seq<string>, b: seq<string>)
    ensures LastN(a, 0) == LastN(b, 0)
  {
  }

  lemma FittingTextIsExact(n: nat, chunks: seq<string>)
    requires TextFits(n, Concat(chunks))
    ensures TextIsExact(n, chunks)
  {
    var u, raw := Unbounded(chunks), Raw(Concat(chunks));
    if n > 0 {
      FittingShows(n, chunks);
    } else {
      NothingShown(u.lines + Rest(u.part), Trims(raw.lines) + Rest(raw.part));
    }
    hide Raw, AfterAll, Unbounded, LastN, Concat, Trims, TextFits, Shown, TailOf, Join, Rest;
    ShownAfterAll(n, chunks);
    TailOfRaw(Concat(chunks), n);
  }

  // ---------------------------------------------------------------- telling texts apart

  ghost predicate NoNewlines(lines: seq<string>) {
    forall l | l in lines :: '\n' !in l
  }

  lemma {:induction false} SplitOfLines(lines: seq<string>)
    requires lines != [] && NoNewlines(lines)
    ensures Split(Join(lines, "\n"), '\n') == lines
  {
    var init, last := lines[..|lines|-1], lines[|lines|-1];
    assert lines == init + [last] && last in lines;
    OnePiece(last, '\n');
    JoinLast(init, last, "\n");
    hide Split, Join;
    if init != [] {
      SplitOfLines(init);
      SplitConcat(Join(init, "\n"), last, '\n');
    }
  }

  lemma LastNIn(lines: seq<string>, n: nat)
    requires n > 0 && lines != [] && NoNewlines(lines)
    ensures LastN(lines, n) != [] && NoNewlines(LastN(lines, n))
  {
  }

  /** Different lists of lines give different texts. */
  lemma TextsDiffer(n: nat, a: seq<string>, b: seq<string>)
    requires n > 0 && a != [] && b != [] && NoNewlines(a) && NoNewlines(b) && LastN(a, n) != LastN(b, n)
    ensures Join(LastN(a, n), "\n") != Join(LastN(b, n), "\n")
  {
    LastNIn(a, n);
    LastNIn(b, n);
    hide LastN, Join, NoNewlines;
    SplitOfLines(LastN(a, n));
    SplitOfLines(LastN(b, n));
  }

  lemma {:induction false} TrimKeepsOut(s: string)
    requires '\n' !in s
    ensures '\n' !in TrimCR(s)
  {
    if s != "" && s[|s|-1] == '\r' {
      TrimKeepsOut(s[..|s|-1]);
    }
  }

  lemma TrimsKeepOut(lines: seq<string>)
    requires NoNewlines(lines)
    ensures NoNewlines(Trims(lines))
  {
    hide TrimCR;
    forall l | l in Trims(lines) ensures '\n' !in l {
      var i :| 0 <= i < |lines| && Trims(lines)[i] == l;
      assert lines[i] in lines;
      TrimKeepsOut(lines[i]);
    }
  }

  lemma {:induction false} RawLinesHaveNone(stream: string)
    ensures NoNewlines(Raw(stream).lines) && '\n' !in Raw(stream).part
  {
    if stream != "" {
      RawLinesHaveNone(stream[..|stream|-1]);
    }
  }

  // ---------------------------------------------------------------- streams that do not

  lemma ShownAfterWrite(n: nat, ring: seq<string>, part: string, p: string)
    ensures var c := Scan(part + p); Shown(n, AfterWrite(n, ring, part, p)) == LastN(ring + (c.lines + Rest(c.part)), n)
  {
    hide Scan, LastN;
    var c := Scan(part + p);
    LastNTwice(ring + c.lines, Rest(c.part), n);
    Regroup(ring, c.lines, Rest(c.part));
    if |c.part| > MAX_PART {
      LastNTwice(LastN(ring + c.lines, n) + [c.part], [], n);
      assert LastN(ring + c.lines, n) + [c.part] + [] == LastN(ring + c.lines, n) + [c.part];
      assert LastN(LastN(ring + c.lines, n) + [c.part], n) + [] == LastN(LastN(ring + c.lines, n) + [c.part], n);
    }
  }

  /** A write that ends inside an overlong line, and another one. */
  lemma FlushShows(n: nat, a: string, line: string, q: string)
    requires '\n' !in line && |line| > MAX_PART && Raw(a).part == ""
    ensures var c := Scan(q);
            Shown(n, AfterAll(n, [a + line, q])) == LastN(Trims(Raw(a).lines) + [line] + (c.lines + Rest(c.part)), n)
  {
    hide Raw, Scan, LastN, TrimCR, Trims, Shown;
    var x, c := Trims(Raw(a).lines), Scan(q);
    FirstHalf(a, line);
    TwoChunks(n, a + line, q);
    assert "" + (a + line) == a + line && "" + q == q && [] + x == x;
    LastNTwice(x, [line], n);
    ShownAfterWrite(n, LastN(x + [line], n), "", q);
    LastNTwice(x + [line], c.lines + Rest(c.part), n);
  }

  /** Cutting the unfinished line before its last character. */
  lemma CutPart(n: nat, a: string, head: string, last: string)
    requires '\n' !in head + last && |head| > MAX_PART && last != "" && Raw(a).part == ""
    ensures Concat([a + head, last]) == a + (head + last)
    ensures Shown(n, AfterAll(n, [a + head, last])) == LastN(Trims(Raw(a).lines) + [head] + [last], n)
  {
    NewlineIn(head, last);
    hide Raw, Scan, LastN, AfterAll, Trims, Shown;
    NoNewline(last);
    TwoChunks(n, a + head, last);
    FlushShows(n, a, head, last);
    Regroup(a, head, last);
    assert [] + [last] == [last];
  }

  lemma NewlineIn(a: string, b: string)
    ensures '\n' in a + b <==> '\n' in a || '\n' in b
  {
  }

  lemma EndsDiffer(n: nat, lines: seq<string>, head: string, last: string, part: string)
    requires n > 0 && last != part && NoNewlines(lines) && '\n' !in head && '\n' !in last && '\n' !in part
    ensures Join(LastN(lines + [head] + [last], n), "\n") != Join(LastN(lines + [part], n), "\n")
  {
    NoNewlinesPlus(lines, head);
    NoNewlinesPlus(lines + [head], last);
    NoNewlinesPlus(lines, part);
    hide LastN, Join, NoNewlines;
    LastNPlus(lines + [head], last, n);
    LastNPlus(lines, part, n);
    assert LastN(lines + [head] + [last], n)[|LastN(lines + [head], n - 1)|] == last;
    TextsDiffer(n, lines + [head] + [last], lines + [part]);
  }

  /** An unfinished line of two or more over the limit is shown in two pieces. */
  lemma LongPartShows(n: nat, stream: string) returns (chunks: seq<string>)
    requires n > 0 && |Raw(stream).part| > MAX_PART + 1
    ensures Concat(chunks) == stream && !TextIsExact(n, chunks)
  {
    var raw := Raw(stream);
    RawLinesHaveNone(stream);
    var a := BeforePart(stream);
    var head, last := raw.part[..|raw.part|-1], raw.part[|raw.part|-1..];
    assert raw.part == head + last && |last| == 1;
    chunks := [a + head, last];
    hide Raw, LastN, AfterAll, Trims, Join, NoNewlines, Concat, Shown, TailOf;
    CutPart(n, a, head, last);
    TailOfRaw(stream, n);
    TrimsKeepOut(raw.lines);
    NewlineIn(head, last);
    EndsDiffer(n, Trims(raw.lines), head, last, raw.part);
  }

  lemma NoNewlinesPlus(lines: seq<string>, line: string)
    requires NoNewlines(lines) && '\n' !in line
    ensures NoNewlines(lines + [line])
  {
  }

  lemma NoNewlinesConcat(a: seq<string>, b: seq<string>)
    ensures NoNewlines(a + b) <==> NoNewlines(a) && NoNewlines(b)
  {
    assert forall l | l in a :: l in a + b;
    assert forall l | l in b :: l in a + b;
  }

  /** An overlong finished line that is shown, cut just before its newline. */
  lemma LongLineShows(n: nat, stream: string, k: nat) returns (chunks: seq<string>)
    requires n > 0 && k < |Raw(stream).lines| && k + n - |Rest(Raw(stream).part)| >= |Raw(stream).lines|
    requires !Harmless(n - |Rest(Raw(stream).part)|, Raw(stream).lines, k)
    ensures Concat(chunks) == stream && !TextIsExact(n, chunks)
  {
    hide Raw, Scan, LastN, TrimCR, AfterAll, Trims, Join, NoNewlines;
    var lines, rest := Raw(stream).lines, Rest(Raw(stream).part);
    var a, b := LineAt(stream, k);
    var line, x, y := lines[k], Trims(lines[..k]), Trims(lines[k+1..]);
    chunks := [a + line, "\n" + b];
    TwoChunks(n, a + line, "\n" + b);
    Regroup(a + line, "\n", b);
    SecondHalf(b);
    FlushShows(n, a, line, "\n" + b);
    TailOfRaw(stream, n);
    TrimsAround(lines, k);
    ListsDiffer(n, x, line, y, rest);
    RawLinesHaveNone(stream);
    AroundHaveNone(lines, k, Raw(stream).part);
    assert x + [line] + ([""] + y + rest) == x + [line] + [""] + y + rest;
    TextsDiffer(n, x + [line] + [""] + y + rest, x + [TrimCR(line)] + y + rest);
  }

  lemma TrimsAround(lines: seq<string>, k: nat)
    requires k < |lines|
    ensures Trims(lines) == Trims(lines[..k]) + [TrimCR(lines[k])] + Trims(lines[k+1..])
    ensures forall l | l in Trims(lines[..k]) :: l == "" || l[|l|-1] != '\r'
    ensures |Trims(lines[k+1..])| == |lines| - k - 1
  {
    hide TrimCR;
    TrimsEnd(lines[..k]);
    hide Trims;
    assert lines == lines[..k] + [lines[k]] + lines[k+1..];
    TrimsConcat(lines[..k] + [lines[k]], lines[k+1..]);
    TrimsConcat(lines[..k], [lines[k]]);
    TrimsOne(lines[k]);
  }

  lemma AroundHaveNone(lines: seq<string>, k: nat, part: string)
    requires k < |lines| && NoNewlines(lines) && '\n' !in part
    ensures NoNewlines(Trims(lines[..k]) + [lines[k]] + [""] + Trims(lines[k+1..]) + Rest(part))
    ensures NoNewlines(Trims(lines[..k]) + [TrimCR(lines[k])] + Trims(lines[k+1..]) + Rest(part))
  {
    assert lines[k] in lines;
    TrimKeepsOut(lines[k]);
    assert NoNewlines(lines[..k]) && NoNewlines(lines[k+1..]) && NoNewlines(Rest(part));
    hide TrimCR, Trims;
    TrimsKeepOut(lines[..k]);
    TrimsKeepOut(lines[k+1..]);
    var x, y := Trims(lines[..k]), Trims(lines[k+1..]);
    NoNewlinesPlus(x, lines[k]);
    NoNewlinesPlus(x + [lines[k]], "");
    NoNewlinesPlus(x, TrimCR(lines[k]));
    hide NoNewlines;
    NoNewlinesConcat(x + [lines[k]] + [""], y);
    NoNewlinesConcat(x + [lines[k]] + [""] + y, Rest(part));
    NoNewlinesConcat(x + [TrimCR(lines[k])], y);
    NoNewlinesConcat(x + [TrimCR(lines[k])] + y, Rest(part));
  }

  lemma ListsDiffer(n: nat, before: seq<string>, line: string, after: seq<string>, rest: seq<string>)
    requires |rest| <= 1 && |after| + |rest| < n && line != "" && (TrimCR(line) == "" ==> |after| + |rest| + 1 < n)
    requires forall l | l in before :: l == "" || l[|l|-1] != '\r'
    ensures LastN(before + [line] + [""] + after + rest, n) != LastN(before + [TrimCR(line)] + after + rest, n)
  {
    hide LastN, TrimCR;
    var p, q := before + [line] + [""] + after, before + [TrimCR(line)] + after;
    RingsDiffer(n - |rest|, before, line, after);
    if rest == [] {
      assert p + rest == p && q + rest == q;
    } else {
      assert rest == [rest[0]];
      LastNPlus(p, rest[0], n);
      LastNPlus(q, rest[0], n);
      AppendApart(LastN(p, n - 1), LastN(q, n - 1), rest[0]);
    }
  }

  lemma AppendApart(a: seq<string>, b: seq<string>, line: string)
    requires a != b
    ensures a + [line] != b + [line]
  {
    assert (a + [line])[..|a|] == a && (b + [line])[..|b|] == b;
    assert |a + [line]| == |a| + 1 && |b + [line]| == |b| + 1;
  }

  /** For the text a caller sees, exactly: every way to cut a stream into writes makes `String` return
      the last n lines of the whole stream if and only if what it shows of the stream fits. */
  lemma TextExactForEveryCutting(n: nat, stream: string)
    ensures (forall chunks | Concat(chunks) == stream :: TextIsExact(n, chunks)) <==> TextFits(n, stream)
  {
    hide Raw, TextIsExact, Harmless, Concat;
    if TextFits(n, stream) {
      forall chunks | Concat(chunks) == stream ensures TextIsExact(n, chunks) {
        FittingTextIsExact(n, chunks);
      }
    } else if |Raw(stream).part| > MAX_PART + 1 {
      var chunks := LongPartShows(n, stream);
    } else {
      var m := n - |Rest(Raw(stream).part)|;
      var k: nat :| k < |Raw(stream).lines| && k + m >= |Raw(stream).lines| && !Harmless(m, Raw(stream).lines, k);
      var chunks := LongLineShows(n, stream, k);
    }
  }
}
