/** The bounded tail of a command's output. */
module TailRing {
  import opened Common

  /** A part longer than this is flushed as a line of its own. */
  const MAX_PART := 0x100000

  /** A stream cut at newlines: the finished lines, carriage returns trimmed, and the rest. */
  datatype Cut = Cut(lines: seq<string>, part: string)

  function Scan(stream: string): Cut {
    if stream == "" then Cut([], "")
    else
      var c := Scan(stream[..|stream|-1]);
      if stream[|stream|-1] == '\n' then Cut(c.lines + [TrimCR(c.part)], "")
      else c.(part := c.part + [stream[|stream|-1]])
  }

  function LastN<T>(s: seq<T>, n: nat): seq<T> {
    if |s| > n then s[|s|-n..] else s
  }

  /** What one `Write` makes of the ring and the unfinished part. */
  function AfterWrite(n: nat, ring: seq<string>, part: string, p: string): Cut {
    var c := Scan(part + p);
    var lines := LastN(ring + c.lines, n);
    if |c.part| > MAX_PART then Cut(LastN(lines + [c.part], n), "") else Cut(lines, c.part)
  }

  lemma {:induction false} NoNewline(s: string)
    requires '\n' !in s
    ensures Scan(s) == Cut([], s)
  {
    if s != "" {
      NoNewline(s[..|s|-1]);
      assert s == s[..|s|-1] + [s[|s|-1]];
    }
  }

  lemma {:induction false} PartHasNoNewline(s: string)
    ensures '\n' !in Scan(s).part
  {
    if s != "" {
      PartHasNoNewline(s[..|s|-1]);
    }
  }

  /** Scanning can resume from the unfinished part. */
  lemma {:induction false} ScanResumes(a: string, b: string)
    ensures Scan(a + b) == Cut(Scan(a).lines + Scan(Scan(a).part + b).lines, Scan(Scan(a).part + b).part)
  {
    hide TrimCR;
    if b == "" {
      assert a + b == a && Scan(a).part + b == Scan(a).part;
      PartHasNoNewline(a);
      NoNewline(Scan(a).part);
      assert Scan(a).lines + [] == Scan(a).lines;
    } else {
      var init, last := b[..|b|-1], b[|b|-1];
      ScanResumes(a, init);
      assert (a + b)[..|a + b|-1] == a + init;
      assert (Scan(a).part + b)[..|Scan(a).part + b|-1] == Scan(a).part + init;
      var c := Scan(Scan(a).part + init);
      assert Scan(a).lines + (c.lines + [TrimCR(c.part)]) == Scan(a).lines + c.lines + [TrimCR(c.part)];
    }
  }

  lemma LastNTwice<T>(a: seq<T>, b: seq<T>, n: nat)
    ensures LastN(LastN(a, n) + b, n) == LastN(a + b, n)
  {
  }

  /** The last n lines of a stream: finished lines, and the unfinished one as it stands. */
  function TailOf(stream: string, n: nat): string {
    var c := Scan(stream);
    Join(LastN(c.lines + (if c.part == "" then [] else [c.part]), n), "\n")
  }

  lemma LastNMore(ring: seq<string>, lines: seq<string>, line: string, n: nat)
    ensures LastN(LastN(ring + lines, n) + [line], n) == LastN(ring + (lines + [line]), n)
  {
    LastNTwice(ring + lines, [line], n);
    assert ring + lines + [line] == ring + (lines + [line]);
  }

  lemma LastNBound(lines: seq<string>, n: nat)
    ensures |LastN(lines, n)| <= n
    ensures forall line :: |LastN(LastN(lines, n) + [line], n)| <= n
  {
  }

  lemma NothingDone(ring: seq<string>, n: nat, part: string)
    requires |ring| <= n
    ensures Scan("") == Cut([], "") && ring == LastN(ring + [], n) && part == "" + part
  {
    assert ring + [] == ring;
  }

  lemma NextLine(done: string, part: string, i: nat)
    requires i < |part| && part[i] == '\n' && '\n' !in part[..i] && Scan(done).part == ""
    ensures Scan(done + part[..i+1]) == Cut(Scan(done).lines + [TrimCR(part[..i])], "")
    ensures done + part == done + part[..i+1] + part[i+1..]
  {
    hide Scan, TrimCR;
    ScanLine(part[..i]);
    assert part[..i] + "\n" == part[..i+1] && "" + part[..i+1] == part[..i+1];
    ScanResumes(done, part[..i+1]);
  }

  lemma ScanLine(s: string)
    requires '\n' !in s
    ensures Scan(s + "\n") == Cut([TrimCR(s)], "")
  {
    hide TrimCR;
    NoNewline(s);
    assert (s + "\n")[..|s|] == s;
  }

  lemma LastPart(done: string, part: string, lines: seq<string>)
    requires Scan(done) == Cut(lines, "") && '\n' !in part
    ensures Scan(done + part) == Cut(lines, part)
  {
    hide Scan, TrimCR;
    NoNewline(part);
    ScanResumes(done, part);
    assert "" + part == part;
    assert lines + [] == lines;
  }

  /** `tailWriter`. */
  class TailWriter {
    const n: nat
    var ring: seq<string>
    var part: string

    constructor (n: nat)
      ensures Valid() && this.n == n && ring == [] && part == ""
    {
      this.n := n;
      ring, part := [], "";
    }

    ghost predicate Valid()
      reads this
    {
      |ring| <= n && '\n' !in part
    }

    /** `Write` splits off finished lines one by one and flushes an overlong rest. */
    method Write(p: string)
      requires Valid()
      modifies this
      ensures Valid() && Cut(ring, part) == AfterWrite(n, old(ring), old(part), p)
    {
      hide Scan, TrimCR, LastN;
      part := part + p;
      ghost var whole := part;
      ghost var done: string, lines: seq<string> := "", [];
      NothingDone(ring, n, part);
      var i: Option<nat> := IndexNewline(part);
      while i.Some?
        invariant i.Some? ==> i.value < |part| && part[i.value] == '\n' && '\n' !in part[..i.value]
        invariant i.None? ==> '\n' !in part
        invariant whole == done + part && Scan(done) == Cut(lines, "")
        invariant ring == LastN(old(ring) + lines, n)
        decreases |part|
      {
        var line := part[..i.value];
        NextLine(done, part, i.value);
        LastNMore(old(ring), lines, TrimCR(line), n);
        Push(TrimCR(line));
        done, lines := done + part[..i.value+1], lines + [TrimCR(line)];
        part := part[i.value+1..];
        i := IndexNewline(part);
      }
      LastPart(done, part, lines);
      if |part| > MAX_PART {
        Push(part);
        part := "";
      }
      LastNBound(old(ring) + lines, n);
    }

    /** `push`. */
    method Push(line: string)
      modifies this`ring
      ensures ring == LastN(old(ring) + [line], n)
    {
      ring := ring + [line];
      if |ring| > n {
        ring := ring[|ring|-n..];
      }
    }

    /** `String`. */
    method Text() returns (s: string)
      requires Valid()
      ensures s == Join(LastN(ring + (if part == "" then [] else [part]), n), "\n")
    {
      var out := ring;
      assert ring + [] == ring;
      if |part| > 0 {
        out := out + [part];
        if |out| > n {
          out := out[|out|-n..];
        }
      }
      s := Join(out, "\n");
    }
  }

  /** `lineWriter`; `lines` records the calls of its callback. */
  class LineWriter {
    var lines: seq<string>
    var buf: string

    constructor ()
      ensures lines == [] && buf == ""
    {
      lines, buf := [], "";
    }

    method Write(p: string)
      modifies this
      ensures Cut(lines, buf) == AfterLineWrite(Cut(old(lines), old(buf)), p)
    {
      hide Scan, TrimCR;
      buf := buf + p;
      ghost var whole := buf;
      ghost var done: string, new': seq<string> := "", [];
      NothingDone([], 0, buf);
      assert lines + [] == lines;
      var i: Option<nat> := IndexNewline(buf);
      while i.Some?
        invariant i.Some? ==> i.value < |buf| && buf[i.value] == '\n' && '\n' !in buf[..i.value]
        invariant i.None? ==> '\n' !in buf
        invariant whole == done + buf && Scan(done) == Cut(new', "") && lines == old(lines) + new'
        decreases |buf|
      {
        var line := buf[..i.value];
        NextLine(done, buf, i.value);
        lines := lines + [TrimCR(line)];
        done, new' := done + buf[..i.value+1], new' + [TrimCR(line)];
        buf := buf[i.value+1..];
        i := IndexNewline(buf);
      }
      LastPart(done, buf, new');
    }
  }

  function AfterLineWrite(c: Cut, p: string): Cut {
    var more := Scan(c.part + p);
    Cut(c.lines + more.lines, more.part)
  }

  function AfterLineWrites(chunks: seq<string>): Cut {
    if chunks == [] then Cut([], "") else AfterLineWrite(AfterLineWrites(chunks[..|chunks|-1]), chunks[|chunks|-1])
  }

  /** The callback gets the finished lines of the whole stream, however it is cut into writes and
      however long its lines are. */
  lemma {:induction false} CallbackSeesEveryLine(chunks: seq<string>)
    ensures AfterLineWrites(chunks) == Scan(Concat(chunks))
  {
    hide TrimCR;
    if chunks != [] {
      var init, last := chunks[..|chunks|-1], chunks[|chunks|-1];
      CallbackSeesEveryLine(init);
      ScanResumes(Concat(init), last);
    }
  }

  /** `bytes.IndexByte(part, '\n')`. */
  method IndexNewline(s: string) returns (i: Option<nat>)
    ensures i.Some? ==> i.value < |s| && s[i.value] == '\n' && '\n' !in s[..i.value]
    ensures i.None? ==> '\n' !in s
  {
    for k := 0 to |s|
      invariant '\n' !in s[..k]
    {
      if s[k] == '\n' {
        return Some(k);
      }
    }
    return None;
  }

  /** The writer's state, ring and part, after writing the chunks one after the other. */
  function AfterAll(n: nat, chunks: seq<string>): Cut {
    if chunks == [] then Cut([], "")
    else
      var c := AfterAll(n, chunks[..|chunks|-1]);
      AfterWrite(n, c.lines, c.part, chunks[|chunks|-1])
  }

  function Concat(chunks: seq<string>): string {
    if chunks == [] then "" else Concat(chunks[..|chunks|-1]) + chunks[|chunks|-1]
  }

  /** At no point of the stream is the current line longer than a part may be. */
  ghost predicate NoLongLine(stream: string) {
    forall k | 0 <= k <= |stream| :: |Scan(stream[..k]).part| <= MAX_PART
  }

  /** A write keeps the ring and the part what the whole stream says they are exactly when it does
      not end inside an overlong line. */
  lemma WriteExactIffNotFlushed(n: nat, stream: string, p: string)
    ensures var whole := Scan(stream + p);
            AfterWrite(n, LastN(Scan(stream).lines, n), Scan(stream).part, p) == Cut(LastN(whole.lines, n), whole.part)
            <==> |whole.part| <= MAX_PART
  {
    ScanResumes(stream, p);
    LastNTwice(Scan(stream).lines, Scan(Scan(stream).part + p).lines, n);
  }

  /** Chunking does not matter: however a stream without overlong lines is cut into writes, the ring
      and the part are those of the whole stream, and `String` is its last n lines. */
  lemma {:induction false} ChunkingIndependent(n: nat, chunks: seq<string>)
    requires NoLongLine(Concat(chunks))
    ensures var c := Scan(Concat(chunks)); AfterAll(n, chunks) == Cut(LastN(c.lines, n), c.part)
    ensures var s := AfterAll(n, chunks);
            Join(LastN(s.lines + (if s.part == "" then [] else [s.part]), n), "\n") == TailOf(Concat(chunks), n)
  {
    var c := Scan(Concat(chunks));
    if chunks != [] {
      var init, last := chunks[..|chunks|-1], chunks[|chunks|-1];
      var stream, whole := Concat(init), Concat(chunks);
      assert whole[..|stream|] == stream && whole[..|whole|] == whole;
      forall k | 0 <= k <= |stream| ensures |Scan(stream[..k]).part| <= MAX_PART {
        assert whole[..k] == stream[..k];
      }
      ChunkingIndependent(n, init);
      WriteExactIffNotFlushed(n, stream, last);
    }
    LastNTwice(c.lines, if c.part == "" then [] else [c.part], n);
  }

  /** With an overlong line chunking does show: the same bytes in one write or in two leave the
      writer in different states. */
  lemma OverlongLineShowsChunking(n: nat, line: string)
    requires n >= 1 && '\n' !in line && |line| > MAX_PART && TrimCR(line) != ""
    ensures Concat([line + "\n"]) == Concat([line, "\n"])
    ensures AfterAll(n, [line + "\n"]) != AfterAll(n, [line, "\n"])
  {
    hide Scan, TrimCR, LastN, AfterWrite;
    var none: seq<string> := [];
    assert [line + "\n"][..0] == none && [line, "\n"][..1] == [line] && [line][..0] == none;
    assert "" + (line + "\n") == line + "\n" && "" + line == line;
    OneWrite(n, line);
    TwoWrites(n, line);
    LastOf([line], "", n);
  }

  lemma LastOf(lines: seq<string>, line: string, n: nat)
    requires n >= 1
    ensures var r := LastN(lines + [line], n); r != [] && r[|r|-1] == line
  {
  }

  lemma OneWrite(n: nat, line: string)
    requires n >= 1 && '\n' !in line
    ensures AfterWrite(n, [], "", line + "\n") == Cut([TrimCR(line)], "")
  {
    hide Scan, TrimCR;
    ScanLine(line);
    assert "" + (line + "\n") == line + "\n";
    assert [] + [TrimCR(line)] == [TrimCR(line)];
  }

  lemma TwoWrites(n: nat, line: string)
    requires n >= 1 && '\n' !in line && |line| > MAX_PART
    ensures AfterWrite(n, [], "", line) == Cut([line], "")
    ensures AfterWrite(n, [line], "", "\n") == Cut(LastN([line] + [""], n), "")
  {
    hide Scan;
    NoNewline(line);
    assert "" + line == line && [] + [line] == [line];
    OneWriteAfter(n, line);
  }

  lemma OneWriteAfter(n: nat, line: string)
    requires n >= 1
    ensures AfterWrite(n, [line], "", "\n") == Cut(LastN([line] + [""], n), "")
  {
    var nl := "\n";
    assert "" + nl == nl && nl[..0] == "";
    assert Scan(nl) == Cut([""], "");
  }
}
