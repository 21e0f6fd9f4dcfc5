/** The stable-ABI symbol table: what the generator emits, what the C preprocessor leaves of it,
    and what a lookup finds in the rest. */
module StaticApi {
  import opened Common

  datatype Kind = Function | Data

  datatype Item = Item(name: string, kind: Kind, ifdef: string, declared: bool, macroHidesFunc: bool)

  // ---------------------------------------------------------------- emitted lines and preprocessing

  /** The emitted lines that matter to the preprocessor or to the tables. */
  datatype Line =
    | Define(macro: string)
    | Undef(macro: string)
    | Ifdef(macro: string)
    | Endif
    | Declare(name: string, kind: Kind)
    | OpenTable(table: string)
    | Entry(name: string)
    | CloseTable                          // the NULL terminator and the count

  /** Preprocessing so far: defined macros, for each open #ifdef whether its group is processed,
      and the lines that survived. */
  datatype Pp = Pp(defs: set<string>, open: seq<bool>, out: seq<Line>)

  predicate Active(pp: Pp) {
    pp.open == [] || pp.open[|pp.open|-1]
  }

  function Emit(pp: Pp, lines: seq<Line>): Pp {
    pp.(out := pp.out + lines)
  }

  lemma EmitTwice(pp: Pp, a: seq<Line>, b: seq<Line>)
    ensures Emit(Emit(pp, a), b) == Emit(pp, a + b)
    ensures Emit(pp, []) == pp
  {
    assert pp.out + a + b == pp.out + (a + b);
  }

  /** Conditional inclusion (section 6.10.1 of ISO/IEC 9899:2011); None is an unmatched #endif. */
  function Feed(pp: Pp, line: Line): Option<Pp> {
    match line
    case Ifdef(m) => Some(pp.(open := pp.open + [Active(pp) && m in pp.defs]))
    case Endif => if pp.open == [] then None else Some(pp.(open := pp.open[..|pp.open|-1]))
    case Define(m) => Some(if Active(pp) then pp.(defs := pp.defs + {m}) else pp)
    case Undef(m) => Some(if Active(pp) then pp.(defs := pp.defs - {m}) else pp)
    case _ => Some(if Active(pp) then Emit(pp, [line]) else pp)
  }

  function Feeds(pp: Pp, lines: seq<Line>): Option<Pp> {
    if lines == [] then Some(pp)
    else match Feeds(pp, lines[..|lines|-1])
      case None => None
      case Some(q) => Feed(q, lines[|lines|-1])
  }

  /** The surviving lines of a whole file; None when #ifdefs are not balanced. */
  function Preprocess(lines: seq<Line>, defs: set<string>): Option<seq<Line>> {
    match Feeds(Pp(defs, [], []), lines)
    case None => None
    case Some(pp) => if pp.open == [] then Some(pp.out) else None
  }

  lemma {:induction false} FeedsConcat(pp: Pp, a: seq<Line>, b: seq<Line>)
    ensures Feeds(pp, a + b) == match Feeds(pp, a) case None => None case Some(q) => Feeds(q, b)
  {
    if b == [] {
      assert a + b == a;
    } else {
      var init := b[..|b|-1];
      assert (a + b)[..|a + b|-1] == a + init;
      FeedsConcat(pp, a, init);
    }
  }

  /** How many #ifdefs are open after these lines. */
  function Depth(lines: seq<Line>): int {
    if lines == [] then 0
    else Depth(lines[..|lines|-1]) +
         (match lines[|lines|-1] case Ifdef(_) => 1 case Endif => -1 case _ => 0)
  }

  /** #ifdefs never nest. */
  ghost predicate Flat(lines: seq<Line>) {
    forall k | 0 <= k <= |lines| :: 0 <= Depth(lines[..k]) <= 1
  }

  lemma FlatAppend(lines: seq<Line>, line: Line)
    requires Flat(lines) && 0 <= Depth(lines + [line]) <= 1
    ensures Flat(lines + [line])
  {
    var more := lines + [line];
    forall k | 0 <= k <= |more| ensures 0 <= Depth(more[..k]) <= 1 {
      if k <= |lines| {
        assert more[..k] == lines[..k];
      } else {
        assert more[..k] == more;
      }
    }
  }

  // ---------------------------------------------------------------- items

  /** A guard holds when it is empty or names a defined macro. */
  predicate Guarded(it: Item, defs: set<string>) {
    it.ifdef == "" || it.ifdef in defs
  }

  /** The items whose guard holds, in order. */
  function Surviving(items: seq<Item>, defs: set<string>): seq<Item> {
    if items == [] then []
    else Surviving(items[..|items|-1], defs) +
         (if Guarded(items[|items|-1], defs) then [items[|items|-1]] else [])
  }

  function EntriesOf(items: seq<Item>): (r: seq<Line>)
    ensures |r| == |items| && forall i | 0 <= i < |r| :: r[i] == Entry(items[i].name)
  {
    seq(|items|, i requires 0 <= i < |items| => Entry(items[i].name))
  }

  function DeclarationsOf(items: seq<Item>): (r: seq<Line>)
    ensures |r| == |items| && forall i | 0 <= i < |r| :: r[i] == Declare(items[i].name, items[i].kind)
  {
    seq(|items|, i requires 0 <= i < |items| => Declare(items[i].name, items[i].kind))
  }

  lemma {:induction false} SurvivingElems(items: seq<Item>, defs: set<string>)
    ensures forall it :: it in Surviving(items, defs) <==> it in items && Guarded(it, defs)
  {
    if items != [] {
      SurvivingElems(items[..|items|-1], defs);
      assert items == items[..|items|-1] + [items[|items|-1]];
    }
  }

  ghost predicate SortedByName(items: seq<Item>) {
    forall i, j | 0 <= i < j < |items| :: !Less(items[j].name, items[i].name)
  }

  lemma {:induction false} SurvivingSorted(items: seq<Item>, defs: set<string>)
    requires SortedByName(items)
    ensures SortedByName(Surviving(items, defs))
  {
    if items != [] {
      var init, last := items[..|items|-1], items[|items|-1];
      SurvivingSorted(init, defs);
      SurvivingElems(init, defs);
      var s := Surviving(init, defs);
      forall i | 0 <= i < |s| ensures !Less(last.name, s[i].name) {
        assert s[i] in init;
      }
    }
  }

  // ---------------------------------------------------------------- sorting

  predicate NameBefore(a: Item, b: Item) {
    Less(a.name, b.name)
  }

  predicate GuardBefore(a: Item, b: Item) {
    if a.ifdef != b.ifdef then Less(a.ifdef, b.ifdef) else Less(a.name, b.name)
  }

  function InsertBy(before: (Item, Item) -> bool, s: seq<Item>, x: Item): seq<Item> {
    if s == [] || before(x, s[0]) then [x] + s else [s[0]] + InsertBy(before, s[1..], x)
  }

  /** `sort.Slice` with the given order. */
  function SortBy(before: (Item, Item) -> bool, s: seq<Item>): seq<Item> {
    if s == [] then [] else InsertBy(before, SortBy(before, s[..|s|-1]), s[|s|-1])
  }

  lemma {:induction false} InsertByKeeps(before: (Item, Item) -> bool, s: seq<Item>, x: Item)
    ensures multiset(InsertBy(before, s, x)) == multiset(s) + multiset{x}
  {
    if s != [] && !before(x, s[0]) {
      InsertByKeeps(before, s[1..], x);
      assert s == [s[0]] + s[1..];
    }
  }

  /** Sorting only permutes. */
  lemma {:induction false} SortByKeeps(before: (Item, Item) -> bool, s: seq<Item>)
    ensures multiset(SortBy(before, s)) == multiset(s)
  {
    if s != [] {
      SortByKeeps(before, s[..|s|-1]);
      InsertByKeeps(before, SortBy(before, s[..|s|-1]), s[|s|-1]);
      assert s == s[..|s|-1] + [s[|s|-1]];
    }
  }

  lemma SameMembers(a: seq<Item>, b: seq<Item>)
    requires multiset(a) == multiset(b)
    ensures forall it :: it in a <==> it in b
  {
    assert forall it :: it in a <==> it in multiset(a);
    assert forall it :: it in b <==> it in multiset(b);
  }

  ghost predicate IsOrder(before: (Item, Item) -> bool) {
    (forall a :: !before(a, a)) && forall a, b, c :: before(a, b) && before(b, c) ==> before(a, c)
  }

  /** Nothing comes before what stands ahead of it. */
  ghost predicate SortedBy(before: (Item, Item) -> bool, s: seq<Item>) {
    forall i, j | 0 <= i < j < |s| :: !before(s[j], s[i])
  }

  lemma {:induction false} InsertBySorted(before: (Item, Item) -> bool, s: seq<Item>, x: Item)
    requires IsOrder(before) && SortedBy(before, s)
    ensures SortedBy(before, InsertBy(before, s, x))
  {
    if s != [] && !before(x, s[0]) {
      var t := s[1..];
      InsertBySorted(before, t, x);
      InsertByKeeps(before, t, x);
      var r := InsertBy(before, t, x);
      forall j | 0 <= j < |r| ensures !before(r[j], s[0]) {
        assert r[j] in multiset(t) + multiset{x};
      }
    }
  }

  lemma {:induction false} SortByIsSorted(before: (Item, Item) -> bool, s: seq<Item>)
    requires IsOrder(before)
    ensures SortedBy(before, SortBy(before, s))
  {
    if s != [] {
      SortByIsSorted(before, s[..|s|-1]);
      InsertBySorted(before, SortBy(before, s[..|s|-1]), s[|s|-1]);
    }
  }

  lemma NameOrder()
    ensures IsOrder(NameBefore)
  {
    hide Less;
    forall a ensures !NameBefore(a, a) {
      LessIrreflexive(a.name);
    }
    forall a, b, c | NameBefore(a, b) && NameBefore(b, c) ensures NameBefore(a, c) {
      LessTransitive(a.name, b.name, c.name);
    }
  }

  lemma GuardOrder()
    ensures IsOrder(GuardBefore)
  {
    hide Less;
    forall a ensures !GuardBefore(a, a) {
      LessIrreflexive(a.name);
    }
    forall a, b, c | GuardBefore(a, b) && GuardBefore(b, c) ensures GuardBefore(a, c) {
      GuardTransitive(a, b, c);
    }
  }

  lemma GuardTransitive(a: Item, b: Item, c: Item)
    requires GuardBefore(a, b) && GuardBefore(b, c)
    ensures GuardBefore(a, c)
  {
    hide Less;
    if a.ifdef == b.ifdef == c.ifdef {
      LessTransitive(a.name, b.name, c.name);
    } else if a.ifdef != b.ifdef && b.ifdef != c.ifdef {
      LessTransitive(a.ifdef, b.ifdef, c.ifdef);
      LessIrreflexive(a.ifdef);
      if a.ifdef == c.ifdef {
        assert false;
      }
    }
  }

  lemma SortBySorted(s: seq<Item>)
    ensures SortedByName(SortBy(NameBefore, s))
  {
    NameOrder();
    SortByIsSorted(NameBefore, s);
    hide SortBy;
  }

  /** The externs come guard by guard, unguarded ones first, and by name within a guard: each macro
      opens one group. */
  lemma ExternsInGroups(items: seq<Item>)
    ensures var r := SortBy(GuardBefore, Undeclared(items));
            && (forall i, j | 0 <= i < j < |r| ::
                  Less(r[i].ifdef, r[j].ifdef) || (r[i].ifdef == r[j].ifdef && !Less(r[j].name, r[i].name)))
            && forall i, j, k | 0 <= i < j < k < |r| && r[i].ifdef == r[k].ifdef :: r[j].ifdef == r[i].ifdef
  {
    var r := SortBy(GuardBefore, Undeclared(items));
    GuardOrder();
    SortByIsSorted(GuardBefore, Undeclared(items));
    hide SortBy, Undeclared, Less;
    forall i, j | 0 <= i < j < |r|
      ensures Less(r[i].ifdef, r[j].ifdef) || (r[i].ifdef == r[j].ifdef && !Less(r[j].name, r[i].name)) {
      assert !GuardBefore(r[j], r[i]);
      LessTotal(r[i].ifdef, r[j].ifdef);
    }
    forall i, j, k | 0 <= i < j < k < |r| && r[i].ifdef == r[k].ifdef ensures r[j].ifdef == r[i].ifdef {
      LessIrreflexive(r[i].ifdef);
      if r[j].ifdef != r[i].ifdef {
        LessTransitive(r[i].ifdef, r[j].ifdef, r[k].ifdef);
      }
    }
  }

  // ---------------------------------------------------------------- the emitter

  lemma FeedsOne(pp: Pp, line: Line)
    ensures Feeds(pp, [line]) == Feed(pp, line)
    ensures Feeds(pp, []) == Some(pp)
  {
    assert [line][..0] == [];
  }

  function WrappedEntry(it: Item): seq<Line> {
    if it.ifdef == "" then [Entry(it.name)] else [Ifdef(it.ifdef), Entry(it.name), Endif]
  }

  /** One table entry, wrapped in its own #ifdef when it has a guard. */
  lemma EntryYields(pp: Pp, it: Item)
    requires Active(pp)
    ensures Feeds(pp, WrappedEntry(it)) == Some(Emit(pp, if Guarded(it, pp.defs) then [Entry(it.name)] else []))
  {
    EmitTwice(pp, [], []);
    if it.ifdef == "" {
      FeedsOne(pp, Entry(it.name));
    } else {
      var m := it.ifdef;
      FeedsOne(pp, Ifdef(m));
      FeedsConcat(pp, [Ifdef(m)], [Entry(it.name)]);
      FeedsConcat(pp, [Ifdef(m)] + [Entry(it.name)], [Endif]);
      assert WrappedEntry(it) == [Ifdef(m)] + [Entry(it.name)] + [Endif];
      var q := pp.(open := pp.open + [m in pp.defs]);
      FeedsOne(q, Entry(it.name));
      var q' := if m in pp.defs then Emit(q, [Entry(it.name)]) else q;
      FeedsOne(q', Endif);
      assert q'.open[..|q'.open|-1] == pp.open;
    }
  }

  function TableLines(name: string, items: seq<Item>, defs: set<string>): seq<Line> {
    [OpenTable(name)] + EntriesOf(Surviving(items, defs))
  }

  lemma EntriesAppend(items: seq<Item>, it: Item)
    ensures EntriesOf(items + [it]) == EntriesOf(items) + [Entry(it.name)]
    ensures DeclarationsOf(items + [it]) == DeclarationsOf(items) + [Declare(it.name, it.kind)]
  {
  }

  /** Under every macro assignment the lines come to the start of a table with exactly the entries
      whose guard holds, in order. */
  ghost predicate OpensTable(lines: seq<Line>, name: string, items: seq<Item>) {
    forall pp: Pp {:trigger Feeds(pp, lines)} | Active(pp) :: Feeds(pp, lines) == Some(Emit(pp, TableLines(name, items, pp.defs)))
  }

  /** The same, and then the terminator. */
  ghost predicate IsTable(lines: seq<Line>, name: string, items: seq<Item>) {
    forall pp: Pp {:trigger Feeds(pp, lines)} | Active(pp) :: Feeds(pp, lines) == Some(Emit(pp, TableLines(name, items, pp.defs) + [CloseTable]))
  }

  /** `writeTable`. */
  method WriteTable(b: seq<Line>, name: string, items: seq<Item>) returns (r: seq<Line>)
    ensures b <= r && IsTable(r[|b|..], name, items)
  {
    hide OpensTable, IsTable;
    r := b + [OpenTable(name)];
    TableOpens(name);
    assert r[|b|..] == [OpenTable(name)];
    for i := 0 to |items|
      invariant b <= r && OpensTable(r[|b|..], name, items[..i])
    {
      var it := items[i];
      ghost var t := r[|b|..];
      if it.ifdef != "" {
        r := r + [Ifdef(it.ifdef)];
      }
      r := r + [Entry(it.name)];
      if it.ifdef != "" {
        r := r + [Endif];
      }
      assert r[|b|..] == t + WrappedEntry(it);
      TableGrows(t, name, items, i);
    }
    assert items[..|items|] == items;
    ghost var t := r[|b|..];
    r := r + [CloseTable];
    assert r[|b|..] == t + [CloseTable];
    TableCloses(t, name, items);
  }

  lemma TableOpens(name: string)
    ensures OpensTable([OpenTable(name)], name, [])
  {
    forall pp: Pp | Active(pp) ensures Feeds(pp, [OpenTable(name)]) == Some(Emit(pp, TableLines(name, [], pp.defs))) {
      FeedsOne(pp, OpenTable(name));
      assert TableLines(name, [], pp.defs) == [OpenTable(name)];
    }
  }

  lemma TableGrows(t: seq<Line>, name: string, items: seq<Item>, i: nat)
    requires i < |items| && OpensTable(t, name, items[..i])
    ensures OpensTable(t + WrappedEntry(items[i]), name, items[..i+1])
  {
    forall pp: Pp | Active(pp)
      ensures Feeds(pp, t + WrappedEntry(items[i])) == Some(Emit(pp, TableLines(name, items[..i+1], pp.defs)))
    {
      TableGrowsFor(pp, t, name, items, i);
    }
  }

  lemma TableGrowsFor(pp: Pp, t: seq<Line>, name: string, items: seq<Item>, i: nat)
    requires i < |items| && Active(pp) && Feeds(pp, t) == Some(Emit(pp, TableLines(name, items[..i], pp.defs)))
    ensures Feeds(pp, t + WrappedEntry(items[i])) == Some(Emit(pp, TableLines(name, items[..i+1], pp.defs)))
  {
    hide Feeds, WrappedEntry;
    var it := items[i];
    var so := Surviving(items[..i], pp.defs);
    FeedsConcat(pp, t, WrappedEntry(it));
    assert items[..i+1][..i] == items[..i];
    EntryYields(Emit(pp, TableLines(name, items[..i], pp.defs)), it);
    EmitTwice(pp, TableLines(name, items[..i], pp.defs), if Guarded(it, pp.defs) then [Entry(it.name)] else []);
    if Guarded(it, pp.defs) {
      EntriesAppend(so, it);
      assert [OpenTable(name)] + EntriesOf(so) + [Entry(it.name)] == TableLines(name, items[..i+1], pp.defs);
    } else {
      assert [OpenTable(name)] + EntriesOf(so) + [] == TableLines(name, items[..i+1], pp.defs);
    }
  }

  lemma TableCloses(t: seq<Line>, name: string, items: seq<Item>)
    requires OpensTable(t, name, items)
    ensures IsTable(t + [CloseTable], name, items)
  {
    forall pp: Pp | Active(pp)
      ensures Feeds(pp, t + [CloseTable]) == Some(Emit(pp, TableLines(name, items, pp.defs) + [CloseTable]))
    {
      TableClosesFor(pp, t, TableLines(name, items, pp.defs));
    }
  }

  lemma TableClosesFor(pp: Pp, t: seq<Line>, so: seq<Line>)
    requires Active(pp) && Feeds(pp, t) == Some(Emit(pp, so))
    ensures Feeds(pp, t + [CloseTable]) == Some(Emit(pp, so + [CloseTable]))
  {
    FeedsConcat(pp, t, [CloseTable]);
    FeedsOne(Emit(pp, so), CloseTable);
    EmitTwice(pp, so, [CloseTable]);
  }

  /** The preprocessor inside the group of a guard. */
  function InGroup(pp: Pp, guard: string): Pp {
    if guard == "" then pp else pp.(open := pp.open + [guard in pp.defs])
  }

  function SwitchLines(guard: string, next: string): seq<Line> {
    (if guard != "" then [Endif] else []) + (if next != "" then [Ifdef(next)] else [])
  }

  lemma Switches(pp: Pp, guard: string, next: string)
    requires Active(pp)
    ensures Feeds(InGroup(pp, guard), SwitchLines(guard, next)) == Some(InGroup(pp, next))
  {
    var a, b := if guard != "" then [Endif] else [], if next != "" then [Ifdef(next)] else [];
    FeedsConcat(InGroup(pp, guard), a, b);
    FeedsOne(InGroup(pp, guard), Endif);
    FeedsOne(pp, Ifdef(next));
    assert (pp.open + [guard in pp.defs])[..|pp.open|] == pp.open;
  }

  lemma DeclaresInGroup(pp: Pp, it: Item)
    requires Active(pp)
    ensures Feed(InGroup(pp, it.ifdef), Declare(it.name, it.kind)) ==
            Some(InGroup(Emit(pp, if Guarded(it, pp.defs) then [Declare(it.name, it.kind)] else []), it.ifdef))
  {
    EmitTwice(pp, [], []);
  }

  /** Under every macro assignment the lines have declared exactly the items whose own guard
      holds, and stand inside the group of `guard`. */
  ghost predicate Declares(lines: seq<Line>, items: seq<Item>, guard: string) {
    forall pp: Pp {:trigger Feeds(pp, lines)} | Active(pp) ::
      Feeds(pp, lines) == Some(InGroup(Emit(pp, DeclarationsOf(Surviving(items, pp.defs))), guard))
  }

  /** #ifdefs are balanced up to the group of `guard`, and never nest. */
  ghost predicate Grouped(lines: seq<Line>, guard: string) {
    Flat(lines) && Depth(lines) == (if guard == "" then 0 else 1)
  }

  lemma SwitchGrouped(lines: seq<Line>, guard: string, next: string)
    requires Grouped(lines, guard)
    ensures Grouped(lines + SwitchLines(guard, next), next)
  {
    var a := if guard != "" then lines + [Endif] else lines;
    if guard != "" {
      assert (lines + [Endif])[..|lines|] == lines;
      FlatAppend(lines, Endif);
    }
    if next != "" {
      assert (a + [Ifdef(next)])[..|a|] == a;
      FlatAppend(a, Ifdef(next));
    }
    assert lines + SwitchLines(guard, next) == if next != "" then a + [Ifdef(next)] else a;
  }

  lemma DeclareGrouped(lines: seq<Line>, guard: string, name: string, kind: Kind)
    requires Grouped(lines, guard)
    ensures Grouped(lines + [Declare(name, kind)], guard)
  {
    assert (lines + [Declare(name, kind)])[..|lines|] == lines;
    FlatAppend(lines, Declare(name, kind));
  }

  lemma SwitchDeclares(lines: seq<Line>, items: seq<Item>, guard: string, next: string)
    requires Declares(lines, items, guard)
    ensures Declares(lines + SwitchLines(guard, next), items, next)
  {
    hide InGroup, Feeds, SwitchLines;
    forall pp: Pp | Active(pp)
      ensures Feeds(pp, lines + SwitchLines(guard, next)) ==
              Some(InGroup(Emit(pp, DeclarationsOf(Surviving(items, pp.defs))), next))
    {
      FeedsConcat(pp, lines, SwitchLines(guard, next));
      Switches(Emit(pp, DeclarationsOf(Surviving(items, pp.defs))), guard, next);
    }
  }

  lemma DeclaresMore(lines: seq<Line>, items: seq<Item>, i: nat)
    requires i < |items| && Declares(lines, items[..i], items[i].ifdef)
    ensures Declares(lines + [Declare(items[i].name, items[i].kind)], items[..i+1], items[i].ifdef)
  {
    hide InGroup;
    var it := items[i];
    assert items[..i+1][..i] == items[..i];
    forall pp: Pp | Active(pp)
      ensures Feeds(pp, lines + [Declare(it.name, it.kind)]) ==
              Some(InGroup(Emit(pp, DeclarationsOf(Surviving(items[..i+1], pp.defs))), it.ifdef))
    {
      DeclaresMoreFor(pp, lines, Surviving(items[..i], pp.defs), it);
    }
  }

  lemma DeclaresMoreFor(pp: Pp, lines: seq<Line>, so: seq<Item>, it: Item)
    requires Active(pp) && Feeds(pp, lines) == Some(InGroup(Emit(pp, DeclarationsOf(so)), it.ifdef))
    ensures Feeds(pp, lines + [Declare(it.name, it.kind)]) ==
            Some(InGroup(Emit(pp, DeclarationsOf(so + (if Guarded(it, pp.defs) then [it] else []))), it.ifdef))
  {
    var q := Emit(pp, DeclarationsOf(so));
    FeedsConcat(pp, lines, [Declare(it.name, it.kind)]);
    FeedsOne(InGroup(q, it.ifdef), Declare(it.name, it.kind));
    DeclaresInGroup(q, it);
    hide Feeds, Feed, InGroup, Guarded;
    if Guarded(it, pp.defs) {
      EntriesAppend(so, it);
      EmitTwice(pp, DeclarationsOf(so), [Declare(it.name, it.kind)]);
    } else {
      assert so + [] == so;
      EmitTwice(q, [], []);
    }
  }

  function Undeclared(items: seq<Item>): seq<Item> {
    if items == [] then []
    else Undeclared(items[..|items|-1]) + (if items[|items|-1].declared then [] else [items[|items|-1]])
  }

  /** `writeExterns`: one pass that opens and closes a group whenever the guard changes. */
  method WriteExterns(b: seq<Line>, funcs: seq<Item>, data: seq<Item>) returns (r: seq<Line>)
    ensures b <= r
    ensures Declares(r[|b|..], SortBy(GuardBefore, Undeclared(funcs + data)), "")
    ensures Grouped(r[|b|..], "")
    ensures ExternsAre(r[|b|..], funcs + data)
  {
    hide Declares, Grouped, SortBy, ExternsAre;
    var undeclared := Undeclared(funcs + data);
    r := b;
    assert r[|b|..] == [];
    NothingDeclared();
    SortNothing();
    if undeclared == [] {
      ExternsMean([], funcs + data);
      return;
    }
    var items := SortBy(GuardBefore, undeclared);
    var guard := "";
    for i := 0 to |items|
      invariant b <= r && Declares(r[|b|..], items[..i], guard) && Grouped(r[|b|..], guard)
    {
      var it := items[i];
      ghost var t, was := r[|b|..], guard;
      if it.ifdef != guard {
        if guard != "" {
          r := r + [Endif];
        }
        guard := it.ifdef;
        if guard != "" {
          r := r + [Ifdef(guard)];
        }
        assert r[|b|..] == t + SwitchLines(was, guard);
        SwitchDeclares(t, items[..i], was, guard);
        SwitchGrouped(t, was, guard);
      }
      ghost var u := r[|b|..];
      r := r + [Declare(it.name, it.kind)];
      assert r[|b|..] == u + [Declare(it.name, it.kind)];
      DeclaresMore(u, items, i);
      DeclareGrouped(u, guard, it.name, it.kind);
    }
    assert items[..|items|] == items;
    ghost var t := r[|b|..];
    if guard != "" {
      r := r + [Endif];
    }
    assert r[|b|..] == t + SwitchLines(guard, "");
    SwitchDeclares(t, items, guard, "");
    SwitchGrouped(t, guard, "");
    ExternsMean(r[|b|..], funcs + data);
  }

  /** By themselves, under these macros, the lines declare the name exactly when some item of that name
      and kind is declared in no public header and has its guard in force. */
  ghost predicate DeclaresItem(lines: seq<Line>, items: seq<Item>, defs: set<string>, name: string, kind: Kind) {
    && Preprocess(lines, defs).Some?
    && (Declare(name, kind) in Preprocess(lines, defs).value <==>
          exists it :: it in items && it.name == name && it.kind == kind && !it.declared && Guarded(it, defs))
  }

  ghost predicate ExternsAre(lines: seq<Line>, items: seq<Item>) {
    forall defs, name, kind :: DeclaresItem(lines, items, defs, name, kind)
  }

  lemma ExternsMean(lines: seq<Line>, items: seq<Item>)
    requires Declares(lines, SortBy(GuardBefore, Undeclared(items)), "")
    ensures ExternsAre(lines, items)
  {
    hide Preprocess, SortBy, Guarded, Declares, Surviving, Undeclared, DeclarationsOf;
    forall defs, name, kind ensures DeclaresItem(lines, items, defs, name, kind) {
      DeclaresAlone(lines, SortBy(GuardBefore, Undeclared(items)), defs);
      ExternsExactly(items, defs, name, kind);
    }
  }

  lemma DeclaresAlone(lines: seq<Line>, items: seq<Item>, defs: set<string>)
    requires Declares(lines, items, "")
    ensures Preprocess(lines, defs) == Some(DeclarationsOf(Surviving(items, defs)))
  {
    hide Feeds;
    assert Active(Pp(defs, [], []));
    assert [] + DeclarationsOf(Surviving(items, defs)) == DeclarationsOf(Surviving(items, defs));
  }

  lemma SortNothing()
    ensures SortBy(GuardBefore, []) == []
  {
  }

  lemma NothingDeclared()
    ensures Declares([], [], "") && Grouped([], "")
  {
    forall pp: Pp | Active(pp) ensures Feeds(pp, []) == Some(InGroup(Emit(pp, DeclarationsOf(Surviving([], pp.defs))), "")) {
      EmitTwice(pp, [], []);
    }
  }

  /** Names whose public macro hides the function of that name. */
  function Hidden(items: seq<Item>): set<string> {
    set it | it in items && it.macroHidesFunc :: it.name
  }

  ghost predicate Undefines(lines: seq<Line>, names: set<string>) {
    forall pp: Pp {:trigger Feeds(pp, lines)} | Active(pp) :: Feeds(pp, lines) == Some(pp.(defs := pp.defs - names))
  }

  /** `writeUndefs`: exactly the hiding macros are no longer defined. */
  method WriteUndefs(b: seq<Line>, items: seq<Item>) returns (r: seq<Line>)
    ensures b <= r && Undefines(r[|b|..], Hidden(items))
  {
    hide Undefines;
    var seen: set<string> := {};
    var names: seq<string> := [];
    for i := 0 to |items|
      invariant seen == Hidden(items[..i]) && Elems(names) == seen
    {
      assert items[..i+1] == items[..i] + [items[i]];
      if items[i].macroHidesFunc && items[i].name !in seen {
        ElemsConcat(names, [items[i].name]);
        seen := seen + {items[i].name};
        names := names + [items[i].name];
      }
    }
    assert items[..|items|] == items;
    SortSorted(names);
    names := Sort(names);
    r := b;
    assert r[|b|..] == [] && Elems(names[..0]) == {};
    UndefinesNothing();
    for i := 0 to |names|
      invariant b <= r && Undefines(r[|b|..], Elems(names[..i]))
    {
      ghost var t := r[|b|..];
      r := r + [Undef(names[i])];
      assert r[|b|..] == t + [Undef(names[i])];
      assert names[..i+1] == names[..i] + [names[i]];
      ElemsConcat(names[..i], [names[i]]);
      ElemsOne(names[i]);
      UndefinesOneMore(t, Elems(names[..i]), names[i]);
    }
    assert names[..|names|] == names;
  }

  lemma UndefinesNothing()
    ensures Undefines([], {})
  {
    assert forall pp: Pp :: pp.defs - {} == pp.defs;
  }

  lemma UndefinesOneMore(t: seq<Line>, names: set<string>, name: string)
    requires Undefines(t, names)
    ensures Undefines(t + [Undef(name)], names + {name})
  {
    forall pp: Pp | Active(pp) ensures Feeds(pp, t + [Undef(name)]) == Some(pp.(defs := pp.defs - (names + {name}))) {
      FeedsConcat(pp, t, [Undef(name)]);
      FeedsOne(pp.(defs := pp.defs - names), Undef(name));
      assert pp.defs - names - {name} == pp.defs - (names + {name});
    }
  }

  function OfKind(items: seq<Item>, kind: Kind): seq<Item> {
    if items == [] then []
    else OfKind(items[..|items|-1], kind) + (if items[|items|-1].kind == kind then [items[|items|-1]] else [])
  }

  lemma {:induction false} OfKindElems(items: seq<Item>, kind: Kind)
    ensures forall it :: it in OfKind(items, kind) <==> it in items && it.kind == kind
  {
    if items != [] {
      OfKindElems(items[..|items|-1], kind);
      assert items == items[..|items|-1] + [items[|items|-1]];
    }
  }

  /** The macros in force where the guards are read: the given ones, the two export macros, and
      minus those undefined for hiding a function. */
  function InForce(items: seq<Item>, defs: set<string>): set<string> {
    defs + {"EXPORT_FUNC"} + {"EXPORT_DATA"} - Hidden(items)
  }

  /** Whether a macro is defined where the guards are read: given, or one of the two export macros, and
      not undefined for hiding a function. */
  ghost predicate InEffect(items: seq<Item>, defs: set<string>, macro: string) {
    && (macro in defs || macro == "EXPORT_FUNC" || macro == "EXPORT_DATA")
    && forall it | it in items && it.macroHidesFunc :: it.name != macro
  }

  /** The item's guard is empty or in effect. */
  ghost predicate Compiled(items: seq<Item>, defs: set<string>, it: Item) {
    it.ifdef == "" || InEffect(items, defs, it.ifdef)
  }

  lemma CompiledIsGuarded(items: seq<Item>, defs: set<string>, it: Item)
    ensures Compiled(items, defs, it) <==> Guarded(it, InForce(items, defs))
  {
  }

  /** Some item of that kind and name is compiled. */
  ghost predicate Offers(items: seq<Item>, kind: Kind, defs: set<string>, name: string) {
    exists it :: it in items && it.kind == kind && it.name == name && Compiled(items, defs, it)
  }

  /** Some such item is declared in no public header. */
  ghost predicate NeedsExtern(items: seq<Item>, kind: Kind, defs: set<string>, name: string) {
    exists it :: it in items && it.kind == kind && it.name == name && !it.declared && Compiled(items, defs, it)
  }

  lemma {:induction false} UndeclaredElems(items: seq<Item>)
    ensures forall it :: it in Undeclared(items) <==> it in items && !it.declared
  {
    if items != [] {
      UndeclaredElems(items[..|items|-1]);
      assert items == items[..|items|-1] + [items[|items|-1]];
    }
  }

  lemma SortedElems(before: (Item, Item) -> bool, s: seq<Item>)
    ensures forall it :: it in SortBy(before, s) <==> it in s
  {
    SortByKeeps(before, s);
    SameMembers(SortBy(before, s), s);
  }

  /** The declarations `writeExterns` leaves after preprocessing: those of the undeclared items whose
      guard holds. */
  lemma ExternsExactly(items: seq<Item>, defs: set<string>, name: string, kind: Kind)
    ensures Declare(name, kind) in DeclarationsOf(Surviving(SortBy(GuardBefore, Undeclared(items)), defs)) <==>
            exists it :: it in items && it.name == name && it.kind == kind && !it.declared && Guarded(it, defs)
  {
    var so := Surviving(SortBy(GuardBefore, Undeclared(items)), defs);
    UndeclaredElems(items);
    SortedElems(GuardBefore, Undeclared(items));
    SurvivingElems(SortBy(GuardBefore, Undeclared(items)), defs);
    hide SortBy, Undeclared, Surviving, Guarded;
    if it :| it in items && it.name == name && it.kind == kind && !it.declared && Guarded(it, defs) {
      assert it in so;
      var i :| 0 <= i < |so| && so[i] == it;
      assert DeclarationsOf(so)[i] == Declare(name, kind);
    }
    if Declare(name, kind) in DeclarationsOf(so) {
      var i :| 0 <= i < |so| && DeclarationsOf(so)[i] == Declare(name, kind);
      assert so[i] in so;
    }
  }

  lemma TablesDeclareNothing(name: string, items: seq<Item>, defs: set<string>, d: Line)
    requires d.Declare?
    ensures d !in TableLines(name, items, defs) + [CloseTable]
  {
  }

  /** In the whole file, under any macros, a name is declared exactly when an item of that kind and
      name is compiled and declared in no public header. */
  lemma SeenDeclares(items: seq<Item>, defs: set<string>, name: string, kind: Kind)
    ensures Declare(name, kind) in Seen(items, defs) <==> NeedsExtern(items, kind, defs, name)
  {
    var env, both := InForce(items, defs), TableItems(items, Function) + TableItems(items, Data);
    var d := Declare(name, kind);
    ExternsExactly(both, env, name, kind);
    TablesDeclareNothing("static_functions", TableItems(items, Function), env, d);
    TablesDeclareNothing("static_data", TableItems(items, Data), env, d);
    BothTables(items);
    forall it: Item ensures Compiled(items, defs, it) <==> Guarded(it, env) {
      CompiledIsGuarded(items, defs, it);
    }
    hide TableLines, SortBy, Surviving, InForce, Undeclared, TableItems, DeclarationsOf, Compiled, Guarded;
  }

  lemma BothTables(items: seq<Item>)
    ensures forall it :: it in TableItems(items, Function) + TableItems(items, Data) <==> it in items
  {
    SortedElems(NameBefore, OfKind(items, Function));
    SortedElems(NameBefore, OfKind(items, Data));
    OfKindElems(items, Function);
    OfKindElems(items, Data);
    hide SortBy, OfKind;
  }

  /** The table of one kind, in strcmp order. */
  function TableItems(items: seq<Item>, kind: Kind): seq<Item> {
    SortBy(NameBefore, OfKind(items, kind))
  }

  /** What the C compiler sees of the file when `defs` are defined. */
  function Seen(items: seq<Item>, defs: set<string>): seq<Line> {
    var env := InForce(items, defs);
    DeclarationsOf(Surviving(SortBy(GuardBefore, Undeclared(TableItems(items, Function) + TableItems(items, Data))), env))
    + (TableLines("static_functions", TableItems(items, Function), env) + [CloseTable])
    + (TableLines("static_data", TableItems(items, Data), env) + [CloseTable])
  }

  /** `renderSymbols`: the file is balanced and means the same under every macro assignment. */
  method RenderSymbols(items: seq<Item>) returns (b: seq<Line>)
    ensures forall defs :: Preprocess(b, defs) == Some(Seen(items, defs))
    ensures forall defs :: DeclaresRightly(b, items, defs)
  {
    hide DeclaresRightly;
    hide Undefines, Declares, IsTable, SortBy, Seen, Preprocess;
    var funcs: seq<Item>, data: seq<Item> := [], [];
    for i := 0 to |items|
      invariant funcs == OfKind(items[..i], Function) && data == OfKind(items[..i], Data)
    {
      assert items[..i+1][..i] == items[..i];
      if items[i].kind == Function {
        funcs := funcs + [items[i]];
      } else {
        data := data + [items[i]];
      }
    }
    assert items[..|items|] == items;
    funcs, data := SortBy(NameBefore, funcs), SortBy(NameBefore, data);
    var b0 := [Define("EXPORT_FUNC"), Define("EXPORT_DATA")];
    var b1 := WriteUndefs(b0, items);
    var b2 := WriteExterns(b1, funcs, data);
    var b3 := WriteTable(b2, "static_functions", funcs);
    b := WriteTable(b3, "static_data", data);
    ghost var u, e, f, d := b1[|b0|..], b2[|b1|..], b3[|b2|..], b[|b3|..];
    assert b == b0 + u + e + f + d;
    forall defs ensures Preprocess(b, defs) == Some(Seen(items, defs)) {
      FileMeaning(items, defs, u, e, f, d);
    }
    forall defs ensures DeclaresRightly(b, items, defs) {
      FileDeclares(b, items, defs);
    }
  }

  /** Under these macros the file declares a name as a function or as data exactly when an item of that
      kind and name is compiled and declared in no public header. */
  ghost predicate DeclaresRightly(file: seq<Line>, items: seq<Item>, defs: set<string>) {
    && Preprocess(file, defs).Some?
    && forall name, kind ::
         Declare(name, kind) in Preprocess(file, defs).value <==> NeedsExtern(items, kind, defs, name)
  }

  lemma FileDeclares(file: seq<Line>, items: seq<Item>, defs: set<string>)
    requires Preprocess(file, defs) == Some(Seen(items, defs))
    ensures DeclaresRightly(file, items, defs)
  {
    hide Seen, Preprocess, NeedsExtern;
    forall name, kind
      ensures Declare(name, kind) in Preprocess(file, defs).value <==> NeedsExtern(items, kind, defs, name) {
      SeenDeclares(items, defs, name, kind);
    }
  }

  lemma FileMeaning(items: seq<Item>, defs: set<string>, u: seq<Line>, e: seq<Line>, f: seq<Line>, d: seq<Line>)
    requires Undefines(u, Hidden(items))
    requires Declares(e, SortBy(GuardBefore, Undeclared(TableItems(items, Function) + TableItems(items, Data))), "")
    requires IsTable(f, "static_functions", TableItems(items, Function))
    requires IsTable(d, "static_data", TableItems(items, Data))
    ensures Preprocess([Define("EXPORT_FUNC"), Define("EXPORT_DATA")] + u + e + f + d, defs) == Some(Seen(items, defs))
  {
    hide Feeds, TableLines, SortBy, Hidden, Surviving, DeclarationsOf, Undeclared, TableItems;
    var m := [Define("EXPORT_FUNC"), Define("EXPORT_DATA")];
    var env := InForce(items, defs);
    var externs := DeclarationsOf(Surviving(SortBy(GuardBefore, Undeclared(TableItems(items, Function) + TableItems(items, Data))), env));
    var tf := TableLines("static_functions", TableItems(items, Function), env) + [CloseTable];
    var td := TableLines("static_data", TableItems(items, Data), env) + [CloseTable];
    var p0, p1 := Pp(defs, [], []), Pp(defs + {"EXPORT_FUNC"} + {"EXPORT_DATA"}, [], []);
    TwoDefines(p0);
    var p2 := Pp(env, [], []);
    assert Feeds(p1, u) == Some(p2);
    FeedsThen(p0, m, p1, u, p2);
    assert Feeds(p2, e) == Some(Emit(p2, externs));
    FeedsThen(p0, m + u, p2, e, Emit(p2, externs));
    assert Feeds(Emit(p2, externs), f) == Some(Emit(Emit(p2, externs), tf));
    FeedsThen(p0, m + u + e, Emit(p2, externs), f, Emit(Emit(p2, externs), tf));
    var last := Emit(Emit(p2, externs), tf);
    assert Feeds(last, d) == Some(Emit(last, td));
    FeedsThen(p0, m + u + e + f, last, d, Emit(last, td));
    assert [] + externs == externs;
  }

  lemma FeedsThen(pp: Pp, a: seq<Line>, q: Pp, b: seq<Line>, r: Pp)
    requires Feeds(pp, a) == Some(q) && Feeds(q, b) == Some(r)
    ensures Feeds(pp, a + b) == Some(r)
  {
    FeedsConcat(pp, a, b);
  }

  lemma TwoDefines(pp: Pp)
    requires pp.open == []
    ensures Feeds(pp, [Define("EXPORT_FUNC"), Define("EXPORT_DATA")]) ==
            Some(pp.(defs := pp.defs + {"EXPORT_FUNC"} + {"EXPORT_DATA"}))
  {
    assert [Define("EXPORT_FUNC"), Define("EXPORT_DATA")] == [Define("EXPORT_FUNC")] + [Define("EXPORT_DATA")];
    FeedsConcat(pp, [Define("EXPORT_FUNC")], [Define("EXPORT_DATA")]);
    FeedsOne(pp, Define("EXPORT_FUNC"));
    FeedsOne(pp.(defs := pp.defs + {"EXPORT_FUNC"}), Define("EXPORT_DATA"));
  }

  // ---------------------------------------------------------------- lookup

  /** `strcmp` on strings without NUL. */
  function Strcmp(a: string, b: string): int {
    if a == [] then (if b == [] then 0 else -1)
    else if b == [] then 1
    else if a[0] < b[0] then -1
    else if b[0] < a[0] then 1
    else Strcmp(a[1..], b[1..])
  }

  lemma {:induction false} StrcmpIsByteOrder(a: string, b: string)
    ensures Strcmp(a, b) == 0 <==> a == b
    ensures Strcmp(a, b) < 0 <==> Less(a, b)
  {
    if a != [] && b != [] && a[0] == b[0] {
      StrcmpIsByteOrder(a[1..], b[1..]);
      if a[1..] == b[1..] {
        assert a == [a[0]] + a[1..];
        assert b == [b[0]] + b[1..];
      }
    }
  }

  datatype Symbol = Symbol(name: string, address: nat)

  ghost predicate InStrcmpOrder(table: seq<Symbol>) {
    forall i, j | 0 <= i < j < |table| :: !Less(table[j].name, table[i].name)
  }

  /** `bsearch` with `symbol_cmp`, halving from the left. */
  method BSearch(table: seq<Symbol>, count: nat, name: string) returns (hit: Option<nat>)
    requires count <= |table| && InStrcmpOrder(table[..count])
    ensures hit.Some? ==> hit.value < count && table[hit.value].name == name
    ensures hit.None? ==> forall i | 0 <= i < count :: table[i].name != name
  {
    hide Less, Strcmp;
    var base: nat, nel: nat := 0, count;
    while nel > 0
      invariant base + nel <= count
      invariant forall i | 0 <= i < base :: Less(table[i].name, name)
      invariant forall i | base + nel <= i < count :: Less(name, table[i].name)
      decreases nel
    {
      var mid := base + nel / 2;
      var sign := Strcmp(name, table[mid].name);
      StrcmpIsByteOrder(name, table[mid].name);
      if sign < 0 {
        AboveIsGreater(table[..count], mid, name);
        nel := nel / 2;
      } else if sign > 0 {
        LessTotal(name, table[mid].name);
        BelowIsLess(table[..count], mid, name);
        base, nel := mid + 1, nel - (nel / 2 + 1);
      } else {
        return Some(mid);
      }
    }
    forall i | 0 <= i < count ensures table[i].name != name {
      LessIrreflexive(name);
    }
    return None;
  }

  lemma AboveIsGreater(table: seq<Symbol>, mid: nat, name: string)
    requires InStrcmpOrder(table) && mid < |table| && Less(name, table[mid].name)
    ensures forall i | mid <= i < |table| :: Less(name, table[i].name)
  {
    hide Less;
    forall i | mid <= i < |table| ensures Less(name, table[i].name) {
      LessTotal(table[mid].name, table[i].name);
      if Less(table[mid].name, table[i].name) {
        LessTransitive(name, table[mid].name, table[i].name);
      }
    }
  }

  lemma BelowIsLess(table: seq<Symbol>, mid: nat, name: string)
    requires InStrcmpOrder(table) && mid < |table| && Less(table[mid].name, name)
    ensures forall i | 0 <= i <= mid :: Less(table[i].name, name)
  {
    hide Less;
    forall i | 0 <= i <= mid ensures Less(table[i].name, name) {
      LessTotal(table[mid].name, table[i].name);
      if Less(table[i].name, table[mid].name) {
        LessTransitive(table[i].name, table[mid].name, name);
      }
    }
  }

  /** `find_in`; 0 stands for NULL. */
  method FindIn(table: seq<Symbol>, count: nat, name: string) returns (address: nat)
    requires count <= |table| && InStrcmpOrder(table[..count])
    ensures address != 0 ==> exists i :: 0 <= i < count && table[i] == Symbol(name, address)
    ensures address == 0 ==> forall i | 0 <= i < count && table[i].name == name :: exists k :: 0 <= k < count && table[k] == Symbol(name, 0)
  {
    var hit := BSearch(table, count, name);
    if hit.Some? {
      address := table[hit.value].address;
      assert table[hit.value] == Symbol(name, address);
    } else {
      address := 0;
    }
  }

  ghost predicate Has(table: seq<Symbol>, name: string) {
    exists i :: 0 <= i < |table| && table[i].name == name
  }

  /** Addresses taken with `&name`: never NULL, and the same for the same name. */
  ghost predicate Addressed(table: seq<Symbol>) {
    && (forall i | 0 <= i < |table| :: table[i].address != 0)
    && (forall i, j | 0 <= i < |table| && 0 <= j < |table| && table[i].name == table[j].name :: table[i] == table[j])
  }

  /** `find_symbol`: a name is found exactly when a table has it; functions win, so the kind is
      the true one for every name that is not in both. */
  method FindSymbol(funcs: seq<Symbol>, data: seq<Symbol>, name: string) returns (address: nat, kind: Option<Kind>)
    requires InStrcmpOrder(funcs) && InStrcmpOrder(data) && Addressed(funcs) && Addressed(data)
    ensures address != 0 <==> Has(funcs, name) || Has(data, name)
    ensures kind == if Has(funcs, name) then Some(Function) else if Has(data, name) then Some(Data) else None
    ensures kind == Some(Function) ==> forall i | 0 <= i < |funcs| && funcs[i].name == name :: funcs[i].address == address
    ensures kind == Some(Data) ==> forall i | 0 <= i < |data| && data[i].name == name :: data[i].address == address
  {
    assert funcs[..|funcs|] == funcs && data[..|data|] == data;
    kind := None;
    address := FindIn(funcs, |funcs|, name);
    if address != 0 {
      return address, Some(Function);
    }
    address := FindIn(data, |data|, name);
    if address != 0 {
      kind := Some(Data);
    }
  }

  /** The array the compiler builds from the surviving entries. */
  function Symbols(items: seq<Item>, address: string -> nat): (r: seq<Symbol>)
    ensures |r| == |items| && forall i | 0 <= i < |r| :: r[i] == Symbol(items[i].name, address(items[i].name))
  {
    seq(|items|, i requires 0 <= i < |items| => Symbol(items[i].name, address(items[i].name)))
  }

  /** The items of a table that are in force. */
  function InTable(items: seq<Item>, kind: Kind, defs: set<string>): seq<Item> {
    Surviving(TableItems(items, kind), InForce(items, defs))
  }

  lemma InTableIs(items: seq<Item>, kind: Kind, defs: set<string>)
    ensures SortedByName(InTable(items, kind, defs))
    ensures forall it :: it in InTable(items, kind, defs) <==>
              it in items && it.kind == kind && Guarded(it, InForce(items, defs))
  {
    hide SortBy, Less, OfKind, Surviving, InForce, Guarded;
    var sorted := TableItems(items, kind);
    SortBySorted(OfKind(items, kind));
    SurvivingSorted(sorted, InForce(items, defs));
    SurvivingElems(sorted, InForce(items, defs));
    SortByKeeps(NameBefore, OfKind(items, kind));
    SameMembers(sorted, OfKind(items, kind));
    OfKindElems(items, kind);
  }

  lemma SymbolsHave(items: seq<Item>, address: string -> nat, name: string)
    ensures Has(Symbols(items, address), name) <==> exists it :: it in items && it.name == name
  {
    var table := Symbols(items, address);
    if it :| it in items && it.name == name {
      var i :| 0 <= i < |items| && items[i] == it;
      assert table[i].name == name;
    }
  }

  lemma SymbolsOrdered(items: seq<Item>, address: string -> nat)
    requires SortedByName(items) && forall it | it in items :: address(it.name) != 0
    ensures InStrcmpOrder(Symbols(items, address)) && Addressed(Symbols(items, address))
  {
    hide Less;
    var table := Symbols(items, address);
    forall i | 0 <= i < |table| ensures table[i].address != 0 {
      assert items[i] in items;
    }
  }

  /** Under every macro assignment the emitted tables meet what the lookup needs, and a table has a
      name exactly when an item of its kind has that name and its guard holds. */
  lemma TablesAnswerTruly(items: seq<Item>, kind: Kind, defs: set<string>, address: string -> nat, name: string)
    requires forall it | it in items :: address(it.name) != 0
    ensures var table := Symbols(InTable(items, kind, defs), address);
            InStrcmpOrder(table) && Addressed(table) && (Has(table, name) <==> Offers(items, kind, defs, name))
  {
    InTableIs(items, kind, defs);
    forall it: Item ensures Compiled(items, defs, it) <==> Guarded(it, InForce(items, defs)) {
      CompiledIsGuarded(items, defs, it);
    }
    hide InTable, InForce, Guarded, Compiled, SortedByName, Symbols, InStrcmpOrder, Addressed, Has;
    SymbolsOrdered(InTable(items, kind, defs), address);
    SymbolsHave(InTable(items, kind, defs), address, name);
  }

  // ---------------------------------------------------------------- from the items to the answer

  /** Reading one table off the preprocessed file: whether we are inside its braces, and its names. */
  datatype Rows = Rows(inside: bool, names: seq<string>)

  function ReadRow(r: Rows, line: Line, table: string): Rows {
    match line
    case OpenTable(t) => r.(inside := t == table)
    case CloseTable => r.(inside := false)
    case Entry(n) => if r.inside then r.(names := r.names + [n]) else r
    case _ => r
  }

  function ReadRows(r: Rows, lines: seq<Line>, table: string): Rows {
    if lines == [] then r else ReadRow(ReadRows(r, lines[..|lines|-1], table), lines[|lines|-1], table)
  }

  /** The array the compiler builds from a file. */
  function TableOf(lines: seq<Line>, table: string, address: string -> nat): seq<Symbol> {
    var names := ReadRows(Rows(false, []), lines, table).names;
    seq(|names|, i requires 0 <= i < |names| => Symbol(names[i], address(names[i])))
  }

  function NamesOf(items: seq<Item>): seq<string> {
    seq(|items|, i requires 0 <= i < |items| => items[i].name)
  }

  lemma {:induction false} ReadRowsConcat(r: Rows, a: seq<Line>, b: seq<Line>, table: string)
    ensures ReadRows(r, a + b, table) == ReadRows(ReadRows(r, a, table), b, table)
  {
    hide ReadRow;
    if b == [] {
      assert a + b == a;
    } else {
      PeelLast(a, b);
      ReadRowsConcat(r, a, b[..|b|-1], table);
      ReadRowsMore(r, a + b[..|b|-1], b[|b|-1], table);
    }
  }

  lemma ReadRowsMore(r: Rows, lines: seq<Line>, line: Line, table: string)
    ensures ReadRows(r, lines + [line], table) == ReadRow(ReadRows(r, lines, table), line, table)
  {
    assert (lines + [line])[..|lines|] == lines;
  }

  lemma {:induction false} ReadDeclarations(r: Rows, items: seq<Item>, table: string)
    ensures ReadRows(r, DeclarationsOf(items), table) == r
  {
    if items != [] {
      var init, last := items[..|items|-1], items[|items|-1];
      assert items == init + [last];
      ReadDeclarations(r, init, table);
      EntriesAppend(init, last);
      ReadRowsMore(r, DeclarationsOf(init), Declare(last.name, last.kind), table);
    }
  }

  lemma {:induction false} ReadEntries(r: Rows, items: seq<Item>, table: string)
    ensures ReadRows(r, EntriesOf(items), table) == if r.inside then r.(names := r.names + NamesOf(items)) else r
  {
    if items == [] {
      assert r.names + [] == r.names;
    } else {
      var init, last := items[..|items|-1], items[|items|-1];
      assert items == init + [last];
      ReadEntries(r, init, table);
      EntriesAppend(init, last);
      ReadRowsMore(r, EntriesOf(init), Entry(last.name), table);
      NamesMore(init, last);
      Regroup(r.names, NamesOf(init), [last.name]);
      hide ReadRows;
    }
  }

  lemma NamesMore(items: seq<Item>, it: Item)
    ensures NamesOf(items + [it]) == NamesOf(items) + [it.name]
  {
  }

  /** One whole table: its own names if it is the one read, nothing otherwise. */
  lemma ReadWhole(r: Rows, items: seq<Item>, name: string, defs: set<string>, table: string)
    requires !r.inside
    ensures ReadRows(r, TableLines(name, items, defs) + [CloseTable], table) ==
            if name == table then r.(names := r.names + NamesOf(Surviving(items, defs))) else r
  {
    var rows := EntriesOf(Surviving(items, defs));
    ReadRowsMore(r, TableLines(name, items, defs), CloseTable, table);
    ReadRowsConcat(r, [OpenTable(name)], rows, table);
    ReadRowsMore(r, [], OpenTable(name), table);
    assert [] + [OpenTable(name)] == [OpenTable(name)];
    ReadEntries(r.(inside := name == table), Surviving(items, defs), table);
    hide ReadRows, Surviving, EntriesOf;
  }

  lemma TableFromNames(lines: seq<Line>, table: string, items: seq<Item>, address: string -> nat)
    requires ReadRows(Rows(false, []), lines, table).names == NamesOf(items)
    ensures TableOf(lines, table, address) == Symbols(items, address)
  {
    hide ReadRows;
  }

  lemma TablesApart()
    ensures "static_functions" != "static_data"
  {
    assert "static_functions"[7] != "static_data"[7];
  }

  /** What the compiler reads of the preprocessed file is the table of the items in force. */
  lemma SeenTables(items: seq<Item>, defs: set<string>, address: string -> nat)
    ensures TableOf(Seen(items, defs), "static_functions", address) == Symbols(InTable(items, Function, defs), address)
    ensures TableOf(Seen(items, defs), "static_data", address) == Symbols(InTable(items, Data, defs), address)
  {
    hide ReadRows, Seen, InTable, NamesOf, TableOf, Symbols;
    TablesApart();
    SeenNames(items, defs, "static_functions");
    SeenNames(items, defs, "static_data");
    TableFromNames(Seen(items, defs), "static_functions", InTable(items, Function, defs), address);
    TableFromNames(Seen(items, defs), "static_data", InTable(items, Data, defs), address);
  }

  lemma SeenNames(items: seq<Item>, defs: set<string>, table: string)
    ensures var names := ReadRows(Rows(false, []), Seen(items, defs), table).names;
            && (table == "static_functions" ==> names == NamesOf(InTable(items, Function, defs)))
            && (table == "static_data" ==> names == NamesOf(InTable(items, Data, defs)))
  {
    var env, none := InForce(items, defs), Rows(false, []);
    var decls := DeclarationsOf(Surviving(SortBy(GuardBefore, Undeclared(TableItems(items, Function) + TableItems(items, Data))), env));
    var funcs := TableLines("static_functions", TableItems(items, Function), env) + [CloseTable];
    var data := TableLines("static_data", TableItems(items, Data), env) + [CloseTable];
    assert Seen(items, defs) == decls + funcs + data;
    hide Seen, ReadRows, TableLines, Surviving, TableItems, DeclarationsOf, InForce, SortBy, Undeclared, NamesOf;
    TablesApart();
    ReadRowsConcat(none, decls + funcs, data, table);
    ReadRowsConcat(none, decls, funcs, table);
    ReadDeclarations(none, Surviving(SortBy(GuardBefore, Undeclared(TableItems(items, Function) + TableItems(items, Data))), env), table);
    ReadWhole(none, TableItems(items, Function), "static_functions", env, table);
    ReadWhole(ReadRows(none, decls + funcs, table), TableItems(items, Data), "static_data", env, table);
  }

  /** From the items to `dlsym_ex`: render the file, preprocess and compile it under any macros, and
      look a name up. The answer is the address of that name and the kind of an item in force that
      has it, functions first; without one there is no answer. */
  method Dlsym(items: seq<Item>, defs: set<string>, address: string -> nat, name: string)
    returns (ptr: nat, kind: Option<Kind>)
    requires forall it | it in items :: address(it.name) != 0
    ensures kind == if Offers(items, Function, defs, name) then Some(Function)
                    else if Offers(items, Data, defs, name) then Some(Data) else None
    ensures ptr == if kind.Some? then address(name) else 0
  {
    hide Seen, Preprocess, TableOf, Offers, InTable, InStrcmpOrder, Addressed;
    var file := RenderSymbols(items);
    var seen := Preprocess(file, defs).value;
    var funcs, data := TableOf(seen, "static_functions", address), TableOf(seen, "static_data", address);
    SeenTables(items, defs, address);
    TablesAnswerTruly(items, Function, defs, address, name);
    TablesAnswerTruly(items, Data, defs, address, name);
    ptr, kind := FindSymbol(funcs, data, name);
  }
}
