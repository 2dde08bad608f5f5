/** What every group of the grouping view guarantees about its rows. */
module GroupLaws {
  import opened Ordered
  import opened View

  // ---------- slots on paths ----------

  lemma {:induction false} JoinedAppend(a: seq<string>, b: seq<string>)
    ensures Joined(a + b) == Joined(a) + Joined(b)
  {
    if a == [] {
      assert a + b == b;
    } else {
      JoinedAppend(a[1..], b);
      assert (a + b)[1..] == a[1..] + b && (a + b)[0] == a[0];
    }
  }

  lemma JoinedAround(ts: seq<string>, i: nat)
    requires i < |ts|
    ensures Joined(ts) == Joined(ts[..i]) + ts[i] + Joined(ts[i + 1..])
  {
    hide Joined;
    Around(ts, i);
    JoinedAppend(ts[..i], [ts[i]] + ts[i + 1..]);
    JoinedCons(ts[i], ts[i + 1..]);
    Regrouped(Joined(ts[..i]), ts[i], Joined(ts[i + 1..]));
  }

  lemma Around<T>(s: seq<T>, i: nat)
    requires i < |s|
    ensures s == s[..i] + ([s[i]] + s[i + 1..])
  {
  }

  lemma Regrouped(a: string, b: string, c: string)
    ensures a + (b + c) == a + b + c
  {
  }

  /** One part of a text, alphanumeric and of at least four characters, stands where the pattern has its slot. */
  ghost predicate SlotIn(text: string, token: string, pattern: string, alnum: char -> bool) {
    && |token| >= 4 && (forall c :: c in token ==> alnum(c))
    && exists before, after :: text == before + token + after && pattern == before + "{slot}" + after
  }

  lemma SlotSpelled(ts: seq<string>, i: nat, alnum: char -> bool)
    requires i < |ts| && Matchable(ts[i], alnum)
    ensures SlotIn(Joined(ts), ts[i], Slotted(ts, i), alnum)
  {
    JoinedAround(ts, i);
    JoinedAround(ts[i := SLOT], i);
    assert ts[i := SLOT][..i] == ts[..i] && ts[i := SLOT][i + 1..] == ts[i + 1..];
    hide Joined;
    assert Joined(ts) == Joined(ts[..i]) + ts[i] + Joined(ts[i + 1..]);
    assert Slotted(ts, i) == Joined(ts[..i]) + "{slot}" + Joined(ts[i + 1..]);
    forall c | c in ts[i] ensures alnum(c) { var x :| 0 <= x < |ts[i]| && ts[i][x] == c; }
  }

  // ---------- members as rows ----------

  /** The rows a proposal groups, in order. */
  function MembersOf(rows: seq<Row>, members: seq<nat>): (r: seq<Row>)
    requires forall x :: 0 <= x < |members| ==> members[x] < |rows|
    ensures |r| == |members| && forall x :: 0 <= x < |r| ==> r[x] == rows[members[x]]
  {
    seq(|members|, x requires 0 <= x < |members| && members[x] < |rows| => rows[members[x]])
  }

  function Chosen(rows: seq<Row>, slots: seq<Slot>): (r: seq<Row>)
    requires View.InRange(rows, slots)
    ensures |r| == |slots| && forall x :: 0 <= x < |r| ==> slots[x].row < |rows| && r[x] == rows[slots[x].row]
  {
    seq(|slots|, x requires 0 <= x < |slots| && View.InRange(rows, slots) => rows[slots[x].row])
  }

  /** A proposal's members are its slots' rows. */
  lemma MembersAre(rows: seq<Row>, members: seq<nat>, slots: seq<Slot>)
    requires Lists(rows, members, slots) && RowsAscend(slots) && View.InRange(rows, slots)
    ensures (forall x :: 0 <= x < |members| ==> members[x] < |rows|) && MembersOf(rows, members) == Chosen(rows, slots)
  {
    assert Ascending(members, Less()) && Ascending(RowsOf(slots), Less());
    AscendingUnique<nat>(members, RowsOf(slots), Less());
  }

  // ---------- one recurring family ----------

  /** How often each call count occurs on a side. */
  function CountsOn(members: seq<Row>, side: Side): multiset<nat> {
    if members == [] then multiset{}
    else
      var last := members[|members| - 1];
      CountsOn(members[..|members| - 1], side) + (if last.side == side then multiset{last.count} else multiset{})
  }

  ghost predicate TwoOn(members: seq<Row>, side: Side) {
    exists x, y :: 0 <= x < y < |members| && members[x].side == side && members[y].side == side
  }

  /** One producing process a side, and the same executables on both. */
  predicate SameProducers(a: Row, b: Row) {
    if a.side == b.side then a.lineage == b.lineage
    else a.lineage.actor == b.lineage.actor && a.lineage.parent == b.lineage.parent
  }

  ghost predicate Recurs(row: Row, token: string, pattern: string, operation: string, alnum: char -> bool) {
    row.eligible && row.operation == operation && SlotIn(row.path, token, pattern, alnum)
  }

  predicate Related(a: Row, value: string, b: Row, other: string) {
    SameProducers(a, b) && (a.side != b.side ==> value != other)
  }

  /** Members of a recurring family: one pattern and operation, one producer a side, at least two rows a side,
      no slot value on both sides, and the same call counts on both. */
  ghost predicate RecurringGroup(members: seq<Row>, alnum: char -> bool, pattern: string, tokens: seq<string>,
                                 operation: string)
  {
    && |tokens| == |members|
    && (forall x :: 0 <= x < |members| ==> Recurs(members[x], tokens[x], pattern, operation, alnum))
    && TwoOn(members, LeftSide) && TwoOn(members, RightSide)
    && (forall x, y :: 0 <= x < |members| && 0 <= y < |members| ==>
          Related(members[x], tokens[x], members[y], tokens[y]))
    && CountsOn(members, LeftSide) == CountsOn(members, RightSide)
  }

  lemma {:induction false} CountsAgree(rows: seq<Row>, slots: seq<Slot>, side: Side)
    requires View.InRange(rows, slots)
    ensures CountsOn(Chosen(rows, slots), side) == Counts(rows, OnSide(rows, slots, side))
  {
    if slots != [] {
      var front, last := slots[..|slots| - 1], slots[|slots| - 1];
      CountsAgree(rows, front, side);
      OnSideNext(rows, slots, side);
      hide *;
      ChosenNext(rows, slots);
      CountsOnNext(Chosen(rows, front), rows[last.row], side);
      if rows[last.row].side == side { CountsNext(rows, OnSide(rows, front, side), last); }
    } else {
      NothingCounted(rows, side);
    }
  }

  lemma NothingCounted(rows: seq<Row>, side: Side)
    ensures CountsOn(Chosen(rows, []), side) == Counts(rows, OnSide(rows, [], side))
  {
  }

  lemma OnSideNext(rows: seq<Row>, slots: seq<Slot>, side: Side)
    requires View.InRange(rows, slots) && slots != []
    ensures var front, last := slots[..|slots| - 1], slots[|slots| - 1];
            && View.InRange(rows, front) && last.row < |rows|
            && OnSide(rows, slots, side) ==
               (if rows[last.row].side == side then OnSide(rows, front, side) + [last] else OnSide(rows, front, side))
  {
  }

  lemma ChosenNext(rows: seq<Row>, slots: seq<Slot>)
    requires View.InRange(rows, slots) && slots != []
    ensures var front, last := slots[..|slots| - 1], slots[|slots| - 1];
            View.InRange(rows, front) && last.row < |rows| && Chosen(rows, slots) == Chosen(rows, front) + [rows[last.row]]
  {
  }

  lemma CountsNext(rows: seq<Row>, slots: seq<Slot>, last: Slot)
    requires View.InRange(rows, slots) && last.row < |rows|
    ensures View.InRange(rows, slots + [last])
    ensures Counts(rows, slots + [last]) == Counts(rows, slots) + multiset{rows[last.row].count}
  {
    assert (slots + [last])[..|slots|] == slots;
  }

  lemma CountsOnNext(members: seq<Row>, last: Row, side: Side)
    ensures CountsOn(members + [last], side) ==
            CountsOn(members, side) + (if last.side == side then multiset{last.count} else multiset{})
  {
    assert (members + [last])[..|members|] == members;
  }

  lemma FitsRecurring(rows: seq<Row>, alnum: char -> bool, k: Key, s: Slot)
    requires Fits(rows, RecurringRule(alnum), k, s)
    ensures Recurs(rows[s.row], Value(rows, s), k.pattern, k.operation, alnum)
  {
    var ts := Tokens(rows[s.row].path);
    JoinSplit(rows[s.row].path);
    SlotSpelled(ts, s.at, alnum);
    hide SlotIn;
    hide Tokens;
  }

  /** Where the x-th slot of a side stands in the whole list. */
  lemma SidePosition(rows: seq<Row>, slots: seq<Slot>, side: Side, x: nat) returns (i: nat)
    requires View.InRange(rows, slots) && x < |OnSide(rows, slots, side)|
    ensures i < |slots| && slots[i] == OnSide(rows, slots, side)[x] && Chosen(rows, slots)[i].side == side
  {
    var kept := OnSide(rows, slots, side);
    assert kept[x] in kept;
    i :| 0 <= i < |slots| && slots[i] == kept[x];
  }

  lemma SidePositions(rows: seq<Row>, slots: seq<Slot>, side: Side, x: nat, y: nat) returns (i: nat, j: nat)
    requires View.InRange(rows, slots) && RowsAscend(slots) && x < y < |OnSide(rows, slots, side)|
    ensures i < j < |slots| && Chosen(rows, slots)[i].side == side && Chosen(rows, slots)[j].side == side
    ensures slots[i] == OnSide(rows, slots, side)[x] && slots[j] == OnSide(rows, slots, side)[y]
  {
    OnSideAscends(rows, slots, side);
    i := SidePosition(rows, slots, side, x);
    j := SidePosition(rows, slots, side, y);
    hide OnSide;
    assert slots[i].row < slots[j].row;
  }

  lemma TwoMembers(rows: seq<Row>, slots: seq<Slot>, side: Side)
    requires View.InRange(rows, slots) && RowsAscend(slots) && |OnSide(rows, slots, side)| >= 2
    ensures TwoOn(Chosen(rows, slots), side)
  {
    hide RowsAscend;
    hide OnSide;
    var i, j := SidePositions(rows, slots, side, 0, 1);
  }

  lemma SideIndex(rows: seq<Row>, slots: seq<Slot>, s: Slot) returns (x: nat)
    requires View.InRange(rows, slots) && s in slots
    ensures var kept := OnSide(rows, slots, rows[s.row].side); x < |kept| && kept[x] == s
  {
    var kept := OnSide(rows, slots, rows[s.row].side);
    assert s in kept;
    x :| 0 <= x < |kept| && kept[x] == s;
  }

  lemma ProducersShared(rows: seq<Row>, slots: seq<Slot>, s: Slot, t: Slot)
    requires View.InRange(rows, slots) && s in slots && t in slots
    requires LineageGate(rows, OnSide(rows, slots, LeftSide), OnSide(rows, slots, RightSide))
    ensures SameProducers(rows[s.row], rows[t.row])
  {
    hide OnSide;
    hide LineageGate;
    var left, right := OnSide(rows, slots, LeftSide), OnSide(rows, slots, RightSide);
    GateHeads(rows, left, right);
    SideHead(rows, slots, s);
    SideHead(rows, slots, t);
    hide OneLineage;
  }

  lemma GateHeads(rows: seq<Row>, left: seq<Slot>, right: seq<Slot>)
    requires View.InRange(rows, left) && View.InRange(rows, right) && LineageGate(rows, left, right)
    ensures OneLineage(rows, left) && OneLineage(rows, right) && left != [] && right != []
    ensures rows[left[0].row].lineage.actor == rows[right[0].row].lineage.actor
    ensures rows[left[0].row].lineage.parent == rows[right[0].row].lineage.parent
  {
  }

  /** A slot shares the lineage of its side's first. */
  lemma SideHead(rows: seq<Row>, slots: seq<Slot>, s: Slot)
    requires View.InRange(rows, slots) && s in slots
    requires OneLineage(rows, OnSide(rows, slots, rows[s.row].side))
    ensures var kept := OnSide(rows, slots, rows[s.row].side);
            kept != [] && rows[s.row].lineage == rows[kept[0].row].lineage
  {
    hide OnSide;
    var x := SideIndex(rows, slots, s);
  }

  lemma ValuesApart(rows: seq<Row>, slots: seq<Slot>, s: Slot, t: Slot)
    requires View.InRange(rows, slots) && RecurringGate(rows, slots) && s in slots && t in slots
    ensures rows[s.row].side != rows[t.row].side ==> Value(rows, s) != Value(rows, t)
  {
    var x := SideIndex(rows, slots, s);
    var y := SideIndex(rows, slots, t);
    hide OnSide;
    hide Value;
  }

  /** A bucket's slot values. */
  function ValuesOf(rows: seq<Row>, slots: seq<Slot>): (r: seq<string>)
    requires View.InRange(rows, slots)
    ensures |r| == |slots| && forall x :: 0 <= x < |r| ==> r[x] == Value(rows, slots[x])
  {
    seq(|slots|, x requires 0 <= x < |slots| && View.InRange(rows, slots) => Value(rows, slots[x]))
  }

  lemma RecurringSlots(rows: seq<Row>, alnum: char -> bool, k: Key, slots: seq<Slot>, x: nat)
    requires Fills(RecurringFamily, rows, alnum, k, slots) && x < |slots|
    ensures slots[x].row < |rows| && Recurs(rows[slots[x].row], Value(rows, slots[x]), k.pattern, k.operation, alnum)
  {
    assert slots[x] in slots;
    FitsRecurring(rows, alnum, k, slots[x]);
    hide Fits;
    hide Recurs;
    hide Value;
  }

  lemma RecurringPairs(rows: seq<Row>, slots: seq<Slot>, x: nat, y: nat)
    requires View.InRange(rows, slots) && RecurringGate(rows, slots) && x < |slots| && y < |slots|
    ensures Related(rows[slots[x].row], Value(rows, slots[x]), rows[slots[y].row], Value(rows, slots[y]))
  {
    assert slots[x] in slots && slots[y] in slots;
    ValuesApart(rows, slots, slots[x], slots[y]);
    ProducersShared(rows, slots, slots[x], slots[y]);
    hide RecurringGate;
  }

  lemma RecurringCounts(rows: seq<Row>, slots: seq<Slot>)
    requires View.InRange(rows, slots) && RowsAscend(slots) && RecurringGate(rows, slots)
    ensures TwoOn(Chosen(rows, slots), LeftSide) && TwoOn(Chosen(rows, slots), RightSide)
    ensures CountsOn(Chosen(rows, slots), LeftSide) == CountsOn(Chosen(rows, slots), RightSide)
  {
    CountsAgree(rows, slots, LeftSide);
    CountsAgree(rows, slots, RightSide);
    hide CountsOn;
    hide Counts;
    hide LineageGate;
    hide Value;
    TwoMembers(rows, slots, LeftSide);
    TwoMembers(rows, slots, RightSide);
    hide OnSide;
  }

  lemma BucketBehind(family: Family, rows: seq<Row>, alnum: char -> bool, p: Proposal) returns (k: Key, slots: seq<Slot>)
    requires Proposed(family, rows, alnum, p)
    ensures Fills(family, rows, alnum, k, slots) && Gives(family, rows, k, slots, p)
  {
    hide Fills;
    hide Gives;
    k, slots :| Fills(family, rows, alnum, k, slots) && Gives(family, rows, k, slots, p);
  }

  lemma RecurringBucket(rows: seq<Row>, alnum: char -> bool, k: Key, slots: seq<Slot>, p: Proposal)
    requires Fills(RecurringFamily, rows, alnum, k, slots) && Gives(RecurringFamily, rows, k, slots, p)
    ensures View.InRange(rows, slots) && RowsAscend(slots) && RecurringGate(rows, slots)
    ensures (forall x :: 0 <= x < |p.members| ==> p.members[x] < |rows|)
    ensures MembersOf(rows, p.members) == Chosen(rows, slots) && p.pattern == k.pattern
    ensures p.rule == "R1-recurring-generated-family"
  {
    MembersAre(rows, p.members, slots);
    hide RecurringGate;
    hide Fits;
  }

  /** Every recurring proposal is such a family. */
  lemma RecurringMeans(rows: seq<Row>, alnum: char -> bool, p: Proposal)
    returns (members: seq<Row>, tokens: seq<string>, operation: string)
    requires Proposed(RecurringFamily, rows, alnum, p)
    ensures (forall x :: 0 <= x < |p.members| ==> p.members[x] < |rows|) && members == MembersOf(rows, p.members)
    ensures p.rule == "R1-recurring-generated-family" && RecurringGroup(members, alnum, p.pattern, tokens, operation)
  {
    hide *;
    var k, slots := BucketBehind(RecurringFamily, rows, alnum, p);
    RecurringBucket(rows, alnum, k, slots, p);
    members, operation, tokens := Chosen(rows, slots), k.operation, ValuesOf(rows, slots);
    RecurringCounts(rows, slots);
    forall x | 0 <= x < |members| ensures Recurs(members[x], tokens[x], p.pattern, operation, alnum) {
      RecurringSlots(rows, alnum, k, slots, x);
    }
    forall x, y | 0 <= x < |members| && 0 <= y < |members|
      ensures Related(members[x], tokens[x], members[y], tokens[y])
    {
      RecurringPairs(rows, slots, x, y);
    }
    RecurringFrom(members, alnum, p.pattern, tokens, operation);
  }

  lemma RecurringFrom(members: seq<Row>, alnum: char -> bool, pattern: string, tokens: seq<string>, operation: string)
    requires |tokens| == |members|
    requires forall x :: 0 <= x < |members| ==> Recurs(members[x], tokens[x], pattern, operation, alnum)
    requires forall x, y :: 0 <= x < |members| && 0 <= y < |members| ==>
               Related(members[x], tokens[x], members[y], tokens[y])
    requires TwoOn(members, LeftSide) && TwoOn(members, RightSide)
    requires CountsOn(members, LeftSide) == CountsOn(members, RightSide)
    ensures RecurringGroup(members, alnum, pattern, tokens, operation)
  {
    hide Recurs;
    hide Related;
    hide TwoOn;
    hide CountsOn;
  }

  // ---------- one paired subtree ----------

  /** A directory whose last varying part is the slot: no further directory follows it. */
  ghost predicate SlotLast(dir: string, token: string, pattern: string, alnum: char -> bool) {
    && |token| >= 4 && (forall c :: c in token ==> alnum(c))
    && exists before, after :: dir == before + token + after && pattern == before + "{slot}" + after && '/' !in after
  }

  ghost predicate Placed(row: Row, dir: string, token: string, relative: string, pattern: string, alnum: char -> bool) {
    row.eligible && row.path == dir + "/" + relative && SlotLast(dir, token, pattern, alnum)
  }

  /** The same file under the two directories. */
  predicate Twins(a: Row, ra: string, b: Row, rb: string) {
    a.side != b.side && ra == rb && a.operation == b.operation && a.count == b.count
  }

  predicate SameFile(a: Row, ra: string, b: Row, rb: string) {
    a.side == b.side && ra == rb && a.operation == b.operation && a.count == b.count
  }

  ghost predicate HasTwin(members: seq<Row>, relatives: seq<string>, x: nat)
    requires |relatives| == |members| && x < |members|
  {
    exists y :: 0 <= y < |members| && Twins(members[x], relatives[x], members[y], relatives[y])
  }

  ghost predicate ThreeOn(members: seq<Row>, side: Side) {
    exists x, y, z :: 0 <= x < y < z < |members| &&
                      members[x].side == side && members[y].side == side && members[z].side == side
  }

  function DirOf(side: Side, left: string, right: string): string { if side.LeftSide? then left else right }

  /** Members of a paired subtree: one directory a side, not the same one, in the slot of one pattern; every file
      of one side once, and with its twin on the other; at least three; one producer a side. */
  ghost predicate PairedGroup(members: seq<Row>, alnum: char -> bool, pattern: string, left: string, right: string,
                              tokens: seq<string>, relatives: seq<string>)
  {
    && |tokens| == |relatives| == |members| && left != right
    && (forall x :: 0 <= x < |members| ==>
          Placed(members[x], DirOf(members[x].side, left, right), tokens[x], relatives[x], pattern, alnum))
    && (forall x :: 0 <= x < |members| ==> HasTwin(members, relatives, x))
    && (forall x, y :: 0 <= x < |members| && 0 <= y < |members| ==> OwnFile(members, relatives, x, y))
    && ThreeOn(members, LeftSide)
  }

  /** Members share their producers, and no two are the same file. */
  predicate OwnFile(members: seq<Row>, relatives: seq<string>, x: nat, y: nat)
    requires |relatives| == |members| && x < |members| && y < |members|
  {
    SameProducers(members[x], members[y]) && (SameFile(members[x], relatives[x], members[y], relatives[y]) ==> x == y)
  }

  lemma {:induction false} NoSlashBetween(ts: seq<string>, i: nat)
    requires i < |ts| && Alternating(ts)
    ensures '/' !in Joined(ts[i + 1..NextSlash(ts, i)])
    decreases |ts| - i
  {
    if i + 1 < |ts| && ts[i + 1] != "/" {
      NoSlashBetween(ts, i + 1);
      var end := NextSlash(ts, i);
      assert ts[i + 1..end] == [ts[i + 1]] + ts[i + 2..end];
      JoinedCons(ts[i + 1], ts[i + 2..end]);
      assert '/' !in ts[i + 1] by {
        if (i + 1) % 2 == 1 { assert |ts[i + 1]| == 1; }
      }
    }
  }

  lemma DirectorySplits(ts: seq<string>, end: nat)
    requires end < |ts| && ts[end] == "/"
    ensures Joined(ts) == Joined(ts[..end]) + "/" + Joined(ts[end + 1..])
  {
    JoinedAround(ts, end);
  }

  lemma FitsNamespace(rows: seq<Row>, alnum: char -> bool, k: Key, s: Slot)
    requires Fits(rows, NamespaceRule(alnum), k, s)
    ensures Placed(rows[s.row], Literal(rows, s), Value(rows, s), RelOf(rows, s).relative, k.pattern, alnum)
  {
    var path := rows[s.row].path;
    var ts := Tokens(path);
    var end := NextSlash(ts, s.at);
    JoinSplit(path);
    TokensAlternate(path);
    DirectorySplits(ts, end);
    NoSlashBetween(ts, s.at);
    SlotInDirectory(ts, s.at, end, alnum);
    hide Tokens;
    hide Joined;
    hide NextSlash;
    hide SlotLast;
  }

  lemma SlotInDirectory(ts: seq<string>, i: nat, end: nat, alnum: char -> bool)
    requires i < end <= |ts| && Matchable(ts[i], alnum) && '/' !in Joined(ts[i + 1..end])
    ensures SlotLast(Joined(ts[..end]), ts[i], Slotted(ts[..end], i), alnum)
  {
    var us := ts[..end];
    JoinedAround(us, i);
    JoinedAround(us[i := SLOT], i);
    assert us[..i] == us[i := SLOT][..i] && us[i + 1..] == us[i := SLOT][i + 1..] == ts[i + 1..end];
    hide Joined;
    assert Joined(us) == Joined(us[..i]) + us[i] + Joined(us[i + 1..]);
    assert Slotted(us, i) == Joined(us[..i]) + "{slot}" + Joined(us[i + 1..]);
    forall c | c in ts[i] ensures alnum(c) { var x :| 0 <= x < |ts[i]| && ts[i][x] == c; }
  }

  lemma PairedBucket(rows: seq<Row>, alnum: char -> bool, k: Key, slots: seq<Slot>, p: Proposal) returns (grouped: seq<Slot>)
    requires Fills(PairedSubtree, rows, alnum, k, slots) && Gives(PairedSubtree, rows, k, slots, p)
    ensures View.InRange(rows, slots) && RowsAscend(slots) && NamespaceGate(rows, slots)
    ensures grouped == Paired(rows, slots, |slots|) && View.InRange(rows, grouped) && RowsAscend(grouped)
    ensures (forall x :: 0 <= x < |grouped| ==> grouped[x].row < |rows| && grouped[x] in slots)
    ensures (forall x :: 0 <= x < |p.members| ==> p.members[x] < |rows|)
    ensures MembersOf(rows, p.members) == Chosen(rows, grouped) && p.pattern == k.pattern
    ensures p.rule == "R2-paired-generated-subtree"
  {
    hide NamespaceGate;
    hide Fits;
    hide Shared;
    grouped := Paired(rows, slots, |slots|);
    PairedAscends(rows, slots, |slots|);
    MembersAre(rows, p.members, grouped);
    forall x | 0 <= x < |grouped| ensures grouped[x] in slots {
      assert grouped[x] in grouped && slots[..|slots|] == slots;
    }
  }

  /** One directory a side. */
  lemma OneDirectory(rows: seq<Row>, slots: seq<Slot>) returns (left: string, right: string)
    requires View.InRange(rows, slots) && NamespaceGate(rows, slots)
    ensures left != right
    ensures forall s :: s in slots ==> s.row < |rows| && Literal(rows, s) == DirOf(rows[s.row].side, left, right)
  {
    hide Literal;
    hide Paired;
    hide LineageGate;
    left, right := Literal(rows, OnSide(rows, slots, LeftSide)[0]), Literal(rows, OnSide(rows, slots, RightSide)[0]);
    forall s | s in slots ensures s.row < |rows| && Literal(rows, s) == DirOf(rows[s.row].side, left, right) {
      var x := SideIndex(rows, slots, s);
    }
  }

  lemma PlacedRow(rows: seq<Row>, alnum: char -> bool, k: Key, slots: seq<Slot>, s: Slot)
    requires Fills(PairedSubtree, rows, alnum, k, slots) && s in slots
    ensures s.row < |rows|
    ensures Placed(rows[s.row], Literal(rows, s), Value(rows, s), RelOf(rows, s).relative, k.pattern, alnum)
  {
    FitsNamespace(rows, alnum, k, s);
    hide Fits;
    hide Placed;
    hide Literal;
    hide Value;
    hide RelOf;
  }

  /** A grouped slot shares its relative key with one slot of the other side, which is grouped as well. */
  lemma GroupedTwin(rows: seq<Row>, slots: seq<Slot>, s: Slot) returns (t: Slot)
    requires View.InRange(rows, slots) && s in Paired(rows, slots, |slots|)
    ensures s in slots && t in Paired(rows, slots, |slots|) && t in slots
    ensures RelOf(rows, t) == RelOf(rows, s) && rows[t.row].side != rows[s.row].side
  {
    hide RelOf;
    assert slots[..|slots|] == slots;
    var key := RelOf(rows, s);
    assert Shared(rows, slots, key);
    var side := if rows[s.row].side.LeftSide? then RightSide else LeftSide;
    assert Unique(rows, slots, side, key);
    var x :| 0 <= x < |slots| && Carries(rows, slots, side, key, x);
    t := slots[x];
  }

  lemma GroupedOnce(rows: seq<Row>, slots: seq<Slot>, s: Slot, t: Slot)
    requires View.InRange(rows, slots) && s in Paired(rows, slots, |slots|) && t in slots
    requires RelOf(rows, t) == RelOf(rows, s) && rows[t.row].side == rows[s.row].side
    ensures s == t
  {
    hide RelOf;
    assert slots[..|slots|] == slots;
    var key := RelOf(rows, s);
    assert Unique(rows, slots, rows[s.row].side, key);
    var i :| 0 <= i < |slots| && slots[i] == s;
    var j :| 0 <= j < |slots| && slots[j] == t;
    assert Carries(rows, slots, rows[s.row].side, key, i) && Carries(rows, slots, rows[s.row].side, key, j);
  }

  lemma ThreeMembers(rows: seq<Row>, slots: seq<Slot>, side: Side)
    requires View.InRange(rows, slots) && RowsAscend(slots) && |OnSide(rows, slots, side)| >= 3
    ensures ThreeOn(Chosen(rows, slots), side)
  {
    hide OnSide;
    var i, j := SidePositions(rows, slots, side, 0, 1);
    var h, k := SidePositions(rows, slots, side, 1, 2);
    hide RowsAscend;
    SamePosition(slots, j, h);
  }

  lemma SamePosition(slots: seq<Slot>, i: nat, j: nat)
    requires RowsAscend(slots) && i < |slots| && j < |slots| && slots[i] == slots[j]
    ensures i == j
  {
  }

  function RelativesOf(rows: seq<Row>, slots: seq<Slot>): (r: seq<string>)
    requires View.InRange(rows, slots)
    ensures |r| == |slots| && forall x :: 0 <= x < |r| ==> r[x] == RelOf(rows, slots[x]).relative
  {
    seq(|slots|, x requires 0 <= x < |slots| && View.InRange(rows, slots) => RelOf(rows, slots[x]).relative)
  }

  lemma RelIs(rows: seq<Row>, s: Slot)
    requires s.row < |rows|
    ensures var k := RelOf(rows, s); k.operation == rows[s.row].operation && k.count == rows[s.row].count
  {
  }

  lemma SameRel(rows: seq<Row>, s: Slot, t: Slot)
    requires s.row < |rows| && t.row < |rows|
    ensures RelOf(rows, s) == RelOf(rows, t) <==>
              && RelOf(rows, s).relative == RelOf(rows, t).relative
              && rows[s.row].operation == rows[t.row].operation && rows[s.row].count == rows[t.row].count
  {
    RelIs(rows, s);
    RelIs(rows, t);
    hide RelOf;
  }

  /** The twin of a grouped slot, by position. */
  lemma TwinAt(rows: seq<Row>, slots: seq<Slot>, grouped: seq<Slot>, x: nat) returns (y: nat)
    requires View.InRange(rows, slots) && grouped == Paired(rows, slots, |slots|) && x < |grouped|
    ensures y < |grouped| && grouped[x].row < |rows| && grouped[y].row < |rows|
    ensures Twins(rows[grouped[x].row], RelOf(rows, grouped[x]).relative, rows[grouped[y].row], RelOf(rows, grouped[y]).relative)
  {
    hide RelOf;
    hide Paired;
    assert grouped[x] in grouped;
    var t := GroupedTwin(rows, slots, grouped[x]);
    y :| 0 <= y < |grouped| && grouped[y] == t;
    SameRel(rows, grouped[x], grouped[y]);
  }

  lemma OnceAt(rows: seq<Row>, slots: seq<Slot>, grouped: seq<Slot>, x: nat, y: nat)
    requires View.InRange(rows, slots) && grouped == Paired(rows, slots, |slots|) && x < |grouped| && y < |grouped|
    requires RowsAscend(grouped) && grouped[x].row < |rows| && grouped[y].row < |rows| && grouped[y] in slots
    requires SameFile(rows[grouped[x].row], RelOf(rows, grouped[x]).relative, rows[grouped[y].row], RelOf(rows, grouped[y]).relative)
    ensures x == y
  {
    hide RelOf;
    hide Paired;
    SameRel(rows, grouped[x], grouped[y]);
    assert grouped[x] in grouped;
    GroupedOnce(rows, slots, grouped[x], grouped[y]);
  }

  lemma GroupedProducers(rows: seq<Row>, slots: seq<Slot>, grouped: seq<Slot>, x: nat, y: nat)
    requires View.InRange(rows, slots) && NamespaceGate(rows, slots) && grouped == Paired(rows, slots, |slots|)
    requires View.InRange(rows, grouped) && x < |grouped| && y < |grouped|
    ensures SameProducers(rows[grouped[x].row], rows[grouped[y].row])
  {
    assert LineageGate(rows, OnSide(rows, grouped, LeftSide), OnSide(rows, grouped, RightSide));
    hide NamespaceGate;
    hide LineageGate;
    hide Paired;
    assert grouped[x] in grouped && grouped[y] in grouped;
    ProducersShared(rows, grouped, grouped[x], grouped[y]);
  }

  lemma ThreeGrouped(rows: seq<Row>, slots: seq<Slot>, grouped: seq<Slot>)
    requires View.InRange(rows, slots) && NamespaceGate(rows, slots) && grouped == Paired(rows, slots, |slots|)
    requires View.InRange(rows, grouped) && RowsAscend(grouped)
    ensures ThreeOn(Chosen(rows, grouped), LeftSide)
  {
    assert |OnSide(rows, grouped, LeftSide)| >= 3;
    hide NamespaceGate;
    hide Paired;
    ThreeMembers(rows, grouped, LeftSide);
  }

  lemma OwnFiles(rows: seq<Row>, slots: seq<Slot>, grouped: seq<Slot>, relatives: seq<string>, x: nat, y: nat)
    requires View.InRange(rows, slots) && NamespaceGate(rows, slots) && grouped == Paired(rows, slots, |slots|)
    requires View.InRange(rows, grouped) && RowsAscend(grouped) && x < |grouped| && y < |grouped|
    requires relatives == RelativesOf(rows, grouped) && grouped[y] in slots
    ensures OwnFile(Chosen(rows, grouped), relatives, x, y)
  {
    GroupedProducers(rows, slots, grouped, x, y);
    hide NamespaceGate;
    hide Paired;
    hide SameProducers;
    hide RowsAscend;
    var members := Chosen(rows, grouped);
    assert members[x] == rows[grouped[x].row] && members[y] == rows[grouped[y].row];
    if SameFile(members[x], relatives[x], members[y], relatives[y]) { OnceAt(rows, slots, grouped, x, y); }
    hide SameFile;
    hide RelOf;
  }

  /** Every paired proposal is such a subtree. */
  lemma PairedMeans(rows: seq<Row>, alnum: char -> bool, p: Proposal)
    returns (members: seq<Row>, left: string, right: string, tokens: seq<string>, relatives: seq<string>)
    requires Proposed(PairedSubtree, rows, alnum, p)
    ensures (forall x :: 0 <= x < |p.members| ==> p.members[x] < |rows|) && members == MembersOf(rows, p.members)
    ensures p.rule == "R2-paired-generated-subtree"
    ensures PairedGroup(members, alnum, p.pattern, left, right, tokens, relatives)
  {
    hide *;
    var k, slots := BucketBehind(PairedSubtree, rows, alnum, p);
    var grouped := PairedBucket(rows, alnum, k, slots, p);
    left, right := OneDirectory(rows, slots);
    members, tokens, relatives := Chosen(rows, grouped), ValuesOf(rows, grouped), RelativesOf(rows, grouped);
    ThreeGrouped(rows, slots, grouped);
    forall x | 0 <= x < |members|
      ensures Placed(members[x], DirOf(members[x].side, left, right), tokens[x], relatives[x], p.pattern, alnum)
    {
      PlacedRow(rows, alnum, k, slots, grouped[x]);
    }
    forall x | 0 <= x < |members| ensures HasTwin(members, relatives, x) {
      var y := TwinAt(rows, slots, grouped, x);
      TwinFound(members, relatives, x, y);
    }
    forall x, y | 0 <= x < |members| && 0 <= y < |members| ensures OwnFile(members, relatives, x, y) {
      OwnFiles(rows, slots, grouped, relatives, x, y);
    }
    PairedFrom(members, alnum, p.pattern, left, right, tokens, relatives);
  }

  lemma TwinFound(members: seq<Row>, relatives: seq<string>, x: nat, y: nat)
    requires |relatives| == |members| && x < |members| && y < |members|
    requires Twins(members[x], relatives[x], members[y], relatives[y])
    ensures HasTwin(members, relatives, x)
  {
  }

  lemma PairedFrom(members: seq<Row>, alnum: char -> bool, pattern: string, left: string, right: string,
                   tokens: seq<string>, relatives: seq<string>)
    requires |tokens| == |relatives| == |members| && left != right
    requires forall x :: 0 <= x < |members| ==>
               Placed(members[x], DirOf(members[x].side, left, right), tokens[x], relatives[x], pattern, alnum)
    requires forall x :: 0 <= x < |members| ==> HasTwin(members, relatives, x)
    requires forall x, y :: 0 <= x < |members| && 0 <= y < |members| ==> OwnFile(members, relatives, x, y)
    requires ThreeOn(members, LeftSide)
    ensures PairedGroup(members, alnum, pattern, left, right, tokens, relatives)
  {
    hide Placed;
    hide HasTwin;
    hide OwnFile;
    hide ThreeOn;
  }

  // ---------- the gates on rows ----------

  lemma KeptAt(rows: seq<Row>, slots: seq<Slot>, side: Side, i: nat) returns (x: nat)
    requires View.InRange(rows, slots) && i < |slots| && Chosen(rows, slots)[i].side == side
    ensures x < |OnSide(rows, slots, side)| && OnSide(rows, slots, side)[x] == slots[i]
  {
    assert slots[i] in slots;
    x := SideIndex(rows, slots, slots[i]);
  }

  lemma TwoSlots(rows: seq<Row>, slots: seq<Slot>, side: Side)
    requires View.InRange(rows, slots) && RowsAscend(slots) && TwoOn(Chosen(rows, slots), side)
    ensures |OnSide(rows, slots, side)| >= 2
  {
    hide OnSide;
    var members := Chosen(rows, slots);
    var x, y :| 0 <= x < y < |members| && members[x].side == side && members[y].side == side;
    var i := KeptAt(rows, slots, side, x);
    var j := KeptAt(rows, slots, side, y);
    assert slots[x].row < slots[y].row;
    hide Chosen;
    assert i != j;
  }

  lemma ThreeSlots(rows: seq<Row>, slots: seq<Slot>, side: Side)
    requires View.InRange(rows, slots) && RowsAscend(slots) && ThreeOn(Chosen(rows, slots), side)
    ensures |OnSide(rows, slots, side)| >= 3
  {
    hide OnSide;
    var members := Chosen(rows, slots);
    var x, y, z :| 0 <= x < y < z < |members| && members[x].side == side && members[y].side == side && members[z].side == side;
    var i := KeptAt(rows, slots, side, x);
    var j := KeptAt(rows, slots, side, y);
    var k := KeptAt(rows, slots, side, z);
    assert slots[x].row < slots[y].row < slots[z].row;
    hide Chosen;
    assert i != j && j != k && i != k;
  }

  /** Producers shared by all members pass the lineage gate. */
  lemma LineageFrom(rows: seq<Row>, slots: seq<Slot>)
    requires View.InRange(rows, slots)
    requires OnSide(rows, slots, LeftSide) != [] && OnSide(rows, slots, RightSide) != []
    requires forall x, y :: 0 <= x < |slots| && 0 <= y < |slots| ==>
               SameProducers(Chosen(rows, slots)[x], Chosen(rows, slots)[y])
    ensures LineageGate(rows, OnSide(rows, slots, LeftSide), OnSide(rows, slots, RightSide))
  {
    var members := Chosen(rows, slots);
    forall side, i, other, j
      | 0 <= i < |OnSide(rows, slots, side)| && 0 <= j < |OnSide(rows, slots, other)|
      ensures SameProducers(rows[OnSide(rows, slots, side)[i].row], rows[OnSide(rows, slots, other)[j].row])
      ensures rows[OnSide(rows, slots, side)[i].row].side == side
    {
      var x := SidePosition(rows, slots, side, i);
      var y := SidePosition(rows, slots, other, j);
      assert SameProducers(members[x], members[y]);
    }
    hide OnSide;
  }

  lemma ValuesFrom(rows: seq<Row>, slots: seq<Slot>)
    requires View.InRange(rows, slots)
    requires forall x, y :: 0 <= x < |slots| && 0 <= y < |slots| ==>
               Related(Chosen(rows, slots)[x], ValuesOf(rows, slots)[x], Chosen(rows, slots)[y], ValuesOf(rows, slots)[y])
    ensures var left, right := OnSide(rows, slots, LeftSide), OnSide(rows, slots, RightSide);
            forall i, j :: 0 <= i < |left| && 0 <= j < |right| ==> Value(rows, left[i]) != Value(rows, right[j])
  {
    var left, right := OnSide(rows, slots, LeftSide), OnSide(rows, slots, RightSide);
    var members, values := Chosen(rows, slots), ValuesOf(rows, slots);
    forall i, j | 0 <= i < |left| && 0 <= j < |right| ensures Value(rows, left[i]) != Value(rows, right[j]) {
      var x := SidePosition(rows, slots, LeftSide, i);
      var y := SidePosition(rows, slots, RightSide, j);
      assert Related(members[x], values[x], members[y], values[y]);
    }
  }

  /** A complete bucket passes the recurring gate exactly when its rows form a recurring family. */
  lemma RecurringDecided(rows: seq<Row>, alnum: char -> bool, k: Key, slots: seq<Slot>)
    requires Fills(RecurringFamily, rows, alnum, k, slots)
    ensures View.InRange(rows, slots)
    ensures RecurringGate(rows, slots) <==>
              RecurringGroup(Chosen(rows, slots), alnum, k.pattern, ValuesOf(rows, slots), k.operation)
  {
    assert View.InRange(rows, slots) && RowsAscend(slots);
    var members, values := Chosen(rows, slots), ValuesOf(rows, slots);
    hide *;
    forall x | 0 <= x < |members| ensures Recurs(members[x], values[x], k.pattern, k.operation, alnum) {
      RecurringSlots(rows, alnum, k, slots, x);
    }
    if RecurringGate(rows, slots) {
      RecurringCounts(rows, slots);
      forall x, y | 0 <= x < |members| && 0 <= y < |members|
        ensures Related(members[x], values[x], members[y], values[y])
      {
        RecurringPairs(rows, slots, x, y);
      }
      RecurringFrom(members, alnum, k.pattern, values, k.operation);
    }
    if RecurringGroup(members, alnum, k.pattern, values, k.operation) {
      RecurringGated(rows, alnum, k, slots);
    }
  }

  lemma RecurringGated(rows: seq<Row>, alnum: char -> bool, k: Key, slots: seq<Slot>)
    requires View.InRange(rows, slots) && RowsAscend(slots)
    requires RecurringGroup(Chosen(rows, slots), alnum, k.pattern, ValuesOf(rows, slots), k.operation)
    ensures RecurringGate(rows, slots)
  {
    hide Recurs;
    hide TwoOn;
    hide CountsOn;
    hide RowsAscend;
    TwoSlots(rows, slots, LeftSide);
    TwoSlots(rows, slots, RightSide);
    CountsAgree(rows, slots, LeftSide);
    CountsAgree(rows, slots, RightSide);
    ValuesFrom(rows, slots);
    forall x, y | 0 <= x < |slots| && 0 <= y < |slots|
      ensures SameProducers(Chosen(rows, slots)[x], Chosen(rows, slots)[y])
    {
      assert Related(Chosen(rows, slots)[x], ValuesOf(rows, slots)[x], Chosen(rows, slots)[y], ValuesOf(rows, slots)[y]);
    }
    hide OnSide;
    hide Chosen;
    hide ValuesOf;
    hide Related;
    hide SameProducers;
    hide LineageGate;
    LineageFrom(rows, slots);
  }

  /** Every row of the bucket lies in its side's directory. */
  predicate InDirectories(rows: seq<Row>, slots: seq<Slot>, left: string, right: string)
    requires View.InRange(rows, slots)
  {
    left != right && forall x :: 0 <= x < |slots| ==> Literal(rows, slots[x]) == DirOf(Chosen(rows, slots)[x].side, left, right)
  }

  /** A slot is grouped exactly when its file occurs once on its own side of the bucket and once on the other. */
  lemma GroupedMeans(rows: seq<Row>, slots: seq<Slot>, s: Slot)
    requires View.InRange(rows, slots) && NoneTwice(slots) && s in slots
    ensures s in Paired(rows, slots, |slots|) <==>
              && (forall u :: u in slots && RelOf(rows, u) == RelOf(rows, s) && rows[u.row].side == rows[s.row].side ==> u == s)
              && (exists t :: t in slots && Opposite(rows, s, t) && forall u :: u in slots && Opposite(rows, s, u) ==> u == t)
  {
    hide RelOf;
    assert slots[..|slots|] == slots;
    var key := RelOf(rows, s);
    var other := if rows[s.row].side.LeftSide? then RightSide else LeftSide;
    var i :| 0 <= i < |slots| && slots[i] == s;
    assert Carries(rows, slots, rows[s.row].side, key, i);
    OwnUnique(rows, slots, i);
    OtherUnique(rows, slots, i, other);
    hide Paired;
    hide Unique;
    hide Opposite;
  }

  predicate NoneTwice(slots: seq<Slot>) { forall x, y :: 0 <= x < y < |slots| ==> slots[x] != slots[y] }

  /** The same file on the other side. */
  predicate Opposite(rows: seq<Row>, s: Slot, t: Slot)
    requires s.row < |rows|
  {
    t.row < |rows| && rows[t.row].side != rows[s.row].side && RelOf(rows, t) == RelOf(rows, s)
  }

  lemma OwnUnique(rows: seq<Row>, slots: seq<Slot>, i: nat)
    requires View.InRange(rows, slots) && NoneTwice(slots) && i < |slots|
    ensures Unique(rows, slots, rows[slots[i].row].side, RelOf(rows, slots[i])) <==>
              forall u :: u in slots && RelOf(rows, u) == RelOf(rows, slots[i]) && rows[u.row].side == rows[slots[i].row].side
                ==> u == slots[i]
  {
    hide RelOf;
    var side, key := rows[slots[i].row].side, RelOf(rows, slots[i]);
    assert Carries(rows, slots, side, key, i);
    if Unique(rows, slots, side, key) {
      var x :| 0 <= x < |slots| && Carries(rows, slots, side, key, x) &&
               forall y :: 0 <= y < |slots| && Carries(rows, slots, side, key, y) ==> y == x;
      forall u | u in slots && RelOf(rows, u) == key && rows[u.row].side == side ensures u == slots[i] {
        var y :| 0 <= y < |slots| && slots[y] == u;
        assert Carries(rows, slots, side, key, y);
      }
    }
    if forall u :: u in slots && RelOf(rows, u) == key && rows[u.row].side == side ==> u == slots[i] {
      forall y | 0 <= y < |slots| && Carries(rows, slots, side, key, y) ensures y == i {
        assert slots[y] in slots;
      }
    }
  }

  /** On the other side, a slot carries the relative key exactly when it is the same file. */
  lemma CarriesOpposite(rows: seq<Row>, slots: seq<Slot>, s: Slot, other: Side, x: nat)
    requires View.InRange(rows, slots) && s.row < |rows| && other != rows[s.row].side && x < |slots|
    ensures Carries(rows, slots, other, RelOf(rows, s), x) <==> Opposite(rows, s, slots[x])
  {
    hide RelOf;
  }

  ghost predicate OneAt(slots: seq<Slot>, p: Slot -> bool) {
    exists x :: 0 <= x < |slots| && p(slots[x]) && forall y :: 0 <= y < |slots| && p(slots[y]) ==> y == x
  }

  ghost predicate OneIn(slots: seq<Slot>, p: Slot -> bool) {
    exists t :: t in slots && p(t) && forall u :: u in slots && p(u) ==> u == t
  }

  lemma OneByPosition(slots: seq<Slot>, p: Slot -> bool)
    requires NoneTwice(slots)
    ensures OneAt(slots, p) <==> OneIn(slots, p)
  {
    hide NoneTwice;
    if OneAt(slots, p) { OnceIn(slots, p); }
    if OneIn(slots, p) { OncePlaced(slots, p); }
  }

  lemma OnceIn(slots: seq<Slot>, p: Slot -> bool)
    requires OneAt(slots, p)
    ensures OneIn(slots, p)
  {
    var x :| 0 <= x < |slots| && p(slots[x]) && forall y :: 0 <= y < |slots| && p(slots[y]) ==> y == x;
    assert slots[x] in slots;
    forall u | u in slots && p(u) ensures u == slots[x] {
      var y :| 0 <= y < |slots| && slots[y] == u;
    }
  }

  lemma OncePlaced(slots: seq<Slot>, p: Slot -> bool)
    requires NoneTwice(slots) && OneIn(slots, p)
    ensures OneAt(slots, p)
  {
    var t :| t in slots && p(t) && forall u :: u in slots && p(u) ==> u == t;
    var x :| 0 <= x < |slots| && slots[x] == t;
    forall y | 0 <= y < |slots| && p(slots[y]) ensures y == x { assert slots[y] in slots; }
  }

  lemma UniqueIsOne(rows: seq<Row>, slots: seq<Slot>, s: Slot, other: Side)
    requires View.InRange(rows, slots) && s.row < |rows| && other != rows[s.row].side
    ensures Unique(rows, slots, other, RelOf(rows, s)) <==>
              OneAt(slots, u => s.row < |rows| && Opposite(rows, s, u))
  {
    forall x | 0 <= x < |slots| ensures Carries(rows, slots, other, RelOf(rows, s), x) <==> Opposite(rows, s, slots[x]) {
      CarriesOpposite(rows, slots, s, other, x);
    }
    hide RelOf;
    hide Carries;
    hide Opposite;
  }

  lemma OtherUnique(rows: seq<Row>, slots: seq<Slot>, i: nat, other: Side)
    requires View.InRange(rows, slots) && NoneTwice(slots) && i < |slots| && other != rows[slots[i].row].side
    ensures Unique(rows, slots, other, RelOf(rows, slots[i])) <==>
              exists t :: t in slots && Opposite(rows, slots[i], t) &&
                          forall u :: u in slots && Opposite(rows, slots[i], u) ==> u == t
  {
    hide RelOf;
    hide Unique;
    hide Opposite;
    hide NoneTwice;
    var s := slots[i];
    var p := (u: Slot) => s.row < |rows| && Opposite(rows, s, u);
    UniqueIsOne(rows, slots, s, other);
    OneByPosition(slots, p);
    hide OneAt;
  }

  lemma PairedRows(rows: seq<Row>, alnum: char -> bool, k: Key, slots: seq<Slot>) returns (grouped: seq<Slot>)
    requires Fills(PairedSubtree, rows, alnum, k, slots)
    ensures View.InRange(rows, slots) && RowsAscend(slots)
    ensures grouped == Paired(rows, slots, |slots|) && View.InRange(rows, grouped) && RowsAscend(grouped)
    ensures forall x :: 0 <= x < |grouped| ==> grouped[x].row < |rows| && grouped[x] in slots
  {
    hide Fits;
    hide Shared;
    grouped := Paired(rows, slots, |slots|);
    PairedAscends(rows, slots, |slots|);
    forall x | 0 <= x < |grouped| ensures grouped[x] in slots {
      assert grouped[x] in grouped && slots[..|slots|] == slots;
    }
  }

  /** A passing bucket's grouped rows form a paired subtree in the bucket's two directories. */
  lemma GatePairs(rows: seq<Row>, alnum: char -> bool, k: Key, slots: seq<Slot>, grouped: seq<Slot>)
    returns (left: string, right: string)
    requires Fills(PairedSubtree, rows, alnum, k, slots) && View.InRange(rows, slots) && NamespaceGate(rows, slots)
    requires grouped == Paired(rows, slots, |slots|) && View.InRange(rows, grouped) && RowsAscend(grouped)
    requires forall x :: 0 <= x < |grouped| ==> grouped[x].row < |rows| && grouped[x] in slots
    ensures InDirectories(rows, slots, left, right)
    ensures PairedGroup(Chosen(rows, grouped), alnum, k.pattern, left, right, ValuesOf(rows, grouped), RelativesOf(rows, grouped))
  {
    hide *;
    left, right := OneDirectory(rows, slots);
    var members, tokens, relatives := Chosen(rows, grouped), ValuesOf(rows, grouped), RelativesOf(rows, grouped);
    DirectoriesFrom(rows, slots, left, right);
    ThreeGrouped(rows, slots, grouped);
    forall x | 0 <= x < |members|
      ensures Placed(members[x], DirOf(members[x].side, left, right), tokens[x], relatives[x], k.pattern, alnum)
    {
      PlacedRow(rows, alnum, k, slots, grouped[x]);
    }
    forall x | 0 <= x < |members| ensures HasTwin(members, relatives, x) {
      var y := TwinAt(rows, slots, grouped, x);
      TwinFound(members, relatives, x, y);
    }
    forall x, y | 0 <= x < |members| && 0 <= y < |members| ensures OwnFile(members, relatives, x, y) {
      OwnFiles(rows, slots, grouped, relatives, x, y);
    }
    PairedFrom(members, alnum, k.pattern, left, right, tokens, relatives);
  }

  lemma DirectoriesFrom(rows: seq<Row>, slots: seq<Slot>, left: string, right: string)
    requires View.InRange(rows, slots) && left != right
    requires forall s :: s in slots ==> s.row < |rows| && Literal(rows, s) == DirOf(rows[s.row].side, left, right)
    ensures InDirectories(rows, slots, left, right)
  {
    hide Literal;
    assert forall x :: 0 <= x < |slots| ==> slots[x] in slots;
  }

  lemma SideDirectory(rows: seq<Row>, slots: seq<Slot>, left: string, right: string, side: Side)
    requires View.InRange(rows, slots) && InDirectories(rows, slots, left, right) && OnSide(rows, slots, side) != []
    ensures OneLiteral(rows, OnSide(rows, slots, side)) && Literal(rows, OnSide(rows, slots, side)[0]) == DirOf(side, left, right)
  {
    hide Literal;
    var kept := OnSide(rows, slots, side);
    forall x | 0 <= x < |kept| ensures Literal(rows, kept[x]) == DirOf(side, left, right) {
      var i := SidePosition(rows, slots, side, x);
    }
    hide OnSide;
  }

  lemma GroupedSides(rows: seq<Row>, slots: seq<Slot>, grouped: seq<Slot>, side: Side)
    requires View.InRange(rows, slots) && View.InRange(rows, grouped) && OnSide(rows, grouped, side) != []
    requires forall x :: 0 <= x < |grouped| ==> grouped[x] in slots
    ensures OnSide(rows, slots, side) != []
  {
    var i := SidePosition(rows, grouped, side, 0);
    var x := SideIndex(rows, slots, grouped[i]);
    hide OnSide;
  }

  lemma OtherSide(rows: seq<Row>, grouped: seq<Slot>, alnum: char -> bool, pattern: string, left: string, right: string)
    requires View.InRange(rows, grouped) && RowsAscend(grouped)
    requires PairedGroup(Chosen(rows, grouped), alnum, pattern, left, right, ValuesOf(rows, grouped), RelativesOf(rows, grouped))
    ensures |OnSide(rows, grouped, LeftSide)| >= 3 && OnSide(rows, grouped, RightSide) != []
    ensures LineageGate(rows, OnSide(rows, grouped, LeftSide), OnSide(rows, grouped, RightSide))
  {
    var members, relatives := Chosen(rows, grouped), RelativesOf(rows, grouped);
    GroupParts(members, alnum, pattern, left, right, ValuesOf(rows, grouped), relatives);
    hide *;
    ThreeSlots(rows, grouped, LeftSide);
    TwinOnRight(rows, grouped, relatives);
    forall x, z | 0 <= x < |grouped| && 0 <= z < |grouped| ensures SameProducers(members[x], members[z]) {
      OwnProducers(members, relatives, x, z);
    }
    LineageFrom(rows, grouped);
  }

  lemma GroupParts(members: seq<Row>, alnum: char -> bool, pattern: string, left: string, right: string,
                   tokens: seq<string>, relatives: seq<string>)
    requires PairedGroup(members, alnum, pattern, left, right, tokens, relatives)
    ensures |relatives| == |members| && ThreeOn(members, LeftSide)
    ensures forall x :: 0 <= x < |members| ==> HasTwin(members, relatives, x)
    ensures forall x, y :: 0 <= x < |members| && 0 <= y < |members| ==> OwnFile(members, relatives, x, y)
  {
    hide ThreeOn;
    hide HasTwin;
    hide OwnFile;
    hide Placed;
  }

  lemma OwnProducers(members: seq<Row>, relatives: seq<string>, x: nat, y: nat)
    requires |relatives| == |members| && x < |members| && y < |members| && OwnFile(members, relatives, x, y)
    ensures SameProducers(members[x], members[y])
  {
  }

  lemma TwinOnRight(rows: seq<Row>, grouped: seq<Slot>, relatives: seq<string>)
    requires View.InRange(rows, grouped) && |relatives| == |grouped| && OnSide(rows, grouped, LeftSide) != []
    requires forall x :: 0 <= x < |grouped| ==> HasTwin(Chosen(rows, grouped), relatives, x)
    ensures OnSide(rows, grouped, RightSide) != []
  {
    hide OnSide;
    var members := Chosen(rows, grouped);
    var i := SidePosition(rows, grouped, LeftSide, 0);
    assert HasTwin(members, relatives, i);
    var y :| 0 <= y < |members| && Twins(members[i], relatives[i], members[y], relatives[y]);
    var j := KeptAt(rows, grouped, RightSide, y);
  }

  /** A complete bucket passes the paired gate exactly when it lies in one directory a side and its grouped rows
      form a paired subtree there. */
  lemma PairedDecided(rows: seq<Row>, alnum: char -> bool, k: Key, slots: seq<Slot>) returns (grouped: seq<Slot>)
    requires Fills(PairedSubtree, rows, alnum, k, slots)
    ensures View.InRange(rows, slots) && grouped == Paired(rows, slots, |slots|) && View.InRange(rows, grouped)
    ensures NamespaceGate(rows, slots) <==>
              exists left, right ::
                InDirectories(rows, slots, left, right) &&
                PairedGroup(Chosen(rows, grouped), alnum, k.pattern, left, right, ValuesOf(rows, grouped),
                            RelativesOf(rows, grouped))
  {
    hide *;
    grouped := PairedRows(rows, alnum, k, slots);
    if NamespaceGate(rows, slots) { var left, right := GatePairs(rows, alnum, k, slots, grouped); }
    if left, right :|
      InDirectories(rows, slots, left, right) &&
      PairedGroup(Chosen(rows, grouped), alnum, k.pattern, left, right, ValuesOf(rows, grouped), RelativesOf(rows, grouped))
    {
      OtherSide(rows, grouped, alnum, k.pattern, left, right);
      GroupedSides(rows, slots, grouped, LeftSide);
      GroupedSides(rows, slots, grouped, RightSide);
      SideDirectory(rows, slots, left, right, LeftSide);
      SideDirectory(rows, slots, left, right, RightSide);
      NamespaceFrom(rows, slots, grouped, left, right);
    }
  }

  lemma NamespaceFrom(rows: seq<Row>, slots: seq<Slot>, grouped: seq<Slot>, left: string, right: string)
    requires View.InRange(rows, slots) && grouped == Paired(rows, slots, |slots|) && View.InRange(rows, grouped)
    requires OneLiteral(rows, OnSide(rows, slots, LeftSide)) && OneLiteral(rows, OnSide(rows, slots, RightSide))
    requires OnSide(rows, slots, LeftSide) != [] && OnSide(rows, slots, RightSide) != []
    requires Literal(rows, OnSide(rows, slots, LeftSide)[0]) == DirOf(LeftSide, left, right)
    requires Literal(rows, OnSide(rows, slots, RightSide)[0]) == DirOf(RightSide, left, right)
    requires InDirectories(rows, slots, left, right)
    requires |OnSide(rows, grouped, LeftSide)| >= 3 && OnSide(rows, grouped, RightSide) != []
    requires LineageGate(rows, OnSide(rows, grouped, LeftSide), OnSide(rows, grouped, RightSide))
    ensures NamespaceGate(rows, slots)
  {
    hide OnSide;
    hide Paired;
    hide OneLiteral;
    hide LineageGate;
    hide Literal;
  }
}
