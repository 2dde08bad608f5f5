/** The experimental grouping view: tokens, two grouping rules, and the disjoint selection. */
module View {
  import opened Ordered

  // ---------- tokens ----------

  predicate Separator(c: char) { c == '/' || c == '.' || c == '_' || c == '-' }

  /** Splitting on every separator and keeping it: texts at even positions, separators between. */
  function Tokens(path: string): (ts: seq<string>)
    ensures |ts| % 2 == 1
  {
    if path == "" then [""]
    else
      var rest := Tokens(path[1..]);
      if Separator(path[0]) then ["", [path[0]]] + rest
      else [[path[0]] + rest[0]] + rest[1..]
  }

  function Joined(ts: seq<string>): string { if ts == [] then "" else ts[0] + Joined(ts[1..]) }

  predicate Plain(text: string) { forall i :: 0 <= i < |text| ==> !Separator(text[i]) }

  /** Alternating plain texts and single separators. */
  predicate Alternating(ts: seq<string>) {
    |ts| % 2 == 1 &&
    forall i :: 0 <= i < |ts| ==> if i % 2 == 0 then Plain(ts[i]) else |ts[i]| == 1 && Separator(ts[i][0])
  }

  lemma {:induction false} TokensAlternate(path: string)
    ensures Alternating(Tokens(path))
  {
    if path != "" {
      TokensAlternate(path[1..]);
      var rest, ts := Tokens(path[1..]), Tokens(path);
      forall i | 0 <= i < |ts|
        ensures if i % 2 == 0 then Plain(ts[i]) else |ts[i]| == 1 && Separator(ts[i][0])
      {
        if Separator(path[0]) {
          if i >= 2 { assert ts[i] == rest[i - 2]; }
        } else {
          if i >= 1 { assert ts[i] == rest[i]; }
        }
      }
    }
  }

  lemma JoinedCons(first: string, rest: seq<string>)
    ensures Joined([first] + rest) == first + Joined(rest)
  {
    assert ([first] + rest)[1..] == rest;
  }

  /** Splitting loses nothing. */
  lemma {:induction false} JoinSplit(path: string)
    ensures Joined(Tokens(path)) == path
  {
    hide Joined;
    if path == "" {
      JoinedCons("", []);
      JoinedNothing();
      assert [""] + [] == [""];
    } else {
      JoinSplit(path[1..]);
      var rest := Tokens(path[1..]);
      assert rest == [rest[0]] + rest[1..];
      JoinedCons(rest[0], rest[1..]);
      if Separator(path[0]) {
        JoinedCons([path[0]], rest);
        JoinedCons("", [[path[0]]] + rest);
        assert ["", [path[0]]] + rest == [""] + ([[path[0]]] + rest);
      } else {
        JoinedCons([path[0]] + rest[0], rest[1..]);
      }
    }
  }

  lemma JoinedNothing()
    ensures Joined([]) == ""
  {
  }

  lemma {:induction false} TokensPlainPrefix(text: string, path: string)
    requires Plain(text)
    ensures Tokens(text + path) == [text + Tokens(path)[0]] + Tokens(path)[1..]
  {
    if text == "" {
      assert text + path == path;
      assert text + Tokens(path)[0] == Tokens(path)[0];
    } else {
      var first, after := Tokens(path)[0], Tokens(path)[1..];
      TokensPlainPrefix(text[1..], path);
      var rest := Tokens(text[1..] + path);
      assert (text + path)[1..] == text[1..] + path && (text + path)[0] == text[0];
      assert rest == [text[1..] + first] + after;
      assert Tokens(text + path) == [[text[0]] + rest[0]] + rest[1..];
      assert rest[1..] == after;
      assert rest[0] == text[1..] + first;
      assert [text[0]] + rest[0] == text + first;
    }
  }

  /** Joining loses nothing either, for any alternating list. */
  lemma {:induction false} SplitJoin(ts: seq<string>)
    requires Alternating(ts)
    ensures Tokens(Joined(ts)) == ts
    decreases |ts|
  {
    var first := ts[0];
    if |ts| == 1 {
      assert ts[1..] == [];
      TokensPlainPrefix(first, "");
      assert first + "" == first && ts == [first];
    } else {
      var rest := ts[2..];
      forall i | 0 <= i < |rest|
        ensures if i % 2 == 0 then Plain(rest[i]) else |rest[i]| == 1 && Separator(rest[i][0])
      {
        assert rest[i] == ts[i + 2];
      }
      SplitJoin(rest);
      var tail := Joined(ts[1..]);
      assert ts[1] == [ts[1][0]] && ts[1..][1..] == rest;
      assert tail == [ts[1][0]] + Joined(rest);
      assert tail[1..] == Joined(rest);
      assert Tokens(tail) == ["", [ts[1][0]]] + rest;
      TokensPlainPrefix(first, tail);
      assert first + "" == first;
      assert ts == [first, ts[1]] + rest;
    }
  }

  // ---------- slots ----------

  const SLOT := "{slot}"

  predicate Alphanumeric(text: string, alnum: char -> bool) {
    text != "" && forall i :: 0 <= i < |text| ==> alnum(text[i])
  }

  predicate Matchable(text: string, alnum: char -> bool) { |text| >= 4 && Alphanumeric(text, alnum) }

  datatype Side = LeftSide | RightSide

  datatype Lineage = Lineage(actorInstance: string, parentInstance: string, actor: string, parent: string)

  datatype Row = Row(
    index: nat, eligible: bool, path: string, operation: string, side: Side, lineage: Lineage, count: nat)

  datatype Key = Key(pattern: string, operation: string)

  predicate SlotAt(row: Row, i: nat, alnum: char -> bool) {
    i < |Tokens(row.path)| && Matchable(Tokens(row.path)[i], alnum)
  }

  /** The path with one token replaced. */
  function Slotted(ts: seq<string>, i: nat): string
    requires i < |ts|
  {
    Joined(ts[i := SLOT])
  }

  /** First `/` token after a position, or the end. */
  function NextSlash(ts: seq<string>, i: nat): (n: nat)
    requires i < |ts|
    ensures i < n <= |ts|
    ensures n < |ts| ==> ts[n] == "/"
    decreases |ts| - i
  {
    if i + 1 == |ts| || ts[i + 1] == "/" then i + 1 else NextSlash(ts, i + 1)
  }

  /** Bucket of a slot under the first rule: the whole path, per operation. */
  function RecurringKey(row: Row, i: nat, alnum: char -> bool): Option<Key> {
    if SlotAt(row, i, alnum) then Some(Key(Slotted(Tokens(row.path), i), row.operation)) else None
  }

  /** Bucket of a slot under the second rule: the path up to the directory end, when there is one. */
  function NamespaceKey(row: Row, i: nat, alnum: char -> bool): Option<Key> {
    if !SlotAt(row, i, alnum) then None
    else
      var ts := Tokens(row.path);
      var end := NextSlash(ts, i);
      if end == |ts| then None else Some(Key(Slotted(ts[..end], i), ""))
  }

  lemma SlotIsPlain(alnum: char -> bool)
    requires !alnum('{')
    ensures Plain(SLOT) && !Alphanumeric(SLOT, alnum)
  {
    assert SLOT[0] == '{';
  }

  lemma SlottedAlternates(ts: seq<string>, i: nat)
    requires Alternating(ts) && i < |ts| && i % 2 == 0
    ensures Alternating(ts[i := SLOT])
  {
    assert Plain(SLOT);
  }

  /** Two different slots of one token list never give the same pattern. */
  lemma SlotsDiffer(ts: seq<string>, us: seq<string>, i: nat, j: nat, alnum: char -> bool)
    requires Alternating(ts) && Alternating(us) && !alnum('{')
    requires i < |ts| && j < |us| && i % 2 == 0 && j % 2 == 0
    requires i < |us| ==> us[i] == ts[i]
    requires Matchable(ts[i], alnum)
    requires Slotted(ts, i) == Slotted(us, j)
    ensures i == j
  {
    SlottedAlternates(ts, i);
    SlottedAlternates(us, j);
    SplitJoin(ts[i := SLOT]);
    SplitJoin(us[j := SLOT]);
    SlotIsPlain(alnum);
    assert ts[i := SLOT] == us[j := SLOT];
    assert ts[i := SLOT][i] == SLOT;
    assert us[j := SLOT][i] == SLOT;
  }

  lemma MatchableIsText(ts: seq<string>, i: nat, alnum: char -> bool)
    requires Alternating(ts) && i < |ts| && Matchable(ts[i], alnum)
    ensures i % 2 == 0
  {
  }

  /** No row enters one bucket twice, under either rule. */
  lemma RecurringOnce(row: Row, i: nat, j: nat, alnum: char -> bool)
    requires !alnum('{') && RecurringKey(row, i, alnum).Some?
    requires RecurringKey(row, i, alnum) == RecurringKey(row, j, alnum)
    ensures i == j
  {
    var ts := Tokens(row.path);
    TokensAlternate(row.path);
    MatchableIsText(ts, i, alnum);
    MatchableIsText(ts, j, alnum);
    SlotsDiffer(ts, ts, i, j, alnum);
  }

  lemma PrefixAlternates(ts: seq<string>, end: nat)
    requires Alternating(ts) && end < |ts| && ts[end] == "/"
    ensures Alternating(ts[..end])
  {
    assert ts[end][0] == '/';
    assert end % 2 == 1;
  }

  lemma NamespaceOnce(row: Row, i: nat, j: nat, alnum: char -> bool)
    requires !alnum('{') && NamespaceKey(row, i, alnum).Some?
    requires NamespaceKey(row, i, alnum) == NamespaceKey(row, j, alnum)
    ensures i == j
  {
    var ts := Tokens(row.path);
    TokensAlternate(row.path);
    MatchableIsText(ts, i, alnum);
    MatchableIsText(ts, j, alnum);
    PrefixAlternates(ts, NextSlash(ts, i));
    PrefixAlternates(ts, NextSlash(ts, j));
    SlotsDiffer(ts[..NextSlash(ts, i)], ts[..NextSlash(ts, j)], i, j, alnum);
  }

  // ---------- buckets ----------

  /** One entry of a bucket: a row and the position of its slot. */
  datatype Slot = Slot(row: nat, at: nat)

  type Rule = (Row, nat) -> Option<Key>

  /** A rule puts a row into any one bucket at most once. */
  ghost predicate OncePerRow(rule: Rule) {
    forall row, i, j :: rule(row, i).Some? && rule(row, i) == rule(row, j) ==> i == j
  }

  function RecurringRule(alnum: char -> bool): Rule { (row: Row, i: nat) => RecurringKey(row, i, alnum) }

  function NamespaceRule(alnum: char -> bool): Rule { (row: Row, i: nat) => NamespaceKey(row, i, alnum) }

  lemma RulesOncePerRow(alnum: char -> bool)
    requires !alnum('{')
    ensures OncePerRow(RecurringRule(alnum)) && OncePerRow(NamespaceRule(alnum))
  {
    forall row, i: nat, j: nat | RecurringKey(row, i, alnum).Some? && RecurringKey(row, i, alnum) == RecurringKey(row, j, alnum)
      ensures i == j
    {
      RecurringOnce(row, i, j, alnum);
    }
    forall row, i: nat, j: nat | NamespaceKey(row, i, alnum).Some? && NamespaceKey(row, i, alnum) == NamespaceKey(row, j, alnum)
      ensures i == j
    {
      NamespaceOnce(row, i, j, alnum);
    }
  }

  type Buckets = map<Key, seq<Slot>>

  function Bucket(buckets: Buckets, key: Key): seq<Slot> { if key in buckets then buckets[key] else [] }

  predicate Fits(rows: seq<Row>, rule: Rule, k: Key, s: Slot) {
    s.row < |rows| && rows[s.row].eligible && s.at < |Tokens(rows[s.row].path)| && rule(rows[s.row], s.at) == Some(k)
  }

  /** Rows of a bucket in order, each once. */
  predicate RowsAscend(slots: seq<Slot>) { forall x, y :: 0 <= x < y < |slots| ==> slots[x].row < slots[y].row }

  /** A bucket lists, in row order and each row once, exactly the eligible rows with a slot for its key. */
  ghost predicate Filled(buckets: Buckets, rows: seq<Row>, rule: Rule, n: nat)
    requires n <= |rows|
  {
    forall k :: RowsAscend(Bucket(buckets, k)) && forall s :: s in Bucket(buckets, k) <==> s.row < n && Fits(rows, rule, k, s)
  }

  predicate Before(s: Slot, r: nat, p: nat) { s.row < r || (s.row == r && s.at < p) }

  /** Positions of row `r` before `p` have been entered as well. */
  ghost predicate FilledTo(buckets: Buckets, rows: seq<Row>, rule: Rule, r: nat, p: nat) {
    forall k :: KeyFilled(Bucket(buckets, k), rows, rule, r, p, k)
  }

  ghost predicate KeyFilled(slots: seq<Slot>, rows: seq<Row>, rule: Rule, r: nat, p: nat, k: Key) {
    RowsAscend(slots) && forall s :: s in slots <==> Before(s, r, p) && Fits(rows, rule, k, s)
  }

  lemma KeyGrows(slots: seq<Slot>, rows: seq<Row>, rule: Rule, r: nat, p: nat, k: Key)
    requires OncePerRow(rule) && KeyFilled(slots, rows, rule, r, p, k) && r < |rows|
    requires rows[r].eligible && p < |Tokens(rows[r].path)|
    ensures KeyFilled(if rule(rows[r], p) == Some(k) then slots + [Slot(r, p)] else slots, rows, rule, r, p + 1, k)
  {
    hide Tokens;
    if rule(rows[r], p) == Some(k) {
      forall x | 0 <= x < |slots| ensures slots[x].row < r {
        assert slots[x] in slots;
        assert Before(slots[x], r, p) && Fits(rows, rule, k, slots[x]);
      }
      forall s ensures s in slots + [Slot(r, p)] <==> Before(s, r, p + 1) && Fits(rows, rule, k, s) {
        assert s in slots + [Slot(r, p)] <==> s in slots || s == Slot(r, p);
      }
    } else {
      forall s ensures s in slots <==> Before(s, r, p + 1) && Fits(rows, rule, k, s) { }
    }
  }

  lemma FillNext(buckets: Buckets, rows: seq<Row>, rule: Rule, r: nat, p: nat)
    requires r < |rows| && OncePerRow(rule) && FilledTo(buckets, rows, rule, r, p)
    requires rows[r].eligible && p < |Tokens(rows[r].path)|
    ensures var k := rule(rows[r], p);
            FilledTo(if k.Some? then buckets[k.value := Bucket(buckets, k.value) + [Slot(r, p)]] else buckets,
                     rows, rule, r, p + 1)
  {
    hide Tokens;
    hide KeyFilled;
    hide OncePerRow;
    var k := rule(rows[r], p);
    var after := if k.Some? then buckets[k.value := Bucket(buckets, k.value) + [Slot(r, p)]] else buckets;
    forall key ensures KeyFilled(Bucket(after, key), rows, rule, r, p + 1, key) {
      assert KeyFilled(Bucket(buckets, key), rows, rule, r, p, key);
      KeyGrows(Bucket(buckets, key), rows, rule, r, p, key);
    }
  }

  /** The bucket-filling loops shared by both rules. */
  method Fill(rows: seq<Row>, rule: Rule) returns (buckets: Buckets)
    requires OncePerRow(rule)
    ensures Filled(buckets, rows, rule, |rows|)
  {
    hide Tokens;
    hide Filled;
    hide FilledTo;
    hide OncePerRow;
    NothingFilled(rows, rule);
    buckets := map[];
    var r := 0;
    while r < |rows|
      invariant 0 <= r <= |rows| && Filled(buckets, rows, rule, r)
    {
      if rows[r].eligible {
        var ts := Tokens(rows[r].path);
        RowStarts(buckets, rows, rule, r);
        var p := 0;
        while p < |ts|
          invariant 0 <= p <= |ts| && FilledTo(buckets, rows, rule, r, p)
        {
          FillNext(buckets, rows, rule, r, p);
          var key := rule(rows[r], p);
          if key.Some? { buckets := buckets[key.value := Bucket(buckets, key.value) + [Slot(r, p)]]; }
          p := p + 1;
        }
        RowEnds(buckets, rows, rule, r, p);
      } else {
        RowSkipped(buckets, rows, rule, r);
      }
      r := r + 1;
    }
  }

  lemma RowStarts(buckets: Buckets, rows: seq<Row>, rule: Rule, r: nat)
    requires r < |rows| && Filled(buckets, rows, rule, r)
    ensures FilledTo(buckets, rows, rule, r, 0)
  {
    hide Tokens;
    hide Fits;
    hide RowsAscend;
  }

  lemma RowEnds(buckets: Buckets, rows: seq<Row>, rule: Rule, r: nat, p: nat)
    requires r < |rows| && FilledTo(buckets, rows, rule, r, p) && p == |Tokens(rows[r].path)|
    ensures Filled(buckets, rows, rule, r + 1)
  {
    hide Tokens;
    hide RowsAscend;
    forall k ensures RowsAscend(Bucket(buckets, k))
             ensures forall s :: s in Bucket(buckets, k) <==> s.row < r + 1 && Fits(rows, rule, k, s)
    {
      assert KeyFilled(Bucket(buckets, k), rows, rule, r, p, k);
    }
  }

  lemma RowSkipped(buckets: Buckets, rows: seq<Row>, rule: Rule, r: nat)
    requires r < |rows| && Filled(buckets, rows, rule, r) && !rows[r].eligible
    ensures Filled(buckets, rows, rule, r + 1)
  {
    hide Tokens;
    hide RowsAscend;
    forall k ensures RowsAscend(Bucket(buckets, k))
             ensures forall s :: s in Bucket(buckets, k) <==> s.row < r + 1 && Fits(rows, rule, k, s)
    { }
  }

  lemma NothingFilled(rows: seq<Row>, rule: Rule)
    ensures Filled(map[], rows, rule, 0)
  {
  }

  // ---------- proposals ----------

  datatype Proposal = Proposal(rule: string, pattern: string, members: seq<nat>)

  predicate Increasing(s: seq<nat>) { forall x, y :: 0 <= x < y < |s| ==> s[x] < s[y] }

  function Less(): (nat, nat) -> bool { (a: nat, b: nat) => a < b }

  predicate NoRepeat(s: seq<nat>) { forall x, y :: 0 <= x < y < |s| ==> s[x] != s[y] }

  /** Sort rows gathered side by side; nothing is dropped because nothing repeats. */
  method SortRows(gathered: seq<nat>) returns (r: seq<nat>)
    requires NoRepeat(gathered)
    ensures Increasing(r) && |r| == |gathered| && forall i :: i in r <==> i in gathered
  {
    r := [];
    var n := 0;
    while n < |gathered|
      invariant 0 <= n <= |gathered| && |r| == n
      invariant Ascending(r, Less()) && forall i :: i in r <==> i in gathered[..n]
    {
      assert gathered[..n + 1] == gathered[..n] + [gathered[n]];
      r := Insert<nat>(r, Less(), gathered[n]);
      n := n + 1;
    }
    assert gathered[..n] == gathered;
  }

  predicate InRange(rows: seq<Row>, slots: seq<Slot>) {
    forall x :: 0 <= x < |slots| ==> slots[x].row < |rows|
  }

  function OnSide(rows: seq<Row>, slots: seq<Slot>, side: Side): (r: seq<Slot>)
    requires InRange(rows, slots)
    ensures InRange(rows, r) && forall s :: s in r <==> s in slots && rows[s.row].side == side
  {
    if slots == [] then []
    else
      var front, last := slots[..|slots| - 1], slots[|slots| - 1];
      assert slots == front + [last];
      OnSide(rows, front, side) + (if rows[last.row].side == side then [last] else [])
  }

  function RowsOf(slots: seq<Slot>): (r: seq<nat>)
    ensures |r| == |slots| && forall x :: 0 <= x < |r| ==> r[x] == slots[x].row
  {
    seq(|slots|, x requires 0 <= x < |slots| => slots[x].row)
  }

  predicate OneLineage(rows: seq<Row>, slots: seq<Slot>)
    requires InRange(rows, slots)
  {
    slots != [] && forall x :: 0 <= x < |slots| ==> rows[slots[x].row].lineage == rows[slots[0].row].lineage
  }

  /** One producing process per side; across sides only executables are compared. */
  predicate LineageGate(rows: seq<Row>, left: seq<Slot>, right: seq<Slot>)
    requires InRange(rows, left) && InRange(rows, right)
  {
    && OneLineage(rows, left) && OneLineage(rows, right)
    && rows[left[0].row].lineage.actor == rows[right[0].row].lineage.actor
    && rows[left[0].row].lineage.parent == rows[right[0].row].lineage.parent
  }

  function Value(rows: seq<Row>, s: Slot): string
    requires s.row < |rows|
  {
    if s.at < |Tokens(rows[s.row].path)| then Tokens(rows[s.row].path)[s.at] else ""
  }

  function Counts(rows: seq<Row>, slots: seq<Slot>): multiset<nat>
    requires InRange(rows, slots)
  {
    if slots == [] then multiset{}
    else Counts(rows, slots[..|slots| - 1]) + multiset{rows[slots[|slots| - 1].row].count}
  }

  /** Two rows a side at least, one lineage, disjoint slot values, equal call counts. */
  predicate RecurringGate(rows: seq<Row>, slots: seq<Slot>)
    requires InRange(rows, slots)
  {
    var left, right := OnSide(rows, slots, LeftSide), OnSide(rows, slots, RightSide);
    && |left| >= 2 && |right| >= 2 && LineageGate(rows, left, right)
    && (forall x, y :: 0 <= x < |left| && 0 <= y < |right| ==> Value(rows, left[x]) != Value(rows, right[y]))
    && Counts(rows, left) == Counts(rows, right)
  }

  lemma {:induction false} OnSideAscends(rows: seq<Row>, slots: seq<Slot>, side: Side)
    requires InRange(rows, slots) && RowsAscend(slots)
    ensures RowsAscend(OnSide(rows, slots, side))
  {
    if slots != [] {
      var front, last := slots[..|slots| - 1], slots[|slots| - 1];
      OnSideAscends(rows, front, side);
      var kept := OnSide(rows, front, side);
      forall x | 0 <= x < |kept| ensures kept[x].row < last.row {
        assert kept[x] in kept;
        var z :| 0 <= z < |front| && front[z] == kept[x];
      }
    }
  }

  lemma GatherDistinct(left: seq<Slot>, right: seq<Slot>)
    requires RowsAscend(left) && RowsAscend(right)
    requires forall l, r :: l in left && r in right ==> l.row != r.row
    ensures NoRepeat(RowsOf(left) + RowsOf(right))
  {
    var g := RowsOf(left) + RowsOf(right);
    forall x, y | 0 <= x < y < |g| ensures g[x] != g[y] {
      if x < |left| && y >= |left| {
        assert left[x] in left && right[y - |left|] in right;
      }
    }
  }

  lemma RowsMember(slots: seq<Slot>, i: nat)
    ensures i in RowsOf(slots) <==> exists s :: s in slots && s.row == i
  {
    if i in RowsOf(slots) {
      var x :| 0 <= x < |slots| && RowsOf(slots)[x] == i;
      assert slots[x] in slots;
    }
    if exists s :: s in slots && s.row == i {
      var s :| s in slots && s.row == i;
      var x :| 0 <= x < |slots| && slots[x] == s;
      assert RowsOf(slots)[x] == i;
    }
  }

  /** Gathering side by side repeats no row of an ascending bucket and loses none. */
  lemma SidesDistinct(rows: seq<Row>, slots: seq<Slot>)
    requires InRange(rows, slots) && RowsAscend(slots)
    ensures var g := RowsOf(OnSide(rows, slots, LeftSide)) + RowsOf(OnSide(rows, slots, RightSide));
            NoRepeat(g) && forall i :: i in g <==> i in RowsOf(slots)
  {
    var left, right := OnSide(rows, slots, LeftSide), OnSide(rows, slots, RightSide);
    OnSideAscends(rows, slots, LeftSide);
    OnSideAscends(rows, slots, RightSide);
    assert forall s :: s in slots <==> s in left || s in right;
    assert forall s, t :: s in left && t in right ==> rows[s.row].side != rows[t.row].side;
    hide OnSide;
    GatherDistinct(left, right);
    forall i ensures i in RowsOf(left) + RowsOf(right) <==> i in RowsOf(slots) {
      RowsMember(left, i);
      RowsMember(right, i);
      RowsMember(slots, i);
    }
  }

  // ---------- the paired rule ----------

  /** What must match across sides under one directory. */
  datatype RelKey = RelKey(relative: string, operation: string, count: nat)

  function RelOf(rows: seq<Row>, s: Slot): RelKey
    requires s.row < |rows|
  {
    var row := rows[s.row];
    var ts := Tokens(row.path);
    var end := if s.at < |ts| then NextSlash(ts, s.at) else |ts|;
    RelKey(if end < |ts| then Joined(ts[end + 1..]) else "", row.operation, row.count)
  }

  function Literal(rows: seq<Row>, s: Slot): string
    requires s.row < |rows|
  {
    var ts := Tokens(rows[s.row].path);
    if s.at < |ts| then Joined(ts[..NextSlash(ts, s.at)]) else ""
  }

  predicate OneLiteral(rows: seq<Row>, slots: seq<Slot>)
    requires InRange(rows, slots)
  {
    slots != [] && forall x :: 0 <= x < |slots| ==> Literal(rows, slots[x]) == Literal(rows, slots[0])
  }

  /** Exactly one slot of one side carries the relative key. */
  predicate Unique(rows: seq<Row>, slots: seq<Slot>, side: Side, key: RelKey)
    requires InRange(rows, slots)
  {
    exists x :: 0 <= x < |slots| && Carries(rows, slots, side, key, x) &&
                forall y :: 0 <= y < |slots| && Carries(rows, slots, side, key, y) ==> y == x
  }

  predicate Carries(rows: seq<Row>, slots: seq<Slot>, side: Side, key: RelKey, x: nat)
    requires InRange(rows, slots) && x < |slots|
  {
    rows[slots[x].row].side == side && RelOf(rows, slots[x]) == key
  }

  predicate Shared(rows: seq<Row>, slots: seq<Slot>, key: RelKey)
    requires InRange(rows, slots)
  {
    Unique(rows, slots, LeftSide, key) && Unique(rows, slots, RightSide, key)
  }

  /** The first `n` slots whose relative key pairs one row of each side. */
  function Paired(rows: seq<Row>, slots: seq<Slot>, n: nat): (r: seq<Slot>)
    requires InRange(rows, slots) && n <= |slots|
    ensures InRange(rows, r) && forall s :: s in r <==> s in slots[..n] && Shared(rows, slots, RelOf(rows, s))
  {
    if n == 0 then []
    else
      assert slots[..n] == slots[..n - 1] + [slots[n - 1]];
      Paired(rows, slots, n - 1) + (if Shared(rows, slots, RelOf(rows, slots[n - 1])) then [slots[n - 1]] else [])
  }

  lemma {:induction false} PairedAscends(rows: seq<Row>, slots: seq<Slot>, n: nat)
    requires InRange(rows, slots) && n <= |slots| && RowsAscend(slots)
    ensures RowsAscend(Paired(rows, slots, n))
  {
    hide Shared;
    hide RelOf;
    if n > 0 {
      PairedAscends(rows, slots, n - 1);
      var kept := Paired(rows, slots, n - 1);
      forall x | 0 <= x < |kept| ensures kept[x].row < slots[n - 1].row {
        assert kept[x] in kept;
        var z :| 0 <= z < n - 1 && slots[..n - 1][z] == kept[x];
      }
    }
  }

  /** One literal directory a side, not the same; at least three pairs; one lineage. */
  predicate NamespaceGate(rows: seq<Row>, slots: seq<Slot>)
    requires InRange(rows, slots)
  {
    var left, right := OnSide(rows, slots, LeftSide), OnSide(rows, slots, RightSide);
    var paired := Paired(rows, slots, |slots|);
    && OneLiteral(rows, left) && OneLiteral(rows, right) && Literal(rows, left[0]) != Literal(rows, right[0])
    && |OnSide(rows, paired, LeftSide)| >= 3
    && OnSide(rows, paired, RightSide) != []
    && LineageGate(rows, OnSide(rows, paired, LeftSide), OnSide(rows, paired, RightSide))
  }

  // ---------- proposals ----------

  /** Raw changes are numbered by position. */
  predicate Numbered(rows: seq<Row>) { forall i :: 0 <= i < |rows| ==> rows[i].index == i }

  /** A proposal lists existing rows, each once, in order. */
  predicate Sound(p: Proposal, n: nat) {
    p.members != [] && Increasing(p.members) && forall i :: i in p.members ==> i < n
  }

  datatype Family = RecurringFamily | PairedSubtree

  function NameOf(family: Family): string {
    match family
    case RecurringFamily => "R1-recurring-generated-family"
    case PairedSubtree => "R2-paired-generated-subtree"
  }

  function RuleOf(family: Family, alnum: char -> bool): Rule {
    match family
    case RecurringFamily => RecurringRule(alnum)
    case PairedSubtree => NamespaceRule(alnum)
  }

  predicate Gate(family: Family, rows: seq<Row>, slots: seq<Slot>)
    requires InRange(rows, slots)
  {
    match family
    case RecurringFamily => RecurringGate(rows, slots)
    case PairedSubtree => NamespaceGate(rows, slots)
  }

  /** The slots of a bucket that a proposal groups: all of them, or the paired ones. */
  function Grouped(family: Family, rows: seq<Row>, slots: seq<Slot>): (r: seq<Slot>)
    requires InRange(rows, slots)
    ensures InRange(rows, r)
  {
    match family
    case RecurringFamily => slots
    case PairedSubtree => Paired(rows, slots, |slots|)
  }

  /** Members are the rows of some slots in increasing order. */
  ghost predicate Lists(rows: seq<Row>, members: seq<nat>, slots: seq<Slot>) {
    Increasing(members) && (forall i :: i in members ==> i < |rows|) && forall i :: i in members <==> i in RowsOf(slots)
  }

  /** The complete bucket of a key. */
  ghost predicate Fills(family: Family, rows: seq<Row>, alnum: char -> bool, k: Key, slots: seq<Slot>) {
    InRange(rows, slots) && RowsAscend(slots) && forall s :: s in slots <==> Fits(rows, RuleOf(family, alnum), k, s)
  }

  /** The proposal a bucket gives: it passes its gate, and exactly its grouped rows are listed. */
  ghost predicate Gives(family: Family, rows: seq<Row>, k: Key, slots: seq<Slot>, p: Proposal) {
    && InRange(rows, slots) && Gate(family, rows, slots)
    && p.rule == NameOf(family) && p.pattern == k.pattern && Lists(rows, p.members, Grouped(family, rows, slots))
  }

  /** The proposal comes from the complete bucket of some key. */
  ghost predicate Proposed(family: Family, rows: seq<Row>, alnum: char -> bool, p: Proposal) {
    exists k, slots :: Fills(family, rows, alnum, k, slots) && Gives(family, rows, k, slots, p)
  }

  lemma GroupedAscends(family: Family, rows: seq<Row>, slots: seq<Slot>)
    requires InRange(rows, slots) && RowsAscend(slots)
    ensures RowsAscend(Grouped(family, rows, slots))
  {
    if family.PairedSubtree? { PairedAscends(rows, slots, |slots|); }
  }

  lemma GatedNonempty(family: Family, rows: seq<Row>, slots: seq<Slot>)
    requires InRange(rows, slots) && Gate(family, rows, slots)
    ensures slots != [] && Grouped(family, rows, slots) != []
  {
    hide LineageGate;
    hide Value;
    hide Counts;
    hide Literal;
    hide Shared;
    if family.PairedSubtree? {
      var kept := OnSide(rows, Paired(rows, slots, |slots|), LeftSide);
      assert kept[0] in kept;
    } else {
      var left := OnSide(rows, slots, LeftSide);
      assert left[0] in left;
    }
  }

  lemma GivenIsSound(family: Family, rows: seq<Row>, k: Key, slots: seq<Slot>, p: Proposal)
    requires Gives(family, rows, k, slots, p)
    ensures Sound(p, |rows|)
  {
    GatedNonempty(family, rows, slots);
    hide Gate;
    var grouped := Grouped(family, rows, slots);
    hide Grouped;
    assert RowsOf(grouped)[0] in RowsOf(grouped);
  }

  /** A key's complete bucket is unique. */
  lemma BucketUnique(family: Family, rows: seq<Row>, alnum: char -> bool, k: Key, a: seq<Slot>, b: seq<Slot>)
    requires Fills(family, rows, alnum, k, a) && Fills(family, rows, alnum, k, b)
    ensures a == b
  {
    hide Fits;
    var lt := (s: Slot, t: Slot) => s.row < t.row || (s.row == t.row && s.at < t.at);
    assert StrictTotal(lt) by {
      forall s: Slot, t: Slot ensures s == t || lt(s, t) || lt(t, s) { assert s == Slot(s.row, s.at) && t == Slot(t.row, t.at); }
    }
    assert Ascending(a, lt) && Ascending(b, lt);
    AscendingUnique(a, b, lt);
  }

  /** A bucket gives at most one proposal. */
  lemma GivenUnique(family: Family, rows: seq<Row>, k: Key, slots: seq<Slot>, p: Proposal, q: Proposal)
    requires Gives(family, rows, k, slots, p) && Gives(family, rows, k, slots, q)
    ensures p == q
  {
    hide Gate;
    var grouped := Grouped(family, rows, slots);
    hide Grouped;
    assert Ascending(p.members, Less()) && Ascending(q.members, Less());
    AscendingUnique<nat>(p.members, q.members, Less());
  }

  /** Left rows, then right rows, sorted by index. */
  method Gather(rows: seq<Row>, slots: seq<Slot>) returns (members: seq<nat>)
    requires InRange(rows, slots) && RowsAscend(slots)
    ensures Lists(rows, members, slots)
  {
    SidesDistinct(rows, slots);
    RowsInRange(rows, slots);
    hide OnSide;
    var gathered := RowsOf(OnSide(rows, slots, LeftSide)) + RowsOf(OnSide(rows, slots, RightSide));
    members := SortRows(gathered);
  }

  lemma BucketFills(family: Family, buckets: Buckets, rows: seq<Row>, alnum: char -> bool, k: Key)
    requires Filled(buckets, rows, RuleOf(family, alnum), |rows|)
    ensures Fills(family, rows, alnum, k, Bucket(buckets, k))
  {
    hide Tokens;
    var slots := Bucket(buckets, k);
    assert forall x :: 0 <= x < |slots| ==> slots[x] in slots;
  }

  lemma RowsInRange(rows: seq<Row>, slots: seq<Slot>)
    requires InRange(rows, slots)
    ensures forall i :: i in RowsOf(slots) ==> i < |rows|
  {
  }

  /** One bucket's proposal, when it passes its gate. */
  method OneProposal(family: Family, rows: seq<Row>, k: Key, slots: seq<Slot>) returns (proposal: Option<Proposal>)
    requires InRange(rows, slots) && RowsAscend(slots)
    ensures proposal.Some? <==> Gate(family, rows, slots)
    ensures proposal.Some? ==> Gives(family, rows, k, slots, proposal.value)
  {
    GroupedAscends(family, rows, slots);
    hide Gate;
    hide Lists;
    hide Grouped;
    hide RowsAscend;
    proposal := None;
    if Gate(family, rows, slots) {
      var members := Gather(rows, Grouped(family, rows, slots));
      proposal := Some(Proposal(NameOf(family), k.pattern, members));
    }
  }

  /** Buckets seen so far gave exactly the listed proposals. */
  ghost predicate Listed(family: Family, rows: seq<Row>, buckets: Buckets, done: set<Key>, proposals: seq<Proposal>) {
    && (forall p :: p in proposals ==> exists k :: k in done && Gives(family, rows, k, Bucket(buckets, k), p))
    && (forall k, p :: k in done && Gives(family, rows, k, Bucket(buckets, k), p) ==> p in proposals)
  }

  lemma ListedNext(family: Family, rows: seq<Row>, buckets: Buckets, done: set<Key>, proposals: seq<Proposal>, k: Key,
                   proposal: Option<Proposal>)
    requires Listed(family, rows, buckets, done, proposals) && InRange(rows, Bucket(buckets, k))
    requires proposal.Some? <==> Gate(family, rows, Bucket(buckets, k))
    requires proposal.Some? ==> Gives(family, rows, k, Bucket(buckets, k), proposal.value)
    ensures Listed(family, rows, buckets, done + {k},
                   if proposal.Some? then proposals + [proposal.value] else proposals)
  {
    var slots := Bucket(buckets, k);
    forall p | Gives(family, rows, k, slots, p) ensures proposal == Some(p) {
      GivesGated(family, rows, k, slots, p);
      GivenUnique(family, rows, k, slots, p, proposal.value);
    }
    hide *;
    ListedGrows(family, rows, buckets, done, proposals, k, proposal);
  }

  lemma ListedGrows(family: Family, rows: seq<Row>, buckets: Buckets, done: set<Key>, proposals: seq<Proposal>, k: Key,
                    proposal: Option<Proposal>)
    requires Listed(family, rows, buckets, done, proposals)
    requires forall p :: Gives(family, rows, k, Bucket(buckets, k), p) <==> proposal == Some(p)
    ensures Listed(family, rows, buckets, done + {k},
                   if proposal.Some? then proposals + [proposal.value] else proposals)
  {
    hide Gives;
    hide Bucket;
    var after := if proposal.Some? then proposals + [proposal.value] else proposals;
    assert forall p :: p in after <==> p in proposals || proposal == Some(p);
    forall p | p in after ensures exists j :: j in done + {k} && Gives(family, rows, j, Bucket(buckets, j), p) {
      if p in proposals {
        var j :| j in done && Gives(family, rows, j, Bucket(buckets, j), p);
        assert j in done + {k};
      } else {
        assert k in done + {k} && Gives(family, rows, k, Bucket(buckets, k), p);
      }
    }
  }

  lemma GivesGated(family: Family, rows: seq<Row>, k: Key, slots: seq<Slot>, p: Proposal)
    requires Gives(family, rows, k, slots, p)
    ensures InRange(rows, slots) && Gate(family, rows, slots)
  {
  }

  lemma ListedAll(family: Family, rows: seq<Row>, alnum: char -> bool, buckets: Buckets, proposals: seq<Proposal>)
    requires Filled(buckets, rows, RuleOf(family, alnum), |rows|)
    requires Listed(family, rows, buckets, buckets.Keys, proposals)
    ensures forall p :: p in proposals <==> Proposed(family, rows, alnum, p)
    ensures forall p :: p in proposals ==> Sound(p, |rows|)
  {
    hide Gives;
    hide Filled;
    hide Fills;
    hide Sound;
    forall p | p in proposals ensures Proposed(family, rows, alnum, p) && Sound(p, |rows|) {
      var k :| k in buckets.Keys && Gives(family, rows, k, Bucket(buckets, k), p);
      BucketFills(family, buckets, rows, alnum, k);
      GivenIsSound(family, rows, k, Bucket(buckets, k), p);
    }
    forall p | Proposed(family, rows, alnum, p) ensures p in proposals {
      var k, slots :| Fills(family, rows, alnum, k, slots) && Gives(family, rows, k, slots, p);
      BucketFills(family, buckets, rows, alnum, k);
      BucketUnique(family, rows, alnum, k, slots, Bucket(buckets, k));
      GivesGated(family, rows, k, slots, p);
      GatedNonempty(family, rows, slots);
      assert k in buckets.Keys;
    }
  }

  lemma FamilyOncePerRow(family: Family, alnum: char -> bool)
    requires !alnum('{')
    ensures OncePerRow(RuleOf(family, alnum))
  {
    RulesOncePerRow(alnum);
  }

  lemma NothingListed(family: Family, rows: seq<Row>, buckets: Buckets)
    ensures Listed(family, rows, buckets, {}, [])
  {
  }

  lemma KeyDone(done: set<Key>, rest: set<Key>, k: Key, all: set<Key>)
    requires all == done + rest && k in rest
    ensures all == done + {k} + (rest - {k})
  {
  }

  /** One rule's loop: fill the buckets, then propose every bucket that passes its gate. The proposals are
      exactly those the complete buckets give. */
  method Propose(family: Family, rows: seq<Row>, alnum: char -> bool) returns (proposals: seq<Proposal>)
    requires !alnum('{')
    ensures forall p :: p in proposals <==> Proposed(family, rows, alnum, p)
    ensures forall p :: p in proposals ==> Sound(p, |rows|)
  {
    hide Proposed;
    hide Filled;
    hide OncePerRow;
    hide Sound;
    hide Listed;
    hide Fits;
    hide Gives;
    hide Gate;
    hide RuleOf;
    FamilyOncePerRow(family, alnum);
    var buckets := Fill(rows, RuleOf(family, alnum));
    proposals := [];
    var rest := buckets.Keys;
    ghost var done: set<Key> := {};
    NothingListed(family, rows, buckets);
    while rest != {}
      invariant buckets.Keys == done + rest && Listed(family, rows, buckets, done, proposals)
      decreases |rest|
    {
      var k :| k in rest;
      BucketFills(family, buckets, rows, alnum, k);
      var proposal := OneProposal(family, rows, k, Bucket(buckets, k));
      ListedNext(family, rows, buckets, done, proposals, k, proposal);
      KeyDone(done, rest, k, buckets.Keys);
      rest, done := rest - {k}, done + {k};
      if proposal.Some? { proposals := proposals + [proposal.value]; }
    }
    assert done == buckets.Keys;
    ListedAll(family, rows, alnum, buckets, proposals);
  }

  // ---------- the selection ----------

  /** Larger proposals first, then rule, pattern and production order. */
  function Precedes(ps: seq<Proposal>): (nat, nat) -> bool {
    (i: nat, j: nat) => ProposalLess(ProposalAt(ps, i), i, ProposalAt(ps, j), j)
  }

  function ProposalAt(ps: seq<Proposal>, i: nat): Proposal { if i < |ps| then ps[i] else Proposal("", "", []) }

  predicate ProposalLess(a: Proposal, i: nat, b: Proposal, j: nat) {
    || |a.members| > |b.members|
    || (|a.members| == |b.members| &&
        (LexLess(a.rule, b.rule) ||
         (a.rule == b.rule && (LexLess(a.pattern, b.pattern) || (a.pattern == b.pattern && i < j)))))
  }

  lemma ProposalLessTransitive(a: Proposal, i: nat, b: Proposal, j: nat, c: Proposal, k: nat)
    requires ProposalLess(a, i, b, j) && ProposalLess(b, j, c, k)
    ensures ProposalLess(a, i, c, k)
  {
    LexStrictTotal();
    hide LexLess;
  }

  lemma ProposalLessTotal(a: Proposal, i: nat, b: Proposal, j: nat)
    ensures !ProposalLess(a, i, a, i)
    ensures i == j || ProposalLess(a, i, b, j) || ProposalLess(b, j, a, i)
  {
    LexStrictTotal();
    hide LexLess;
  }

  lemma PrecedesStrictTotal(ps: seq<Proposal>)
    ensures StrictTotal(Precedes(ps))
  {
    hide ProposalLess;
    forall i: nat, j: nat ensures !Precedes(ps)(i, i) ensures i == j || Precedes(ps)(i, j) || Precedes(ps)(j, i) {
      ProposalLessTotal(ProposalAt(ps, i), i, ProposalAt(ps, j), j);
    }
    forall i: nat, j: nat, k: nat | Precedes(ps)(i, j) && Precedes(ps)(j, k) ensures Precedes(ps)(i, k) {
      ProposalLessTransitive(ProposalAt(ps, i), i, ProposalAt(ps, j), j, ProposalAt(ps, k), k);
    }
  }

  /** Size, then rule, then pattern. */
  predicate Ahead(a: Proposal, b: Proposal) {
    || |a.members| > |b.members|
    || (|a.members| == |b.members| &&
        (LexLess(a.rule, b.rule) || (a.rule == b.rule && (LexLess(a.pattern, b.pattern) || a.pattern == b.pattern))))
  }

  lemma OrderedBySize(ps: seq<Proposal>, order: seq<nat>, r: seq<Proposal>)
    requires Ascending(order, Precedes(ps)) && |r| == |order|
    requires forall x :: 0 <= x < |order| ==> order[x] < |ps| && r[x] == ps[order[x]]
    ensures forall x, y :: 0 <= x < y < |r| ==> Ahead(r[x], r[y])
  {
    hide LexLess;
    forall x, y | 0 <= x < y < |r| ensures Ahead(r[x], r[y]) {
      assert Precedes(ps)(order[x], order[y]);
    }
  }

  lemma SameProposals(ps: seq<Proposal>, order: seq<nat>, r: seq<Proposal>)
    requires |r| == |order| && forall x :: 0 <= x < |order| ==> order[x] < |ps| && r[x] == ps[order[x]]
    requires forall i: nat :: i in order <==> i < |ps|
    ensures forall p :: p in r <==> p in ps
  {
    forall p ensures p in r <==> p in ps {
      if p in ps {
        var i :| 0 <= i < |ps| && ps[i] == p;
        assert i in order;
        var x :| 0 <= x < |order| && order[x] == i;
        assert r[x] == p;
      }
    }
  }

  method PickProposals(ps: seq<Proposal>, order: seq<nat>) returns (r: seq<Proposal>)
    requires forall x :: 0 <= x < |order| ==> order[x] < |ps|
    ensures |r| == |order| && forall x :: 0 <= x < |order| ==> r[x] == ps[order[x]]
  {
    r := [];
    var n := 0;
    while n < |order|
      invariant 0 <= n <= |order| && |r| == n
      invariant forall x :: 0 <= x < n ==> r[x] == ps[order[x]]
    {
      r := r + [ps[order[n]]];
      n := n + 1;
    }
  }

  /** Deterministic order, largest first; every proposal stays. */
  method SortProposals(ps: seq<Proposal>) returns (r: seq<Proposal>)
    ensures |r| == |ps| && (forall p :: p in r <==> p in ps)
    ensures forall x, y :: 0 <= x < y < |r| ==> Ahead(r[x], r[y])
  {
    hide Precedes;
    hide Ahead;
    PrecedesStrictTotal(ps);
    var order := Enumerate<nat>(Below(|ps|), Precedes(ps));
    assert forall x :: 0 <= x < |order| ==> order[x] in order;
    r := PickProposals(ps, order);
    SameProposals(ps, order, r);
    OrderedBySize(ps, order, r);
  }

  function MemberSet(p: Proposal): set<nat> { set i | i in p.members }

  predicate Overlap(a: Proposal, b: Proposal) { exists i :: i in a.members && i in b.members }

  /** Accepted groups are disjoint proposals covering exactly the used rows. */
  ghost predicate Disjoint(groups: seq<Proposal>, used: set<nat>) {
    && (forall x, y :: 0 <= x < y < |groups| ==> !Overlap(groups[x], groups[y]))
    && (forall i :: i in used <==> exists x :: 0 <= x < |groups| && i in groups[x].members)
  }

  /** A rejected proposal overlaps an accepted one ahead of it. */
  ghost predicate Dominated(p: Proposal, groups: seq<Proposal>) {
    exists x :: 0 <= x < |groups| && Overlap(p, groups[x]) && Ahead(groups[x], p)
  }

  /** The first `n` proposals have been decided. */
  ghost predicate Decided(ps: seq<Proposal>, n: nat, groups: seq<Proposal>)
    requires n <= |ps|
  {
    && (forall g :: g in groups ==> g in ps[..n])
    && (forall p :: p in ps[..n] ==> p in groups || Dominated(p, groups))
  }

  predicate InOrder(ps: seq<Proposal>) {
    forall x, y :: 0 <= x < y < |ps| ==> Ahead(ps[x], ps[y])
  }

  lemma Accepted(ps: seq<Proposal>, n: nat, groups: seq<Proposal>)
    requires n < |ps| && Decided(ps, n, groups)
    ensures Decided(ps, n + 1, groups + [ps[n]])
  {
    hide Dominated;
    assert ps[..n + 1] == ps[..n] + [ps[n]];
    forall q | q in ps[..n] && Dominated(q, groups) ensures Dominated(q, groups + [ps[n]]) { DominatedKept(q, groups, ps[n]); }
  }

  lemma Rejected(ps: seq<Proposal>, n: nat, groups: seq<Proposal>, x: nat)
    requires n < |ps| && InOrder(ps) && Decided(ps, n, groups) && x < |groups| && Overlap(ps[n], groups[x])
    ensures Decided(ps, n + 1, groups)
  {
    hide Overlap;
    assert ps[..n + 1] == ps[..n] + [ps[n]];
    assert groups[x] in ps[..n];
    var y :| 0 <= y < n && ps[..n][y] == groups[x];
    assert Ahead(ps[y], ps[n]);
    assert Dominated(ps[n], groups);
  }

  /** Take proposals largest first, never trimming an overlap. */
  method SelectGroups(ps: seq<Proposal>) returns (groups: seq<Proposal>, used: set<nat>)
    requires InOrder(ps)
    ensures Disjoint(groups, used) && InOrder(groups)
    ensures forall g :: g in groups ==> g in ps
    ensures forall p :: p in ps ==> p in groups || Dominated(p, groups)
  {
    hide InOrder;
    hide Ahead;
    hide Dominated;
    groups, used := [], {};
    NoneInOrder();
    var n := 0;
    while n < |ps|
      invariant 0 <= n <= |ps| && Disjoint(groups, used) && Decided(ps, n, groups) && InOrder(groups)
    {
      var p := ps[n];
      if forall i :: i in p.members ==> i !in used {
        GroupAdded(groups, used, p);
        Accepted(ps, n, groups);
        StaysInOrder(ps, n, groups);
        groups, used := groups + [p], used + MemberSet(p);
      } else {
        var i :| i in p.members && i in used;
        ghost var x :| 0 <= x < |groups| && i in groups[x].members;
        Rejected(ps, n, groups, x);
      }
      n := n + 1;
    }
    assert ps[..n] == ps;
  }

  lemma NoneInOrder()
    ensures InOrder([])
  {
  }

  lemma StaysInOrder(ps: seq<Proposal>, n: nat, groups: seq<Proposal>)
    requires n < |ps| && InOrder(ps) && Decided(ps, n, groups) && InOrder(groups)
    ensures InOrder(groups + [ps[n]])
  {
    hide Ahead;
    hide Dominated;
    forall x | 0 <= x < |groups| ensures Ahead(groups[x], ps[n]) {
      assert groups[x] in groups && groups[x] in ps[..n];
      var y :| 0 <= y < n && ps[..n][y] == groups[x];
    }
  }

  lemma DominatedKept(q: Proposal, groups: seq<Proposal>, p: Proposal)
    requires Dominated(q, groups)
    ensures Dominated(q, groups + [p])
  {
    hide Overlap;
    var x :| 0 <= x < |groups| && Overlap(q, groups[x]) && Ahead(groups[x], q);
    assert (groups + [p])[x] == groups[x];
  }

  lemma GroupAdded(groups: seq<Proposal>, used: set<nat>, p: Proposal)
    requires Disjoint(groups, used) && forall i :: i in p.members ==> i !in used
    ensures Disjoint(groups + [p], used + MemberSet(p))
  {
    var after, grown := groups + [p], used + MemberSet(p);
    forall i ensures i in grown <==> exists x :: 0 <= x < |after| && i in after[x].members {
      if i in used {
        var x :| 0 <= x < |groups| && i in groups[x].members;
        assert after[x] == groups[x];
      }
      if i in p.members { assert after[|groups|] == p; }
    }
  }

  // ---------- the partition ----------

  datatype Entry = ChangeEntry(row: nat) | GroupEntry(group: nat, row: nat)

  function Flatten(groups: seq<Proposal>): seq<nat> {
    if groups == [] then [] else Flatten(groups[..|groups| - 1]) + groups[|groups| - 1].members
  }

  /** Every row of 0..n is listed exactly once. */
  ghost predicate Partition(listed: seq<nat>, n: nat) {
    && NoRepeat(listed)
    && (forall i: nat :: i in listed <==> i < n)
  }

  lemma {:induction false} FlattenMembers(groups: seq<Proposal>, i: nat)
    ensures i in Flatten(groups) <==> exists x :: 0 <= x < |groups| && i in groups[x].members
  {
    if groups != [] {
      var front, last := groups[..|groups| - 1], groups[|groups| - 1];
      FlattenMembers(front, i);
      if exists x :: 0 <= x < |groups| && i in groups[x].members {
        var x :| 0 <= x < |groups| && i in groups[x].members;
        if x < |front| { assert front[x] == groups[x]; }
      }
    }
  }

  lemma {:induction false} FlattenDistinct(groups: seq<Proposal>, n: nat)
    requires forall x, y :: 0 <= x < y < |groups| ==> !Overlap(groups[x], groups[y])
    requires forall x :: 0 <= x < |groups| ==> Sound(groups[x], n)
    ensures NoRepeat(Flatten(groups))
  {
    if groups != [] {
      var front, last := groups[..|groups| - 1], groups[|groups| - 1];
      assert forall x :: 0 <= x < |front| ==> front[x] == groups[x];
      FlattenDistinct(front, n);
      assert Sound(groups[|groups| - 1], n);
      var f, m := Flatten(front), last.members;
      forall x, y | 0 <= x < |f| && 0 <= y < |m| ensures f[x] != m[y] {
        FlattenMembers(front, f[x]);
        assert f[x] in f && m[y] in m;
        var g :| 0 <= g < |front| && f[x] in front[g].members;
        assert !Overlap(groups[g], last);
      }
    }
  }

  /** The view's own partition check never fails: ungrouped rows and group members together are
      every raw row exactly once. */
  lemma CoversEveryRow(singles: seq<nat>, groups: seq<Proposal>, used: set<nat>, n: nat)
    requires Disjoint(groups, used) && forall x :: 0 <= x < |groups| ==> Sound(groups[x], n)
    requires Increasing(singles) && forall i: nat :: i in singles <==> i < n && i !in used
    ensures Partition(singles + Flatten(groups), n)
  {
    FlattenDistinct(groups, n);
    forall i: nat ensures i in Flatten(groups) <==> i in used { FlattenMembers(groups, i); }
    var f := Flatten(groups);
    forall i: nat | i in used ensures i < n {
      var x :| 0 <= x < |groups| && i in groups[x].members;
      assert Sound(groups[x], n);
    }
    forall x, y | 0 <= x < |singles| && 0 <= y < |f| ensures singles[x] != f[y] {
      assert singles[x] in singles && f[y] in f;
    }
  }

  datatype Mode = R1 | R2 | Both

  /** Rules a mode proposes with. */
  predicate Uses(mode: Mode, family: Family) { mode.Both? || (mode.R1? <==> family.RecurringFamily?) }

  /** Propose, select disjoint groups and list every raw row once, alone or in its group. */
  method Candidate(rows: seq<Row>, mode: Mode, alnum: char -> bool)
    returns (groups: seq<Proposal>, entries: seq<Entry>, ghost singles: seq<nat>, ghost proposed: seq<Proposal>)
    requires Numbered(rows) && !alnum('{')
    ensures Partition(singles + Flatten(groups), |rows|)
    ensures forall x, y :: 0 <= x < y < |groups| ==> !Overlap(groups[x], groups[y])
    ensures forall p :: p in proposed <==> exists family :: Uses(mode, family) && Proposed(family, rows, alnum, p)
    ensures forall g :: g in groups ==> g in proposed && Sound(g, |rows|)
    ensures forall p :: p in proposed ==> p in groups || Dominated(p, groups)
    ensures InOrder(groups)
    ensures Shows(entries, singles, groups)
  {
    hide Proposed;
    hide Sound;
    hide Shows;
    var proposals: seq<Proposal> := [];
    if mode != R2 { proposals := Propose(RecurringFamily, rows, alnum); }
    if mode != R1 {
      var second := Propose(PairedSubtree, rows, alnum);
      proposals := proposals + second;
    }
    ModeProposes(mode, rows, alnum, proposals);
    var sorted := SortProposals(proposals);
    proposed := sorted;
    var used;
    groups, used := SelectGroups(sorted);
    assert forall x :: 0 <= x < |groups| ==> groups[x] in groups;
    var alone := Ungrouped(|rows|, used);
    singles := alone;
    CoversEveryRow(alone, groups, used, |rows|);
    hide Disjoint;
    GroupsNonempty(groups, |rows|);
    entries := ListEntries(alone, groups, |rows|);
  }

  lemma ModeProposes(mode: Mode, rows: seq<Row>, alnum: char -> bool, proposals: seq<Proposal>)
    requires forall p :: p in proposals <==>
               (mode != R2 && Proposed(RecurringFamily, rows, alnum, p)) || (mode != R1 && Proposed(PairedSubtree, rows, alnum, p))
    ensures forall p :: p in proposals <==> exists family :: Uses(mode, family) && Proposed(family, rows, alnum, p)
  {
    hide Proposed;
    forall p ensures p in proposals <==> exists family :: Uses(mode, family) && Proposed(family, rows, alnum, p) {
      if p in proposals {
        var family := if mode != R2 && Proposed(RecurringFamily, rows, alnum, p) then RecurringFamily else PairedSubtree;
        assert Uses(mode, family) && Proposed(family, rows, alnum, p);
      }
      if exists family :: Uses(mode, family) && Proposed(family, rows, alnum, p) {
        var family :| Uses(mode, family) && Proposed(family, rows, alnum, p);
        assert family == RecurringFamily || family == PairedSubtree;
      }
    }
  }

  lemma GroupsNonempty(groups: seq<Proposal>, n: nat)
    requires forall x :: 0 <= x < |groups| ==> Sound(groups[x], n)
    ensures forall x :: 0 <= x < |groups| ==> groups[x].members != []
  {
  }

  method Ungrouped(n: nat, used: set<nat>) returns (alone: seq<nat>)
    ensures Increasing(alone) && forall i: nat :: i in alone <==> i < n && i !in used
  {
    alone := [];
    var i := 0;
    while i < n
      invariant 0 <= i <= n && Increasing(alone)
      invariant forall j: nat :: j in alone <==> j < i && j !in used
    {
      if i !in used {
        assert forall x :: 0 <= x < |alone| ==> alone[x] in alone;
        alone := alone + [i];
      }
      i := i + 1;
    }
  }

  /** Every ungrouped row and every group appears once, a group at its first row, in row order. */
  ghost predicate Shows(entries: seq<Entry>, singles: seq<nat>, groups: seq<Proposal>) {
    && |entries| == |singles| + |groups|
    && ByRow(entries)
    && (forall i: nat :: ChangeEntry(i) in entries <==> i in singles)
    && (forall g: nat, i: nat :: GroupEntry(g, i) in entries <==> g < |groups| && groups[g].members != [] && i == groups[g].members[0])
  }

  predicate ByRow(entries: seq<Entry>) { forall x, y :: 0 <= x < y < |entries| ==> entries[x].row <= entries[y].row }

  /** One entry placed before everything with a larger row. */
  method Place(entries: seq<Entry>, entry: Entry) returns (r: seq<Entry>)
    requires ByRow(entries)
    ensures |r| == |entries| + 1 && ByRow(r)
    ensures forall e :: e in r <==> e in entries || e == entry
  {
    hide ByRow;
    var at := |entries|;
    while at > 0 && entries[at - 1].row > entry.row
      invariant 0 <= at <= |entries|
      invariant forall y :: at <= y < |entries| ==> entries[y].row > entry.row
    {
      at := at - 1;
    }
    Placed(entries, entry, at);
    r := entries[..at] + [entry] + entries[at..];
  }

  lemma Placed(entries: seq<Entry>, entry: Entry, at: nat)
    requires ByRow(entries) && at <= |entries| && (at > 0 ==> entries[at - 1].row <= entry.row)
    requires forall y :: at <= y < |entries| ==> entries[y].row > entry.row
    ensures var r := entries[..at] + [entry] + entries[at..];
            ByRow(r) && forall e :: e in r <==> e in entries || e == entry
  {
    var front, back := entries[..at], entries[at..];
    assert entries == front + back;
    forall e ensures e in front + [entry] + back <==> e in entries || e == entry {
      assert e in entries <==> e in front || e in back;
    }
    assert forall x :: 0 <= x < |front| ==> front[x].row <= entry.row;
    assert forall y :: 0 <= y < |back| ==> back[y].row >= entry.row;
    assert ByRow(front) && ByRow(back);
    Stacked(front, entry, back);
  }

  lemma Stacked(front: seq<Entry>, entry: Entry, back: seq<Entry>)
    requires ByRow(front) && ByRow(back)
    requires forall x :: 0 <= x < |front| ==> front[x].row <= entry.row
    requires forall y :: 0 <= y < |back| ==> back[y].row >= entry.row
    ensures ByRow(front + [entry] + back)
  {
  }

  /** Ungrouped rows, then groups, sorted by row. */
  method ListEntries(alone: seq<nat>, groups: seq<Proposal>, n: nat) returns (entries: seq<Entry>)
    requires forall x :: 0 <= x < |groups| ==> groups[x].members != []
    ensures Shows(entries, alone, groups)
  {
    entries := [];
    var i := 0;
    while i < |alone|
      invariant 0 <= i <= |alone| && Shows(entries, alone[..i], [])
    {
      entries := Place(entries, ChangeEntry(alone[i]));
      i := i + 1;
      assert alone[..i] == alone[..i - 1] + [alone[i - 1]];
    }
    assert alone[..i] == alone;
    i := 0;
    while i < |groups|
      invariant 0 <= i <= |groups| && Shows(entries, alone, groups[..i])
    {
      entries := Place(entries, GroupEntry(i, groups[i].members[0]));
      i := i + 1;
      assert groups[..i] == groups[..i - 1] + [groups[i - 1]];
    }
    assert groups[..i] == groups;
  }
}
