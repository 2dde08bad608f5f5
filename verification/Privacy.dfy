/** The export scanner's decoder worklist and its masking of reviewed ranges.

    Decoders and matching rules are arbitrary functions; only the traversal, its budgets and the
    splicing are modelled.
 */
module Privacy {
  import opened Ordered

  const MAX_DEPTH := 12
  const MAX_SEEN := 20_000
  const MAX_EXPANDED := 32_000_000
  const MAX_ATTEMPTS := 16_384
  const MAX_INPUT_CHARS := 16_000_000
  const MAX_MATCHES := 1_000_000

  datatype Role = Secrets | Paths | Materials

  datatype RoleView = RoleView(view: string, role: Role)

  datatype Item = Item(view: string, role: Role, depth: nat) {
    function Key(): RoleView { RoleView(view, role) }
  }

  datatype Decoders = Decoders(
    escapes: string -> string, wrapped: string -> seq<string>, hex: string -> seq<string>,
    tokens: string -> seq<string>, base64: string -> Option<string>)

  /** `next` is one decoding step from `view`. */
  predicate Decodes(d: Decoders, view: string, next: string) {
    || (next == d.escapes(view) && next != view)
    || next in d.wrapped(view)
    || next in d.hex(view)
    || exists i :: 0 <= i < |d.tokens(view)| && d.base64(d.tokens(view)[i]) == Some(next)
  }

  /** A role view reached from the roots in exactly `n` decoding steps. */
  ghost predicate Derives(roots: seq<RoleView>, d: Decoders, x: RoleView, n: nat)
    decreases n
  {
    if n == 0 then x in roots
    else exists view :: Derives(roots, d, RoleView(view, x.role), n - 1) && Decodes(d, view, x.view)
  }

  predicate Queued(queue: seq<Item>, x: RoleView) { exists i :: 0 <= i < |queue| && queue[i].Key() == x }

  ghost predicate Known(seen: set<RoleView>, queue: seq<Item>, x: RoleView) { x in seen || Queued(queue, x) }

  /** Every seen view's decodings are seen or still queued. */
  ghost predicate Pending(d: Decoders, seen: set<RoleView>, queue: seq<Item>) {
    forall x, next :: x in seen && Decodes(d, x.view, next) ==> Known(seen, queue, RoleView(next, x.role))
  }

  ghost predicate Closed(d: Decoders, seen: set<RoleView>) {
    forall x, next :: x in seen && Decodes(d, x.view, next) ==> RoleView(next, x.role) in seen
  }

  ghost predicate QueueDerives(roots: seq<RoleView>, d: Decoders, queue: seq<Item>) {
    forall i :: 0 <= i < |queue| ==> Derives(roots, d, queue[i].Key(), queue[i].depth)
  }

  /** Items added by one view: its own decodings, one step deeper, in its own role. */
  ghost predicate Adds(d: Decoders, from: Item, before: seq<Item>, after: seq<Item>) {
    && before <= after
    && forall i :: |before| <= i < |after| ==>
         after[i].role == from.role && after[i].depth == from.depth + 1 && Decodes(d, from.view, after[i].view)
  }

  lemma AddsDerive(roots: seq<RoleView>, d: Decoders, from: Item, before: seq<Item>, after: seq<Item>)
    requires Adds(d, from, before, after) && QueueDerives(roots, d, before)
    requires Derives(roots, d, from.Key(), from.depth)
    ensures QueueDerives(roots, d, after)
  {
    hide Decodes;
    forall i | 0 <= i < |after| ensures Derives(roots, d, after[i].Key(), after[i].depth) {
      if i < |before| { assert after[i] == before[i]; }
    }
  }

  lemma KnownGrows(seen: set<RoleView>, before: seq<Item>, after: seq<Item>)
    requires before <= after
    ensures forall x :: Known(seen, before, x) ==> Known(seen, after, x)
  {
    forall x | Queued(before, x) ensures Queued(after, x) {
      var i :| 0 <= i < |before| && before[i].Key() == x;
      assert after[i] == before[i];
    }
  }

  lemma AddsChain(d: Decoders, from: Item, before: seq<Item>, middle: seq<Item>, after: seq<Item>)
    requires Adds(d, from, before, middle) && Adds(d, from, middle, after)
    ensures Adds(d, from, before, after)
  {
    hide Decodes;
    forall i | |before| <= i < |after|
      ensures after[i].role == from.role && after[i].depth == from.depth + 1 && Decodes(d, from.view, after[i].view)
    {
      if i < |middle| { assert after[i] == middle[i]; }
    }
  }

  /** Queue one decoding of a view. */
  function Offered(from: Item, queue: seq<Item>, next: string): seq<Item> {
    queue + [Item(next, from.role, from.depth + 1)]
  }

  lemma OfferedAdds(d: Decoders, from: Item, seen: set<RoleView>, queue: seq<Item>, next: string)
    requires Decodes(d, from.view, next)
    ensures Adds(d, from, queue, Offered(from, queue, next))
    ensures Known(seen, Offered(from, queue, next), RoleView(next, from.role))
    ensures forall x :: Known(seen, queue, x) ==> Known(seen, Offered(from, queue, next), x)
  {
    hide Decodes;
    var after := Offered(from, queue, next);
    assert after[|queue|].Key() == RoleView(next, from.role);
    KnownGrows(seen, queue, after);
  }

  // ---------- the base64 leaf ----------

  /** Token decoding with a cache and three budgets shared by the whole scan. */
  class Base64 {
    const decode: string -> Option<string>
    var cache: map<string, Option<string>>
    var scheduled: set<RoleView>
    var attempts: nat
    var inputChars: nat
    var matches: nat

    constructor (decode: string -> Option<string>)
      ensures this.decode == decode && Valid() && scheduled == {}
    {
      this.decode := decode;
      cache, scheduled, attempts, inputChars, matches := map[], {}, 0, 0, 0;
    }

    /** The cache holds true decodings, one attempt each. */
    ghost predicate Valid()
      reads this
    {
      (forall t :: t in cache ==> cache[t] == decode(t)) && |cache| == attempts <= MAX_ATTEMPTS
    }

    /** Some budget of the shared decoder is used up. */
    predicate Overrun()
      reads this
    {
      matches > 1_000_000 || inputChars > 16_000_000 || attempts >= 16_384
    }

    ghost predicate Scheduled(seen: set<RoleView>, queue: seq<Item>)
      reads this`scheduled
    {
      forall x :: x in scheduled ==> Known(seen, queue, x)
    }

    /** Decode one token within the budgets; a budget overrun is reported, never skipped. */
    method DecodeToken(token: string) returns (ok: bool, decoded: Option<string>)
      requires Valid()
      modifies this`cache, this`attempts, this`inputChars, this`matches
      ensures Valid()
      ensures ok ==> decoded == decode(token)
      ensures matches == old(matches) + 1 && inputChars == old(inputChars) + |token|
      ensures ok ==> matches <= MAX_MATCHES && inputChars <= MAX_INPUT_CHARS
      ensures !ok ==> Overrun()
    {
      matches := matches + 1;
      inputChars := inputChars + |token|;
      if matches > MAX_MATCHES { return false, None; }
      if inputChars > MAX_INPUT_CHARS { return false, None; }
      if token !in cache {
        if attempts >= MAX_ATTEMPTS { return false, None; }
        attempts := attempts + 1;
        assert |cache[token := decode(token)]| == |cache| + 1 by {
          assert cache[token := decode(token)].Keys == cache.Keys + {token};
          assert |cache[token := decode(token)].Keys| == |cache[token := decode(token)]|;
        }
        cache := cache[token := decode(token)];
      }
      return true, cache[token];
    }

    /** Queue one token's decoding unless this role view is already seen or scheduled. */
    method Offer(d: Decoders, from: Item, next: string, seen: set<RoleView>, before: seq<Item>)
      returns (queue: seq<Item>)
      requires Valid() && Scheduled(seen, before) && Decodes(d, from.view, next)
      modifies this`scheduled
      ensures Valid() && Scheduled(seen, queue) && Adds(d, from, before, queue)
      ensures Known(seen, queue, RoleView(next, from.role))
      ensures var key := RoleView(next, from.role);
              if key in old(scheduled) || key in seen then queue == before && scheduled == old(scheduled)
              else queue == Offered(from, before, next) && scheduled == old(scheduled) + {key}
    {
      hide Known;
      queue := before;
      var key := RoleView(next, from.role);
      if key !in scheduled && key !in seen {
        OfferedAdds(d, from, seen, before, next);
        queue := Offered(from, before, next);
        scheduled := scheduled + {key};
      } else if key !in scheduled {
        SeenIsKnown(seen, queue, key);
      }
    }

    /** Decode one token and queue its decoding. */
    method Take(d: Decoders, from: Item, i: nat, seen: set<RoleView>, before: seq<Item>)
      returns (ok: bool, queue: seq<Item>)
      requires Valid() && decode == d.base64 && Scheduled(seen, before) && i < |d.tokens(from.view)|
      modifies this`cache, this`attempts, this`inputChars, this`matches, this`scheduled
      ensures Valid() && Scheduled(seen, queue)
      ensures Adds(d, from, before, queue)
      ensures ok ==> TokenKnown(d, from, seen, queue, i)
      ensures !ok ==> Overrun()
    {
      hide Known;
      hide Adds;
      hide Decodes;
      hide TokenKnown;
      hide Valid;
      hide Overrun;
      AddsNothing(d, from, before);
      var decoded;
      ok, decoded := DecodeToken(d.tokens(from.view)[i]);
      queue := before;
      if !ok { return; }
      if decoded.Some? {
        TokenDecodes(d, from.view, i, decoded.value);
        queue := Offer(d, from, decoded.value, seen, queue);
      }
      TokenSettled(d, from, seen, queue, i);
    }

    /** Queue every token's decoding that is neither seen nor scheduled. */
    method Schedule(d: Decoders, from: Item, seen: set<RoleView>, before: seq<Item>)
      returns (ok: bool, queue: seq<Item>)
      requires Valid() && decode == d.base64 && Scheduled(seen, before)
      modifies this`cache, this`attempts, this`inputChars, this`matches, this`scheduled
      ensures Valid() && Scheduled(seen, queue)
      ensures Adds(d, from, before, queue)
      ensures ok ==> forall i :: 0 <= i < |d.tokens(from.view)| ==> TokenKnown(d, from, seen, queue, i)
      ensures !ok ==> Overrun()
    {
      hide Adds;
      hide TokenKnown;
      hide Valid;
      hide Overrun;
      hide Scheduled;
      queue := before;
      AddsNothing(d, from, before);
      var i := 0;
      while i < |d.tokens(from.view)|
        invariant 0 <= i <= |d.tokens(from.view)|
        invariant Valid() && Scheduled(seen, queue) && Adds(d, from, before, queue)
        invariant forall j :: 0 <= j < i ==> TokenKnown(d, from, seen, queue, j)
      {
        ghost var earlier := queue;
        ok, queue := Take(d, from, i, seen, queue);
        AddsChain(d, from, before, earlier, queue);
        if !ok { return; }
        TokensStayKnown(d, from, seen, earlier, queue, i);
        i := i + 1;
      }
      ok := true;
    }
  }

  /** One token's decoding, if any, will be or has been seen. */
  ghost predicate TokenKnown(d: Decoders, from: Item, seen: set<RoleView>, queue: seq<Item>, i: nat) {
    i < |d.tokens(from.view)| && d.base64(d.tokens(from.view)[i]).Some? ==>
      Known(seen, queue, RoleView(d.base64(d.tokens(from.view)[i]).value, from.role))
  }

  lemma AddsNothing(d: Decoders, from: Item, queue: seq<Item>)
    ensures Adds(d, from, queue, queue)
  {
  }

  lemma TokenDecodes(d: Decoders, view: string, i: nat, next: string)
    requires i < |d.tokens(view)| && d.base64(d.tokens(view)[i]) == Some(next)
    ensures Decodes(d, view, next)
  {
  }

  lemma TokensStayKnown(d: Decoders, from: Item, seen: set<RoleView>, before: seq<Item>, after: seq<Item>, n: nat)
    requires Adds(d, from, before, after) && forall j :: 0 <= j < n ==> TokenKnown(d, from, seen, before, j)
    ensures forall j :: 0 <= j < n ==> TokenKnown(d, from, seen, after, j)
  {
    KnownGrows(seen, before, after);
    forall j | 0 <= j < n ensures TokenKnown(d, from, seen, after, j) {
      assert TokenKnown(d, from, seen, before, j);
    }
  }

  lemma TokenSettled(d: Decoders, from: Item, seen: set<RoleView>, queue: seq<Item>, i: nat)
    requires i < |d.tokens(from.view)|
    requires d.base64(d.tokens(from.view)[i]).Some? ==>
               Known(seen, queue, RoleView(d.base64(d.tokens(from.view)[i]).value, from.role))
    ensures TokenKnown(d, from, seen, queue, i)
  {
  }

  lemma SeenIsKnown(seen: set<RoleView>, queue: seq<Item>, x: RoleView)
    requires x in seen
    ensures Known(seen, queue, x)
  {
  }

  // ---------- expanding one view ----------

  /** Queue each listed decoding, one step deeper. */
  method OfferAll(d: Decoders, from: Item, list: seq<string>, ghost seen: set<RoleView>, before: seq<Item>)
    returns (queue: seq<Item>)
    requires forall i :: 0 <= i < |list| ==> Decodes(d, from.view, list[i])
    ensures Adds(d, from, before, queue)
    ensures forall i :: 0 <= i < |list| ==> Known(seen, queue, RoleView(list[i], from.role))
  {
    hide Known;
    hide Adds;
    hide Decodes;
    queue := before;
    AddsNothing(d, from, before);
    var i := 0;
    while i < |list|
      invariant 0 <= i <= |list| && Adds(d, from, before, queue)
      invariant forall j :: 0 <= j < i ==> Known(seen, queue, RoleView(list[j], from.role))
    {
      OfferedAdds(d, from, seen, queue, list[i]);
      AddsChain(d, from, before, queue, Offered(from, queue, list[i]));
      queue := Offered(from, queue, list[i]);
      i := i + 1;
    }
  }

  ghost predicate ListKnown(from: Item, seen: set<RoleView>, queue: seq<Item>, list: seq<string>) {
    forall i :: 0 <= i < |list| ==> Known(seen, queue, RoleView(list[i], from.role))
  }

  /** Every decoding of one view will be or has been seen. */
  ghost predicate Expanded(d: Decoders, from: Item, seen: set<RoleView>, queue: seq<Item>) {
    forall next :: Decodes(d, from.view, next) ==> Known(seen, queue, RoleView(next, from.role))
  }

  lemma AllExpanded(d: Decoders, from: Item, seen: set<RoleView>, queue: seq<Item>)
    requires d.escapes(from.view) != from.view ==> Known(seen, queue, RoleView(d.escapes(from.view), from.role))
    requires ListKnown(from, seen, queue, d.wrapped(from.view)) && ListKnown(from, seen, queue, d.hex(from.view))
    requires forall i :: 0 <= i < |d.tokens(from.view)| ==> TokenKnown(d, from, seen, queue, i)
    ensures Expanded(d, from, seen, queue)
  {
    hide Known;
    forall next | Decodes(d, from.view, next) ensures Known(seen, queue, RoleView(next, from.role)) {
      if exists i :: 0 <= i < |d.tokens(from.view)| && d.base64(d.tokens(from.view)[i]) == Some(next) {
        var i :| 0 <= i < |d.tokens(from.view)| && d.base64(d.tokens(from.view)[i]) == Some(next);
        assert TokenKnown(d, from, seen, queue, i);
      }
    }
  }

  /** Escapes, wrapped and hexadecimal decodings are queued unconditionally; base64 within its budgets. */
  method Expand(d: Decoders, from: Item, base64: Base64, seen: set<RoleView>, before: seq<Item>)
    returns (ok: bool, queue: seq<Item>)
    requires base64.Valid() && base64.decode == d.base64 && base64.Scheduled(seen, before)
    modifies base64`cache, base64`attempts, base64`inputChars, base64`matches, base64`scheduled
    ensures base64.Valid() && base64.Scheduled(seen, queue)
    ensures Adds(d, from, before, queue)
    ensures ok ==> Expanded(d, from, seen, queue)
    ensures !ok ==> base64.Overrun()
  {
    hide Known;
    hide Adds;
    hide TokenKnown;
    queue := before;
    AddsNothing(d, from, before);
    var decoded := d.escapes(from.view);
    if decoded != from.view {
      OfferedAdds(d, from, seen, queue, decoded);
      queue := Offered(from, queue, decoded);
    }
    ghost var q1 := queue;
    queue := OfferAll(d, from, d.wrapped(from.view), seen, queue);
    ghost var q2 := queue;
    queue := OfferAll(d, from, d.hex(from.view), seen, queue);
    ghost var q3 := queue;
    AddsChain(d, from, before, q1, q2);
    AddsChain(d, from, before, q2, q3);
    StaysKnown(d, from, seen, before, q3);
    ok, queue := base64.Schedule(d, from, seen, queue);
    AddsChain(d, from, before, q3, queue);
    StaysKnown(d, from, seen, q1, q2);
    StaysKnown(d, from, seen, q2, q3);
    StaysKnown(d, from, seen, q3, queue);
    if ok { AllExpanded(d, from, seen, queue); }
  }

  lemma StaysKnown(d: Decoders, from: Item, seen: set<RoleView>, before: seq<Item>, after: seq<Item>)
    requires Adds(d, from, before, after)
    ensures forall x :: Known(seen, before, x) ==> Known(seen, after, x)
  {
    KnownGrows(seen, before, after);
  }

  // ---------- the worklist ----------

  /** What one scan reports: how many matches, and whether any budget ran out. */
  datatype Findings = Findings(matched: nat, exhausted: bool) {
    predicate Empty() { matched == 0 && !exhausted }
  }

  ghost predicate Clean(seen: set<RoleView>, rule: RoleView -> nat) {
    forall x :: x in seen ==> rule(x) == 0
  }

  ghost predicate Reached(roots: seq<RoleView>, d: Decoders, seen: set<RoleView>) {
    forall x :: x in seen ==> exists n: nat :: Derives(roots, d, x, n)
  }

  ghost predicate RootsKnown(roots: seq<RoleView>, seen: set<RoleView>, queue: seq<Item>) {
    forall i :: 0 <= i < |roots| ==> Known(seen, queue, roots[i])
  }

  /** The state between two rounds. */
  ghost predicate Scanning(roots: seq<RoleView>, d: Decoders, rule: RoleView -> nat, seen: set<RoleView>,
                           queue: seq<Item>, matched: nat)
  {
    && RootsKnown(roots, seen, queue) && Pending(d, seen, queue)
    && QueueDerives(roots, d, queue) && Reached(roots, d, seen)
    && (matched == 0 <==> Clean(seen, rule))
  }

  lemma PopSeen(roots: seq<RoleView>, d: Decoders, rule: RoleView -> nat, seen: set<RoleView>, queue: seq<Item>,
                matched: nat)
    requires queue != [] && Scanning(roots, d, rule, seen, queue, matched) && queue[0].Key() in seen
    ensures Scanning(roots, d, rule, seen, queue[1..], matched)
    ensures forall x :: Known(seen, queue, x) ==> Known(seen, queue[1..], x)
  {
    PoppedKnown(seen, seen, queue);
    hide Known;
    hide Decodes;
  }

  lemma PoppedKnown(seen: set<RoleView>, after: set<RoleView>, queue: seq<Item>)
    requires queue != [] && seen <= after && queue[0].Key() in after
    ensures forall x :: Known(seen, queue, x) ==> Known(after, queue[1..], x)
  {
    forall x | Known(seen, queue, x) ensures Known(after, queue[1..], x) {
      if x !in after {
        var i :| 0 <= i < |queue| && queue[i].Key() == x;
        assert queue[1..][i - 1] == queue[i];
      }
    }
  }

  lemma PopNew(roots: seq<RoleView>, d: Decoders, rule: RoleView -> nat, seen: set<RoleView>, queue: seq<Item>,
               matched: nat, grown: seq<Item>)
    requires queue != [] && Scanning(roots, d, rule, seen, queue, matched)
    requires Adds(d, queue[0], queue[1..], grown)
    requires Expanded(d, queue[0], seen + {queue[0].Key()}, grown)
    ensures Scanning(roots, d, rule, seen + {queue[0].Key()}, grown, matched + rule(queue[0].Key()))
  {
    var head := queue[0];
    var after := seen + {head.Key()};
    PoppedKnown(seen, after, queue);
    KnownGrows(after, queue[1..], grown);
    AddsDerive(roots, d, head, queue[1..], grown);
    hide Known;
    forall x, next | x in after && Decodes(d, x.view, next) ensures Known(after, grown, RoleView(next, x.role)) {
      if x in seen { assert Known(seen, queue, RoleView(next, x.role)); }
    }
    hide Decodes;
    hide Adds;
    assert Derives(roots, d, head.Key(), head.depth);
  }

  /** What holds when a scan stops, for whatever reason. */
  ghost predicate Stopped(roots: seq<RoleView>, d: Decoders, rule: RoleView -> nat, seen: set<RoleView>, matched: nat) {
    Reached(roots, d, seen) && (matched == 0 <==> Clean(seen, rule))
  }

  lemma StoppedMeaning(roots: seq<RoleView>, d: Decoders, rule: RoleView -> nat, seen: set<RoleView>, matched: nat)
    requires Stopped(roots, d, rule, seen, matched)
    ensures Reached(roots, d, seen) && (matched == 0 <==> Clean(seen, rule))
  {
  }

  lemma ScanningStops(roots: seq<RoleView>, d: Decoders, rule: RoleView -> nat, seen: set<RoleView>,
                      queue: seq<Item>, matched: nat)
    requires Scanning(roots, d, rule, seen, queue, matched)
    ensures Stopped(roots, d, rule, seen, matched)
  {
  }

  function Lengths(views: seq<RoleView>): nat {
    if views == [] then 0 else Lengths(views[..|views| - 1]) + |views[|views| - 1].view|
  }

  /** The views scanned so far, each once and in order, with the characters they cost. */
  ghost predicate Tallied(order: seq<RoleView>, seen: set<RoleView>, expanded: nat) {
    && (forall i, j :: 0 <= i < j < |order| ==> order[i] != order[j])
    && (forall x :: x in order <==> x in seen) && Lengths(order) == expanded
  }

  lemma TallyGrows(order: seq<RoleView>, seen: set<RoleView>, expanded: nat, x: RoleView)
    requires Tallied(order, seen, expanded) && x !in seen
    ensures Tallied(order + [x], seen + {x}, expanded + |x.view|)
    ensures Lengths(order + [x]) == Lengths(order) + |x.view|
  {
    assert (order + [x])[..|order|] == order;
  }

  /** Scanning one more reachable view would exceed a traversal budget. */
  predicate Exceeds(depth: nat, seen: nat, expanded: nat) {
    depth > MAX_DEPTH || seen >= MAX_SEEN || expanded > MAX_EXPANDED
  }

  /** Deeper than twelve steps, past 20,000 views, or past 32 million characters. */
  predicate Over(depth: nat, seen: nat, expanded: nat) { depth > 12 || seen >= 20_000 || expanded > 32_000_000 }

  /** What all scanned views match together. */
  function Matches(order: seq<RoleView>, rule: RoleView -> nat): nat {
    if order == [] then 0 else Matches(order[..|order| - 1], rule) + rule(order[|order| - 1])
  }

  lemma MatchesGrow(order: seq<RoleView>, rule: RoleView -> nat, x: RoleView)
    ensures Matches(order + [x], rule) == Matches(order, rule) + rule(x)
  {
    assert (order + [x])[..|order|] == order;
  }

  /** Some reachable, unscanned view is too deep, one too many or too long. */
  ghost predicate OverBudget(roots: seq<RoleView>, d: Decoders, order: seq<RoleView>) {
    exists x, n: nat :: Derives(roots, d, x, n) && x !in order && Over(n, |order|, Lengths(order) + |x.view|)
  }

  lemma HeadDerives(roots: seq<RoleView>, d: Decoders, rule: RoleView -> nat, seen: set<RoleView>,
                    queue: seq<Item>, matched: nat)
    requires queue != [] && Scanning(roots, d, rule, seen, queue, matched)
    ensures Derives(roots, d, queue[0].Key(), queue[0].depth)
  {
  }

  lemma TallyCounts(order: seq<RoleView>, seen: set<RoleView>, expanded: nat)
    requires Tallied(order, seen, expanded)
    ensures |order| == |seen|
    decreases |order|
  {
    if order == [] {
      assert seen == {};
    } else {
      var x, front := order[|order| - 1], order[..|order| - 1];
      assert x in order;
      forall y ensures y in front <==> y in seen - {x} {
        if y in seen - {x} {
          var i :| 0 <= i < |order| && order[i] == y;
          assert front[i] == y;
        }
      }
      TallyCounts(front, seen - {x}, Lengths(front));
    }
  }

  lemma TallyStarts()
    ensures Tallied([], {}, 0) && Lengths([]) == 0
  {
  }

  lemma HeadExceeds(roots: seq<RoleView>, d: Decoders, order: seq<RoleView>, seen: set<RoleView>, head: Item)
    requires Tallied(order, seen, Lengths(order)) && Derives(roots, d, head.Key(), head.depth)
    requires head.Key() !in seen && Exceeds(head.depth, |seen|, Lengths(order) + |head.view|)
    ensures OverBudget(roots, d, order)
  {
    TallyCounts(order, seen, Lengths(order));
    assert head.Key() !in order && |head.Key().view| == |head.view|;
  }

  /** What was scheduled stays seen or queued when the head is taken. */
  lemma ScheduledPops(base64: Base64, seen: set<RoleView>, after: set<RoleView>, queue: seq<Item>)
    requires queue != [] && seen <= after && queue[0].Key() in after && base64.Scheduled(seen, queue)
    ensures base64.Scheduled(after, queue[1..])
  {
    PoppedKnown(seen, after, queue);
    hide Known;
  }

  /** Take one role view from the queue: skip it if seen, otherwise count and expand it. */
  method Round(roots: seq<RoleView>, d: Decoders, rule: RoleView -> nat, base64: Base64, visited: set<RoleView>,
               queue: seq<Item>, expanded: nat, matched: nat)
    returns (exhausted: bool, visitedNow: set<RoleView>, queueNow: seq<Item>, expandedNow: nat, matchedNow: nat)
    requires queue != [] && |visited| <= MAX_SEEN && Scanning(roots, d, rule, visited, queue, matched)
    requires base64.Valid() && base64.decode == d.base64 && base64.Scheduled(visited, queue)
    modifies base64`cache, base64`attempts, base64`inputChars, base64`matches, base64`scheduled
    ensures Stopped(roots, d, rule, visitedNow, matchedNow)
    ensures base64.Valid()
    ensures !exhausted ==> Scanning(roots, d, rule, visitedNow, queueNow, matchedNow)
    ensures !exhausted ==> base64.Scheduled(visitedNow, queueNow)
    ensures var head := queue[0];
            var over := Exceeds(head.depth, |visited|, expanded + |head.view|);
            if head.Key() in visited then
              !exhausted && visitedNow == visited && queueNow == queue[1..] && expandedNow == expanded && matchedNow == matched
            else if over then exhausted && visitedNow == visited && matchedNow == matched
            else
              && visitedNow == visited + {head.Key()} && expandedNow == expanded + |head.view|
              && matchedNow == matched + rule(head.Key())
              && (exhausted ==> base64.Overrun())
  {
    hide Scanning;
    hide Stopped;
    hide Adds;
    hide Expanded;
    hide Decodes;
    hide Known;
    hide Base64.Valid;
    hide Base64.Overrun;
    hide Base64.Scheduled;
    ScanningStops(roots, d, rule, visited, queue, matched);
    exhausted, visitedNow, queueNow, expandedNow, matchedNow := false, visited, queue, expanded, matched;
    var head := queue[0];
    if head.Key() in visited {
      PopSeen(roots, d, rule, visited, queue, matched);
      ScheduledPops(base64, visited, visited, queue);
      queueNow := queue[1..];
      ScanningStops(roots, d, rule, visited, queueNow, matched);
      return;
    }
    expandedNow := expanded + |head.view|;
    if Exceeds(head.depth, |visited|, expandedNow) {
      exhausted := true;
      return;
    }
    visitedNow := visited + {head.Key()};
    matchedNow := matched + rule(head.Key());
    ScheduledPops(base64, visited, visitedNow, queue);
    ExhaustedState(roots, d, rule, visited, queue, matched);
    var ok;
    ok, queueNow := Expand(d, head, base64, visitedNow, queue[1..]);
    exhausted := !ok;
    if ok { PopNew(roots, d, rule, visited, queue, matched, queueNow); }
  }

  /** One round, with the tally of what it scanned. */
  method TallyRound(roots: seq<RoleView>, d: Decoders, rule: RoleView -> nat, base64: Base64, visited: set<RoleView>,
                    queue: seq<Item>, expanded: nat, matched: nat, ghost order: seq<RoleView>)
    returns (exhausted: bool, visitedNow: set<RoleView>, queueNow: seq<Item>, expandedNow: nat, matchedNow: nat,
             ghost orderNow: seq<RoleView>)
    requires queue != [] && |visited| <= MAX_SEEN && Scanning(roots, d, rule, visited, queue, matched)
    requires base64.Valid() && base64.decode == d.base64 && base64.Scheduled(visited, queue)
    requires Tallied(order, visited, Lengths(order)) && Lengths(order) == expanded && Matches(order, rule) == matched
    modifies base64`cache, base64`attempts, base64`inputChars, base64`matches, base64`scheduled
    ensures Stopped(roots, d, rule, visitedNow, matchedNow) && base64.Valid() && |visitedNow| <= MAX_SEEN
    ensures Tallied(orderNow, visitedNow, Lengths(orderNow)) && Matches(orderNow, rule) == matchedNow
    ensures exhausted ==> OverBudget(roots, d, orderNow) || base64.Overrun()
    ensures !exhausted ==> Scanning(roots, d, rule, visitedNow, queueNow, matchedNow)
    ensures !exhausted ==> base64.Scheduled(visitedNow, queueNow) && Lengths(orderNow) == expandedNow
    ensures !exhausted ==> |visitedNow| > |visited| || (visitedNow == visited && |queueNow| < |queue|)
  {
    hide Scanning;
    hide Known;
    hide Derives;
    hide Tallied;
    hide Lengths;
    hide Stopped;
    hide OverBudget;
    hide Matches;
    hide Base64.Valid;
    hide Base64.Overrun;
    hide Base64.Scheduled;
    var head := queue[0];
    HeadDerives(roots, d, rule, visited, queue, matched);
    if head.Key() !in visited && Exceeds(head.depth, |visited|, expanded + |head.view|) {
      HeadExceeds(roots, d, order, visited, head);
    }
    exhausted, visitedNow, queueNow, expandedNow, matchedNow :=
      Round(roots, d, rule, base64, visited, queue, expanded, matched);
    orderNow := order;
    if visitedNow != visited {
      TallyGrows(order, visited, Lengths(order), head.Key());
      MatchesGrow(order, rule, head.Key());
      orderNow := order + [head.Key()];
    }
  }

  /** Scan every role view reachable from the roots, or report why not. An empty report means the
      scanned set contains the roots, is closed under every decoder, holds nothing unreachable, and
      no scanned view matches its role's rule; an exhausted report names a budget that ran out. */
  method Scan(roots: seq<RoleView>, d: Decoders, rule: RoleView -> nat)
    returns (findings: Findings, ghost seen: set<RoleView>, ghost order: seq<RoleView>, ghost base64: Base64)
    ensures Reached(roots, d, seen) && Tallied(order, seen, Lengths(order))
    ensures !findings.exhausted ==> (forall i :: 0 <= i < |roots| ==> roots[i] in seen) && Closed(d, seen)
    ensures findings.exhausted ==> OverBudget(roots, d, order) || base64.Overrun()
    ensures findings.matched == Matches(order, rule) && (findings.matched == 0 <==> Clean(seen, rule))
    ensures findings.Empty() ==> NothingMatches(roots, d, rule)
    ensures findings.matched > 0 ==> !NothingMatches(roots, d, rule)
  {
    hide Scanning;
    hide Known;
    hide Tallied;
    hide Lengths;
    hide Stopped;
    hide OverBudget;
    TallyStarts();
    var queue := Rooted(roots);
    var tokens := new Base64(d.base64);
    var visited: set<RoleView> := {};
    var expanded, matched := 0, 0;
    var exhausted := false;
    order := [];
    ScanStarts(roots, d, rule, queue);
    ScanningStops(roots, d, rule, {}, queue, 0);
    hide Base64.Valid;
    hide Base64.Overrun;
    while queue != [] && !exhausted
      invariant fresh(tokens) && tokens.decode == d.base64 && tokens.Valid()
      invariant Stopped(roots, d, rule, visited, matched) && Tallied(order, visited, Lengths(order))
      invariant Matches(order, rule) == matched
      invariant |visited| <= MAX_SEEN
      invariant exhausted ==> OverBudget(roots, d, order) || tokens.Overrun()
      invariant !exhausted ==> tokens.Scheduled(visited, queue) && Lengths(order) == expanded
      invariant !exhausted ==> Scanning(roots, d, rule, visited, queue, matched)
      decreases !exhausted, MAX_SEEN - |visited|, |queue|
    {
      exhausted, visited, queue, expanded, matched, order :=
        TallyRound(roots, d, rule, tokens, visited, queue, expanded, matched, order);
    }
    seen := visited;
    base64 := tokens;
    findings := Findings(matched, exhausted);
    StoppedMeaning(roots, d, rule, visited, matched);
    if !exhausted { ScanEnds(roots, d, rule, visited, matched); }
    MatchesTell(roots, d, rule, visited, !exhausted);
  }

  /** No view derivable from the roots matches its role's rule, however deep. */
  ghost predicate NothingMatches(roots: seq<RoleView>, d: Decoders, rule: RoleView -> nat) {
    forall x, n: nat :: Derives(roots, d, x, n) ==> rule(x) == 0
  }

  lemma MatchesTell(roots: seq<RoleView>, d: Decoders, rule: RoleView -> nat, seen: set<RoleView>, whole: bool)
    requires Reached(roots, d, seen)
    requires whole ==> (forall i :: 0 <= i < |roots| ==> roots[i] in seen) && Closed(d, seen)
    ensures whole && Clean(seen, rule) ==> NothingMatches(roots, d, rule)
    ensures !Clean(seen, rule) ==> !NothingMatches(roots, d, rule)
  {
    if whole && Clean(seen, rule) {
      forall x, n: nat | Derives(roots, d, x, n) ensures rule(x) == 0 { ClosedHoldsAll(roots, d, seen, x, n); }
    }
    if !Clean(seen, rule) {
      var x :| x in seen && rule(x) != 0;
      var n: nat :| Derives(roots, d, x, n);
    }
  }

  function Rooted(roots: seq<RoleView>): (queue: seq<Item>)
    ensures |queue| == |roots|
    ensures forall i :: 0 <= i < |roots| ==> queue[i] == Item(roots[i].view, roots[i].role, 0)
  {
    seq(|roots|, i requires 0 <= i < |roots| => Item(roots[i].view, roots[i].role, 0))
  }

  lemma ScanStarts(roots: seq<RoleView>, d: Decoders, rule: RoleView -> nat, queue: seq<Item>)
    requires queue == Rooted(roots)
    ensures Scanning(roots, d, rule, {}, queue, 0)
  {
    forall i | 0 <= i < |roots| ensures Known({}, queue, roots[i]) { assert queue[i].Key() == roots[i]; }
    forall i | 0 <= i < |queue| ensures Derives(roots, d, queue[i].Key(), queue[i].depth) {
      assert queue[i].Key() == roots[i];
    }
  }

  /** When a budget runs out, what was scanned is still reachable and fully counted. */
  lemma ExhaustedState(roots: seq<RoleView>, d: Decoders, rule: RoleView -> nat, seen: set<RoleView>,
                       queue: seq<Item>, matched: nat)
    requires queue != [] && Scanning(roots, d, rule, seen, queue, matched)
    ensures var after := seen + {queue[0].Key()};
            Stopped(roots, d, rule, after, matched + rule(queue[0].Key()))
  {
    hide Decodes;
    hide Known;
    assert Derives(roots, d, queue[0].Key(), queue[0].depth);
    hide Derives;
  }

  lemma ScanEnds(roots: seq<RoleView>, d: Decoders, rule: RoleView -> nat, seen: set<RoleView>, matched: nat)
    requires Scanning(roots, d, rule, seen, [], matched)
    ensures (forall i :: 0 <= i < |roots| ==> roots[i] in seen) && Closed(d, seen)
  {
    hide Decodes;
    forall i | 0 <= i < |roots| ensures roots[i] in seen { assert Known(seen, [], roots[i]); }
    forall x, next | x in seen && Decodes(d, x.view, next) ensures RoleView(next, x.role) in seen {
      assert Known(seen, [], RoleView(next, x.role));
    }
  }

  /** A closed set holding the roots holds everything derivable, so a clean scan left nothing out. */
  lemma {:induction false} ClosedHoldsAll(roots: seq<RoleView>, d: Decoders, seen: set<RoleView>, x: RoleView, n: nat)
    requires Closed(d, seen) && (forall i :: 0 <= i < |roots| ==> roots[i] in seen) && Derives(roots, d, x, n)
    ensures x in seen
    decreases n
  {
    if n > 0 {
      var view :| Derives(roots, d, RoleView(view, x.role), n - 1) && Decodes(d, view, x.view);
      ClosedHoldsAll(roots, d, seen, RoleView(view, x.role), n - 1);
      assert x == RoleView(x.view, x.role);
    }
  }

  // ---------- masking reviewed ranges ----------

  const MASK := "reviewed-syntax"

  datatype Range = Range(start: nat, end: nat)

  predicate RangeLess(a: Range, b: Range) { a.start < b.start || (a.start == b.start && a.end < b.end) }

  predicate ValidRange(r: Range, length: nat) { r.start <= r.end <= length }

  predicate Within(r: Range, i: nat) { r.start <= i < r.end }

  /** Some range covers the character. */
  predicate Covered(ranges: seq<Range>, i: nat) { exists x :: 0 <= x < |ranges| && Within(ranges[x], i) }

  predicate Touches(r: Range, p: nat) { r.start <= p <= r.end }

  /** Some range reaches the position, its ends included. */
  predicate TouchedAt(ranges: seq<Range>, p: nat) { exists x :: 0 <= x < |ranges| && Touches(ranges[x], p) }

  /** Merged ranges are in order with a gap between neighbours. */
  predicate Separated(ranges: seq<Range>) {
    forall x, y :: 0 <= x < y < |ranges| ==> ranges[x].end < ranges[y].start
  }

  predicate AllValid(ranges: seq<Range>, length: nat) {
    forall x :: 0 <= x < |ranges| ==> ValidRange(ranges[x], length)
  }

  /** Reading on from `from`: kept text up to each range from the `k`th on, one mask for the range. */
  function Spliced(text: string, ranges: seq<Range>, k: nat, from: nat): string
    requires AllValid(ranges, |text|) && Separated(ranges)
    requires k <= |ranges| && from <= |text| && (k < |ranges| ==> from <= ranges[k].start)
    decreases |ranges| - k
  {
    if k == |ranges| then text[from..]
    else text[from..ranges[k].start] + MASK + Spliced(text, ranges, k + 1, ranges[k].end)
  }

  /** Merge overlapping and touching ranges of a sorted list. */
  method MergeRanges(sorted: seq<Range>, length: nat) returns (merged: seq<Range>)
    requires AllValid(sorted, length) && forall x, y :: 0 <= x < y < |sorted| ==> RangeLess(sorted[x], sorted[y])
    ensures AllValid(merged, length) && Separated(merged)
    ensures forall i: nat :: Covered(merged, i) <==> Covered(sorted, i)
    ensures forall p: nat :: TouchedAt(merged, p) <==> TouchedAt(sorted, p)
  {
    merged := [];
    var n := 0;
    while n < |sorted|
      invariant 0 <= n <= |sorted| && AllValid(merged, length) && Separated(merged)
      invariant forall i: nat :: Covered(merged, i) <==> Covered(sorted[..n], i)
      invariant forall p: nat :: TouchedAt(merged, p) <==> TouchedAt(sorted[..n], p)
      invariant merged != [] && n < |sorted| ==> merged[|merged| - 1].start <= sorted[n].start
    {
      var next := sorted[n];
      ghost var before := merged;
      CoverAppend(sorted[..n], next);
      assert sorted[..n + 1] == sorted[..n] + [next];
      if merged != [] && next.start <= merged[|merged| - 1].end {
        var last := merged[|merged| - 1];
        var grown := Range(last.start, if last.end < next.end then next.end else last.end);
        CoverLast(before, next, grown);
        merged := merged[..|merged| - 1] + [grown];
      } else {
        CoverAppend(before, next);
        merged := merged + [next];
      }
      n := n + 1;
    }
    assert sorted[..n] == sorted;
  }

  lemma CoverAppend(ranges: seq<Range>, next: Range)
    ensures forall i: nat :: Covered(ranges + [next], i) <==> Covered(ranges, i) || Within(next, i)
    ensures forall p: nat :: TouchedAt(ranges + [next], p) <==> TouchedAt(ranges, p) || Touches(next, p)
  {
    forall p: nat ensures TouchedAt(ranges + [next], p) <==> TouchedAt(ranges, p) || Touches(next, p) {
      if TouchedAt(ranges, p) {
        var x :| 0 <= x < |ranges| && Touches(ranges[x], p);
        assert (ranges + [next])[x] == ranges[x];
      }
      if Touches(next, p) { assert (ranges + [next])[|ranges|] == next; }
    }
    forall i: nat ensures Covered(ranges + [next], i) <==> Covered(ranges, i) || Within(next, i) {
      if Covered(ranges, i) {
        var x :| 0 <= x < |ranges| && Within(ranges[x], i);
        assert (ranges + [next])[x] == ranges[x];
      }
      if Within(next, i) { assert (ranges + [next])[|ranges|] == next; }
    }
  }

  lemma CoverLast(ranges: seq<Range>, next: Range, grown: Range)
    requires ranges != []
    requires var last := ranges[|ranges| - 1];
             last.start <= next.start <= last.end && grown.start == last.start &&
             grown.end == (if last.end < next.end then next.end else last.end)
    ensures forall i: nat :: Covered(ranges[..|ranges| - 1] + [grown], i) <==> Covered(ranges, i) || Within(next, i)
    ensures forall p: nat :: TouchedAt(ranges[..|ranges| - 1] + [grown], p) <==> TouchedAt(ranges, p) || Touches(next, p)
  {
    var front, last := ranges[..|ranges| - 1], ranges[|ranges| - 1];
    CoverAppend(front, grown);
    CoverAppend(front, last);
    assert ranges == front + [last];
  }

  /** Where the untouched text ends when the ranges from the `n`th on are done. */
  function Untouched(text: string, merged: seq<Range>, n: nat): (at: nat)
    requires AllValid(merged, |text|) && n <= |merged|
    ensures at <= |text|
  {
    if n == |merged| then |text| else merged[n].start
  }

  /** What the ranges from the `n`th on leave behind that point. */
  function Tail(text: string, merged: seq<Range>, n: nat): string
    requires AllValid(merged, |text|) && Separated(merged) && n <= |merged|
  {
    if n == |merged| then "" else MASK + Spliced(text, merged, n + 1, merged[n].end)
  }

  lemma TailReads(text: string, merged: seq<Range>, n: nat, from: nat)
    requires AllValid(merged, |text|) && Separated(merged) && n <= |merged|
    requires from <= Untouched(text, merged, n)
    ensures text[from..Untouched(text, merged, n)] + Tail(text, merged, n) == Spliced(text, merged, n, from)
  {
    if n < |merged| {
      assert text[from..merged[n].start] + MASK + Spliced(text, merged, n + 1, merged[n].end) ==
             text[from..merged[n].start] + (MASK + Spliced(text, merged, n + 1, merged[n].end));
    }
  }

  /** Replace merged ranges from the last to the first, so earlier positions never move. */
  method SpliceRanges(text: string, merged: seq<Range>) returns (masked: string)
    requires AllValid(merged, |text|) && Separated(merged)
    ensures masked == Spliced(text, merged, 0, 0)
  {
    masked := text;
    var n := |merged|;
    assert masked == text[..Untouched(text, merged, n)] + Tail(text, merged, n);
    while n > 0
      invariant 0 <= n <= |merged|
      invariant masked == text[..Untouched(text, merged, n)] + Tail(text, merged, n)
    {
      var r := merged[n - 1];
      ghost var from, tail := Untouched(text, merged, n), Tail(text, merged, n);
      assert r.end <= from by { if n < |merged| { assert merged[n - 1].end < merged[n].start; } }
      TailReads(text, merged, n, r.end);
      CutOut(text, from, tail, r);
      masked := masked[..r.start] + MASK + masked[r.end..];
      n := n - 1;
      assert text[..r.start] + MASK + Spliced(text, merged, n + 1, r.end) ==
             text[..r.start] + (MASK + Spliced(text, merged, n + 1, r.end));
    }
    TailReads(text, merged, 0, 0);
    assert text[..Untouched(text, merged, 0)] == text[0..Untouched(text, merged, 0)];
  }

  lemma CutOut(text: string, from: nat, tail: string, r: Range)
    requires r.start <= r.end <= from <= |text|
    ensures var masked := text[..from] + tail;
            masked[..r.start] == text[..r.start] && masked[r.end..] == text[r.end..from] + tail
  {
  }

  /** Some approved range covers the character. */
  ghost predicate Approved(ranges: set<Range>, i: nat) { exists r :: r in ranges && Within(r, i) }

  /** Some approved range reaches the position. */
  ghost predicate ApprovedAt(ranges: set<Range>, p: nat) { exists r :: r in ranges && Touches(r, p) }

  lemma SortedCovers(ranges: set<Range>, sorted: seq<Range>)
    requires forall r :: r in sorted <==> r in ranges
    ensures forall i: nat :: Covered(sorted, i) <==> Approved(ranges, i)
    ensures forall p: nat :: TouchedAt(sorted, p) <==> ApprovedAt(ranges, p)
  {
    forall r | r in ranges ensures exists x :: 0 <= x < |sorted| && sorted[x] == r { assert r in sorted; }
    forall x | 0 <= x < |sorted| ensures sorted[x] in ranges { assert sorted[x] in sorted; }
  }

  // ---------- what masking means, character by character ----------

  /** Reading on from position `i`: a mask where a covered stretch begins, and every uncovered character. */
  function MaskFrom(text: string, covered: nat -> bool, touched: nat -> bool, i: nat): string
    requires i <= |text|
    decreases |text| - i, 1
  {
    (if touched(i) && !(i > 0 && covered(i - 1)) then "reviewed-syntax" else "") + MaskRest(text, covered, touched, i)
  }

  function MaskRest(text: string, covered: nat -> bool, touched: nat -> bool, i: nat): string
    requires i <= |text|
    decreases |text| - i, 0
  {
    if i == |text| then ""
    else (if covered(i) then "" else [text[i]]) + MaskFrom(text, covered, touched, i + 1)
  }

  /** The masked text: exactly the approved characters are gone, one mask for each approved stretch. */
  ghost function Masked(text: string, ranges: set<Range>): string {
    MaskFrom(text, (i: nat) => Approved(ranges, i), (p: nat) => ApprovedAt(ranges, p), 0)
  }

  lemma {:induction false} MaskSame(text: string, c: nat -> bool, t: nat -> bool, d: nat -> bool, u: nat -> bool, i: nat)
    requires i <= |text| && (forall j: nat :: c(j) == d(j)) && forall j: nat :: t(j) == u(j)
    ensures MaskFrom(text, c, t, i) == MaskFrom(text, d, u, i)
    ensures MaskRest(text, c, t, i) == MaskRest(text, d, u, i)
    decreases |text| - i
  {
    if i < |text| { MaskSame(text, c, t, d, u, i + 1); }
  }

  lemma OneKept(text: string, c: nat -> bool, t: nat -> bool, i: nat)
    requires i < |text| && !c(i)
    ensures MaskRest(text, c, t, i) == [text[i]] + MaskFrom(text, c, t, i + 1)
    ensures !t(i + 1) ==> MaskFrom(text, c, t, i + 1) == MaskRest(text, c, t, i + 1)
  {
  }

  lemma Slice(text: string, from: nat, upto: nat, rest: string)
    requires from < upto <= |text|
    ensures text[from..upto] + rest == [text[from]] + (text[from + 1..upto] + rest)
  {
  }

  /** A stretch without ranges is kept. */
  lemma {:induction false} KeptRun(text: string, c: nat -> bool, t: nat -> bool, from: nat, upto: nat)
    requires from < upto <= |text| && (forall i: nat :: from <= i < upto ==> !c(i)) && forall p: nat :: from < p < upto ==> !t(p)
    ensures MaskRest(text, c, t, from) == text[from..upto] + MaskFrom(text, c, t, upto)
    decreases |text| - from
  {
    hide MaskRest;
    hide MaskFrom;
    OneKept(text, c, t, from);
    Slice(text, from, upto, MaskFrom(text, c, t, upto));
    if from + 1 < upto { KeptRun(text, c, t, from + 1, upto); }
  }

  /** A covered stretch vanishes. */
  lemma {:induction false} CoveredRun(text: string, c: nat -> bool, t: nat -> bool, from: nat, upto: nat)
    requires from <= upto <= |text| && forall i: nat :: from <= i < upto ==> c(i)
    ensures MaskRest(text, c, t, from) == MaskRest(text, c, t, upto)
    decreases |text| - from
  {
    if from < upto { CoveredRun(text, c, t, from + 1, upto); }
  }

  /** Nothing reaches between neighbouring merged ranges. */
  lemma GapUntouched(merged: seq<Range>, k: nat, p: nat)
    requires Separated(merged) && k <= |merged| && (forall x :: 0 <= x < |merged| ==> merged[x].start <= merged[x].end)
    requires (k > 0 ==> merged[k - 1].end < p) && (k < |merged| ==> p < merged[k].start)
    ensures !TouchedAt(merged, p) && !Covered(merged, p)
  {
    forall x | 0 <= x < |merged| ensures !Touches(merged[x], p) {
      if x < k - 1 { assert merged[x].end < merged[k - 1].start; }
      if x > k { assert merged[k].end < merged[x].start; }
    }
  }

  /** A range's end is not covered: the next range starts later. */
  lemma EndUncovered(merged: seq<Range>, k: nat)
    requires Separated(merged) && 0 < k <= |merged| && (forall x :: 0 <= x < |merged| ==> merged[x].start <= merged[x].end)
    ensures !Covered(merged, merged[k - 1].end)
  {
    forall x | 0 <= x < |merged| ensures !Within(merged[x], merged[k - 1].end) {
      if x < k - 1 { assert merged[x].end < merged[k - 1].start; }
      if x > k - 1 { assert merged[k - 1].end < merged[x].start; }
    }
  }

  ghost function CoverOf(merged: seq<Range>): nat -> bool { (i: nat) => Covered(merged, i) }

  ghost function TouchOf(merged: seq<Range>): nat -> bool { (p: nat) => TouchedAt(merged, p) }

  /** No range ends just before another begins: the character before a range is kept. */
  lemma BeforeRange(text: string, merged: seq<Range>, k: nat)
    requires AllValid(merged, |text|) && Separated(merged) && k < |merged| && merged[k].start > 0
    ensures !Covered(merged, merged[k].start - 1)
  {
    forall x | 0 <= x < |merged| ensures merged[x].start <= merged[x].end { assert ValidRange(merged[x], |text|); }
    hide Covered;
    if k > 0 { assert merged[k - 1].end < merged[k].start; }
    if k > 0 && merged[k - 1].end == merged[k].start - 1 {
      EndUncovered(merged, k);
    } else {
      GapUntouched(merged, k, merged[k].start - 1);
    }
  }

  lemma RangeGone(text: string, merged: seq<Range>, k: nat)
    requires AllValid(merged, |text|) && k < |merged|
    ensures TouchedAt(merged, merged[k].start)
    ensures var c, t := CoverOf(merged), TouchOf(merged);
            MaskRest(text, c, t, merged[k].start) == MaskRest(text, c, t, merged[k].end)
  {
    var c, t, r := CoverOf(merged), TouchOf(merged), merged[k];
    assert ValidRange(r, |text|);
    assert Touches(r, r.start);
    forall i: nat | r.start <= i < r.end ensures c(i) { assert Within(r, i); }
    CoveredRun(text, c, t, r.start, r.end);
  }

  /** A mask opens a range, whose characters vanish. */
  lemma RangeMasked(text: string, merged: seq<Range>, k: nat)
    requires AllValid(merged, |text|) && Separated(merged) && k < |merged|
    ensures var c, t := CoverOf(merged), TouchOf(merged);
            MaskFrom(text, c, t, merged[k].start) == MASK + MaskRest(text, c, t, merged[k].end)
  {
    hide Covered;
    hide TouchedAt;
    hide Separated;
    hide MaskRest;
    if merged[k].start > 0 { BeforeRange(text, merged, k); }
    RangeGone(text, merged, k);
  }

  lemma SplicedNext(text: string, merged: seq<Range>, k: nat, from: nat)
    requires AllValid(merged, |text|) && Separated(merged) && k < |merged| && from <= |text| && from <= merged[k].start
    ensures merged[k].start <= merged[k].end <= |text| && (k + 1 < |merged| ==> merged[k].end < merged[k + 1].start)
    ensures Spliced(text, merged, k, from) ==
            text[from..merged[k].start] + MASK + Spliced(text, merged, k + 1, merged[k].end)
  {
    assert ValidRange(merged[k], |text|);
  }

  /** Splicing from range `k` on is reading on after the range before it. */
  lemma {:induction false} SpliceMeaning(text: string, merged: seq<Range>, k: nat, from: nat)
    requires AllValid(merged, |text|) && Separated(merged) && k <= |merged| && from <= |text|
    requires from == (if k > 0 then merged[k - 1].end else 0) && (k < |merged| ==> from < merged[k].start)
    requires k == 0 ==> !Covered(merged, 0)
    ensures Spliced(text, merged, k, from) == MaskRest(text, CoverOf(merged), TouchOf(merged), from)
    decreases |merged| - k
  {
    hide Covered;
    hide TouchedAt;
    hide MaskRest;
    hide MaskFrom;
    hide CoverOf;
    hide TouchOf;
    hide AllValid;
    hide Separated;
    if k < |merged| {
      hide Spliced;
      SplicedNext(text, merged, k, from);
      GapKept(text, merged, k, from, merged[k].start);
      RangeMasked(text, merged, k);
      SpliceMeaning(text, merged, k + 1, merged[k].end);
      Regroup(text[from..merged[k].start], MASK, MaskRest(text, CoverOf(merged), TouchOf(merged), merged[k].end));
    } else {
      GapKept(text, merged, k, from, |text|);
    }
  }

  lemma Regroup(a: string, b: string, c: string)
    ensures a + (b + c) == a + b + c
  {
  }

  lemma GapKept(text: string, merged: seq<Range>, k: nat, from: nat, upto: nat)
    requires AllValid(merged, |text|) && Separated(merged) && k <= |merged| && from <= |text|
    requires from == (if k > 0 then merged[k - 1].end else 0) && (k < |merged| ==> from < merged[k].start)
    requires k == 0 ==> !Covered(merged, 0)
    requires upto == if k < |merged| then merged[k].start else |text|
    ensures MaskRest(text, CoverOf(merged), TouchOf(merged), from) ==
            text[from..upto] + (if k < |merged| then MaskFrom(text, CoverOf(merged), TouchOf(merged), upto) else "")
  {
    var c, t := CoverOf(merged), TouchOf(merged);
    forall x | 0 <= x < |merged| ensures merged[x].start <= merged[x].end { assert ValidRange(merged[x], |text|); }
    if from < upto {
      forall p: nat | from < p < upto ensures !t(p) && !c(p) { GapUntouched(merged, k, p); }
      assert !c(from) by { if k > 0 { EndUncovered(merged, k); } }
      KeptRun(text, c, t, from, upto);
      if k == |merged| { GapUntouched(merged, k, upto); }
    }
  }

  /** Splicing merged ranges is masking what they cover. */
  lemma SplicedIsMasked(text: string, merged: seq<Range>)
    requires AllValid(merged, |text|) && Separated(merged)
    ensures Spliced(text, merged, 0, 0) == MaskFrom(text, CoverOf(merged), TouchOf(merged), 0)
  {
    hide MaskRest;
    if merged != [] && merged[0].start == 0 {
      hide *;
      SplicedNext(text, merged, 0, 0);
      RangeMasked(text, merged, 0);
      SpliceMeaning(text, merged, 1, merged[0].end);
      assert text[0..0] == "";
      Regroup("", MASK, MaskRest(text, CoverOf(merged), TouchOf(merged), merged[0].end));
    } else {
      forall x | 0 <= x < |merged| ensures merged[x].start <= merged[x].end { assert ValidRange(merged[x], |text|); }
      GapUntouched(merged, 0, 0);
      hide Covered;
      hide TouchedAt;
      SpliceMeaning(text, merged, 0, 0);
    }
  }

  /** Mask only approved original ranges: sort, merge, then splice. */
  method MaskRanges(text: string, ranges: set<Range>) returns (masked: string)
    requires forall r :: r in ranges ==> ValidRange(r, |text|)
    ensures masked == Masked(text, ranges)
  {
    hide Covered;
    hide TouchedAt;
    hide Approved;
    hide ApprovedAt;
    hide Separated;
    hide MaskFrom;
    RangeStrictTotal();
    var sorted := Enumerate(ranges, RangeLess);
    assert forall x :: 0 <= x < |sorted| ==> sorted[x] in sorted;
    SortedCovers(ranges, sorted);
    var merged := MergeRanges(sorted, |text|);
    masked := SpliceRanges(text, merged);
    SplicedIsMasked(text, merged);
    MaskSame(text, CoverOf(merged), TouchOf(merged),
             (i: nat) => Approved(ranges, i), (p: nat) => ApprovedAt(ranges, p), 0);
  }

  lemma RangeStrictTotal()
    ensures StrictTotal(RangeLess)
  {
    forall a: Range, b: Range ensures a == b || RangeLess(a, b) || RangeLess(b, a) {
      assert a == Range(a.start, a.end) && b == Range(b.start, b.end);
    }
  }
}
