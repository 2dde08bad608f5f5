/** Which slots a path offers to the two grouping rules, on its characters alone. */
module SlotLaws {
  import opened Ordered
  import opened View
  import opened GroupLaws

  /** A whole piece between separators, alphanumeric and of at least four characters. */
  predicate Piece(path: string, before: string, piece: string, after: string, alnum: char -> bool) {
    && path == before + piece + after && |piece| >= 4
    && (forall c :: c in piece ==> alnum(c) && c !in "/._-")
    && (before != "" ==> before[|before| - 1] in "/._-") && (after != "" ==> after[0] in "/._-")
  }

  lemma PiecesSeparate(c: char)
    ensures c in "/._-" <==> Separator(c)
  {
  }

  ghost predicate Offers(path: string, pattern: string, alnum: char -> bool) {
    exists before, piece, after :: Piece(path, before, piece, after, alnum) && pattern == before + "{slot}" + after
  }

  /** The piece lies in a directory, and the pattern is that directory's. */
  ghost predicate OffersDirectory(path: string, pattern: string, alnum: char -> bool) {
    exists before, piece, middle, rest ::
      Piece(path, before, piece, middle + "/" + rest, alnum) && '/' !in middle && pattern == before + "{slot}" + middle
  }

  // ---------- pieces are tokens ----------

  /** A token of its kind: plain text, or one separator. */
  predicate Fitting(t: string, text: bool) { if text then Plain(t) else |t| == 1 && Separator(t[0]) }

  /** Tokens alternate, beginning with a text or with a separator. */
  predicate Alternates(ts: seq<string>, text: bool) {
    forall i :: 0 <= i < |ts| ==> Fitting(ts[i], (i % 2 == 0) == text)
  }

  lemma AlternatesMeans(ts: seq<string>)
    ensures Alternating(ts) <==> |ts| % 2 == 1 && Alternates(ts, true)
  {
  }

  lemma AlternatesJoined(a: seq<string>, b: seq<string>, text: bool)
    requires Alternates(a, text) && Alternates(b, (|a| % 2 == 0) == text)
    ensures Alternates(a + b, text)
  {
    hide Fitting;
    forall i | 0 <= i < |a + b| ensures Fitting((a + b)[i], (i % 2 == 0) == text) {
      if i >= |a| {
        assert (a + b)[i] == b[i - |a|];
        Parity(i, |a|, text);
      } else {
        assert (a + b)[i] == a[i];
      }
    }
  }

  lemma Parity(i: nat, n: nat, text: bool)
    requires i >= n
    ensures (((i - n) % 2 == 0) == ((n % 2 == 0) == text)) == ((i % 2 == 0) == text)
  {
  }

  lemma AlternatesOne(t: string, text: bool)
    requires Fitting(t, text)
    ensures Alternates([t], text) && Joined([t]) == t
  {
    JoinedCons(t, []);
  }

  /** The tokens of a path split at a separator boundary. */
  lemma Ends(before: string) returns (a: seq<string>)
    requires before != "" ==> Separator(before[|before| - 1])
    ensures |a| % 2 == 0 && Joined(a) == before && Alternates(a, true)
  {
    hide Joined;
    hide Tokens;
    hide Alternates;
    hide Separator;
    a := [];
    JoinedNothing();
    NoneAlternates(true);
    if before != "" {
      var front, last := before[..|before| - 1], [before[|before| - 1]];
      PathTokens(front);
      SeparatorToken(before[|before| - 1]);
      AlternatesOne(last, false);
      AlternatesJoined(Tokens(front), [last], true);
      JoinedAppend(Tokens(front), [last]);
      a := Tokens(front) + [last];
    }
  }

  lemma Starts(after: string) returns (b: seq<string>)
    requires after != "" ==> Separator(after[0])
    ensures |b| % 2 == 0 && Joined(b) == after && Alternates(b, false)
  {
    hide Joined;
    hide Tokens;
    hide Alternates;
    hide Separator;
    b := [];
    JoinedNothing();
    NoneAlternates(false);
    if after != "" {
      b := Opened(after[0], after[1..]);
      assert [after[0]] + after[1..] == after;
    }
  }

  lemma NoneAlternates(text: bool)
    ensures Alternates([], text)
  {
  }

  lemma Opened(c: char, path: string) returns (b: seq<string>)
    requires Separator(c)
    ensures |b| % 2 == 0 && Joined(b) == [c] + path && Alternates(b, false)
  {
    hide *;
    var first, rest := [c], Tokens(path);
    SeparatorToken(c);
    PathTokens(path);
    AlternatesOne(first, false);
    b := [first] + rest;
    AlternatesJoined([first], rest, false);
    JoinedAppend([first], rest);
  }

  lemma SeparatorToken(c: char)
    requires Separator(c)
    ensures Fitting([c], false)
  {
  }

  lemma PathTokens(path: string)
    ensures |Tokens(path)| % 2 == 1 && Alternates(Tokens(path), true) && Joined(Tokens(path)) == path
  {
    JoinSplit(path);
    TokensAlternate(path);
    AlternatesMeans(Tokens(path));
  }

  lemma PieceIsToken(path: string, before: string, piece: string, after: string, alnum: char -> bool) returns (i: nat)
    requires Piece(path, before, piece, after, alnum)
    ensures i < |Tokens(path)| && Tokens(path)[i] == piece && Matchable(piece, alnum)
    ensures Joined(Tokens(path)[..i]) == before && Joined(Tokens(path)[i + 1..]) == after
  {
    hide Joined;
    hide Tokens;
    hide Alternates;
    hide Alternating;
    var a := Ends(before);
    var b := Starts(after);
    var ts := a + [piece] + b;
    i := |a|;
    assert ts[..i] == a && ts[i + 1..] == b && ts[i] == piece;
    JoinedAround(ts, i);
    assert Plain(piece) by {
      forall x | 0 <= x < |piece| ensures !Separator(piece[x]) { PiecesSeparate(piece[x]); }
    }
    AlternatesOne(piece, true);
    AlternatesJoined(a, [piece], true);
    AlternatesJoined(a + [piece], b, true);
    AlternatesMeans(ts);
    SplitJoin(ts);
  }

  lemma TokenIsPiece(path: string, i: nat, alnum: char -> bool)
    requires i < |Tokens(path)| && Matchable(Tokens(path)[i], alnum)
    ensures var ts := Tokens(path); Piece(path, Joined(ts[..i]), ts[i], Joined(ts[i + 1..]), alnum)
  {
    var ts := Tokens(path);
    JoinSplit(path);
    TokensAlternate(path);
    JoinedAround(ts, i);
    assert Plain(ts[i]) by { MatchableIsText(ts, i, alnum); }
    Boundaries(ts, i, alnum);
    hide Tokens;
    hide Joined;
  }

  lemma Boundaries(ts: seq<string>, i: nat, alnum: char -> bool)
    requires Alternating(ts) && i < |ts| && Matchable(ts[i], alnum)
    ensures var before, after := Joined(ts[..i]), Joined(ts[i + 1..]);
            (before != "" ==> Separator(before[|before| - 1])) && (after != "" ==> Separator(after[0]))
  {
    MatchableIsText(ts, i, alnum);
    if i > 0 { EndsSo(ts, i); }
    if i + 1 < |ts| { StartsSo(ts, i + 1); }
  }

  lemma EndsSo(ts: seq<string>, i: nat)
    requires 0 < i <= |ts| && |ts[i - 1]| == 1
    ensures var before := Joined(ts[..i]); before != "" && before[|before| - 1] == ts[i - 1][0]
  {
    assert ts[..i] == ts[..i - 1] + [ts[i - 1]];
    JoinedAppend(ts[..i - 1], [ts[i - 1]]);
    JoinedCons(ts[i - 1], []);
  }

  lemma StartsSo(ts: seq<string>, i: nat)
    requires i < |ts| && |ts[i]| == 1
    ensures var after := Joined(ts[i..]); after != "" && after[0] == ts[i][0]
  {
    assert ts[i..] == [ts[i]] + ts[i + 1..];
    JoinedCons(ts[i], ts[i + 1..]);
  }

  lemma SlottedAround(ts: seq<string>, i: nat)
    requires i < |ts|
    ensures Slotted(ts, i) == Joined(ts[..i]) + "{slot}" + Joined(ts[i + 1..])
  {
    JoinedAround(ts[i := SLOT], i);
    assert ts[i := SLOT][..i] == ts[..i] && ts[i := SLOT][i + 1..] == ts[i + 1..];
  }

  // ---------- the two rules ----------

  /** A row enters exactly the buckets of the patterns its path offers, under its own operation. */
  lemma RecurringOffers(row: Row, alnum: char -> bool, key: Key)
    ensures (exists i: nat :: RecurringKey(row, i, alnum) == Some(key)) <==>
              Offers(row.path, key.pattern, alnum) && key.operation == row.operation
  {
    var ts := Tokens(row.path);
    hide Joined;
    hide Tokens;
    hide Slotted;
    hide Matchable;
    hide Piece;
    if i: nat :| RecurringKey(row, i, alnum) == Some(key) {
      TokenIsPiece(row.path, i, alnum);
      SlottedAround(ts, i);
      assert Offers(row.path, key.pattern, alnum);
    }
    if Offers(row.path, key.pattern, alnum) && key.operation == row.operation {
      var before, piece, after :|
        Piece(row.path, before, piece, after, alnum) && key.pattern == before + "{slot}" + after;
      var i := PieceIsToken(row.path, before, piece, after, alnum);
      SlottedAround(ts, i);
      assert RecurringKey(row, i, alnum) == Some(key);
    }
  }

  lemma FirstSlash(a: string, b: string, c: string, d: string)
    requires a + "/" + b == c + "/" + d && '/' !in a && '/' !in c
    ensures a == c && b == d
  {
    SlashAt(a, b);
    SlashAt(c, d);
    var x, y := a + "/" + b, c + "/" + d;
    assert x[..|a|] == a && y[..|c|] == c && x[|a| + 1..] == b && y[|c| + 1..] == d;
  }

  lemma SlashAt(a: string, b: string)
    requires '/' !in a
    ensures var x := a + "/" + b; |a| < |x| && x[|a|] == '/' && forall i :: 0 <= i < |a| ==> x[i] != '/'
  {
  }

  /** What follows a piece, up to its first slash. */
  lemma AfterPiece(ts: seq<string>, i: nat)
    requires Alternating(ts) && i < |ts|
    ensures var end := NextSlash(ts, i); var middle := Joined(ts[i + 1..end]);
            && '/' !in middle
            && Joined(ts[i + 1..]) == (if end < |ts| then middle + "/" + Joined(ts[end + 1..]) else middle)
  {
    var end := NextSlash(ts, i);
    NoSlashBetween(ts, i);
    if end < |ts| {
      var tail := ts[i + 1..];
      var n := end - i - 1;
      assert tail[n] == "/" && tail[..n] == ts[i + 1..end] && tail[n + 1..] == ts[end + 1..];
      JoinedAround(tail, n);
    } else {
      assert ts[i + 1..end] == ts[i + 1..];
    }
  }

  lemma DirectorySlotted(ts: seq<string>, i: nat, end: nat)
    requires i < end <= |ts|
    ensures Slotted(ts[..end], i) == Joined(ts[..i]) + "{slot}" + Joined(ts[i + 1..end])
  {
    SlottedAround(ts[..end], i);
    assert ts[..end][..i] == ts[..i] && ts[..end][i + 1..] == ts[i + 1..end];
  }

  /** A row enters exactly the directory buckets its path offers. */
  lemma NamespaceOffers(row: Row, alnum: char -> bool, key: Key)
    ensures (exists i: nat :: NamespaceKey(row, i, alnum) == Some(key)) <==>
              OffersDirectory(row.path, key.pattern, alnum) && key.operation == ""
  {
    var ts := Tokens(row.path);
    TokensAlternate(row.path);
    hide Joined;
    hide Tokens;
    hide Slotted;
    hide Matchable;
    hide Alternating;
    hide Piece;
    hide NextSlash;
    if i: nat :| NamespaceKey(row, i, alnum) == Some(key) {
      var end := NextSlash(ts, i);
      var middle, rest := Joined(ts[i + 1..end]), Joined(ts[end + 1..]);
      TokenIsPiece(row.path, i, alnum);
      AfterPiece(ts, i);
      DirectorySlotted(ts, i, end);
      assert Piece(row.path, Joined(ts[..i]), ts[i], middle + "/" + rest, alnum);
    }
    if OffersDirectory(row.path, key.pattern, alnum) && key.operation == "" {
      var before, piece, middle, rest :|
        Piece(row.path, before, piece, middle + "/" + rest, alnum) && '/' !in middle &&
        key.pattern == before + "{slot}" + middle;
      var i := PieceIsToken(row.path, before, piece, middle + "/" + rest, alnum);
      DirectoryFound(ts, i, middle, rest);
      DirectorySlotted(ts, i, NextSlash(ts, i));
      assert NamespaceKey(row, i, alnum) == Some(key);
    }
  }

  lemma DirectoryFound(ts: seq<string>, i: nat, middle: string, rest: string)
    requires Alternating(ts) && i < |ts| && Joined(ts[i + 1..]) == middle + "/" + rest && '/' !in middle
    ensures NextSlash(ts, i) < |ts| && Joined(ts[i + 1..NextSlash(ts, i)]) == middle
  {
    var end := NextSlash(ts, i);
    AfterPiece(ts, i);
    SlashInside(middle, rest);
    hide Joined;
    hide NextSlash;
    if end < |ts| {
      FirstSlash(Joined(ts[i + 1..end]), Joined(ts[end + 1..]), middle, rest);
    }
  }

  lemma SlashInside(middle: string, rest: string)
    ensures '/' in middle + "/" + rest
  {
    assert (middle + "/" + rest)[|middle|] == '/';
  }
}
