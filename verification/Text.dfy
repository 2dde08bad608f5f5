/** The few string and number readings the saved formats depend on. */
module Text {
  import opened Ordered

  function StripPrefix(s: string, prefix: string): Option<string> {
    if prefix <= s then Some(s[|prefix|..]) else None
  }

  function StripSuffix(s: string, suffix: string): Option<string> {
    if |suffix| <= |s| && s[|s| - |suffix|..] == suffix then Some(s[..|s| - |suffix|]) else None
  }

  predicate IsDigit(c: char) { '0' <= c <= '9' }

  predicate IsLetter(c: char) { 'a' <= c <= 'z' || 'A' <= c <= 'Z' }

  predicate IsHexDigit(c: char) { IsDigit(c) || 'a' <= c <= 'f' || 'A' <= c <= 'F' }

  predicate IsControl(c: char) { c < ' ' || '\U{7f}' <= c <= '\U{9f}' }

  /** Unicode White_Space. */
  predicate IsWhitespace(c: char) {
    || '\U{9}' <= c <= '\U{d}' || c == ' ' || c == '\U{85}' || c == '\U{a0}' || c == '\U{1680}'
    || '\U{2000}' <= c <= '\U{200a}' || c == '\U{2028}' || c == '\U{2029}' || c == '\U{202f}'
    || c == '\U{205f}' || c == '\U{3000}'
  }

  predicate AllDigits(s: string) {
    forall i :: 0 <= i < |s| ==> IsDigit(s[i])
  }

  function HexValue(c: char): nat
    requires IsHexDigit(c)
  {
    if IsDigit(c) then (c - '0') as int
    else if 'a' <= c <= 'f' then 10 + (c - 'a') as int
    else 10 + (c - 'A') as int
  }

  function NumberIn(s: string, radix: nat): nat
    requires forall i :: 0 <= i < |s| ==> IsHexDigit(s[i])
  {
    if s == "" then 0 else NumberIn(s[..|s| - 1], radix) * radix + HexValue(s[|s| - 1])
  }

  /** Unsigned decimal parsing below a bound: one leading plus sign is accepted. */
  function ParseUnsigned(s: string, bound: nat): (r: Option<nat>)
    ensures r.Some? ==> r.value < bound
  {
    var body := if s != "" && s[0] == '+' then s[1..] else s;
    if body != "" && AllDigits(body) && NumberIn(body, 10) < bound then Some(NumberIn(body, 10)) else None
  }

  /** Signed decimal parsing between -half and half - 1: one leading sign, overflow is an error. */
  function ParseSigned(s: string, half: nat): (r: Option<int>)
    requires half > 0
    ensures r.Some? ==> 0 - half as int <= r.value < half
  {
    if s != "" && s[0] == '-' then
      var body := s[1..];
      if body != "" && AllDigits(body) && NumberIn(body, 10) <= half
      then Some(0 - NumberIn(body, 10) as int) else None
    else
      match ParseUnsigned(s, half) case Some(v) => Some(v) case None => None
  }

  function ParseI32(s: string): (r: Option<int>)
    ensures r.Some? ==> -0x8000_0000 <= r.value < 0x8000_0000
  {
    ParseSigned(s, 0x8000_0000)
  }

  function ParseI64(s: string): (r: Option<int>)
    ensures r.Some? ==> -0x8000_0000_0000_0000 <= r.value < 0x8000_0000_0000_0000
  {
    ParseSigned(s, 0x8000_0000_0000_0000)
  }

  /** A positive 32-bit task ID in plain digits. */
  predicate IsTaskId(s: string) {
    s != "" && AllDigits(s) && 0 < NumberIn(s, 10) < 0x1_0000_0000
  }

  /** Position of the first character satisfying `p`, or the length. */
  function FirstWhere(s: string, p: char -> bool): (n: nat)
    ensures n <= |s|
    ensures forall i :: 0 <= i < n ==> !p(s[i])
    ensures n < |s| ==> p(s[n])
  {
    if s == "" || p(s[0]) then 0 else 1 + FirstWhere(s[1..], p)
  }

  /** First whitespace-delimited token, absent when only whitespace remains. */
  function FirstToken(s: string): Option<string> {
    var start := FirstWhere(s, c => !IsWhitespace(c));
    if start == |s| then None
    else
      var tail := s[start..];
      Some(tail[..FirstWhere(tail, IsWhitespace)])
  }

  /** Generated record IDs: a 128-bit hexadecimal time, a hyphen, a positive process ID. */
  predicate ValidRecordId(id: string) {
    var at := FirstWhere(id, c => c == '-');
    at < |id| &&
    var time := id[..at];
    time != "" && (forall i :: 0 <= i < |time| ==> IsHexDigit(time[i])) &&
    NumberIn(time, 16) < 0x1_0000_0000_0000_0000_0000_0000_0000_0000 &&
    IsTaskId(id[at + 1..])
  }
}
