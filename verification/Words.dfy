/** Bytes and little-endian words of any width. */
module Words {
  type byte = b: int | 0 <= b < 256

  function Pow256(k: nat): nat { if k == 0 then 1 else 256 * Pow256(k - 1) }

  function Encode(n: nat, k: nat): (s: seq<byte>)
    ensures |s| == k
  {
    if k == 0 then [] else [n % 256] + Encode(n / 256, k - 1)
  }

  function Decode(s: seq<byte>): nat { if s == [] then 0 else s[0] + 256 * Decode(s[1..]) }

  lemma {:induction false} WordRoundTrip(n: nat, k: nat)
    requires n < Pow256(k)
    ensures Decode(Encode(n, k)) == n
  {
    if k > 0 {
      WordRoundTrip(n / 256, k - 1);
      assert Encode(n, k)[1..] == Encode(n / 256, k - 1);
    }
  }

  lemma {:induction false} WordCanonical(s: seq<byte>)
    ensures Decode(s) < Pow256(|s|) && Encode(Decode(s), |s|) == s
  {
    if s != [] {
      WordCanonical(s[1..]);
      var n := Decode(s);
      assert n % 256 == s[0] && n / 256 == Decode(s[1..]);
    }
  }

  /** A byte is its own value, and a word's earlier bytes are its lower ones. */
  lemma {:induction false} LowBytesFirst(s: seq<byte>, i: nat)
    requires i <= |s|
    ensures |s| == 1 ==> Decode(s) == s[0]
    ensures Decode(s) == Decode(s[..i]) + Pow256(i) * Decode(s[i..])
  {
    if |s| == 1 { assert Decode(s[1..]) == 0; }
    if i == 0 {
      assert s[0..] == s;
    } else {
      LowBytesFirst(s[1..], i - 1);
      assert s[..i][1..] == s[1..][..i - 1] && s[1..][i - 1..] == s[i..];
      Scaled(Pow256(i - 1), Decode(s[i..]));
    }
  }

  lemma Scaled(a: nat, b: nat)
    ensures 256 * (a * b) == 256 * a * b
  {
  }
}
