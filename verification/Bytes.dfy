/** Bytes, the fixed-width integers of the log format and their big-endian form. */
module Bytes {

  type Byte = b: int | 0 <= b < 256
  type Uint32 = x: int | 0 <= x < 0x1_0000_0000
  type Int64 = x: int | -0x8000_0000_0000_0000 <= x < 0x8000_0000_0000_0000
  type Uint64 = x: int | 0 <= x < 0x1_0000_0000_0000_0000

  /** The two's complement conversions between int64 and uint64. */
  function ToUint64(x: Int64): (u: Uint64)
    ensures ToInt64(u) == x && (x >= 0 ==> u == x)
  {
    if x < 0 then x + 0x1_0000_0000_0000_0000 else x
  }

  function ToInt64(u: Uint64): (x: Int64) {
    if u < 0x8000_0000_0000_0000 then u else u - 0x1_0000_0000_0000_0000
  }

  function Pow256(k: nat): (p: nat)
    ensures p > 0
  {
    if k == 0 then 1 else 256 * Pow256(k - 1)
  }

  function BigEndian(v: nat, width: nat): (s: seq<Byte>)
    ensures |s| == width
  {
    if width == 0 then [] else BigEndian(v / 256, width - 1) + [v % 256]
  }

  function FromBigEndian(s: seq<Byte>): (v: nat)
    ensures v < Pow256(|s|)
  {
    if s == [] then 0 else 256 * FromBigEndian(s[..|s| - 1]) + s[|s| - 1]
  }

  /** The first byte is the most significant one. */
  lemma {:induction false} MostSignificantFirst(s: seq<Byte>)
    requires s != []
    ensures FromBigEndian(s) == s[0] * Pow256(|s| - 1) + FromBigEndian(s[1..])
  {
    var n := |s| - 1;
    if n > 0 {
      MostSignificantFirst(s[..n]);
      assert s[..n][1..] == s[1..][..n - 1];
      OneMorePlace(s[0], Pow256(n - 1));
    }
  }

  lemma OneMorePlace(digit: int, place: int)
    ensures 256 * (digit * place) == digit * (256 * place)
  {
  }

  /** Decoding undoes encoding for every value that fits the width. */
  lemma {:induction false} BigEndianRoundTrip(v: nat, width: nat)
    requires v < Pow256(width)
    ensures FromBigEndian(BigEndian(v, width)) == v
  {
    if width > 0 {
      BigEndianRoundTrip(v / 256, width - 1);
      assert BigEndian(v, width)[..width - 1] == BigEndian(v / 256, width - 1);
    }
  }

  /** Encoding undoes decoding for every byte string: the form is canonical. */
  lemma {:induction false} BigEndianCanonical(s: seq<Byte>)
    ensures BigEndian(FromBigEndian(s), |s|) == s
  {
    if s != [] {
      var front := s[..|s| - 1];
      BigEndianCanonical(front);
      assert FromBigEndian(s) / 256 == FromBigEndian(front);
      assert s == front + [s[|s| - 1]];
    }
  }

  /** The widths the log header uses. */
  lemma Widths()
    ensures Pow256(2) == 0x1_0000 && Pow256(4) == 0x1_0000_0000
    ensures Pow256(8) == 0x1_0000_0000_0000_0000
  {
    assert Pow256(1) == 256;
    assert Pow256(3) == 0x100_0000;
    assert Pow256(5) == 0x100_0000_0000;
    assert Pow256(6) == 0x1_0000_0000_0000;
    assert Pow256(7) == 0x100_0000_0000_0000;
  }

  /** `prefix` followed by `suffix`, cut where they meet. */
  lemma CutConcat<T>(prefix: seq<T>, suffix: seq<T>)
    ensures (prefix + suffix)[..|prefix|] == prefix
    ensures (prefix + suffix)[|prefix|..] == suffix
  {
  }

  lemma TakeConcat<T>(prefix: seq<T>, suffix: seq<T>, k: nat)
    requires |prefix| <= k <= |prefix + suffix|
    ensures (prefix + suffix)[..k] == prefix + suffix[..k - |prefix|]
  {
  }

  lemma ConcatAssociates<T>(a: seq<T>, b: seq<T>, c: seq<T>)
    ensures (a + b) + c == a + (b + c)
  {
  }
}
