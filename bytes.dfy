// Byte-order helpers of the FLV parser (flv_parser::to_uint16_be, to_uint24_be,
// to_uint32_be) and the little-endian layout the players rely on when they
// dump the fields of an audio configuration as hex.

module Bytes {

  /** One octet of an FLV file or of a sample payload. */
  type Byte = b: int | 0 <= b < 256

  function Pow256(n: nat): (r: nat)
    ensures r > 0
  {
    if n == 0 then 1 else 256 * Pow256(n - 1)
  }

  /** The number `s` denotes when read most significant byte first. */
  function BigEndian(s: seq<Byte>): nat
  {
    if |s| == 0 then 0 else BigEndian(s[..|s| - 1]) * 256 + s[|s| - 1]
  }

  /** The number `s` denotes when read least significant byte first. */
  function LittleEndian(s: seq<Byte>): nat
  {
    if |s| == 0 then 0 else s[0] + 256 * LittleEndian(s[1..])
  }

  /** The `n` bytes of `v` in memory on a little-endian host. */
  function ToLittleEndian(v: nat, n: nat): (r: seq<Byte>)
    ensures |r| == n
  {
    if n == 0 then [] else [v % 256] + ToLittleEndian(v / 256, n - 1)
  }

  lemma {:induction false} BigEndianBound(s: seq<Byte>)
    ensures BigEndian(s) < Pow256(|s|)
  {
    if |s| > 0 {
      var p := s[..|s| - 1];
      BigEndianBound(p);
      assert BigEndian(p) + 1 <= Pow256(|p|);
      assert (BigEndian(p) + 1) * 256 <= Pow256(|p|) * 256;
    }
  }

  /** Storing `v` little-endian and reading it back yields `v` again. */
  lemma {:induction false} LittleEndianRoundTrip(v: nat, n: nat)
    requires v < Pow256(n)
    ensures LittleEndian(ToLittleEndian(v, n)) == v
  {
    if n > 0 {
      var r := ToLittleEndian(v, n);
      assert r[1..] == ToLittleEndian(v / 256, n - 1);
      assert v / 256 < Pow256(n - 1);
      LittleEndianRoundTrip(v / 256, n - 1);
    }
  }

  /** to_uint16_be: two bytes, most significant first. */
  function ToUint16Be(data: seq<Byte>, i: nat): (r: nat)
    requires i + 2 <= |data|
    ensures r < 0x1_0000
  {
    (data[i] as int) * 0x100 + data[i + 1] as int
  }

  /** to_uint24_be: three bytes, most significant first. */
  function ToUint24Be(data: seq<Byte>, i: nat): (r: nat)
    requires i + 3 <= |data|
    ensures r < 0x100_0000
  {
    ToUint16Be(data, i) * 0x100 + data[i + 2] as int
  }

  /** to_uint32_be: four bytes, most significant first. */
  function ToUint32Be(data: seq<Byte>, i: nat): (r: nat)
    requires i + 4 <= |data|
    ensures r < 0x1_0000_0000
  {
    ToUint24Be(data, i) * 0x100 + data[i + 3] as int
  }

  /** The three readers agree with the big-endian value of the bytes they read. */
  lemma Uint16BeValue(data: seq<Byte>, i: nat)
    requires i + 2 <= |data|
    ensures ToUint16Be(data, i) == BigEndian(data[i..i + 2])
  {
    var s := data[i..i + 2];
    assert s[..1][..0] == [];
    assert BigEndian(s[..1]) == data[i] as int;
  }

  lemma Uint24BeValue(data: seq<Byte>, i: nat)
    requires i + 3 <= |data|
    ensures ToUint24Be(data, i) == BigEndian(data[i..i + 3])
  {
    Uint16BeValue(data, i);
    assert data[i..i + 3][..2] == data[i..i + 2];
  }

  lemma Uint32BeValue(data: seq<Byte>, i: nat)
    requires i + 4 <= |data|
    ensures ToUint32Be(data, i) == BigEndian(data[i..i + 4])
  {
    Uint24BeValue(data, i);
    assert data[i..i + 4][..3] == data[i..i + 3];
  }

  /** The `n` bytes of `v`, most significant first (the layout to_uintNN_be reads). */
  function ToBigEndian(v: nat, n: nat): (r: seq<Byte>)
    ensures |r| == n
  {
    if n == 0 then [] else ToBigEndian(v / 256, n - 1) + [v % 256]
  }

  /** Storing `v` big-endian and reading it back yields `v` again. */
  lemma {:induction false} BigEndianRoundTrip(v: nat, n: nat)
    requires v < Pow256(n)
    ensures BigEndian(ToBigEndian(v, n)) == v
  {
    if n > 0 {
      var r := ToBigEndian(v, n);
      assert r[..n - 1] == ToBigEndian(v / 256, n - 1);
      BigEndianRoundTrip(v / 256, n - 1);
    }
  }

  /** A byte put in front of a big-endian number becomes its most significant digit. */
  lemma {:induction false} BigEndianPrepend(b: Byte, s: seq<Byte>)
    ensures BigEndian([b] + s) == b * Pow256(|s|) + BigEndian(s)
  {
    if |s| > 0 {
      var t := [b] + s;
      assert t[..|t| - 1] == [b] + s[..|s| - 1];
      BigEndianPrepend(b, s[..|s| - 1]);
    } else {
      assert ([b] + s)[..0] == [];
    }
  }

  /** Quotient and remainder are the only pair with `v == hi * k + lo` and `lo < k`. */
  lemma DivModUnique(v: nat, hi: nat, lo: nat, k: nat)
    requires 0 <= lo < k && v == hi * k + lo
    ensures v / k == hi && v % k == lo
  {
    var q, r := v / k, v % k;
    assert (hi - q) * k == r - lo;
    if hi > q {
      MulAtLeast(hi - q, k);
    } else if hi < q {
      MulAtLeast(q - hi, k);
    }
  }

  lemma MulAtLeast(d: int, k: nat)
    requires d >= 1
    ensures d * k >= k
  {
  }
}

