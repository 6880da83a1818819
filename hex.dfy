// flv_player::uint8_to_hex_string: each byte becomes two hex digits, high
// nibble first; digits above nine are letters, upper or lower case.

module Hex {
  import opened Bytes
  import opened Wrappers

  function HexDigit(d: nat, uppercase: bool): (c: char)
    requires d < 16
    ensures '0' <= c <= '9' || 'A' <= c <= 'F' || 'a' <= c <= 'f'
  {
    if d >= 10 then (if uppercase then 'A' else 'a') + (d - 10) as char
    else '0' + d as char
  }

  /** The value of a hex digit in either case; the inverse of HexDigit. */
  function DigitValue(c: char): (r: Option<nat>)
    ensures r.Some? ==> r.value < 16
  {
    if '0' <= c <= '9' then Some(c as nat - '0' as nat)
    else if 'A' <= c <= 'F' then Some(c as nat - 'A' as nat + 10)
    else if 'a' <= c <= 'f' then Some(c as nat - 'a' as nat + 10)
    else None
  }

  /** The string uint8_to_hex_string returns for `data`. */
  function HexString(data: seq<Byte>, uppercase: bool): (r: string)
    ensures |r| == 2 * |data|
  {
    if |data| == 0 then []
    else [HexDigit(data[0] / 16, uppercase), HexDigit(data[0] % 16, uppercase)]
         + HexString(data[1..], uppercase)
  }

  lemma DigitRoundTrip(d: nat, uppercase: bool)
    requires d < 16
    ensures DigitValue(HexDigit(d, uppercase)) == Some(d)
  {
  }

  /** Characters 2k and 2k+1 of the encoding spell byte k, high nibble first. */
  lemma {:induction false} HexStringAt(data: seq<Byte>, uppercase: bool, k: nat)
    requires k < |data|
    ensures HexString(data, uppercase)[2 * k] == HexDigit(data[k] / 16, uppercase)
    ensures HexString(data, uppercase)[2 * k + 1] == HexDigit(data[k] % 16, uppercase)
  {
    if k > 0 {
      HexStringAt(data[1..], uppercase, k - 1);
    }
  }

  lemma {:induction false} HexStringAppend(a: seq<Byte>, b: seq<Byte>, uppercase: bool)
    ensures HexString(a + b, uppercase) == HexString(a, uppercase) + HexString(b, uppercase)
  {
    if |a| > 0 {
      assert (a + b)[1..] == a[1..] + b;
      HexStringAppend(a[1..], b, uppercase);
    } else {
      assert a + b == b;
    }
  }

  /** The loop of uint8_to_hex_string, two characters per byte. */
  method Uint8ToHexString(data: seq<Byte>, uppercase: bool) returns (result: string)
    ensures result == HexString(data, uppercase)
  {
    result := [];
    var i := 0;
    while i < |data|
      invariant 0 <= i <= |data|
      invariant result == HexString(data[..i], uppercase)
    {
      var byteValue := data[i];
      var hi := if byteValue / 16 >= 10 then (if uppercase then 'A' else 'a') + (byteValue / 16 - 10) as char
                else '0' + (byteValue / 16) as char;
      var lo := if byteValue % 16 >= 10 then (if uppercase then 'A' else 'a') + (byteValue % 16 - 10) as char
                else '0' + (byteValue % 16) as char;
      assert hi == HexDigit(byteValue / 16, uppercase);
      assert lo == HexDigit(byteValue % 16, uppercase);
      assert HexString([data[i]], uppercase) == [hi, lo] by {
        assert [data[i]][1..] == [];
      }
      HexStringAppend(data[..i], [data[i]], uppercase);
      assert data[..i + 1] == data[..i] + [data[i]];
      result := result + [hi, lo];
      i := i + 1;
    }
    assert data[..i] == data;
  }
}
