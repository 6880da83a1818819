// A reference AMF0 encoder, the inverse the decoder of amf_decode.hpp is
// checked against: every well-formed value, written out and decoded from any
// position of any buffer, comes back unchanged together with its length.
// ECMA arrays are written with their entry count and without a terminator,
// which is exactly what decode_amf_ecma_array reads.

module AmfEncode {
  import opened Bytes
  import opened AmfTypes
  import opened AmfDecode

  /** The values the encoder can represent: lengths and counts fit their fields. */
  predicate Encodable(v: Value)
    decreases v, 1
  {
    match v
    case Number(raw) => |raw| == 8
    case Boolean(_) => true
    case Str(chars) => |chars| < 0x1_0000
    case Object(props) => PropsEncodable(props, true)
    case EcmaArray(entries) => |entries| < 0x1_0000_0000 && PropsEncodable(entries, false)
    case ObjectEnd => true
    case StrictArray(items) => |items| < 0x1_0000_0000 && ItemsEncodable(items)
    case Date(raw) => |raw| == 8
  }

  /**
   * Every name fits 16 bits and every value is encodable and not an object
   * end (the decoder would stop there); object names must not be empty.
   */
  predicate PropsEncodable(props: seq<Prop>, nonEmptyNames: bool)
    decreases props, 0
  {
    |props| > 0 ==>
      && |props[0].name| < 0x1_0000
      && (nonEmptyNames ==> props[0].name != [])
      && !props[0].value.ObjectEnd?
      && Encodable(props[0].value)
      && PropsEncodable(props[1..], nonEmptyNames)
  }

  predicate ItemsEncodable(items: seq<Value>)
    decreases items, 0
  {
    |items| > 0 ==> Encodable(items[0]) && ItemsEncodable(items[1..])
  }

  function Encode(v: Value): seq<Byte>
    decreases v, 1
  {
    match v
    case Number(raw) => [0x00] + raw
    case Boolean(flag) => [0x01, if flag then 1 else 0]
    case Str(chars) => [0x02] + ToBigEndian(|chars|, 2) + chars
    case Object(props) => [0x03] + EncodeProps(props) + [0x00, 0x00, 0x09]
    case EcmaArray(entries) => [0x08] + ToBigEndian(|entries|, 4) + EncodeProps(entries)
    case ObjectEnd => [0x09]
    case StrictArray(items) => [0x0a] + ToBigEndian(|items|, 4) + EncodeItems(items)
    case Date(raw) => [0x0b] + raw + [0x00, 0x00]
  }

  function EncodeProps(props: seq<Prop>): seq<Byte>
    decreases props, 0
  {
    if |props| == 0 then [] else EncodeProp(props[0]) + EncodeProps(props[1..])
  }

  /** One property: its name with a 16-bit length, then its value. */
  function EncodeProp(p: Prop): seq<Byte>
    decreases p, 2
  {
    ToBigEndian(|p.name|, 2) + p.name + Encode(p.value)
  }

  function EncodeItems(items: seq<Value>): seq<Byte>
    decreases items, 0
  {
    if |items| == 0 then [] else Encode(items[0]) + EncodeItems(items[1..])
  }

  /** `e` is found in `s` starting at position `i`, one byte at a time. */
  predicate At(s: seq<Byte>, i: nat, e: seq<Byte>)
    ensures At(s, i, e) ==> i + |e| <= |s|
    decreases |e|
  {
    if |e| == 0 then i <= |s|
    else i < |s| && s[i] == e[0] && At(s, i + 1, e[1..])
  }

  lemma {:induction false} AtSlice(s: seq<Byte>, i: nat, e: seq<Byte>)
    ensures At(s, i, e) <==> i + |e| <= |s| && s[i..i + |e|] == e
    decreases |e|
  {
    if |e| > 0 {
      AtSlice(s, i + 1, e[1..]);
      if i + |e| <= |s| {
        assert s[i..i + |e|] == [s[i]] + s[i + 1..i + 1 + |e[1..]|];
        assert e == [e[0]] + e[1..];
      }
    }
  }

  lemma AtSplit(s: seq<Byte>, i: nat, a: seq<Byte>, b: seq<Byte>)
    requires At(s, i, a + b)
    ensures At(s, i, a) && At(s, i + |a|, b)
  {
    AtSlice(s, i, a + b);
    assert s[i..i + |a|] == (a + b)[..|a|];
    assert s[i + |a|..i + |a| + |b|] == (a + b)[|a|..];
    AtSlice(s, i, a);
    AtSlice(s, i + |a|, b);
  }

  lemma Uint16At(s: seq<Byte>, i: nat, n: nat)
    requires n < 0x1_0000 && At(s, i, ToBigEndian(n, 2))
    ensures ToUint16Be(s, i) == n
  {
    AtSlice(s, i, ToBigEndian(n, 2));
    BigEndianRoundTrip(n, 2);
    Uint16BeValue(s, i);
  }

  lemma Uint32At(s: seq<Byte>, i: nat, n: nat)
    requires n < 0x1_0000_0000 && At(s, i, ToBigEndian(n, 4))
    ensures ToUint32Be(s, i) == n
  {
    AtSlice(s, i, ToBigEndian(n, 4));
    BigEndianRoundTrip(n, 4);
    Uint32BeValue(s, i);
  }

  /** A name written with its 16-bit length is read back by decode_amf_string_without_marker. */
  lemma NameAt(s: seq<Byte>, i: nat, name: seq<Byte>)
    requires |name| < 0x1_0000 && At(s, i, ToBigEndian(|name|, 2)) && At(s, i + 2, name)
    ensures StringWithoutMarker(s, i) == Decoded(name, i + 2 + |name|)
  {
    Uint16At(s, i, |name|);
    AtSlice(s, i + 2, name);
    assert s[i + 2..i + 2 + |name|] == name;
  }

  /** Round trip: decoding the encoding of `v`, wherever it sits, yields `v` and its length. */
  lemma {:induction false} DecodeEncode(v: Value, s: seq<Byte>, i: nat)
    requires Encodable(v) && At(s, i, Encode(v))
    ensures Decode(s, i) == Decoded(v, i + |Encode(v)|)
    decreases v, 1
  {
    if v.Object? {
      ObjectEncode(v, s, i);
    } else if v.EcmaArray? {
      EcmaArrayEncode(v, s, i);
    } else if v.StrictArray? {
      StrictArrayEncode(v, s, i);
    } else if v.ObjectEnd? {
      assert s[i] == Encode(v)[0];
    } else {
      ScalarEncode(v, s, i);
    }
  }

  lemma {:induction false} ObjectEncode(v: Value, s: seq<Byte>, i: nat)
    requires v.Object? && Encodable(v) && At(s, i, Encode(v))
    ensures Decode(s, i) == Decoded(v, i + |Encode(v)|)
    decreases v, 0
  {
    assert s[i] == Encode(v)[0];
    AtSplit(s, i, [0x03] + EncodeProps(v.props), [0x00, 0x00, 0x09]);
    AtSplit(s, i, [0x03], EncodeProps(v.props));
    ObjectPropsEncode(v.props, s, i + 1, []);
    assert [] + v.props == v.props;
  }

  lemma {:induction false} EcmaArrayEncode(v: Value, s: seq<Byte>, i: nat)
    requires v.EcmaArray? && Encodable(v) && At(s, i, Encode(v))
    ensures Decode(s, i) == Decoded(v, i + |Encode(v)|)
    decreases v, 0
  {
    var entries := v.entries;
    assert s[i] == Encode(v)[0];
    assert Encode(v) == [0x08] + (ToBigEndian(|entries|, 4) + EncodeProps(entries));
    AtSplit(s, i, [0x08], ToBigEndian(|entries|, 4) + EncodeProps(entries));
    AtSplit(s, i + 1, ToBigEndian(|entries|, 4), EncodeProps(entries));
    Uint32At(s, i + 1, |entries|);
    EcmaEntriesEncode(entries, s, i + 5, []);
    assert [] + entries == entries;
  }

  lemma {:induction false} StrictArrayEncode(v: Value, s: seq<Byte>, i: nat)
    requires v.StrictArray? && Encodable(v) && At(s, i, Encode(v))
    ensures Decode(s, i) == Decoded(v, i + |Encode(v)|)
    decreases v, 0
  {
    var items := v.items;
    assert s[i] == Encode(v)[0];
    assert Encode(v) == [0x0a] + (ToBigEndian(|items|, 4) + EncodeItems(items));
    AtSplit(s, i, [0x0a], ToBigEndian(|items|, 4) + EncodeItems(items));
    AtSplit(s, i + 1, ToBigEndian(|items|, 4), EncodeItems(items));
    Uint32At(s, i + 1, |items|);
    StrictItemsEncode(items, s, i + 5, []);
    assert [] + items == items;
  }

  /** The round trip for the kinds without members. */
  lemma ScalarEncode(v: Value, s: seq<Byte>, i: nat)
    requires v.Number? || v.Boolean? || v.Str? || v.Date?
    requires Encodable(v) && At(s, i, Encode(v))
    ensures Decode(s, i) == Decoded(v, i + |Encode(v)|)
  {
    var e := Encode(v);
    AtSlice(s, i, e);
    assert s[i] == e[0];
    match v
    case Number(raw) =>
      assert s[i + 1..i + 9] == e[1..];
    case Boolean(flag) =>
      assert s[i + 1] == e[1];
    case Str(chars) =>
      assert e == [0x02] + ToBigEndian(|chars|, 2) + chars;
      AtSplit(s, i, [0x02] + ToBigEndian(|chars|, 2), chars);
      AtSplit(s, i, [0x02], ToBigEndian(|chars|, 2));
      NameAt(s, i + 1, chars);
    case Date(raw) =>
      AtSplit(s, i, [0x0b] + raw, [0x00, 0x00]);
      AtSplit(s, i, [0x0b], raw);
      AtSlice(s, i + 1, raw);
  }

  /** The terminator 00 00 09 ends an object: empty name, object-end value. */
  lemma ObjectTerminator(s: seq<Byte>, j: nat, acc: seq<Prop>)
    requires At(s, j, [0x00, 0x00, 0x09])
    ensures ObjectProps(s, j, acc) == Decoded(Object(acc), j + 3)
  {
    assert ToBigEndian(0, 2) == [0x00, 0x00];
    assert [0x00, 0x00, 0x09] == [0x00, 0x00] + [0x09];
    AtSplit(s, j, [0x00, 0x00], [0x09]);
    AtSlice(s, j, [0x00, 0x00, 0x09]);
    NameAt(s, j, []);
    assert s[j + 2] == 0x09;
    assert Decode(s, j + 2) == Decoded(ObjectEnd, j + 3);
    ObjectPropsStep(s, j, acc);
  }

  /** A property written by EncodeProp is read back as its name, then its value. */
  lemma {:induction false} PropDecodes(p: Prop, s: seq<Byte>, j: nat)
    requires |p.name| < 0x1_0000 && Encodable(p.value) && At(s, j, EncodeProp(p))
    ensures StringWithoutMarker(s, j) == Decoded(p.name, j + 2 + |p.name|)
    ensures Decode(s, j + 2 + |p.name|) == Decoded(p.value, j + |EncodeProp(p)|)
    decreases p, 2
  {
    AtSplit(s, j, ToBigEndian(|p.name|, 2) + p.name, Encode(p.value));
    AtSplit(s, j, ToBigEndian(|p.name|, 2), p.name);
    NameAt(s, j, p.name);
    DecodeEncode(p.value, s, j + 2 + |p.name|);
  }

  /** A property that neither has an empty name nor holds an object end is stored and the loop goes on. */
  lemma ObjectPropsCons(s: seq<Byte>, j: nat, acc: seq<Prop>, p: Prop, k: nat, next: nat)
    requires j <= |s| && p.name != [] && !p.value.ObjectEnd?
    requires StringWithoutMarker(s, j) == Decoded(p.name, k)
    requires Decode(s, k) == Decoded(p.value, next)
    ensures ObjectProps(s, j, acc) == ObjectProps(s, next, acc + [p])
  {
    ObjectPropsStep(s, j, acc);
  }

  /** An entry that does not hold an object end is stored and the count goes down. */
  lemma EcmaEntriesCons(s: seq<Byte>, j: nat, count: nat, acc: seq<Prop>, p: Prop, k: nat, next: nat)
    requires j <= |s| && count > 0 && !p.value.ObjectEnd?
    requires StringWithoutMarker(s, j) == Decoded(p.name, k)
    requires Decode(s, k) == Decoded(p.value, next)
    ensures EcmaEntries(s, j, count, acc) == EcmaEntries(s, next, count - 1, acc + [p])
  {
    EcmaEntriesStep(s, j, count, acc);
  }

  /**
   * The first property of an object is read back and stored, and the loop
   * goes on right after it.
   */
  lemma ObjectPropsHead(props: seq<Prop>, s: seq<Byte>, j: nat, acc: seq<Prop>) returns (next: nat)
    requires |props| > 0 && PropsEncodable(props, true) && At(s, j, EncodeProps(props))
    ensures next == j + |EncodeProp(props[0])| && At(s, next, EncodeProps(props[1..]))
    ensures ObjectProps(s, j, acc) == ObjectProps(s, next, acc + [props[0]])
    decreases props, 1
  {
    var p := props[0];
    AtSplit(s, j, EncodeProp(p), EncodeProps(props[1..]));
    PropDecodes(p, s, j);
    next := j + |EncodeProp(p)|;
    ObjectPropsCons(s, j, acc, p, j + 2 + |p.name|, next);
  }

  /** Appending the head and then the tail is appending the whole sequence. */
  lemma AppendHead<T>(acc: seq<T>, xs: seq<T>)
    requires |xs| > 0
    ensures acc + [xs[0]] + xs[1..] == acc + xs
  {
    assert [xs[0]] + xs[1..] == xs;
  }

  lemma {:induction false} ObjectPropsEncode(props: seq<Prop>, s: seq<Byte>, j: nat, acc: seq<Prop>)
    requires PropsEncodable(props, true) && At(s, j, EncodeProps(props))
    requires At(s, j + |EncodeProps(props)|, [0x00, 0x00, 0x09])
    ensures ObjectProps(s, j, acc) == Decoded(Object(acc + props), j + |EncodeProps(props)| + 3)
    decreases props, 2
  {
    if |props| == 0 {
      ObjectTerminator(s, j, acc);
      assert acc + props == acc;
    } else {
      var next := ObjectPropsHead(props, s, j, acc);
      assert next + |EncodeProps(props[1..])| == j + |EncodeProps(props)|;
      assert PropsEncodable(props[1..], true);
      ObjectPropsEncode(props[1..], s, next, acc + [props[0]]);
      AppendHead(acc, props);
    }
  }

  /** The first entry of an ECMA array is read back and stored, and the count goes down. */
  lemma EcmaEntriesHead(entries: seq<Prop>, s: seq<Byte>, j: nat, acc: seq<Prop>) returns (next: nat)
    requires |entries| > 0 && PropsEncodable(entries, false) && At(s, j, EncodeProps(entries))
    ensures next == j + |EncodeProp(entries[0])| && At(s, next, EncodeProps(entries[1..]))
    ensures EcmaEntries(s, j, |entries|, acc) == EcmaEntries(s, next, |entries| - 1, acc + [entries[0]])
    decreases entries, 1
  {
    var p := entries[0];
    AtSplit(s, j, EncodeProp(p), EncodeProps(entries[1..]));
    PropDecodes(p, s, j);
    next := j + |EncodeProp(p)|;
    EcmaEntriesCons(s, j, |entries|, acc, p, j + 2 + |p.name|, next);
  }

  lemma {:induction false} EcmaEntriesEncode(entries: seq<Prop>, s: seq<Byte>, j: nat, acc: seq<Prop>)
    requires PropsEncodable(entries, false) && At(s, j, EncodeProps(entries))
    ensures EcmaEntries(s, j, |entries|, acc) == Decoded(EcmaArray(acc + entries), j + |EncodeProps(entries)|)
    decreases entries, 2
  {
    if |entries| == 0 {
      assert acc + entries == acc;
    } else {
      var next := EcmaEntriesHead(entries, s, j, acc);
      assert next + |EncodeProps(entries[1..])| == j + |EncodeProps(entries)|;
      assert PropsEncodable(entries[1..], false);
      EcmaEntriesEncode(entries[1..], s, next, acc + [entries[0]]);
      AppendHead(acc, entries);
    }
  }

  /** The first value of a strict array is read back and stored, and the count goes down. */
  lemma StrictItemsHead(items: seq<Value>, s: seq<Byte>, j: nat, acc: seq<Value>) returns (next: nat)
    requires |items| > 0 && ItemsEncodable(items) && At(s, j, EncodeItems(items))
    ensures next == j + |Encode(items[0])| && At(s, next, EncodeItems(items[1..]))
    ensures StrictItems(s, j, |items|, acc) == StrictItems(s, next, |items| - 1, acc + [items[0]])
    decreases items, 1
  {
    AtSplit(s, j, Encode(items[0]), EncodeItems(items[1..]));
    DecodeEncode(items[0], s, j);
    next := j + |Encode(items[0])|;
    StrictItemsStep(s, j, |items|, acc);
  }

  lemma {:induction false} StrictItemsEncode(items: seq<Value>, s: seq<Byte>, j: nat, acc: seq<Value>)
    requires ItemsEncodable(items) && At(s, j, EncodeItems(items))
    ensures StrictItems(s, j, |items|, acc) == Decoded(StrictArray(acc + items), j + |EncodeItems(items)|)
    decreases items, 2
  {
    if |items| == 0 {
      assert acc + items == acc;
    } else {
      var next := StrictItemsHead(items, s, j, acc);
      assert next + |EncodeItems(items[1..])| == j + |EncodeItems(items)|;
      assert ItemsEncodable(items[1..]);
      StrictItemsEncode(items[1..], s, next, acc + [items[0]]);
      assert acc + [items[0]] + items[1..] == acc + items;
    }
  }
}
