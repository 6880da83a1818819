// The AMF0 decoder of amf_decode.hpp. decode_amf reads the type marker and
// hands over to one decoder per kind; objects, ECMA arrays and strict arrays
// decode their members by calling decode_amf again. Every decoder works on
// the bytes between `begin` and `end`: here a sequence `s` and a start index
// `i`, the end being |s|. A thrown decode_amf_error is `DecodeError`.

module AmfDecode {
  import opened Bytes
  import opened AmfTypes

  /** A value and the position just past it, or the decode_amf_error failure. */
  datatype Decoded<T> = Decoded(value: T, next: nat) | DecodeError

  /** The type marker byte that introduces a value of each kind. */
  function Marker(t: AmfType): Byte
  {
    match t
    case NumberType => 0x00
    case BooleanType => 0x01
    case StringType => 0x02
    case ObjectType => 0x03
    case EcmaArrayType => 0x08
    case ObjectEndType => 0x09
    case StrictArrayType => 0x0a
    case DateType => 0x0b
  }

  /**
   * impl::decode_amf_string_without_marker: a 16-bit big-endian length, then
   * that many bytes. Fewer than two bytes left violates the function's
   * assertion; the model reports that as a failure.
   */
  function StringWithoutMarker(s: seq<Byte>, i: nat): (r: Decoded<seq<Byte>>)
    requires i <= |s|
    ensures r.Decoded? ==> i + 2 <= r.next <= |s| && r.value == s[i + 2..r.next]
    ensures r.Decoded? ==> |r.value| == ToUint16Be(s, i)
    ensures r.DecodeError? ==> |s| < i + 2 || |s| < i + 2 + ToUint16Be(s, i)
  {
    if |s| - i < 2 then DecodeError
    else
      var length := ToUint16Be(s, i);
      if length == 0 then Decoded([], i + 2)
      else if |s| - (i + 2) >= length then Decoded(s[i + 2..i + 2 + length], i + 2 + length)
      else DecodeError
  }

  /** decode_amf: dispatch on the type marker at `i`. */
  function Decode(s: seq<Byte>, i: nat): (r: Decoded<Value>)
    requires i <= |s|
    ensures r.Decoded? ==> i < r.next <= |s|
    ensures r.Decoded? ==> Marker(GetType(r.value)) == s[i]
    decreases |s| - i, 2
  {
    if i == |s| then DecodeError
    else if s[i] == 0x00 then DecodeNumber(s, i)
    else if s[i] == 0x01 then DecodeBoolean(s, i)
    else if s[i] == 0x02 then DecodeString(s, i)
    else if s[i] == 0x03 then DecodeObject(s, i)
    else if s[i] == 0x08 then DecodeEcmaArray(s, i)
    else if s[i] == 0x09 then DecodeObjectEnd(s, i)
    else if s[i] == 0x0a then DecodeStrictArray(s, i)
    else if s[i] == 0x0b then DecodeDate(s, i)
    else DecodeError
  }

  /** decode_amf_number: marker 0x00 and eight payload bytes. */
  function DecodeNumber(s: seq<Byte>, i: nat): (r: Decoded<Value>)
    requires i <= |s|
    ensures r.Decoded? <==> |s| - i >= 9 && s[i] == 0x00
    ensures r.Decoded? ==> r.next == i + 9 && r.value == Number(s[i + 1..i + 9])
  {
    if |s| - i < 9 || s[i] != 0x00 then DecodeError
    else Decoded(Number(s[i + 1..i + 9]), i + 9)
  }

  /** decode_amf_boolean: marker 0x01 and one byte, true unless zero. */
  function DecodeBoolean(s: seq<Byte>, i: nat): (r: Decoded<Value>)
    requires i <= |s|
    ensures r.Decoded? <==> |s| - i >= 2 && s[i] == 0x01
    ensures r.Decoded? ==> r.next == i + 2 && r.value == Boolean(s[i + 1] != 0)
  {
    if |s| - i < 2 || s[i] != 0x01 then DecodeError
    else Decoded(Boolean(s[i + 1] != 0), i + 2)
  }

  /** decode_amf_string: marker 0x02, then a string without marker. */
  function DecodeString(s: seq<Byte>, i: nat): (r: Decoded<Value>)
    requires i <= |s|
    ensures r.Decoded? <==> |s| - i >= 3 && s[i] == 0x02 && i + 3 + ToUint16Be(s, i + 1) <= |s|
    ensures r.Decoded? ==> r.next == i + 3 + ToUint16Be(s, i + 1) && r.value == Str(s[i + 3..r.next])
  {
    if |s| - i < 3 || s[i] != 0x02 then DecodeError
    else
      match StringWithoutMarker(s, i + 1)
      case DecodeError => DecodeError
      case Decoded(chars, next) => Decoded(Str(chars), next)
  }

  /** decode_amf_object: marker 0x03, then named properties up to the terminator. */
  function DecodeObject(s: seq<Byte>, i: nat): (r: Decoded<Value>)
    requires i <= |s|
    ensures r.Decoded? ==> i < r.next <= |s| && s[i] == 0x03 && r.value.Object?
    ensures r.Decoded? ==> ObjectStored(r.value.props)
    decreases |s| - i, 1
  {
    if i == |s| || s[i] != 0x03 then DecodeError
    else ObjectProps(s, i + 1, [])
  }

  /** The properties decode_amf_object keeps: each has a non-empty name and a value other than object-end. */
  predicate ObjectStored(props: seq<Prop>)
  {
    forall p <- props :: p.name != [] && !p.value.ObjectEnd?
  }

  /** The entries decode_amf_ecma_array keeps: none holds the object-end value. */
  predicate EcmaStored(entries: seq<Prop>)
  {
    forall p <- entries :: !p.value.ObjectEnd?
  }

  /**
   * The property loop of decode_amf_object from position `j`, with the
   * properties read so far in `acc`. A property with an empty name or an
   * object-end value ends the object and is not stored.
   */
  function ObjectProps(s: seq<Byte>, j: nat, acc: seq<Prop>): (r: Decoded<Value>)
    requires j <= |s|
    ensures r.Decoded? ==> j < r.next <= |s| && r.value.Object?
    ensures r.Decoded? ==> acc <= r.value.props
    ensures r.Decoded? ==> ObjectStored(r.value.props[|acc|..])
    decreases |s| - j, 0
  {
    match StringWithoutMarker(s, j)
    case DecodeError => DecodeError
    case Decoded(name, k) =>
      match Decode(s, k)
      case DecodeError => DecodeError
      case Decoded(v, next) =>
        if name == [] || v.ObjectEnd? then Decoded(Object(acc), next)
        else ObjectProps(s, next, acc + [Prop(name, v)])
  }

  /** decode_amf_ecma_array: marker 0x08, a 32-bit count, then up to that many entries. */
  function DecodeEcmaArray(s: seq<Byte>, i: nat): (r: Decoded<Value>)
    requires i <= |s|
    ensures r.Decoded? ==> |s| - i >= 5 && i < r.next <= |s| && s[i] == 0x08 && r.value.EcmaArray?
    ensures r.Decoded? ==> |r.value.entries| <= ToUint32Be(s, i + 1)
    ensures r.Decoded? ==> EcmaStored(r.value.entries)
    decreases |s| - i, 1
  {
    if |s| - i < 5 || s[i] != 0x08 then DecodeError
    else EcmaEntries(s, i + 5, ToUint32Be(s, i + 1), [])
  }

  /**
   * The entry loop of decode_amf_ecma_array with `count` entries still to
   * read; an object-end value stops it early and is not stored.
   */
  function EcmaEntries(s: seq<Byte>, j: nat, count: nat, acc: seq<Prop>): (r: Decoded<Value>)
    requires j <= |s|
    ensures r.Decoded? ==> j <= r.next <= |s| && r.value.EcmaArray?
    ensures r.Decoded? ==> acc <= r.value.entries && |r.value.entries| <= |acc| + count
    ensures r.Decoded? ==> EcmaStored(r.value.entries[|acc|..])
    decreases |s| - j, 0
  {
    if count == 0 then Decoded(EcmaArray(acc), j)
    else
      match StringWithoutMarker(s, j)
      case DecodeError => DecodeError
      case Decoded(key, k) =>
        match Decode(s, k)
        case DecodeError => DecodeError
        case Decoded(v, next) =>
          if v.ObjectEnd? then Decoded(EcmaArray(acc), next)
          else EcmaEntries(s, next, count - 1, acc + [Prop(key, v)])
  }

  /** decode_amf_object_end: the single marker byte 0x09. */
  function DecodeObjectEnd(s: seq<Byte>, i: nat): (r: Decoded<Value>)
    requires i <= |s|
    ensures r.Decoded? <==> i < |s| && s[i] == 0x09
    ensures r.Decoded? ==> r.next == i + 1 && r.value == ObjectEnd
  {
    if i == |s| || s[i] != 0x09 then DecodeError
    else Decoded(ObjectEnd, i + 1)
  }

  /** decode_amf_strict_array: marker 0x0a, a 32-bit count, then exactly that many values. */
  function DecodeStrictArray(s: seq<Byte>, i: nat): (r: Decoded<Value>)
    requires i <= |s|
    ensures r.Decoded? ==> i < r.next <= |s| && s[i] == 0x0a && r.value.StrictArray?
    decreases |s| - i, 1
  {
    if |s| - i < 5 || s[i] != 0x0a then DecodeError
    else StrictItems(s, i + 5, ToUint32Be(s, i + 1), [])
  }

  /** The value loop of decode_amf_strict_array with `count` values still to read. */
  function StrictItems(s: seq<Byte>, j: nat, count: nat, acc: seq<Value>): (r: Decoded<Value>)
    requires j <= |s|
    ensures r.Decoded? ==> j <= r.next <= |s| && r.value.StrictArray?
    ensures r.Decoded? ==> |r.value.items| == |acc| + count
    decreases |s| - j, 3
  {
    if count == 0 then Decoded(StrictArray(acc), j)
    else
      match Decode(s, j)
      case DecodeError => DecodeError
      case Decoded(v, next) => StrictItems(s, next, count - 1, acc + [v])
  }

  /** decode_amf_date: marker 0x0b, eight payload bytes, two ignored time-zone bytes. */
  function DecodeDate(s: seq<Byte>, i: nat): (r: Decoded<Value>)
    requires i <= |s|
    ensures r.Decoded? <==> |s| - i >= 11 && s[i] == 0x0b
    ensures r.Decoded? ==> r.next == i + 11 && r.value == Date(s[i + 1..i + 9])
  {
    if |s| - i < 11 || s[i] != 0x0b then DecodeError
    else Decoded(Date(s[i + 1..i + 9]), i + 11)
  }

  /**
   * decode_amf_object as written: an amf_object filled by push_back while the
   * loop reads name/value pairs.
   */
  method BuildObject(s: seq<Byte>, i: nat) returns (r: Decoded<Value>)
    requires i <= |s|
    ensures r == DecodeObject(s, i)
  {
    if i == |s| || s[i] != 0x03 {
      return DecodeError;
    }
    var obj := new AmfObject();
    var iter := i + 1;
    while true
      invariant i < iter <= |s|
      invariant ObjectProps(s, iter, obj.inner) == DecodeObject(s, i)
      decreases |s| - iter
    {
      var name := StringWithoutMarker(s, iter);
      if name.DecodeError? {
        return DecodeError;
      }
      var v := Decode(s, name.next);
      if v.DecodeError? {
        return DecodeError;
      }
      if name.value == [] || v.value.ObjectEnd? {
        return Decoded(Object(obj.inner), v.next);
      }
      obj.PushBack(Prop(name.value, v.value));
      iter := v.next;
    }
  }

  /** decode_amf_ecma_array as written: at most `count` push_backs into an amf_ecma_array. */
  method BuildEcmaArray(s: seq<Byte>, i: nat) returns (r: Decoded<Value>)
    requires i <= |s|
    ensures r == DecodeEcmaArray(s, i)
  {
    if |s| - i < 5 || s[i] != 0x08 {
      return DecodeError;
    }
    var count := ToUint32Be(s, i + 1);
    var arr := new AmfEcmaArray();
    var iter: nat := i + 5;
    var remaining: nat := count;
    ghost var target := DecodeEcmaArray(s, i);
    while remaining > 0
      invariant iter <= |s|
      invariant EcmaEntries(s, iter, remaining, arr.inner) == target
    {
      var key := StringWithoutMarker(s, iter);
      if key.DecodeError? {
        return DecodeError;
      }
      var v := Decode(s, key.next);
      if v.DecodeError? {
        return DecodeError;
      }
      EcmaEntriesStep(s, iter, remaining, arr.inner);
      if v.value.ObjectEnd? {
        return Decoded(EcmaArray(arr.inner), v.next);
      }
      arr.PushBack(Prop(key.value, v.value));
      iter := v.next;
      remaining := remaining - 1;
    }
    return Decoded(EcmaArray(arr.inner), iter);
  }

  /** One turn of the ECMA array loop: the entry at `j` is read, then the rest. */
  lemma EcmaEntriesStep(s: seq<Byte>, j: nat, count: nat, acc: seq<Prop>)
    requires j <= |s| && count > 0
    requires StringWithoutMarker(s, j).Decoded?
    requires Decode(s, StringWithoutMarker(s, j).next).Decoded?
    ensures var key := StringWithoutMarker(s, j);
            var v := Decode(s, key.next);
            EcmaEntries(s, j, count, acc)
            == if v.value.ObjectEnd? then Decoded(EcmaArray(acc), v.next)
               else EcmaEntries(s, v.next, count - 1, acc + [Prop(key.value, v.value)])
  {
  }

  /** One turn of the object loop: the property at `j` is read, then the rest. */
  lemma ObjectPropsStep(s: seq<Byte>, j: nat, acc: seq<Prop>)
    requires j <= |s|
    requires StringWithoutMarker(s, j).Decoded?
    requires Decode(s, StringWithoutMarker(s, j).next).Decoded?
    ensures var name := StringWithoutMarker(s, j);
            var v := Decode(s, name.next);
            ObjectProps(s, j, acc)
            == if name.value == [] || v.value.ObjectEnd? then Decoded(Object(acc), v.next)
               else ObjectProps(s, v.next, acc + [Prop(name.value, v.value)])
  {
  }

  /** One turn of the strict array loop. */
  lemma StrictItemsStep(s: seq<Byte>, j: nat, count: nat, acc: seq<Value>)
    requires j <= |s| && count > 0
    requires Decode(s, j).Decoded?
    ensures StrictItems(s, j, count, acc)
            == StrictItems(s, Decode(s, j).next, count - 1, acc + [Decode(s, j).value])
  {
  }

  /** decode_amf_strict_array as written: exactly `count` push_backs into an amf_strict_array. */
  method BuildStrictArray(s: seq<Byte>, i: nat) returns (r: Decoded<Value>)
    requires i <= |s|
    ensures r == DecodeStrictArray(s, i)
  {
    if |s| - i < 5 || s[i] != 0x0a {
      return DecodeError;
    }
    var count := ToUint32Be(s, i + 1);
    var arr := new AmfStrictArray();
    var iter: nat := i + 5;
    var k: nat := 0;
    while k < count
      invariant k <= count && iter <= |s|
      invariant StrictItems(s, iter, count - k, arr.inner) == DecodeStrictArray(s, i)
    {
      var v := Decode(s, iter);
      if v.DecodeError? {
        return DecodeError;
      }
      arr.PushBack(v.value);
      iter := v.next;
      k := k + 1;
    }
    return Decoded(StrictArray(arr.inner), iter);
  }
}
