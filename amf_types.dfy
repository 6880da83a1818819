// The AMF0 value model (amf_types.hpp / amf_types.cpp): eight kinds of value,
// the ordered key/value containers with their first-match lookups, and the
// mutable containers the decoder fills one push_back at a time.

module AmfTypes {
  import opened Bytes
  import opened Wrappers

  /** amf_type: the kind tag every value reports through get_type. */
  datatype AmfType =
    | NumberType | BooleanType | StringType | ObjectType
    | EcmaArrayType | ObjectEndType | StrictArrayType | DateType

  /**
   * A decoded AMF0 value. Numbers and dates keep their eight IEEE-754 payload
   * bytes as stored in the file (big-endian); strings are byte strings.
   */
  datatype Value =
    | Number(raw: seq<Byte>)
    | Boolean(flag: bool)
    | Str(chars: seq<Byte>)
    | Object(props: seq<Prop>)
    | EcmaArray(entries: seq<Prop>)
    | ObjectEnd
    | StrictArray(items: seq<Value>)
    | Date(raw: seq<Byte>)

  /** One (amf_string, value) pair of an object or ECMA array. */
  datatype Prop = Prop(name: seq<Byte>, value: Value)

  function GetType(v: Value): AmfType
  {
    match v
    case Number(_) => NumberType
    case Boolean(_) => BooleanType
    case Str(_) => StringType
    case Object(_) => ObjectType
    case EcmaArray(_) => EcmaArrayType
    case ObjectEnd => ObjectEndType
    case StrictArray(_) => StrictArrayType
    case Date(_) => DateType
  }

  /** amf_string(value): strings longer than 0xffff bytes are refused. */
  function NewString(chars: seq<Byte>): (r: Option<Value>)
    ensures r.Some? <==> |chars| <= 0xffff
    ensures r.Some? ==> r.value.Str? && r.value.chars == chars
  {
    if |chars| > 0xffff then None else Some(Str(chars))
  }

  /**
   * Position of the first entry named `key`, or |entries| (the end iterator)
   * when there is none.
   */
  function IndexOf(entries: seq<Prop>, key: seq<Byte>): (r: nat)
    ensures r <= |entries|
    ensures r < |entries| ==> entries[r].name == key
    ensures forall j :: 0 <= j < r ==> entries[j].name != key
  {
    if |entries| == 0 then 0
    else if entries[0].name == key then 0
    else 1 + IndexOf(entries[1..], key)
  }

  /** amf_object::get_attribute_value: the value of the first entry named `name`. */
  function Lookup(props: seq<Prop>, name: seq<Byte>): (r: Option<Value>)
    ensures r.Some? <==> exists j :: 0 <= j < |props| && props[j].name == name
    ensures r.Some? ==> exists j :: 0 <= j < |props| && props[j].name == name && props[j].value == r.value
                                    && forall k :: 0 <= k < j ==> props[k].name != name
  {
    var i := IndexOf(props, name);
    if i < |props| then Some(props[i].value) else None
  }

  /** amf_object: properties in stream order; names are never empty. */
  class AmfObject {
    var inner: seq<Prop>

    constructor ()
      ensures inner == []
    {
      inner := [];
    }

    method PushBack(p: Prop)
      requires p.name != []
      modifies this
      ensures inner == old(inner) + [p]
    {
      inner := inner + [p];
    }

    /** to_ecma_array: a new ECMA array holding the same pairs in the same order. */
    method ToEcmaArray() returns (e: AmfEcmaArray)
      ensures fresh(e) && e.inner == inner
    {
      e := new AmfEcmaArray();
      var i := 0;
      while i < |inner|
        invariant 0 <= i <= |inner|
        invariant e.inner == inner[..i]
      {
        e.PushBack(inner[i]);
        assert inner[..i + 1] == inner[..i] + [inner[i]];
        i := i + 1;
      }
    }
  }

  /** amf_ecma_array: entries in stream order; an empty key is allowed. */
  class AmfEcmaArray {
    var inner: seq<Prop>

    constructor ()
      ensures inner == []
    {
      inner := [];
    }

    method PushBack(p: Prop)
      modifies this
      ensures inner == old(inner) + [p]
    {
      inner := inner + [p];
    }

    /** amf_ecma_array::find: a linear scan that stops at the first match. */
    method Find(key: seq<Byte>) returns (r: nat)
      ensures r == IndexOf(inner, key)
    {
      r := 0;
      while r < |inner|
        invariant r <= |inner|
        invariant forall j :: 0 <= j < r ==> inner[j].name != key
      {
        if inner[r].name == key {
          FirstMatchIsIndexOf(inner, key, r);
          return;
        }
        r := r + 1;
      }
      FirstMatchIsIndexOf(inner, key, r);
    }
  }

  /** amf_strict_array: values in stream order. */
  class AmfStrictArray {
    var inner: seq<Value>

    constructor ()
      ensures inner == []
    {
      inner := [];
    }

    method PushBack(v: Value)
      modifies this
      ensures inner == old(inner) + [v]
    {
      inner := inner + [v];
    }

    function Size(): nat
      reads this
    {
      |inner|
    }
  }

  /** IndexOf is characterised by its contract: any first match is the one it finds. */
  lemma {:induction false} FirstMatchIsIndexOf(entries: seq<Prop>, key: seq<Byte>, r: nat)
    requires r <= |entries|
    requires r < |entries| ==> entries[r].name == key
    requires forall j :: 0 <= j < r ==> entries[j].name != key
    ensures IndexOf(entries, key) == r
  {
  }
}
