/** The array a container serializes itself to, and the checks
    Container::unserialize applies, in order, before it assigns anything. */
module Payloads {
  import opened Wrappers
  import opened Errors
  import opened PhpValues
  import opened Reflection
  import opened Classifier
  import opened Signatures
  import opened Serialization

  const CallbackKey: Key := StrKey("callback")
  const ParametersKey: Key := StrKey("parameters")

  /** ['callback' => $callback, 'parameters' => $parameters] */
  function Payload(callback: Value, parameters: Value): (v: Value)
    ensures v.Arr? && Lookup(v.entries, CallbackKey) == Some(callback)
    ensures Lookup(v.entries, ParametersKey) == Some(parameters)
  {
    var v := Arr([Entry(CallbackKey, callback), Entry(ParametersKey, parameters)]);
    LookupOfTwo(v.entries, CallbackKey);
    LookupOfTwo(v.entries, ParametersKey);
    v
  }

  /** What unserialize accepts as `parameters`: null, or an array holding
      nothing but Parameter records. */
  predicate ParametersFieldValid(ps: Value) {
    ps.Null? || IsParameterArray(ps)
  }

  /** The outcome of unserialize's checks. */
  datatype Reading =
    | Malformed                                     // \BadMethodCallException; nothing assigned
    | BadCallback                                   // \InvalidArgumentException; nothing assigned
    | BadParameters(callback: Value)                // \InvalidArgumentException after `callback` was assigned
    | Accepted(callback: Value, parameters: Value)  // a null `parameters` leaves the field as it was

  /** unserialize's checks: an array with both fields (BadMethodCall),
      then a callback that passes checkCallback, then the parameters. */
  function ReadPayload(reg: Registry, ts: seq<Token>): (r: Reading)
    ensures r.BadParameters? || r.Accepted? ==> CheckCallback(reg, r.callback) && Serializable(r.callback)
    ensures r.Accepted? ==> ParametersFieldValid(r.parameters) && Serializable(r.parameters)
  {
    var value := Unserialize(ts);
    if !value.Arr? || !HasKey(value.entries, CallbackKey) || !HasKey(value.entries, ParametersKey) then
      Malformed
    else
      var cb := Lookup(value.entries, CallbackKey).value;
      var ps := Lookup(value.entries, ParametersKey).value;
      FieldsSerializable(value, CallbackKey);
      FieldsSerializable(value, ParametersKey);
      if !CheckCallback(reg, cb) then BadCallback
      else if !ParametersFieldValid(ps) then BadParameters(cb)
      else Accepted(cb, ps)
  }

  /** The values of a serializable array are serializable. */
  lemma FieldsSerializable(v: Value, k: Key)
    requires v.Arr? && Serializable(v) && HasKey(v.entries, k)
    ensures Serializable(Lookup(v.entries, k).value)
  {
    LookupFirst(v.entries, k);
  }

  // ---------------------------------------------------------------------
  // The two loops of unserialize

  /** `foreach (['callback', 'parameters'] as $field)`: the first field the
      array lacks, if any. */
  method MissingField(es: seq<Entry>) returns (missing: Option<Key>)
    ensures missing.None? <==> HasKey(es, CallbackKey) && HasKey(es, ParametersKey)
    ensures missing.Some? ==> !HasKey(es, missing.value)
    ensures missing == Some(ParametersKey) ==> HasKey(es, CallbackKey)
  {
    var fields := [CallbackKey, ParametersKey];
    assert CallbackKey != ParametersKey by {
      assert CallbackKey.s[0] != ParametersKey.s[0];
    }
    var i := 0;
    while i < |fields|
      invariant 0 <= i <= |fields|
      invariant forall j :: 0 <= j < i ==> HasKey(es, fields[j])
    {
      if !HasKey(es, fields[i]) {
        if i == 1 {
          assert HasKey(es, fields[0]);
        }
        return Some(fields[i]);
      }
      i := i + 1;
    }
    assert HasKey(es, fields[0]) && HasKey(es, fields[1]);
    return None;
  }

  /** `foreach ($parameters as $parameter)`: whether every value is a
      Parameter record. */
  method AllParameters(es: seq<Entry>) returns (ok: bool)
    ensures ok <==> IsParameterArray(Arr(es))
  {
    var i := 0;
    while i < |es|
      invariant 0 <= i <= |es|
      invariant forall j :: 0 <= j < i ==> es[j].val.Param?
    {
      if !es[i].val.Param? {
        return false;
      }
      i := i + 1;
    }
    return true;
  }

  // ---------------------------------------------------------------------
  // Round trip and corrupted input

  /** Reading back what serialize wrote: the checks see exactly the
      callback and the parameters that were written. */
  lemma ReadingOfPayload(reg: Registry, cb: Value, ps: Value)
    requires Serializable(cb) && Serializable(ps)
    ensures ReadPayload(reg, Encode(Payload(cb, ps))) ==
      if !CheckCallback(reg, cb) then BadCallback
      else if !ParametersFieldValid(ps) then BadParameters(cb)
      else Accepted(cb, ps)
  {
    var v := Payload(cb, ps);
    assert Serializable(v) by {
      assert v.entries[0].val == cb && v.entries[1].val == ps;
    }
    UnserializeSerialize(v);
  }

  /** What serialize writes for a callback that passes the shape check and
      a valid parameter list, unserialize accepts unchanged. */
  lemma PayloadReadsBack(reg: Registry, cb: Value, ps: Value)
    requires Serializable(cb) && Serializable(ps)
    requires CheckCallback(reg, cb) && ParametersFieldValid(ps)
    ensures ReadPayload(reg, Encode(Payload(cb, ps))) == Accepted(cb, ps)
  {
    ReadingOfPayload(reg, cb, ps);
  }

  /** A string that is not a serialization at all (unserialize gives false)
      is a BadMethodCall. */
  lemma GarbageIsMalformed(reg: Registry, ts: seq<Token>)
    requires DecodeValue(ts).None?
    ensures ReadPayload(reg, ts) == Malformed
  {
  }

  /** A serialized object, or ['non', 'callable', 'array'], lacks the two
      fields and is a BadMethodCall as well. */
  lemma CorruptedPayloadsAreMalformed(reg: Registry, cls: string)
    ensures ReadPayload(reg, Encode(Object(cls))) == Malformed
    ensures ReadPayload(reg, Encode(Arr([Entry(IntKey(0), Str("non")), Entry(IntKey(1), Str("callable")),
                                          Entry(IntKey(2), Str("array"))]))) == Malformed
  {
    UnserializeSerialize(Object(cls));
    var list := Arr([Entry(IntKey(0), Str("non")), Entry(IntKey(1), Str("callable")), Entry(IntKey(2), Str("array"))]);
    assert Serializable(list);
    UnserializeSerialize(list);
    LookupFirst(list.entries, CallbackKey);
  }

  /** A serialized string, such as the name of a function that does not
      exist, is not an array and is a BadMethodCall too. */
  lemma StringPayloadIsMalformed(reg: Registry, s: string)
    ensures ReadPayload(reg, Encode(Str(s))) == Malformed
  {
    UnserializeSerialize(Str(s));
  }

  /** Both fields present but a callback that fails the shape check, such
      as null, is an InvalidArgument before anything is assigned. */
  lemma NullCallbackRejected(reg: Registry, ps: Value)
    requires reg.Wf() && Serializable(ps)
    ensures ReadPayload(reg, Encode(Payload(Null, ps))) == BadCallback
  {
    ReadingOfPayload(reg, Null, ps);
    assert !CallableShape(Null);
  }

  /** A parameter list holding anything but Parameter records is refused
      after the callback has been assigned. */
  lemma ForeignParameterRejected(reg: Registry, cb: Value, x: Value)
    requires Serializable(cb) && CheckCallback(reg, cb)
    requires Serializable(x) && !x.Param?
    ensures ReadPayload(reg, Encode(Payload(cb, Arr([Entry(IntKey(0), x)])))) == BadParameters(cb)
  {
    var ps := Arr([Entry(IntKey(0), x)]);
    assert Serializable(ps);
    assert !IsParameterArray(ps) by {
      assert ps.entries[0].val == x;
    }
    ReadingOfPayload(reg, cb, ps);
  }
}
