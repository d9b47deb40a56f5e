/** What Container::parameters() reflects on, and the list of Parameter
    records it builds from the answer. */
module Signatures {
  import opened Wrappers
  import opened Errors
  import opened Parameters
  import opened PhpValues
  import opened Reflection
  import opened Resolver

  /** Where the signature comes from: the closure (which closure() may have
      to build first) or a function or method reflection can name directly. */
  datatype SignatureSource = OfClosure | OfTarget(target: Target)

  /** The branch parameters() takes for a container whose list is not yet
      cached: a held closure first, then a function name, then an existing
      class's method, and for a DI-container key the closure built from it. */
  function SignatureSourceFor(reg: Registry, closure: Option<Handle>, callback: Value): (r: Result<SignatureSource, Error>)
  {
    if closure.Some? then Success(OfClosure)
    else match callback
      case Str(name) => Success(OfTarget(FunctionTarget(name)))
      case Arr(es) =>
        var target := Lookup(es, IntKey(0));
        var named := Lookup(es, IntKey(1));
        if target.None? || !target.value.Str? then
          Failure(TypeError)  // class_exists() takes a string
        else if !reg.ClassExists(target.value.s) then Success(OfClosure)
        else if named.None? || !named.value.Str? then
          Failure(TypeError)  // \ReflectionMethod takes the method name as a string
        else Success(OfTarget(MethodTarget(target.value.s, named.value.s)))
      case _ =>
        // `$this->callback[0]` is null for null and scalars, and an error for objects
        if IsObject(callback) then Failure(ObjectUsedAsArray) else Failure(TypeError)
  }

  /** The reflection target once the closure, if one is needed, has been
      obtained: the held one, or the one closure() builds. */
  function SignatureTargetFor(reg: Registry, view: ProviderView, closure: Option<Handle>, callback: Value): (r: Result<Target, Error>)
  {
    match SignatureSourceFor(reg, closure, callback)
    case Failure(e) => Failure(e)
    case Success(OfTarget(t)) => Success(t)
    case Success(OfClosure) =>
      // without a held closure only an array whose first entry is no class
      // gets here, so closure()'s CallableRequired cannot arise
      if closure.Some? then Success(ClosureTarget(closure.value))
      else
        match ResolveCallback(reg, view, callback)
        case Failure(e) => Failure(e)
        case Success(h) => Success(ClosureTarget(h))
  }

  /** parameters() on a container without a cached list (corrected so that
      an empty signature gives an empty list). */
  function ParametersFrom(reg: Registry, view: ProviderView, closure: Option<Handle>, callback: Value): (r: Result<Value, Error>)
    ensures r.Success? ==> IsParameterArray(r.value) && Serializable(r.value)
  {
    match SignatureTargetFor(reg, view, closure, callback)
    case Failure(e) => Failure(e)
    case Success(t) =>
      match reg.signature(t)
      case None => Failure(ReflectionFailure)
      case Some(rps) => Success(ParameterList(rps))
  }

  /** An array whose every value is a Parameter record. */
  predicate IsParameterArray(v: Value) {
    v.Arr? && forall i :: 0 <= i < |v.entries| ==> v.entries[i].val.Param?
  }

  /** The list parameters() stores: one record per reflected parameter, in
      order, under the keys 0, 1, 2, ... */
  function ParameterList(rps: seq<ReflectedParameter>): (v: Value)
    ensures IsParameterArray(v) && Serializable(v)
    ensures |v.entries| == |rps|
    ensures forall i :: 0 <= i < |rps| ==>
      v.entries[i].key == IntKey(i) && v.entries[i].val == Param(FromReflection(rps[i]))
    ensures forall i :: 0 <= i < |rps| ==>
      Lookup(v.entries, IntKey(i)) == Some(Param(FromReflection(rps[i])))
  {
    var v := Arr(seq(|rps|, i requires 0 <= i < |rps| => Entry(IntKey(i), Param(FromReflection(rps[i])))));
    forall i | 0 <= i < |rps|
      ensures Lookup(v.entries, IntKey(i)) == Some(Param(FromReflection(rps[i])))
    {
      LookupAt(v.entries, i);
    }
    v
  }

  /** The loop of parameters() as written: `$this->parameters[] = ...` for
      each reflected parameter, starting from null.  PHP turns null into an
      array only on the first append, so an empty signature leaves the field
      null, and `return $this->parameters` hands null to the `: array` return
      type, a TypeError. */
  method AppendParametersAsWritten(rps: seq<ReflectedParameter>) returns (field: Value, r: Result<Value, Error>)
    ensures field.Null? <==> rps == []
    ensures rps != [] ==> field == ParameterList(rps) && r == Success(field)
    ensures rps == [] ==> r == Failure(TypeError)
  {
    field := Null;
    for i := 0 to |rps|
      invariant field.Null? <==> i == 0
      invariant i > 0 ==>
        (&& field.Arr? && |field.entries| == i
         && forall j :: 0 <= j < i ==> field.entries[j] == Entry(IntKey(j), Param(FromReflection(rps[j]))))
    {
      // `[] =` on a list appends under the next integer key, its length
      var entry := Entry(IntKey(i), Param(FromReflection(rps[i])));
      field := if field.Null? then Arr([entry]) else Arr(field.entries + [entry]);
    }
    if rps != [] {
      assert field.entries == ParameterList(rps).entries;
    }
    r := if field.Null? then Failure(TypeError) else Success(field);
  }

  /** The corrected parameters(): a callable without parameters gets the
      empty list, which is cached like any other. */
  lemma EmptySignatureCorrected(reg: Registry, view: ProviderView, closure: Option<Handle>, callback: Value)
    requires SignatureTargetFor(reg, view, closure, callback).Success?
    requires reg.signature(SignatureTargetFor(reg, view, closure, callback).value) == Some([])
    ensures ParametersFrom(reg, view, closure, callback) == Success(Arr([]))
  {
    assert ParameterList([]).entries == [];
  }

  /** A callback that names an existing class is reflected directly, so no
      closure is built and no PSR container is asked; a DI-container key
      needs the closure. */
  lemma ClassMethodNeedsNoClosure(reg: Registry, cls: string, m: string)
    ensures SignatureSourceFor(reg, None, Pair(cls, m)) ==
      if reg.ClassExists(cls) then Success(OfTarget(MethodTarget(cls, m))) else Success(OfClosure)
  {
    PairIsStringPair(cls, m);
  }

  /** A held closure is always the one reflected on, whatever the callback. */
  lemma HeldClosureWins(reg: Registry, view: ProviderView, h: Handle, callback: Value)
    ensures SignatureTargetFor(reg, view, Some(h), callback) == Success(ClosureTarget(h))
  {
  }

  /** The list holds one record per parameter reflection reports for the
      chosen target, in order; a target reflection cannot read is a
      ReflectionFailure. */
  lemma ParametersFollowSignature(reg: Registry, view: ProviderView, closure: Option<Handle>, callback: Value)
    requires SignatureTargetFor(reg, view, closure, callback).Success?
    ensures var t := SignatureTargetFor(reg, view, closure, callback).value;
      var r := ParametersFrom(reg, view, closure, callback);
      && (r.Success? <==> reg.signature(t).Some?)
      && (r.Success? ==> |r.value.entries| == |reg.signature(t).value|)
      && (r.Success? ==> forall i :: 0 <= i < |reg.signature(t).value| ==>
            Lookup(r.value.entries, IntKey(i)) == Some(Param(FromReflection(reg.signature(t).value[i]))))
  {
  }

  /** A DI-container key is reflected through the closure built from it,
      so its parameters fail exactly when building that closure fails. */
  lemma KeyParametersNeedClosure(reg: Registry, view: ProviderView, key: string, m: string)
    requires !reg.ClassExists(key)
    ensures var r := SignatureTargetFor(reg, view, None, Pair(key, m));
      var h := ResolveCallback(reg, view, Pair(key, m));
      && (r.Success? <==> h.Success?)
      && (r.Success? ==> r.value == ClosureTarget(h.value))
  {
    PairIsStringPair(key, m);
  }
}
