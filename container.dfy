/** The Container class: a callable specification kept either as a
    serializable callback or as a closure, with its parameter list, the PSR
    container it resolves DI-container keys through, and PHP's Serializable
    interface. */
module CallbackContainer {
  import opened Wrappers
  import opened Errors
  import opened PhpValues
  import opened Reflection
  import opened Classifier
  import opened Resolver
  import opened Signatures
  import opened Serialization
  import opened Payloads

  /** A PSR-11 container, seen through has() and get(): `entries` maps each
      key it has to the class of the object get() returns, and `gets`
      counts the calls to get(). */
  class Provider {
    const entries: map<string, string>
    var gets: nat

    constructor (entries: map<string, string>)
      ensures this.entries == entries && gets == 0
    {
      this.entries := entries;
      gets := 0;
    }

    predicate Has(key: string) {
      key in entries
    }

    method Get(key: string) returns (cls: string)
      requires Has(key)
      modifies this
      ensures cls == entries[key] && gets == old(gets) + 1
    {
      cls := entries[key];
      gets := gets + 1;
    }
  }

  /** What the class shares between all its instances: the static
      `$psrContainerGlobal`, and the PHP runtime the container reflects on. */
  class Runtime {
    const registry: Registry
    var globalProvider: Provider?

    constructor (registry: Registry)
      ensures this.registry == registry && globalProvider == null
    {
      this.registry := registry;
      globalProvider := null;
    }

    /** Container::setPsrContainerGlobal */
    method SetPsrContainerGlobal(p: Provider)
      modifies this
      ensures globalProvider == p
    {
      globalProvider := p;
    }
  }

  class Container {
    var provider: Provider?
    var original: Value
    var closure: Option<Handle>
    var callback: Value
    var parameters: Value

    /** What makeInstance and makeClosure see of the PSR container. */
    function View(): ProviderView
      reads this
    {
      if provider == null then NoProvider else Bound(provider.entries)
    }

    /** What serialize() needs: a callback and a parameter list PHP can
      serialize, the list null or made of Parameter records only. */
    predicate Serializes()
      reads this
    {
      Serializable(callback) && ParametersFieldValid(parameters) && Serializable(parameters)
    }

    /** The invariant every container keeps: besides Serializes(), a stored
        callback passes checkCallback again, so what serialize() writes
        unserialize() accepts. */
    predicate Valid(reg: Registry)
      reads this
    {
      Serializes() && (callback.Null? || CheckCallback(reg, callback))
    }

    /** Container::__construct: the given PSR container, else the global
        one, else none. */
    constructor (rt: Runtime, psr: Provider?)
      ensures provider == (if psr != null then psr else rt.globalProvider)
      ensures closure.None? && callback.Null? && parameters.Null? && original.Null?
      ensures Valid(rt.registry)
    {
      provider := if psr != null then psr else rt.globalProvider;
      original := Null;
      closure := None;
      callback := Null;
      parameters := Null;
    }

    /** The object PHP's unserialize() creates, without running the
        constructor, before it calls unserialize() on it. */
    constructor Blank()
      ensures provider == null && closure.None? && callback.Null? && parameters.Null? && original.Null?
    {
      provider := null;
      original := Null;
      closure := None;
      callback := Null;
      parameters := Null;
    }

    /** Container::setPsrContainer */
    method SetPsrContainer(p: Provider)
      modifies this
      ensures provider == p
      ensures original == old(original) && closure == old(closure)
      ensures callback == old(callback) && parameters == old(parameters)
    {
      provider := p;
    }

    /** `clone $this` followed by __clone: a copy that adopts the global PSR
        container only when it has none of its own. */
    method CloneOf(rt: Runtime) returns (c: Container)
      ensures fresh(c)
      ensures c.provider == (if provider == null && rt.globalProvider != null then rt.globalProvider else provider)
      ensures c.original == original && c.closure == closure
      ensures c.callback == callback && c.parameters == parameters
    {
      c := new Container.Blank();
      c.provider := provider;
      c.original := original;
      c.closure := closure;
      c.callback := callback;
      c.parameters := parameters;
      if rt.globalProvider != null && c.provider == null {
        c.SetPsrContainer(rt.globalProvider);
      }
    }

    /** Container::setCallback.  A specification checkCallback refuses
        changes nothing; otherwise `original` is set and both fields cleared
        before the classification, which then fills exactly one of them or
        fails. */
    method SetCallback(rt: Runtime, spec: Value) returns (err: Option<Error>)
      requires rt.registry.Wf() && Valid(rt.registry)
      modifies this
      ensures Valid(rt.registry)
      ensures provider == old(provider) && parameters == old(parameters)
      ensures !CheckCallback(rt.registry, spec) ==>
        err == Some(InvalidArgument) && original == old(original)
        && closure == old(closure) && callback == old(callback)
      ensures CheckCallback(rt.registry, spec) ==> original == spec
      ensures CheckCallback(rt.registry, spec) ==>
        (match Classify(rt.registry, provider != null, spec)
         case Failure(e) => err == Some(e) && closure.None? && callback.Null?
         case Success(AsClosure(h)) => err.None? && closure == Some(h) && callback.Null?
         case Success(AsCallback(cb)) => err.None? && closure.None? && callback == cb)
    {
      if !CheckCallback(rt.registry, spec) {
        return Some(InvalidArgument);
      }
      var outcome := Classify(rt.registry, provider != null, spec);
      if outcome.Success? && outcome.value.AsCallback? {
        ClassifiedCallbackRestorable(rt.registry, provider != null, spec);
      }
      original := spec;
      err := Store(outcome);
    }

    /** The assignments of setCallback once the classification is known:
        both fields cleared, then the one the outcome names filled. */
    method Store(outcome: Result<Stored, Error>) returns (err: Option<Error>)
      modifies this
      ensures provider == old(provider) && parameters == old(parameters) && original == old(original)
      ensures match outcome
        case Failure(e) => err == Some(e) && closure.None? && callback.Null?
        case Success(AsClosure(h)) => err.None? && closure == Some(h) && callback.Null?
        case Success(AsCallback(cb)) => err.None? && closure.None? && callback == cb
    {
      closure := None;
      callback := Null;
      match outcome {
        case Failure(e) =>
          err := Some(e);
        case Success(AsClosure(h)) =>
          closure := Some(h);
          err := None;
        case Success(AsCallback(cb)) =>
          callback := cb;
          err := None;
      }
    }

    /** Container::make: classify the specification on a clone, so the
        receiver never changes; the clone keeps the receiver's parameter
        list and holds exactly one of a closure and a callback. */
    method Make(rt: Runtime, spec: Value) returns (r: Result<Container, Error>)
      requires rt.registry.Wf() && Valid(rt.registry)
      ensures var hasProvider := provider != null || rt.globalProvider != null;
        var outcome := Classify(rt.registry, hasProvider, spec);
        && (r.Success? <==> outcome.Success?)
        && (r.Failure? ==> r.error == outcome.error)
        && (r.Success? ==>
              && fresh(r.value) && r.value.Valid(rt.registry)
              && r.value.original == spec && r.value.parameters == parameters
              && r.value.provider == (if provider == null then rt.globalProvider else provider)
              && (r.value.closure.Some? <==> outcome.value.AsClosure?)
              && (r.value.closure.Some? ==> r.value.closure.value == outcome.value.handle)
              && (r.value.IsSerializable() <==> outcome.value.AsCallback?)
              && (r.value.IsSerializable() ==> r.value.callback == outcome.value.callback))
    {
      var c := CloneOf(rt);
      var err := c.SetCallback(rt, spec);
      if err.Some? {
        return Failure(err.value);
      }
      StoredCallbackNotNull(rt.registry, c.provider != null, spec);
      return Success(c);
    }

    /** Container::isSerializable */
    predicate IsSerializable()
      reads this
    {
      !callback.Null?
    }

    /** Container::serialize: NonSerializable exactly when no callback is
        held; otherwise the payload array of the callback and the parameter
        list, which unserialize() reads back unchanged. */
    function Serialize(): (r: Result<seq<Token>, Error>)
      requires Serializes()
      reads this
      ensures r.Failure? <==> !IsSerializable()
      ensures r.Failure? ==> r.error == NonSerializable
      ensures r.Success? ==> Serialization.Unserialize(r.value) == Payload(callback, parameters)
    {
      if !IsSerializable() then Failure(NonSerializable)
      else
        var payload := Payload(callback, parameters);
        assert Serializable(payload) by {
          assert payload.entries[0].val == callback && payload.entries[1].val == parameters;
        }
        UnserializeSerialize(payload);
        Success(Encode(payload))
    }

    /** Container::unserialize.  The checks run in order and assign nothing
        until the callback has passed; a bad parameter list is found only
        after the callback was assigned.  On success the global PSR
        container, when set, replaces the one the container had; the held
        closure is left as it was. */
    method Unserialize(rt: Runtime, ts: seq<Token>) returns (err: Option<Error>)
      requires Valid(rt.registry)
      modifies this
      ensures Valid(rt.registry)
      ensures original == old(original) && closure == old(closure)
      ensures match ReadPayload(rt.registry, ts)
        case Malformed =>
          err == Some(BadMethodCall) && provider == old(provider)
          && callback == old(callback) && parameters == old(parameters)
        case BadCallback =>
          err == Some(InvalidArgument) && provider == old(provider)
          && callback == old(callback) && parameters == old(parameters)
        case BadParameters(cb) =>
          err == Some(InvalidArgument) && provider == old(provider)
          && callback == cb && parameters == old(parameters)
        case Accepted(cb, ps) =>
          && err.None? && callback == cb
          && parameters == (if ps.Null? then old(parameters) else ps)
          && provider == (if rt.globalProvider != null then rt.globalProvider else old(provider))
    {
      var value := Serialization.Unserialize(ts);
      if !value.Arr? {
        return Some(BadMethodCall);
      }
      var missing := MissingField(value.entries);
      if missing.Some? {
        return Some(BadMethodCall);
      }
      FieldsSerializable(value, CallbackKey);
      FieldsSerializable(value, ParametersKey);
      var cb := Lookup(value.entries, CallbackKey).value;
      if !CheckCallback(rt.registry, cb) {
        return Some(InvalidArgument);
      }
      callback := cb;
      var ps := Lookup(value.entries, ParametersKey).value;
      if !ps.Null? {
        if !ps.Arr? {
          return Some(InvalidArgument);
        }
        var ok := AllParameters(ps.entries);
        if !ok {
          return Some(InvalidArgument);
        }
        parameters := ps;
      }
      if rt.globalProvider != null {
        SetPsrContainer(rt.globalProvider);
      }
      return None;
    }

    /** Container::makeInstance: asks the PSR container's get() only when
        its has() says yes, and then exactly once. */
    method MakeInstance(rt: Runtime, cls: string) returns (r: Result<Instance, Error>)
      modifies provider
      ensures r == InstanceFor(rt.registry, View(), cls)
      ensures provider != null ==>
        provider.gets == old(provider.gets) + (if r.Success? && r.value.FromProvider? then 1 else 0)
    {
      if provider != null && provider.Has(cls) {
        var objectClass := provider.Get(cls);
        return Success(FromProvider(cls, objectClass));
      }
      if rt.registry.ClassExists(cls) {
        var info := rt.registry.classes[cls];
        if info.isInstantiable && !info.constructorHasParameters {
          return Success(Constructed(cls));
        }
      }
      if provider == null {
        return Failure(PsrContainerRequired);
      }
      return Failure(ClassNotFound);
    }

    /** Container::makeClosure: the PSR container's get() is called once
        exactly when AsksProvider says so, even when fromCallable then
        refuses the object's method. */
    method MakeClosure(rt: Runtime, cb: Value) returns (r: Result<Handle, Error>)
      modifies provider
      ensures r == ResolveCallback(rt.registry, View(), cb)
      ensures provider != null ==>
        provider.gets == old(provider.gets) + (if AsksProvider(rt.registry, View(), cb) then 1 else 0)
    {
      if cb.Str? {
        return FromCallable(rt.registry, cb, OfFunction(cb.s));
      }
      if !cb.Arr? {
        return if IsObject(cb) then Failure(ObjectUsedAsArray) else Failure(TypeError);
      }
      var target := Lookup(cb.entries, IntKey(0));
      var named := Lookup(cb.entries, IntKey(1));
      if target.None? || !target.value.Str? || named.None? || !named.value.Str? {
        return Failure(TypeError);
      }
      var cls := target.value.s;
      var m := named.value.s;
      if rt.registry.ClassExists(cls) {
        if m !in rt.registry.classes[cls].methods {
          return Failure(ReflectionFailure);
        }
        if rt.registry.classes[cls].methods[m] {
          return FromCallable(rt.registry, cb, OfStatic(cls, m));
        }
      }
      var obj := MakeInstance(rt, cls);
      if obj.Failure? {
        return Failure(obj.error);
      }
      return FromCallable(rt.registry, BoundPair(obj.value, m), OfInstance(obj.value, m));
    }

    /** Container::closure: the held closure if there is one; otherwise
        CallableRequired without a callback, or the closure built from the
        callback, which is then held, so the PSR container is asked at most
        once. */
    method Closure(rt: Runtime) returns (r: Result<Handle, Error>)
      modifies this, provider
      ensures provider == old(provider) && original == old(original)
      ensures callback == old(callback) && parameters == old(parameters)
      ensures old(closure).Some? ==> r == Success(old(closure).value) && closure == old(closure)
      ensures old(closure).None? && old(callback).Null? ==> r == Failure(CallableRequired) && closure.None?
      ensures old(closure).None? && !old(callback).Null? ==>
        && r == ResolveCallback(rt.registry, old(View()), old(callback))
        && closure == (if r.Success? then Some(r.value) else None)
      ensures provider != null ==>
        provider.gets == old(provider.gets)
          + (if old(closure).None? && AsksProvider(rt.registry, old(View()), old(callback)) then 1 else 0)
    {
      if closure.Some? {
        return Success(closure.value);
      }
      if callback.Null? {
        return Failure(CallableRequired);
      }
      r := MakeClosure(rt, callback);
      if r.Success? {
        closure := Some(r.value);
      }
    }

    /** Container::parameters (corrected so that an empty signature gives
        an empty list): the cached list if there is one, otherwise the list
        reflection gives for the chosen target, which is then cached.  For a
        DI-container key the closure is built and cached on the way, and
        may have asked the PSR container, even when reflection then fails. */
    method Parameters(rt: Runtime) returns (r: Result<Value, Error>)
      requires Valid(rt.registry)
      modifies this, provider
      ensures Valid(rt.registry)
      ensures provider == old(provider) && original == old(original) && callback == old(callback)
      ensures !old(parameters).Null? ==> r == Success(old(parameters)) && parameters == old(parameters)
      ensures old(parameters).Null? ==>
        && r == ParametersFrom(rt.registry, old(View()), old(closure), old(callback))
        && parameters == (if r.Success? then r.value else Null)
      ensures var builds := BuildsClosure(rt.registry, old(parameters), old(closure), old(callback));
        && (builds ==> closure == (var h := ResolveCallback(rt.registry, old(View()), old(callback));
                                    if h.Success? then Some(h.value) else None))
        && (!builds ==> closure == old(closure))
      ensures provider != null ==>
        provider.gets == old(provider.gets)
          + (if BuildsClosure(rt.registry, old(parameters), old(closure), old(callback))
                && AsksProvider(rt.registry, old(View()), old(callback)) then 1 else 0)
    {
      if !parameters.Null? {
        return Success(parameters);
      }
      var source := SignatureSourceFor(rt.registry, closure, callback);
      if source.Failure? {
        return Failure(source.error);
      }
      var target: Target;
      if source.value.OfClosure? {
        var h := Closure(rt);
        if h.Failure? {
          return Failure(h.error);
        }
        target := ClosureTarget(h.value);
      } else {
        target := source.value.target;
      }
      var reflected := rt.registry.signature(target);
      if reflected.None? {
        return Failure(ReflectionFailure);
      }
      var field, _ := AppendParametersAsWritten(reflected.value);
      // corrected: an empty signature gives the empty array, not null
      parameters := if field.Null? then Arr([]) else field;
      if field.Null? {
        assert ParameterList(reflected.value).entries == [];
      }
      return Success(parameters);
    }
  }

  /** Whether parameters() builds a closure through closure(): no list is
      cached, no closure is held, and the callback is a DI-container key. */
  predicate BuildsClosure(reg: Registry, parameters: Value, closure: Option<Handle>, callback: Value) {
    parameters.Null? && closure.None? && SignatureSourceFor(reg, closure, callback) == Success(OfClosure)
  }

  // ---------------------------------------------------------------------
  // Properties across calls

  /** serialize(unserialize(serialize(c))) == serialize(c): a container
      restored from what another wrote holds the same callback and
      parameters and writes the same payload. */
  method SerializeRoundTrip(rt: Runtime, c: Container) returns (d: Container)
    requires c.Valid(rt.registry) && c.IsSerializable()
    ensures fresh(d) && d.Serializes()
    ensures d.callback == c.callback && d.parameters == c.parameters
    ensures d.Serialize() == c.Serialize()
  {
    var written := c.Serialize();
    ReadingOfPayload(rt.registry, c.callback, c.parameters);
    d := new Container.Blank();
    var err := d.Unserialize(rt, written.value);
  }

  /** closure() called twice gives the same answer both times.  A first
      call that succeeds holds its closure, so the PSR container was asked
      at most once; one that fails holds nothing, so the second builds
      again (and may call get() again) and fails the same way. */
  method ClosureIsCached(rt: Runtime, c: Container) returns (first: Result<Handle, Error>, second: Result<Handle, Error>)
    modifies c, c.provider
    ensures second == first
    ensures first.Success? ==> c.closure == Some(first.value)
    ensures first.Failure? ==> c.closure.None?
    ensures c.provider == old(c.provider)
    ensures c.provider != null && first.Success? ==> c.provider.gets <= old(c.provider.gets) + 1
    ensures c.provider != null ==> c.provider.gets <= old(c.provider.gets) + 2
  {
    first := c.Closure(rt);
    second := c.Closure(rt);
  }
}
