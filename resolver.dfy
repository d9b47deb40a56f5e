/** How a stored callback is turned into a closure (Container::makeClosure)
    and where the object a non-static method is bound to comes from
    (Container::makeInstance).  The PSR container is seen here only through
    what it answers: which keys it has, and the class of the object get()
    returns for each. */
module Resolver {
  import opened Wrappers
  import opened Errors
  import opened PhpValues
  import opened Reflection

  /** The PSR container bound to a callback container, if any. */
  datatype ProviderView = NoProvider | Bound(entries: map<string, string>)
  {
    /** `$psrContainer->has($key)`, false when there is no container. */
    predicate Has(key: string) {
      Bound? && key in entries
    }
  }

  /** makeInstance: the PSR container first, then `new $class()` for an
      instantiable class whose constructor takes no parameters, and
      otherwise an error that depends on whether a PSR container is bound. */
  function InstanceFor(reg: Registry, view: ProviderView, cls: string): (r: Result<Instance, Error>)
  {
    if view.Has(cls) then Success(FromProvider(cls, view.entries[cls]))
    else if reg.ClassExists(cls) && reg.classes[cls].isInstantiable
            && !reg.classes[cls].constructorHasParameters then
      Success(Constructed(cls))
    else if view.NoProvider? then Failure(PsrContainerRequired)
    else Failure(ClassNotFound)
  }

  /** Whether a class can be built locally, without a PSR container. */
  predicate LocallyConstructible(reg: Registry, cls: string) {
    reg.ClassExists(cls) && reg.classes[cls].isInstantiable && !reg.classes[cls].constructorHasParameters
  }

  /** makeClosure on a stored callback: a function name, a static method of
      an existing class, or a method bound to an instance from makeInstance,
      each handed to \Closure::fromCallable. */
  function ResolveCallback(reg: Registry, view: ProviderView, cb: Value): (r: Result<Handle, Error>)
  {
    match cb
    case Str(name) => FromCallable(reg, cb, OfFunction(name))
    case Arr(es) =>
      var target := Lookup(es, IntKey(0));
      var named := Lookup(es, IntKey(1));
      if target.None? || !target.value.Str? || named.None? || !named.value.Str? then
        Failure(TypeError)  // class_exists and makeInstance take strings only
      else
        var cls := target.value.s;
        var m := named.value.s;
        if reg.ClassExists(cls) && m !in reg.classes[cls].methods then Failure(ReflectionFailure)
        else if reg.ClassExists(cls) && reg.classes[cls].methods[m] then FromCallable(reg, cb, OfStatic(cls, m))
        else
          (match InstanceFor(reg, view, cls)
           case Failure(e) => Failure(e)
           case Success(obj) => FromCallable(reg, BoundPair(obj, m), OfInstance(obj, m)))
    case _ =>
      if IsObject(cb) then Failure(ObjectUsedAsArray) else Failure(TypeError)
  }

  /** Whether makeClosure calls the PSR container's get(): for a pair of
      strings naming no static method of an existing class, when the PSR
      container has the first string.  fromCallable may still fail after
      that call. */
  predicate AsksProvider(reg: Registry, view: ProviderView, cb: Value) {
    && cb.Arr?
    && var target := Lookup(cb.entries, IntKey(0));
    var named := Lookup(cb.entries, IntKey(1));
    && target.Some? && target.value.Str? && named.Some? && named.value.Str?
    && !(reg.ClassExists(target.value.s)
         && (named.value.s !in reg.classes[target.value.s].methods
             || reg.classes[target.value.s].methods[named.value.s]))
    && view.Has(target.value.s)
  }

  /** The handle is a method bound to an object the PSR container gave. */
  predicate FromProviderHandle(r: Result<Handle, Error>) {
    r.Success? && r.value.OfInstance? && r.value.instance.FromProvider?
  }

  // ---------------------------------------------------------------------
  // makeInstance

  /** What the PSR container has always wins, even over a class that could
      be built locally. */
  lemma ProviderPrecedesConstruction(reg: Registry, view: ProviderView, cls: string)
    requires view.Has(cls)
    ensures InstanceFor(reg, view, cls) == Success(FromProvider(cls, view.entries[cls]))
  {
  }

  /** Without an entry in the PSR container, an object is built locally
      exactly when the class is instantiable with a parameterless
      constructor; the error otherwise is PsrContainerRequired when no PSR
      container is bound and ClassNotFound when one is. */
  lemma LocalConstructionOrError(reg: Registry, view: ProviderView, cls: string)
    requires !view.Has(cls)
    ensures InstanceFor(reg, view, cls).Success? <==> LocallyConstructible(reg, cls)
    ensures InstanceFor(reg, view, cls).Success? ==> InstanceFor(reg, view, cls).value == Constructed(cls)
    ensures InstanceFor(reg, view, cls).Failure? ==>
      InstanceFor(reg, view, cls).error == (if view.NoProvider? then PsrContainerRequired else ClassNotFound)
  {
  }

  /** The PSR container is asked for an object exactly when it has the key. */
  lemma ProviderAskedOnlyWhenItHasTheKey(reg: Registry, view: ProviderView, cls: string)
    ensures (InstanceFor(reg, view, cls).Success? && InstanceFor(reg, view, cls).value.FromProvider?)
      <==> view.Has(cls)
  {
  }

  // ---------------------------------------------------------------------
  // makeClosure

  /** A static method of an existing class never needs an object, so the
      PSR container makes no difference: the closure exists exactly when
      the method can be called from the container's scope. */
  lemma StaticMethodNeedsNoProvider(reg: Registry, view: ProviderView, cls: string, m: string)
    requires reg.ClassExists(cls) && m in reg.classes[cls].methods && reg.classes[cls].methods[m]
    ensures ResolveCallback(reg, view, Pair(cls, m)) ==
      if reg.isCallable(Pair(cls, m)) then Success(OfStatic(cls, m)) else Failure(TypeError)
    ensures ResolveCallback(reg, view, Pair(cls, m)) == ResolveCallback(reg, NoProvider, Pair(cls, m))
  {
    PairIsStringPair(cls, m);
  }

  /** A non-static method, or a DI-container key, is bound to the object
      makeInstance supplies: it fails as makeInstance fails, and otherwise
      with a TypeError exactly when that object's method cannot be called
      from the container's scope. */
  lemma InstanceMethodUsesInstanceFor(reg: Registry, view: ProviderView, cls: string, m: string)
    requires !reg.ClassExists(cls) || (m in reg.classes[cls].methods && !reg.classes[cls].methods[m])
    ensures var r := ResolveCallback(reg, view, Pair(cls, m));
      var obj := InstanceFor(reg, view, cls);
      && (obj.Failure? ==> r == Failure(obj.error))
      && (obj.Success? ==>
            r == (if reg.isCallable(BoundPair(obj.value, m)) then Success(OfInstance(obj.value, m))
                  else Failure(TypeError)))
  {
    PairIsStringPair(cls, m);
  }

  /** A callback setCallback can store fails to resolve only through
      reflection (a missing method), makeInstance, or fromCallable; and
      fromCallable's TypeError comes only from a method PHP cannot call
      from the container's scope. */
  lemma StoredCallbackFailures(reg: Registry, view: ProviderView, cb: Value)
    requires (cb.Str? && reg.isCallable(cb)) || IsStringPair(cb)
    ensures var r := ResolveCallback(reg, view, cb);
      && (r.Failure? ==> r.error in {ReflectionFailure, PsrContainerRequired, ClassNotFound, TypeError})
      && (cb.Str? ==> r == Success(OfFunction(cb.s)))
      && (IsStringPair(cb) && r == Failure(TypeError) ==>
            var cls := Lookup(cb.entries, IntKey(0)).value.s;
            var m := Lookup(cb.entries, IntKey(1)).value.s;
            if reg.ClassExists(cls) && m in reg.classes[cls].methods && reg.classes[cls].methods[m] then
              !reg.isCallable(cb)
            else InstanceFor(reg, view, cls).Success? && !reg.isCallable(BoundPair(InstanceFor(reg, view, cls).value, m)))
  {
  }

  /** get() is called exactly for the callbacks AsksProvider names: a
      closure bound to a PSR container's object comes only from such a
      callback, and such a callback yields that closure or fromCallable's
      TypeError. */
  lemma ProviderAskedForKeysOnly(reg: Registry, view: ProviderView, cb: Value)
    ensures FromProviderHandle(ResolveCallback(reg, view, cb)) ==> AsksProvider(reg, view, cb)
    ensures AsksProvider(reg, view, cb) ==>
      var r := ResolveCallback(reg, view, cb);
      FromProviderHandle(r) || r == Failure(TypeError)
  {
  }
}
