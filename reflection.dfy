/** What the container asks PHP's reflection and builtins, as an explicit
    registry, and the closures the container builds, as tagged values that
    say how they were built. */
module Reflection {
  import opened Wrappers
  import opened Parameters
  import opened PhpValues
  import opened Errors

  /** What \ReflectionClass says about one existing class.  `methods` maps
      each method name to whether it is static. */
  datatype ClassInfo = ClassInfo(
    isAnonymous: bool,
    isInstantiable: bool,
    constructorHasParameters: bool,
    methods: map<string, bool>)

  /** Where the object a closure is bound to came from. */
  datatype Instance =
    | GivenObject(cls: string)               // the object of an [object, method] specification
    | FromProvider(key: string, cls: string) // PSR container get(key), an object of class cls
    | Constructed(cls: string)               // `new $class()`

  /** A \Closure the container holds, identified by how it was made. */
  datatype Handle =
    | GivenClosure(id: nat)                  // the anonymous function passed to make()
    | OfFunction(name: string)               // Closure::fromCallable("name")
    | OfStatic(cls: string, methodName: string)  // Closure::fromCallable([class, staticMethod])
    | OfInstance(instance: Instance, methodName: string) // Closure::fromCallable([object, method])
    | OfInvokable(cls: string)               // Closure::fromCallable(invokableObject)

  /** What a signature is read from. */
  datatype Target =
    | FunctionTarget(name: string)               // new \ReflectionFunction(name)
    | MethodTarget(cls: string, methodName: string)  // new \ReflectionMethod(class, method)
    | ClosureTarget(handle: Handle)              // new \ReflectionFunction(closure)

  /** The world the container runs in: the declared classes (class_exists,
      \ReflectionClass), is_callable, and the parameter lists reflection
      reports (None when reflection throws).  `isCallable` answers from the
      container's own scope, so a private or protected method of another
      class, or a method the object does not have, is not callable. */
  datatype Registry = Registry(
    classes: map<string, ClassInfo>,
    isCallable: Value -> bool,
    signature: Target -> Option<seq<ReflectedParameter>>)
  {
    /** What PHP guarantees about is_callable: only strings, objects and
        two-element [class-or-object, method] arrays are ever callable, and
        every \Closure is. */
    ghost predicate Wf() {
      && (forall v :: isCallable(v) ==> CallableShape(v))
      && (forall id: nat :: isCallable(Closure(id)))
    }

    predicate ClassExists(cls: string) { cls in classes }

    predicate IsAnonymousClass(cls: string) {
      cls in classes && classes[cls].isAnonymous
    }
  }

  predicate CallableShape(v: Value) {
    || v.Str?
    || IsObject(v)
    || (&& v.Arr? && |v.entries| == 2
        && HasKey(v.entries, IntKey(0))
        && (var target := Lookup(v.entries, IntKey(0)).value; target.Str? || IsObject(target))
        && StringAt(v.entries, 1))
  }

  /** `[$object, $method]` for the object an instance stands for. */
  function BoundPair(obj: Instance, m: string): (v: Value)
    ensures v.Arr? && |v.entries| == 2
  {
    Arr([Entry(IntKey(0), Object(obj.cls)), Entry(IntKey(1), Str(m))])
  }

  /** \Closure::fromCallable($v) called by the container: the closure `h`
      when PHP can call `v` from the container's scope, and a TypeError
      otherwise. */
  function FromCallable(reg: Registry, v: Value, h: Handle): (r: Result<Handle, Error>)
    ensures r.Success? <==> reg.isCallable(v)
    ensures r.Success? ==> r.value == h
    ensures r.Failure? ==> r.error == TypeError
  {
    if reg.isCallable(v) then Success(h) else Failure(TypeError)
  }
}
