/** The callables the container's own test table exercises, on a small
    world with the two fixture classes, an anonymous class and the function
    trim. */
module Scenarios {
  import opened Wrappers
  import opened Errors
  import opened PhpValues
  import opened Reflection
  import opened Classifier
  import opened Resolver
  import opened CallableStrings
  import opened Payloads
  import opened CallbackContainer

  const Normal: string := "Fixtures\\NormalClass"
  const NonInstantiable: string := "Fixtures\\NonInstantiableClass"
  const Anonymous: string := "class@anonymous"
  const Key: string := "PsrContainerKey"

  /** Both fixture classes declare `method` and the static `staticMethod`. */
  const FixtureMethods: map<string, bool> := map["method" := false, "staticMethod" := true]

  /** A two-element array holding an object under 0 and one of the fixture
      method names under 1. */
  predicate ObjectMethodArray(v: Value) {
    && v.Arr? && |v.entries| == 2
    && HasKey(v.entries, IntKey(0)) && IsObject(Lookup(v.entries, IntKey(0)).value)
    && StringAt(v.entries, 1) && Lookup(v.entries, IntKey(1)).value.s in FixtureMethods
  }

  /** [class, 'staticMethod'] for one of the three classes: every fixture
      method is public, so the container can call the static ones. */
  predicate StaticFixtureCall(v: Value) {
    && IsStringPair(v)
    && Lookup(v.entries, IntKey(0)).value.s in {Normal, NonInstantiable, Anonymous}
    && Lookup(v.entries, IntKey(1)).value.s == "staticMethod"
  }

  function Fixtures(): (reg: Registry)
    ensures reg.Wf()
  {
    Registry(
      map[Normal := ClassInfo(false, true, false, FixtureMethods),
          NonInstantiable := ClassInfo(false, false, false, FixtureMethods),
          Anonymous := ClassInfo(true, true, false, FixtureMethods)],
      v => v == Str("trim") || v.Closure? || ObjectMethodArray(v) || StaticFixtureCall(v),
      t => None)
  }

  /** The fixture methods can be called on any object from the container. */
  lemma BoundFixtureMethodCallable(obj: Instance, m: string)
    requires m in FixtureMethods
    ensures Fixtures().isCallable(BoundPair(obj, m))
  {
    LookupOfTwo(BoundPair(obj, m).entries, IntKey(0));
    LookupOfTwo(BoundPair(obj, m).entries, IntKey(1));
  }

  /** So can the static fixture methods named by class. */
  lemma StaticFixtureMethodCallable(cls: string)
    requires cls in {Normal, NonInstantiable, Anonymous}
    ensures Fixtures().isCallable(Pair(cls, "staticMethod"))
  {
    PairIsStringPair(cls, "staticMethod");
  }

  /** ['asd', 'asd', 'asd'] is refused with InvalidArgument. */
  lemma ThreeStringsRefused(hasProvider: bool)
    ensures Classify(Fixtures(), hasProvider, Arr([Entry(IntKey(0), Str("asd")), Entry(IntKey(1), Str("asd")),
                                                  Entry(IntKey(2), Str("asd"))])) == Failure(InvalidArgument)
  {
    WrongSizeArrayRejected(Fixtures(), hasProvider, [Entry(IntKey(0), Str("asd")), Entry(IntKey(1), Str("asd")),
                                                      Entry(IntKey(2), Str("asd"))]);
  }

  /** A closure is kept as a closure and 'trim' as a callback. */
  lemma ClosureAndFunctionName(hasProvider: bool)
    ensures Classify(Fixtures(), hasProvider, Closure(1)) == Success(AsClosure(GivenClosure(1)))
    ensures Classify(Fixtures(), hasProvider, Str("trim")) == Success(AsCallback(Str("trim")))
  {
    ClosureKeptAsClosure(Fixtures(), hasProvider, 1);
    ColonFreeHasNoDelimiter("trim");
    assert Fixtures().isCallable(Str("trim"));
    AcceptedIsClassifiedAfterSplit(Fixtures(), hasProvider, Str("trim"));
  }

  /** [new NormalClass(), 'method'] is stored as [NormalClass, 'method'];
      the anonymous object becomes a closure bound to it. */
  lemma ObjectPairs(hasProvider: bool)
    ensures Classify(Fixtures(), hasProvider, Arr([Entry(IntKey(0), Object(Normal)), Entry(IntKey(1), Str("method"))]))
      == Success(AsCallback(Pair(Normal, "method")))
    ensures Classify(Fixtures(), hasProvider, Arr([Entry(IntKey(0), Object(Anonymous)), Entry(IntKey(1), Str("method"))]))
      == Success(AsClosure(OfInstance(GivenObject(Anonymous), "method")))
  {
    var reg := Fixtures();
    var named := Arr([Entry(IntKey(0), Object(Normal)), Entry(IntKey(1), Str("method"))]);
    var anon := Arr([Entry(IntKey(0), Object(Anonymous)), Entry(IntKey(1), Str("method"))]);
    LookupOfTwo(named.entries, IntKey(0));
    LookupOfTwo(named.entries, IntKey(1));
    LookupOfTwo(anon.entries, IntKey(0));
    LookupOfTwo(anon.entries, IntKey(1));
    assert reg.isCallable(named) && reg.isCallable(anon);
    ObjectPairClassified(reg, hasProvider, Object(Normal), "method");
    ObjectPairClassified(reg, hasProvider, Object(Anonymous), "method");
  }

  /** [NormalClass, 'method'] and [NormalClass, 'staticMethod'] are stored. */
  lemma NormalClassPairs(hasProvider: bool)
    ensures Classify(Fixtures(), hasProvider, Pair(Normal, "method")) == Success(AsCallback(Pair(Normal, "method")))
    ensures Classify(Fixtures(), hasProvider, Pair(Normal, "staticMethod"))
      == Success(AsCallback(Pair(Normal, "staticMethod")))
  {
    ClassNamePairClassified(Fixtures(), hasProvider, Normal, "method");
    ClassNamePairClassified(Fixtures(), hasProvider, Normal, "staticMethod");
  }

  /** The instance method of the non-instantiable class is CantBeInvoked;
      its static method is stored. */
  lemma NonInstantiablePairs(hasProvider: bool)
    ensures Classify(Fixtures(), hasProvider, Pair(NonInstantiable, "method")) == Failure(CantBeInvoked)
    ensures Classify(Fixtures(), hasProvider, Pair(NonInstantiable, "staticMethod"))
      == Success(AsCallback(Pair(NonInstantiable, "staticMethod")))
  {
    ClassNamePairClassified(Fixtures(), hasProvider, NonInstantiable, "method");
    ClassNamePairClassified(Fixtures(), hasProvider, NonInstantiable, "staticMethod");
  }

  /** The anonymous class's instance method is UnacceptableCallable; its
      static method becomes a closure. */
  lemma AnonymousClassPairs(hasProvider: bool)
    ensures Classify(Fixtures(), hasProvider, Pair(Anonymous, "method")) == Failure(UnacceptableCallable)
    ensures Classify(Fixtures(), hasProvider, Pair(Anonymous, "staticMethod"))
      == Success(AsClosure(OfStatic(Anonymous, "staticMethod")))
  {
    ClassNamePairClassified(Fixtures(), hasProvider, Anonymous, "method");
    ClassNamePairClassified(Fixtures(), hasProvider, Anonymous, "staticMethod");
    StaticFixtureMethodCallable(Anonymous);
  }

  /** "NormalClass::method()" is stored as [NormalClass, 'method']. */
  lemma CallStringForm(hasProvider: bool)
    ensures Classify(Fixtures(), hasProvider, Str(Normal + "::method()"))
      == Success(AsCallback(Pair(Normal, "method")))
  {
    assert Normal + "::method()" == Normal + "::" + "method" + "()";
    CallFormMatchesPairForm(Fixtures(), hasProvider, Normal, "method");
    NormalClassPairs(hasProvider);
  }

  /** "NormalClass::staticMethod" is stored as [NormalClass, 'staticMethod']. */
  lemma NameStringForm(hasProvider: bool)
    ensures Classify(Fixtures(), hasProvider, Str(Normal + "::staticMethod"))
      == Success(AsCallback(Pair(Normal, "staticMethod")))
  {
    assert Normal + "::staticMethod" == Normal + "::" + "staticMethod";
    NameFormMatchesPairForm(Fixtures(), hasProvider, Normal, "staticMethod");
    NormalClassPairs(hasProvider);
  }

  /** ['PsrContainerKey', 'method'] needs a PSR container, and is stored as
      a DI-container key when there is one. */
  lemma KeyPair()
    ensures Classify(Fixtures(), false, Pair(Key, "method")) == Failure(PsrContainerRequired)
    ensures Classify(Fixtures(), true, Pair(Key, "method")) == Success(AsCallback(Pair(Key, "method")))
  {
    ClassNamePairClassified(Fixtures(), false, Key, "method");
    ClassNamePairClassified(Fixtures(), true, Key, "method");
  }

  /** Building the closure for a stored key the PSR container has: bound
      to the object get() returns. */
  lemma KeyClosureFromProvider()
    ensures ResolveCallback(Fixtures(), Bound(map[Key := Normal]), Pair(Key, "method"))
      == Success(OfInstance(FromProvider(Key, Normal), "method"))
  {
    InstanceMethodUsesInstanceFor(Fixtures(), Bound(map[Key := Normal]), Key, "method");
    BoundFixtureMethodCallable(FromProvider(Key, Normal), "method");
  }

  /** Building the closure for a stored key fails with ClassNotFound when
      the PSR container lacks it, and with PsrContainerRequired when no PSR
      container is bound (as after an unserialize without a global one). */
  lemma KeyClosureWithoutEntry()
    ensures ResolveCallback(Fixtures(), Bound(map[]), Pair(Key, "method")) == Failure(ClassNotFound)
    ensures ResolveCallback(Fixtures(), NoProvider, Pair(Key, "method")) == Failure(PsrContainerRequired)
  {
    InstanceMethodUsesInstanceFor(Fixtures(), Bound(map[]), Key, "method");
    InstanceMethodUsesInstanceFor(Fixtures(), NoProvider, Key, "method");
  }

  /** Building the closure for the stored fixture callbacks: a new
      NormalClass for its instance method, and no object for a static
      method, even of the non-instantiable class. */
  lemma FixtureClosures(view: ProviderView)
    requires !view.Has(Normal)
    ensures ResolveCallback(Fixtures(), view, Pair(Normal, "method"))
      == Success(OfInstance(Constructed(Normal), "method"))
    ensures ResolveCallback(Fixtures(), view, Pair(NonInstantiable, "staticMethod"))
      == Success(OfStatic(NonInstantiable, "staticMethod"))
  {
    InstanceMethodUsesInstanceFor(Fixtures(), view, Normal, "method");
    LocalConstructionOrError(Fixtures(), view, Normal);
    BoundFixtureMethodCallable(Constructed(Normal), "method");
    StaticMethodNeedsNoProvider(Fixtures(), view, NonInstantiable, "staticMethod");
    StaticFixtureMethodCallable(NonInstantiable);
  }

  /** A container made for a DI-container key, serialized and restored with
      no global PSR container: the restored object has no PSR container, so
      closure() fails with PsrContainerRequired. */
  method KeyContainerRestoredWithoutProvider() returns (r: Result<Handle, Error>)
    ensures r == Failure(PsrContainerRequired)
  {
    var rt := new Runtime(Fixtures());
    var psr := new Provider(map[]);
    var factory := new Container(rt, psr);
    KeyPair();
    var made := factory.Make(rt, Pair(Key, "method"));
    var c := made.value;
    var written := c.Serialize();
    PairIsStringPair(Key, "method");
    ReadingOfPayload(rt.registry, c.callback, c.parameters);
    var d := new Container.Blank();
    var err := d.Unserialize(rt, written.value);
    r := d.Closure(rt);
    KeyClosureWithoutEntry();
  }
}
