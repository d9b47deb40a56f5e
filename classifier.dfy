/** The decision logic of Container::checkCallback and Container::setCallback:
    which specifications are accepted, and whether an accepted one is kept
    as a serializable callback or only as a closure. */
module Classifier {
  import opened Wrappers
  import opened Errors
  import opened PhpValues
  import opened Reflection
  import opened CallableStrings

  /** explode('::', $s, 2) on a string that contains "::". */
  function Explode(s: string): (v: Value)
    requires HasDelimiter(s)
    ensures IsStringPair(v)
  {
    var i := FindDelimiter(s).value;
    PairIsStringPair(s[..i], s[i + 2..]);
    Pair(s[..i], s[i + 2..])
  }

  /** The conversion checkCallback applies before its array test. */
  function SplitForCheck(v: Value): Value {
    if v.Str? && HasDelimiter(v.s) then Explode(v.s) else v
  }

  /** checkCallback: anything is_callable, or (after splitting a "::"
      string) an array of exactly two strings under the keys 0 and 1. */
  predicate CheckCallback(reg: Registry, v: Value) {
    reg.isCallable(v) || IsStringPair(SplitForCheck(v))
  }

  /** The conversion setCallback applies: split at the first "::" and trim
      every '(' and ')' from both ends of the method part. */
  function SplitForClassify(v: Value): Value {
    if v.Str? && HasDelimiter(v.s) then
      var i := FindDelimiter(v.s).value;
      Pair(v.s[..i], TrimParens(v.s[i + 2..]))
    else v
  }

  /** Which of the two fields setCallback fills. */
  datatype Stored =
    | AsClosure(handle: Handle)    // `closure`: cannot be reproduced later, not serializable
    | AsCallback(callback: Value)  // `callback`: a function name or a [class-or-key, method] array

  /** The array branch of setCallback (src/Container.php:281-340): read the
      target `$callback[0]` and the method `$callback[1]`. */
  function ClassifyPair(reg: Registry, hasProvider: bool, cb: Value): (r: Result<Stored, Error>)
    requires cb.Arr?
  {
    var target := Lookup(cb.entries, IntKey(0));
    var named := Lookup(cb.entries, IntKey(1));
    if target.None? || named.None? || !named.value.Str? then
      Failure(InvalidArgument)  // not reached once checkCallback has passed
    else if IsObject(target.value) then
      ClassifyObjectPair(reg, ClassOf(target.value), named.value.s)
    else if target.value.Str? then
      ClassifyNamePair(reg, hasProvider, target.value.s, named.value.s, cb)
    else
      Failure(InvalidArgument)  // not reached once checkCallback has passed
  }

  /** [object, method]: a named class keeps only the class name, an
      anonymous one becomes a closure bound to the object. */
  function ClassifyObjectPair(reg: Registry, cls: string, m: string): (r: Result<Stored, Error>)
    ensures r.Success?
    ensures r.value.AsCallback? <==> !reg.IsAnonymousClass(cls)
  {
    if !reg.IsAnonymousClass(cls) then Success(AsCallback(Pair(cls, m)))
    else Success(AsClosure(OfInstance(GivenObject(cls), m)))
  }

  /** [name, method] where `cb` is the array itself: the class checks in
      their fixed order, or a DI-container key when no such class exists. */
  function ClassifyNamePair(reg: Registry, hasProvider: bool, cls: string, m: string, cb: Value): (r: Result<Stored, Error>)
    ensures r != Failure(InvalidArgument)
    ensures r.Success? && r.value.AsCallback? ==> r.value.callback == cb
  {
    if reg.ClassExists(cls) then
      var info := reg.classes[cls];
      if m !in info.methods then Failure(ReflectionFailure)
      else if !info.methods[m] && !info.isInstantiable then Failure(CantBeInvoked)
      else if info.isAnonymous then
        // Closure::fromCallable($callback) on the static method
        (if !info.methods[m] then Failure(UnacceptableCallable)
         else if reg.isCallable(cb) then Success(AsClosure(OfStatic(cls, m)))
         else Failure(TypeError))
      else Success(AsCallback(cb))
    else if !hasProvider then Failure(PsrContainerRequired)
    else Success(AsCallback(cb))
  }

  /** setCallback after the split, with an invokable object kept as a
      closure (the corrected behaviour; see ClassifyAsWritten). */
  function ClassifyShape(reg: Registry, hasProvider: bool, cb: Value): Result<Stored, Error> {
    match cb
    case Closure(id) => Success(AsClosure(GivenClosure(id)))
    case Str(_) => Success(AsCallback(cb))
    case Arr(_) => ClassifyPair(reg, hasProvider, cb)
    case _ =>
      if IsObject(cb) then Success(AsClosure(OfInvokable(ClassOf(cb))))
      else Failure(InvalidArgument)  // null, booleans and integers never pass checkCallback
  }

  /** setCallback: reject what checkCallback rejects, split a "::" string,
      then classify.  `hasProvider` says whether a PSR container is bound. */
  function Classify(reg: Registry, hasProvider: bool, spec: Value): Result<Stored, Error> {
    if !CheckCallback(reg, spec) then Failure(InvalidArgument)
    else ClassifyShape(reg, hasProvider, SplitForClassify(spec))
  }

  /** setCallback exactly as written: an object that is not a \Closure falls
      through to `$callback[0]`, which PHP refuses for objects. */
  function ClassifyAsWritten(reg: Registry, hasProvider: bool, spec: Value): Result<Stored, Error> {
    if !CheckCallback(reg, spec) then Failure(InvalidArgument)
    else
      var cb := SplitForClassify(spec);
      if IsObject(cb) && !cb.Closure? then Failure(ObjectUsedAsArray)
      else ClassifyShape(reg, hasProvider, cb)
  }

  // ---------------------------------------------------------------------
  // The shape check

  /** checkCallback accepts exactly: what is_callable accepts, every string
      containing "::", and every array of two strings under keys 0 and 1. */
  lemma ShapeCheckAcceptsExactly(reg: Registry, v: Value)
    ensures CheckCallback(reg, v) <==>
      reg.isCallable(v) || (v.Str? && HasDelimiter(v.s)) || IsStringPair(v)
  {
  }

  /** An array whose size is not two, such as ['asd', 'asd', 'asd'], is
      always rejected. */
  lemma WrongSizeArrayRejected(reg: Registry, hasProvider: bool, es: seq<Entry>)
    requires reg.Wf() && |es| != 2
    ensures !CheckCallback(reg, Arr(es))
    ensures Classify(reg, hasProvider, Arr(es)) == Failure(InvalidArgument)
  {
  }

  /** A two-entry array with both keys present has them distinct, so it is
      serializable once both values are. */
  lemma TwoKeysDistinct(es: seq<Entry>)
    requires |es| == 2 && HasKey(es, IntKey(0)) && HasKey(es, IntKey(1))
    ensures KeysDistinct(es)
    ensures {es[0].key, es[1].key} == {IntKey(0), IntKey(1)}
  {
    LookupOfTwo(es, IntKey(0));
    LookupOfTwo(es, IntKey(1));
  }

  /** A string with "::" splits into an array of two strings, both for the
      shape check and for classification. */
  lemma DelimitedSplits(s: string)
    requires HasDelimiter(s)
    ensures var i := FindDelimiter(s).value;
      && SplitForClassify(Str(s)) == Pair(s[..i], TrimParens(s[i + 2..]))
      && IsStringPair(SplitForCheck(Str(s)))
      && IsStringPair(SplitForClassify(Str(s)))
  {
    var i := FindDelimiter(s).value;
    PairIsStringPair(s[..i], TrimParens(s[i + 2..]));
  }

  /** An array that passes the shape check has the two parts the array
      branch reads: a string or object under 0 and a string under 1. */
  lemma AcceptedArrayHasParts(reg: Registry, v: Value)
    requires reg.Wf() && v.Arr? && CheckCallback(reg, v)
    ensures |v.entries| == 2 && StringAt(v.entries, 1)
    ensures HasKey(v.entries, IntKey(0))
    ensures var t := Lookup(v.entries, IntKey(0)).value; t.Str? || IsObject(t)
  {
    if reg.isCallable(v) {
      assert CallableShape(v);
    } else {
      assert IsStringPair(v);
    }
  }

  /** Two strings under the keys 0 and 1 make a serializable pair. */
  lemma StringPairSerializable(es: seq<Entry>)
    requires |es| == 2 && StringAt(es, 0) && StringAt(es, 1)
    ensures IsStringPair(Arr(es)) && Serializable(Arr(es))
  {
    LookupOfTwo(es, IntKey(0));
    LookupOfTwo(es, IntKey(1));
  }

  // Three steps of setCallback, one lemma each, so that the proofs below
  // combine them instead of unfolding the whole classifier at once.

  lemma AcceptedIsClassifiedAfterSplit(reg: Registry, hasProvider: bool, spec: Value)
    requires CheckCallback(reg, spec)
    ensures Classify(reg, hasProvider, spec) == ClassifyShape(reg, hasProvider, SplitForClassify(spec))
  {
  }

  lemma ArrayGoesToPairBranch(reg: Registry, hasProvider: bool, cb: Value)
    requires cb.Arr?
    ensures ClassifyShape(reg, hasProvider, cb) == ClassifyPair(reg, hasProvider, cb)
  {
  }

  lemma PairBranchByTarget(reg: Registry, hasProvider: bool, cb: Value, target: Value, m: string)
    requires cb.Arr?
    requires Lookup(cb.entries, IntKey(0)) == Some(target)
    requires Lookup(cb.entries, IntKey(1)) == Some(Str(m))
    ensures ClassifyPair(reg, hasProvider, cb) ==
      if IsObject(target) then ClassifyObjectPair(reg, ClassOf(target), m)
      else if target.Str? then ClassifyNamePair(reg, hasProvider, target.s, m, cb)
      else Failure(InvalidArgument)
  {
  }

  /** Once the shape check has passed, the split value has the parts the
      array branch reads: classification fails with InvalidArgument exactly
      when the shape check fails. */
  lemma InvalidArgumentExactlyWhenRejected(reg: Registry, hasProvider: bool, spec: Value)
    requires reg.Wf()
    ensures Classify(reg, hasProvider, spec) == Failure(InvalidArgument) <==> !CheckCallback(reg, spec)
  {
    if CheckCallback(reg, spec) {
      AcceptedIsClassifiedAfterSplit(reg, hasProvider, spec);
      var cb := SplitForClassify(spec);
      if cb.Arr? {
        if spec.Str? {
          DelimitedSplits(spec.s);
        } else {
          AcceptedArrayHasParts(reg, spec);
        }
        ArrayGoesToPairBranch(reg, hasProvider, cb);
        PairBranchByTarget(reg, hasProvider, cb, Lookup(cb.entries, IntKey(0)).value, Lookup(cb.entries, IntKey(1)).value.s);
      }
    }
  }

  // ---------------------------------------------------------------------
  // "Class::method()" strings

  /** Splitting "Class::" followed by a method part. */
  lemma SplitAfterClass(cls: string, rest: string)
    requires ':' !in cls
    ensures SplitForClassify(Str(cls + "::" + rest)) == Pair(cls, TrimParens(rest))
    ensures IsStringPair(SplitForCheck(Str(cls + "::" + rest)))
  {
    var s := cls + "::" + rest;
    DelimiterAfterColonFree(cls, rest);
    assert s[..|cls|] == cls && s[|cls| + 2..] == rest;
    DelimitedSplits(s);
  }

  /** "Class::rest" is classified exactly as [Class, trim(rest, '()')]. */
  lemma DelimitedFormMatchesPairForm(reg: Registry, hasProvider: bool, cls: string, rest: string)
    requires ':' !in cls
    ensures Classify(reg, hasProvider, Str(cls + "::" + rest))
      == Classify(reg, hasProvider, Pair(cls, TrimParens(rest)))
  {
    var pair := Pair(cls, TrimParens(rest));
    SplitAfterClass(cls, rest);
    PairIsStringPair(cls, TrimParens(rest));
    assert CheckCallback(reg, Str(cls + "::" + rest)) && CheckCallback(reg, pair);
    AcceptedIsClassifiedAfterSplit(reg, hasProvider, Str(cls + "::" + rest));
    AcceptedIsClassifiedAfterSplit(reg, hasProvider, pair);
  }

  /** "Class::method()" is split at the first "::", the parentheses
      trimmed, and then classified exactly as the array [Class, method]. */
  lemma CallFormMatchesPairForm(reg: Registry, hasProvider: bool, cls: string, m: string)
    requires ':' !in cls
    requires m == [] || (!IsParen(m[0]) && !IsParen(m[|m| - 1]))
    ensures Classify(reg, hasProvider, Str(cls + "::" + m + "()")) == Classify(reg, hasProvider, Pair(cls, m))
  {
    assert cls + "::" + m + "()" == cls + "::" + (m + "()");
    TrimDropsCallSuffix(m);
    DelimitedFormMatchesPairForm(reg, hasProvider, cls, m + "()");
  }

  /** "Class::method" is classified exactly as the array [Class, method]. */
  lemma NameFormMatchesPairForm(reg: Registry, hasProvider: bool, cls: string, m: string)
    requires ':' !in cls
    requires m == [] || (!IsParen(m[0]) && !IsParen(m[|m| - 1]))
    ensures Classify(reg, hasProvider, Str(cls + "::" + m)) == Classify(reg, hasProvider, Pair(cls, m))
  {
    TrimKeepsPlainName(m);
    DelimitedFormMatchesPairForm(reg, hasProvider, cls, m);
  }

  // ---------------------------------------------------------------------
  // What is stored

  /** What setCallback keeps as `callback` passes the shape check again, can
      be serialized, and is a plain function name or an array of two strings:
      so unserialize accepts what serialize writes. */
  lemma ClassifiedCallbackRestorable(reg: Registry, hasProvider: bool, spec: Value)
    requires reg.Wf()
    requires Classify(reg, hasProvider, spec).Success?
    requires Classify(reg, hasProvider, spec).value.AsCallback?
    ensures var cb := Classify(reg, hasProvider, spec).value.callback;
      && CheckCallback(reg, cb) && Serializable(cb)
      && ((cb.Str? && !HasDelimiter(cb.s)) || IsStringPair(cb))
  {
    AcceptedIsClassifiedAfterSplit(reg, hasProvider, spec);
    var cb := SplitForClassify(spec);
    if cb.Arr? {
      if spec.Str? {
        DelimitedSplits(spec.s);
      } else {
        AcceptedArrayHasParts(reg, spec);
      }
      ArrayGoesToPairBranch(reg, hasProvider, cb);
      var target := Lookup(cb.entries, IntKey(0)).value;
      var m := Lookup(cb.entries, IntKey(1)).value.s;
      PairBranchByTarget(reg, hasProvider, cb, target, m);
      if IsObject(target) {
        PairIsStringPair(ClassOf(target), m);
      } else {
        StringPairSerializable(cb.entries);
        assert CheckCallback(reg, cb);
      }
    }
  }

  /** The decision for [name, method] with and without a PSR container. */
  lemma NamePairWithAndWithoutProvider(reg: Registry, cls: string, m: string, cb: Value)
    ensures
      || ClassifyNamePair(reg, true, cls, m, cb) == ClassifyNamePair(reg, false, cls, m, cb)
      || (&& ClassifyNamePair(reg, false, cls, m, cb) == Failure(PsrContainerRequired)
          && ClassifyNamePair(reg, true, cls, m, cb) == Success(AsCallback(cb))
          && !reg.ClassExists(cls))
  {
  }

  /** A PSR container only ever changes the outcome for a name that is not a
      class: without one that name fails with PsrContainerRequired, with one
      it is stored as a DI-container key. */
  lemma ProviderOnlyUnblocksKeys(reg: Registry, spec: Value)
    ensures
      || Classify(reg, true, spec) == Classify(reg, false, spec)
      || (&& Classify(reg, false, spec) == Failure(PsrContainerRequired)
          && Classify(reg, true, spec) == Success(AsCallback(SplitForClassify(spec)))
          && var t := Lookup(SplitForClassify(spec).entries, IntKey(0)).value;
             t.Str? && !reg.ClassExists(t.s))
  {
    if CheckCallback(reg, spec) {
      AcceptedIsClassifiedAfterSplit(reg, true, spec);
      AcceptedIsClassifiedAfterSplit(reg, false, spec);
      var cb := SplitForClassify(spec);
      if cb.Arr? {
        ArrayGoesToPairBranch(reg, true, cb);
        ArrayGoesToPairBranch(reg, false, cb);
        var target := Lookup(cb.entries, IntKey(0));
        var named := Lookup(cb.entries, IntKey(1));
        if target.Some? && named.Some? && named.value.Str? {
          PairBranchByTarget(reg, true, cb, target.value, named.value.s);
          PairBranchByTarget(reg, false, cb, target.value, named.value.s);
          if target.value.Str? {
            NamePairWithAndWithoutProvider(reg, target.value.s, named.value.s, cb);
          }
        }
      }
    }
  }

  /** An anonymous function is always kept as the closure, whatever the
      world and the PSR container. */
  lemma ClosureKeptAsClosure(reg: Registry, hasProvider: bool, id: nat)
    requires reg.Wf()
    ensures Classify(reg, hasProvider, Closure(id)) == Success(AsClosure(GivenClosure(id)))
  {
    assert reg.isCallable(Closure(id));
  }

  /** [object, method] keeps only get_class(object) when the class is named;
      with an anonymous class it becomes a closure bound to that object. */
  lemma ObjectPairClassified(reg: Registry, hasProvider: bool, obj: Value, m: string)
    requires reg.Wf() && IsObject(obj)
    requires reg.isCallable(Arr([Entry(IntKey(0), obj), Entry(IntKey(1), Str(m))]))
    ensures var r := Classify(reg, hasProvider, Arr([Entry(IntKey(0), obj), Entry(IntKey(1), Str(m))]));
      if reg.IsAnonymousClass(ClassOf(obj)) then r == Success(AsClosure(OfInstance(GivenObject(ClassOf(obj)), m)))
      else r == Success(AsCallback(Pair(ClassOf(obj), m)))
  {
    var v := Arr([Entry(IntKey(0), obj), Entry(IntKey(1), Str(m))]);
    LookupOfTwo(v.entries, IntKey(0));
    LookupOfTwo(v.entries, IntKey(1));
    AcceptedIsClassifiedAfterSplit(reg, hasProvider, v);
    ArrayGoesToPairBranch(reg, hasProvider, v);
    PairBranchByTarget(reg, hasProvider, v, obj, m);
  }

  /** [className, method] is decided in a fixed order: a missing method, then
      a non-static method of a non-instantiable class (CantBeInvoked), then
      an anonymous class (a closure for a static method the container can
      call, a TypeError from fromCallable for one it cannot, and
      UnacceptableCallable for a non-static one); only then is the pair
      stored.  A name that is no class is a
      DI-container key and needs a PSR container. */
  lemma ClassNamePairClassified(reg: Registry, hasProvider: bool, cls: string, m: string)
    ensures var r := Classify(reg, hasProvider, Pair(cls, m));
      && (!reg.ClassExists(cls) ==>
            r == if hasProvider then Success(AsCallback(Pair(cls, m))) else Failure(PsrContainerRequired))
      && (reg.ClassExists(cls) && m !in reg.classes[cls].methods ==> r == Failure(ReflectionFailure))
      && (reg.ClassExists(cls) && m in reg.classes[cls].methods ==>
            var isStatic := reg.classes[cls].methods[m];
            && (!isStatic && !reg.classes[cls].isInstantiable ==> r == Failure(CantBeInvoked))
            && (reg.classes[cls].isAnonymous && isStatic ==>
                  r == if reg.isCallable(Pair(cls, m)) then Success(AsClosure(OfStatic(cls, m))) else Failure(TypeError))
            && (reg.classes[cls].isAnonymous && !isStatic && reg.classes[cls].isInstantiable ==>
                  r == Failure(UnacceptableCallable))
            && (!reg.classes[cls].isAnonymous && (isStatic || reg.classes[cls].isInstantiable) ==>
                  r == Success(AsCallback(Pair(cls, m)))))
  {
    PairIsStringPair(cls, m);
    AcceptedIsClassifiedAfterSplit(reg, hasProvider, Pair(cls, m));
    ArrayGoesToPairBranch(reg, hasProvider, Pair(cls, m));
    PairBranchByTarget(reg, hasProvider, Pair(cls, m), Str(cls), m);
  }

  /** Whatever was accepted, exactly one of the two fields is filled and only
      a callback is serializable: a success is either a closure or a
      callback, and the callback is never null. */
  lemma StoredCallbackNotNull(reg: Registry, hasProvider: bool, spec: Value)
    requires Classify(reg, hasProvider, spec).Success?
    ensures var s := Classify(reg, hasProvider, spec).value;
      s.AsCallback? ==> s.callback.Str? || s.callback.Arr?
  {
    AcceptedIsClassifiedAfterSplit(reg, hasProvider, spec);
    var cb := SplitForClassify(spec);
    if cb.Arr? {
      ArrayGoesToPairBranch(reg, hasProvider, cb);
      var target := Lookup(cb.entries, IntKey(0));
      var named := Lookup(cb.entries, IntKey(1));
      if target.Some? && named.Some? && named.value.Str? {
        PairBranchByTarget(reg, hasProvider, cb, target.value, named.value.s);
      }
    }
  }

  // ---------------------------------------------------------------------
  // Finding: an invokable object that is not a \Closure

  /** As written, an invokable object passes is_callable and then fails at
      `$callback[0]`; the corrected classifier keeps it as a closure. */
  lemma InvokableObjectAsWritten(reg: Registry, hasProvider: bool, cls: string)
    requires reg.isCallable(Object(cls))
    ensures ClassifyAsWritten(reg, hasProvider, Object(cls)) == Failure(ObjectUsedAsArray)
    ensures Classify(reg, hasProvider, Object(cls)) == Success(AsClosure(OfInvokable(cls)))
  {
  }

  /** For every other specification the two agree. */
  lemma AsWrittenAgreesOtherwise(reg: Registry, hasProvider: bool, spec: Value)
    requires !(spec.Object? || spec.Param?)
    ensures ClassifyAsWritten(reg, hasProvider, spec) == Classify(reg, hasProvider, spec)
  {
  }
}
