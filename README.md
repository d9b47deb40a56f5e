# callback-container in Dafny

A model of `Movephp\CallbackContainer\Container` and `Parameter`. A
container holds one callable specification. The specification can be a
closure, a function name, a `"Class::method()"` string, an
`[object, method]` array or a `[classOrDiKey, method]` array. The
container keeps it in one of two forms:

- as a serializable **callback**: a function name, or a pair of strings
  naming a class or a DI-container key and a method;
- as a **closure**, when the callable cannot be rebuilt later (an
  anonymous function, or anything involving an anonymous class).

From a callback it builds the closure on demand. For a DI-container key it
gets the object from a PSR-11 container. It also reports the callable's
parameters as `Parameter` records. It serializes to
`['callback' => ..., 'parameters' => ...]` and checks that array again
when it is unserialized.

Modules, one per file:

| file | module | what it holds |
|---|---|---|
| `wrappers.dfy` | `Wrappers` | `Option`, `Result` |
| `errors.dfy` | `Errors` | one constructor per exception class the container raises, plus the engine errors (`TypeError`, object used as array) |
| `parameter.dfy` | `Parameters` | the immutable `Parameter` record and its constructor from a reflection answer |
| `php_values.dfy` | `PhpValues` | PHP values; arrays are ordered key/value entries |
| `reflection.dfy` | `Reflection` | the world the container runs in: declared classes, `is_callable`, reflected signatures; `\Closure::fromCallable`; the closures it builds, as tagged values |
| `callable_strings.dfy` | `CallableStrings` | `strpos($s, '::')` and `trim($m, '()')` |
| `classifier.dfy` | `Classifier` | `checkCallback` and the decisions of `setCallback` |
| `resolver.dfy` | `Resolver` | `makeClosure` and `makeInstance` as functions |
| `signatures.dfy` | `Signatures` | the branch `parameters()` takes and the list it builds |
| `serialization.dfy` | `Serialization` | PHP `serialize`/`unserialize` on these values, with the round trip |
| `payload.dfy` | `Payloads` | the payload array and the checks of `unserialize`, with its two loops |
| `container.dfy` | `CallbackContainer` | the classes `Provider` (a PSR container seen through `has`/`get`), `Runtime` (the static global PSR container and the registry) and `Container` |
| `scenarios.dfy` | `Scenarios` | the callables of `tests/ContainerTest.php` on the fixture classes |

`Container` is a class whose methods update its fields in place, as the
PHP object does. `Make` works on a fresh clone. `Closure` and `Parameters`
cache into the receiver. `Provider.Get` counts its calls, so the model can
state how often the PSR container is asked. Each method is proved against a
function of the pure modules (`Classify`, `ResolveCallback`, `InstanceFor`,
`ParametersFrom`, `ReadPayload`), and the properties are proved as lemmas
about those functions.

`\Closure::fromCallable` succeeds exactly when `is_callable`, asked from
inside the container's class, accepts the value it is given, and throws a
`TypeError` otherwise (`Reflection.FromCallable`). So a private or protected
method, or a method the object bound to a DI-container key does not have,
makes `closure()` fail with a `TypeError`; `make()` does so only for a
static method of an anonymous class, the one case it builds a closure from
a class and method name.

Where the repository's parts disagree, the model follows the code:

- `tests/ContainerTest.php:348-366` expects an `\InvalidArgumentException` for
  the three corrupted payloads. `unserialize` (`src/Container.php:161-175`)
  raises `\BadMethodCallException` for all three, because none of them is an
  array with both fields. `Payloads.CorruptedPayloadsAreMalformed` and
  `Payloads.StringPayloadIsMalformed` state the code's behaviour.
- `unserialize` leaves a held closure in place. When a global PSR container
  is set, it replaces whatever PSR container the object had.
- `unserialize` checks the callback only with `checkCallback`. A
  `"Class::method"` string is therefore stored unsplit. `closure()` passes
  it to `\Closure::fromCallable` as a string, which fails with a `TypeError`
  unless PHP considers the string callable.

## Model

| member | source | states |
|---|---|---|
| Parameters.FromReflection | src/Parameter.php:57-117 | name and variadic flag are copied; the type is the declared type's text or ""; hasType holds exactly when that text is non-empty; optional holds exactly when reflection says optional AND a default is available; the default is kept then and is null otherwise |
| Parameters.FromReflectionOnto | src/Parameter.php:57-69 | every record whose default is null unless optional is what the constructor makes of some reflection answer |
| Parameters.OptionalWithoutDefault | src/Parameter.php:65-68 | an optional parameter without an available default is reported as not optional, with a null default |
| Parameters.DefaultOnlyWhenOptional | src/Parameter.php:65-68 | a non-null default is reported only for an optional parameter, and it is the default reflection supplied |
| Parameters.FromReflectionIgnoresDiscardedFacts | src/Parameter.php:57-69 | two reflection answers that agree on name, variadic flag, type text and (optional and available default) give the same record |
| CallableStrings.FindDelimiter | src/Container.php:352 | a found index is the start of a "::" |
| CallableStrings.FindDelimiterFirst | src/Container.php:352-354 | the index found is that of the first "::"; nothing is found only when the string has no "::" |
| CallableStrings.ColonFreeHasNoDelimiter | src/Container.php:257 | strpos finds no "::" in a string without a colon, so a plain function name is not split |
| CallableStrings.DelimiterAfterColonFree | src/Container.php:257-259 | in a string made of a colon-free class name, "::" and a rest, the split falls right after the class name |
| CallableStrings.TrimLeftParens | src/Container.php:261 | ltrim keeps a suffix of its input that does not start with a parenthesis |
| CallableStrings.TrimRightParens | src/Container.php:261 | rtrim keeps a prefix of its input that does not end with a parenthesis |
| CallableStrings.TrimLeftRemovesParens | src/Container.php:261 | everything ltrim removes is a parenthesis |
| CallableStrings.TrimRightRemovesParens | src/Container.php:261 | everything rtrim removes is a parenthesis |
| CallableStrings.TrimParens | src/Container.php:260-262 | the trimmed method part neither starts nor ends with a parenthesis |
| CallableStrings.TrimParensTrims | src/Container.php:261 | the result is one slice of the input, and everything before and after that slice is a parenthesis |
| CallableStrings.TrimKeepsSlice | src/Container.php:261 | the result is the slice that starts where ltrim stopped |
| CallableStrings.TrimRemovesTrailingParens | src/Container.php:261 | everything after that slice is a parenthesis |
| CallableStrings.TrimDropsCallSuffix | src/Container.php:261 | a method name followed by "()" trims back to the name |
| CallableStrings.TrimKeepsPlainName | src/Container.php:261 | a name without parentheses at its ends is left unchanged |
| Classifier.Explode | src/Container.php:352-355 | explode('::', $s, 2) on a string with "::" gives two strings under the keys 0 and 1 |
| Classifier.ClassifyObjectPair | src/Container.php:284-295 | [object, method] always succeeds, and is kept as a callback exactly when the object's class is not anonymous |
| Classifier.ClassifyNamePair | src/Container.php:301-340 | [name, method] never fails with InvalidArgument, and when stored as a callback it is stored unchanged |
| Classifier.CheckCallback | src/Container.php:347-364 | no contract of its own; its meaning is given by Classifier.ShapeCheckAcceptsExactly, Classifier.WrongSizeArrayRejected and Classifier.AcceptedArrayHasParts |
| Classifier.ShapeCheckAcceptsExactly | src/Container.php:347-364 | checkCallback accepts exactly what is_callable accepts, every string containing "::", and every array of two strings under the keys 0 and 1 |
| Classifier.WrongSizeArrayRejected | src/Container.php:356-363 | an array whose size is not two fails the check, and make() gives InvalidArgument |
| Classifier.TwoKeysDistinct | src/Container.php:357-359 | a two-entry array with the keys 0 and 1 has exactly those two keys, once each |
| Classifier.DelimitedSplits | src/Container.php:257-263 | a "::" string becomes [prefix, trimmed rest] in setCallback and a string pair in both functions |
| Classifier.AcceptedArrayHasParts | src/Container.php:277-282 | an array that passes the check has two entries, a string or an object under 0 and a string under 1 |
| Classifier.StringPairSerializable | src/Container.php:148-151 | two strings under the keys 0 and 1 form a serializable pair |
| Classifier.Classify | src/Container.php:244-341 | no contract of its own (setCallback's decision, corrected for invokable objects); its meaning is given by Classifier.InvalidArgumentExactlyWhenRejected, Classifier.ClosureKeptAsClosure, Classifier.ObjectPairClassified, Classifier.ClassNamePairClassified, Classifier.DelimitedFormMatchesPairForm and Classifier.ClassifiedCallbackRestorable |
| Classifier.InvalidArgumentExactlyWhenRejected | src/Container.php:246-251 | make() fails with InvalidArgument if and only if checkCallback rejects the specification |
| Classifier.SplitAfterClass | src/Container.php:257-263 | "Class::" followed by a rest becomes [Class, trimmed rest] |
| Classifier.CallFormMatchesPairForm | src/Container.php:257-263 | "Class::method()" has the same outcome as [Class, method] |
| Classifier.NameFormMatchesPairForm | src/Container.php:257-263 | "Class::method" has the same outcome as [Class, method] |
| Classifier.ClassifiedCallbackRestorable | src/Container.php:265-340 | a callback that setCallback stores passes checkCallback again, is serializable, and is a function name without "::" or a pair of strings |
| Classifier.NamePairWithAndWithoutProvider | src/Container.php:330-340 | for [name, method] a PSR container changes only the outcome for a name that is no class: PsrContainerRequired without one, stored with one |
| Classifier.ProviderOnlyUnblocksKeys | src/Container.php:330-340 | for every specification the PSR container either changes nothing, or turns PsrContainerRequired into a stored DI-container key |
| Classifier.ClosureKeptAsClosure | src/Container.php:246-268 | for every world that satisfies what PHP guarantees, an anonymous function is kept as the closure, with or without a PSR container |
| Classifier.ObjectPairClassified | src/Container.php:284-295 | [object, method] is stored as [get_class(object), method] for a named class, and as a closure bound to the object for an anonymous one |
| Classifier.ClassNamePairClassified | src/Container.php:301-340 | [class, method] is decided in order: missing method, CantBeInvoked, anonymous class (static: a closure when the container can call the method, else the TypeError of fromCallable; non-static: UnacceptableCallable), stored; a name that is no class needs a PSR container |
| Classifier.DelimitedFormMatchesPairForm | src/Container.php:257-263 | "Class::rest" has the same outcome as [Class, trim(rest, '()')] |
| Classifier.StoredCallbackNotNull | src/Container.php:253-340 | a stored callback is a string or an array, never null |
| Classifier.ClassifyAsWritten | src/Container.php:244-341 | no contract of its own (setCallback exactly as written); its meaning is given by Classifier.InvokableObjectAsWritten and Classifier.AsWrittenAgreesOtherwise |
| Classifier.InvokableObjectAsWritten | src/Container.php:265-282 | as written, an invokable non-Closure object fails at `$callback[0]`; corrected, it becomes a closure |
| Classifier.AsWrittenAgreesOtherwise | src/Container.php:244-341 | the written and corrected classifiers agree on every specification that is not an object |
| Resolver.InstanceFor | src/Container.php:391-416 | no contract of its own; its meaning is given by Resolver.ProviderPrecedesConstruction, Resolver.LocalConstructionOrError and Resolver.ProviderAskedOnlyWhenItHasTheKey |
| Resolver.ProviderPrecedesConstruction | src/Container.php:393-394 | a key the PSR container has always yields the object get() returns |
| Resolver.LocalConstructionOrError | src/Container.php:395-415 | without the key, `new $class()` happens exactly for an instantiable class with a parameterless constructor; otherwise PsrContainerRequired without a PSR container and ClassNotFound with one |
| Resolver.ProviderAskedOnlyWhenItHasTheKey | src/Container.php:393-394 | the object comes from the PSR container if and only if it has the key |
| Resolver.ResolveCallback | src/Container.php:370-383 | no contract of its own; its meaning is given by Resolver.StaticMethodNeedsNoProvider, Resolver.InstanceMethodUsesInstanceFor, Resolver.StoredCallbackFailures and Resolver.ProviderAskedForKeysOnly |
| Resolver.StaticMethodNeedsNoProvider | src/Container.php:373-378 | a static method of an existing class becomes a static closure exactly when the container can call it, and is a TypeError otherwise, whatever the PSR container |
| Resolver.InstanceMethodUsesInstanceFor | src/Container.php:373-381 | a non-static method or a DI key fails with makeInstance's error when makeInstance fails; otherwise it is bound to makeInstance's object exactly when the container can call that object's method, and is a TypeError when it cannot |
| Resolver.StoredCallbackFailures | src/Container.php:370-383 | a callback setCallback can store resolves a function name to its closure; it fails only with ReflectionFailure, PsrContainerRequired, ClassNotFound or TypeError, and the TypeError only for a method the container cannot call |
| Resolver.ProviderAskedForKeysOnly | src/Container.php:377-394 | a closure bound to the PSR container's object comes only from a callback for which get() is called; such a callback gives that closure or fromCallable's TypeError |
| Signatures.SignatureSourceFor | src/Container.php:215-228 | no contract of its own; its meaning is given by Signatures.HeldClosureWins and Signatures.ClassMethodNeedsNoClosure |
| Signatures.SignatureTargetFor | src/Container.php:215-228 | no contract of its own; its meaning is given by Signatures.ParametersFollowSignature and Signatures.KeyParametersNeedClosure |
| Signatures.ParametersFrom | src/Container.php:213-234 | a computed list is an array of Parameter records that can be serialized |
| Signatures.ParameterList | src/Container.php:229-231 | one record per reflected parameter, entry i holding the record of parameter i under the key i, so the array is in signature order |
| Signatures.AppendParametersAsWritten | src/Container.php:229-233 | the loop that appends to a null list, as written: the list stays null exactly for an empty signature, and then the return is a TypeError; otherwise it is the list of records and is returned |
| Signatures.EmptySignatureCorrected | src/Container.php:213-234 | corrected, a callable without parameters gives the empty array |
| Signatures.ClassMethodNeedsNoClosure | src/Container.php:220-227 | [class, method] of an existing class is reflected directly; a DI key goes through the closure |
| Signatures.HeldClosureWins | src/Container.php:216-217 | a held closure is always what is reflected on |
| Signatures.ParametersFollowSignature | src/Container.php:213-234 | the list exists exactly when reflection can read the chosen target, and holds one record per reported parameter, in order |
| Signatures.KeyParametersNeedClosure | src/Container.php:225-227 | for a DI key, the signature exists exactly when building the closure succeeds, and it is that closure's |
| Serialization.Encode | src/Container.php:148-151 | no contract of its own; its meaning is given by Serialization.DecodeEncode and Serialization.UnserializeSerialize |
| Serialization.Put | src/Container.php:161 | inserting while unserializing keeps keys distinct and values serializable; a new key is appended |
| Serialization.DecodeValue | src/Container.php:161 | a decoded value is serializable and consumes input |
| Serialization.DecodeEntries | src/Container.php:161 | decoded entries form a serializable array |
| Serialization.Unserialize | src/Container.php:161 | unserialize always yields a serializable value: the decoded value, and false for input it cannot read |
| Serialization.DecodeEncode | src/Container.php:148-161 | decoding what was encoded gives the value back and leaves what follows untouched |
| Serialization.DecodeEncodeFrom | src/Container.php:148-161 | the same for the entries of an array from any index on |
| Serialization.PrefixSerializable | src/Container.php:148-151 | a prefix of a serializable array is serializable |
| Serialization.PutExtendsPrefix | src/Container.php:161 | re-reading entry i after the first i entries appends it |
| Serialization.UnserializeSerialize | src/Container.php:148-161 | unserialize(serialize(v)) == v for every serializable value |
| Payloads.Payload | src/Container.php:148-151 | the payload array holds the callback under 'callback' and the list under 'parameters' |
| Payloads.ReadPayload | src/Container.php:159-203 | an accepted callback passes checkCallback and is serializable; accepted parameters are null or Parameter records |
| Payloads.FieldsSerializable | src/Container.php:177-186 | the fields read from a serializable array are serializable |
| Payloads.MissingField | src/Container.php:168-175 | the loop reports no missing field exactly when both fields exist; it reports 'parameters' only after 'callback' was found |
| Payloads.AllParameters | src/Container.php:194-201 | the loop accepts exactly the arrays whose every value is a Parameter |
| Payloads.ReadingOfPayload | src/Container.php:159-203 | reading a written payload sees exactly the written callback and list, and refuses it only for a bad callback or a bad list |
| Payloads.PayloadReadsBack | src/Container.php:140-203 | a checked callback and a valid list are read back unchanged |
| Payloads.GarbageIsMalformed | src/Container.php:161-167 | input unserialize cannot read is a BadMethodCall |
| Payloads.CorruptedPayloadsAreMalformed | src/Container.php:161-175 | a serialized object, or ['non', 'callable', 'array'], is a BadMethodCall |
| Payloads.StringPayloadIsMalformed | src/Container.php:161-167 | a serialized string is a BadMethodCall |
| Payloads.NullCallbackRejected | src/Container.php:177-183 | a null callback is an InvalidArgument |
| Payloads.ForeignParameterRejected | src/Container.php:186-201 | a list holding anything but Parameter records is an InvalidArgument, found after the callback was read |
| CallbackContainer.Provider.Get | src/Container.php:393-394 | get() returns the class stored for the key and counts one call |
| CallbackContainer.Runtime.constructor | src/Container.php:24 | the global PSR container starts unset |
| CallbackContainer.Runtime.SetPsrContainerGlobal | src/Container.php:97-100 | sets the global PSR container |
| CallbackContainer.Container.constructor | src/Container.php:57-63 | the given PSR container, else the global one, else none; all fields empty |
| CallbackContainer.Container.Blank | src/Container.php:159 | the object PHP creates for unserialize, without running the constructor |
| CallbackContainer.Container.SetPsrContainer | src/Container.php:89-92 | sets the PSR container and nothing else |
| CallbackContainer.Container.CloneOf | src/Container.php:79-84 | a fresh copy that adopts the global PSR container only when it has none |
| CallbackContainer.Container.SetCallback | src/Container.php:244-341 | a rejected specification changes nothing; otherwise `original` is set and exactly the field the classification names is filled; the invariant Valid is kept |
| CallbackContainer.Container.Make | src/Container.php:106-111 | the receiver is unchanged; the fresh clone keeps the parameter list, holds a closure exactly for a closure outcome, and is serializable exactly for a callback outcome |
| CallbackContainer.Container.IsSerializable | src/Container.php:131-134 | no contract of its own; CallbackContainer.Container.Make relates it to a callback outcome and CallbackContainer.Container.Serialize to NonSerializable |
| CallbackContainer.Container.Serialize | src/Container.php:140-152 | NonSerializable exactly when no callback is held; otherwise a string that unserializes to the payload |
| CallbackContainer.Container.Unserialize | src/Container.php:159-208 | the checks in order, with what each one leaves assigned; on success the global PSR container, when set, replaces the PSR container; Valid is kept |
| CallbackContainer.Container.MakeInstance | src/Container.php:391-416 | the result of InstanceFor; get() is called once exactly when the object comes from the PSR container |
| CallbackContainer.Container.MakeClosure | src/Container.php:370-383 | the result of ResolveCallback, with fromCallable's TypeError; get() is called once exactly for a callback that names a DI key the PSR container has, even when fromCallable then fails |
| CallbackContainer.Container.Closure | src/Container.php:117-126 | a held closure is returned unchanged; without a callback CallableRequired; otherwise the closure built from the callback, which is then held; get() is called once exactly when a closure had to be built for a DI key the PSR container has |
| CallbackContainer.Container.Parameters | src/Container.php:213-234 | a cached list is returned unchanged; otherwise the list ParametersFrom gives, the empty array for a callable without parameters, which is cached on success; a DI key's closure is built, and held when built, only when no list and no closure were held, with one get() exactly when the key is asked of the PSR container; nothing else changes |
| CallbackContainer.SerializeRoundTrip | src/Container.php:140-208 | serialize(unserialize(serialize(c))) == serialize(c) |
| CallbackContainer.ClosureIsCached | src/Container.php:117-126 | two calls to closure() give the same answer; after a success the closure is held and get() was called at most once, after a failure nothing is held and get() was called at most twice |
| Scenarios.Fixtures | tests/fixtures.php:5-32 | the fixture world satisfies what PHP guarantees about is_callable |
| Scenarios.BoundFixtureMethodCallable | tests/fixtures.php:5-32 | both fixture methods, being public, can be called from the container on any object |
| Scenarios.StaticFixtureMethodCallable | tests/fixtures.php:5-32 | the public static fixture method can be called from the container on each fixture class |
| Scenarios.ThreeStringsRefused | tests/ContainerTest.php:43-49 | ['asd', 'asd', 'asd'] is an InvalidArgument |
| Scenarios.ClosureAndFunctionName | tests/ContainerTest.php:50-63 | a closure is kept as a closure and 'trim' as a callback |
| Scenarios.ObjectPairs | tests/ContainerTest.php:64-99 | [new NormalClass(), 'method'] is stored as [NormalClass, 'method']; an anonymous object becomes a closure |
| Scenarios.NormalClassPairs | tests/ContainerTest.php:70-81 | both NormalClass pairs are stored |
| Scenarios.NonInstantiablePairs | tests/ContainerTest.php:113-125 | NonInstantiableClass: CantBeInvoked for the instance method, stored for the static one |
| Scenarios.AnonymousClassPairs | tests/ContainerTest.php:100-112 | anonymous class: UnacceptableCallable for the instance method, a closure for the static one |
| Scenarios.CallStringForm | tests/ContainerTest.php:82-87 | "NormalClass::method()" is stored as [NormalClass, 'method'] |
| Scenarios.NameStringForm | tests/ContainerTest.php:88-93 | "NormalClass::staticMethod" is stored as [NormalClass, 'staticMethod'] |
| Scenarios.KeyPair | tests/ContainerTest.php:126-184 | ['PsrContainerKey', 'method'] is PsrContainerRequired without a PSR container and stored with one |
| Scenarios.KeyClosureFromProvider | tests/ContainerTest.php:198-220 | a stored key the PSR container has resolves to a closure bound to get()'s object |
| Scenarios.KeyClosureWithoutEntry | tests/ContainerTest.php:223-236 | a stored key resolves to ClassNotFound when the PSR container lacks it, and to PsrContainerRequired without one |
| Scenarios.FixtureClosures | tests/ContainerTest.php:143-158 | [NormalClass, 'method'] is bound to a new NormalClass; a static method needs no object |
| Scenarios.KeyContainerRestoredWithoutProvider | tests/ContainerTest.php:371-381 | a container made for a DI-container key with a PSR container that lacks the key, serialized and restored with no global PSR container, fails closure() with PsrContainerRequired |

## Left out

- The `$parameterClass` constructor argument and its subclass check (`src/Container.php:64-73`) are not modelled: the model builds `Parameter` records only.
- Reflection, `is_callable`, `class_exists` and the signatures reflection reports are an explicit registry (`Reflection.Registry`), not PHP's runtime; class names and method names are compared exactly, without PHP's case-insensitive lookup of either (`class_exists`, `getMethod`, `is_callable`) or its leading-backslash handling.
- Calling the callable (`call_user_func`, the closure's body) is not modelled: a closure is a tag recording how it was built.
- The PSR container is seen only through `has`/`get` and the class of the object `get` returns; its own exceptions are not modelled.
- `src/ContainerInterface.php` only declares the public methods; it has no behaviour of its own.
- The byte format of `serialize` and the `C:` wrapper of `Serializable` are replaced by a token sequence with the same structure; `original` is not part of the payload, as in the source.
- Exception messages are not modelled, only which exception is raised.
- Parameters.Constant: float, array and constant-expression defaults are not distinguished from null, booleans, integers and strings.
- CallbackContainer.ClosureIsCached: states bounds on the calls to get() rather than the exact count, which the contracts of MakeClosure and Closure give.
- Reflection.FromCallable: visibility, `__call`/`__callStatic` and the calling scope are not modelled themselves; they reach the model only through the registry's `is_callable` answer for the container's scope.
- Resolver.ResolveCallback: a string callback becomes a function closure tag whenever `is_callable` accepts it, so a callable "Class::staticMethod" string stored by unserialize is tagged as a function name.

## Findings

| source | as written | input that shows it | evidently intended | confidence | as-written member | corrected member |
|---|---|---|---|---|---|---|
| src/Container.php:265-282 | an invokable object that is not a `\Closure` passes `is_callable`, skips the closure and string branches, and reaches `$callback[0]`, which PHP refuses for objects | `make(new class { public function __invoke() {} })` | keep it as a closure, like the other callables that cannot be rebuilt | high, not executed | Classifier.InvokableObjectAsWritten | Classifier.Classify |
| src/Container.php:229-233 | the list is built by appending to null, so a callable without parameters leaves it null, and returning null from `: array` under strict types is a `TypeError`; nothing is cached, so every later call fails again | `parameters()` on a container made from `function () {}` | return and cache an empty array | high, not executed | Signatures.AppendParametersAsWritten | CallbackContainer.Container.Parameters |
