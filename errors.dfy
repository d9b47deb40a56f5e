/** The exceptions the container raises, one constructor per PHP class. */
module Errors {

  datatype Error =
    | InvalidArgument       // \InvalidArgumentException
    | BadMethodCall         // \BadMethodCallException
    | CantBeInvoked         // Exception\CantBeInvokedException
    | UnacceptableCallable  // Exception\UnacceptableCallableException
    | PsrContainerRequired  // Exception\PsrContainerRequired
    | ClassNotFound         // Exception\ClassNotFound
    | CallableRequired      // Exception\CallableRequired
    | NonSerializable       // Exception\NonSerializableException
    | ReflectionFailure     // \ReflectionException: the named method or function does not exist
    | TypeError             // \TypeError thrown by the engine (strict types, Closure::fromCallable)
    | ObjectUsedAsArray     // \Error "Cannot use object ... as array"
}
