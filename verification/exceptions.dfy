/** The runtime objects the crash reporter inspects: exception objects with their
    type, message, managed stack-trace text, data, native frames and causes. These
    are inputs produced by the .NET runtime; the model takes them as values. */
module Exceptions {
  import opened Common

  /** System.Type as the client reads it: FullName, Name and GenericTypeArguments. */
  datatype TypeInfo = TypeInfo(fullName: string, name: string, genericArguments: seq<TypeInfo>)

  /** A frame of System.Diagnostics.StackTrace(exception): whether it has a native
      image, and GetNativeIP / GetNativeImageBase. */
  datatype NativeFrame = NativeFrame(hasNativeImage: bool, ip: int, imageBase: int)

  /** The causes of an exception: an AggregateException (or a subclass) holds an
      ordered list of inner exceptions, any other exception at most one. */
  datatype Causes = Single(inner: Option<Exc>) | Aggregate(inners: seq<Exc>)

  /** An exception object. `stackTrace` is Exception.StackTrace (null when the
      exception was never thrown); `frames` is what StackTrace.GetFrames() yields
      for it (None when it yields null). */
  datatype Exc = Exc(
    exceptionType: TypeInfo,
    message: string,
    stackTrace: Option<string>,
    data: Data,
    frames: Option<seq<NativeFrame>>,
    causes: Causes)

  /** Exception.InnerException; for an AggregateException it is the first of its
      inner exceptions. */
  function InnerException(e: Exc): (r: Option<Exc>)
    ensures e.causes.Single? ==> r == e.causes.inner
    ensures e.causes.Aggregate? ==> (r.Some? <==> e.causes.inners != [])
  {
    match e.causes
    case Single(inner) => inner
    case Aggregate(inners) => if inners == [] then None else Some(inners[0])
  }
}
