/** The storage error taxonomy: each kind has a status code for the transport
    layer and a message naming the resource (and user) involved.

    The subclasses' constructors call `super(inner_error)` where
    `super().__init__(inner_error)` was meant. `super` demands a class as its
    first argument, so with the default `inner_error=None` (or any exception
    object) the call raises TypeError and neither subclass can be built.
    `NewResourceNotFoundAsWritten` and `NewPermissionDeniedAsWritten` model
    that call; the datatype's constructors are the intended ones. */
module StorageExceptions {
  import opened Wrappers

  /** The lower-level error an exception wraps, kept opaque. */
  datatype Cause = Cause(description: string)

  datatype StorageException =
    | StorageError(inner: Option<Cause>)
    | ResourceNotFound(resourceId: string, inner: Option<Cause>)
    | PermissionDenied(resourceId: string, userId: string, inner: Option<Cause>)

  /** `get_code()`: an HTTP status, in the client-error range exactly for
      the two kinds that name a resource. */
  function Code(e: StorageException): (r: int)
    ensures r == 500 || r == 404 || r == 403
    ensures 400 <= r < 500 <==> !e.StorageError?
  {
    match e
    case StorageError(_) => 500
    case ResourceNotFound(_, _) => 404
    case PermissionDenied(_, _, _) => 403
  }

  /** `get_message()`: a fixed text for the generic error; the not-found
      message is the resource id framed by fixed words. */
  function Message(e: StorageException): (m: string)
    ensures e.StorageError? ==> m == "Problem Accessing Storage"
    ensures e.ResourceNotFound? ==>
      && |m| == 19 + |e.resourceId|
      && m[..9] == "Resource " && m[9..|m| - 10] == e.resourceId && m[|m| - 10..] == " Not Found"
    ensures e.PermissionDenied? ==> |m| == 40 + |e.userId| + |e.resourceId|
  {
    match e
    case StorageError(_) => "Problem Accessing Storage"
    case ResourceNotFound(id, _) => "Resource " + id + " Not Found"
    case PermissionDenied(id, user, _) => "Permission Denied to User " + user + " for Resource " + id
  }

  predicate SameKind(e1: StorageException, e2: StorageException) {
    || (e1.StorageError? && e2.StorageError?)
    || (e1.ResourceNotFound? && e2.ResourceNotFound?)
    || (e1.PermissionDenied? && e2.PermissionDenied?)
  }

  /** The status code tells the three kinds apart, and each kind has the code
      the transport layer expects: 500 internal, 404 not found, 403 forbidden. */
  lemma CodesIdentifyKinds(e1: StorageException, e2: StorageException)
    ensures Code(e1) == Code(e2) <==> SameKind(e1, e2)
    ensures Code(e1) == 500 <==> e1.StorageError?
    ensures Code(e1) == 404 <==> e1.ResourceNotFound?
    ensures Code(e1) == 403 <==> e1.PermissionDenied?
  {
  }

  /** Two not-found messages are equal only when they name the same resource. */
  lemma {:induction false} NotFoundMessageNamesResource(a: string, b: string, ca: Option<Cause>, cb: Option<Cause>)
    requires Message(ResourceNotFound(a, ca)) == Message(ResourceNotFound(b, cb))
    ensures a == b
  {
    var ma := Message(ResourceNotFound(a, ca));
    var mb := Message(ResourceNotFound(b, cb));
    assert |a| == |b|;
    assert a == ma[9..9 + |a|];
    assert b == mb[9..9 + |b|];
  }

  /** The permission message names the user first and the resource second,
      and says which user was refused which resource. */
  lemma PermissionMessageShape(id: string, user: string, c: Option<Cause>)
    ensures var m := Message(PermissionDenied(id, user, c));
      && m[..26] == "Permission Denied to User "
      && m[26..26 + |user|] == user
      && m[26 + |user|..40 + |user|] == " for Resource "
      && m[40 + |user|..] == id
  {
  }

  /** Why building an exception raises. */
  datatype ConstructionError = SuperArgumentNotAType  // TypeError from `super(inner_error)`

  /** The Python objects `super` can be handed here: None, an exception
      object, or a class. */
  datatype SuperArgument =
    | NoneObject
    | ExceptionObject(cause: Cause)
    | ClassObject(name: string)

  /** The object an `inner_error` argument is. */
  function InnerObject(inner: Option<Cause>): SuperArgument {
    match inner
    case None => NoneObject
    case Some(c) => ExceptionObject(c)
  }

  /** Python's one-argument `super(x)`: it requires a class and raises
      TypeError ("argument 1 must be a type") for any other object. */
  function Super(arg: SuperArgument): Outcome<ConstructionError> {
    if arg.ClassObject? then Pass else Fail(SuperArgumentNotAType)
  }

  /** `ResourceNotFoundException(resource_id, inner_error)` as written: the
      constructor's first statement is `super(inner_error)`. */
  function NewResourceNotFoundAsWritten(resourceId: string, inner: Option<Cause>): Result<StorageException, ConstructionError> {
    match Super(InnerObject(inner))
    case Fail(e) => Failure(e)
    case Pass => Success(ResourceNotFound(resourceId, inner))
  }

  /** `PermissionDeniedException(resource_id, user_id, inner_error)` as
      written, with the same first statement. */
  function NewPermissionDeniedAsWritten(resourceId: string, userId: string, inner: Option<Cause>): Result<StorageException, ConstructionError> {
    match Super(InnerObject(inner))
    case Fail(e) => Failure(e)
    case Pass => Success(PermissionDenied(resourceId, userId, inner))
  }

  /** No argument a caller can pass as `inner_error`, the default None or a
      caught exception, is a class, so as written neither subclass can ever
      be built. */
  lemma AsWrittenConstructorsRaise(resourceId: string, userId: string, inner: Option<Cause>)
    ensures NewResourceNotFoundAsWritten(resourceId, inner) == Failure(SuperArgumentNotAType)
    ensures NewPermissionDeniedAsWritten(resourceId, userId, inner) == Failure(SuperArgumentNotAType)
  {
    assert !InnerObject(inner).ClassObject?;
  }

  /** `ResourceNotFoundException(resource_id, inner_error)` as intended, with
      `super().__init__(inner_error)`: it names the resource and carries the
      cause. */
  function NewResourceNotFound(resourceId: string, inner: Option<Cause>): (r: Result<StorageException, ConstructionError>)
    ensures r.Success? && r.value.ResourceNotFound?
    ensures r.value.resourceId == resourceId && r.value.inner == inner
    ensures Code(r.value) == 404
  {
    Success(ResourceNotFound(resourceId, inner))
  }

  /** `PermissionDeniedException(resource_id, user_id, inner_error)` as
      intended. */
  function NewPermissionDenied(resourceId: string, userId: string, inner: Option<Cause>): (r: Result<StorageException, ConstructionError>)
    ensures r.Success? && r.value.PermissionDenied?
    ensures r.value.resourceId == resourceId && r.value.userId == userId && r.value.inner == inner
    ensures Code(r.value) == 403
  {
    Success(PermissionDenied(resourceId, userId, inner))
  }
}
