/**
 * `GlobalExceptionHandler`: the error body and status each failure is answered with.
 *
 * Spring picks the handler declared for the closest exception type, so a
 * `DuplicateUsernameException` and a `ResponseStatusException` never reach the handler
 * for `RuntimeException`.
 */
module ExceptionHandler {
  import opened Errors
  import opened Records
  import opened Dto
  import opened BlogState
  import UserRules
  import ContentRules
  import CommentRules

  datatype ErrorResponse = ErrorResponse(error: string, message: string)

  /** An HTTP response: its status code and its JSON body. */
  datatype Response = Response(status: int, body: ErrorResponse)

  /** `handleRuntimeException`: any other runtime exception is a server error. */
  function HandleRuntime(message: string): Response
  {
    Response(InternalServerError.Code(), ErrorResponse("INTERNAL_SERVER_ERROR", message))
  }

  /** `handleResponseStatusException`: the exception's own status, named by its reason phrase. */
  function HandleResponseStatus(status: HttpStatus, reason: string): Response
  {
    Response(status.Code(), ErrorResponse(status.ReasonPhrase(), reason))
  }

  /** `handleDuplicateUsernameException`. */
  function HandleDuplicate(message: string): Response
  {
    Response(Conflict.Code(), ErrorResponse("CONFLICT", message))
  }

  /** The response to `f`, from the handler of its most specific type. */
  function Handle(f: Failure): (r: Response)
    ensures f.StatusFailure? ==>
      r.status == f.status.Code() && r.body == ErrorResponse(f.status.ReasonPhrase(), f.reason)
    ensures f.DuplicateUsername? ==> r.status == 409 && r.body == ErrorResponse("CONFLICT", f.message)
    ensures f.Unexpected? ==> r.status == 500 && r.body == ErrorResponse("INTERNAL_SERVER_ERROR", f.message)
  {
    match f
    case StatusFailure(status, reason) => HandleResponseStatus(status, reason)
    case DuplicateUsername(message) => HandleDuplicate(message)
    case Unexpected(message) => HandleRuntime(message)
  }

  /**
   * No two failures get the same response: the status and the error name tell the kind
   * apart (a conflict from a status exception says "Conflict", a duplicate username
   * "CONFLICT"; a 500 status says "Internal Server Error", an unexpected failure
   * "INTERNAL_SERVER_ERROR"), and the message is carried unchanged.
   */
  lemma HandleInjective(f: Failure, g: Failure)
    ensures Handle(f) == Handle(g) ==> f == g
  {
    if Handle(f) == Handle(g) {
      if f.StatusFailure? && g.StatusFailure? {
        ReasonPhraseInjective(f.status, g.status);
      }
    }
  }

  /** Distinct statuses have distinct reason phrases. */
  lemma ReasonPhraseInjective(a: HttpStatus, b: HttpStatus)
    ensures a.ReasonPhrase() == b.ReasonPhrase() ==> a == b
  {
    if a.ReasonPhrase() == b.ReasonPhrase() {
      assert a.ReasonPhrase()[0] == b.ReasonPhrase()[0];
      assert |a.ReasonPhrase()| == |b.ReasonPhrase()|;
    }
  }

  /** A failure is the client's fault: the handler answers it with a 4xx status. */
  predicate ClientError(f: Failure)
  {
    400 <= Handle(f).status < 500
  }

  /** Every failure of the user services and of the user controller is answered with a 4xx status. */
  lemma UserFailuresAreClientErrors(
    s: State, signUp: SignUpRequest, encode: string -> string, caller: string, u: string, req: UserUpdateRequest)
    ensures var r := UserRules.SignUp(s, signUp, encode).result; r.Err? ==> ClientError(r.failure)
    ensures var r := UserRules.AuthSignUp(s, signUp, encode).result; r.Err? ==> ClientError(r.failure)
    ensures var r := UserRules.GetUserInfo(s, u); r.Err? ==> ClientError(r.failure)
    ensures var r := UserRules.ControllerUpdate(s, caller, u, req).result; r.Err? ==> ClientError(r.failure)
    ensures var r := UserRules.ControllerDelete(s, caller, u).result; r.Err? ==> ClientError(r.failure)
  {
  }

  /** Every failure of the article and post services is answered with a 4xx status. */
  lemma ContentFailuresAreClientErrors(
    s: State, k: ContentRules.Kind, id: Id, userId: Id, u: string, req: ContentRequest)
    ensures var r := ContentRules.PostArticle(s, userId, req).result; r.Err? ==> ClientError(r.failure)
    ensures var r := ContentRules.CreatePost(s, u, req).result; r.Err? ==> ClientError(r.failure)
    ensures var r := ContentRules.Read(s, k, id).result; r.Err? ==> ClientError(r.failure)
    ensures var r := ContentRules.Update(s, k, id, userId, req).result; r.Err? ==> ClientError(r.failure)
    ensures var r := ContentRules.Delete(s, k, id, userId).result; r.Err? ==> ClientError(r.failure)
  {
  }

  /** Every failure of the comment service is answered with a 4xx status. */
  lemma CommentFailuresAreClientErrors(s: State, userId: Id, id: Id, req: CommentCreateRequest, content: string)
    ensures var r := CommentRules.PostComment(s, userId, req).result; r.Err? ==> ClientError(r.failure)
    ensures var r := CommentRules.ReadComments(s, id); r.Err? ==> ClientError(r.failure)
    ensures var r := CommentRules.UpdateComment(s, userId, id, content).result; r.Err? ==> ClientError(r.failure)
    ensures var r := CommentRules.DeleteComment(s, userId, id).result; r.Err? ==> ClientError(r.failure)
  {
  }
}
