/** `ContextService`: reading the session out of the request context. */
module ContextService {
  import opened Errors
  import opened Entities
  import AuthHelper

  /** The stored session user, or `AccountNotFound`; the context is only read. */
  function GetSession(ctx: Ctx): (r: Result<CommonUser>)
    ensures r.Success? <==> ctx.session.Some?
    ensures r.Success? ==> r.value == ctx.session.value
    ensures r.Failure? ==> r.error == AccountNotFound
  {
    match ctx.session
    case Some(u) => Success(u)
    case None => Failure(AccountNotFound)
  }

  /** The two session readers agree on every context, except for the error they raise. */
  lemma SessionReadersAgree(ctx: Ctx)
    ensures GetSession(ctx).Success? <==> AuthHelper.Get(ctx).Success?
    ensures GetSession(ctx).Success? ==> GetSession(ctx).value == AuthHelper.Get(ctx).value
    ensures GetSession(ctx).Failure? ==> GetSession(ctx).error == AccountNotFound && AuthHelper.Get(ctx).error == NeedSignin
  {
  }
}
