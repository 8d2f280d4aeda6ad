/** The `@Authorize` declaration: a scope (default NONE) and a bypass flag
    (default false), repeatable into an `@AuthorizeList` container. */
module Annotations {
  import opened Common
  import opened Scopes

  datatype Authorize = Authorize(scope: AppScope, bypass: bool)

  /** An `@Authorize(...)` as written: an element left out takes its default. */
  function Written(scope: Option<AppScope>, bypass: Option<bool>): (a: Authorize)
    ensures scope.Some? ==> a.scope == scope.value
    ensures bypass.Some? ==> a.bypass == bypass.value
    ensures scope.None? ==> a.scope == NONE
    ensures bypass.None? ==> !a.bypass
  {
    Authorize(scope.GetOr(NONE), bypass.GetOr(false))
  }

  /** A bare `@Authorize` names no scope value and does not bypass. */
  lemma BareAuthorizeHasNeither()
    ensures Written(None, None).scope.Value().None?
    ensures !Written(None, None).bypass
    ensures Written(None, None) == Authorize(NONE, false)
  {
  }

  /** What reflection sees on one handler method: a directly present
      `@Authorize`, a directly present `@AuthorizeList` container, or both. */
  datatype Declaration = Declaration(direct: Option<Authorize>, container: Option<seq<Authorize>>)

  const Undeclared := Declaration(None, None)

  /** The repeatable-annotation rule: one `@Authorize` stays directly present,
      two or more are wrapped into one `@AuthorizeList`, in source order. */
  function Declare(written: seq<Authorize>): (d: Declaration)
    ensures |written| == 0 ==> d == Undeclared
    ensures |written| == 1 ==> d.direct == Some(written[0]) && d.container.None?
    ensures |written| >= 2 ==> d.direct.None? && d.container == Some(written)
  {
    if |written| == 0 then Undeclared
    else if |written| == 1 then Declaration(Some(written[0]), None)
    else Declaration(None, Some(written))
  }
}
