/** The request context built for an authenticated caller, and the builder
    that derives it from the token's audience. */
module UserContextBuilder {
  import opened Common
  import opened Uuids

  /** Who the caller is and how the caller is classified; immutable once built. */
  datatype RequestContext = RequestContext(userId: Uuid, userType: UserType, role: Role)

  /** `prepareContext`: the identity comes from the argument, while the
      classification is fixed to SELLER / ADMIN whatever the argument. */
  function PrepareContext(userId: Uuid): (ctx: RequestContext)
    ensures ctx.userId == userId
    ensures ctx.userType == SELLER && ctx.role == ADMIN
  {
    RequestContext(userId, SELLER, ADMIN)
  }

  /** Contexts prepared for two users differ only in the user id. */
  lemma PrepareContextDependsOnlyOnUserId(u: Uuid, w: Uuid)
    ensures PrepareContext(u) == PrepareContext(w) <==> u == w
    ensures PrepareContext(u).(userId := w) == PrepareContext(w)
  {
  }

  /** The older tree's context: both fields may be left unset by its builder. */
  datatype LegacyRequestContext = LegacyRequestContext(userType: Option<UserType>, userId: Option<Uuid>)

  /** The older tree's `prepareContext(authId, sellerLocationId)` builds an
      empty context; both identifiers are ignored. */
  function LegacyPrepareContext(authId: Uuid, sellerLocationId: Uuid): (ctx: LegacyRequestContext)
    ensures ctx.userType.None? && ctx.userId.None?
  {
    LegacyRequestContext(None, None)
  }
}
