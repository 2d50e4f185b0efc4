/**
 * The authenticated session as the route handlers see it. Resolving it (next-auth's
 * getServerSession) is outside the model: handlers receive it as a value, None for `null`.
 */
module Session {
  import opened Wrappers

  datatype SessionUser = SessionUser(id: Option<string>, email: Option<string>)

  datatype Session = Session(user: Option<SessionUser>)

  /** `session?.user?.id` is truthy: a session carrying a non-empty user id. */
  predicate HasUserId(session: Option<Session>) {
    session.Some? && session.value.user.Some? &&
    session.value.user.value.id.Some? && session.value.user.value.id.value != ""
  }

  function UserId(session: Option<Session>): (id: string)
    requires HasUserId(session)
    ensures id != ""
  {
    session.value.user.value.id.value
  }
}
