/** The channel-authorization endpoint: two guards that refuse with 403, then a grant that carries
    the session user's presence data. The grant's signature is computed by the messaging service's
    library and is represented here only by the values it is built from. */
module PusherAuth {
  import opened Wrappers

  /** The signed-in user as the session stores it; every field may be absent. */
  datatype SessionUser = SessionUser(id: Option<string>, name: Option<string>, email: Option<string>, image: Option<string>)

  datatype Session = Session(user: Option<SessionUser>)

  /** The request body: the socket, the channel and the user id the client claims. */
  datatype AuthRequest = AuthRequest(socketId: string, channelName: string, userId: Option<string>)

  /** `user_id` and `user_info` of the presence data. */
  datatype PresenceData = PresenceData(userId: Option<string>, name: Option<string>, email: Option<string>, image: Option<string>)

  /** Refused with 403; granted for the socket and channel with presence data; or the handler threw
      before it could answer. */
  datatype AuthResponse =
    | Unauthorized
    | Grant(socketId: string, channelName: string, presence: PresenceData)
    | Crashed

  /** `session.user?.id`: absent when the user is. */
  function SessionUserId(s: Session): (r: Option<string>)
    ensures r.Some? ==> s.user.Some? && s.user.value.id == r
    ensures s.user.Some? ==> r == s.user.value.id
  {
    if s.user.Some? then s.user.value.id else None
  }

  /** The handler's decision. With no session, or when the session's user id differs from the one
      in the body, the answer is 403. When the session has no user at all and the body has no user
      id either, the guard lets the request through and reading `session.user!.id` throws. */
  function Authorize(session: Option<Session>, req: AuthRequest): (r: AuthResponse)
    ensures r.Unauthorized? <==> session.None? || SessionUserId(session.value) != req.userId
    ensures r.Crashed? <==> session.Some? && session.value.user.None? && req.userId.None?
    ensures r.Grant? ==> && session.Some? && session.value.user.Some?
                         && r.presence.userId == session.value.user.value.id == req.userId
                         && r.presence.name == session.value.user.value.name
                         && r.presence.email == session.value.user.value.email
                         && r.presence.image == session.value.user.value.image
                         && r.socketId == req.socketId && r.channelName == req.channelName
  {
    if session.None? then Unauthorized
    else if SessionUserId(session.value) != req.userId then Unauthorized
    else match session.value.user
      case None => Crashed
      case Some(u) => Grant(req.socketId, req.channelName, PresenceData(u.id, u.name, u.email, u.image))
  }

  /** The HTTP status of the answer: 403 on refusal, 200 on a grant, 500 when the handler threw. */
  function StatusCode(r: AuthResponse): (code: int)
    ensures code == 403 <==> r.Unauthorized?
    ensures code == 200 <==> r.Grant?
  {
    match r
    case Unauthorized => 403
    case Grant(_, _, _) => 200
    case Crashed => 500
  }

  /** The decision never looks at the channel: asking for another channel changes only the channel
      the grant names. */
  lemma DecisionIgnoresChannel(session: Option<Session>, req: AuthRequest, channel: string)
    ensures var a, b := Authorize(session, req), Authorize(session, req.(channelName := channel));
      && a.Unauthorized? == b.Unauthorized? && a.Crashed? == b.Crashed?
      && (a.Grant? ==> b == a.(channelName := channel))
  {
  }

  /** A grant is given only to a user who asks under the session's own user id: presence can never
      be claimed for someone else, and a request naming a user id different from the session's is
      refused whatever its socket and channel. */
  lemma GrantOnlyForOwnId(session: Option<Session>, req: AuthRequest, other: string)
    requires session.Some? && session.value.user.Some? && session.value.user.value.id != Some(other)
    ensures StatusCode(Authorize(session, req.(userId := Some(other)))) == 403
    ensures Authorize(session, req).Grant? ==> Authorize(session, req).presence.userId == req.userId
  {
  }
}
