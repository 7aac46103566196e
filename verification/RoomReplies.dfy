/**
 What a caller of the room service gets back and what it finds changed, field by field and for every
 call, in states that meet the service-wide invariant.
 */
module RoomReplies {
  import opened Common
  import opened Rooms
  import opened RoomService
  import opened RoomServiceRuns

  predicate Supports(s: Svc, roomId: string, lang: string) {
    lang != "" && roomId in s.rooms && (lang == s.rooms[roomId].sourceLang || lang == s.rooms[roomId].targetLang)
  }

  function Members(s: Svc, roomId: string): set<string> {
    if roomId in s.rooms then s.rooms[roomId].participants else {}
  }

  lemma RoomIsOpen(s: Svc, roomId: string)
    requires RoomsOk(s.rooms, s.roomIds) && roomId in s.rooms
    ensures s.rooms[roomId].active && s.rooms[roomId].capacity == 2 && |Members(s, roomId)| <= 2
  {
  }

  /** Which answer a join gets. A stored room is never closed, and it is full exactly with two others in it. */
  lemma JoinReplies(s: Svc, roomId: string, userId: string, lang: string, sid: string, peerOk: bool)
    requires Inv(s)
    ensures var reply, members, ok := JoinRoom(s, roomId, userId, lang, sid, peerOk).1, Members(s, roomId), Supports(s, roomId, lang);
      && (reply == Err(MissingLang) <==> lang == "")
      && (reply == Err(RoomNotFound) <==> lang != "" && roomId !in s.rooms)
      && (reply == Err(LangNotSupported) <==> lang != "" && roomId in s.rooms && !ok)
      && (reply == Err(RoomFull) <==> ok && userId !in members && |members| == 2)
      && (reply == Err(PeerFailed) <==> ok && userId !in members && |members| < 2 && !peerOk)
      && (reply.Ok? <==> ok && (userId in members || (|members| < 2 && peerOk)))
      && reply != Err(RoomClosed)
      && (reply.Ok? && userId !in members ==> reply.value == sid)
      && (reply.Ok? && userId in members ==>
            var key := roomId + ":" + userId; key in s.lookup && reply.value == s.lookup[key])
  {
    hide Register, RolledBack, Admitted, CancelTimers, Inv;
    if roomId in s.rooms {
      MemberFacts(s, roomId, userId);
    }
  }

  lemma MemberFacts(s: Svc, roomId: string, userId: string)
    requires Inv(s) && roomId in s.rooms
    ensures s.rooms[roomId].active && s.rooms[roomId].capacity == 2 && |Members(s, roomId)| <= 2
    ensures userId in Members(s, roomId) ==> Key(roomId, userId) in s.lookup
  {
    RoomIsOpen(s, roomId);
  }

  /** Stopping a room's timers stops those of its stored sessions and no others. */
  lemma CancelledTimers(s: Svc, roomId: string)
    ensures var s' := CancelTimers(s, roomId);
      && s' == s.(timers := s'.timers)
      && (forall x :: x in s'.timers <==> x in s.timers && !(x in s.sessions && s.sessions[x].roomId == roomId))
      && (forall x :: x in s'.timers ==> s'.timers[x] == s.timers[x])
  {
  }

  /** A user who is not yet a member is admitted: room, session, key and connection are there afterwards, and nothing else moved but timers and the pipeline. */
  lemma JoinAdmits(s: Svc, roomId: string, userId: string, lang: string, sid: string)
    requires Inv(s) && sid != "" && sid !in s.sessIds
    requires Supports(s, roomId, lang) && userId !in Members(s, roomId) && |Members(s, roomId)| < 2
    ensures var s' := JoinRoom(s, roomId, userId, lang, sid, true).0;
      && s'.rooms == s.rooms[roomId := s.rooms[roomId].(participants := Members(s, roomId) + {userId}, lastActivity := Some(s.now))]
      && s'.sessions == s.sessions[sid := Session(sid, roomId, userId, lang)]
      && s'.lookup == s.lookup[roomId + ":" + userId := sid]
      && s'.peers == s.peers + {sid}
      && s'.timers == CancelTimers(s, roomId).timers && s'.cancelled == s.cancelled && s'.now == s.now
  {
    RoomIsOpen(s, roomId);
    var s1, x := CancelTimers(s, roomId), Session(sid, roomId, userId, lang);
    NewcomerRegisters(s, x);
    hide Register, Inv;
    RegisterResult(s1, x);
  }

  lemma NewcomerRegisters(s: Svc, x: Session)
    requires Supports(s, x.roomId, x.lang) && s.rooms[x.roomId].TryJoin(x.userId).Joined?
    ensures JoinRoom(s, x.roomId, x.userId, x.lang, x.id, true).0 == Register(Admitted(CancelTimers(s, x.roomId), x), x)
  {
  }

  /** The second member gets the room its pipeline, between the first member's session and the new one; the first one gets none. */
  lemma SecondMemberLaunches(s: Svc, roomId: string, userId: string, lang: string, sid: string)
    requires Inv(s) && sid != "" && sid !in s.sessIds
    requires Supports(s, roomId, lang) && userId !in Members(s, roomId) && |Members(s, roomId)| < 2
    ensures var s' := JoinRoom(s, roomId, userId, lang, sid, true).0;
      if |Members(s, roomId)| == 1 then
        && |Members(s', roomId)| == 2
        && s'.pipelines == s.pipelines[roomId := |s.started|]
        && exists other :: InRoom(s, other, roomId) && s'.started == s.started + [Pipeline(roomId, other, sid)]
      else s'.pipelines == s.pipelines && s'.started == s.started
  {
    RoomIsOpen(s, roomId);
    var s1, x := CancelTimers(s, roomId), Session(sid, roomId, userId, lang);
    NewcomerRegisters(s, x);
    CancelKeepsInv(s, roomId);
    CancelledTimers(s, roomId);
    hide Inv, CancelTimers, JoinRoom, Register, Admitted, RoomState.TryJoin;
    JoinAdmits(s, roomId, userId, lang, sid);
    Launches(s1, x);
    SizeAfterJoin(Members(s, roomId), userId);
  }

  lemma SizeAfterJoin(members: set<string>, userId: string)
    requires userId !in members
    ensures |members + {userId}| == |members| + 1
  {
  }

  lemma Launches(s: Svc, x: Session)
    requires Inv(s) && CanAdmit(s, x)
    ensures var s' := Register(Admitted(s, x), x);
      if |s.rooms[x.roomId].participants| == 1 then
        && s'.pipelines == s.pipelines[x.roomId := |s.started|]
        && exists other :: InRoom(s, other, x.roomId) && s'.started == s.started + [Pipeline(x.roomId, other, x.id)]
      else s'.pipelines == s.pipelines && s'.started == s.started
  {
    hide Register, Agree;
    RegisterResult(s, x);
    FilledRoom(s, x);
    FreshSession(s, x);
    if |s.rooms[x.roomId].participants| == 1 {
      var other := PartnerIsForced(s, x);
    }
  }

  /** A member who leaves an existing room is out of every map, and the room's pipeline is stopped. */
  lemma LeaveIsComplete(s: Svc, roomId: string, userId: string)
    requires Inv(s) && roomId in s.rooms
    ensures var key := roomId + ":" + userId; var (s', reply) := LeaveRoom(s, roomId, userId);
      && (key in s.lookup <==> userId in s.rooms[roomId].participants)
      && (key !in s.lookup ==> s' == s && reply == Err(SessionNotFound))
      && (key in s.lookup ==>
            && reply == Ok("")
            && s' == s.(rooms := s.rooms[roomId := s.rooms[roomId].(participants := s.rooms[roomId].participants - {userId})],
                        sessions := s.sessions - {s.lookup[key]}, lookup := s.lookup - {key}, peers := s.peers - {s.lookup[key]},
                        pipelines := s.pipelines - {roomId}, cancelled := s'.cancelled)
            && s'.cancelled == s.cancelled + if roomId in s.pipelines then {s.pipelines[roomId]} else {})
  {
    hide CodesOk, PipesOk, LaunchesOk, TimersOk, Named;
    assert roomId + ":" + userId == Key(roomId, userId);
    if Key(roomId, userId) in s.lookup {
      LeaverIsMember(s, roomId, userId);
    }
  }

  /** Which answer a creation gets, and the room it stores. */
  lemma CreateReplies(c: Config, s: Svc, id: string, source: string, target: string, draws: seq<Option<seq<Octet>>>)
    requires c.retries <= |draws|
    ensures var (s', reply) := CreateRoom(c, s, id, source, target, draws); var valid := |source| == 2 && |target| == 2;
      && (reply == Err(InvalidLanguage) <==> !valid)
      && (reply == Err(CodeExhausted) <==> valid && forall i :: 0 <= i < c.retries ==> draws[i].Some? && CodeTaken(s.rooms, CodeOf(draws[i].value)))
      && (reply.Ok? <==> valid && exists n :: 0 <= n < c.retries && FirstFree(s.rooms, draws, n))
      && (reply.Ok? || reply in {Err(InvalidLanguage), Err(CodeExhausted), Err(CodeReaderFailed)})
      && (!reply.Ok? ==> s' == s.(roomIds := s.roomIds + {id}))
      && forall n :: 0 <= n < c.retries && FirstFree(s.rooms, draws, n) && valid ==>
           && reply == Ok(id)
           && s' == s.(roomIds := s.roomIds + {id},
                       rooms := s.rooms[id := RoomState(id, source, target, CodeOf(draws[n].value), None, true, {}, 2)])
  {
    SearchCodeOutcome(s.rooms, draws, c.retries);
    NewRoomIs(id, source, target);
  }

  /** Deleting an unknown room changes nothing; deleting a known one takes out everything that belongs to it. */
  lemma DeleteReplies(s: Svc, roomId: string)
    requires Inv(s)
    ensures var (s', reply) := DeleteRoom(s, roomId);
      && reply == (if roomId in s.rooms then Ok("") else Err(RoomNotFound))
      && (roomId !in s.rooms ==> s' == s)
      && s'.rooms == s.rooms - {roomId} && s'.pipelines == s.pipelines - {roomId} && s'.peers == s'.sessions.Keys
      && (forall x :: x in s'.sessions <==> x in s.sessions && s.sessions[x].roomId != roomId)
  {
    hide Inv, DeleteRoom;
    DeleteReply(s, roomId);
    DeleteIsRestriction(s, roomId);
  }

  lemma DeleteReply(s: Svc, roomId: string)
    ensures var (s', reply) := DeleteRoom(s, roomId);
      && reply == (if roomId in s.rooms then Ok("") else Err(RoomNotFound))
      && (roomId !in s.rooms ==> s' == s)
  {
  }

  /** A disconnect arms a timer for every stored session that has none, for its room and from now, and does nothing else. */
  lemma DisconnectArms(s: Svc, sid: string)
    requires Inv(s)
    ensures var s' := OnDisconnect(s, sid);
      && s' == s.(timers := s'.timers)
      && (sid in s.sessions && sid !in s.timers ==> s'.timers == s.timers[sid := Timer(s.sessions[sid].roomId, s.now)])
      && (sid !in s.sessions || sid in s.timers ==> s'.timers == s.timers)
  {
    StoredSessionIsNamed(s, sid);
  }

  lemma StoredSessionIsNamed(s: Svc, sid: string)
    requires TimersOk(s)
    ensures sid in s.sessions ==> sid != ""
  {
  }

  /** A firing timer is gone, and so is everything of its room; other rooms and timers stay. */
  lemma FiringIsComplete(s: Svc, sid: string)
    requires Inv(s) && sid in s.timers
    ensures var s' := FireTimer(s, sid); var roomId := s.timers[sid].roomId;
      && s'.timers == s.timers - {sid}
      && s'.rooms == s.rooms - {roomId} && s'.pipelines == s.pipelines - {roomId} && s'.peers == s'.sessions.Keys
      && (forall x :: x in s'.sessions <==> x in s.sessions && s.sessions[x].roomId != roomId)
  {
    var s1 := s.(timers := s.timers - {sid});
    TimersKeepInv(s, s1.timers, s.now);
    DeleteReplies(s1, s.timers[sid].roomId);
    DeleteIsRestriction(s1, s.timers[sid].roomId);
  }

  /** Refreshing a room stamps it with the current time. */
  lemma TouchReplies(s: Svc, roomId: string)
    ensures var (s', reply) := TouchRoom(s, roomId);
      && reply == (if roomId in s.rooms then Ok("") else Err(RoomNotFound))
      && (roomId !in s.rooms ==> s' == s)
      && (roomId in s.rooms ==> s' == s.(rooms := s.rooms[roomId := s.rooms[roomId].(lastActivity := Some(s.now))]))
  {
  }
}
