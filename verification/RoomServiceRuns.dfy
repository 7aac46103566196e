/**
 Results about the room service over whole runs: deletion and exact sweeps, the service-wide
 invariant, pipelines of full rooms, and isolation of rooms.
 */
module RoomServiceRuns {
  import opened Common
  import opened Rooms
  import opened RoomService

  // ---------------------------------------------------------------------------
  // Sweeps
  // ---------------------------------------------------------------------------

  /** The sessions of `gone` rooms, their keys and their peer connections are taken out, and only those. */
  ghost predicate SessionsRestricted(s: Svc, s': Svc, gone: set<string>) {
    && (forall sid :: sid in s'.sessions <==> sid in s.sessions && s.sessions[sid].roomId !in gone)
    && (forall sid :: sid in s'.sessions ==> s'.sessions[sid] == s.sessions[sid])
    && (forall k :: k in s'.lookup <==> k in s.lookup && s.lookup[k] in s'.sessions)
    && (forall k :: k in s'.lookup ==> s'.lookup[k] == s.lookup[k])
    && s'.peers == s'.sessions.Keys
  }

  /** `s'` is `s` with the rooms in `gone`, and everything that belongs to them, removed. */
  ghost predicate Restricted(s: Svc, s': Svc, gone: set<string>) {
    && s'.rooms == s.rooms - gone
    && SessionsRestricted(s, s', gone)
    && s'.pipelines == s.pipelines - gone
    && s'.started == s.started && s'.timers == s.timers && s'.now == s.now
    && s'.roomIds == s.roomIds && s'.sessIds == s.sessIds
  }

  lemma DeleteRestrictsSessions(s: Svc, roomId: string)
    requires RoomsOk(s.rooms, s.roomIds) && Agree(s.rooms, s.sessions, s.lookup) && Named(s.sessions)
    requires s.peers == s.sessions.Keys
    ensures SessionsRestricted(s, DeleteRoom(s, roomId).0, {roomId})
  {
    if roomId in s.rooms {
      ScanFindsRoom(s, roomId);
    }
  }

  lemma NothingToDelete(s: Svc, roomId: string)
    requires roomId !in s.rooms && PipesOk(s.rooms, s.sessions, s.pipelines, s.started)
    ensures s.rooms - {roomId} == s.rooms && s.pipelines - {roomId} == s.pipelines
  {
  }

  lemma DeleteIsRestriction(s: Svc, roomId: string)
    requires Inv(s)
    ensures Restricted(s, DeleteRoom(s, roomId).0, {roomId})
  {
    DeleteRestrictsSessions(s, roomId);
    if roomId !in s.rooms {
      NothingToDelete(s, roomId);
    }
  }

  lemma RestrictedCompose(s: Svc, s1: Svc, s2: Svc, a: set<string>, b: set<string>)
    requires Restricted(s, s1, a) && Restricted(s1, s2, b)
    ensures Restricted(s, s2, a + b)
  {
    assert s.rooms - a - b == s.rooms - (a + b);
    assert s.pipelines - a - b == s.pipelines - (a + b);
  }

  function Elements(ids: seq<string>): set<string> {
    set r | r in ids
  }

  lemma RestrictedToAll(s: Svc)
    requires Agree(s.rooms, s.sessions, s.lookup) && s.peers == s.sessions.Keys
    ensures Restricted(s, s, {})
  {
    assert s.rooms - {} == s.rooms && s.pipelines - {} == s.pipelines;
  }

  lemma DeleteHeadThenTail(s: Svc, ids: seq<string>, s': Svc)
    requires ids != [] && Inv(s) && Restricted(DeleteRoom(s, ids[0]).0, s', Elements(ids[1..]))
    ensures Restricted(s, s', Elements(ids))
  {
    DeleteIsRestriction(s, ids[0]);
    RestrictedCompose(s, DeleteRoom(s, ids[0]).0, s', {ids[0]}, Elements(ids[1..]));
    assert {ids[0]} + Elements(ids[1..]) == Elements(ids);
  }

  lemma {:induction false} DeleteAllIsRestriction(s: Svc, ids: seq<string>)
    requires Inv(s)
    ensures Inv(DeleteAll(s, ids)) && Restricted(s, DeleteAll(s, ids), Elements(ids))
    decreases |ids|
  {
    if ids == [] {
      RestrictedToAll(s);
      assert Elements(ids) == {};
    } else {
      DeleteKeepsInv(s, ids[0]);
      DeleteAllIsRestriction(DeleteRoom(s, ids[0]).0, ids[1..]);
      DeleteHeadThenTail(s, ids, DeleteAll(s, ids));
    }
  }

  /**
   A sweep leaves exactly the rooms whose last activity is absent or recent enough, each with
   all that belongs to it, in whatever order the repository lists the expired ones.
   */
  lemma SweepIsExact(c: Config, s: Svc, ids: seq<string>)
    requires Inv(s) && ListsExpired(c, s, ids)
    ensures var s' := DeleteAll(s, ids);
      && (forall r :: r in s'.rooms <==>
            r in s.rooms && (s.rooms[r].lastActivity.None? || s.rooms[r].lastActivity.value >= s.now - c.ttl))
      && (forall r :: r in s'.rooms ==> s'.rooms[r] == s.rooms[r])
      && (forall sid :: sid in s'.sessions <==> sid in s.sessions && s.sessions[sid].roomId in s'.rooms)
      && (forall r :: r in s'.pipelines <==> r in s.pipelines && r in s'.rooms)
      && Restricted(s, s', Elements(ids))
  {
    DeleteAllIsRestriction(s, ids);
  }

  // ---------------------------------------------------------------------------
  // The invariant over runs
  // ---------------------------------------------------------------------------

  lemma TouchKeepsInv(s: Svc, roomId: string)
    requires Inv(s)
    ensures Inv(TouchRoom(s, roomId).0)
  {
    if roomId in s.rooms {
      var r := s.rooms[roomId].(lastActivity := Some(s.now));
      UpdateKeepsCodes(s.rooms, roomId, r);
      TouchKeepsAgree(s.rooms, s.sessions, s.lookup, roomId, r);
      TouchKeepsPipes(s.rooms, s.sessions, s.pipelines, s.started, roomId, r);
    }
  }

  lemma TouchKeepsAgree(rooms: map<string, RoomState>, sessions: map<string, Session>, lookup: map<string, string>, roomId: string, r: RoomState)
    requires Agree(rooms, sessions, lookup) && roomId in rooms && r.participants == rooms[roomId].participants
    ensures Agree(rooms[roomId := r], sessions, lookup)
  {
  }

  lemma TouchKeepsPipes(rooms: map<string, RoomState>, sessions: map<string, Session>, pipelines: map<string, nat>, started: seq<Pipeline>,
                        roomId: string, r: RoomState)
    requires PipesOk(rooms, sessions, pipelines, started) && roomId in rooms && r.participants == rooms[roomId].participants
    ensures PipesOk(rooms[roomId := r], sessions, pipelines, started)
  {
  }

  lemma TimersKeepInv(s: Svc, timers: map<string, Timer>, now: int)
    requires Inv(s) && TimersOk(s.(timers := timers, now := now))
    ensures Inv(s.(timers := timers, now := now))
  {
  }

  lemma DisconnectKeepsInv(s: Svc, sid: string)
    requires Inv(s)
    ensures Inv(OnDisconnect(s, sid))
  {
    hide RoomsOk, CodesOk, Agree, Named, PipesOk, LaunchesOk, TimersOk;
    SessionRoomIsKnown(s, sid);
    DisconnectKeepsTimers(s, sid);
    TimersKeepInv(s, OnDisconnect(s, sid).timers, s.now);
  }

  lemma SessionRoomIsKnown(s: Svc, sid: string)
    requires RoomsOk(s.rooms, s.roomIds) && Agree(s.rooms, s.sessions, s.lookup)
    ensures sid in s.sessions ==> s.sessions[sid].roomId in s.roomIds
  {
  }

  lemma DisconnectKeepsTimers(s: Svc, sid: string)
    requires TimersOk(s) && (sid in s.sessions ==> s.sessions[sid].roomId in s.roomIds)
    ensures TimersOk(OnDisconnect(s, sid)) && OnDisconnect(s, sid) == s.(timers := OnDisconnect(s, sid).timers)
  {
  }

  lemma FireKeepsInv(s: Svc, sid: string)
    requires Inv(s) && sid in s.timers
    ensures Inv(FireTimer(s, sid))
  {
    TimersKeepInv(s, s.timers - {sid}, s.now);
    DeleteKeepsInv(s.(timers := s.timers - {sid}), s.timers[sid].roomId);
  }

  lemma StepKeepsInv(c: Config, s: Svc, op: Op)
    requires Inv(s) && Possible(c, s, op)
    ensures Inv(Do(c, s, op))
  {
    hide Inv, JoinRoom, LeaveRoom, CreateRoom, DeleteRoom, OnDisconnect, FireTimer, TouchRoom;
    match op
    case Create(id, source, target, draws) => CreateKeepsInv(c, s, id, source, target, draws);
    case Join(roomId, userId, lang, sid, peerOk) => JoinKeepsInv(s, roomId, userId, lang, sid, peerOk);
    case Leave(roomId, userId) => PlainLeaveKeepsInv(s, roomId, userId);
    case LeaveMessage(sid) =>
      if sid in s.sessions {
        LeaveMessageKeepsInv(s, sid);
      }
    case Delete(roomId) => DeleteKeepsInv(s, roomId);
    case Disconnect(sid) => DisconnectKeepsInv(s, sid);
    case Fire(sid) => FireKeepsInv(s, sid);
    case Sweep(ids) => DeleteAllIsRestriction(s, ids);
    case Touch(roomId) => TouchKeepsInv(s, roomId);
    case Tick(elapsed) => TickKeepsInv(s, elapsed);
  }

  lemma TickKeepsInv(s: Svc, elapsed: nat)
    requires Inv(s)
    ensures Inv(s.(now := s.now + elapsed))
  {
    TimersKeepInv(s, s.timers, s.now + elapsed);
  }

  lemma LeaveMessageKeepsInv(s: Svc, sid: string)
    requires Inv(s) && sid in s.sessions
    ensures Inv(LeaveRoom(s, s.sessions[sid].roomId, s.sessions[sid].userId).0)
  {
    SessionHasRoom(s, sid);
    LeaveKeepsInv(s, s.sessions[sid].roomId, s.sessions[sid].userId);
  }

  /** Leaving keeps the invariant unless the key was made with a room identifier no room has. */
  lemma LeaveKeepsInv(s: Svc, roomId: string, userId: string)
    requires Inv(s)
    ensures Inv(LeaveRoom(s, roomId, userId).0) <==> roomId in s.rooms || Key(roomId, userId) !in s.lookup
  {
    LeaveTakesOutSession(s, roomId, userId);
    var key := Key(roomId, userId);
    if key in s.lookup && roomId in s.rooms {
      WithoutKeepsInv(s, s.lookup[key]);
    } else if key in s.lookup {
      assert s.lookup[key] in s.sessions && s.lookup[key] in s.peers;
    }
  }

  /** Room identifiers without a colon never make such a key. */
  lemma PlainLeaveKeepsInv(s: Svc, roomId: string, userId: string)
    requires Inv(s) && IsRoomId(roomId)
    ensures Inv(LeaveRoom(s, roomId, userId).0)
  {
    LeaveKeepsInv(s, roomId, userId);
    if Key(roomId, userId) in s.lookup {
      LeaverIsMember(s, roomId, userId);
    }
  }

  ghost predicate ValidRun(c: Config, s: Svc, ops: seq<Op>)
    decreases |ops|
  {
    ops == [] || (Possible(c, s, ops[0]) && ValidRun(c, Do(c, s, ops[0]), ops[1..]))
  }

  ghost function RunFrom(c: Config, s: Svc, ops: seq<Op>): Svc
    requires ValidRun(c, s, ops)
    decreases |ops|
  {
    if ops == [] then s else RunFrom(c, Do(c, s, ops[0]), ops[1..])
  }

  lemma {:induction false} RunKeepsInv(c: Config, s: Svc, ops: seq<Op>)
    requires Inv(s) && ValidRun(c, s, ops)
    ensures Inv(RunFrom(c, s, ops))
    decreases |ops|
  {
    if ops != [] {
      StepKeepsInv(c, s, ops[0]);
      RunKeepsInv(c, Do(c, s, ops[0]), ops[1..]);
    }
  }

  /**
   After every run the maps agree: sessions and lookup are inverse bijections, participants are the
   users looked up, peer connections are the live sessions, full rooms have exactly one pipeline
   between their two sessions, every other pipeline was cancelled, and codes are distinct.
   */
  lemma ServiceInvariant(c: Config, ops: seq<Op>)
    requires ValidRun(c, EMPTY, ops)
    ensures Inv(RunFrom(c, EMPTY, ops))
  {
    RunKeepsInv(c, EMPTY, ops);
  }

  /** A good state has a registered pipeline for a room exactly when it has two participants, and its sessions are that room's two sessions. */
  lemma PipelinesTrackFullRooms(s: Svc, roomId: string)
    requires Inv(s)
    ensures roomId in s.pipelines <==> roomId in s.rooms && |s.rooms[roomId].participants| == 2
    ensures roomId in s.pipelines ==> var p := s.started[s.pipelines[roomId]];
      forall sid :: InRoom(s, sid, roomId) <==> sid == p.sessA || sid == p.sessB
    ensures forall i :: 0 <= i < |s.started| ==> (i in s.cancelled <==> i !in s.pipelines.Values)
  {
    if roomId in s.pipelines {
      var p := s.started[s.pipelines[roomId]];
      var a, b := s.sessions[p.sessA].userId, s.sessions[p.sessB].userId;
      assert a != b by {
        assert KeyOf(s.sessions[p.sessA]) == Key(roomId, a) && KeyOf(s.sessions[p.sessB]) == Key(roomId, b);
      }
      forall sid | InRoom(s, sid, roomId) ensures sid == p.sessA || sid == p.sessB {
        var u := s.sessions[sid].userId;
        ThirdOfTwo(s.rooms[roomId].participants, a, b, u);
        assert KeyOf(s.sessions[sid]) == Key(roomId, u);
      }
    }
  }

  lemma ThirdOfTwo(ps: set<string>, a: string, b: string, u: string)
    requires |ps| == 2 && a in ps && b in ps && a != b && u in ps
    ensures u == a || u == b
  {
    assert |ps - {a} - {b}| == 0;
  }

  // ---------------------------------------------------------------------------
  // Isolation of rooms
  // ---------------------------------------------------------------------------

  ghost predicate SameAt<T>(a: map<string, T>, b: map<string, T>, r: string) {
    (r in a <==> r in b) && (r in a ==> b[r] == a[r])
  }

  ghost predicate KeepsSessions(a: map<string, Session>, b: map<string, Session>, r: string) {
    forall sid :: sid in a && a[sid].roomId == r ==> sid in b && b[sid] == a[sid]
  }

  ghost predicate KeepsKeys(a: map<string, string>, sa: map<string, Session>, b: map<string, string>, r: string) {
    forall k :: k in a && a[k] in sa && sa[a[k]].roomId == r ==> k in b && b[k] == a[k]
  }

  ghost predicate KeepsTimers(a: map<string, Timer>, b: map<string, Timer>, r: string) {
    forall sid :: sid in a && a[sid].roomId == r ==> sid in b && b[sid] == a[sid]
  }

  /** Nothing that belongs to room `r` is lost or added between the two states. */
  ghost predicate SameRoom(s: Svc, s': Svc, r: string) {
    && SameAt(s.rooms, s'.rooms, r) && SameAt(s.pipelines, s'.pipelines, r)
    && KeepsSessions(s.sessions, s'.sessions, r) && KeepsSessions(s'.sessions, s.sessions, r)
    && KeepsKeys(s.lookup, s.sessions, s'.lookup, r) && KeepsKeys(s'.lookup, s'.sessions, s.lookup, r)
    && KeepsTimers(s.timers, s'.timers, r) && KeepsTimers(s'.timers, s.timers, r)
    && s.started <= s'.started
    && (s.peers == s.sessions.Keys ==> s'.peers == s'.sessions.Keys)
  }

  /** The rooms an operation is about. */
  ghost function Targets(s: Svc, op: Op): set<string> {
    match op
    case Create(id, _, _, _) => {id}
    case Join(roomId, _, _, _, _) => {roomId}
    case Leave(roomId, _) => {roomId}
    case LeaveMessage(sid) => if sid in s.sessions then {s.sessions[sid].roomId} else {}
    case Delete(roomId) => {roomId}
    case Disconnect(sid) => if sid in s.sessions then {s.sessions[sid].roomId} else {}
    case Fire(sid) => if sid in s.timers then {s.timers[sid].roomId} else {}
    case Sweep(ids) => Elements(ids)
    case Touch(roomId) => {roomId}
    case Tick(_) => {}
  }

  lemma RestrictionIsolates(s: Svc, s': Svc, gone: set<string>, r: string)
    requires Restricted(s, s', gone) && r !in gone
    ensures SameRoom(s, s', r)
  {
  }

  lemma AddIsolatesKeys(sessions: map<string, Session>, lookup: map<string, string>, x: Session, r: string)
    requires forall k :: k in lookup ==> lookup[k] in sessions && KeyOf(sessions[lookup[k]]) == k
    requires forall sid :: sid in sessions ==> IsRoomId(sessions[sid].roomId)
    requires x.id !in sessions && x.roomId != r && IsRoomId(x.roomId)
    ensures KeepsKeys(lookup, sessions, lookup[KeyOf(x) := x.id], r)
    ensures KeepsKeys(lookup[KeyOf(x) := x.id], sessions[x.id := x], lookup, r)
  {
    if KeyOf(x) in lookup {
      var y := sessions[lookup[KeyOf(x)]];
      KeyInjective(x.roomId, x.userId, y.roomId, y.userId);
    }
  }

  lemma RemoveIsolatesKeys(s: Svc, sid: string, r: string)
    requires Agree(s.rooms, s.sessions, s.lookup) && sid in s.sessions && s.sessions[sid].roomId != r
    ensures KeepsKeys(s.lookup, s.sessions, s.lookup - {KeyOf(s.sessions[sid])}, r)
  {
  }

  lemma LeaveIsolates(s: Svc, sid: string, r: string)
    requires Agree(s.rooms, s.sessions, s.lookup) && sid in s.sessions && s.sessions[sid].roomId != r
    ensures SameRoom(s, Without(s, sid), r)
  {
    RemoveIsolatesKeys(s, sid, r);
  }

  lemma CancelIsolates(s: Svc, roomId: string, r: string)
    requires TimersOk(s) && roomId != r
    ensures SameRoom(s, CancelTimers(s, roomId), r)
  {
  }

  lemma StoredIsolates(s: Svc, x: Session, r: string)
    requires Agree(s.rooms, s.sessions, s.lookup) && RoomsOk(s.rooms, s.roomIds)
    requires x.id !in s.sessions && x.roomId != r && x.roomId in s.rooms
    ensures SameRoom(s, Stored(s, x), r)
  {
    hide Key, IsRoomId, Filled, KeepsKeys, KeepsSessions, KeepsTimers;
    AddIsolatesKeys(s.sessions, s.lookup, x, r);
    AddIsolatesSessions(s.sessions, x, r);
    SameTimers(s.timers, r);
  }

  lemma AddIsolatesSessions(sessions: map<string, Session>, x: Session, r: string)
    requires x.id !in sessions && x.roomId != r
    ensures KeepsSessions(sessions, sessions[x.id := x], r) && KeepsSessions(sessions[x.id := x], sessions, r)
  {
  }

  lemma SameTimers(timers: map<string, Timer>, r: string)
    ensures KeepsTimers(timers, timers, r)
  {
  }

  lemma LaunchIsolates(s: Svc, s1: Svc, roomId: string, a: string, b: string, r: string)
    requires SameRoom(s, s1, r) && roomId != r
    ensures SameRoom(s, StartPipeline(s1, roomId, a, b), r)
  {
  }

  lemma RegisterIsolates(s: Svc, x: Session, r: string)
    requires Agree(s.rooms, s.sessions, s.lookup) && RoomsOk(s.rooms, s.roomIds)
    requires x.id !in s.sessions && x.roomId != r && x.roomId in s.rooms
    ensures SameRoom(s, Register(Admitted(s, x), x), r)
  {
    var s1 := Stored(s, x);
    StoredIsolates(s, x, r);
    RegisterResult(s, x);
    if Partner(s1, x.roomId, x.id).Some? {
      LaunchIsolates(s, s1, x.roomId, Partner(s1, x.roomId, x.id).value, x.id, r);
    }
  }

  lemma SameRoomTrans(s: Svc, s1: Svc, s2: Svc, r: string)
    requires SameRoom(s, s1, r) && SameRoom(s1, s2, r)
    ensures SameRoom(s, s2, r)
  {
  }

  lemma JoinIsolates(s: Svc, roomId: string, userId: string, lang: string, sid: string, peerOk: bool, r: string)
    requires Inv(s) && roomId != r && sid != "" && sid !in s.sessIds
    ensures SameRoom(s, JoinRoom(s, roomId, userId, lang, sid, peerOk).0, r)
  {
    var s1, s' := CancelTimers(s, roomId), JoinRoom(s, roomId, userId, lang, sid, peerOk).0;
    JoinOutcomes(s, roomId, userId, lang, sid, peerOk);
    CancelIsolates(s, roomId, r);
    CancelKeepsInv(s, roomId);
    if roomId in s.rooms && userId in s.rooms[roomId].participants {
      ParticipantHasSession(s, roomId, userId);
    }
    if roomId in s.rooms && s.rooms[roomId].TryJoin(userId).Joined? {
      RegisterIsolates(s1, Session(sid, roomId, userId, lang), r);
      if s' == Register(Admitted(s1, Session(sid, roomId, userId, lang)), Session(sid, roomId, userId, lang)) {
        SameRoomTrans(s, s1, s', r);
      }
    }
  }

  lemma LeaveRoomIsolates(s: Svc, roomId: string, userId: string, r: string)
    requires Inv(s) && IsRoomId(roomId) && roomId != r
    ensures SameRoom(s, LeaveRoom(s, roomId, userId).0, r)
  {
    LeaveTakesOutSession(s, roomId, userId);
    if Key(roomId, userId) in s.lookup {
      LeaverIsMember(s, roomId, userId);
      LeaveIsolates(s, s.lookup[Key(roomId, userId)], r);
    }
  }

  lemma FireIsolates(s: Svc, sid: string, r: string)
    requires Inv(s) && sid in s.timers && s.timers[sid].roomId != r
    ensures SameRoom(s, FireTimer(s, sid), r)
  {
    var s1, roomId := s.(timers := s.timers - {sid}), s.timers[sid].roomId;
    TimersKeepInv(s, s1.timers, s.now);
    DeleteIsRestriction(s1, roomId);
    RestrictionIsolates(s1, DeleteRoom(s1, roomId).0, {roomId}, r);
  }

  lemma CreateIsolates(c: Config, s: Svc, op: Op, r: string)
    requires Inv(s) && Possible(c, s, op) && op.Create? && op.id != r
    ensures SameRoom(s, Do(c, s, op), r)
  {
    CreateOutcome(c, s, op.id, op.source, op.target, op.draws);
  }

  lemma DisconnectIsolates(s: Svc, sid: string, r: string)
    requires sid in s.sessions ==> s.sessions[sid].roomId != r
    ensures SameRoom(s, OnDisconnect(s, sid), r)
  {
  }

  lemma TouchIsolates(s: Svc, roomId: string, r: string)
    requires roomId != r
    ensures SameRoom(s, TouchRoom(s, roomId).0, r)
  {
  }

  /** No operation touches anything of a room it is not about. */
  lemma OperationsIsolateRooms(c: Config, s: Svc, op: Op, r: string)
    requires Inv(s) && Possible(c, s, op) && r !in Targets(s, op)
    ensures SameRoom(s, Do(c, s, op), r)
  {
    match op
    case Create(_, _, _, _) => CreateIsolates(c, s, op, r);
    case Join(roomId, userId, lang, sid, peerOk) => JoinIsolates(s, roomId, userId, lang, sid, peerOk, r);
    case Leave(roomId, userId) => LeaveRoomIsolates(s, roomId, userId, r);
    case LeaveMessage(sid) =>
      if sid in s.sessions {
        LeaveRoomIsolates(s, s.sessions[sid].roomId, s.sessions[sid].userId, r);
      }
    case Delete(roomId) =>
      DeleteIsRestriction(s, roomId);
      RestrictionIsolates(s, DeleteRoom(s, roomId).0, {roomId}, r);
    case Disconnect(sid) => DisconnectIsolates(s, sid, r);
    case Fire(sid) => FireIsolates(s, sid, r);
    case Sweep(ids) =>
      DeleteAllIsRestriction(s, ids);
      RestrictionIsolates(s, DeleteAll(s, ids), Elements(ids), r);
    case Touch(roomId) => TouchIsolates(s, roomId, r);
    case Tick(elapsed) =>
  }
}
