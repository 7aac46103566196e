/**
 The room service (`service.go`) with its in-memory repository and its peer connections,
 as one state and one function per operation. Service calls and timer firings are atomic;
 launching a pipeline is part of the join that fills the room.
 */
module RoomService {
  import opened Common
  import opened Rooms

  datatype Config = Config(grace: nat, ttl: nat, retries: nat)

  datatype Session = Session(id: string, roomId: string, userId: string, lang: string)

  datatype Pipeline = Pipeline(roomId: string, sessA: string, sessB: string)

  datatype Timer = Timer(roomId: string, armedAt: int)

  datatype Error =
    | MissingLang | LangNotSupported | InvalidLanguage
    | RoomNotFound | RoomClosed | RoomFull | SessionNotFound
    | PeerFailed | CodeReaderFailed | CodeExhausted

  datatype Reply = Ok(value: string) | Err(error: Error) | Panic

  /**
   The service's maps. A pipeline is its index in `started`, the history of launches;
   `cancelled` holds the indexes whose context was cancelled. `roomIds` and `sessIds`
   are the identifiers handed out so far, so that fresh ones can be told apart.
   */
  datatype Svc = Svc(
    rooms: map<string, RoomState>,
    sessions: map<string, Session>,
    lookup: map<string, string>,
    peers: set<string>,
    pipelines: map<string, nat>,
    started: seq<Pipeline>,
    cancelled: set<nat>,
    timers: map<string, Timer>,
    now: int,
    roomIds: set<string>,
    sessIds: set<string>)

  const EMPTY := Svc(map[], map[], map[], {}, map[], [], {}, map[], 0, {}, {})

  // ---------------------------------------------------------------------------
  // Lookup keys
  // ---------------------------------------------------------------------------

  function Key(roomId: string, userId: string): string {
    roomId + ":" + userId
  }

  function KeyOf(x: Session): string {
    Key(x.roomId, x.userId)
  }

  /** The prefix scan of `DeleteRoom`: a strictly longer key that starts with the room's prefix. */
  predicate Scanned(key: string, roomId: string) {
    var prefix := roomId + ":";
    |key| > |prefix| && key[..|prefix|] == prefix
  }

  predicate IsRoomId(roomId: string) {
    ':' !in roomId
  }

  lemma ColonSeparates(r1: string, u1: string, r2: string)
    requires IsRoomId(r1) && IsRoomId(r2) && |r1| <= |r2|
    requires |r2| < |Key(r1, u1)| && Key(r1, u1)[..|r2| + 1] == r2 + ":"
    ensures r1 == r2
  {
    var head := Key(r1, u1)[..|r2| + 1];
    assert head[|r1|] == ':' && head[|r1|] == (r2 + ":")[|r1|];
    assert r1 == head[..|r1|] && head[..|r1|] == r2[..|r1|];
  }

  /** Room identifiers contain no colon, so a key determines its room and user. */
  lemma KeyInjective(r1: string, u1: string, r2: string, u2: string)
    requires IsRoomId(r1) && IsRoomId(r2) && Key(r1, u1) == Key(r2, u2)
    ensures r1 == r2 && u1 == u2
  {
    assert Key(r2, u2)[..|r2| + 1] == r2 + ":" && Key(r1, u1)[..|r1| + 1] == r1 + ":";
    if |r1| <= |r2| {
      ColonSeparates(r1, u1, r2);
    } else {
      ColonSeparates(r2, u2, r1);
    }
    assert u1 == Key(r1, u1)[|r1| + 1..] && u2 == Key(r2, u2)[|r2| + 1..];
  }

  /** The scan selects exactly that room's keys, except the key of the empty user. */
  lemma ScanIsExact(roomId: string, r: string, u: string)
    requires IsRoomId(roomId) && IsRoomId(r)
    ensures Scanned(Key(r, u), roomId) <==> r == roomId && u != ""
  {
    var k, n := Key(r, u), |roomId|;
    assert n < |r| ==> k[n] == r[n] && r[n] != ':';
    assert Scanned(k, roomId) ==> k[..n + 1][n] == ':' == k[n];
    if Scanned(k, roomId) {
      ColonSeparates(r, u, roomId);
    }
    assert r == roomId ==> k[..n + 1] == roomId + ":";
  }

  // ---------------------------------------------------------------------------
  // Operations
  // ---------------------------------------------------------------------------

  predicate InRoom(s: Svc, sid: string, roomId: string) {
    sid in s.sessions && s.sessions[sid].roomId == roomId
  }

  predicate CodeTaken(rooms: map<string, RoomState>, code: string) {
    exists r :: r in rooms && rooms[r].shortCode == ToUpper(code)
  }

  datatype CodeSearch = Found(code: string) | ReaderFailed | Exhausted

  /** Up to `attempts` draws, until one gives a code no stored room has. */
  function SearchCode(rooms: map<string, RoomState>, draws: seq<Option<seq<Octet>>>, attempts: nat): CodeSearch
    requires attempts <= |draws|
  {
    if attempts == 0 then Exhausted
    else if draws[0].None? then ReaderFailed
    else if CodeTaken(rooms, CodeOf(draws[0].value)) then SearchCode(rooms, draws[1..], attempts - 1)
    else Found(CodeOf(draws[0].value))
  }

  function CreateRoom(c: Config, s: Svc, id: string, source: string, target: string, draws: seq<Option<seq<Octet>>>): (Svc, Reply)
    requires c.retries <= |draws|
  {
    var s1 := s.(roomIds := s.roomIds + {id});
    match NewRoom(id, source, target)
    case None => (s1, Err(InvalidLanguage))
    case Some(r) =>
      match SearchCode(s.rooms, draws, c.retries)
      case Exhausted => (s1, Err(CodeExhausted))
      case ReaderFailed => (s1, Err(CodeReaderFailed))
      case Found(code) => (s1.(rooms := s.rooms[id := r.(shortCode := code)]), Ok(id))
  }

  function CancelTimers(s: Svc, roomId: string): Svc {
    s.(timers := map sid | sid in s.timers && !InRoom(s, sid, roomId) :: s.timers[sid])
  }

  /** The session the map iteration finds: some other session of the room, if there is one. */
  ghost function Partner(s: Svc, roomId: string, sid: string): Option<string> {
    if other :| InRoom(s, other, roomId) && other != sid then Some(other) else None
  }

  function StartPipeline(s: Svc, roomId: string, sessA: string, sessB: string): Svc {
    s.(started := s.started + [Pipeline(roomId, sessA, sessB)], pipelines := s.pipelines[roomId := |s.started|])
  }

  function StopPipeline(s: Svc, roomId: string): Svc {
    s.(pipelines := s.pipelines - {roomId},
       cancelled := s.cancelled + if roomId in s.pipelines then {s.pipelines[roomId]} else {})
  }

  /** Stores the session and launches the pipeline when the room is now full. */
  ghost function Register(s: Svc, x: Session): Svc
    requires x.roomId in s.rooms
  {
    var r := s.rooms[x.roomId].(lastActivity := Some(s.now));
    var s1 := s.(sessions := s.sessions[x.id := x], lookup := s.lookup[KeyOf(x) := x.id], rooms := s.rooms[x.roomId := r]);
    if !r.IsFull() then s1
    else
      match Partner(s1, x.roomId, x.id)
      case None => s1
      case Some(other) => StartPipeline(s1, x.roomId, other, x.id)
  }

  /** The state in which `Register` finds the room when a user newly joined and a peer connection was made. */
  function Admitted(s: Svc, x: Session): Svc
    requires x.roomId in s.rooms
  {
    s.(rooms := s.rooms[x.roomId := s.rooms[x.roomId].AfterJoin(x.userId)], peers := s.peers + {x.id}, sessIds := s.sessIds + {x.id})
  }

  /** A new join whose peer connection could not be made: the participant is taken out again. */
  function RolledBack(s: Svc, x: Session): Svc
    requires x.roomId in s.rooms
  {
    s.(rooms := s.rooms[x.roomId := s.rooms[x.roomId].AfterJoin(x.userId).AfterLeave(x.userId)], sessIds := s.sessIds + {x.id})
  }

  ghost function JoinRoom(s: Svc, roomId: string, userId: string, lang: string, sid: string, peerOk: bool): (Svc, Reply) {
    if lang == "" then (s, Err(MissingLang))
    else if roomId !in s.rooms then (s, Err(RoomNotFound))
    else if lang != s.rooms[roomId].sourceLang && lang != s.rooms[roomId].targetLang then (s, Err(LangNotSupported))
    else
      var x, s1 := Session(sid, roomId, userId, lang), CancelTimers(s, roomId);
      match s.rooms[roomId].TryJoin(userId)
      case Closed => (s, Err(RoomClosed))
      case Full => (s, Err(RoomFull))
      case AlreadyIn =>
        if Key(roomId, userId) in s.lookup then (s1, Ok(s.lookup[Key(roomId, userId)]))
        else if !peerOk then (s1.(sessIds := s1.sessIds + {sid}), Err(PeerFailed))
        else (Register(s1.(peers := s1.peers + {sid}, sessIds := s1.sessIds + {sid}), x), Ok(sid))
      case Joined =>
        if !peerOk then (RolledBack(s1, x), Err(PeerFailed))
        else (Register(Admitted(s1, x), x), Ok(sid))
  }

  /** A missing session would be a nil dereference. */
  function LeaveRoom(s: Svc, roomId: string, userId: string): (Svc, Reply) {
    var key := Key(roomId, userId);
    if key !in s.lookup then (s, Err(SessionNotFound))
    else
      var sid := s.lookup[key];
      if sid !in s.sessions then (s, Panic)
      else if roomId !in s.rooms then (s.(peers := s.peers - {sid}), Err(RoomNotFound))
      else
        var s1 := s.(peers := s.peers - {sid}, rooms := s.rooms[roomId := s.rooms[roomId].AfterLeave(userId)],
                     sessions := s.sessions - {sid}, lookup := s.lookup - {key});
        (StopPipeline(s1, roomId), Ok(""))
  }

  function ScannedKeys(s: Svc, roomId: string): set<string> {
    set k | k in s.lookup && Scanned(k, roomId)
  }

  function ScannedSessions(s: Svc, roomId: string): set<string> {
    set k | k in s.lookup && Scanned(k, roomId) && s.lookup[k] in s.sessions :: s.lookup[k]
  }

  function DeleteRoom(s: Svc, roomId: string): (Svc, Reply) {
    if roomId !in s.rooms then (s, Err(RoomNotFound))
    else
      var gone := ScannedSessions(s, roomId);
      var s1 := s.(sessions := s.sessions - gone, peers := s.peers - gone, lookup := s.lookup - ScannedKeys(s, roomId),
                   rooms := s.rooms - {roomId});
      (StopPipeline(s1, roomId), Ok(""))
  }

  function OnDisconnect(s: Svc, sid: string): Svc {
    if sid == "" || sid !in s.sessions || sid in s.timers then s
    else s.(timers := s.timers[sid := Timer(s.sessions[sid].roomId, s.now)])
  }

  predicate TimerDue(c: Config, s: Svc, sid: string) {
    sid in s.timers && s.timers[sid].armedAt + c.grace <= s.now
  }

  function FireTimer(s: Svc, sid: string): Svc
    requires sid in s.timers
  {
    DeleteRoom(s.(timers := s.timers - {sid}), s.timers[sid].roomId).0
  }

  function TouchRoom(s: Svc, roomId: string): (Svc, Reply) {
    if roomId !in s.rooms then (s, Err(RoomNotFound))
    else (s.(rooms := s.rooms[roomId := s.rooms[roomId].(lastActivity := Some(s.now))]), Ok(""))
  }

  predicate IsExpired(c: Config, s: Svc, roomId: string) {
    roomId in s.rooms && s.rooms[roomId].lastActivity.Some? && s.rooms[roomId].lastActivity.value < s.now - c.ttl
  }

  /** Deletes the listed rooms one by one. */
  function DeleteAll(s: Svc, ids: seq<string>): Svc
    decreases |ids|
  {
    if ids == [] then s else DeleteAll(DeleteRoom(s, ids[0]).0, ids[1..])
  }

  /** The repository's answer, in the order the map iteration happens to give. */
  ghost predicate ListsExpired(c: Config, s: Svc, ids: seq<string>) {
    && (forall r :: r in ids <==> IsExpired(c, s, r))
    && (forall i, j :: 0 <= i < j < |ids| ==> ids[i] != ids[j])
  }

  // ---------------------------------------------------------------------------
  // Runs
  // ---------------------------------------------------------------------------

  datatype Op =
    | Create(id: string, source: string, target: string, draws: seq<Option<seq<Octet>>>)
    | Join(roomId: string, userId: string, lang: string, sid: string, peerOk: bool)
    | Leave(roomId: string, userId: string)
    | LeaveMessage(sid: string)
    | Delete(roomId: string)
    | Disconnect(sid: string)
    | Fire(sid: string)
    | Sweep(ids: seq<string>)
    | Touch(roomId: string)
    | Tick(elapsed: nat)

  /** Identifiers are fresh and well formed, timers fire when due, and joining users have a name. */
  ghost predicate Possible(c: Config, s: Svc, op: Op) {
    match op
    case Create(id, _, _, draws) =>
      && IsRoomId(id) && id !in s.roomIds && c.retries <= |draws|
      && (forall d :: d in draws && d.Some? ==> |d.value| == CODE_LENGTH)
    case Leave(roomId, _) => IsRoomId(roomId)
    case Join(_, userId, _, sid, _) => userId != "" && sid != "" && sid !in s.sessIds
    case Fire(sid) => TimerDue(c, s, sid)
    case Sweep(ids) => ListsExpired(c, s, ids)
    case _ => true
  }

  ghost function Do(c: Config, s: Svc, op: Op): Svc
    requires Possible(c, s, op)
  {
    match op
    case Create(id, source, target, draws) => CreateRoom(c, s, id, source, target, draws).0
    case Join(roomId, userId, lang, sid, peerOk) => JoinRoom(s, roomId, userId, lang, sid, peerOk).0
    case Leave(roomId, userId) => LeaveRoom(s, roomId, userId).0
    case LeaveMessage(sid) =>
      if sid !in s.sessions then s else LeaveRoom(s, s.sessions[sid].roomId, s.sessions[sid].userId).0
    case Delete(roomId) => DeleteRoom(s, roomId).0
    case Disconnect(sid) => OnDisconnect(s, sid)
    case Fire(sid) => FireTimer(s, sid)
    case Sweep(ids) => DeleteAll(s, ids)
    case Touch(roomId) => TouchRoom(s, roomId).0
    case Tick(elapsed) => s.(now := s.now + elapsed)
  }

  // ---------------------------------------------------------------------------
  // The service-wide invariant
  // ---------------------------------------------------------------------------

  ghost predicate RoomsOk(rooms: map<string, RoomState>, roomIds: set<string>) {
    forall r :: r in rooms ==>
      && IsRoomId(r) && r in roomIds && rooms[r].id == r && rooms[r].active
      && rooms[r].capacity == CAPACITY && |rooms[r].participants| <= CAPACITY
  }

  /** Six symbols each, and no two rooms share a code. */
  ghost predicate CodesOk(rooms: map<string, RoomState>) {
    && (forall r :: r in rooms ==> IsCode(rooms[r].shortCode))
    && (forall r, q :: r in rooms && q in rooms && rooms[r].shortCode == rooms[q].shortCode ==> r == q)
  }

  /** `sessions` and `lookup` are inverse to each other on (room, user), and participants are the users looked up. */
  ghost predicate Agree(rooms: map<string, RoomState>, sessions: map<string, Session>, lookup: map<string, string>) {
    && (forall sid :: sid in sessions ==> var x := sessions[sid];
          && x.id == sid && x.roomId in rooms && x.userId in rooms[x.roomId].participants
          && KeyOf(x) in lookup && lookup[KeyOf(x)] == sid)
    && (forall k :: k in lookup ==> lookup[k] in sessions && KeyOf(sessions[lookup[k]]) == k)
    && (forall r, u :: r in rooms && u in rooms[r].participants ==> Key(r, u) in lookup)
  }

  /** No session belongs to the empty user. */
  ghost predicate Named(sessions: map<string, Session>) {
    forall sid :: sid in sessions ==> sessions[sid].userId != ""
  }

  /** A registered pipeline runs between two different sessions of its full room. */
  ghost predicate PipesOk(rooms: map<string, RoomState>, sessions: map<string, Session>, pipelines: map<string, nat>, started: seq<Pipeline>) {
    && (forall r :: r in pipelines ==>
          && r in rooms && |rooms[r].participants| == CAPACITY
          && pipelines[r] < |started| && var p := started[pipelines[r]];
             && p.roomId == r && p.sessA != p.sessB
             && p.sessA in sessions && sessions[p.sessA].roomId == r
             && p.sessB in sessions && sessions[p.sessB].roomId == r)
    && (forall r :: r in rooms && |rooms[r].participants| == CAPACITY ==> r in pipelines)
  }

  /** Every pipeline ever launched is registered or cancelled, never both. */
  ghost predicate LaunchesOk(pipelines: map<string, nat>, started: seq<Pipeline>, cancelled: set<nat>) {
    && (forall i :: 0 <= i < |started| && i !in cancelled ==> started[i].roomId in pipelines && pipelines[started[i].roomId] == i)
    && (forall r :: r in pipelines ==> pipelines[r] < |started| && pipelines[r] !in cancelled && started[pipelines[r]].roomId == r)
    && (forall i :: i in cancelled ==> i < |started|)
  }

  ghost predicate TimersOk(s: Svc) {
    && (forall sid :: sid in s.sessions ==> sid in s.sessIds && sid != "")
    && (forall sid :: sid in s.timers ==> sid in s.sessIds && s.timers[sid].roomId in s.roomIds && s.timers[sid].armedAt <= s.now)
    && (forall sid :: sid in s.timers && sid in s.sessions ==> s.sessions[sid].roomId == s.timers[sid].roomId)
  }

  ghost predicate Inv(s: Svc) {
    && RoomsOk(s.rooms, s.roomIds)
    && CodesOk(s.rooms)
    && Agree(s.rooms, s.sessions, s.lookup) && Named(s.sessions)
    && s.peers == s.sessions.Keys
    && PipesOk(s.rooms, s.sessions, s.pipelines, s.started)
    && LaunchesOk(s.pipelines, s.started, s.cancelled)
    && TimersOk(s)
  }

  // ---------------------------------------------------------------------------
  // Keeping the invariant: removals
  // ---------------------------------------------------------------------------

  /** In a good state the scan finds exactly the room's sessions and their keys. */
  lemma ScanFindsRoom(s: Svc, roomId: string)
    requires RoomsOk(s.rooms, s.roomIds) && Agree(s.rooms, s.sessions, s.lookup) && Named(s.sessions) && roomId in s.rooms
    ensures forall sid :: sid in ScannedSessions(s, roomId) <==> InRoom(s, sid, roomId)
    ensures forall k :: k in ScannedKeys(s, roomId) <==> k in s.lookup && InRoom(s, s.lookup[k], roomId)
  {
    forall k | k in s.lookup ensures Scanned(k, roomId) <==> InRoom(s, s.lookup[k], roomId) {
      var x := s.sessions[s.lookup[k]];
      ScanIsExact(roomId, x.roomId, x.userId);
    }
    forall sid | InRoom(s, sid, roomId) ensures sid in ScannedSessions(s, roomId) {
      assert KeyOf(s.sessions[sid]) in s.lookup;
    }
  }

  lemma StopKeepsLaunches(s: Svc, roomId: string)
    requires LaunchesOk(s.pipelines, s.started, s.cancelled)
    ensures var s' := StopPipeline(s, roomId); LaunchesOk(s'.pipelines, s'.started, s'.cancelled)
  {
  }

  lemma DeleteKeepsAgree(s: Svc, roomId: string)
    requires RoomsOk(s.rooms, s.roomIds) && Agree(s.rooms, s.sessions, s.lookup) && Named(s.sessions) && roomId in s.rooms
    ensures var s' := DeleteRoom(s, roomId).0; Agree(s'.rooms, s'.sessions, s'.lookup)
  {
    ScanFindsRoom(s, roomId);
    var s' := DeleteRoom(s, roomId).0;
    forall r, u | r in s'.rooms && u in s'.rooms[r].participants ensures Key(r, u) in s'.lookup {
      if InRoom(s, s.lookup[Key(r, u)], roomId) {
        var x := s.sessions[s.lookup[Key(r, u)]];
        KeyInjective(r, u, x.roomId, x.userId);
      }
    }
  }

  lemma DeleteKeepsPipes(s: Svc, roomId: string)
    requires RoomsOk(s.rooms, s.roomIds) && Agree(s.rooms, s.sessions, s.lookup) && Named(s.sessions) && roomId in s.rooms
    requires PipesOk(s.rooms, s.sessions, s.pipelines, s.started)
    ensures var s' := DeleteRoom(s, roomId).0; PipesOk(s'.rooms, s'.sessions, s'.pipelines, s'.started)
  {
    hide RoomsOk, Agree, Named, ScannedKeys, ScannedSessions;
    ScanFindsRoom(s, roomId);
  }

  lemma DeleteKeepsInv(s: Svc, roomId: string)
    requires Inv(s)
    ensures Inv(DeleteRoom(s, roomId).0)
  {
    if roomId in s.rooms {
      DeleteKeepsAgree(s, roomId);
      DeleteKeepsPipes(s, roomId);
      StopKeepsLaunches(s, roomId);
    }
  }

  /** The session a user leaves with is that user's session in that room. */
  lemma LeaverIsMember(s: Svc, roomId: string, userId: string)
    requires RoomsOk(s.rooms, s.roomIds) && Agree(s.rooms, s.sessions, s.lookup)
    requires IsRoomId(roomId) && Key(roomId, userId) in s.lookup
    ensures var x := s.sessions[s.lookup[Key(roomId, userId)]];
      x.roomId == roomId && x.userId == userId && roomId in s.rooms && userId in s.rooms[roomId].participants
  {
    var x := s.sessions[s.lookup[Key(roomId, userId)]];
    KeyInjective(roomId, userId, x.roomId, x.userId);
  }

  /** Removing one session, its key and its participant keeps the maps in agreement. */
  lemma RemoveMember(rooms: map<string, RoomState>, sessions: map<string, Session>, lookup: map<string, string>, sid: string)
    requires Agree(rooms, sessions, lookup) && sid in sessions
    requires forall r :: r in rooms ==> IsRoomId(r)
    ensures var x := sessions[sid];
      Agree(rooms[x.roomId := rooms[x.roomId].AfterLeave(x.userId)], sessions - {sid}, lookup - {KeyOf(x)})
  {
    var x := sessions[sid];
    var rooms', sessions', lookup' := rooms[x.roomId := rooms[x.roomId].AfterLeave(x.userId)], sessions - {sid}, lookup - {KeyOf(x)};
    forall r, u | r in rooms' && u in rooms'[r].participants ensures Key(r, u) in lookup' {
      if Key(r, u) == KeyOf(x) {
        KeyInjective(r, u, x.roomId, x.userId);
      }
    }
    forall s | s in sessions' ensures var y := sessions'[s]; y.userId in rooms'[y.roomId].participants && KeyOf(y) in lookup' {
      assert s == lookup[KeyOf(sessions[s])];
    }
  }

  lemma LeaveUnfillsRoom(s: Svc, roomId: string, userId: string)
    requires RoomsOk(s.rooms, s.roomIds) && roomId in s.rooms && userId in s.rooms[roomId].participants
    ensures RoomsOk(s.rooms[roomId := s.rooms[roomId].AfterLeave(userId)], s.roomIds)
    ensures |s.rooms[roomId].AfterLeave(userId).participants| < CAPACITY
  {
    var ps := s.rooms[roomId].participants;
    assert |ps - {userId}| == |ps| - 1;
  }

  lemma LeaveKeepsPipes(rooms: map<string, RoomState>, sessions: map<string, Session>, pipelines: map<string, nat>, started: seq<Pipeline>,
                        r: RoomState, sid: string)
    requires PipesOk(rooms, sessions, pipelines, started)
    requires sid in sessions && |r.participants| < CAPACITY
    ensures var roomId := sessions[sid].roomId;
      PipesOk(rooms[roomId := r], sessions - {sid}, pipelines - {roomId}, started)
  {
  }

  /** What leaving takes out: the session, its key, its participant and its room's pipeline. */
  function Without(s: Svc, sid: string): Svc
    requires sid in s.sessions && s.sessions[sid].roomId in s.rooms
  {
    var x := s.sessions[sid];
    StopPipeline(s.(peers := s.peers - {sid}, rooms := s.rooms[x.roomId := s.rooms[x.roomId].AfterLeave(x.userId)],
                    sessions := s.sessions - {sid}, lookup := s.lookup - {KeyOf(x)}), x.roomId)
  }

  lemma SessionHasRoom(s: Svc, sid: string)
    requires RoomsOk(s.rooms, s.roomIds) && Agree(s.rooms, s.sessions, s.lookup) && sid in s.sessions
    ensures var x := s.sessions[sid]; x.roomId in s.rooms && x.userId in s.rooms[x.roomId].participants
    ensures forall r :: r in s.rooms ==> IsRoomId(r)
  {
  }

  lemma WithoutKeepsRest(s: Svc, sid: string)
    requires CodesOk(s.rooms) && Named(s.sessions) && TimersOk(s) && sid in s.sessions && s.sessions[sid].roomId in s.rooms
    ensures CodesOk(Without(s, sid).rooms) && Named(Without(s, sid).sessions) && TimersOk(Without(s, sid))
  {
    var x := s.sessions[sid];
    UpdateKeepsCodes(s.rooms, x.roomId, s.rooms[x.roomId].AfterLeave(x.userId));
  }

  lemma WithoutKeepsInv(s: Svc, sid: string)
    requires Inv(s) && sid in s.sessions
    ensures Inv(Without(s, sid))
  {
    hide RoomsOk, CodesOk, Agree, Named, PipesOk, LaunchesOk, TimersOk, RoomState.AfterLeave;
    SessionHasRoom(s, sid);
    WithoutKeepsRest(s, sid);
    var x := s.sessions[sid];
    var r := s.rooms[x.roomId].AfterLeave(x.userId);
    RemoveMember(s.rooms, s.sessions, s.lookup, sid);
    LeaveUnfillsRoom(s, x.roomId, x.userId);
    LeaveKeepsPipes(s.rooms, s.sessions, s.pipelines, s.started, r, sid);
    StopKeepsLaunches(s, x.roomId);
  }

  /**
   Leaving takes out exactly the user's session; it never dereferences a missing one. A key that was made
   with a room identifier no room has closes the connection of whoever owns it.
   */
  lemma LeaveTakesOutSession(s: Svc, roomId: string, userId: string)
    requires RoomsOk(s.rooms, s.roomIds) && Agree(s.rooms, s.sessions, s.lookup)
    ensures var key := Key(roomId, userId);
      LeaveRoom(s, roomId, userId) ==
        if key !in s.lookup then (s, Err(SessionNotFound))
        else if roomId in s.rooms then (Without(s, s.lookup[key]), Ok(""))
        else (s.(peers := s.peers - {s.lookup[key]}), Err(RoomNotFound))
  {
    if Key(roomId, userId) in s.lookup && roomId in s.rooms {
      LeaverIsMember(s, roomId, userId);
    }
  }

  // ---------------------------------------------------------------------------
  // Keeping the invariant: additions
  // ---------------------------------------------------------------------------

  ghost predicate Gains(r: RoomState, r': RoomState, userId: string) {
    && userId !in r.participants
    && r' == r.(participants := r.participants + {userId}, lastActivity := r'.lastActivity)
  }

  lemma AddMember(rooms: map<string, RoomState>, sessions: map<string, Session>, lookup: map<string, string>, x: Session, r: RoomState)
    requires Agree(rooms, sessions, lookup) && forall r :: r in rooms ==> IsRoomId(r)
    requires x.roomId in rooms && Gains(rooms[x.roomId], r, x.userId) && x.id !in sessions
    ensures Agree(rooms[x.roomId := r], sessions[x.id := x], lookup[KeyOf(x) := x.id])
  {
    forall sid | sid in sessions ensures KeyOf(sessions[sid]) != KeyOf(x) {
      var y := sessions[sid];
      if KeyOf(y) == KeyOf(x) {
        KeyInjective(x.roomId, x.userId, y.roomId, y.userId);
      }
    }
  }

  lemma SoleElement(s: set<string>, a: string, b: string)
    requires |s| == 1 && a in s && b in s
    ensures a == b
  {
    assert |s - {a}| == 0;
  }

  /** A participant's key leads to a session of that room and user. */
  lemma ParticipantHasSession(s: Svc, roomId: string, userId: string)
    requires RoomsOk(s.rooms, s.roomIds) && Agree(s.rooms, s.sessions, s.lookup)
    requires roomId in s.rooms && userId in s.rooms[roomId].participants
    ensures var sid := s.lookup[Key(roomId, userId)]; InRoom(s, sid, roomId) && s.sessions[sid].userId == userId
  {
    var x := s.sessions[s.lookup[Key(roomId, userId)]];
    KeyInjective(roomId, userId, x.roomId, x.userId);
  }

  /** In a good state a room with one participant has exactly one session. */
  lemma SoleSession(s: Svc, roomId: string) returns (a: string)
    requires RoomsOk(s.rooms, s.roomIds) && Agree(s.rooms, s.sessions, s.lookup)
    requires roomId in s.rooms && |s.rooms[roomId].participants| == 1
    ensures forall b :: InRoom(s, b, roomId) <==> b == a
  {
    var ps := s.rooms[roomId].participants;
    var u :| u in ps;
    a := s.lookup[Key(roomId, u)];
    ParticipantHasSession(s, roomId, u);
    forall b | InRoom(s, b, roomId) ensures b == a {
      SoleElement(ps, u, s.sessions[b].userId);
    }
  }

  lemma PipesWhileNotFull(rooms: map<string, RoomState>, sessions: map<string, Session>, pipelines: map<string, nat>, started: seq<Pipeline>,
                          x: Session, r: RoomState)
    requires PipesOk(rooms, sessions, pipelines, started)
    requires x.id !in sessions && x.roomId in rooms && |rooms[x.roomId].participants| < CAPACITY && |r.participants| != CAPACITY
    ensures PipesOk(rooms[x.roomId := r], sessions[x.id := x], pipelines, started)
  {
  }

  lemma PipesWhenFilled(rooms: map<string, RoomState>, sessions: map<string, Session>, pipelines: map<string, nat>, started: seq<Pipeline>,
                        x: Session, r: RoomState, other: string)
    requires PipesOk(rooms, sessions, pipelines, started)
    requires x.id !in sessions && x.roomId in rooms && |rooms[x.roomId].participants| < CAPACITY && |r.participants| == CAPACITY
    requires other in sessions && sessions[other].roomId == x.roomId
    ensures PipesOk(rooms[x.roomId := r], sessions[x.id := x], pipelines[x.roomId := |started|],
                    started + [Pipeline(x.roomId, other, x.id)])
    ensures x.roomId !in pipelines
  {
  }

  lemma LaunchKeepsLaunches(pipelines: map<string, nat>, started: seq<Pipeline>, cancelled: set<nat>, p: Pipeline)
    requires LaunchesOk(pipelines, started, cancelled) && p.roomId !in pipelines
    ensures LaunchesOk(pipelines[p.roomId := |started|], started + [p], cancelled)
  {
  }

  ghost predicate CanAdmit(s: Svc, x: Session) {
    && x.roomId in s.rooms && s.rooms[x.roomId].TryJoin(x.userId).Joined?
    && x.id !in s.sessIds && x.id != ""
  }

  /** The room as stored after a successful new join. */
  function Filled(s: Svc, x: Session): RoomState
    requires x.roomId in s.rooms
  {
    s.rooms[x.roomId].AfterJoin(x.userId).(lastActivity := Some(s.now))
  }

  lemma FilledRoom(s: Svc, x: Session)
    requires RoomsOk(s.rooms, s.roomIds) && CanAdmit(s, x)
    ensures var r, r' := s.rooms[x.roomId], Filled(s, x);
      && Gains(r, r', x.userId) && |r'.participants| == |r.participants| + 1 <= CAPACITY
      && (r'.IsFull() <==> |r.participants| == 1)
    ensures RoomsOk(s.rooms[x.roomId := Filled(s, x)], s.roomIds)
  {
  }

  /** The state after a successful new join, before a pipeline is launched. */
  function Stored(s: Svc, x: Session): Svc
    requires x.roomId in s.rooms
  {
    s.(rooms := s.rooms[x.roomId := Filled(s, x)], sessions := s.sessions[x.id := x], lookup := s.lookup[KeyOf(x) := x.id],
       peers := s.peers + {x.id}, sessIds := s.sessIds + {x.id})
  }

  /** The iteration's pick is forced: a filled room has exactly one session besides the new one. */
  lemma PartnerIsForced(s: Svc, x: Session) returns (other: string)
    requires RoomsOk(s.rooms, s.roomIds) && Agree(s.rooms, s.sessions, s.lookup) && x.roomId in s.rooms
    requires x.id !in s.sessions && |s.rooms[x.roomId].participants| == 1
    ensures forall b :: InRoom(Stored(s, x), b, x.roomId) && b != x.id <==> b == other
    ensures Partner(Stored(s, x), x.roomId, x.id) == Some(other) && InRoom(s, other, x.roomId)
  {
    other := SoleSession(s, x.roomId);
    var s1 := Stored(s, x);
    forall b ensures InRoom(s1, b, x.roomId) && b != x.id <==> b == other {
      assert InRoom(s1, b, x.roomId) && b != x.id <==> InRoom(s, b, x.roomId);
    }
    assert InRoom(s1, other, x.roomId) && other != x.id;
  }

  /** A successful new join stores the session, and launches a pipeline exactly when it fills the room. */
  lemma RegisterResult(s: Svc, x: Session)
    requires x.roomId in s.rooms
    ensures var s1 := Stored(s, x); var partner := Partner(s1, x.roomId, x.id);
      Register(Admitted(s, x), x) ==
        if Filled(s, x).IsFull() && partner.Some? then StartPipeline(s1, x.roomId, partner.value, x.id) else s1
  {
    assert Admitted(s, x).rooms[x.roomId := Filled(s, x)] == s.rooms[x.roomId := Filled(s, x)];
  }

  lemma UpdateKeepsCodes(rooms: map<string, RoomState>, roomId: string, r: RoomState)
    requires CodesOk(rooms) && roomId in rooms && r.shortCode == rooms[roomId].shortCode
    ensures CodesOk(rooms[roomId := r])
  {
  }

  lemma StoredKeepsTimers(s: Svc, x: Session)
    requires TimersOk(s) && CanAdmit(s, x)
    ensures TimersOk(Stored(s, x))
  {
  }

  lemma StoredKeepsRooms(s: Svc, x: Session)
    requires RoomsOk(s.rooms, s.roomIds) && CodesOk(s.rooms) && CanAdmit(s, x)
    ensures RoomsOk(Stored(s, x).rooms, s.roomIds) && CodesOk(Stored(s, x).rooms)
  {
    FilledRoom(s, x);
    UpdateKeepsCodes(s.rooms, x.roomId, Filled(s, x));
  }

  lemma StoredKeepsAgree(s: Svc, x: Session)
    requires RoomsOk(s.rooms, s.roomIds) && Agree(s.rooms, s.sessions, s.lookup) && Named(s.sessions)
    requires CanAdmit(s, x) && x.id !in s.sessions
    ensures var s1 := Stored(s, x); Agree(s1.rooms, s1.sessions, s1.lookup) && (Named(s1.sessions) <==> x.userId != "")
  {
    FilledRoom(s, x);
    AddMember(s.rooms, s.sessions, s.lookup, x, Filled(s, x));
    assert Stored(s, x).sessions[x.id] == x;
  }

  lemma StoredKeepsPipes(s: Svc, x: Session)
    requires PipesOk(s.rooms, s.sessions, s.pipelines, s.started) && LaunchesOk(s.pipelines, s.started, s.cancelled)
    requires RoomsOk(s.rooms, s.roomIds) && Agree(s.rooms, s.sessions, s.lookup) && CanAdmit(s, x) && x.id !in s.sessions
    ensures var s' := Register(Admitted(s, x), x);
      PipesOk(s'.rooms, s'.sessions, s'.pipelines, s'.started) && LaunchesOk(s'.pipelines, s'.started, s'.cancelled)
  {
    var r := Filled(s, x);
    RegisterResult(s, x);
    FilledRoom(s, x);
    if r.IsFull() {
      var other := PartnerIsForced(s, x);
      PipesWhenFilled(s.rooms, s.sessions, s.pipelines, s.started, x, r, other);
      LaunchKeepsLaunches(s.pipelines, s.started, s.cancelled, Pipeline(x.roomId, other, x.id));
    } else {
      PipesWhileNotFull(s.rooms, s.sessions, s.pipelines, s.started, x, r);
    }
  }

  lemma FreshSession(s: Svc, x: Session)
    requires TimersOk(s) && CanAdmit(s, x)
    ensures x.id !in s.sessions && x.roomId in s.rooms
  {
  }

  lemma LaunchKeepsTimers(s: Svc, roomId: string, a: string, b: string)
    requires TimersOk(s)
    ensures TimersOk(StartPipeline(s, roomId, a, b))
  {
  }

  /** Launching the pipeline changes nothing else. */
  lemma RegisteredFields(s: Svc, x: Session)
    requires x.roomId in s.rooms
    ensures var s1, s' := Stored(s, x), Register(Admitted(s, x), x);
      && s'.rooms == s1.rooms && s'.sessions == s1.sessions && s'.lookup == s1.lookup && s'.roomIds == s.roomIds
      && (TimersOk(s1) ==> TimersOk(s')) && (s.peers == s.sessions.Keys ==> s'.peers == s'.sessions.Keys)
  {
    hide Filled, Partner, Register, TimersOk;
    RegisterResult(s, x);
    var s1, partner := Stored(s, x), Partner(Stored(s, x), x.roomId, x.id);
    if partner.Some? && TimersOk(s1) {
      LaunchKeepsTimers(s1, x.roomId, partner.value, x.id);
    }
  }

  lemma RegisterKeepsInv(s: Svc, x: Session)
    requires Inv(s) && CanAdmit(s, x)
    ensures Inv(Register(Admitted(s, x), x)) <==> x.userId != ""
  {
    hide RoomsOk, CodesOk, Agree, Named, PipesOk, LaunchesOk, TimersOk, Stored, Register, CanAdmit;
    FreshSession(s, x);
    RegisteredFields(s, x);
    StoredKeepsTimers(s, x);
    StoredKeepsRooms(s, x);
    StoredKeepsAgree(s, x);
    StoredKeepsPipes(s, x);
  }

  lemma CancelKeepsInv(s: Svc, roomId: string)
    requires Inv(s)
    ensures Inv(CancelTimers(s, roomId))
  {
  }

  /** Taking the participant out again restores the rooms. */
  lemma RollbackRestores(s: Svc, x: Session)
    requires x.roomId in s.rooms && s.rooms[x.roomId].TryJoin(x.userId).Joined?
    ensures RolledBack(s, x) == s.(sessIds := s.sessIds + {x.id})
  {
    LeaveUndoesJoin(s.rooms[x.roomId], x.userId);
    assert s.rooms[x.roomId := s.rooms[x.roomId]] == s.rooms;
  }

  /** The ways a join can end, whatever the state. */
  lemma JoinOutcomes(s: Svc, roomId: string, userId: string, lang: string, sid: string, peerOk: bool)
    ensures var (s', reply) := JoinRoom(s, roomId, userId, lang, sid, peerOk);
      var x, s1 := Session(sid, roomId, userId, lang), CancelTimers(s, roomId);
      || (s' == s && !reply.Ok?)
      || (roomId in s.rooms && userId in s.rooms[roomId].participants &&
           (Key(roomId, userId) in s.lookup ==> s' == s1 && reply == Ok(s.lookup[Key(roomId, userId)])))
      || (s' == s1.(sessIds := s1.sessIds + {sid}) && reply == Err(PeerFailed) && !peerOk)
      || (x.roomId in s.rooms && s.rooms[roomId].TryJoin(userId).Joined? && s' == Register(Admitted(s1, x), x) && reply == Ok(sid) && peerOk)
  {
    if roomId in s.rooms && s.rooms[roomId].TryJoin(userId).Joined? {
      RollbackRestores(CancelTimers(s, roomId), Session(sid, roomId, userId, lang));
    }
  }

  /** A join that fails, for whatever reason, changes nothing but the cancelled grace timers. */
  lemma FailedJoinOnlyCancelsTimers(s: Svc, roomId: string, userId: string, lang: string, sid: string, peerOk: bool)
    requires Inv(s) && !JoinRoom(s, roomId, userId, lang, sid, peerOk).1.Ok?
    ensures var s' := JoinRoom(s, roomId, userId, lang, sid, peerOk).0;
      s' == s || (s' == CancelTimers(s, roomId).(sessIds := s.sessIds + {sid}) && !peerOk)
  {
    JoinOutcomes(s, roomId, userId, lang, sid, peerOk);
    if roomId in s.rooms && userId in s.rooms[roomId].participants {
      ParticipantHasSession(s, roomId, userId);
    }
  }

  /** A user who is already in the room gets the session back; nothing but grace timers changes. */
  lemma RejoinReturnsSameSession(s: Svc, roomId: string, userId: string, lang: string, sid: string, peerOk: bool)
    requires Inv(s) && roomId in s.rooms && userId in s.rooms[roomId].participants
    requires lang != "" && (lang == s.rooms[roomId].sourceLang || lang == s.rooms[roomId].targetLang)
    ensures var key := Key(roomId, userId);
      && key in s.lookup && InRoom(s, s.lookup[key], roomId) && s.sessions[s.lookup[key]].userId == userId
      && JoinRoom(s, roomId, userId, lang, sid, peerOk) == (CancelTimers(s, roomId), Ok(s.lookup[key]))
  {
    ParticipantHasSession(s, roomId, userId);
  }

  lemma IdsKeepInv(s: Svc, sid: string)
    requires Inv(s)
    ensures Inv(s.(sessIds := s.sessIds + {sid}))
  {
  }

  /** Whatever its ending, a join keeps the invariant, unless it admits the empty user. */
  lemma JoinKeepsInv(s: Svc, roomId: string, userId: string, lang: string, sid: string, peerOk: bool)
    requires Inv(s) && sid != "" && sid !in s.sessIds
    ensures var (s', reply) := JoinRoom(s, roomId, userId, lang, sid, peerOk); Inv(s') <==> userId != "" || !reply.Ok?
  {
    var s1 := CancelTimers(s, roomId);
    JoinOutcomes(s, roomId, userId, lang, sid, peerOk);
    CancelKeepsInv(s, roomId);
    IdsKeepInv(s1, sid);
    if roomId in s.rooms && userId in s.rooms[roomId].participants {
      ParticipantHasSession(s, roomId, userId);
    } else if roomId in s.rooms && s.rooms[roomId].TryJoin(userId).Joined? {
      RegisterKeepsInv(s1, Session(sid, roomId, userId, lang));
    }
  }

  // ---------------------------------------------------------------------------
  // Short codes
  // ---------------------------------------------------------------------------

  /** The search gives up exactly when every attempted code collided, and otherwise finds the first free one. */
  lemma {:induction false} SearchCodeOutcome(rooms: map<string, RoomState>, draws: seq<Option<seq<Octet>>>, attempts: nat)
    requires attempts <= |draws|
    ensures SearchCode(rooms, draws, attempts).Exhausted?
      <==> forall i :: 0 <= i < attempts ==> draws[i].Some? && CodeTaken(rooms, CodeOf(draws[i].value))
    ensures SearchCode(rooms, draws, attempts).Found?
      <==> exists n :: 0 <= n < attempts && FirstFree(rooms, draws, n)
    ensures forall n :: 0 <= n < attempts && FirstFree(rooms, draws, n) ==>
      SearchCode(rooms, draws, attempts) == Found(CodeOf(draws[n].value))
    decreases attempts
  {
    if attempts > 0 && draws[0].Some? && CodeTaken(rooms, CodeOf(draws[0].value)) {
      var rest := draws[1..];
      SearchCodeOutcome(rooms, rest, attempts - 1);
      assert forall i :: 0 <= i < attempts - 1 ==> rest[i] == draws[i + 1];
      forall n | 0 <= n < attempts - 1 ensures FirstFree(rooms, rest, n) <==> FirstFree(rooms, draws, n + 1) {
        FirstFreeShift(rooms, draws, n);
      }
      forall n | 0 <= n < attempts && FirstFree(rooms, draws, n) ensures n >= 1 && FirstFree(rooms, rest, n - 1) {
        if n >= 1 {
          FirstFreeShift(rooms, draws, n - 1);
        }
      }
    } else if attempts > 0 && draws[0].Some? {
      assert FirstFree(rooms, draws, 0);
    }
  }

  /** The draw at `n` gives a free code and all earlier ones gave taken codes. */
  ghost predicate FirstFree(rooms: map<string, RoomState>, draws: seq<Option<seq<Octet>>>, n: nat)
    requires n < |draws|
  {
    && draws[n].Some? && !CodeTaken(rooms, CodeOf(draws[n].value))
    && forall i :: 0 <= i < n ==> draws[i].Some? && CodeTaken(rooms, CodeOf(draws[i].value))
  }

  lemma FirstFreeShift(rooms: map<string, RoomState>, draws: seq<Option<seq<Octet>>>, n: nat)
    requires n + 1 < |draws| && draws[0].Some? && CodeTaken(rooms, CodeOf(draws[0].value))
    ensures FirstFree(rooms, draws[1..], n) <==> FirstFree(rooms, draws, n + 1)
  {
    var rest := draws[1..];
    assert forall i :: 0 <= i < n + 1 ==> rest[i] == draws[i + 1];
    if FirstFree(rooms, rest, n) {
      forall i | 0 <= i < n + 1 ensures draws[i].Some? && CodeTaken(rooms, CodeOf(draws[i].value)) {
        assert i > 0 ==> draws[i] == rest[i - 1];
      }
    }
  }

  lemma AddRoomKeepsPipes(rooms: map<string, RoomState>, sessions: map<string, Session>, pipelines: map<string, nat>, started: seq<Pipeline>, r: RoomState)
    requires PipesOk(rooms, sessions, pipelines, started) && r.id !in rooms && r.participants == {}
    ensures PipesOk(rooms[r.id := r], sessions, pipelines, started)
  {
  }

  lemma AddRoomKeepsAgree(rooms: map<string, RoomState>, sessions: map<string, Session>, lookup: map<string, string>, r: RoomState)
    requires Agree(rooms, sessions, lookup) && r.id !in rooms && r.participants == {}
    ensures Agree(rooms[r.id := r], sessions, lookup)
  {
  }

  ghost predicate IsNewRoom(s: Svc, r: RoomState) {
    && r.id !in s.rooms && r.participants == {} && r.active && r.capacity == CAPACITY && IsRoomId(r.id)
    && IsCode(r.shortCode) && forall q :: q in s.rooms ==> s.rooms[q].shortCode != r.shortCode
  }

  lemma AddRoomKeepsRooms(rooms: map<string, RoomState>, roomIds: set<string>, r: RoomState)
    requires RoomsOk(rooms, roomIds) && CodesOk(rooms) && r.participants == {} && r.active && r.capacity == CAPACITY && IsRoomId(r.id)
    requires IsCode(r.shortCode) && forall q :: q in rooms ==> rooms[q].shortCode != r.shortCode
    ensures RoomsOk(rooms[r.id := r], roomIds + {r.id}) && CodesOk(rooms[r.id := r])
  {
  }

  lemma AddRoomKeepsInv(s: Svc, r: RoomState)
    requires Inv(s) && IsNewRoom(s, r)
    ensures Inv(s.(rooms := s.rooms[r.id := r], roomIds := s.roomIds + {r.id}))
  {
    hide RoomsOk, CodesOk, Agree, Named, PipesOk, LaunchesOk;
    AddRoomKeepsRooms(s.rooms, s.roomIds, r);
    AddRoomKeepsPipes(s.rooms, s.sessions, s.pipelines, s.started, r);
    AddRoomKeepsAgree(s.rooms, s.sessions, s.lookup, r);
  }

  /** The code the search settles on belongs to no stored room. */
  lemma FoundCodeIsFree(rooms: map<string, RoomState>, draws: seq<Option<seq<Octet>>>, attempts: nat)
    requires attempts <= |draws| && (forall d :: d in draws && d.Some? ==> |d.value| == CODE_LENGTH)
    requires SearchCode(rooms, draws, attempts).Found?
    ensures var code := SearchCode(rooms, draws, attempts).code;
      IsCode(code) && forall r :: r in rooms ==> rooms[r].shortCode != code
  {
    SearchCodeOutcome(rooms, draws, attempts);
    var n :| 0 <= n < attempts && FirstFree(rooms, draws, n);
    assert draws[n] in draws;
    CodesAreUpper(CodeOf(draws[n].value));
  }

  /** Creating a room either stores a new one with a free code or only uses up an identifier. */
  lemma CreateOutcome(c: Config, s: Svc, id: string, source: string, target: string, draws: seq<Option<seq<Octet>>>)
    requires Possible(c, s, Create(id, source, target, draws)) && id !in s.rooms
    ensures var (s', reply) := CreateRoom(c, s, id, source, target, draws);
      if reply.Ok? then
        exists r: RoomState :: r.id == id && IsNewRoom(s, r) && s' == s.(rooms := s.rooms[r.id := r], roomIds := s.roomIds + {r.id})
      else s' == s.(roomIds := s.roomIds + {id})
  {
    var r := NewRoom(id, source, target);
    if r.Some? && SearchCode(s.rooms, draws, c.retries).Found? {
      FoundCodeIsFree(s.rooms, draws, c.retries);
      assert IsNewRoom(s, r.value.(shortCode := SearchCode(s.rooms, draws, c.retries).code));
    }
  }

  lemma CreateKeepsInv(c: Config, s: Svc, id: string, source: string, target: string, draws: seq<Option<seq<Octet>>>)
    requires Inv(s) && Possible(c, s, Create(id, source, target, draws))
    ensures Inv(CreateRoom(c, s, id, source, target, draws).0)
  {
    var (s', reply) := CreateRoom(c, s, id, source, target, draws);
    CreateOutcome(c, s, id, source, target, draws);
    if reply.Ok? {
      var r: RoomState :| r.id == id && IsNewRoom(s, r) && s' == s.(rooms := s.rooms[r.id := r], roomIds := s.roomIds + {r.id});
      AddRoomKeepsInv(s, r);
    }
  }

  /** In a good state, a code typed in any letter case matches the one room that carries it, whatever the map order. */
  lemma ShortCodeFindsOneRoom(s: Svc, roomId: string, typed: string)
    requires Inv(s) && roomId in s.rooms && |typed| == |s.rooms[roomId].shortCode|
    requires forall i :: 0 <= i < |typed| ==> SameLetter(typed[i], s.rooms[roomId].shortCode[i])
    ensures forall q :: q in s.rooms && s.rooms[q].shortCode == ToUpper(typed) <==> q == roomId
  {
    UpperIgnoresCase(typed, s.rooms[roomId].shortCode);
    CodesAreUpper(s.rooms[roomId].shortCode);
  }
}
