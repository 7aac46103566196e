/**
 The service object: the maps it updates in place and the room objects it shares with the
 repository. Every method leaves the state that the function of the same name in
 `RoomService` prescribes, and keeps the service-wide invariant.
 */
module ServiceObject {
  import opened Common
  import opened Rooms
  import opened RoomService
  import Runs = RoomServiceRuns

  /** Drawing one more code moves the search on by one. */
  lemma SearchStep(rooms: map<string, RoomState>, draws: seq<Option<seq<Octet>>>, i: nat, attempts: nat)
    requires i < attempts <= |draws|
    ensures SearchCode(rooms, draws[i..], attempts - i) ==
      if draws[i].None? then ReaderFailed
      else if CodeTaken(rooms, CodeOf(draws[i].value)) then SearchCode(rooms, draws[i + 1..], attempts - i - 1)
      else Found(CodeOf(draws[i].value))
  {
    assert draws[i..][0] == draws[i] && draws[i..][1..] == draws[i + 1..];
  }

  /** No two identifiers share a room object. */
  /** The keys among `keys` that the prefix scan selects. */
  ghost function ScannedIn(keys: set<string>, roomId: string): set<string> {
    set k | k in keys && Scanned(k, roomId)
  }

  /** The stored sessions those keys lead to. */
  ghost function OwnersOf(lookup: map<string, string>, sessions: map<string, Session>, keys: set<string>, roomId: string): set<string>
    requires keys <= lookup.Keys
  {
    set k | k in ScannedIn(keys, roomId) && lookup[k] in sessions :: lookup[k]
  }

  lemma NothingScanned(lookup: map<string, string>, sessions: map<string, Session>, roomId: string)
    ensures ScannedIn({}, roomId) == {} && OwnersOf(lookup, sessions, {}, roomId) == {}
  {
  }

  lemma OneMoreKey(lookup: map<string, string>, sessions: map<string, Session>, keys: set<string>, key: string, roomId: string)
    requires keys <= lookup.Keys && key in lookup && key !in keys
    ensures key !in ScannedIn(keys, roomId)
    ensures ScannedIn(keys + {key}, roomId) == ScannedIn(keys, roomId) + if Scanned(key, roomId) then {key} else {}
    ensures OwnersOf(lookup, sessions, keys + {key}, roomId) == OwnersOf(lookup, sessions, keys, roomId) +
      if Scanned(key, roomId) && lookup[key] in sessions then {lookup[key]} else {}
  {
  }

  /** What the loop that closes sessions has done after the keys `done`. */
  ghost predicate ClosedUpTo(keys0: map<string, string>, sess0: map<string, Session>, peers0: set<string>, done: set<string>, roomId: string,
                             lookup: map<string, string>, sessions: map<string, Session>, peers: set<string>)
    requires done <= keys0.Keys
  {
    var gone := OwnersOf(keys0, sess0, done, roomId);
    lookup == keys0 - ScannedIn(done, roomId) && sessions == sess0 - gone && peers == peers0 - gone
  }

  lemma NothingClosed(lookup: map<string, string>, sessions: map<string, Session>, peers: set<string>, roomId: string)
    ensures ClosedUpTo(lookup, sessions, peers, {}, roomId, lookup, sessions, peers)
  {
    NothingScanned(lookup, sessions, roomId);
  }

  lemma CloseOne(keys0: map<string, string>, sess0: map<string, Session>, peers0: set<string>, done: set<string>, key: string, roomId: string,
                 lookup: map<string, string>, sessions: map<string, Session>, peers: set<string>)
    requires done <= keys0.Keys && key in keys0 && key !in done
    requires ClosedUpTo(keys0, sess0, peers0, done, roomId, lookup, sessions, peers)
    ensures key in lookup
    ensures var sid, done' := lookup[key], done + {key};
      if !Scanned(key, roomId) then ClosedUpTo(keys0, sess0, peers0, done', roomId, lookup, sessions, peers)
      else if sid in sessions then ClosedUpTo(keys0, sess0, peers0, done', roomId, lookup - {key}, sessions - {sid}, peers - {sid})
      else ClosedUpTo(keys0, sess0, peers0, done', roomId, lookup - {key}, sessions, peers)
  {
    hide Scanned, ScannedIn, OwnersOf;
    OneMoreKey(keys0, sess0, done, key, roomId);
  }

  lemma ScansAgree(s: Svc, roomId: string)
    ensures ScannedKeys(s, roomId) == ScannedIn(s.lookup.Keys, roomId)
    ensures ScannedSessions(s, roomId) == OwnersOf(s.lookup, s.sessions, s.lookup.Keys, roomId)
  {
  }

  ghost predicate Distinct(rooms: map<string, Room>) {
    forall a, b :: a in rooms && b in rooms && rooms[a] == rooms[b] ==> a == b
  }

  class Service {
    const cfg: Config
    var rooms: map<string, Room>
    var sessions: map<string, Session>
    var lookup: map<string, string>
    var peers: set<string>
    var pipelines: map<string, nat>
    var graceTimers: map<string, Timer>
    var now: int

    // The pipelines launched so far, and those of them whose context was cancelled.
    var started: seq<Pipeline>
    var cancelled: set<nat>

    // Identifiers handed out so far.
    ghost var roomIds: set<string>
    ghost var sessIds: set<string>

    ghost function Objects(): set<Room>
      reads this`rooms
    {
      set id | id in rooms :: rooms[id]
    }

    ghost function Views(): map<string, RoomState>
      reads this`rooms, Objects()
    {
      map id | id in rooms :: rooms[id].View()
    }

    lemma ViewOf(id: string)
      ensures id in rooms <==> id in Views()
      ensures id in rooms ==> Views()[id] == rooms[id].View() && rooms[id] in Objects()
    {
    }

    ghost function State(): Svc
      reads this, Objects()
    {
      Svc(Views(), sessions, lookup, peers, pipelines, started, cancelled, graceTimers, now, roomIds, sessIds)
    }

    ghost predicate Valid()
      reads this, Objects()
    {
      Distinct(rooms) && Inv(State())
    }

    constructor (cfg: Config)
      ensures Valid() && State() == EMPTY && this.cfg == cfg
    {
      this.cfg := cfg;
      rooms, sessions, lookup, peers, pipelines, graceTimers, now := map[], map[], map[], {}, map[], map[], 0;
      started, cancelled, roomIds, sessIds := [], {}, {}, {};
      new;
      assert State() == EMPTY;
    }

    /** Some stored room with the code, in whatever order the map is iterated. */
    method FindByShortCode(code: string) returns (found: bool, id: string)
      ensures found <==> CodeTaken(Views(), code)
      ensures found ==> id in Views() && Views()[id].shortCode == ToUpper(code)
    {
      var normalized := ToUpper(code);
      var todo := rooms.Keys;
      while todo != {}
        invariant todo <= rooms.Keys
        invariant forall r :: r in Views() && r !in todo ==> Views()[r].shortCode != normalized
        decreases |todo|
      {
        var r :| r in todo;
        assert Views()[r].shortCode == rooms[r].shortCode;
        if rooms[r].shortCode == normalized {
          return true, r;
        }
        todo := todo - {r};
      }
      return false, "";
    }

    /** Draws codes until one is free or the attempts are used up. */
    method PickCode(draws: seq<Option<seq<Octet>>>) returns (result: CodeSearch)
      requires cfg.retries <= |draws| && forall d :: d in draws && d.Some? ==> |d.value| == CODE_LENGTH
      ensures result == SearchCode(Views(), draws, cfg.retries) && Views() == old(Views()) && Objects() == old(Objects())
    {
      hide CodeTaken;
      ghost var stored := Views();
      var attempt := 0;
      assert draws[0..] == draws;
      while attempt < cfg.retries
        invariant 0 <= attempt <= cfg.retries
        invariant SearchCode(stored, draws, cfg.retries) == SearchCode(stored, draws[attempt..], cfg.retries - attempt)
      {
        SearchStep(stored, draws, attempt, cfg.retries);
        assert draws[attempt] in draws;
        var code := GenerateShortCode(draws[attempt]);
        assert Views() == stored;
        if code.None? {
          return ReaderFailed;
        }
        var taken, _ := FindByShortCode(code.value);
        assert Views() == stored;
        if !taken {
          return Found(code.value);
        }
        attempt := attempt + 1;
      }
      assert Views() == stored;
      return Exhausted;
    }

    /** Puts a new room object under the identifier. */
    method Save(id: string, r: RoomState)
      requires Distinct(rooms)
      modifies this`rooms
      ensures Distinct(rooms) && fresh(Objects() - old(Objects()))
      ensures Views() == old(Views())[id := r]
    {
      var created := new Room(r);
      rooms := rooms[id := created];
    }

    method CreateRoom(id: string, source: string, target: string, draws: seq<Option<seq<Octet>>>) returns (reply: Reply)
      requires Valid() && Possible(cfg, State(), Create(id, source, target, draws))
      modifies this`rooms, this`roomIds
      ensures Valid() && fresh(Objects() - old(Objects()))
      ensures State() == RoomService.CreateRoom(cfg, old(State()), id, source, target, draws).0
      ensures reply == RoomService.CreateRoom(cfg, old(State()), id, source, target, draws).1
    {
      hide Inv, SearchCode, CodeTaken, Views;
      assert forall o: Room :: o in Objects() ==> (o as object) != this;
      ghost var before := State();
      ghost var after := RoomService.CreateRoom(cfg, before, id, source, target, draws).0;
      CreateKeepsInv(cfg, before, id, source, target, draws);
      roomIds := roomIds + {id};
      assert Views() == before.rooms;
      var r := NewRoom(id, source, target);
      if r.None? {
        return Err(InvalidLanguage);
      }
      var result := PickCode(draws);
      match result
      case Exhausted => return Err(CodeExhausted);
      case ReaderFailed => return Err(CodeReaderFailed);
      case Found(code) =>
        Save(id, r.value.(shortCode := code));
        assert State() == after;
        return Ok(id);
    }

    /** Closes the room's sessions found by the prefix scan over `lookup`; the rooms stay. */
    method CloseSessions(roomId: string)
      modifies this`sessions, this`peers, this`lookup
      ensures ClosedUpTo(old(lookup), old(sessions), old(peers), old(lookup).Keys, roomId, lookup, sessions, peers)
      ensures Views() == old(Views())
    {
      hide Scanned, ClosedUpTo;
      ghost var views := Views();
      CloseScanned(roomId);
      assert Views() == views;
    }

    method CloseScanned(roomId: string)
      modifies this`sessions, this`peers, this`lookup
      ensures ClosedUpTo(old(lookup), old(sessions), old(peers), old(lookup).Keys, roomId, lookup, sessions, peers)
    {
      hide Scanned, ClosedUpTo;
      ghost var keys0, done := lookup, {};
      NothingClosed(lookup, sessions, peers, roomId);
      var todo := lookup.Keys;
      while todo != {}
        invariant todo !! done && todo + done == keys0.Keys
        invariant ClosedUpTo(keys0, old(sessions), old(peers), done, roomId, lookup, sessions, peers)
        decreases |todo|
      {
        var key :| key in todo;
        CloseOne(keys0, old(sessions), old(peers), done, key, roomId, lookup, sessions, peers);
        done := done + {key};
        var sid := lookup[key];
        if Scanned(key, roomId) {
          if sid in sessions {
            peers := peers - {sid};
            sessions := sessions - {sid};
          }
          lookup := lookup - {key};
        }
        todo := todo - {key};
      }
      assert done == keys0.Keys;
    }

    method StopPipeline(roomId: string)
      modifies this`pipelines, this`cancelled
      ensures Views() == old(Views())
      ensures State() == RoomService.StopPipeline(old(State()), roomId)
    {
      ghost var views := Views();
      if roomId in pipelines {
        cancelled := cancelled + {pipelines[roomId]};
        pipelines := pipelines - {roomId};
      } else {
        assert pipelines - {roomId} == pipelines;
      }
      assert Views() == views;
    }

    /** `Room.Close` on the stored room. */
    method CloseStored(roomId: string)
      requires Distinct(rooms) && roomId in rooms
      modifies rooms[roomId]
      ensures Views() - {roomId} == old(Views()) - {roomId}
    {
      ghost var views := Views();
      rooms[roomId].Close();
      assert Views() - {roomId} == views - {roomId};
    }

    /** The repository's delete. */
    method DropStored(roomId: string)
      requires Distinct(rooms)
      modifies this`rooms
      ensures Distinct(rooms) && Objects() <= old(Objects()) && Views() == old(Views()) - {roomId}
    {
      rooms := rooms - {roomId};
    }

    method DeleteRoom(roomId: string) returns (reply: Reply)
      requires Valid()
      modifies this`sessions, this`peers, this`lookup, this`pipelines, this`cancelled, this`rooms, Objects()
      ensures Valid() && Objects() <= old(Objects())
      ensures State() == RoomService.DeleteRoom(old(State()), roomId).0
      ensures reply == RoomService.DeleteRoom(old(State()), roomId).1
    {
      hide Inv, Scanned, ScannedIn, OwnersOf, ScannedKeys, ScannedSessions, Distinct, Objects, Views;
      ViewOf(roomId);
      ghost var before := State();
      DeleteKeepsInv(before, roomId);
      ScansAgree(before, roomId);
      assert forall o: Room :: o in Objects() ==> (o as object) != this;
      if roomId !in rooms {
        return Err(RoomNotFound);
      }
      CloseStored(roomId);
      CloseSessions(roomId);
      DropStored(roomId);
      StopPipeline(roomId);
      return Ok("");
    }

    method SessionsInRoom(roomId: string) returns (ids: set<string>)
      ensures forall sid :: sid in ids <==> sid in sessions && sessions[sid].roomId == roomId
    {
      ids := {};
      var todo := sessions.Keys;
      while todo != {}
        invariant todo <= sessions.Keys
        invariant forall sid :: sid in ids <==> sid in sessions && sid !in todo && sessions[sid].roomId == roomId
        decreases |todo|
      {
        var sid :| sid in todo;
        if sessions[sid].roomId == roomId {
          ids := ids + {sid};
        }
        todo := todo - {sid};
      }
    }

    method StopTimers(ids: set<string>)
      modifies this`graceTimers
      ensures graceTimers == old(graceTimers) - ids
    {
      var todo := ids;
      while todo != {}
        invariant todo <= ids
        invariant forall sid :: sid in graceTimers <==> sid in old(graceTimers) && (sid in ids ==> sid in todo)
        invariant forall sid :: sid in graceTimers ==> graceTimers[sid] == old(graceTimers)[sid]
        decreases |todo|
      {
        var sid :| sid in todo;
        if sid in graceTimers {
          graceTimers := graceTimers - {sid};
        }
        todo := todo - {sid};
      }
    }

    /** Stops the timers of the room's live sessions. */
    method CancelGraceTimersForRoom(roomId: string)
      modifies this`graceTimers
      ensures Views() == old(Views())
      ensures State() == CancelTimers(old(State()), roomId)
    {
      ghost var before := State();
      var ids := SessionsInRoom(roomId);
      StopTimers(ids);
      assert Views() == before.rooms;
      CancelIsRemoval(before, roomId, ids);
    }

    /** The first other session of the room that the map iteration meets. */
    method FindPartner(roomId: string, sid: string) returns (other: Option<string>)
      ensures other.Some? ==> InRoom(State(), other.value, roomId) && other.value != sid
      ensures other.None? ==> forall x :: InRoom(State(), x, roomId) ==> x == sid
    {
      var todo := sessions.Keys;
      while todo != {}
        invariant todo <= sessions.Keys
        invariant forall x :: x in sessions && x !in todo && sessions[x].roomId == roomId ==> x == sid
        decreases |todo|
      {
        var x :| x in todo;
        if sessions[x].roomId == roomId && x != sid {
          return Some(x);
        }
        todo := todo - {x};
      }
      return None;
    }

    /** Launches the pipeline between the new session and the partner the iteration finds. */
    method LaunchPipeline(ghost s1: Svc, roomId: string, sid: string)
      requires State() == s1
      requires forall other :: InRoom(s1, other, roomId) && other != sid ==> Partner(s1, roomId, sid) == Some(other)
      modifies this`started, this`pipelines
      ensures Views() == old(Views())
      ensures var partner := Partner(s1, roomId, sid);
        State() == if partner.Some? then StartPipeline(s1, roomId, partner.value, sid) else s1
    {
      var sessA := FindPartner(roomId, sid);
      assert Views() == s1.rooms && State() == s1;
      if sessA.Some? {
        pipelines := pipelines[roomId := |started|];
        started := started + [Pipeline(roomId, sessA.value, sid)];
        assert Views() == s1.rooms;
      }
    }

    /** Stores a new member's session, stamps the room, and launches the pipeline if the room is full. */
    method Admit(ghost s: Svc, x: Session)
      requires Distinct(rooms) && x.roomId in rooms && Inv(s) && CanAdmit(s, x) && State() == Admitted(s, x)
      modifies this`sessions, this`lookup, this`started, this`pipelines, rooms[x.roomId]
      ensures State() == Register(Admitted(s, x), x)
    {
      hide Inv, InRoom, CanAdmit, Partner, Register, Objects, Views;
      assert forall o: Room :: o in Objects() ==> (o as object) != this;
      CanAdmitFinds(s, x);
      PickIsPartner(s, x);
      RegisterResult(s, x);
      AdmittedThenStamped(s, x);
      sessions := sessions[x.id := x];
      lookup := lookup[KeyOf(x) := x.id];
      TouchStored(x.roomId);
      assert State() == Stored(s, x);
      ViewOf(x.roomId);
      if |rooms[x.roomId].participants| >= rooms[x.roomId].capacity {
        LaunchPipeline(Stored(s, x), x.roomId, x.id);
      }
    }

    /** `Room.TouchActivity` on the stored room. */
    method TouchStored(roomId: string)
      requires Distinct(rooms) && roomId in rooms
      modifies rooms[roomId]
      ensures Views() == old(Views())[roomId := old(Views())[roomId].(lastActivity := Some(now))]
    {
      ghost var views := Views();
      rooms[roomId].TouchActivity(now);
      assert Views() == views[roomId := views[roomId].(lastActivity := Some(now))];
    }

    /** `Room.Join` on the stored room. */
    method JoinStored(roomId: string, userId: string) returns (joined: JoinReply)
      requires Distinct(rooms) && roomId in rooms
      modifies rooms[roomId]
      ensures joined == old(Views())[roomId].TryJoin(userId)
      ensures Views() == old(Views())[roomId := old(Views())[roomId].AfterJoin(userId)]
      ensures !joined.Joined? ==> Views() == old(Views())
    {
      ghost var views := Views();
      joined := rooms[roomId].Join(userId);
      assert Views() == views[roomId := views[roomId].AfterJoin(userId)];
      assert !joined.Joined? ==> Views() == views;
    }

    /** `Room.Leave` on the stored room. */
    method LeaveStored(roomId: string, userId: string)
      requires Distinct(rooms) && roomId in rooms
      modifies rooms[roomId]
      ensures Views() == old(Views())[roomId := old(Views())[roomId].AfterLeave(userId)]
    {
      ghost var views := Views();
      var _ := rooms[roomId].Leave(userId);
      assert Views() == views[roomId := views[roomId].AfterLeave(userId)];
    }

    /** The second half of a new join: connect, then admit or roll back. */
    method Connect(ghost s: Svc, x: Session, peerOk: bool) returns (reply: Reply)
      requires Distinct(rooms) && x.roomId in rooms && Inv(s) && CanAdmit(s, x)
      requires State() == s.(rooms := s.rooms[x.roomId := s.rooms[x.roomId].AfterJoin(x.userId)])
      modifies this`sessIds, this`peers, this`sessions, this`lookup, this`started, this`pipelines, rooms[x.roomId]
      ensures State() == if peerOk then Register(Admitted(s, x), x) else RolledBack(s, x)
      ensures reply == if peerOk then Ok(x.id) else Err(PeerFailed)
    {
      hide Inv, CanAdmit, Register, InRoom, Distinct, RoomState.AfterLeave, RoomState.AfterJoin, Objects, Views;
      assert forall o: Room :: o in Objects() ==> (o as object) != this;
      sessIds := sessIds + {x.id};
      if !peerOk {
        LeaveStored(x.roomId, x.userId);
        return Err(PeerFailed);
      }
      peers := peers + {x.id};
      Admit(s, x);
      return Ok(x.id);
    }

    method JoinRoom(roomId: string, userId: string, lang: string, sid: string, peerOk: bool) returns (reply: Reply)
      requires Valid() && sid != "" && sid !in sessIds
      modifies this, if roomId in rooms then {rooms[roomId]} else {}
      ensures Distinct(rooms) && rooms == old(rooms)
      ensures Valid() <==> userId != "" || !reply.Ok?
      ensures State() == RoomService.JoinRoom(old(State()), roomId, userId, lang, sid, peerOk).0
      ensures reply == RoomService.JoinRoom(old(State()), roomId, userId, lang, sid, peerOk).1
    {
      hide Inv, Register, CancelTimers, Key, RolledBack, Admitted, Distinct, RoomState.AfterJoin, Objects, Views;
      ViewOf(roomId);
      assert forall o: Room :: o in Objects() ==> (o as object) != this;
      ghost var before := State();
      ghost var s1 := CancelTimers(before, roomId);
      JoinKeepsInv(before, roomId, userId, lang, sid, peerOk);
      if lang == "" {
        return Err(MissingLang);
      }
      if roomId !in rooms {
        return Err(RoomNotFound);
      }
      if lang != rooms[roomId].sourceLang && lang != rooms[roomId].targetLang {
        return Err(LangNotSupported);
      }
      var joined := JoinStored(roomId, userId);
      if joined == Closed {
        return Err(RoomClosed);
      }
      if joined == Full {
        return Err(RoomFull);
      }
      CancelTimersCommutes(before, roomId, Views());
      CancelGraceTimersForRoom(roomId);
      if joined == AlreadyIn {
        // A participant always has a session, so the source's fall-through is never taken.
        RejoinReturnsSameSession(before, roomId, userId, lang, sid, peerOk);
        return Ok(lookup[Key(roomId, userId)]);
      }
      CancelKeepsInv(before, roomId);
      reply := Connect(s1, Session(sid, roomId, userId, lang), peerOk);
    }

    method LeaveRoom(roomId: string, userId: string) returns (reply: Reply)
      requires Valid()
      modifies this`sessions, this`peers, this`lookup, this`pipelines, this`cancelled
      modifies if roomId in rooms then {rooms[roomId]} else {}
      ensures Distinct(rooms) && !reply.Panic?
      ensures Valid() <==> roomId in rooms || Key(roomId, userId) !in old(lookup)
      ensures State() == RoomService.LeaveRoom(old(State()), roomId, userId).0
      ensures reply == RoomService.LeaveRoom(old(State()), roomId, userId).1
    {
      hide Inv, Key, RoomService.StopPipeline, Distinct, RoomState.AfterLeave, Objects, Views;
      ViewOf(roomId);
      assert forall o: Room :: o in Objects() ==> (o as object) != this;
      ghost var before := State();
      LeaverExists(before, roomId, userId);
      var key := Key(roomId, userId);
      if key !in lookup {
        return Err(SessionNotFound);
      }
      var sid := lookup[key];
      peers := peers - {sid};
      if roomId !in rooms {
        return Err(RoomNotFound);
      }
      LeaveStored(roomId, userId);
      sessions := sessions - {sid};
      lookup := lookup - {key};
      StopPipeline(roomId);
      return Ok("");
    }

    method OnDisconnect(sid: string)
      requires Valid()
      modifies this`graceTimers
      ensures Valid() && State() == RoomService.OnDisconnect(old(State()), sid)
    {
      hide Inv;
      ghost var before := State();
      Runs.DisconnectKeepsInv(before, sid);
      if sid == "" || sid !in sessions || sid in graceTimers {
        return;
      }
      graceTimers := graceTimers[sid := Timer(sessions[sid].roomId, now)];
      assert Views() == before.rooms;
    }

    /** The timer's callback. */
    method FireTimer(sid: string)
      requires Valid() && TimerDue(cfg, State(), sid)
      modifies this, Objects()
      ensures Valid() && State() == RoomService.FireTimer(old(State()), sid)
    {
      hide Inv;
      ghost var before := State();
      FiredTimerGone(before, sid);
      var roomId := graceTimers[sid].roomId;
      graceTimers := graceTimers - {sid};
      assert Views() == before.rooms;
      assert State() == before.(timers := before.timers - {sid});
      var _ := DeleteRoom(roomId);
    }

    method UpdateLastActivity(roomId: string) returns (reply: Reply)
      requires Valid()
      modifies if roomId in rooms then {rooms[roomId]} else {}
      ensures Valid() && (State(), reply) == TouchRoom(old(State()), roomId)
    {
      hide Inv;
      ghost var before := State();
      Runs.TouchKeepsInv(before, roomId);
      if roomId !in rooms {
        return Err(RoomNotFound);
      }
      TouchStored(roomId);
      return Ok("");
    }

    /** The rooms whose last activity is set and before the cutoff, in some order. */
    method ListExpired() returns (ids: seq<string>)
      ensures ListsExpired(cfg, State(), ids)
      ensures forall id :: id in ids <==>
        id in rooms && rooms[id].lastActivity.Some? && rooms[id].lastActivity.value < now - cfg.ttl
    {
      ids := [];
      var todo := rooms.Keys;
      while todo != {}
        invariant todo <= rooms.Keys
        invariant forall r :: r in ids <==> IsExpired(cfg, State(), r) && r !in todo
        invariant forall i, j :: 0 <= i < j < |ids| ==> ids[i] != ids[j]
        decreases |todo|
      {
        var r :| r in todo;
        assert r in Views() && Views()[r] == rooms[r].View();
        if rooms[r].lastActivity.Some? && rooms[r].lastActivity.value < now - cfg.ttl {
          assert IsExpired(cfg, State(), r);
          ids := ids + [r];
        }
        todo := todo - {r};
      }
    }

    /** Deletes every expired room; the ghost result is the order the iteration took. */
    method SweepExpiredRooms() returns (ghost order: seq<string>)
      requires Valid()
      modifies this, Objects()
      ensures Valid() && ListsExpired(cfg, old(State()), order)
      ensures State() == DeleteAll(old(State()), order)
    {
      hide Inv, ListsExpired;
      ghost var before := State();
      var ids := ListExpired();
      order := ids;
      var i := 0;
      assert Views() == before.rooms && ids[0..] == ids;
      while i < |ids|
        invariant 0 <= i <= |ids| && Valid() && Objects() <= old(Objects())
        invariant DeleteAll(State(), ids[i..]) == DeleteAll(before, ids)
      {
        assert ids[i..][0] == ids[i] && ids[i..][1..] == ids[i + 1..];
        var _ := DeleteRoom(ids[i]);
        i := i + 1;
      }
    }
  }

  /** A key in `lookup` leads to a session, and leaving with it keeps the invariant if the room exists. */
  lemma LeaverExists(s: Svc, roomId: string, userId: string)
    requires Inv(s)
    ensures Inv(LeaveRoom(s, roomId, userId).0) <==> roomId in s.rooms || Key(roomId, userId) !in s.lookup
    ensures Key(roomId, userId) in s.lookup ==> s.lookup[Key(roomId, userId)] in s.sessions
  {
    Runs.LeaveKeepsInv(s, roomId, userId);
  }

  lemma FiredTimerGone(s: Svc, sid: string)
    requires Inv(s)
    ensures Inv(s.(timers := s.timers - {sid}))
  {
    Runs.TimersKeepInv(s, s.timers - {sid}, s.now);
  }

  /** The timers a join cancels do not depend on the participants. */
  lemma CancelTimersCommutes(s: Svc, roomId: string, rooms: map<string, RoomState>)
    ensures CancelTimers(s.(rooms := rooms), roomId) == CancelTimers(s, roomId).(rooms := rooms)
    ensures CancelTimers(s, roomId) == s.(timers := CancelTimers(s, roomId).timers)
  {
  }

  lemma CancelIsRemoval(s: Svc, roomId: string, ids: set<string>)
    requires forall sid :: sid in ids <==> InRoom(s, sid, roomId)
    ensures CancelTimers(s, roomId).timers == s.timers - ids
  {
  }

  lemma CanAdmitFinds(s: Svc, x: Session)
    requires CanAdmit(s, x)
    ensures x.roomId in s.rooms
  {
  }

  lemma AdmittedThenStamped(s: Svc, x: Session)
    requires x.roomId in s.rooms
    ensures Admitted(s, x).rooms[x.roomId := Filled(s, x)] == s.rooms[x.roomId := Filled(s, x)]
  {
  }

  /** Whatever other session the iteration meets first is the partner. */
  lemma PickIsPartner(s: Svc, x: Session)
    requires Inv(s) && CanAdmit(s, x)
    ensures Filled(s, x).IsFull() ==> forall other :: InRoom(Stored(s, x), other, x.roomId) && other != x.id ==>
      Partner(Stored(s, x), x.roomId, x.id) == Some(other)
  {
    hide Agree, RoomsOk, CodesOk, PipesOk, LaunchesOk, Named, Partner, InRoom;
    FilledRoom(s, x);
    assert x.id !in s.sessions;
    if Filled(s, x).IsFull() {
      var other := PartnerIsForced(s, x);
    }
  }
}
