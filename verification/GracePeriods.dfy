/**
 Grace periods over timed runs: where an armed timer comes from, what a firing timer may
 delete, what a join does to the timers of its room, and the inputs on which the service falls short.
 */
module GracePeriods {
  import opened Common
  import opened Rooms
  import opened RoomService
  import opened RoomServiceRuns

  /** The join gets as far as cancelling the room's timers. */
  predicate ReachesCancel(s: Svc, op: Op) {
    && op.Join? && op.lang != "" && op.roomId in s.rooms
    && (op.lang == s.rooms[op.roomId].sourceLang || op.lang == s.rooms[op.roomId].targetLang)
    && (s.rooms[op.roomId].TryJoin(op.userId).Joined? || s.rooms[op.roomId].TryJoin(op.userId).AlreadyIn?)
  }

  lemma LeaveKeepsTimers(s: Svc, roomId: string, userId: string)
    ensures LeaveRoom(s, roomId, userId).0.timers == s.timers
  {
  }

  /** Only joins, disconnects and firings change the timers. */
  lemma OtherStepsKeepTimers(c: Config, s: Svc, op: Op)
    requires Inv(s) && Possible(c, s, op) && !op.Join? && !op.Disconnect? && !op.Fire?
    ensures Do(c, s, op).timers == s.timers
  {
    hide Inv;
    match op
    case LeaveMessage(x) =>
      if x in s.sessions {
        LeaveKeepsTimers(s, s.sessions[x].roomId, s.sessions[x].userId);
      }
    case Leave(roomId, userId) => LeaveKeepsTimers(s, roomId, userId);
    case Sweep(ids) => DeleteAllIsRestriction(s, ids);
    case _ =>
  }

  /** A timer survives an operation unchanged unless it fires, or a join on the room of its live session cancels it. */
  lemma TimersAfterStep(c: Config, s: Svc, op: Op, sid: string)
    requires Inv(s) && Possible(c, s, op)
    ensures var s' := Do(c, s, op); sid in s'.timers ==>
      || (sid in s.timers && s'.timers[sid] == s.timers[sid] && !(ReachesCancel(s, op) && InRoom(s, sid, op.roomId)) && op != Fire(sid))
      || (sid !in s.timers && op == Disconnect(sid) && sid in s.sessions && s'.timers[sid] == Timer(s.sessions[sid].roomId, s.now))
  {
    match op
    case Join(roomId, userId, lang, x, peerOk) => JoinTimers(s, roomId, userId, lang, x, peerOk);
    case Disconnect(_) =>
    case Fire(_) =>
    case _ => OtherStepsKeepTimers(c, s, op);
  }

  /** The timers after a join are the old ones, without those of the room's live sessions if the join got that far. */
  lemma JoinTimers(s: Svc, roomId: string, userId: string, lang: string, sid: string, peerOk: bool)
    ensures var op := Join(roomId, userId, lang, sid, peerOk);
      JoinRoom(s, roomId, userId, lang, sid, peerOk).0.timers == if ReachesCancel(s, op) then CancelTimers(s, roomId).timers else s.timers
  {
  }

  // ---------------------------------------------------------------------------
  // Where timers come from
  // ---------------------------------------------------------------------------

  lemma {:induction false} RunSnoc(c: Config, s: Svc, ops: seq<Op>, op: Op)
    requires ValidRun(c, s, ops + [op])
    ensures ValidRun(c, s, ops) && Possible(c, RunFrom(c, s, ops), op)
    ensures RunFrom(c, s, ops + [op]) == Do(c, RunFrom(c, s, ops), op)
    decreases |ops|
  {
    if ops == [] {
      assert (ops + [op])[1..] == [];
    } else {
      assert (ops + [op])[0] == ops[0] && (ops + [op])[1..] == ops[1..] + [op];
      RunSnoc(c, Do(c, s, ops[0]), ops[1..], op);
    }
  }

  /** The state before operation `i` of a valid run. */
  ghost function StateAt(c: Config, ops: seq<Op>, i: nat): Svc
    requires i <= |ops|
  {
    if ValidRun(c, EMPTY, ops[..i]) then RunFrom(c, EMPTY, ops[..i]) else EMPTY
  }

  /**
   The timer was armed by the disconnect at position `j` for a live session, and since then no join on
   that session's room reached the cancel step while the session was live.
   */
  ghost predicate ArmedBy(c: Config, ops: seq<Op>, sid: string, timer: Timer, j: nat)
    requires j < |ops|
  {
    && ops[j] == Disconnect(sid)
    && sid in StateAt(c, ops, j).sessions && sid !in StateAt(c, ops, j).timers
    && timer == Timer(StateAt(c, ops, j).sessions[sid].roomId, StateAt(c, ops, j).now)
    && forall i :: j < i < |ops| ==> !(ReachesCancel(StateAt(c, ops, i), ops[i]) && InRoom(StateAt(c, ops, i), sid, ops[i].roomId))
  }

  lemma ArmedByExtends(c: Config, prev: seq<Op>, op: Op, sid: string, timer: Timer, j: nat)
    requires j < |prev| && ArmedBy(c, prev, sid, timer, j)
    requires var s := StateAt(c, prev + [op], |prev|); !(ReachesCancel(s, op) && InRoom(s, sid, op.roomId))
    ensures ArmedBy(c, prev + [op], sid, timer, j)
  {
    var ops := prev + [op];
    assert forall i :: 0 <= i <= |prev| ==> ops[..i] == prev[..i];
  }

  /** Every armed timer has such an origin, in every run. */
  lemma {:induction false} TimersHaveOrigin(c: Config, ops: seq<Op>, sid: string)
    requires ValidRun(c, EMPTY, ops) && sid in RunFrom(c, EMPTY, ops).timers
    ensures exists j :: 0 <= j < |ops| && ArmedBy(c, ops, sid, RunFrom(c, EMPTY, ops).timers[sid], j)
    decreases |ops|
  {
    if ops != [] {
      var n := |ops| - 1;
      var prev, op := ops[..n], ops[n];
      assert ops == prev + [op];
      RunSnoc(c, EMPTY, prev, op);
      RunKeepsInv(c, EMPTY, prev);
      var s := RunFrom(c, EMPTY, prev);
      TimersAfterStep(c, s, op, sid);
      if sid in s.timers {
        TimersHaveOrigin(c, prev, sid);
        var j :| 0 <= j < |prev| && ArmedBy(c, prev, sid, s.timers[sid], j);
        ArmedByExtends(c, prev, op, sid, s.timers[sid], j);
      } else {
        assert ArmedBy(c, ops, sid, RunFrom(c, EMPTY, ops).timers[sid], n);
      }
    }
  }

  /**
   A timer that fires was armed at least the grace period ago, by the disconnect of its session, and no
   join on that room reached the cancel step in between while the session was live.
   */
  lemma FiringTimerWaitedItsGrace(c: Config, ops: seq<Op>, sid: string)
    requires ValidRun(c, EMPTY, ops) && Possible(c, RunFrom(c, EMPTY, ops), Fire(sid))
    ensures exists j :: (
      && 0 <= j < |ops| && ArmedBy(c, ops, sid, RunFrom(c, EMPTY, ops).timers[sid], j)
      && StateAt(c, ops, j).now + c.grace <= RunFrom(c, EMPTY, ops).now)
  {
    TimersHaveOrigin(c, ops, sid);
  }

  // ---------------------------------------------------------------------------
  // What a join guarantees
  // ---------------------------------------------------------------------------

  /** After a successful join no live session of the room has an armed timer. */
  lemma JoinLeavesNoLiveTimer(s: Svc, roomId: string, userId: string, lang: string, sid: string, peerOk: bool)
    requires Inv(s) && sid != "" && sid !in s.sessIds
    requires JoinRoom(s, roomId, userId, lang, sid, peerOk).1.Ok?
    ensures var s' := JoinRoom(s, roomId, userId, lang, sid, peerOk).0;
      forall x :: InRoom(s', x, roomId) ==> x !in s'.timers
  {
    JoinOutcomes(s, roomId, userId, lang, sid, peerOk);
    if userId in s.rooms[roomId].participants {
      ParticipantHasSession(s, roomId, userId);
    } else {
      RegisterResult(CancelTimers(s, roomId), Session(sid, roomId, userId, lang));
    }
  }

  /**
   The cancel step is there so that the room is not deleted under the user who rejoins. It achieves that
   exactly when no timer of the room belongs to a session that is already gone.
   */
  lemma JoinClearsRoomTimersExactlyWhen(s: Svc, roomId: string, userId: string, lang: string, sid: string, peerOk: bool)
    requires TimersOk(s) && JoinRoom(s, roomId, userId, lang, sid, peerOk).1.Ok?
    ensures var s' := JoinRoom(s, roomId, userId, lang, sid, peerOk).0;
      (forall x :: x in s'.timers ==> s'.timers[x].roomId != roomId)
      <==> (forall x :: x in s.timers && s.timers[x].roomId == roomId ==> x in s.sessions)
  {
    JoinTimers(s, roomId, userId, lang, sid, peerOk);
    var s' := JoinRoom(s, roomId, userId, lang, sid, peerOk).0;
    assert s'.timers == CancelTimers(s, roomId).timers;
    if x :| x in s.timers && s.timers[x].roomId == roomId && x !in s.sessions {
      assert x in s'.timers;
    }
  }

  /** A due timer deletes its room, whoever is in it. */
  lemma DueTimerDeletesRoom(s: Svc, sid: string)
    requires Inv(s) && sid in s.timers
    ensures s.timers[sid].roomId !in FireTimer(s, sid).rooms
    ensures forall x :: !InRoom(FireTimer(s, sid), x, s.timers[sid].roomId)
  {
    var s1 := s.(timers := s.timers - {sid});
    TimersKeepInv(s, s1.timers, s.now);
    DeleteIsRestriction(s1, s.timers[sid].roomId);
  }

  // ---------------------------------------------------------------------------
  // The run on which a rejoined room is lost
  // ---------------------------------------------------------------------------

  const ZEROS: Option<seq<Octet>> := Some([0, 0, 0, 0, 0, 0])

  function Draws(c: Config): seq<Option<seq<Octet>>> {
    seq(c.retries, _ => ZEROS)
  }

  const THE_ROOM := RoomState("r", "es", "en", CodeOf([0, 0, 0, 0, 0, 0]), None, true, {}, CAPACITY)

  const ONE := Session("s1", "r", "ana", "es")
  const TWO := Session("s2", "r", "ana", "es")

  lemma {:induction false} Extend(c: Config, s: Svc, ops: seq<Op>, op: Op)
    requires ValidRun(c, s, ops) && Possible(c, RunFrom(c, s, ops), op)
    ensures ValidRun(c, s, ops + [op]) && RunFrom(c, s, ops + [op]) == Do(c, RunFrom(c, s, ops), op)
    decreases |ops|
  {
    if ops == [] {
      assert (ops + [op])[1..] == [];
    } else {
      assert (ops + [op])[0] == ops[0] && (ops + [op])[1..] == ops[1..] + [op];
      Extend(c, Do(c, s, ops[0]), ops[1..], op);
    }
  }

  lemma CreatedRoom(c: Config)
    requires c.retries > 0
    ensures Possible(c, EMPTY, Create("r", "es", "en", Draws(c)))
    ensures CreateRoom(c, EMPTY, "r", "es", "en", Draws(c)).0 ==
      EMPTY.(rooms := EMPTY.rooms["r" := THE_ROOM], roomIds := EMPTY.roomIds + {"r"})
  {
    assert Draws(c)[0] == ZEROS;
  }

  /** A user alone in the room joins: one session, no pipeline. */
  lemma SoleJoin(s: Svc, x: Session)
    requires x.roomId == "r" && x.lang == "es"
    requires "r" in s.rooms && s.rooms["r"] == THE_ROOM.(lastActivity := s.rooms["r"].lastActivity)
    ensures var (s', reply) := JoinRoom(s, "r", x.userId, "es", x.id, true);
      && reply == Ok(x.id) && s' == Stored(CancelTimers(s, "r"), x)
      && s'.rooms["r"].participants == {x.userId} && x.id in s'.sessions
  {
    RegisterResult(CancelTimers(s, "r"), x);
  }

  /** Create a room, join it, and disconnect: the session's timer is armed. */
  lemma DisconnectedRun(c: Config) returns (ops: seq<Op>)
    requires c.retries > 0
    ensures ValidRun(c, EMPTY, ops)
    ensures var s := RunFrom(c, EMPTY, ops);
      && s.sessions == EMPTY.sessions["s1" := ONE] && s.lookup == EMPTY.lookup[KeyOf(ONE) := "s1"]
      && s.timers == EMPTY.timers["s1" := Timer("r", 0)] && s.now == 0 && "s2" !in s.sessIds
      && "r" in s.rooms && s.rooms["r"] == THE_ROOM.(participants := {"ana"}, lastActivity := Some(0))
  {
    CreatedRoom(c);
    var create, join := Create("r", "es", "en", Draws(c)), Join("r", "ana", "es", "s1", true);
    ops := [];
    Extend(c, EMPTY, ops, create);
    ops := ops + [create];
    var s1 := RunFrom(c, EMPTY, ops);
    SoleJoin(s1, ONE);
    Extend(c, EMPTY, ops, join);
    ops := ops + [join];
    Extend(c, EMPTY, ops, Disconnect("s1"));
    ops := ops + [Disconnect("s1")];
    assert CancelTimers(s1, "r").timers == map[];
  }

  /** Leaving removes the session but not its timer, so a rejoin cannot cancel it. */
  lemma StaleTimerRun(c: Config) returns (ops: seq<Op>)
    requires c.retries > 0
    ensures ValidRun(c, EMPTY, ops)
    ensures var s := RunFrom(c, EMPTY, ops);
      InRoom(s, "s2", "r") && TimerDue(c, s, "s1") && s.timers["s1"].roomId == "r"
  {
    var leave, join := Leave("r", "ana"), Join("r", "ana", "es", "s2", true);
    ops := DisconnectedRun(c);
    Extend(c, EMPTY, ops, leave);
    ops := ops + [leave];
    var s := RunFrom(c, EMPTY, ops);
    assert s.rooms["r"].participants == {};
    SoleJoin(s, TWO);
    Extend(c, EMPTY, ops, join);
    ops := ops + [join];
    assert "s1" in CancelTimers(s, "r").timers;
    Extend(c, EMPTY, ops, Tick(c.grace));
    ops := ops + [Tick(c.grace)];
  }

  /** So there is a run after which the old timer deletes the room under the user who rejoined it. */
  lemma RejoinedRoomCanBeDeleted(c: Config)
    requires c.retries > 0
    ensures exists ops :: (
      && ValidRun(c, EMPTY, ops) && InRoom(RunFrom(c, EMPTY, ops), "s2", "r") && TimerDue(c, RunFrom(c, EMPTY, ops), "s1")
      && "r" !in FireTimer(RunFrom(c, EMPTY, ops), "s1").rooms)
  {
    var ops := StaleTimerRun(c);
    RunKeepsInv(c, EMPTY, ops);
    DueTimerDeletesRoom(RunFrom(c, EMPTY, ops), "s1");
  }

  // ---------------------------------------------------------------------------
  // Identifiers the scans cannot tell apart
  // ---------------------------------------------------------------------------

  /** Deleting a room removes all its sessions exactly when no empty user is in it: the scan wants a longer key. */
  lemma DeleteMissesEmptyUser(s: Svc, roomId: string)
    requires RoomsOk(s.rooms, s.roomIds) && Agree(s.rooms, s.sessions, s.lookup) && roomId in s.rooms
    ensures (forall sid :: !InRoom(DeleteRoom(s, roomId).0, sid, roomId)) <==> Key(roomId, "") !in s.lookup
  {
    var s' := DeleteRoom(s, roomId).0;
    forall k | k in s.lookup ensures Scanned(k, roomId) <==> InRoom(s, s.lookup[k], roomId) && s.sessions[s.lookup[k]].userId != "" {
      var x := s.sessions[s.lookup[k]];
      ScanIsExact(roomId, x.roomId, x.userId);
    }
    if Key(roomId, "") in s.lookup {
      var sid := s.lookup[Key(roomId, "")];
      LeaverIsMember(s, roomId, "");
      assert InRoom(s', sid, roomId);
    } else {
      forall sid | InRoom(s, sid, roomId) ensures sid !in s'.sessions {
        assert Scanned(KeyOf(s.sessions[sid]), roomId);
      }
    }
  }

  /** With an empty user name in the room, deleting the room leaves that user's session behind. */
  lemma EmptyUserSurvivesDelete(c: Config)
    requires c.retries > 0
    ensures var s := CreateRoom(c, EMPTY, "r", "es", "en", Draws(c)).0; var s1 := JoinRoom(s, "r", "", "es", "s1", true).0;
      var s2 := DeleteRoom(s1, "r").0; "r" !in s2.rooms && InRoom(s2, "s1", "r") && "s1" in s2.peers
  {
    CreatedRoom(c);
    var s := CreateRoom(c, EMPTY, "r", "es", "en", Draws(c)).0;
    var x := Session("s1", "r", "", "es");
    SoleJoin(s, x);
    ScanIsExact("r", "r", "");
    assert Stored(CancelTimers(s, "r"), x).lookup == map[KeyOf(x) := "s1"];
  }

  /** A user named "a:b" of room "r" can be named as user "b" of room "r:a": the connection closes, the session stays. */
  lemma ForeignKeyClosesConnection(c: Config)
    requires c.retries > 0
    ensures var s := CreateRoom(c, EMPTY, "r", "es", "en", Draws(c)).0; var s1 := JoinRoom(s, "r", "a:b", "es", "s1", true).0;
      var s2 := LeaveRoom(s1, "r:a", "b").0; "s1" in s2.sessions && "s1" !in s2.peers
  {
    CreatedRoom(c);
    var s := CreateRoom(c, EMPTY, "r", "es", "en", Draws(c)).0;
    SoleJoin(s, Session("s1", "r", "a:b", "es"));
    assert Key("r:a", "b") == Key("r", "a:b");
  }

  /**
   Leaving with a room identifier that contains a colon can name somebody else's key. It closes that
   session's connection but keeps the session: connections match sessions afterwards exactly when the
   named room exists or the key does not.
   */
  lemma LeaveWithForeignKey(s: Svc, roomId: string, userId: string)
    requires Inv(s)
    ensures var s' := LeaveRoom(s, roomId, userId).0;
      s'.peers == s'.sessions.Keys <==> roomId in s.rooms || Key(roomId, userId) !in s.lookup
  {
    var key := Key(roomId, userId);
    if key in s.lookup && roomId !in s.rooms {
      assert s.lookup[key] in s.sessions && s.lookup[key] !in LeaveRoom(s, roomId, userId).0.peers;
    }
  }
}
