/**
 Which timers a join cannot stop, in terms of the history alone: those whose session was taken out by a
 leave while its timer was armed, and which have not fired since.
 */
module StaleTimers {
  import opened Common
  import opened RoomService
  import opened RoomServiceRuns
  import opened GracePeriods

  /** The operation is a leave, by request or by message, of the user whose session this is. */
  predicate TakesOut(s: Svc, op: Op, sid: string) {
    sid in s.sessions &&
    match op
    case LeaveMessage(x) => x == sid
    case Leave(roomId, userId) => Key(roomId, userId) in s.lookup && s.lookup[Key(roomId, userId)] == sid
    case _ => false
  }

  /** Operation `i` took out a session of the room whose timer was armed, and the timer has not fired since. */
  ghost predicate LeftWhileArmed(c: Config, ops: seq<Op>, roomId: string, sid: string, i: nat)
    requires i < |ops|
  {
    && TakesOut(StateAt(c, ops, i), ops[i], sid) && StateAt(c, ops, i).sessions[sid].roomId == roomId
    && sid in StateAt(c, ops, i).timers
    && forall k :: i < k < |ops| ==> ops[k] != Fire(sid)
  }

  // ---------------------------------------------------------------------------
  // What one operation does to sessions and rooms
  // ---------------------------------------------------------------------------

  /** Sessions go with a leave or with their room, and neither sessions nor rooms ever come back. */
  ghost predicate Moves(s: Svc, op: Op, s': Svc) {
    && (forall x :: x in s.sessions && x !in s'.sessions ==> TakesOut(s, op, x) || s.sessions[x].roomId !in s'.rooms)
    && (forall x :: x in s'.sessions && x !in s.sessions ==> x !in s.sessIds)
    && (forall x :: x in s.sessIds ==> x in s'.sessIds)
    && (forall r :: r in s'.rooms && r !in s.rooms ==> r !in s.roomIds)
  }

  lemma RestrictionMoves(s: Svc, op: Op, s': Svc, gone: set<string>)
    requires Restricted(s, s', gone)
    ensures Moves(s, op, s')
  {
  }

  lemma LeaveMoves(s: Svc, op: Op, roomId: string, userId: string)
    requires Key(roomId, userId) in s.lookup ==> TakesOut(s, op, s.lookup[Key(roomId, userId)])
    requires Inv(s)
    ensures Moves(s, op, LeaveRoom(s, roomId, userId).0)
  {
    hide RoomsOk, CodesOk, Named, PipesOk, LaunchesOk, LeaveRoom;
    LeaveTakesOutSession(s, roomId, userId);
  }

  lemma JoinMoves(s: Svc, op: Op, roomId: string, userId: string, lang: string, sid: string, peerOk: bool)
    requires Inv(s) && sid !in s.sessIds
    ensures Moves(s, op, JoinRoom(s, roomId, userId, lang, sid, peerOk).0)
  {
    JoinOutcomes(s, roomId, userId, lang, sid, peerOk);
    if roomId in s.rooms && userId in s.rooms[roomId].participants {
      ParticipantHasSession(s, roomId, userId);
    } else if roomId in s.rooms {
      RegisterResult(CancelTimers(s, roomId), Session(sid, roomId, userId, lang));
    }
  }

  lemma FireMoves(s: Svc, op: Op, sid: string)
    requires Inv(s) && sid in s.timers
    ensures Moves(s, op, FireTimer(s, sid))
  {
    var s1 := s.(timers := s.timers - {sid});
    TimersKeepInv(s, s1.timers, s.now);
    DeleteIsRestriction(s1, s.timers[sid].roomId);
    RestrictionMoves(s1, op, FireTimer(s, sid), {s.timers[sid].roomId});
  }

  lemma CreateMoves(c: Config, s: Svc, op: Op)
    requires Inv(s) && op.Create? && Possible(c, s, op)
    ensures Moves(s, op, Do(c, s, op))
  {
    CreateOutcome(c, s, op.id, op.source, op.target, op.draws);
  }

  lemma StepMoves(c: Config, s: Svc, op: Op)
    requires Inv(s) && Possible(c, s, op)
    ensures Moves(s, op, Do(c, s, op))
  {
    hide Inv, Restricted;
    match op
    case Create(_, _, _, _) => CreateMoves(c, s, op);
    case Join(roomId, userId, lang, sid, peerOk) => JoinMoves(s, op, roomId, userId, lang, sid, peerOk);
    case Leave(roomId, userId) => LeaverTakenOut(s, op); LeaveMoves(s, op, roomId, userId);
    case LeaveMessage(sid) =>
      if sid in s.sessions {
        SenderTakenOut(s, sid);
        LeaveMoves(s, op, s.sessions[sid].roomId, s.sessions[sid].userId);
      }
    case Delete(roomId) =>
      DeleteIsRestriction(s, roomId);
      RestrictionMoves(s, op, DeleteRoom(s, roomId).0, {roomId});
    case Fire(sid) => FireMoves(s, op, sid);
    case Sweep(ids) =>
      DeleteAllIsRestriction(s, ids);
      RestrictionMoves(s, op, DeleteAll(s, ids), Elements(ids));
    case _ =>
  }

  lemma LeaverTakenOut(s: Svc, op: Op)
    requires Inv(s) && op.Leave?
    ensures Key(op.roomId, op.userId) in s.lookup ==> TakesOut(s, op, s.lookup[Key(op.roomId, op.userId)])
  {
  }

  lemma SenderTakenOut(s: Svc, sid: string)
    requires Inv(s) && sid in s.sessions
    ensures var x := s.sessions[sid]; Key(x.roomId, x.userId) in s.lookup && s.lookup[Key(x.roomId, x.userId)] == sid
  {
    assert KeyOf(s.sessions[sid]) in s.lookup;
  }

  /** The timer of a session that is gone goes only by firing. */
  lemma StrayTimerStays(c: Config, s: Svc, op: Op, sid: string)
    requires Inv(s) && Possible(c, s, op) && sid in s.timers && sid !in s.sessions && op != Fire(sid)
    ensures sid in Do(c, s, op).timers && Do(c, s, op).timers[sid] == s.timers[sid]
  {
    hide Inv, JoinRoom, FireTimer;
    match op
    case Join(roomId, userId, lang, x, peerOk) => JoinTimers(s, roomId, userId, lang, x, peerOk);
    case Disconnect(_) =>
    case Fire(x) => FireTakesTimer(s, x);
    case _ => OtherStepsKeepTimers(c, s, op);
  }

  lemma FireTakesTimer(s: Svc, x: string)
    requires x in s.timers
    ensures FireTimer(s, x).timers == s.timers - {x}
  {
  }

  // ---------------------------------------------------------------------------
  // Over runs
  // ---------------------------------------------------------------------------

  lemma LastOperation(c: Config, prev: seq<Op>, op: Op)
    requires ValidRun(c, EMPTY, prev + [op])
    ensures ValidRun(c, EMPTY, prev) && Inv(RunFrom(c, EMPTY, prev)) && Possible(c, RunFrom(c, EMPTY, prev), op)
    ensures RunFrom(c, EMPTY, prev + [op]) == Do(c, RunFrom(c, EMPTY, prev), op)
    ensures forall i :: 0 <= i <= |prev| ==> StateAt(c, prev + [op], i) == StateAt(c, prev, i)
    ensures StateAt(c, prev, |prev|) == RunFrom(c, EMPTY, prev)
  {
    RunSnoc(c, EMPTY, prev, op);
    ServiceInvariant(c, prev);
    assert prev[..|prev|] == prev;
    forall i | 0 <= i <= |prev| ensures (prev + [op])[..i] == prev[..i] {
    }
  }

  /** A session taken out while armed leaves its timer behind until it fires. */
  lemma {:induction false} LeavingStraysTimer(c: Config, ops: seq<Op>, roomId: string, sid: string, i: nat)
    requires ValidRun(c, EMPTY, ops) && i < |ops| && LeftWhileArmed(c, ops, roomId, sid, i)
    ensures var s := RunFrom(c, EMPTY, ops);
      sid in s.timers && s.timers[sid].roomId == roomId && sid !in s.sessions && sid in s.sessIds
    decreases |ops|
  {
    var n := |ops| - 1;
    var prev, op := ops[..n], ops[n];
    assert ops == prev + [op];
    LastOperation(c, prev, op);
    var s := RunFrom(c, EMPTY, prev);
    if i == n {
      LeaverLosesSession(c, s, op, sid);
    } else {
      assert LeftWhileArmed(c, prev, roomId, sid, i);
      LeavingStraysTimer(c, prev, roomId, sid, i);
      StrayTimerStays(c, s, op, sid);
      StepMoves(c, s, op);
    }
  }

  lemma LeaverLosesSession(c: Config, s: Svc, op: Op, sid: string)
    requires Inv(s) && Possible(c, s, op) && TakesOut(s, op, sid) && sid in s.timers
    ensures var s' := Do(c, s, op);
      sid !in s'.sessions && sid in s'.sessIds && s'.timers == s.timers && s.timers[sid].roomId == s.sessions[sid].roomId
  {
    OtherStepsKeepTimers(c, s, op);
    SenderTakenOut(s, sid);
    var x := s.sessions[sid];
    match op
    case Leave(roomId, userId) =>
      LeaverIsMember(s, roomId, userId);
      LeaveTakesOutSession(s, roomId, userId);
    case LeaveMessage(_) => LeaveTakesOutSession(s, x.roomId, x.userId);
  }

  /** A timer of an existing room without its session was left behind in that way. */
  lemma {:induction false} StrayTimerWasLeft(c: Config, ops: seq<Op>, sid: string)
    requires ValidRun(c, EMPTY, ops)
    requires var s := RunFrom(c, EMPTY, ops); sid in s.timers && sid !in s.sessions && s.timers[sid].roomId in s.rooms
    ensures exists i :: 0 <= i < |ops| && LeftWhileArmed(c, ops, RunFrom(c, EMPTY, ops).timers[sid].roomId, sid, i)
    decreases |ops|
  {
    if ops != [] {
      var n := |ops| - 1;
      var prev, op := ops[..n], ops[n];
      assert ops == prev + [op];
      LastOperation(c, prev, op);
      var s := RunFrom(c, EMPTY, prev);
      TimersAfterStep(c, s, op, sid);
      StepMoves(c, s, op);
      TimerFacts(s, sid);
      if sid in s.sessions {
        assert LeftWhileArmed(c, ops, s.timers[sid].roomId, sid, n);
      } else {
        StrayTimerWasLeft(c, prev, sid);
        var i :| 0 <= i < |prev| && LeftWhileArmed(c, prev, s.timers[sid].roomId, sid, i);
        assert LeftWhileArmed(c, ops, s.timers[sid].roomId, sid, i);
      }
    }
  }

  lemma TimerFacts(s: Svc, sid: string)
    requires Inv(s)
    ensures sid in s.timers ==> s.timers[sid].roomId in s.roomIds
    ensures sid in s.timers && sid in s.sessions ==> s.sessions[sid].roomId == s.timers[sid].roomId
  {
  }

  /** The timer of an existing room is out of a join's reach exactly when a leave took its session out while it was armed. */
  lemma StrayExactlyWhenLeft(c: Config, ops: seq<Op>, sid: string)
    requires ValidRun(c, EMPTY, ops)
    requires var s := RunFrom(c, EMPTY, ops); sid in s.timers && s.timers[sid].roomId in s.rooms
    ensures var s := RunFrom(c, EMPTY, ops);
      sid !in s.sessions <==> exists i :: 0 <= i < |ops| && LeftWhileArmed(c, ops, s.timers[sid].roomId, sid, i)
  {
    var s := RunFrom(c, EMPTY, ops);
    if sid !in s.sessions {
      StrayTimerWasLeft(c, ops, sid);
    }
    if i :| 0 <= i < |ops| && LeftWhileArmed(c, ops, s.timers[sid].roomId, sid, i) {
      LeavingStraysTimer(c, ops, s.timers[sid].roomId, sid, i);
    }
  }

  /**
   After any run, a successful join leaves an armed timer for its room, in spite of its cancel step, exactly
   when somebody left the room while their disconnect's timer was armed and it has not fired since.
   */
  lemma JoinLeavesTimerExactlyWhen(c: Config, ops: seq<Op>, roomId: string, userId: string, lang: string, sid: string, peerOk: bool)
    requires ValidRun(c, EMPTY, ops) && JoinRoom(RunFrom(c, EMPTY, ops), roomId, userId, lang, sid, peerOk).1.Ok?
    ensures var s' := JoinRoom(RunFrom(c, EMPTY, ops), roomId, userId, lang, sid, peerOk).0;
      (exists x :: x in s'.timers && s'.timers[x].roomId == roomId)
      <==> exists x, i :: 0 <= i < |ops| && LeftWhileArmed(c, ops, roomId, x, i)
  {
    ServiceInvariant(c, ops);
    var s := RunFrom(c, EMPTY, ops);
    JoinClearsRoomTimersExactlyWhen(s, roomId, userId, lang, sid, peerOk);
    if x :| x in s.timers && s.timers[x].roomId == roomId && x !in s.sessions {
      StrayTimerWasLeft(c, ops, x);
    }
    if x, i :| 0 <= i < |ops| && LeftWhileArmed(c, ops, roomId, x, i) {
      LeavingStraysTimer(c, ops, roomId, x, i);
    }
  }
}
