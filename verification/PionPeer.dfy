/**
 The WebRTC adapter's bookkeeping: five maps keyed by session, the meeting of inbound tracks with
 audio handlers, and the RTP headers of outgoing audio. `Maps` is the state as a value.
 */
module PeerMaps {
  /** A handler goroutine started on a track's channel. */
  datatype Start = Start(session: string, track: nat, handler: nat)

  /**
   Connections, tracks and handlers are known by numbers. `open` holds the connections that were
   made and not closed, `starts` the handler goroutines so far.
   */
  datatype Maps = Maps(
    peers: map<string, nat>,
    localTracks: map<string, nat>,
    iceStateHandlers: map<string, nat>,
    audioHandlers: map<string, nat>,
    rawTracks: map<string, nat>,
    open: set<nat>,
    starts: seq<Start>)

  const EMPTY := Maps(map[], map[], map[], map[], map[], {}, [])

  /** How far creating a connection gets. */
  datatype Outcome = NoConnection | NoLocalTrack | TrackRefused | Connected

  datatype Event =
    | Create(session: string, outcome: Outcome)
    | Close(session: string)
    | TrackArrives(session: string)
    | TrackEnds(session: string, track: nat)
    | HandlerRegisters(session: string)

  function AfterCreate(m: Maps, session: string, outcome: Outcome, id: nat): Maps {
    if session in m.peers || outcome != Connected then m
    else m.(peers := m.peers[session := id], localTracks := m.localTracks[session := id],
            iceStateHandlers := m.iceStateHandlers[session := id], open := m.open + {id})
  }

  function AfterClose(m: Maps, session: string): Maps {
    if session !in m.peers then m
    else Maps(m.peers - {session}, m.localTracks - {session}, m.iceStateHandlers - {session},
              m.audioHandlers - {session}, m.rawTracks - {session}, m.open - {m.peers[session]}, m.starts)
  }

  function AfterTrack(m: Maps, session: string, id: nat): Maps {
    m.(rawTracks := m.rawTracks[session := id],
       starts := if session in m.audioHandlers then m.starts + [Start(session, id, m.audioHandlers[session])] else m.starts)
  }

  /** The reading goroutine of a track that ended makes the session forget its track, whichever that is by now. */
  function AfterTrackEnd(m: Maps, session: string): Maps {
    m.(rawTracks := m.rawTracks - {session})
  }

  function AfterHandler(m: Maps, session: string, id: nat): Maps {
    m.(audioHandlers := m.audioHandlers[session := id],
       starts := if session in m.rawTracks then m.starts + [Start(session, m.rawTracks[session], id)] else m.starts)
  }

  function After(m: Maps, e: Event, id: nat): Maps {
    match e
    case Create(session, outcome) => AfterCreate(m, session, outcome, id)
    case Close(session) => AfterClose(m, session)
    case TrackArrives(session) => AfterTrack(m, session, id)
    case TrackEnds(session, _) => AfterTrackEnd(m, session)
    case HandlerRegisters(session) => AfterHandler(m, session, id)
  }

  /** The state after the first `n` events. What event number `k` makes is known as `k`. */
  function Run(events: seq<Event>, n: nat): Maps
    requires n <= |events|
  {
    if n == 0 then EMPTY else After(Run(events, n - 1), events[n - 1], n - 1)
  }

  // ---------------------------------------------------------------------------
  // One key set
  // ---------------------------------------------------------------------------

  /** Each session has a connection, a local track and a state handler made together, and no other connection is open. */
  ghost predicate Owned(m: Maps) {
    && m.localTracks == m.peers && m.iceStateHandlers == m.peers
    && m.open == m.peers.Values
    && forall s, r :: s in m.peers && r in m.peers && s != r ==> m.peers[s] != m.peers[r]
  }

  lemma CreateKeepsOwned(m: Maps, session: string, outcome: Outcome, id: nat)
    requires Owned(m) && id !in m.open
    ensures Owned(AfterCreate(m, session, outcome, id))
  {
    var m' := AfterCreate(m, session, outcome, id);
    if m' != m {
      forall s | s in m.peers ensures m'.peers[s] == m.peers[s] != id {
        assert m.peers[s] in m.peers.Values;
      }
      assert m'.peers.Values == m.peers.Values + {id} by {
        assert m'.peers[session] == id;
        forall x | x in m.peers.Values ensures x in m'.peers.Values {
          var s :| s in m.peers && m.peers[s] == x;
          assert m'.peers[s] == x;
        }
      }
    }
  }

  lemma CloseKeepsOwned(m: Maps, session: string)
    requires Owned(m)
    ensures Owned(AfterClose(m, session))
  {
    if session in m.peers {
      var m' := AfterClose(m, session);
      forall x | x in m.peers.Values - {m.peers[session]} ensures x in m'.peers.Values {
        var s :| s in m.peers && m.peers[s] == x;
        assert m'.peers[s] == x;
      }
      assert m'.peers.Values == m.peers.Values - {m.peers[session]};
    }
  }

  /** Over every run, whatever fails, the three maps have the same keys and no connection leaks. */
  lemma {:induction false} RunKeepsOwned(events: seq<Event>, n: nat)
    requires n <= |events|
    ensures Owned(Run(events, n)) && forall id :: id in Run(events, n).open ==> id < n
  {
    if n > 0 {
      RunKeepsOwned(events, n - 1);
      match events[n - 1] {
        case Create(session, outcome) => CreateKeepsOwned(Run(events, n - 1), session, outcome, n - 1);
        case Close(session) => CloseKeepsOwned(Run(events, n - 1), session);
        case _ =>
      }
    }
  }

  // ---------------------------------------------------------------------------
  // Which sessions are open
  // ---------------------------------------------------------------------------

  /** Event `i` set up a connection for the session, and no close of it came before event `n`. */
  predicate OpenSince(events: seq<Event>, i: nat, n: nat, session: string)
    requires n <= |events|
  {
    i < n && events[i] == Create(session, Connected) && forall k :: i < k < n ==> events[k] != Close(session)
  }

  /** Event `i` opened its session, which was not open then and was not closed before event `n`. */
  predicate Began(events: seq<Event>, i: nat, n: nat)
    requires n <= |events|
  {
    && i < n && events[i].Create? && OpenSince(events, i, n, events[i].session)
    && forall j :: 0 <= j < i ==> !OpenSince(events, j, i, events[i].session)
  }

  lemma OpenSinceStep(events: seq<Event>, i: nat, n: nat, session: string)
    requires 0 < n <= |events|
    ensures OpenSince(events, i, n, session) <==>
      if i == n - 1 then events[i] == Create(session, Connected)
      else OpenSince(events, i, n - 1, session) && events[n - 1] != Close(session)
  {
  }

  /** A session has a connection exactly when it was set up and not closed since. */
  lemma {:induction false} PeersAreOpenSessions(events: seq<Event>, n: nat, session: string)
    requires n <= |events|
    ensures session in Run(events, n).peers <==> exists i :: 0 <= i < n && OpenSince(events, i, n, session)
  {
    if n > 0 {
      var k := n - 1;
      PeersAreOpenSessions(events, k, session);
      forall i | 0 <= i < n ensures OpenSince(events, i, n, session) <==>
        if i == k then events[i] == Create(session, Connected) else OpenSince(events, i, k, session) && events[k] != Close(session) {
        OpenSinceStep(events, i, n, session);
      }
      if events[k] == Create(session, Connected) {
        assert OpenSince(events, k, n, session);
      }
    }
  }

  lemma BeganStep(events: seq<Event>, i: nat, n: nat)
    requires 0 < n <= |events|
    ensures Began(events, i, n) <==>
      if i == n - 1 then events[i].Create? && events[i].outcome == Connected && events[i].session !in Run(events, i).peers
      else Began(events, i, n - 1) && events[n - 1] != Close(events[i].session)
  {
    if i < n && events[i].Create? {
      OpenSinceStep(events, i, n, events[i].session);
      if i == n - 1 {
        PeersAreOpenSessions(events, i, events[i].session);
      }
    }
  }

  /** And it is the connection that was set up when the session was not open. */
  lemma {:induction false} ConnectionIsTheOneThatBegan(events: seq<Event>, n: nat, session: string, i: nat)
    requires n <= |events|
    ensures session in Run(events, n).peers && Run(events, n).peers[session] == i <==> Began(events, i, n) && events[i].session == session
  {
    if n > 0 {
      hide Began;
      ConnectionIsTheOneThatBegan(events, n - 1, session, i);
      BeganStep(events, i, n);
      if Began(events, i, n - 1) {
        BeganEarlier(events, i, n - 1);
      }
    }
  }

  lemma BeganEarlier(events: seq<Event>, i: nat, n: nat)
    requires n <= |events| && Began(events, i, n)
    ensures i < n && events[i].Create?
  {
  }

  /**
   Over every run, by the history alone: a session is in the three maps exactly when it was set up and not closed
   since, with the connection that was set up for it, and exactly those connections are open.
   */
  lemma OpenExactlyWhen(events: seq<Event>, n: nat, session: string, i: nat)
    requires n <= |events|
    ensures var m := Run(events, n);
      && (session in m.peers <==> exists j :: 0 <= j < n && OpenSince(events, j, n, session))
      && (session in m.peers && m.peers[session] == i <==> Began(events, i, n) && events[i].session == session)
      && m.localTracks == m.peers && m.iceStateHandlers == m.peers
      && (i in m.open <==> Began(events, i, n))
  {
    PeersAreOpenSessions(events, n, session);
    ConnectionIsTheOneThatBegan(events, n, session, i);
    RunKeepsOwned(events, n);
    var m := Run(events, n);
    if i in m.open {
      var s :| s in m.peers && m.peers[s] == i;
      ConnectionIsTheOneThatBegan(events, n, s, i);
    }
    if Began(events, i, n) {
      ConnectionIsTheOneThatBegan(events, n, events[i].session, i);
    }
  }

  /** Closing an open session takes it out of all five maps and closes its connection; other sessions keep theirs, and an unknown session changes nothing. */
  lemma CloseIsComplete(m: Maps, session: string)
    requires Owned(m)
    ensures var m' := AfterClose(m, session);
      && (session !in m.peers ==> m' == m)
      && (session in m.peers ==>
            && session !in m'.peers && session !in m'.localTracks && session !in m'.iceStateHandlers
            && session !in m'.audioHandlers && session !in m'.rawTracks && m.peers[session] !in m'.open
            && m'.starts == m.starts)
      && forall t :: t != session ==>
           && (t in m'.peers <==> t in m.peers) && (t in m.peers ==> m'.peers[t] == m.peers[t] && m.peers[t] in m'.open)
           && (t in m'.audioHandlers <==> t in m.audioHandlers) && (t in m.audioHandlers ==> m'.audioHandlers[t] == m.audioHandlers[t])
           && (t in m'.rawTracks <==> t in m.rawTracks) && (t in m.rawTracks ==> m'.rawTracks[t] == m.rawTracks[t])
  {
    CloseKeepsOwned(m, session);
  }

  // ---------------------------------------------------------------------------
  // Tracks meet handlers
  // ---------------------------------------------------------------------------

  /** Event `k` closes a session that is open. */
  predicate Closes(events: seq<Event>, k: nat, session: string)
    requires k < |events|
  {
    events[k] == Close(session) && session in Run(events, k).peers
  }

  predicate SomeTrackEnds(e: Event, session: string) {
    e.TrackEnds? && e.session == session
  }

  /** Event `k` makes the session forget or replace its track. */
  predicate DisplacesTrack(events: seq<Event>, k: nat, session: string)
    requires k < |events|
  {
    Closes(events, k, session) || events[k] == TrackArrives(session) || SomeTrackEnds(events[k], session)
  }

  predicate DisplacesHandler(events: seq<Event>, k: nat, session: string)
    requires k < |events|
  {
    Closes(events, k, session) || events[k] == HandlerRegisters(session)
  }

  /** From event `i`, where it arrives, until just before event `n` a track stays the stored track of its session. */
  predicate TrackStored(events: seq<Event>, i: nat, n: nat)
    requires n <= |events|
  {
    i < n && events[i].TrackArrives? && forall k :: i < k < n ==> !DisplacesTrack(events, k, events[i].session)
  }

  /** The same for a handler registered by event `j`. */
  predicate HandlerStored(events: seq<Event>, j: nat, n: nat)
    requires n <= |events|
  {
    j < n && events[j].HandlerRegisters? && forall k :: j < k < n ==> !DisplacesHandler(events, k, events[j].session)
  }

  /** A track and a handler of one session, and the earlier one is still there when the later one comes. */
  predicate Meet(events: seq<Event>, i: nat, j: nat)
    requires i < |events| && j < |events|
  {
    && events[i].TrackArrives? && events[j].HandlerRegisters? && events[i].session == events[j].session
    && (TrackStored(events, i, j) || HandlerStored(events, j, i))
  }

  lemma TrackStoredStep(events: seq<Event>, i: nat, n: nat)
    requires 0 < n <= |events|
    ensures TrackStored(events, i, n) <==>
      if i == n - 1 then events[i].TrackArrives?
      else TrackStored(events, i, n - 1) && !DisplacesTrack(events, n - 1, events[i].session)
  {
  }

  lemma HandlerStoredStep(events: seq<Event>, j: nat, n: nat)
    requires 0 < n <= |events|
    ensures HandlerStored(events, j, n) <==>
      if j == n - 1 then events[j].HandlerRegisters?
      else HandlerStored(events, j, n - 1) && !DisplacesHandler(events, n - 1, events[j].session)
  {
  }

  lemma StoredIsEarlier(events: seq<Event>, i: nat, n: nat)
    requires n <= |events| && (TrackStored(events, i, n) || HandlerStored(events, i, n))
    ensures i < n && (TrackStored(events, i, n) ==> events[i].TrackArrives?) && (HandlerStored(events, i, n) ==> events[i].HandlerRegisters?)
  {
  }

  lemma RawTrackAfter(events: seq<Event>, k: nat, session: string)
    requires k < |events|
    ensures var m, m' := Run(events, k), Run(events, k + 1);
      if events[k] == TrackArrives(session) then session in m'.rawTracks && m'.rawTracks[session] == k
      else if DisplacesTrack(events, k, session) then session !in m'.rawTracks
      else (session in m'.rawTracks <==> session in m.rawTracks) && (session in m.rawTracks ==> m'.rawTracks[session] == m.rawTracks[session])
  {
  }

  lemma AudioHandlerAfter(events: seq<Event>, k: nat, session: string)
    requires k < |events|
    ensures var m, m' := Run(events, k), Run(events, k + 1);
      if events[k] == HandlerRegisters(session) then session in m'.audioHandlers && m'.audioHandlers[session] == k
      else if DisplacesHandler(events, k, session) then session !in m'.audioHandlers
      else (session in m'.audioHandlers <==> session in m.audioHandlers) && (session in m.audioHandlers ==> m'.audioHandlers[session] == m.audioHandlers[session])
  {
  }

  lemma {:induction false} RawTrackIsStoredTrack(events: seq<Event>, n: nat, session: string, i: nat)
    requires n <= |events|
    ensures session in Run(events, n).rawTracks && Run(events, n).rawTracks[session] == i <==>
            TrackStored(events, i, n) && events[i].session == session
  {
    if n > 0 {
      hide TrackStored, After, Closes;
      RawTrackAfter(events, n - 1, session);
      RawTrackIsStoredTrack(events, n - 1, session, i);
      TrackStoredStep(events, i, n);
      if TrackStored(events, i, n - 1) {
        StoredIsEarlier(events, i, n - 1);
      }
    }
  }

  lemma {:induction false} AudioHandlerIsStoredHandler(events: seq<Event>, n: nat, session: string, j: nat)
    requires n <= |events|
    ensures session in Run(events, n).audioHandlers && Run(events, n).audioHandlers[session] == j <==>
            HandlerStored(events, j, n) && events[j].session == session
  {
    if n > 0 {
      hide HandlerStored, After, Closes;
      AudioHandlerAfter(events, n - 1, session);
      AudioHandlerIsStoredHandler(events, n - 1, session, j);
      HandlerStoredStep(events, j, n);
      if HandlerStored(events, j, n - 1) {
        StoredIsEarlier(events, j, n - 1);
      }
    }
  }

  function Count(starts: seq<Start>, s: Start): nat {
    multiset(starts)[s]
  }

  /** Both events are among the first `n`, and they meet. */
  predicate Met(events: seq<Event>, n: nat, s: Start)
    requires n <= |events|
  {
    s.track < n && s.handler < n && Meet(events, s.track, s.handler) && events[s.track].session == s.session
  }

  /** The starts that event `k` adds: at most one. */
  function Added(m: Maps, e: Event, k: nat): seq<Start> {
    match e
    case TrackArrives(session) => if session in m.audioHandlers then [Start(session, k, m.audioHandlers[session])] else []
    case HandlerRegisters(session) => if session in m.rawTracks then [Start(session, m.rawTracks[session], k)] else []
    case _ => []
  }

  lemma StartsGrow(m: Maps, e: Event, k: nat)
    ensures After(m, e, k).starts == m.starts + Added(m, e, k)
  {
  }

  lemma CountAppend(a: seq<Start>, b: seq<Start>, s: Start)
    requires |b| <= 1
    ensures Count(a + b, s) == Count(a, s) + if s in b then 1 else 0
  {
  }

  /** Event `k` adds exactly the start of the two that meet there. */
  lemma AddedAreThoseWhoMeet(events: seq<Event>, k: nat, s: Start)
    requires k < |events|
    ensures s in Added(Run(events, k), events[k], k) <==> Met(events, k + 1, s) && !Met(events, k, s)
  {
    hide Run, TrackStored, HandlerStored;
    RawTrackIsStoredTrack(events, k, s.session, s.track);
    AudioHandlerIsStoredHandler(events, k, s.session, s.handler);
    if s.track < |events| && s.handler < |events| && TrackStored(events, s.track, s.handler) {
      StoredIsEarlier(events, s.track, s.handler);
    }
    if s.track < |events| && s.handler < |events| && HandlerStored(events, s.handler, s.track) {
      StoredIsEarlier(events, s.handler, s.track);
    }
    if TrackStored(events, s.track, k) {
      StoredIsEarlier(events, s.track, k);
    }
    if HandlerStored(events, s.handler, k) {
      StoredIsEarlier(events, s.handler, k);
    }
  }

  /**
   Over every run, a handler is started on a track exactly once when the two meet, and otherwise never:
   no matter which comes first, and how often tracks and handlers come and go.
   */
  lemma {:induction false} StartsExactlyWhenTheyMeet(events: seq<Event>, n: nat, s: Start)
    requires n <= |events|
    ensures Count(Run(events, n).starts, s) == if Met(events, n, s) then 1 else 0
  {
    if n > 0 {
      hide Meet;
      var m, k := Run(events, n - 1), n - 1;
      StartsExactlyWhenTheyMeet(events, k, s);
      StartsGrow(m, events[k], k);
      CountAppend(m.starts, Added(m, events[k], k), s);
      AddedAreThoseWhoMeet(events, k, s);
    }
  }

  /** In particular, once the session stays open, the track lives and no second one replaces it. */
  lemma MeetingWhileOpen(events: seq<Event>, i: nat, j: nat)
    requires i < |events| && j < |events| && events[i].TrackArrives? && events[j] == HandlerRegisters(events[i].session)
    requires var (a, b) := if i < j then (i, j) else (j, i);
      forall k :: a < k < b ==> events[k].session != events[i].session
    ensures Count(Run(events, |events|).starts, Start(events[i].session, i, j)) == 1
  {
    StartsExactlyWhenTheyMeet(events, |events|, Start(events[i].session, i, j));
  }

  /** The track of event `i` still delivers audio just before event `n`: it did not end, was not replaced, and its session was not closed. */
  predicate Live(events: seq<Event>, i: nat, n: nat)
    requires n <= |events|
  {
    && i < n && events[i].TrackArrives?
    && forall k :: i < k < n ==>
         events[k] != TrackEnds(events[i].session, i) && events[k] != TrackArrives(events[i].session) && !Closes(events, k, events[i].session)
  }

  /**
   A handler that registers while a track is live is meant to be started on it. It is, once, if and only
   if no other track of the session ended since the live one arrived.
   */
  lemma LiveTrackIsHeardExactlyWhen(events: seq<Event>, i: nat, j: nat)
    requires j < |events| && Live(events, i, j) && events[j] == HandlerRegisters(events[i].session)
    ensures Count(Run(events, |events|).starts, Start(events[i].session, i, j)) == 1 <==>
            forall k :: i < k < j ==> !SomeTrackEnds(events[k], events[i].session)
  {
    var session := events[i].session;
    StartsExactlyWhenTheyMeet(events, |events|, Start(session, i, j));
    forall k | i < k < j ensures DisplacesTrack(events, k, session) <==> SomeTrackEnds(events[k], session) {
    }
  }

  /** The end of an earlier track hides a later one, still live, from a handler that registers afterwards. */
  lemma EndOfOldTrackHidesNewTrack(session: string)
    ensures var events := [Create(session, Connected), TrackArrives(session), TrackArrives(session), TrackEnds(session, 1), HandlerRegisters(session)];
      Live(events, 2, 4) && Run(events, 5).starts == []
  {
    var events := [Create(session, Connected), TrackArrives(session), TrackArrives(session), TrackEnds(session, 1), HandlerRegisters(session)];
    assert Run(events, 1).starts == [] && Run(events, 1).audioHandlers == map[];
    assert Run(events, 2).starts == [] && Run(events, 2).audioHandlers == map[];
    assert Run(events, 3).starts == [] && Run(events, 3).audioHandlers == map[];
    assert Run(events, 4).starts == [] && session !in Run(events, 4).rawTracks;
  }
}

module PionPeer {
  import opened PeerMaps

  class PionPeer {
    var peers: map<string, nat>
    var localTracks: map<string, nat>
    var iceStateHandlers: map<string, nat>
    var audioHandlers: map<string, nat>
    var rawTracks: map<string, nat>
    var open: set<nat>
    var starts: seq<Start>

    function View(): Maps
      reads this
    {
      Maps(peers, localTracks, iceStateHandlers, audioHandlers, rawTracks, open, starts)
    }

    constructor ()
      ensures View() == EMPTY
    {
      peers, localTracks, iceStateHandlers, audioHandlers, rawTracks := map[], map[], map[], map[], map[];
      open, starts := {}, [];
    }

    method CreateSession(session: string, outcome: Outcome, id: nat) returns (ok: bool)
      requires id !in open
      modifies this
      ensures View() == AfterCreate(old(View()), session, outcome, id)
      ensures ok <==> session !in old(peers) && outcome == Connected
    {
      if session in peers || outcome == NoConnection {
        return false;
      }
      open := open + {id};
      if outcome == NoLocalTrack || outcome == TrackRefused {
        open := open - {id};
        return false;
      }
      iceStateHandlers := iceStateHandlers[session := id];
      peers := peers[session := id];
      localTracks := localTracks[session := id];
      ok := true;
    }

    method CloseSession(session: string)
      modifies this
      ensures View() == AfterClose(old(View()), session)
      ensures session !in old(peers) ==> View() == old(View())
      ensures session in old(peers) ==>
        View() == Maps(old(peers) - {session}, old(localTracks) - {session}, old(iceStateHandlers) - {session},
                       old(audioHandlers) - {session}, old(rawTracks) - {session}, old(open) - {old(peers)[session]}, old(starts))
    {
      if session !in peers {
        return;
      }
      var pc := peers[session];
      peers := peers - {session};
      localTracks := localTracks - {session};
      audioHandlers := audioHandlers - {session};
      rawTracks := rawTracks - {session};
      iceStateHandlers := iceStateHandlers - {session};
      open := open - {pc};
    }

    method OnTrack(session: string, track: nat)
      modifies this`rawTracks, this`starts
      ensures View() == AfterTrack(old(View()), session, track)
    {
      rawTracks := rawTracks[session := track];
      if session in audioHandlers {
        starts := starts + [Start(session, track, audioHandlers[session])];
      }
    }

    /** The ended track is not looked at, only its session. */
    method TrackEnded(session: string)
      modifies this`rawTracks
      ensures View() == AfterTrackEnd(old(View()), session)
    {
      rawTracks := rawTracks - {session};
    }

    method OnAudioTrack(session: string, handler: nat)
      modifies this`audioHandlers, this`starts
      ensures View() == AfterHandler(old(View()), session, handler)
    {
      audioHandlers := audioHandlers[session := handler];
      if session in rawTracks {
        starts := starts + [Start(session, rawTracks[session], handler)];
      }
    }
  }
}

/** RTP headers of outgoing audio, section 5.1 of RFC 3550. */
module RtpSender {
  import opened Common

  const SEQUENCE_NUMBERS := 0x1_0000
  const TIMESTAMPS := 0x1_0000_0000

  datatype Packet = Packet(sequence: nat, timestamp: nat, payload: seq<Byte>)

  datatype Ending = NoTrack | AudioDone | Cancelled | WriteFailed

  /** The header the standard asks for: one step per packet, 20 ms of a 48 kHz clock. */
  function PacketAt(k: nat, payload: seq<Byte>): Packet {
    Packet(k % SEQUENCE_NUMBERS, 960 * k % TIMESTAMPS, payload)
  }

  lemma NextHeader(k: nat)
    ensures (k % SEQUENCE_NUMBERS + 1) % SEQUENCE_NUMBERS == (k + 1) % SEQUENCE_NUMBERS
    ensures (960 * k % TIMESTAMPS + 960) % TIMESTAMPS == 960 * (k + 1) % TIMESTAMPS
  {
  }

  /**
   Sends the frames that arrive. The context ends after `lasts` of them, if there are that many, and
   the write of packet number `fails` fails.
   */
  method SendAudio(hasTrack: bool, audio: seq<seq<Byte>>, lasts: nat, fails: Option<nat>) returns (ending: Ending, sent: seq<Packet>)
    ensures ending.NoTrack? <==> !hasTrack
    ensures |sent| <= |audio| && forall k :: 0 <= k < |sent| ==> sent[k] == Packet(k % 0x1_0000, 960 * k % 0x1_0000_0000, audio[k])
    ensures ending.AudioDone? ==> |sent| == |audio|
    ensures ending.Cancelled? ==> |sent| == lasts
    ensures ending.WriteFailed? ==> fails == Some(|sent|)
    ensures ending.NoTrack? ==> sent == []
    ensures |sent| <= lasts && (fails.Some? ==> |sent| <= fails.value)
  {
    sent := [];
    if !hasTrack {
      return NoTrack, sent;
    }
    var timestamp, seqNum := 0, 0;
    var packetsSent := 0;
    while packetsSent < |audio|
      invariant packetsSent == |sent| <= |audio| && |sent| <= lasts && (fails.Some? ==> |sent| <= fails.value)
      invariant seqNum == packetsSent % SEQUENCE_NUMBERS && timestamp == 960 * packetsSent % TIMESTAMPS
      invariant forall k :: 0 <= k < |sent| ==> sent[k] == PacketAt(k, audio[k])
    {
      if packetsSent == lasts {
        return Cancelled, sent;
      }
      if fails == Some(packetsSent) {
        return WriteFailed, sent;
      }
      sent := sent + [Packet(seqNum, timestamp, audio[packetsSent])];
      NextHeader(packetsSent);
      seqNum := (seqNum + 1) % SEQUENCE_NUMBERS;
      packetsSent := packetsSent + 1;
      timestamp := (timestamp + 960) % TIMESTAMPS;
    }
    ending := AudioDone;
  }

  const REPEAT := 0x400_0000

  lemma SameSequence(a: nat, b: nat)
    requires a <= b
    ensures a % SEQUENCE_NUMBERS == b % SEQUENCE_NUMBERS <==> (b - a) % SEQUENCE_NUMBERS == 0
  {
  }

  lemma SameTimestamp(a: nat, b: nat)
    requires a <= b
    ensures a % TIMESTAMPS == b % TIMESTAMPS <==> (b - a) % TIMESTAMPS == 0
  {
  }

  lemma TimestampsRepeat(d: nat)
    ensures 960 * d % TIMESTAMPS == 0 <==> d % REPEAT == 0
  {
    if 960 * d % TIMESTAMPS == 0 {
      var q := 960 * d / TIMESTAMPS;
      assert 15 * d == REPEAT * q;
      assert d == REPEAT * (49213167 * q - 11 * d);
    }
    if d % REPEAT == 0 {
      var q := d / REPEAT;
      assert 960 * d == TIMESTAMPS * (15 * q);
    }
  }

  /** The sequence number repeats exactly every 2^16 packets, the timestamp exactly every 2^26. */
  lemma HeadersRepeat(k: nat, m: nat)
    requires k <= m
    ensures PacketAt(k, []).sequence == PacketAt(m, []).sequence <==> (m - k) % SEQUENCE_NUMBERS == 0
    ensures PacketAt(k, []).timestamp == PacketAt(m, []).timestamp <==> (m - k) % REPEAT == 0
  {
    SameSequence(k, m);
    SameTimestamp(960 * k, 960 * m);
    TimestampsRepeat(m - k);
    assert 960 * m - 960 * k == 960 * (m - k);
  }
}
