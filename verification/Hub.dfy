/**
 The signaling hub: registered clients, the room index, the peer-left messages. `Registry` is the
 hub's state as a value, and the roster of a room is defined from the history of events alone.
 */
module HubRegistry {
  const SEND_BUFFER_SIZE := 8

  datatype Message = PeerLeft(sessionID: string) | Other(text: string)

  /** A connection. Only the hub closes `send`. */
  class Client {
    const roomID: string
    var sessionID: string
    var send: seq<Message>
    var closed: bool

    constructor (roomID: string)
      ensures this.roomID == roomID && sessionID == "" && send == [] && !closed
    {
      this.roomID := roomID;
      sessionID, send, closed := "", [], false;
    }
  }

  datatype Registry = Registry(clients: set<Client>, rooms: map<string, seq<Client>>)

  datatype Event = Registered(client: Client) | Unregistered(client: Client)

  function Entry(rooms: map<string, seq<Client>>, room: string): seq<Client> {
    if room in rooms then rooms[room] else []
  }

  function Without(s: seq<Client>, c: Client): (r: seq<Client>)
    ensures forall x :: x in r ==> x in s && x != c
    ensures forall x :: x in s && x != c ==> x in r
  {
    if s == [] then []
    else
      var last := s[|s| - 1];
      Without(s[..|s| - 1], c) + if last != c then [last] else []
  }

  function AfterRegister(g: Registry, c: Client): Registry {
    Registry(g.clients + {c},
             if c.roomID == "" then g.rooms else g.rooms[c.roomID := Entry(g.rooms, c.roomID) + [c]])
  }

  function AfterUnregister(g: Registry, c: Client): Registry {
    Registry(g.clients - {c}, if c.roomID == "" then g.rooms else Shrunk(g.rooms, c))
  }

  /** A room without clients loses its entry. */
  function Shrunk(rooms: map<string, seq<Client>>, c: Client): map<string, seq<Client>> {
    var updated := Without(Entry(rooms, c.roomID), c);
    if updated == [] then rooms - {c.roomID} else rooms[c.roomID := updated]
  }

  function After(g: Registry, e: Event): Registry {
    match e
    case Registered(c) => AfterRegister(g, c)
    case Unregistered(c) => AfterUnregister(g, c)
  }

  function Run(events: seq<Event>): Registry {
    if events == [] then Registry({}, map[])
    else After(Run(events[..|events| - 1]), events[|events| - 1])
  }

  // ---------------------------------------------------------------------------
  // What the index should hold
  // ---------------------------------------------------------------------------

  /** Event `i` registered a client that has not been unregistered since. */
  predicate StillThere(events: seq<Event>, i: nat)
    requires i < |events|
  {
    events[i].Registered? && forall j :: i < j < |events| ==> events[j] != Unregistered(events[i].client)
  }

  /** The clients of a room that registered among the first `n` events and are still there, in that order. */
  function Roster(events: seq<Event>, room: string, n: nat): seq<Client>
    requires n <= |events|
  {
    if n == 0 then []
    else
      Roster(events, room, n - 1) + Slot(events, room, n - 1)
  }

  function Slot(events: seq<Event>, room: string, i: nat): seq<Client>
    requires i < |events|
  {
    if StillThere(events, i) && events[i].client.roomID == room then [events[i].client] else []
  }

  lemma {:induction false} RosterAfterRegister(events: seq<Event>, e: Event, room: string, n: nat)
    requires n <= |events| && e.Registered?
    ensures Roster(events + [e], room, n) == Roster(events, room, n)
  {
    if n > 0 {
      RosterAfterRegister(events, e, room, n - 1);
      StillThereAfter(events, e, n - 1);
    }
  }

  lemma StillThereAfter(events: seq<Event>, e: Event, i: nat)
    requires i < |events|
    ensures StillThere(events + [e], i) <==> StillThere(events, i) && e != Unregistered(events[i].client)
  {
    var all := events + [e];
    assert all[|events|] == e;
    assert forall j :: i < j < |events| ==> all[j] == events[j];
    if StillThere(all, i) {
      forall j | i < j < |events| ensures events[j] != Unregistered(events[i].client) {
        assert all[j] != Unregistered(all[i].client);
      }
    }
  }

  lemma {:induction false} RosterAfterUnregister(events: seq<Event>, c: Client, room: string, n: nat)
    requires n <= |events|
    ensures Roster(events + [Unregistered(c)], room, n) == Without(Roster(events, room, n), c)
  {
    hide Slot;
    if n > 0 {
      RosterAfterUnregister(events, c, room, n - 1);
      SlotAfterUnregister(events, c, room, n - 1, Roster(events, room, n - 1));
    }
  }

  lemma SlotAfterUnregister(events: seq<Event>, c: Client, room: string, i: nat, prev: seq<Client>)
    requires i < |events|
    ensures Without(prev + Slot(events, room, i), c) == Without(prev, c) + Slot(events + [Unregistered(c)], room, i)
  {
    StillThereAfter(events, Unregistered(c), i);
    if Slot(events, room, i) == [] {
      assert prev + Slot(events, room, i) == prev;
    } else {
      var x := events[i].client;
      assert (prev + [x])[..|prev|] == prev;
    }
  }

  lemma {:induction false} WithoutAbsent(s: seq<Client>, c: Client)
    requires c !in s
    ensures Without(s, c) == s
  {
    if s != [] {
      WithoutAbsent(s[..|s| - 1], c);
    }
  }

  lemma {:induction false} RosterRoom(events: seq<Event>, room: string, n: nat)
    requires n <= |events|
    ensures forall c :: c in Roster(events, room, n) ==> c.roomID == room
  {
    if n > 0 {
      RosterRoom(events, room, n - 1);
    }
  }

  lemma EntryAfterRegister(g: Registry, c: Client, room: string)
    requires room != "" && (room in g.rooms ==> g.rooms[room] != [])
    ensures var r := AfterRegister(g, c).rooms;
      && Entry(r, room) == Entry(g.rooms, room) + (if c.roomID == room then [c] else [])
      && (room in r ==> r[room] != [])
  {
  }

  lemma EntryAfterUnregister(g: Registry, c: Client, room: string)
    requires room != "" && (room in g.rooms ==> g.rooms[room] != [])
    ensures var r := AfterUnregister(g, c).rooms;
      && Entry(r, room) == (if c.roomID == room then Without(Entry(g.rooms, room), c) else Entry(g.rooms, room))
      && (room in r ==> r[room] != [])
  {
  }

  /** The roster changes with each event as the entry does. */
  lemma RosterStep(events: seq<Event>, e: Event, room: string)
    ensures var before, after := Roster(events, room, |events|), Roster(events + [e], room, |events| + 1);
      after == match e
        case Registered(c) => before + if c.roomID == room then [c] else []
        case Unregistered(c) => if c.roomID == room then Without(before, c) else before
  {
    var n, all := |events|, events + [e];
    match e
    case Registered(c) =>
      RosterAfterRegister(events, e, room, n);
      assert StillThere(all, n);
    case Unregistered(c) =>
      RosterAfterUnregister(events, c, room, n);
      assert !StillThere(all, n);
      RosterRoom(events, room, n);
      if c.roomID != room {
        WithoutAbsent(Roster(events, room, n), c);
      }
  }

  /**
   Over every run, the index entry of a room is exactly the roster of that room, in registration
   order, and only rooms with somebody in them have an entry.
   */
  lemma {:induction false} IndexIsRoster(events: seq<Event>, room: string)
    requires room != ""
    ensures Entry(Run(events).rooms, room) == Roster(events, room, |events|)
    ensures room in Run(events).rooms <==> Roster(events, room, |events|) != []
  {
    if events != [] {
      var n := |events| - 1;
      var prev, e := events[..n], events[n];
      IndexIsRoster(prev, room);
      assert events == prev + [e];
      RosterStep(prev, e, room);
      match e {
        case Registered(c) => EntryAfterRegister(Run(prev), c, room);
        case Unregistered(c) => EntryAfterUnregister(Run(prev), c, room);
      }
    }
  }

  /** The client set is exactly the clients still there. */
  lemma {:induction false} ClientsAreThoseStillThere(events: seq<Event>, c: Client)
    ensures c in Run(events).clients <==> exists i :: 0 <= i < |events| && StillThere(events, i) && events[i].client == c
  {
    if events != [] {
      var n := |events| - 1;
      var prev, e := events[..n], events[n];
      ClientsAreThoseStillThere(prev, c);
      assert events == prev + [e];
      forall i | 0 <= i < n ensures StillThere(events, i) <==> StillThere(prev, i) && e != Unregistered(prev[i].client) {
        StillThereAfter(prev, e, i);
      }
      if e == Registered(c) {
        assert StillThere(events, n);
      } else if c in Run(events).clients {
        var i :| 0 <= i < n && StillThere(prev, i) && prev[i].client == c;
        assert StillThere(events, i) && events[i].client == c;
      }
    }
  }

  predicate NoDuplicates(s: seq<Client>) {
    forall i, j :: 0 <= i < j < |s| ==> s[i] != s[j]
  }

  lemma {:induction false} WithoutKeepsDistinct(s: seq<Client>, c: Client)
    requires NoDuplicates(s)
    ensures NoDuplicates(Without(s, c))
  {
    if s != [] {
      var n := |s| - 1;
      WithoutKeepsDistinct(s[..n], c);
      assert s[n] !in s[..n];
    }
  }

  /** The index lists every registered client of every room, once, and nobody else. */
  ghost predicate Exact(g: Registry) {
    && "" !in g.rooms
    && (forall r :: r in g.rooms ==> g.rooms[r] != [] && NoDuplicates(g.rooms[r]))
    && (forall r, c :: r in g.rooms && c in g.rooms[r] ==> c in g.clients && c.roomID == r)
    && (forall c :: c in g.clients && c.roomID != "" ==> c in Entry(g.rooms, c.roomID))
  }

  /** Registering a client of a room again would list it twice. */
  lemma RegisterKeepsExact(g: Registry, c: Client)
    requires Exact(g)
    ensures Exact(AfterRegister(g, c)) <==> c !in g.clients || c.roomID == ""
  {
    if c in g.clients && c.roomID != "" {
      var entry := Entry(g.rooms, c.roomID);
      var i :| 0 <= i < |entry| && entry[i] == c;
      assert !NoDuplicates(entry + [c]) by {
        assert (entry + [c])[i] == (entry + [c])[|entry|];
      }
      assert AfterRegister(g, c).rooms[c.roomID] == entry + [c];
    } else if c !in g.clients {
      NewClientKeepsExact(g, c);
    }
  }

  lemma NewClientKeepsExact(g: Registry, c: Client)
    requires Exact(g) && c !in g.clients
    ensures Exact(AfterRegister(g, c))
  {
  }

  lemma UnregisterKeepsExact(g: Registry, c: Client)
    requires Exact(g)
    ensures Exact(AfterUnregister(g, c))
  {
    hide Without, NoDuplicates;
    WithoutKeepsDistinct(Entry(g.rooms, c.roomID), c);
    NoneIsDistinct();
  }

  lemma NoneIsDistinct()
    ensures NoDuplicates([])
  {
  }

  /** No client registers while it is registered. */
  predicate RegistersOnce(events: seq<Event>) {
    if events == [] then true
    else
      var n := |events| - 1;
      RegistersOnce(events[..n]) && (events[n].Registered? ==> events[n].client !in Run(events[..n]).clients)
  }

  lemma {:induction false} RunKeepsExact(events: seq<Event>)
    requires RegistersOnce(events)
    ensures Exact(Run(events))
  {
    if events != [] {
      var n := |events| - 1;
      RunKeepsExact(events[..n]);
      match events[n] {
        case Registered(c) => RegisterKeepsExact(Run(events[..n]), c);
        case Unregistered(c) => UnregisterKeepsExact(Run(events[..n]), c);
      }
    }
  }

  /** The clients that are told when `c` leaves. */
  function Recipients(g: Registry, c: Client): seq<Client> {
    if c.roomID == "" then [] else Without(Entry(g.rooms, c.roomID), c)
  }

  /** The recipients are the other registered clients of the leaver's room, each once. */
  lemma RecipientsAreTheOthers(g: Registry, c: Client)
    requires Exact(g)
    ensures NoDuplicates(Recipients(g, c))
    ensures forall k :: 0 <= k < |Recipients(g, c)| ==> Recipients(g, c)[k] in g.clients - {c}
    ensures forall p :: p in Recipients(g, c) <==> c.roomID != "" && p in g.clients && p.roomID == c.roomID && p != c
  {
    WithoutKeepsDistinct(Entry(g.rooms, c.roomID), c);
  }

  /** Who is left in the room's entry is who hears about it. */
  lemma StayingAreRecipients(g: Registry, c: Client)
    ensures c.roomID != "" ==> Without(Entry(AfterUnregister(g, c).rooms, c.roomID), c) == Recipients(g, c)
  {
    WithoutAbsent(Recipients(g, c), c);
  }

  lemma OnlyRemoves(g: Registry, c: Client)
    ensures AfterUnregister(g, c).clients == g.clients - {c}
  {
  }
}

module Hub {
  import opened HubRegistry

  datatype Slice = Slice(buf: array<Client>, len: nat)

  ghost function Contents(s: Slice): seq<Client>
    requires s.len <= s.buf.Length
    reads s.buf
  {
    s.buf[..s.len]
  }

  class Hub {
    var clients: set<Client>
    var roomClients: map<string, Slice>
    var sessionClients: map<string, Client>

    ghost function Buffers(): set<array<Client>>
      reads this
    {
      set r | r in roomClients :: roomClients[r].buf
    }

    ghost predicate Fits()
      reads this
    {
      && (forall r :: r in roomClients ==> roomClients[r].len <= roomClients[r].buf.Length)
      && (forall r, q :: r in roomClients && q in roomClients && r != q ==> roomClients[r].buf != roomClients[q].buf)
    }

    ghost function Index(): map<string, seq<Client>>
      requires Fits()
      reads this, Buffers()
    {
      map r | r in roomClients :: Contents(roomClients[r])
    }

    ghost function View(): Registry
      requires Fits()
      reads this, Buffers()
    {
      Registry(clients, Index())
    }

    ghost predicate Valid()
      reads this, Buffers(), clients
    {
      && Fits() && Exact(View())
      && (forall c :: c in clients ==> !c.closed)
    }

    constructor ()
      ensures Valid() && View() == Run([]) && sessionClients == map[]
    {
      clients, roomClients, sessionClients := {}, map[], map[];
    }

    method Register(c: Client)
      requires Valid()
      modifies this`clients, this`roomClients, Buffers()
      ensures Fits() && View() == AfterRegister(old(View()), c)
      ensures Valid() <==> !c.closed && (c !in old(clients) || c.roomID == "")
    {
      hide Exact;
      RegisterKeepsExact(View(), c);
      ghost var index := Index();
      clients := clients + {c};
      assert Index() == index;
      if c.roomID != "" {
        AddToRoom(c);
      }
    }

    /** Only the index changes. */
    method AddToRoom(c: Client)
      requires Fits()
      modifies this`roomClients, Buffers()
      ensures Fits() && Index() == old(Index())[c.roomID := Entry(old(Index()), c.roomID) + [c]]
      ensures forall buf :: buf in Buffers() ==> buf in old(Buffers()) || fresh(buf)
    {
      hide Contents;
      ghost var index := Index();
      var room := c.roomID;
      var peers := EmptySlice();
      if room in roomClients {
        peers := roomClients[room];
      }
      var grown := Append(peers, c);
      assert forall r :: r in roomClients && r != room ==> Contents(roomClients[r]) == index[r];
      roomClients := roomClients[room := grown];
    }

    /**
     Unregistering after a disconnect. The session to report to the handler comes back, and peer-left
     goes once, buffer space permitting, to every other registered client of the room and to nobody else.
     */
    method Unregister(c: Client) returns (sessionID: string)
      requires Valid()
      modifies this, Buffers(), c`closed, clients`send
      ensures Valid() && View() == AfterUnregister(old(View()), c)
      ensures sessionID == c.sessionID
      ensures sessionClients == if sessionID == "" then old(sessionClients) else old(sessionClients) - {sessionID}
      ensures c.closed == (old(c.closed) || c in old(clients)) && c.send == old(c.send)
      ensures forall p :: p in clients ==>
        var told := sessionID != "" && c.roomID != "" && p.roomID == c.roomID && |old(p.send)| < 8;
        p.send == if told then old(p.send) + [PeerLeft(sessionID)] else old(p.send)
      ensures forall p :: p in clients && |old(p.send)| <= 8 ==> |p.send| <= 8
    {
      hide Exact, AfterUnregister, Recipients, NoDuplicates;
      RecipientsAreTheOthers(View(), c);
      OnlyRemoves(View(), c);
      var peers;
      sessionID, peers := TakeOut(c);
      ghost var after := View();
      if sessionID != "" && |peers| > 0 {
        assert after.clients == clients && old(View()).clients == old(clients);
        assert forall p :: p in peers ==> p in clients;
        NotifyPeers(peers, PeerLeft(sessionID));
      }
      assert View() == after;
    }

    /** The part under the lock. */
    method TakeOut(c: Client) returns (sessionID: string, peers: seq<Client>)
      requires Valid()
      modifies this, Buffers(), c`closed
      ensures Valid() && View() == AfterUnregister(old(View()), c)
      ensures sessionID == c.sessionID && peers == if sessionID == "" then [] else Recipients(old(View()), c)
      ensures sessionClients == if sessionID == "" then old(sessionClients) else old(sessionClients) - {sessionID}
      ensures c.closed == (old(c.closed) || c in old(clients))
    {
      hide Exact, Shrunk, Without;
      UnregisterKeepsExact(View(), c);
      ghost var after := AfterUnregister(View(), c);
      assert Exact(after);
      sessionID := Forget(c);
      peers := [];
      if c.roomID != "" {
        RemoveFromRoom(c);
      }
      assert View() == after;
      assert forall p :: p in clients ==> !p.closed;
      StayingAreRecipients(old(View()), c);
      WithoutAbsent([], c);
      if sessionID != "" && c.roomID != "" && c.roomID in roomClients {
        peers := OthersIn(roomClients[c.roomID], c);
      }
      assert Fits();
      assert View() == after;
      assert Exact(View());
    }

    method Forget(c: Client) returns (sessionID: string)
      requires Fits() && forall p :: p in clients ==> !p.closed
      modifies this`clients, this`sessionClients, c`closed
      ensures Fits() && Index() == old(Index()) && Buffers() == old(Buffers())
      ensures clients == old(clients) - {c} && forall p :: p in clients ==> !p.closed
      ensures sessionID == c.sessionID
      ensures sessionClients == if sessionID == "" then old(sessionClients) else old(sessionClients) - {sessionID}
      ensures c.closed == (old(c.closed) || c in old(clients))
    {
      if c in clients {
        clients := clients - {c};
        c.closed := true;
      }
      sessionID := c.sessionID;
      if sessionID != "" {
        sessionClients := sessionClients - {sessionID};
      }
    }

    /** Only the index changes. */
    method RemoveFromRoom(c: Client)
      requires Fits()
      modifies this`roomClients, Buffers()
      ensures Fits() && Index() == Shrunk(old(Index()), c)
    {
      hide Without, Contents;
      WithoutAbsent([], c);
      var room := c.roomID;
      if room in roomClients {
        var s := roomClients[room];
        var m := RemoveInPlace(s.buf, s.len, c);
        if m == 0 {
          roomClients := roomClients - {room};
        } else {
          roomClients := roomClients[room := Slice(s.buf, m)];
        }
      }
    }
  }

  method OthersIn(s: Slice, c: Client) returns (peers: seq<Client>)
    requires s.len <= s.buf.Length
    ensures peers == Without(Contents(s), c)
  {
    peers := [];
    for i := 0 to s.len
      invariant peers == Without(s.buf[..i], c)
    {
      assert s.buf[..i + 1][..i] == s.buf[..i];
      if s.buf[i] != c {
        peers := peers + [s.buf[i]];
      }
    }
  }

  method EmptySlice() returns (s: Slice)
    ensures s.len == 0 && fresh(s.buf) && Contents(s) == []
  {
    var buf := new Client[0];
    s := Slice(buf, 0);
  }

  /** Appending writes in place while there is capacity, into a bigger buffer otherwise. */
  method Append(s: Slice, c: Client) returns (r: Slice)
    requires s.len <= s.buf.Length
    modifies s.buf
    ensures r.len <= r.buf.Length && Contents(r) == old(Contents(s)) + [c]
    ensures fresh(r.buf) || r.buf == s.buf
  {
    var n := s.len;
    if n < s.buf.Length {
      s.buf[n] := c;
      assert s.buf[..n + 1] == old(s.buf[..n]) + [c];
      r := Slice(s.buf, n + 1);
    } else {
      var buf := new Client[2 * n + 1](_ => c);
      for i := 0 to n
        invariant s.buf[..] == old(s.buf[..]) && buf[..i] == s.buf[..i] && buf[n] == c
      {
        buf[i] := s.buf[i];
      }
      assert buf[..n + 1] == s.buf[..n] + [c];
      r := Slice(buf, n + 1);
    }
  }

  /** Filters the first `n` clients within their own buffer. */
  method RemoveInPlace(peers: array<Client>, n: nat, c: Client) returns (m: nat)
    requires n <= peers.Length
    modifies peers
    ensures m <= n && |Without(old(Contents(Slice(peers, n))), c)| == m
    ensures Contents(Slice(peers, m)) == Without(old(Contents(Slice(peers, n))), c)
  {
    m := 0;
    for i := 0 to n
      invariant m <= i && peers[..m] == Without(old(peers[..i]), c)
      invariant forall k :: i <= k < peers.Length ==> peers[k] == old(peers[k])
    {
      var p := peers[i];
      assert old(peers[..i + 1])[..i] == old(peers[..i]);
      if p != c {
        peers[m] := p;
        m := m + 1;
      }
    }
  }

  /** One non-blocking send to each peer. */
  method NotifyPeers(peers: seq<Client>, m: Message)
    requires NoDuplicates(peers) && forall p :: p in peers ==> !p.closed
    modifies (set p | p in peers)`send
    ensures forall p :: p in peers ==> p.send == if |old(p.send)| < 8 then old(p.send) + [m] else old(p.send)
  {
    for i := 0 to |peers|
      invariant forall k :: 0 <= k < i ==>
        peers[k].send == if |old(peers[k].send)| < 8 then old(peers[k].send) + [m] else old(peers[k].send)
      invariant forall k :: i <= k < |peers| ==> peers[k].send == old(peers[k].send)
    {
      var peer := peers[i];
      if |peer.send| < SEND_BUFFER_SIZE {
        peer.send := peer.send + [m];
      }
    }
  }
}
