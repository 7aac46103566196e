/** A translation room (`room.go`): its participants, its life cycle, and its short code. */
module Rooms {
  import opened Common

  const CAPACITY := 2
  const CODE_LENGTH := 6
  const ALPHABET := "ABCDEFGHJKLMNPQRSTUVWXYZ23456789"

  datatype JoinReply = Joined | Closed | AlreadyIn | Full

  /** A room as a value. `lastActivity` is absent while the source's time stamp is the zero time. */
  datatype RoomState = RoomState(
    id: string,
    sourceLang: string,
    targetLang: string,
    shortCode: string,
    lastActivity: Option<int>,
    active: bool,
    participants: set<string>,
    capacity: nat)
  {
    function TryJoin(userId: string): JoinReply {
      if !active then Closed
      else if userId in participants then AlreadyIn
      else if |participants| >= capacity then Full
      else Joined
    }

    function AfterJoin(userId: string): RoomState {
      if TryJoin(userId).Joined? then this.(participants := participants + {userId}) else this
    }

    function AfterLeave(userId: string): RoomState {
      this.(participants := participants - {userId})
    }

    predicate IsFull() {
      |participants| >= capacity
    }
  }

  function NewRoom(id: string, sourceLang: string, targetLang: string): Option<RoomState> {
    if |sourceLang| != 2 || |targetLang| != 2 then None
    else Some(RoomState(id, sourceLang, targetLang, "", None, true, {}, CAPACITY))
  }

  /** The room object that the service shares by reference and updates in place. */
  class Room {
    var id: string
    var sourceLang: string
    var targetLang: string
    var shortCode: string
    var lastActivity: Option<int>
    var active: bool
    var participants: set<string>
    var capacity: nat

    function View(): RoomState
      reads this
    {
      RoomState(id, sourceLang, targetLang, shortCode, lastActivity, active, participants, capacity)
    }

    constructor (r: RoomState)
      ensures View() == r
    {
      id, sourceLang, targetLang, shortCode := r.id, r.sourceLang, r.targetLang, r.shortCode;
      lastActivity, active, participants, capacity := r.lastActivity, r.active, r.participants, r.capacity;
    }

    method Join(userId: string) returns (reply: JoinReply)
      modifies this
      ensures reply == old(View()).TryJoin(userId)
      ensures View() == old(View()).AfterJoin(userId)
      ensures reply.Closed? <==> !old(active)
      ensures reply.AlreadyIn? <==> old(active) && userId in old(participants)
      ensures reply.Full? <==> old(active) && userId !in old(participants) && |old(participants)| >= old(capacity)
      ensures reply.Joined? <==> old(active) && userId !in old(participants) && |old(participants)| < old(capacity)
      ensures View() == old(View()).(participants := if reply.Joined? then old(participants) + {userId} else old(participants))
    {
      if !active {
        return Closed;
      }
      if userId in participants {
        return AlreadyIn;
      }
      if |participants| >= capacity {
        return Full;
      }
      participants := participants + {userId};
      return Joined;
    }

    method Leave(userId: string) returns (wasIn: bool)
      modifies this
      ensures wasIn == (userId in old(participants))
      ensures View() == old(View()).AfterLeave(userId)
      ensures View() == old(View()).(participants := old(participants) - {userId})
    {
      if userId !in participants {
        return false;
      }
      participants := participants - {userId};
      return true;
    }

    method Close()
      modifies this
      ensures View() == old(View()).(active := false, participants := {})
    {
      active := false;
      participants := {};
    }

    method TouchActivity(now: int)
      modifies this
      ensures View() == old(View()).(lastActivity := Some(now))
    {
      lastActivity := Some(now);
    }
  }

  /** A new room is open, empty and without activity, with room for two; languages have two letters. */
  lemma NewRoomIs(id: string, sourceLang: string, targetLang: string)
    ensures var r := NewRoom(id, sourceLang, targetLang);
      && (r.None? <==> |sourceLang| != 2 || |targetLang| != 2)
      && (r.Some? ==> r.value == RoomState(id, sourceLang, targetLang, "", None, true, {}, 2))
  {
  }

  /** Joining and then leaving restores the room; this is what the join rollback relies on. */
  lemma LeaveUndoesJoin(r: RoomState, userId: string)
    ensures r.TryJoin(userId).Joined? ==> r.AfterJoin(userId).AfterLeave(userId) == r
    ensures r.TryJoin(userId).AlreadyIn? ==> userId in r.participants
  {
    if r.TryJoin(userId).Joined? {
      assert (r.participants + {userId}) - {userId} == r.participants;
    }
  }

  // ---------------------------------------------------------------------------
  // Short codes
  // ---------------------------------------------------------------------------

  /** One byte of a random draw. */
  type Octet = b: int | 0 <= b < 256

  function Symbol(b: Octet): char {
    ALPHABET[b % |ALPHABET|]
  }

  /** The code made of the given random bytes. */
  function CodeOf(bytes: seq<Octet>): (code: string)
    ensures |code| == |bytes|
  {
    seq(|bytes|, i requires 0 <= i < |bytes| => Symbol(bytes[i]))
  }

  predicate IsCode(code: string) {
    |code| == CODE_LENGTH && forall i :: 0 <= i < |code| ==> code[i] in ALPHABET
  }

  /** Reads six random bytes and maps each to a symbol; `None` is a failing reader. */
  method GenerateShortCode(draw: Option<seq<Octet>>) returns (code: Option<string>)
    requires draw.Some? ==> |draw.value| == CODE_LENGTH
    ensures draw.None? ==> code.None?
    ensures draw.Some? ==> code == Some(CodeOf(draw.value)) && IsCode(code.value)
  {
    if draw.None? {
      return None;
    }
    var result := seq(CODE_LENGTH, _ => ' ');
    for i := 0 to CODE_LENGTH
      invariant |result| == CODE_LENGTH
      invariant forall j :: 0 <= j < i ==> result[j] == Symbol(draw.value[j])
    {
      result := result[i := Symbol(draw.value[i])];
    }
    assert result == CodeOf(draw.value);
    return Some(result);
  }

  function UpperChar(c: char): char {
    if 'a' <= c <= 'z' then c - 'a' + 'A' else c
  }

  /** Upper-casing, on ASCII. */
  function ToUpper(s: string): (t: string)
    ensures |t| == |s|
  {
    seq(|s|, i requires 0 <= i < |s| => UpperChar(s[i]))
  }

  /** Upper-casing makes two strings equal exactly when they differ in letter case only, and leaves no small letter. */
  lemma UpperIgnoresCase(s: string, t: string)
    ensures ToUpper(s) == ToUpper(t) <==> |s| == |t| && forall i :: 0 <= i < |s| ==> SameLetter(s[i], t[i])
    ensures forall i :: 0 <= i < |s| ==> !IsLowerLetter(ToUpper(s)[i])
  {
    forall i | 0 <= i < |s| ensures !IsLowerLetter(ToUpper(s)[i]) {
      LowerLetters(ToUpper(s)[i]);
    }
    if |s| == |t| {
      forall i | 0 <= i < |s| ensures ToUpper(s)[i] == ToUpper(t)[i] <==> SameLetter(s[i], t[i]) {
        LowerLetters(s[i]);
        LowerLetters(t[i]);
      }
    }
  }

  lemma AlphabetIsUpper(c: char)
    requires c in ALPHABET
    ensures UpperChar(c) == c
  {
  }

  lemma CodesAreUpper(code: string)
    requires IsCode(code)
    ensures ToUpper(code) == code
  {
    forall i | 0 <= i < |code| ensures ToUpper(code)[i] == code[i] {
      AlphabetIsUpper(code[i]);
    }
  }

  lemma AlphabetDistinct(i: nat, j: nat)
    requires i < j < |ALPHABET|
    ensures ALPHABET[i] != ALPHABET[j]
  {
  }

  /** The byte values that give the symbol at position `i` of the alphabet. */
  function Preimage(i: nat): set<int>
    requires i < |ALPHABET|
  {
    {i, i + 32, i + 64, i + 96, i + 128, i + 160, i + 192, i + 224}
  }

  lemma PreimageIsResidue(i: nat, b: Octet)
    requires i < |ALPHABET|
    ensures b in Preimage(i) <==> b % 32 == i
  {
  }

  /** Exactly eight of the 256 byte values give each symbol, so a code is unbiased at every position. */
  lemma EachSymbolFromEightBytes(i: nat)
    requires i < |ALPHABET|
    ensures |Preimage(i)| == 8
    ensures forall b: Octet :: Symbol(b) == ALPHABET[i] <==> b in Preimage(i)
    ensures forall v :: v in Preimage(i) ==> 0 <= v < 256
  {
    forall b: Octet ensures Symbol(b) == ALPHABET[i] <==> b in Preimage(i) {
      PreimageIsResidue(i, b);
      var j := b % |ALPHABET|;
      if j < i {
        AlphabetDistinct(j, i);
      } else if i < j {
        AlphabetDistinct(i, j);
      }
    }
  }
}
