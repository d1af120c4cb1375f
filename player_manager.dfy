/** The lobby slot registry (PlayerManager): one slot per supported connection. */
module PlayerManagement {
  import opened Outcomes

  datatype Color = Red | Blue | Green | Yellow | Cyan | Grey | White

  /** The name and colour a slot hands to the player registered in it. */
  datatype PlayerDefault = PlayerDefault(name: string, color: Color)

  /** The replicated fields of a Player object. */
  datatype Player = Player(
    connectionId: int,
    lobbyIndex: int,
    name: string,
    color: Color,
    score: int,
    isReady: bool)

  const Undefined: PlayerDefault := PlayerDefault("Undefined", White)

  /** The serialized defaults of the component, one per slot. */
  function StandardDefaults(): seq<PlayerDefault>
  {
    [PlayerDefault("Red", Red), PlayerDefault("Blue", Blue), PlayerDefault("Green", Green),
     PlayerDefault("Yellow", Yellow), PlayerDefault("Cyan", Cyan), PlayerDefault("Grey", Grey)]
  }

  /**
   * GetDefaults(index). The guard is `index > defaults.Length`, so an index equal to the length
   * passes it and the array read throws.
   */
  function GetDefaults(defaults: seq<PlayerDefault>, index: int): (r: Result<PlayerDefault>)
    ensures r.Err? <==> index == |defaults|
    ensures 0 <= index < |defaults| ==> r == Ok(defaults[index])
    ensures (index < 0 || index > |defaults|) ==> r == Ok(Undefined)
  {
    if index < 0 || index > |defaults| then Ok(Undefined)
    else if index == |defaults| then Err(IndexOutOfRange(index))
    else Ok(defaults[index])
  }

  /**
   * GetPlayer(lobbyIndex), with the same `>` guard: an empty result for a negative index or one
   * past the length, an exception for the length itself.
   */
  function GetPlayer(slots: seq<Option<Player>>, lobbyIndex: int): (r: Result<Option<Player>>)
    ensures r.Err? <==> lobbyIndex == |slots|
    ensures 0 <= lobbyIndex < |slots| ==> r == Ok(slots[lobbyIndex])
    ensures (lobbyIndex < 0 || lobbyIndex > |slots|) ==> r == Ok(None)
  {
    if lobbyIndex < 0 || lobbyIndex > |slots| then Ok(None)
    else if lobbyIndex == |slots| then Err(IndexOutOfRange(lobbyIndex))
    else Ok(slots[lobbyIndex])
  }

  /** The lowest free slot, or -1 when every slot is taken. */
  function FirstEmpty(slots: seq<Option<Player>>): (i: int)
    ensures -1 <= i < |slots|
    ensures i == -1 <==> forall k :: 0 <= k < |slots| ==> slots[k].Some?
    ensures 0 <= i ==> slots[i].None? && forall k :: 0 <= k < i ==> slots[k].Some?
    decreases |slots|
  {
    if slots == [] then -1
    else if slots[0].None? then 0
    else
      var j := FirstEmpty(slots[1..]);
      if j == -1 then -1 else j + 1
  }

  /** How the server's Register ended. */
  datatype Registration = Registered(index: nat) | Disconnected

  /** The player's fields as Register sets them for the slot `index`. */
  function Enrolled(player: Player, connectionId: int, index: int, d: PlayerDefault): Player
  {
    player.(connectionId := connectionId, lobbyIndex := index, name := d.name, color := d.color,
            score := 0, isReady := false)
  }

  /**
   * The server's Register(connection, player): the lowest free slot takes the player, with fresh
   * score and ready flag; with no free slot the connection is dropped and nothing changes.
   */
  function Admit(slots: seq<Option<Player>>, defaults: seq<PlayerDefault>, connectionId: int,
                    player: Player): (r: (seq<Option<Player>>, Result<Registration>))
    ensures |r.0| == |slots|
    ensures r.1 == Ok(Disconnected) <==> forall k :: 0 <= k < |slots| ==> slots[k].Some?
    ensures !r.1.Ok? || !r.1.value.Registered? ==> r.0 == slots
    ensures r.1.Err? <==> FirstEmpty(slots) == |defaults|
    ensures r.1.Ok? && r.1.value.Registered? ==>
      var i := r.1.value.index;
      && i < |slots| && slots[i].None?
      && (forall k :: 0 <= k < i ==> slots[k].Some?)
      && r.0[i].Some?
      && r.0[i].value.connectionId == connectionId
      && r.0[i].value.lobbyIndex == i
      && (i < |defaults| ==> r.0[i].value.name == defaults[i].name && r.0[i].value.color == defaults[i].color)
      && (i > |defaults| ==> r.0[i].value.name == Undefined.name && r.0[i].value.color == Undefined.color)
      && r.0[i].value.score == 0
      && !r.0[i].value.isReady
      && (forall k :: 0 <= k < |slots| && k != i ==> r.0[k] == slots[k])
  {
    var index := FirstEmpty(slots);
    if index < 0 then (slots, Ok(Disconnected))
    else
      match GetDefaults(defaults, index)
      case Err(f) => (slots, Err(f))
      case Ok(d) => (slots[index := Some(Enrolled(player, connectionId, index, d))], Ok(Registered(index)))
  }

  /**
   * The server's Unregister(connection) for the connection's player: nothing for a negative
   * lobby index; otherwise the slot is read (which throws when it is out of range or empty) and
   * cleared.
   */
  function Release(slots: seq<Option<Player>>, player: Player): (r: (seq<Option<Player>>, Status))
    ensures |r.0| == |slots|
    ensures player.lobbyIndex < 0 ==> r == (slots, Completed)
    ensures r.1.Failed? ==> r.0 == slots
    ensures r.1.Failed? <==> player.lobbyIndex >= |slots| || (0 <= player.lobbyIndex && slots[player.lobbyIndex].None?)
    ensures r.1.Completed? && player.lobbyIndex >= 0 ==>
      r.0[player.lobbyIndex].None? &&
      forall k :: 0 <= k < |slots| && k != player.lobbyIndex ==> r.0[k] == slots[k]
  {
    var index := player.lobbyIndex;
    if index < 0 then (slots, Completed)
    else if index >= |slots| then (slots, Failed(IndexOutOfRange(index)))
    else if slots[index].None? then (slots, Failed(NullReference))
    else (slots[index := None], Completed)
  }

  /**
   * PlayerKilled(victimId, instigatorId): the instigator, if any and present, scores one point.
   * The victim is not looked at.
   */
  function Credit(slots: seq<Option<Player>>, victimId: int, instigatorId: int)
    : (r: Result<seq<Option<Player>>>)
    ensures r.Err? <==> instigatorId == |slots|
    ensures r.Ok? ==> |r.value| == |slots|
    ensures r.Ok? ==> forall k :: 0 <= k < |slots| && k != instigatorId ==> r.value[k] == slots[k]
    ensures instigatorId == -1 || instigatorId < 0 || instigatorId > |slots| ==> r == Ok(slots)
    ensures 0 <= instigatorId < |slots| ==>
      r == Ok(if slots[instigatorId].None? then slots
              else slots[instigatorId := Some(slots[instigatorId].value.(score := slots[instigatorId].value.score + 1))])
  {
    if instigatorId == -1 then Ok(slots)
    else
      match GetPlayer(slots, instigatorId)
      case Err(f) => Err(f)
      case Ok(None) => Ok(slots)
      case Ok(Some(p)) => Ok(slots[instigatorId := Some(p.(score := p.score + 1))])
  }

  /** The sum of the scores of the registered players. */
  function TotalScore(slots: seq<Option<Player>>): int
    decreases |slots|
  {
    if slots == [] then 0
    else TotalScore(slots[..|slots| - 1]) + (if slots[|slots| - 1].Some? then slots[|slots| - 1].value.score else 0)
  }

  /** Scores change one at a time: a kill raises the total by one or leaves it alone. */
  lemma {:induction false} KillRaisesTotalByAtMostOne(slots: seq<Option<Player>>, victimId: int, instigatorId: int)
    requires Credit(slots, victimId, instigatorId).Ok?
    ensures var t := TotalScore(Credit(slots, victimId, instigatorId).value);
      t == TotalScore(slots) || t == TotalScore(slots) + 1
    ensures 0 <= instigatorId < |slots| && slots[instigatorId].Some? ==>
      TotalScore(Credit(slots, victimId, instigatorId).value) == TotalScore(slots) + 1
  {
    var r := Credit(slots, victimId, instigatorId).value;
    if 0 <= instigatorId < |slots| && slots[instigatorId].Some? {
      TotalAfterUpdate(slots, instigatorId, r[instigatorId]);
    } else {
      assert r == slots;
    }
  }

  lemma {:induction false} TotalAfterUpdate(slots: seq<Option<Player>>, i: int, v: Option<Player>)
    requires 0 <= i < |slots| && slots[i].Some? && v.Some?
    ensures TotalScore(slots[i := v]) == TotalScore(slots) - slots[i].value.score + v.value.score
    decreases |slots|
  {
    var n := |slots| - 1;
    var u := slots[i := v];
    assert u[..n] == if i < n then slots[..n][i := v] else slots[..n];
    if i < n {
      TotalAfterUpdate(slots[..n], i, v);
    }
  }

  /**
   * With the six standard defaults and more than six slots, the seventh player to find the first
   * six slots taken makes the defaults lookup throw instead of receiving "Undefined".
   */
  lemma SeventhPlayerFaults(slots: seq<Option<Player>>, connectionId: int, player: Player)
    requires |slots| > 6 && slots[6].None?
    requires forall k :: 0 <= k < 6 ==> slots[k].Some?
    ensures Admit(slots, StandardDefaults(), connectionId, player) == (slots, Err(IndexOutOfRange(6)))
  {
    var i := FirstEmpty(slots);
    assert i != -1 by { assert slots[6].None?; }
    assert i == 6;
  }

  /** The client's Register(player): the slot named by the player's lobby index takes it. */
  function Place(slots: seq<Option<Player>>, player: Player): (r: (seq<Option<Player>>, Status))
    ensures r.1.Failed? <==> player.lobbyIndex >= |slots|
    ensures player.lobbyIndex < 0 || r.1.Failed? ==> r.0 == slots
    ensures 0 <= player.lobbyIndex < |slots| ==> r.0 == slots[player.lobbyIndex := Some(player)]
  {
    if player.lobbyIndex < 0 then (slots, Completed)
    else if player.lobbyIndex >= |slots| then (slots, Failed(IndexOutOfRange(player.lobbyIndex)))
    else (slots[player.lobbyIndex := Some(player)], Completed)
  }

  /** The client's Unregister(player): the slot named by the player's lobby index is cleared. */
  function Vacate(slots: seq<Option<Player>>, player: Player): (r: (seq<Option<Player>>, Status))
    ensures r.1.Failed? <==> player.lobbyIndex >= |slots|
    ensures player.lobbyIndex < 0 || r.1.Failed? ==> r.0 == slots
    ensures 0 <= player.lobbyIndex < |slots| ==> r.0 == slots[player.lobbyIndex := None]
  {
    if player.lobbyIndex < 0 then (slots, Completed)
    else if player.lobbyIndex >= |slots| then (slots, Failed(IndexOutOfRange(player.lobbyIndex)))
    else (slots[player.lobbyIndex := None], Completed)
  }

  /** A client that registers and then unregisters a player leaves its slot empty. */
  lemma PlaceThenVacate(slots: seq<Option<Player>>, player: Player)
    requires 0 <= player.lobbyIndex < |slots|
    ensures Vacate(Place(slots, player).0, player).0 == slots[player.lobbyIndex := None]
  {
  }

  class PlayerManager {
    const defaults: seq<PlayerDefault>
    /** `Players`: one slot per supported connection; None stands for null. */
    var players: array<Option<Player>>

    /** OnStartServer and OnStartClient: one empty slot per supported connection. */
    constructor (maxPlayers: nat, defaults: seq<PlayerDefault>)
      ensures fresh(players) && players.Length == maxPlayers
      ensures forall k :: 0 <= k < maxPlayers ==> players[k].None?
      ensures this.defaults == defaults
    {
      this.defaults := defaults;
      players := new Option<Player>[maxPlayers](_ => None);
    }

    method GetEmptyIndex() returns (i: int)
      ensures i == FirstEmpty(players[..])
    {
      i := 0;
      while i < players.Length
        invariant 0 <= i <= players.Length
        invariant forall k :: 0 <= k < i ==> players[k].Some?
      {
        if players[i].None? {
          return i;
        }
        i := i + 1;
      }
      return -1;
    }

    /** The server's Register; the outcome says which slot was filled or that there was none. */
    method Register(connectionId: int, player: Player) returns (r: Result<Registration>)
      modifies players
      ensures (players[..], r) == Admit(old(players[..]), defaults, connectionId, player)
    {
      var index := GetEmptyIndex();
      if index < 0 {
        return Ok(Disconnected);
      }
      var d := GetDefaults(defaults, index);
      if d.Err? {
        return Err(d.fault);
      }
      players[index] := Some(Enrolled(player, connectionId, index, d.value));
      r := Ok(Registered(index));
    }

    /** The server's Unregister, given the player object of the connection. */
    method Unregister(player: Player) returns (status: Status)
      modifies players
      ensures (players[..], status) == Release(old(players[..]), player)
    {
      var index := player.lobbyIndex;
      if index < 0 {
        return Completed;
      }
      if index >= players.Length {
        return Failed(IndexOutOfRange(index));
      }
      if players[index].None? {
        return Failed(NullReference);
      }
      players[index] := None;
      status := Completed;
    }

    method PlayerKilled(victimId: int, instigatorId: int) returns (status: Status)
      modifies players
      ensures var r := Credit(old(players[..]), victimId, instigatorId);
        (r.Ok? ==> status == Completed && players[..] == r.value) &&
        (r.Err? ==> status == Failed(r.fault) && players[..] == old(players[..]))
    {
      if instigatorId != -1 {
        var found := GetPlayer(players[..], instigatorId);
        if found.Err? {
          return Failed(found.fault);
        }
        if found.value.Some? {
          var p := found.value.value;
          players[instigatorId] := Some(p.(score := p.score + 1));
        }
      }
      status := Completed;
    }

    method ClientRegister(player: Player) returns (status: Status)
      modifies players
      ensures (players[..], status) == Place(old(players[..]), player)
    {
      if player.lobbyIndex < 0 {
        return Completed;
      }
      if player.lobbyIndex >= players.Length {
        return Failed(IndexOutOfRange(player.lobbyIndex));
      }
      players[player.lobbyIndex] := Some(player);
      status := Completed;
    }

    method ClientUnregister(player: Player) returns (status: Status)
      modifies players
      ensures (players[..], status) == Vacate(old(players[..]), player)
    {
      if player.lobbyIndex < 0 {
        return Completed;
      }
      if player.lobbyIndex >= players.Length {
        return Failed(IndexOutOfRange(player.lobbyIndex));
      }
      players[player.lobbyIndex] := None;
      status := Completed;
    }

    method Clear()
      modifies players
      ensures forall k :: 0 <= k < players.Length ==> players[k].None?
    {
      for i := 0 to players.Length
        invariant forall k :: 0 <= k < i ==> players[k].None?
      {
        players[i] := None;
      }
    }
  }
}
