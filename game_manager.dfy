/** The round state machine (GameManager): Lobby to Game when everyone is ready, back when no warlock is left. */
module GameManagement {
  import opened Outcomes
  import opened PlayerManagement
  import opened LavaVolume

  datatype GameState = Lobby | Game | End

  /** A spawned warlock actor, with the player that owns it. */
  datatype Warlock = Warlock(owner: Player, name: string)

  /** The server spawning and destroying warlock objects. */
  datatype GameEvent = Spawned(warlock: Warlock) | Destroyed(warlock: Warlock)

  /** The warlock StartGame instantiates for a player. */
  function WarlockOf(p: Player): Warlock
  {
    Warlock(p, "Warlock (" + p.name + ")")
  }

  /** The number of occupied slots. */
  function CountPresent(slots: seq<Option<Player>>): (n: nat)
    ensures n <= |slots|
    decreases |slots|
  {
    if slots == [] then 0
    else CountPresent(slots[..|slots| - 1]) + (if slots[|slots| - 1].Some? then 1 else 0)
  }

  /** The number of occupied slots whose player is ready. */
  function CountReady(slots: seq<Option<Player>>): nat
    decreases |slots|
  {
    if slots == [] then 0
    else
      var last := slots[|slots| - 1];
      CountReady(slots[..|slots| - 1]) + (if last.Some? && last.value.isReady then 1 else 0)
  }

  /**
   * The lobby's start test: at least as many ready players as players holds exactly when every
   * player is ready, which is also the case when there is no player at all.
   */
  lemma {:induction false} AllReadyIffCount(slots: seq<Option<Player>>)
    ensures CountReady(slots) <= CountPresent(slots)
    ensures CountReady(slots) >= CountPresent(slots) <==>
      forall k :: 0 <= k < |slots| && slots[k].Some? ==> slots[k].value.isReady
    decreases |slots|
  {
    if slots != [] {
      var n := |slots| - 1;
      AllReadyIffCount(slots[..n]);
      assert forall k :: 0 <= k < n ==> slots[..n][k] == slots[k];
    }
  }

  /** The players of the occupied slots, in slot order. */
  function Present(slots: seq<Option<Player>>): (r: seq<Player>)
    ensures forall p :: p in r <==> Some(p) in slots
    decreases |slots|
  {
    if slots == [] then []
    else
      var last := slots[|slots| - 1];
      Present(slots[..|slots| - 1]) + (if last.Some? then [last.value] else [])
  }

  /** No slot is occupied exactly when the count of present players is zero. */
  lemma {:induction false} NobodyPresent(slots: seq<Option<Player>>)
    ensures CountPresent(slots) == 0 <==> forall k :: 0 <= k < |slots| ==> slots[k].None?
    decreases |slots|
  {
    if slots != [] {
      var n := |slots| - 1;
      NobodyPresent(slots[..n]);
      assert forall k :: 0 <= k < n ==> slots[..n][k] == slots[k];
    }
  }

  lemma {:induction false} PresentCount(slots: seq<Option<Player>>)
    ensures |Present(slots)| == CountPresent(slots)
    decreases |slots|
  {
    if slots != [] {
      PresentCount(slots[..|slots| - 1]);
    }
  }

  /** The slots after the start of a round clears every ready flag. */
  function Unreadied(slots: seq<Option<Player>>): (r: seq<Option<Player>>)
    ensures |r| == |slots|
    decreases |slots|
  {
    if slots == [] then []
    else
      var last := slots[|slots| - 1];
      Unreadied(slots[..|slots| - 1]) + [if last.Some? then Some(last.value.(isReady := false)) else None]
  }

  /** Unreadying keeps every slot's occupant and only clears the ready flag. */
  lemma {:induction false} UnreadiedSlots(slots: seq<Option<Player>>)
    ensures forall k :: 0 <= k < |slots| ==>
      Unreadied(slots)[k] == if slots[k].Some? then Some(slots[k].value.(isReady := false)) else None
    ensures CountPresent(Unreadied(slots)) == CountPresent(slots) && CountReady(Unreadied(slots)) == 0
    decreases |slots|
  {
    if slots != [] {
      var n := |slots| - 1;
      UnreadiedSlots(slots[..n]);
      var r := Unreadied(slots);
      assert r[..n] == Unreadied(slots[..n]);
    }
  }

  /** The warlocks StartGame spawns: one per occupied slot, in slot order. */
  function WarlocksFor(slots: seq<Option<Player>>): (r: seq<Warlock>)
    ensures |r| == CountPresent(slots)
    decreases |slots|
  {
    if slots == [] then []
    else
      var last := slots[|slots| - 1];
      WarlocksFor(slots[..|slots| - 1]) + (if last.Some? then [WarlockOf(last.value)] else [])
  }

  /** StartGame's warlocks are exactly the present players' warlocks, in the same order. */
  lemma {:induction false} WarlocksFollowPlayers(slots: seq<Option<Player>>)
    ensures |WarlocksFor(slots)| == |Present(slots)|
    ensures forall j :: 0 <= j < |Present(slots)| ==> WarlocksFor(slots)[j] == WarlockOf(Present(slots)[j])
    decreases |slots|
  {
    PresentCount(slots);
    if slots != [] {
      var n := |slots| - 1;
      WarlocksFollowPlayers(slots[..n]);
      PresentCount(slots[..n]);
    }
  }

  lemma WarlocksStep(slots: seq<Option<Player>>, k: nat)
    requires k < |slots|
    ensures WarlocksFor(slots[..k + 1]) ==
      WarlocksFor(slots[..k]) + (if slots[k].Some? then [WarlockOf(slots[k].value)] else [])
  {
    assert slots[..k + 1][..k] == slots[..k];
  }

  function Spawns(ws: seq<Warlock>): (r: seq<GameEvent>)
    ensures |r| == |ws| && forall j :: 0 <= j < |ws| ==> r[j] == Spawned(ws[j])
  {
    seq(|ws|, j requires 0 <= j < |ws| => Spawned(ws[j]))
  }

  function Destructions(ws: seq<Warlock>): (r: seq<GameEvent>)
    ensures |r| == |ws| && forall j :: 0 <= j < |ws| ==> r[j] == Destroyed(ws[j])
  {
    seq(|ws|, j requires 0 <= j < |ws| => Destroyed(ws[j]))
  }

  /** The warlocks a game tick keeps, in order: those the observation does not report removed. */
  function Survivors(ws: seq<Warlock>, removed: Warlock -> bool): (r: seq<Warlock>)
    ensures |r| <= |ws|
    decreases |ws|
  {
    if ws == [] then []
    else
      var last := ws[|ws| - 1];
      Survivors(ws[..|ws| - 1], removed) + (if removed(last) then [] else [last])
  }

  /** The survivors are exactly the listed warlocks not reported removed. */
  lemma {:induction false} SurvivorsMembers(ws: seq<Warlock>, removed: Warlock -> bool)
    ensures forall w :: w in Survivors(ws, removed) <==> w in ws && !removed(w)
    decreases |ws|
  {
    if ws != [] {
      var n := |ws| - 1;
      SurvivorsMembers(ws[..n], removed);
      assert ws == ws[..n] + [ws[n]];
    }
  }

  lemma SurvivorsStep(ws: seq<Warlock>, k: nat, removed: Warlock -> bool)
    requires k < |ws|
    ensures Survivors(ws[..k + 1], removed) == Survivors(ws[..k], removed) + (if removed(ws[k]) then [] else [ws[k]])
  {
    assert ws[..k + 1][..k] == ws[..k];
  }

  lemma UnreadiedStep(slots: seq<Option<Player>>, k: nat)
    requires k < |slots|
    ensures Unreadied(slots[..k + 1]) ==
      Unreadied(slots[..k]) + [if slots[k].Some? then Some(slots[k].value.(isReady := false)) else None]
  {
    assert slots[..k + 1][..k] == slots[..k];
  }

  /** Filtering the survivors again removes nobody. */
  lemma {:induction false} SurvivorsIdempotent(ws: seq<Warlock>, removed: Warlock -> bool)
    ensures Survivors(Survivors(ws, removed), removed) == Survivors(ws, removed)
    decreases |ws|
  {
    if ws != [] {
      var n := |ws| - 1;
      var p := Survivors(ws[..n], removed);
      SurvivorsIdempotent(ws[..n], removed);
      if removed(ws[n]) {
        assert Survivors(ws, removed) == p;
      } else {
        var r := p + [ws[n]];
        assert Survivors(ws, removed) == r;
        assert r[..|r| - 1] == p;
        assert Survivors(r, removed) == Survivors(p, removed) + [ws[n]];
      }
    }
  }

  /** The server-side fields of the game manager. */
  datatype Round = Round(state: GameState, warlocks: seq<Warlock>, isSinglePlayer: bool, events: seq<GameEvent>)

  /** What a tick does to the lava. */
  datatype LavaCall = Untouched | Enabled | Disabled

  /** StartGame: one warlock per occupied slot joins the list, and the round begins. */
  function Started(r: Round, slots: seq<Option<Player>>): (out: Round)
    ensures out.state == Game && out.isSinglePlayer == r.isSinglePlayer
    ensures |out.warlocks| == |r.warlocks| + CountPresent(slots) && out.warlocks[..|r.warlocks|] == r.warlocks
    ensures |out.events| == |r.events| + CountPresent(slots) && out.events[..|r.events|] == r.events
  {
    var ws := WarlocksFor(slots);
    r.(warlocks := r.warlocks + ws, events := r.events + Spawns(ws), state := Game)
  }

  /** EnterLobby: every remaining warlock is destroyed, and the lobby opens. */
  function Ended(r: Round): (out: Round)
    ensures out.state == Lobby && out.warlocks == [] && out.isSinglePlayer == r.isSinglePlayer
    ensures |out.events| == |r.events| + |r.warlocks| && out.events[..|r.events|] == r.events
  {
    r.(warlocks := [], events := r.events + Destructions(r.warlocks), state := Lobby)
  }

  /** One Server_Update: the new fields, the new player slots and the call made on the lava. */
  function Step(r: Round, slots: seq<Option<Player>>, removed: Warlock -> bool)
    : (out: (Round, seq<Option<Player>>, LavaCall))
    ensures r.state != Lobby ==> out.1 == slots
    ensures r.state == End ==> out == (r, slots, Untouched)
  {
    match r.state
    case Lobby =>
      var numPlayers := CountPresent(slots);
      if CountReady(slots) >= numPlayers then
        var unready := Unreadied(slots);
        (Started(r.(isSinglePlayer := numPlayers == 1), unready), unready, Enabled)
      else (r, slots, Untouched)
    case Game =>
      var ws := Survivors(r.warlocks, removed);
      if |ws| <= 0 then (Ended(r.(warlocks := ws)), slots, Disabled)
      else (r.(warlocks := ws), slots, Untouched)
    case End => (r, slots, Untouched)
  }

  /** The End state is never entered: a tick moves only between Lobby and Game. */
  lemma NeverEntersEnd(r: Round, slots: seq<Option<Player>>, removed: Warlock -> bool)
    requires r.state != End
    ensures Step(r, slots, removed).0.state != End
    ensures Step(r, slots, removed).0.state != r.state ==>
      (r.state == Lobby && Step(r, slots, removed).2 == Enabled) ||
      (r.state == Game && Step(r, slots, removed).2 == Disabled)
  {
  }

  /**
   * In the lobby a round starts exactly when every player is ready; it then clears every ready
   * flag, keeps every occupant, spawns one warlock per player in slot order and records whether
   * the round is single-player.
   */
  lemma LobbyStart(r: Round, slots: seq<Option<Player>>, removed: Warlock -> bool)
    requires r.state == Lobby
    ensures var out := Step(r, slots, removed);
      out.0.state == Game <==> forall k :: 0 <= k < |slots| && slots[k].Some? ==> slots[k].value.isReady
    ensures var out := Step(r, slots, removed);
      out.0.state == Game ==>
        && out.2 == Enabled
        && CountReady(out.1) == 0 && CountPresent(out.1) == CountPresent(slots)
        && out.1 == Unreadied(slots)
        && out.0.isSinglePlayer == (CountPresent(slots) == 1)
        && out.0.warlocks == r.warlocks + WarlocksFor(out.1)
        && |out.0.warlocks| == |r.warlocks| + CountPresent(slots)
    ensures var out := Step(r, slots, removed);
      out.0.state == Lobby ==> out == (r, slots, Untouched)
  {
    AllReadyIffCount(slots);
    UnreadiedSlots(slots);
  }

  /**
   * In a game a tick keeps exactly the surviving warlocks, in order, and returns to the lobby,
   * with an empty list and the lava disabled, exactly when none survives.
   */
  lemma GameTick(r: Round, slots: seq<Option<Player>>, removed: Warlock -> bool)
    requires r.state == Game
    ensures var out := Step(r, slots, removed);
      && out.1 == slots
      && out.0.events == r.events
      && (out.0.state == Lobby <==> forall w :: w in r.warlocks ==> removed(w))
      && (out.0.state == Lobby ==> out.0.warlocks == [] && out.2 == Disabled)
      && (out.0.state == Game ==> out.0.warlocks == Survivors(r.warlocks, removed) && out.2 == Untouched)
  {
    var ws := Survivors(r.warlocks, removed);
    SurvivorsMembers(r.warlocks, removed);
    if |ws| > 0 {
      assert ws[0] in ws;
    }
  }

  /** With no player at all, the server starts an empty round and ends it on the next tick. */
  lemma EmptyLobbyFlickers(r: Round, slots: seq<Option<Player>>, removed: Warlock -> bool)
    requires r.state == Lobby && r.warlocks == []
    requires forall k :: 0 <= k < |slots| ==> slots[k].None?
    ensures var first := Step(r, slots, removed);
      && first.0.state == Game && first.0.warlocks == [] && first.2 == Enabled
      && var second := Step(first.0, first.1, removed);
         second.0.state == Lobby && second.2 == Disabled
  {
    NobodyPresent(slots);
    AllReadyIffCount(slots);
    UnreadiedSlots(slots);
  }

  class GameManager {
    var state: GameState
    var warlocks: seq<Warlock>
    var isSinglePlayer: bool
    /** The warlocks spawned and destroyed so far, in order. */
    var events: seq<GameEvent>

    ghost function Current(): Round
      reads this
    {
      Round(state, warlocks, isSinglePlayer, events)
    }

    constructor ()
      ensures state == Lobby && warlocks == [] && !isSinglePlayer && events == []
    {
      state := Lobby;
      warlocks := [];
      isSinglePlayer := false;
      events := [];
    }

    /** StartGame: spawn a warlock for every occupied slot, enable the lava, enter Game. */
    method StartGame(pm: PlayerManager, lava: Lava, now: real)
      modifies this, lava`isMoving, lava`startTime
      ensures Current() == Started(old(Current()), pm.players[..])
      ensures lava.isMoving && lava.startTime == now
    {
      var players := pm.players;
      ghost var slots := players[..];
      for i := 0 to players.Length
        invariant state == old(state) && isSinglePlayer == old(isSinglePlayer)
        invariant warlocks == old(warlocks) + WarlocksFor(slots[..i])
        invariant events == old(events) + Spawns(WarlocksFor(slots[..i]))
      {
        WarlocksStep(slots, i);
        var player := players[i];
        if player.None? {
          continue;
        }
        var warlock := WarlockOf(player.value);
        warlocks := warlocks + [warlock];
        events := events + [Spawned(warlock)];
      }
      assert slots[..players.Length] == slots;
      lava.Enable(now);
      state := Game;
    }

    /** EnterLobby: destroy and drop the remaining warlocks, disable the lava, enter Lobby. */
    method EnterLobby(lava: Lava)
      requires lava.Valid()
      modifies this, lava`isMoving, lava`currentProgress
      ensures Current() == Ended(old(Current()))
      ensures lava.Valid() && !lava.isMoving && lava.currentProgress == 0.0
    {
      if |warlocks| > 0 {
        for i := 0 to |warlocks|
          invariant warlocks == old(warlocks) && events == old(events) + Destructions(warlocks[..i])
          invariant state == old(state) && isSinglePlayer == old(isSinglePlayer) && lava.Valid()
        {
          assert warlocks[..i + 1] == warlocks[..i] + [warlocks[i]];
          events := events + [Destroyed(warlocks[i])];
        }
        assert warlocks[..|warlocks|] == warlocks;
        warlocks := [];
      }
      lava.Disable();
      state := Lobby;
    }

    /** The lobby tally of Server_Update. */
    method Tally(players: array<Option<Player>>) returns (numPlayers: nat, readyPlayers: nat)
      ensures numPlayers == CountPresent(players[..]) && readyPlayers == CountReady(players[..])
    {
      numPlayers, readyPlayers := 0, 0;
      for i := 0 to players.Length
        invariant numPlayers == CountPresent(players[..i]) && readyPlayers == CountReady(players[..i])
      {
        assert players[..i + 1][..i] == players[..i];
        var player := players[i];
        if player.None? {
          continue;
        }
        numPlayers := numPlayers + 1;
        if player.value.isReady {
          readyPlayers := readyPlayers + 1;
        }
      }
      assert players[..players.Length] == players[..];
    }

    /** The unready loop of Server_Update. */
    method UnreadyAll(players: array<Option<Player>>)
      modifies players
      ensures players[..] == Unreadied(old(players[..]))
    {
      for i := 0 to players.Length
        invariant players[..] == Unreadied(old(players[..])[..i]) + old(players[..])[i..]
      {
        UnreadiedStep(old(players[..]), i);
        Split(Unreadied(old(players[..])[..i]), old(players[..])[i..]);
        assert old(players[..])[i..][1..] == old(players[..])[i + 1..];
        var player := players[i];
        if player.None? {
          continue;
        }
        players[i] := Some(player.value.(isReady := false));
      }
      assert old(players[..])[..players.Length] == old(players[..]);
    }

    /** The warlock loop of Server_Update: drop every warlock the observation reports removed. */
    method PruneWarlocks(removed: Warlock -> bool)
      modifies this`warlocks
      ensures warlocks == Survivors(old(warlocks), removed)
    {
      ghost var ow := warlocks;
      ghost var k := 0;
      ghost var done: seq<Warlock> := [];
      var i := 0;
      while i < |warlocks|
        invariant 0 <= k <= |ow|
        invariant done == Survivors(ow[..k], removed)
        invariant warlocks == done + ow[k..] && i == |done|
        decreases |ow| - k
      {
        SurvivorsStep(ow, k, removed);
        Split(done, ow[k..]);
        assert ow[k..][1..] == ow[k + 1..];
        if removed(warlocks[i]) {
          warlocks := warlocks[..i] + warlocks[i + 1..];
          done := Survivors(ow[..k + 1], removed);
          k := k + 1;
          continue;
        }
        done := Survivors(ow[..k + 1], removed);
        i := i + 1;
        k := k + 1;
      }
      assert ow[..k] == ow;
    }

    /**
     * Server_Update: in the lobby, start a round once every player is ready; in a game, drop the
     * destroyed or dead warlocks (as observed by `removed`) and return to the lobby when none is
     * left.
     */
    method ServerUpdate(pm: PlayerManager, lava: Lava, removed: Warlock -> bool, now: real)
      requires lava.Valid()
      modifies this, pm.players, lava`isMoving, lava`startTime, lava`currentProgress
      ensures lava.Valid()
      ensures var out := Step(old(Current()), old(pm.players[..]), removed);
        && Current() == out.0
        && pm.players[..] == out.1
        && (out.2 == Enabled ==> lava.isMoving && lava.startTime == now && lava.currentProgress == old(lava.currentProgress))
        && (out.2 == Disabled ==> !lava.isMoving && lava.startTime == old(lava.startTime) && lava.currentProgress == 0.0)
        && (out.2 == Untouched ==> lava.isMoving == old(lava.isMoving) && lava.startTime == old(lava.startTime)
                                   && lava.currentProgress == old(lava.currentProgress))
    {
      if state == Lobby {
        var players := pm.players;
        var numPlayers, readyPlayers := Tally(players);
        if readyPlayers >= numPlayers {
          isSinglePlayer := numPlayers == 1;
          UnreadyAll(players);
          StartGame(pm, lava, now);
        }
      } else if state == Game {
        PruneWarlocks(removed);
        if |warlocks| <= 0 {
          EnterLobby(lava);
        }
      }
    }
  }
}
