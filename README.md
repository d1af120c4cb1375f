# Warlock: abilities, casting, health, lobby and lava

Warlock is a small networked arena game built on Unity and Mirror. The server is the authority:
clients ask it to cast an ability, and it decides, applies the effect, and replicates the result.
This project models the game's server-side core in Dafny:

- **Ability definitions and the ability cache** (`ScriptableAbility`). Definitions are loaded once
  and indexed by the stable hash of their names. A duplicate name hash makes building the cache fail.
- **The per-slot ability record** (`Ability`). A name hash plus two clock times, the end of the
  cooldown and the end of the cast. They give the derived timers and the `CanCast` predicate.
- **The cast authority of one actor** (`ActorCast`):
  - the client's button handling and pre-validation;
  - the server's `Cmd_Cast` guard;
  - `Server_CastBegin`;
  - the polling coroutine that ends a cast on the first frame at or after its end time;
  - `Server_CastEnd`, which starts the cooldown.
- **The lobby slot registry** (`PlayerManager`). Server and client registration, unregistration, kill
  scoring, and the slot and default lookups with their bounds checks.
- **Actor health** (`ActorLife`). Clamped damage and heal, the last-instigator tag, and kill.
- **The round state machine** (`GameManager`). Lobby goes to Game when every present player is
  ready; Game goes back to Lobby when no warlock is left.
- **The lava volume** (`Lava`). The victim list, victims dropped once they are gone, a burn once per
  damage interval, and the clamped rising progress.

Module layout, one file per source file:

- `outcomes.dfy`: the exceptions the code can throw, as `Fault`, `Result` and `Status` values.
- `scriptable_ability.dfy`: `ScriptableAbilities`.
- `ability.dfy`: `Abilities`.
- `actor_cast.dfy`: `ActorCasting`.
  - The server state of an actor is the value `CastState`. The functions `Command`, `Begin`,
    `Resume`, `Frame` and `End` specify it.
  - The class `ActorCast` keeps the same fields. Each of its methods is proved equal to its
    specification function.
- `cast_scenarios.dfy`: worked runs of the cast protocol on concrete abilities.
- `player_manager.dfy`: `PlayerManagement`.
  - The class `PlayerManager` holds the slots in an `array<Option<Player>>`.
  - Each of the server's and the client's registration, unregistration and kill methods leaves
    the array equal to a specification function of the old contents: `Admit`, `Release`,
    `Credit`, `Place` or `Vacate`. `Clear` empties every slot.
- `actor_life.dfy`: `ActorLives`, the class `ActorLife`.
- `lava.dfy`: `LavaVolume`.
  - The class `Lava`.
  - The functions `Kept` and `Burns`, which say what one tick keeps and deals.
- `game_manager.dfy`: `GameManagement`.
  - The class `GameManager`.
  - The function `Step`, which is one `Server_Update`.

Behaviour kept as the code has it:

- **No casting guard on the server.** `Cmd_Cast` checks only the requested ability's `CanCast`. It
  does not check whether the actor is already casting.
  - Only the owning client holds back while casting.
  - When a second slot is begun during a cast, the first cast's end writes its own copy into the
    slot that is active at that moment. See `CastScenarios.SecondSlotBeginsWhileCasting` and
    `CastScenarios.CastsCrossSlotsOnEnd`.
  - `ActorCasting.SerialCommand` and `ActorCasting.SerialFrame` prove the one-cast-at-a-time
    discipline for a client that keeps this rule.
- **Off-by-one bounds checks.** `GetPlayer` and `GetDefaults` test `index > length`, so the index
  equal to the length throws.
- **An empty lobby flickers.** A lobby with no players at all starts a round, which ends on the
  next tick.

## Model

The specification functions `ActorCasting.Resume`, `ActorCasting.ResumeAll`, `ActorCasting.Frame`
and `ActorCasting.Begin` have no contract and no row of their own. Their meaning is stated by the
lemmas about them:
- `ResumeAllFacts`, `NoEndBeforeDue` and `AllRunningResumeToThemselves` for `Resume` and `ResumeAll`;
- `FrameKeepsRunning`, `FramePreservesInv` and `SerialFrame` for `Frame`;
- `BeginEffects` for `Begin`.

| member | source | states |
|---|---|---|
| ScriptableAbilities.DefaultCanCast | Assets/Warlock/Scripts/Abilities/ScriptableAbility.cs:37-40 | the inherited cast predicate allows every caster |
| ScriptableAbilities.BuildCache | Assets/Warlock/Scripts/Abilities/ScriptableAbility.cs:79-83 | on success the dictionary's keys are exactly the name hashes of the loaded definitions; on failure the fault is a duplicate key that is one of those hashes |
| ScriptableAbilities.CacheResolves | Assets/Warlock/Scripts/Abilities/ScriptableAbility.cs:83 | every loaded definition is found under the hash of its own name |
| ScriptableAbilities.CacheSucceedsIffDistinct | Assets/Warlock/Scripts/Abilities/ScriptableAbility.cs:83 | building the cache succeeds if and only if the loaded names have pairwise distinct hashes |
| ScriptableAbilities.CollisionFails | Assets/Warlock/Scripts/Abilities/ScriptableAbility.cs:83 | two definitions with the same name hash make the build throw a duplicate-key fault |
| ScriptableAbilities.AbilityRegistry.constructor | Assets/Warlock/Scripts/Abilities/ScriptableAbility.cs:91 | the static cache starts out null |
| ScriptableAbilities.AbilityRegistry.Cache | Assets/Warlock/Scripts/Abilities/ScriptableAbility.cs:72-90 | the getter returns the dictionary built from the resources; it is built on first access only and kept from then on; a failed build leaves the cache null |
| Abilities.Data | Assets/Warlock/Scripts/Abilities/Ability.cs:21-31 | the lookup succeeds if and only if the hash is cached, gives the cached definition, and otherwise throws KeyNotFound for that hash |
| Abilities.Cooldown | Assets/Warlock/Scripts/Abilities/Ability.cs:52 | the cached definition's cooldown, or KeyNotFound for an unknown hash |
| Abilities.CastTime | Assets/Warlock/Scripts/Abilities/Ability.cs:53 | the cached definition's channel time, or KeyNotFound for an unknown hash |
| Abilities.CooldownLeft | Assets/Warlock/Scripts/Abilities/Ability.cs:69 | the time left is never negative, at least `CooldownEnd - now`, and either zero or exactly that difference |
| Abilities.CastTimeLeft | Assets/Warlock/Scripts/Abilities/Ability.cs:74 | the same clamp, for the cast end |
| Abilities.IsCooldown | Assets/Warlock/Scripts/Abilities/Ability.cs:59 | on cooldown if and only if the cooldown end lies in the future |
| Abilities.IsCasting | Assets/Warlock/Scripts/Abilities/Ability.cs:64 | casting if and only if the cast end lies in the future |
| Abilities.CanCast | Assets/Warlock/Scripts/Abilities/Ability.cs:85-88 | throws KeyNotFound if and only if the hash is not cached; true if and only if the definition's predicate allows the caster and neither timer is running |
| Abilities.Cast | Assets/Warlock/Scripts/Abilities/Ability.cs:90-93 | succeeds if and only if the hash is cached, and then performs the cached definition's effect for that caster and target |
| Abilities.NewAbility | Assets/Warlock/Scripts/Abilities/Ability.cs:76-83 | a new record carries the hash of the asset name, and both its cooldown end and its cast end are now, so it is neither cooling down nor casting |
| Abilities.DefaultAssetTimings | Assets/Warlock/Scripts/Abilities/ScriptableAbility.cs:24-40 | an ability from an asset with the editor's defaults can be cast by anyone at once, casts for one second and cools down for one second |
| Abilities.TimingIgnoresTimers | Assets/Warlock/Scripts/Abilities/Ability.cs:52-53 | cooldown and cast time depend only on the hash, and are the cached definition's values |
| Abilities.DataRoundTrip | Assets/Warlock/Scripts/Abilities/Ability.cs:21-31 | a record built from a loaded definition resolves back to that same definition |
| Abilities.FreshAbilityCastable | Assets/Warlock/Scripts/Abilities/Ability.cs:76-88 | a freshly built record can be cast at once exactly when its definition's predicate allows it |
| ActorCasting.End | Assets/Warlock/Scripts/Actors/ActorCast.cs:68-81 | succeeds if and only if the hash is cached and the active slot is a slot; the copy then gets `CooldownEnd = now + Cooldown` in the slot active now, every other slot is unchanged, the end broadcast names that slot, and the actor is idle |
| ActorCasting.Running | Assets/Warlock/Scripts/Actors/ActorCast.cs:89-90 | the coroutines still waiting are exactly those whose copy is still casting |
| ActorCasting.Command | Assets/Warlock/Scripts/Actors/ActorCast.cs:163-173 | a cast begins if and only if the slot is in range and its ability can be cast; an out-of-range slot throws; a request that does not begin changes nothing |
| ActorCasting.BeginEffects | Assets/Warlock/Scripts/Actors/ActorCast.cs:46-62 | a begun cast replaces only its slot, with `CastTimeEnd = now + CastTime`, performs the effect and broadcasts the begin; with a positive cast time its coroutine waits and the slot stays active; with none the cast ends in the same call |
| ActorCasting.ResumeAllFacts | Assets/Warlock/Scripts/Actors/ActorCast.cs:87-93 | a pass over the coroutines keeps the slot count, keeps exactly the still-casting coroutines in order, and leaves the actor idle once any one of them has ended |
| ActorCasting.NoEndBeforeDue | Assets/Warlock/Scripts/Actors/ActorCast.cs:89-90 | a frame in which no cast has reached its end time changes nothing: a cast never ends early |
| ActorCasting.AllRunningResumeToThemselves | Assets/Warlock/Scripts/Actors/ActorCast.cs:89-90 | coroutines that are all still casting are carried over unchanged, in order |
| ActorCasting.FrameKeepsRunning | Assets/Warlock/Scripts/Actors/ActorCast.cs:68-93 | a frame keeps exactly the coroutines still casting; when any one finishes, the actor ends the frame idle, even when another cast is still waiting |
| ActorCasting.FramePreservesInv | Assets/Warlock/Scripts/Actors/ActorCast.cs:68-93 | a frame keeps the active slot -1 or a slot, keeps an actor with no coroutine idle, and keeps every coroutine's ability resolvable |
| ActorCasting.CommandPreservesInv | Assets/Warlock/Scripts/Actors/ActorCast.cs:163-173 | a command keeps the same invariant |
| ActorCasting.SerialCommand | Assets/Warlock/Scripts/Actors/ActorCast.cs:100-103 | for a client that sends nothing while casting, a command keeps at most one coroutine, running exactly while the actor casts, and that coroutine waits on the ability in the active slot |
| ActorCasting.SerialFrame | Assets/Warlock/Scripts/Actors/ActorCast.cs:68-93 | in that regime a frame either changes nothing, or ends the cast: `CooldownEnd = now + Cooldown` in the begun slot, the end broadcast, and an idle actor |
| ActorCasting.RepeatRequestDropped | Assets/Warlock/Scripts/Actors/ActorCast.cs:163-168 | asking again for the slot being cast, before its cast time is over, is dropped and changes nothing |
| ActorCasting.WouldRequest | Assets/Warlock/Scripts/Actors/ActorCast.cs:123-137 | the client sends the request if and only if the slot is in range and its ability can be cast; the only exception is an unknown hash in an existing slot |
| ActorCasting.UpdateRequests | Assets/Warlock/Scripts/Actors/ActorCast.cs:100-115 | without authority, or while casting, the client sends nothing |
| ActorCasting.UpdateRequestsSound | Assets/Warlock/Scripts/Actors/ActorCast.cs:100-137 | every request the client's Update sends aims at the aim position, names one of the first three slots that exists, and names an ability that can be cast |
| ActorCasting.FreshAbilities | Assets/Warlock/Scripts/Actors/ActorCast.cs:36-40 | one record per template, in order, each with its template's name hash and ready to cast |
| ActorCasting.ActorCast.constructor | Assets/Warlock/Scripts/Actors/ActorCast.cs:14-18 | no abilities, and the actor idle with no coroutine |
| ActorCasting.ActorCast.IsCasting | Assets/Warlock/Scripts/Actors/ActorCast.cs:11 | in a valid state the actor is casting if and only if the active index names a slot, and idle if and only if it is -1 |
| ActorCasting.ActorCast.OnStartServer | Assets/Warlock/Scripts/Actors/ActorCast.cs:36-40 | appends one fresh record per template and keeps the invariant |
| ActorCasting.ActorCast.CmdCast | Assets/Warlock/Scripts/Actors/ActorCast.cs:163-173 | the new server state and the outcome are those of `Command`, and the invariant is kept |
| ActorCasting.ActorCast.ServerCastBegin | Assets/Warlock/Scripts/Actors/ActorCast.cs:46-62 | the new state is that of `Begin` |
| ActorCasting.ActorCast.ServerCastEnd | Assets/Warlock/Scripts/Actors/ActorCast.cs:68-81 | completes with the state of `End`, or fails with its fault and changes nothing |
| ActorCasting.ActorCast.ResumeCoroutine | Assets/Warlock/Scripts/Actors/ActorCast.cs:87-93 | one evaluation of the coroutine's loop guard: wait again, or end the cast |
| ActorCasting.ActorCast.Tick | Assets/Warlock/Scripts/Actors/ActorCast.cs:87-93 | the new state is one `Frame`: every running coroutine is resumed once, in start order, and the invariant is kept |
| ActorCasting.ActorCast.ClientTryCast | Assets/Warlock/Scripts/Actors/ActorCast.cs:123-137 | sends exactly the request `WouldRequest` allows |
| ActorCasting.ActorCast.Update | Assets/Warlock/Scripts/Actors/ActorCast.cs:100-115 | the requests sent, and the exception that stops the handler, are those of `UpdateRequests` |
| CastScenarios.CooldownFiveCastOne | Assets/Warlock/Scripts/Actors/ActorCast.cs:46-93 | for a one-second cast with a five-second cooldown: the cast begins, it does not end before one second, the first frame after that ends it with the cooldown running, a request during the cooldown is dropped, and a request after it begins again |
| CastScenarios.SecondSlotBeginsWhileCasting | Assets/Warlock/Scripts/Actors/ActorCast.cs:163-173 | while slot 0 is casting, a request for slot 1 is accepted and a second coroutine starts |
| CastScenarios.CastsCrossSlotsOnEnd | Assets/Warlock/Scripts/Actors/ActorCast.cs:68-81 | the first cast's end writes its copy into slot 1, which was active at that moment; the second end throws on an idle actor, so slot 0 never starts its cooldown |
| PlayerManagement.GetDefaults | Assets/Warlock/Scripts/Managers/PlayerManager.cs:156-162 | throws if and only if the index equals the number of defaults; an index in range gives that default; any other index gives "Undefined", white |
| PlayerManagement.GetPlayer | Assets/Warlock/Scripts/Managers/PlayerManager.cs:139-145 | throws if and only if the index equals the number of slots; an index in range gives that slot; any other index gives null |
| PlayerManagement.FirstEmpty | Assets/Warlock/Scripts/Managers/PlayerManager.cs:147-154 | the lowest empty slot, or -1 exactly when every slot is taken |
| PlayerManagement.Admit | Assets/Warlock/Scripts/Managers/PlayerManager.cs:59-82 | the connection is turned away if and only if every slot is taken; the defaults lookup throws if and only if the first free slot equals the number of defaults; otherwise the lowest free slot takes the player, with its connection, lobby index, that slot's default name and colour ("Undefined", white past the defaults), score 0 and not ready, and every other slot is unchanged |
| PlayerManagement.Release | Assets/Warlock/Scripts/Managers/PlayerManager.cs:85-100 | a negative lobby index does nothing; the read throws if and only if the index is past the slots or its slot is empty; otherwise only that slot is emptied |
| PlayerManagement.Credit | Assets/Warlock/Scripts/Managers/PlayerManager.cs:103-113 | only the instigator's slot can change: a present instigator gains one point; the read throws if and only if the id equals the number of slots; no instigator, or an id outside the slots, changes nothing |
| PlayerManagement.KillRaisesTotalByAtMostOne | Assets/Warlock/Scripts/Managers/PlayerManager.cs:103-113 | a kill raises the total score by one when the instigator is present, and otherwise leaves it unchanged |
| PlayerManagement.TotalAfterUpdate | Assets/Warlock/Scripts/Managers/PlayerManager.cs:111 | replacing one player changes the total score by exactly the difference of the two scores |
| PlayerManagement.SeventhPlayerFaults | Assets/Warlock/Scripts/Managers/PlayerManager.cs:25-33 | with the six standard defaults and more than six slots, registering a player when exactly the first six are taken makes the defaults lookup throw instead of giving "Undefined", and the slots are unchanged |
| PlayerManagement.Place | Assets/Warlock/Scripts/Managers/PlayerManager.cs:116-122 | the slot named by the lobby index takes the player; the write throws if and only if the index is past the slots; a negative index does nothing |
| PlayerManagement.Vacate | Assets/Warlock/Scripts/Managers/PlayerManager.cs:125-131 | the named slot is emptied, with the same exception and no-op cases |
| PlayerManagement.PlaceThenVacate | Assets/Warlock/Scripts/Managers/PlayerManager.cs:116-131 | on a client, registering and then unregistering a player leaves its slot empty and the others as they were |
| PlayerManagement.PlayerManager.constructor | Assets/Warlock/Scripts/Managers/PlayerManager.cs:37-50 | one empty slot per supported connection |
| PlayerManagement.PlayerManager.GetEmptyIndex | Assets/Warlock/Scripts/Managers/PlayerManager.cs:147-154 | the scan returns `FirstEmpty` of the slots |
| PlayerManagement.PlayerManager.Register | Assets/Warlock/Scripts/Managers/PlayerManager.cs:59-82 | the new slots and the outcome are those of `Admit` |
| PlayerManagement.PlayerManager.Unregister | Assets/Warlock/Scripts/Managers/PlayerManager.cs:85-100 | the new slots and the outcome are those of `Release` |
| PlayerManagement.PlayerManager.PlayerKilled | Assets/Warlock/Scripts/Managers/PlayerManager.cs:103-113 | the new slots are those of `Credit`; its fault leaves them unchanged |
| PlayerManagement.PlayerManager.ClientRegister | Assets/Warlock/Scripts/Managers/PlayerManager.cs:116-122 | the new slots and the outcome are those of `Place` |
| PlayerManagement.PlayerManager.ClientUnregister | Assets/Warlock/Scripts/Managers/PlayerManager.cs:125-131 | the new slots and the outcome are those of `Vacate` |
| PlayerManagement.PlayerManager.Clear | Assets/Warlock/Scripts/Managers/PlayerManager.cs:133-137 | every slot is empty |
| ActorLives.DamagedHealth | Assets/Warlock/Scripts/Actors/ActorLife.cs:39 | the new health is never negative; it is the old health less the value, or zero; and it is no higher than before |
| ActorLives.HealedHealth | Assets/Warlock/Scripts/Actors/ActorLife.cs:68 | the new health never exceeds the maximum; it is the old health plus the value, or the maximum; and it is no lower than before |
| ActorLives.HealUndoesUnclampedDamage | Assets/Warlock/Scripts/Actors/ActorLife.cs:31-69 | healing the amount a hit took away (when the hit was not clamped) restores the health |
| ActorLives.ActorLife.constructor | Assets/Warlock/Scripts/Actors/ActorLife.cs:11-17 | health 1, no instigator tag, not destroyed |
| ActorLives.ActorLife.IsDead | Assets/Warlock/Scripts/Actors/ActorLife.cs:9 | in a valid state an actor is dead if and only if its health is exactly zero |
| ActorLives.ActorLife.OnStartServer | Assets/Warlock/Scripts/Actors/ActorLife.cs:25-28 | health is set to the maximum, and the class invariant is kept |
| ActorLives.ActorLife.Kill | Assets/Warlock/Scripts/Actors/ActorLife.cs:72-90 | health is zero; the player manager, when there is one, credits the last instigator as `Credit` does; then the tag is reset and the actor destroyed; a fault in the manager stops the rest |
| ActorLives.ActorLife.Damage | Assets/Warlock/Scripts/Actors/ActorLife.cs:31-51 | a negative value changes nothing; otherwise health becomes `DamagedHealth`; a non-negative instigator replaces the tag; an actor left at zero health is killed and its tagged instigator credited; health stays non-negative |
| ActorLives.ActorLife.Heal | Assets/Warlock/Scripts/Actors/ActorLife.cs:54-69 | a negative value, or a dead actor without resurrection, changes nothing; otherwise health becomes `HealedHealth` and stays within the maximum |
| LavaVolume.Clamp01 | Assets/Warlock/Scripts/Lava.cs:67 | the result lies in [0, 1], equals the input there, and is the nearer end outside |
| LavaVolume.Progress | Assets/Warlock/Scripts/Lava.cs:67 | progress lies in [0, 1]; it is 0 up to the start and 1 from the end of the rise |
| LavaVolume.ProgressMonotone | Assets/Warlock/Scripts/Lava.cs:67 | progress never decreases as time goes on |
| LavaVolume.Kept | Assets/Warlock/Scripts/Lava.cs:69-89 | a tick never adds a victim |
| LavaVolume.Burns | Assets/Warlock/Scripts/Lava.cs:80-87 | a tick never deals more burns than there are victims |
| LavaVolume.BurnsExactlyDue | Assets/Warlock/Scripts/Lava.cs:73-87 | a tick burns, for the configured damage, exactly the victims that are still there and whose last burn is at least one interval old |
| LavaVolume.Remaining | Assets/Warlock/Scripts/Lava.cs:73-78 | the victims left are exactly the listed ones that are not gone |
| LavaVolume.KeptIsRemainingRestamped | Assets/Warlock/Scripts/Lava.cs:69-89 | a tick keeps exactly the victims that are not gone, in order, and restamps each due one with the current time |
| LavaVolume.SettledVictimsUntouched | Assets/Warlock/Scripts/Lava.cs:69-89 | victims that are neither gone nor due pass through a tick unchanged, and nobody is burned |
| LavaVolume.KeptAreSettled | Assets/Warlock/Scripts/Lava.cs:73-83 | after a tick with a positive interval, no kept victim is gone or still due |
| LavaVolume.TickIdempotent | Assets/Warlock/Scripts/Lava.cs:69-89 | a second tick at the same instant changes nothing and burns nobody twice |
| LavaVolume.BurnsHitRemaining | Assets/Warlock/Scripts/Lava.cs:73-87 | every burn deals the configured damage to a victim that is still there |
| LavaVolume.FindIndex | Assets/Warlock/Scripts/Lava.cs:122 | the first entry with that life, or -1 exactly when there is none |
| LavaVolume.RemoveFirst | Assets/Warlock/Scripts/Lava.cs:122-126 | with no entry for the life the list is unchanged; otherwise it is one shorter |
| LavaVolume.RemoveFirstDropsFirstMatch | Assets/Warlock/Scripts/Lava.cs:122-126 | leaving removes the first entry with that life and keeps every other entry, in order |
| LavaVolume.EnterThenExit | Assets/Warlock/Scripts/Lava.cs:98-130 | an actor that enters and leaves, not having been listed before, leaves the list as it was |
| LavaVolume.Lava.OnStartServer | Assets/Warlock/Scripts/Lava.cs:26-47 | the lava starts still, at progress 0, with no victims and the start time now |
| LavaVolume.Lava.Enable | Assets/Warlock/Scripts/Lava.cs:49-53 | the lava moves, measured from now |
| LavaVolume.Lava.Disable | Assets/Warlock/Scripts/Lava.cs:55-59 | the lava stops, and its progress returns to 0 |
| LavaVolume.Lava.Update | Assets/Warlock/Scripts/Lava.cs:62-90 | still lava changes nothing; moving lava takes `Progress` at now, keeps the `Kept` victims, and deals the `Burns` of the old list |
| LavaVolume.Lava.TickVictims | Assets/Warlock/Scripts/Lava.cs:69-89 | the victim loop leaves the `Kept` victims and appends the `Burns` |
| LavaVolume.Lava.OnTriggerEnter | Assets/Warlock/Scripts/Lava.cs:98-112 | an actor with a life joins the end of the list, stamped now; anything else is ignored |
| LavaVolume.Lava.OnTriggerExit | Assets/Warlock/Scripts/Lava.cs:115-130 | the first entry with the actor's life, if any, leaves the list; anything else is ignored |
| GameManagement.CountPresent | Assets/Warlock/Scripts/Managers/GameManager.cs:43-54 | there are never more players than slots |
| GameManagement.AllReadyIffCount | Assets/Warlock/Scripts/Managers/GameManager.cs:43-57 | the ready count never exceeds the player count, and reaches it if and only if every present player is ready |
| GameManagement.NobodyPresent | Assets/Warlock/Scripts/Managers/GameManager.cs:43-54 | the player count is zero if and only if every slot is empty |
| GameManagement.Unreadied | Assets/Warlock/Scripts/Managers/GameManager.cs:65-73 | the unready pass keeps the number of slots |
| GameManagement.UnreadiedSlots | Assets/Warlock/Scripts/Managers/GameManager.cs:65-73 | the unready pass keeps every occupant and only clears its ready flag, so nobody is ready afterwards |
| GameManagement.WarlocksFor | Assets/Warlock/Scripts/Managers/GameManager.cs:117-131 | one warlock per present player |
| GameManagement.WarlocksFollowPlayers | Assets/Warlock/Scripts/Managers/GameManager.cs:117-131 | the spawned warlocks are the present players' warlocks, in slot order |
| GameManagement.Survivors | Assets/Warlock/Scripts/Managers/GameManager.cs:80-89 | the removal loop never adds a warlock |
| GameManagement.SurvivorsMembers | Assets/Warlock/Scripts/Managers/GameManager.cs:80-89 | the warlocks kept are exactly the listed ones not reported destroyed or dead |
| GameManagement.SurvivorsIdempotent | Assets/Warlock/Scripts/Managers/GameManager.cs:80-89 | running the removal loop again removes nobody |
| GameManagement.Started | Assets/Warlock/Scripts/Managers/GameManager.cs:113-136 | the round is in Game; the old warlocks and events are kept in front, and one warlock and one spawn are added per present player |
| GameManagement.Ended | Assets/Warlock/Scripts/Managers/GameManager.cs:97-110 | the game is in the lobby with no warlocks; the old events are kept in front, and one destruction is added per warlock |
| GameManagement.Step | Assets/Warlock/Scripts/Managers/GameManager.cs:35-94 | only the lobby branch touches the player slots, and the End state does nothing |
| GameManagement.NeverEntersEnd | Assets/Warlock/Scripts/Managers/GameManager.cs:5-10 | a tick never enters End; Lobby turns into Game only with the lava enabled, and Game into Lobby only with it disabled |
| GameManagement.LobbyStart | Assets/Warlock/Scripts/Managers/GameManager.cs:37-77 | the lobby starts a round if and only if every present player is ready; the new slots are `Unreadied` of the old ones, so every occupant stays in its slot with its ready flag cleared; spawns one warlock per player in slot order, sets single-player exactly for one player, and enables the lava; otherwise nothing changes |
| GameManagement.GameTick | Assets/Warlock/Scripts/Managers/GameManager.cs:78-93 | a game tick keeps the surviving warlocks in order; it returns to the lobby, with the list emptied and the lava disabled, if and only if every warlock is gone |
| GameManagement.EmptyLobbyFlickers | Assets/Warlock/Scripts/Managers/GameManager.cs:57-92 | with no players at all, the lobby starts an empty round and the next tick ends it |
| GameManagement.GameManager.constructor | Assets/Warlock/Scripts/Managers/GameManager.cs:17-19 | the game starts in the lobby with no warlocks |
| GameManagement.GameManager.StartGame | Assets/Warlock/Scripts/Managers/GameManager.cs:113-136 | the fields become `Started`: one warlock spawned per occupied slot, in order, and the state Game; the lava moves, measured from now |
| GameManagement.GameManager.EnterLobby | Assets/Warlock/Scripts/Managers/GameManager.cs:97-110 | the fields become `Ended`: every remaining warlock is destroyed and dropped, and the state is Lobby; the lava stops at progress 0 |
| GameManagement.GameManager.Tally | Assets/Warlock/Scripts/Managers/GameManager.cs:43-54 | the counting loop gives the number of players and of ready players |
| GameManagement.GameManager.UnreadyAll | Assets/Warlock/Scripts/Managers/GameManager.cs:65-73 | the slots become `Unreadied` |
| GameManagement.GameManager.PruneWarlocks | Assets/Warlock/Scripts/Managers/GameManager.cs:80-89 | the warlock list becomes `Survivors` |
| GameManagement.GameManager.ServerUpdate | Assets/Warlock/Scripts/Managers/GameManager.cs:35-94 | the fields and the player slots become those of `Step`, and the lava is enabled, disabled or untouched as `Step` says |

## Left out

- Networking: Mirror's replication and SyncVars, the Rpc and Command transport, and message
  ordering are not modelled. Broadcasts are appended to an event list. `NetworkServer.Spawn` and
  `Destroy` become events or the `destroyed` flag. A Command is a direct call on the server state.
- Client-side effects are not modelled: `Rpc_CastBegin`, `Rpc_CastEnd`, `OnChannelBegin` and
  `OnChannelEnd`, `Hook_ActiveAbility` and the animator, the caster's rotation, the lava's height
  hook, client audio playback and logging. They change no server state.
- The lava's burn sound is taken to be playable, as the lava object is taken to exist for the game
  manager. `Lava.Update` plays `burnAudio` through `AudioManager.Instance.Server_PlayAt` without a
  null guard, so a lava with no clip, or with no audio manager, would throw right after the first
  due `Damage`. That frame would then lose the victim's new timestamp and the rest of the loop.
  `Lava.Update`, `Lava.TickVictims`, `Kept` and `Burns` model the tick without that fault.
- Coroutine resume order: `ActorCast.Tick` resumes the running coroutines in the order they were
  started. Unity does not document this order. `CastScenarios.CastsCrossSlotsOnEnd` depends on it.
- Number formats: times, health and progress are `real`, so `float` and `double` rounding and the
  `(float)` casts are not modelled.
- Hashing: `GetStableHashCode` is taken as a function parameter, because its code is not part of
  this model.
- Ability effects: what a concrete ability does when cast (projectiles, movement,
  `ScriptableAbility.Cast` overrides) is recorded as an `Effect` event, not performed.
- `Resources.LoadAll` is the `resources` sequence given to the registry. `ActorCast` receives the
  built cache as a value, because only a successful build lets the game run.
- The clock `NetworkTime.time`, the input buttons, the aim position and `hasAuthority` are
  parameters.
- Unity's frame loop is left to the caller. `ActorCast.Tick` is one server frame for the
  coroutines, and `StartCoroutine` runs the first loop test at once.
- Object identity and aliasing: `Player`, `Warlock` and lava victims are values.
  - The null or dead test on a victim's life becomes the `gone` observation, taken once per tick.
  - The test on a warlock becomes the `removed` observation.
  - A victim killed by a burn is therefore dropped on the next tick, not later in the same loop.
- Lava burns are recorded as `Burn` events. They are not passed on to `ActorLife.Damage`, which is
  modelled on its own.
- `PlayerManager.Instance` and `FindObjectOfType<Lava>()` are passed in.
  - Both are taken to exist for the game manager.
  - `ActorLife.Kill` accepts a missing manager.
- `Client_Update` of the game manager, and the `Player`, `Actor` and UI classes, are not part of
  this model.
- The loops of `GameManager.Server_Update` and `Lava.Update` are split into helper methods
  (`Tally`, `UnreadyAll`, `PruneWarlocks`, `TickVictims`) with the same loops. `TickVictims` works
  on a local copy of the list and assigns it back at the end.
- The server's `Unregister` receives the connection's player rather than the connection.
- LavaVolume.Lava.OnStartServer: requires `raiseTime > 0`. The model does not cover the
  infinite or NaN progress that a zero rise time gives in the source.
- LavaVolume.RemoveFirst: its own contract states only the length and the no-match case. The exact
  list is stated by `RemoveFirstDropsFirstMatch`.
- ActorLives.ActorLife.constructor: requires a non-negative maximum health, which the serialized
  default of 100 meets.
- ActorCasting.UpdateRequests: its contract states only the no-authority and casting cases. What it
  sends is stated by `UpdateRequestsSound`.
