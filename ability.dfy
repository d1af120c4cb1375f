/** The replicated per-slot ability record (the `Ability` struct) and its derived properties. */
module Abilities {
  import opened Outcomes
  import opened ScriptableAbilities

  /** A world-space target position (Vector3). */
  datatype Position = Position(x: real, y: real, z: real)

  /** The replicated state of one ability slot: the definition's name hash and two clock times. */
  datatype Ability = Ability(networkHash: int, cooldownEnd: real, castTimeEnd: real)

  /** The authoritative effect of a cast (`Definition.Cast`), recorded rather than performed. */
  datatype Effect = Effect(ability: string, caster: Caster, target: Position)

  /** The definition registered under the record's hash; an unregistered hash throws KeyNotFound. */
  function Data(a: Ability, cache: map<int, Definition>): (r: Result<Definition>)
    ensures r.Ok? <==> a.networkHash in cache
    ensures r.Ok? ==> r.value == cache[a.networkHash]
    ensures r.Err? ==> r.fault == KeyNotFound(a.networkHash)
  {
    if a.networkHash !in cache then Err(KeyNotFound(a.networkHash))
    else Ok(cache[a.networkHash])
  }

  /** The cooldown, read from the registered definition. */
  function Cooldown(a: Ability, cache: map<int, Definition>): (r: Result<real>)
    ensures r.Ok? <==> a.networkHash in cache
    ensures r.Ok? ==> r.value == cache[a.networkHash].cooldown
    ensures r.Err? ==> r.fault == KeyNotFound(a.networkHash)
  {
    match Data(a, cache)
    case Err(f) => Err(f)
    case Ok(d) => Ok(d.cooldown)
  }

  /** The cast time, which is the registered definition's channel time. */
  function CastTime(a: Ability, cache: map<int, Definition>): (r: Result<real>)
    ensures r.Ok? <==> a.networkHash in cache
    ensures r.Ok? ==> r.value == cache[a.networkHash].channelTime
    ensures r.Err? ==> r.fault == KeyNotFound(a.networkHash)
  {
    match Data(a, cache)
    case Err(f) => Err(f)
    case Ok(d) => Ok(d.channelTime)
  }

  /** Seconds until the cooldown ends, never negative. */
  function CooldownLeft(a: Ability, now: real): (r: real)
    ensures r >= 0.0 && r >= a.cooldownEnd - now
    ensures r == 0.0 || r == a.cooldownEnd - now
  {
    if a.cooldownEnd - now > 0.0 then a.cooldownEnd - now else 0.0
  }

  /** Seconds until the cast time ends, never negative. */
  function CastTimeLeft(a: Ability, now: real): (r: real)
    ensures r >= 0.0 && r >= a.castTimeEnd - now
    ensures r == 0.0 || r == a.castTimeEnd - now
  {
    if a.castTimeEnd - now > 0.0 then a.castTimeEnd - now else 0.0
  }

  /** Cooling down while some cooldown time is left. */
  function IsCooldown(a: Ability, now: real): (r: bool)
    ensures r <==> a.cooldownEnd > now
  {
    CooldownLeft(a, now) > 0.0
  }

  /** Casting while some cast time is left. */
  function IsCasting(a: Ability, now: real): (r: bool)
    ensures r <==> a.castTimeEnd > now
  {
    CastTimeLeft(a, now) > 0.0
  }

  /**
   * Castable when the definition allows the caster and neither timer is running; the definition
   * is looked up first, so an unknown hash raises before the timers are read.
   */
  function CanCast(a: Ability, cache: map<int, Definition>, caster: Caster, now: real): (r: Result<bool>)
    ensures r.Err? <==> a.networkHash !in cache
    ensures r.Err? ==> r.fault == KeyNotFound(a.networkHash)
    ensures r == Ok(true) <==>
      && a.networkHash in cache
      && cache[a.networkHash].canCast(caster)
      && a.cooldownEnd <= now
      && a.castTimeEnd <= now
  {
    match Data(a, cache)
    case Err(f) => Err(f)
    case Ok(d) => Ok(d.canCast(caster) && !IsCooldown(a, now) && !IsCasting(a, now))
  }

  /** Casting hands the caster and target to the registered definition's effect. */
  function Cast(a: Ability, cache: map<int, Definition>, caster: Caster, target: Position): (r: Result<Effect>)
    ensures r.Ok? <==> a.networkHash in cache
    ensures r.Ok? ==> r.value == Effect(cache[a.networkHash].name, caster, target)
  {
    match Data(a, cache)
    case Err(f) => Err(f)
    case Ok(d) => Ok(Effect(d.name, caster, target))
  }

  /** The constructor `Ability(data)`: the hash of the asset name, and both timers at `now`. */
  function NewAbility(data: Definition, hash: StableHash, now: real): (a: Ability)
    ensures a.networkHash == hash(data.name)
    ensures a.cooldownEnd == now && a.castTimeEnd == now
    ensures !IsCooldown(a, now) && !IsCasting(a, now)
    ensures CooldownLeft(a, now) == 0.0 && CastTimeLeft(a, now) == 0.0
  {
    Ability(hash(data.name), now, now)
  }

  /**
   * An ability from an asset with the editor's defaults can be cast by anyone at once, and then
   * casts for one second and cools down for one second.
   */
  lemma DefaultAssetTimings(name: string, hash: StableHash, caster: Caster, now: real)
    ensures var cache := map[hash(name) := NewDefinition(name)];
      var a := NewAbility(NewDefinition(name), hash, now);
      && CanCast(a, cache, caster, now) == Ok(true)
      && Cooldown(a, cache) == Ok(1.0) && CastTime(a, cache) == Ok(1.0)
  {
  }

  /** Timings are read from the definition: they depend on the hash only, never on the timers. */
  lemma TimingIgnoresTimers(a: Ability, b: Ability, cache: map<int, Definition>)
    requires a.networkHash == b.networkHash
    ensures Cooldown(a, cache) == Cooldown(b, cache)
    ensures CastTime(a, cache) == CastTime(b, cache)
    ensures a.networkHash in cache ==> Cooldown(a, cache) == Ok(cache[a.networkHash].cooldown)
    ensures a.networkHash in cache ==> CastTime(a, cache) == Ok(cache[a.networkHash].channelTime)
  {
  }

  /**
   * Round trip through the cache: an ability built from a loaded definition resolves, through
   * `Data`, to that same definition.
   */
  lemma DataRoundTrip(defs: seq<Definition>, hash: StableHash, i: int, now: real)
    requires BuildCache(defs, hash).Ok?
    requires 0 <= i < |defs|
    ensures Data(NewAbility(defs[i], hash, now), BuildCache(defs, hash).value) == Ok(defs[i])
  {
    CacheResolves(defs, hash, i);
  }

  /** A freshly built ability can be cast at once exactly when its definition's predicate allows it. */
  lemma FreshAbilityCastable(defs: seq<Definition>, hash: StableHash, i: int, caster: Caster, now: real)
    requires BuildCache(defs, hash).Ok?
    requires 0 <= i < |defs|
    ensures CanCast(NewAbility(defs[i], hash, now), BuildCache(defs, hash).value, caster, now)
         == Ok(defs[i].canCast(caster))
  {
    CacheResolves(defs, hash, i);
  }
}
