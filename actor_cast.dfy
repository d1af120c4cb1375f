/**
 * The per-actor cast authority (ActorCast): the ordered ability list, the active slot, and the
 * request, validate, begin, poll and end cycle driven by the server.
 */
module ActorCasting {
  import opened Outcomes
  import opened ScriptableAbilities
  import opened Abilities

  /** What the server does that the rest of the game observes. */
  datatype Event =
    | Performed(effect: Effect)                  // ability.Cast(actor, position)
    | RpcCastBegin(slot: int, target: Position)  // Rpc_CastBegin broadcast
    | RpcCastEnd(slot: int)                      // Rpc_CastEnd broadcast

  /** A running CastCoroutine: the copy of the ability it was started with, and the target. */
  datatype Coroutine = Coroutine(ability: Ability, target: Position)

  /** A Cmd_Cast call sent by the owning client. */
  datatype Request = Request(slot: int, target: Position)

  /** The server-side state of one ActorCast. */
  datatype CastState = CastState(
    abilities: seq<Ability>,
    activeAbility: int,
    coroutines: seq<Coroutine>,
    events: seq<Event>)

  /** How the server handled one Cmd_Cast. */
  datatype CmdOutcome = Begun | Dropped | Faulted(fault: Fault)

  /**
   * What every reachable server state satisfies: the active slot is -1 or a slot, an actor with
   * no running coroutine is idle, and every running coroutine's ability resolves.
   */
  ghost predicate Inv(s: CastState, cache: map<int, Definition>)
  {
    && (s.activeAbility == -1 || 0 <= s.activeAbility < |s.abilities|)
    && (s.coroutines == [] ==> s.activeAbility == -1)
    && (forall c :: c in s.coroutines ==> c.ability.networkHash in cache)
  }

  /**
   * The discipline the owning client keeps (it sends nothing while the actor is casting): at most
   * one coroutine runs, it runs exactly while the actor is casting, and the active slot holds the
   * very ability that coroutine waits on.
   */
  ghost predicate Serial(s: CastState, cache: map<int, Definition>)
  {
    && Inv(s, cache)
    && |s.coroutines| <= 1
    && (s.activeAbility == -1 <==> s.coroutines == [])
    && (s.coroutines != [] ==> s.abilities[s.activeAbility] == s.coroutines[0].ability)
  }

  /**
   * Server_CastEnd(ability): the copy gets `CooldownEnd = now + Cooldown` and is written into the
   * slot that is active NOW, the end broadcast names that slot, and the actor becomes idle. The
   * cooldown lookup comes first; an idle actor makes the slot write throw.
   */
  function End(s: CastState, ability: Ability, cache: map<int, Definition>, now: real): (r: Result<CastState>)
    ensures r.Ok? <==> ability.networkHash in cache && 0 <= s.activeAbility < |s.abilities|
    ensures r.Ok? ==>
      && r.value.activeAbility == -1
      && |r.value.abilities| == |s.abilities|
      && r.value.abilities[s.activeAbility]
         == ability.(cooldownEnd := now + cache[ability.networkHash].cooldown)
      && (forall k :: 0 <= k < |s.abilities| && k != s.activeAbility ==>
            r.value.abilities[k] == s.abilities[k])
      && r.value.events == s.events + [RpcCastEnd(s.activeAbility)]
      && r.value.coroutines == s.coroutines
  {
    match Cooldown(ability, cache)
    case Err(f) => Err(f)
    case Ok(cooldown) =>
      var ended := ability.(cooldownEnd := now + cooldown);
      if s.activeAbility < 0 || s.activeAbility >= |s.abilities| then Err(IndexOutOfRange(s.activeAbility))
      else Ok(s.(abilities := s.abilities[s.activeAbility := ended],
                 events := s.events + [RpcCastEnd(s.activeAbility)],
                 activeAbility := -1))
  }

  /**
   * One evaluation of the loop guard of CastCoroutine: while its copy is still casting it waits
   * for the next frame; otherwise it calls Server_CastEnd and finishes (a throw finishes it too).
   */
  function Resume(s: CastState, c: Coroutine, cache: map<int, Definition>, now: real): CastState
  {
    if IsCasting(c.ability, now) then s.(coroutines := s.coroutines + [c])
    else
      match End(s, c.ability, cache, now)
      case Ok(t) => t
      case Err(_) => s
  }

  /** The coroutines of `cs` resumed in turn, the survivors collected behind `s.coroutines`. */
  function ResumeAll(s: CastState, cs: seq<Coroutine>, cache: map<int, Definition>, now: real): CastState
    decreases |cs|
  {
    if cs == [] then s
    else Resume(ResumeAll(s, cs[..|cs| - 1], cache, now), cs[|cs| - 1], cache, now)
  }

  /** The coroutines of `cs` still casting at `now`, in order. */
  function Running(cs: seq<Coroutine>, now: real): (r: seq<Coroutine>)
    ensures |r| <= |cs|
    ensures forall c :: c in r <==> c in cs && IsCasting(c.ability, now)
    decreases |cs|
  {
    if cs == [] then []
    else
      assert cs == cs[..|cs| - 1] + [cs[|cs| - 1]];
      Running(cs[..|cs| - 1], now)
      + (if IsCasting(cs[|cs| - 1].ability, now) then [cs[|cs| - 1]] else [])
  }

  /** One server frame: every running coroutine is resumed once, in the order it was started. */
  function Frame(s: CastState, cache: map<int, Definition>, now: real): CastState
  {
    ResumeAll(s.(coroutines := []), s.coroutines, cache, now)
  }

  /**
   * Server_CastBegin(ability) for the slot Cmd_Cast made active: the copy gets
   * `CastTimeEnd = now + CastTime` and replaces that slot, the effect is performed, the begin
   * broadcast goes out, and the coroutine is started, which runs up to its first wait at once.
   */
  function Begin(s: CastState, ability: Ability, target: Position, cache: map<int, Definition>,
                 caster: Caster, now: real): CastState
    requires 0 <= s.activeAbility < |s.abilities|
    requires ability.networkHash in cache
  {
    var began := ability.(castTimeEnd := now + CastTime(ability, cache).value);
    var t := s.(abilities := s.abilities[s.activeAbility := began],
                events := s.events + [Performed(Cast(began, cache, caster, target).value),
                                      RpcCastBegin(s.activeAbility, target)]);
    Resume(t, Coroutine(began, target), cache, now)
  }

  /**
   * Cmd_Cast(index, position) on the server: the slot is read without a bounds check, and only
   * that ability's CanCast guards the cast; there is no check that the actor is already casting.
   */
  function Command(s: CastState, index: int, target: Position, cache: map<int, Definition>,
                   caster: Caster, now: real): (r: (CastState, CmdOutcome))
    ensures r.1 != Begun ==> r.0 == s
    ensures r.1 == Begun <==>
      0 <= index < |s.abilities| && CanCast(s.abilities[index], cache, caster, now) == Ok(true)
    ensures (r.1.Faulted? && r.1.fault.IndexOutOfRange?) <==> !(0 <= index < |s.abilities|)
  {
    if index < 0 || index >= |s.abilities| then (s, Faulted(IndexOutOfRange(index)))
    else
      var ability := s.abilities[index];
      match CanCast(ability, cache, caster, now)
      case Err(f) => (s, Faulted(f))
      case Ok(ok) =>
        if !ok then (s, Dropped)
        else (Begin(s.(activeAbility := index), ability, target, cache, caster, now), Begun)
  }

  /** What a Begun command did: the slot, the timers, the coroutine list and the events. */
  lemma BeginEffects(s: CastState, index: int, target: Position, cache: map<int, Definition>,
                     caster: Caster, now: real)
    requires Command(s, index, target, cache, caster, now).1 == Begun
    ensures
      var t := Command(s, index, target, cache, caster, now).0;
      var a := s.abilities[index];
      var d := cache[a.networkHash];
      var began := Ability(a.networkHash, a.cooldownEnd, now + d.channelTime);
      && |t.abilities| == |s.abilities|
      && (forall k :: 0 <= k < |s.abilities| && k != index ==> t.abilities[k] == s.abilities[k])
      && (d.channelTime > 0.0 ==>
            && t.activeAbility == index
            && t.abilities[index] == began
            && t.coroutines == s.coroutines + [Coroutine(began, target)]
            && t.events == s.events + [Performed(Effect(d.name, caster, target)), RpcCastBegin(index, target)])
      && (d.channelTime <= 0.0 ==>
            && t.activeAbility == -1
            && t.abilities[index] == began.(cooldownEnd := now + d.cooldown)
            && t.coroutines == s.coroutines
            && t.events == s.events + [Performed(Effect(d.name, caster, target)),
                                       RpcCastBegin(index, target), RpcCastEnd(index)])
  {
    var a := s.abilities[index];
    var d := cache[a.networkHash];
    var began := Ability(a.networkHash, a.cooldownEnd, now + d.channelTime);
    var u := s.(activeAbility := index);
    var t := u.(abilities := u.abilities[index := began],
                events := u.events + [Performed(Effect(d.name, caster, target)), RpcCastBegin(index, target)]);
    assert Begin(u, a, target, cache, caster, now) == Resume(t, Coroutine(began, target), cache, now);
  }

  /** What one pass over the coroutine list does, stated for the invariant proofs. */
  lemma {:induction false} ResumeAllFacts(s: CastState, cs: seq<Coroutine>, cache: map<int, Definition>, now: real)
    requires s.activeAbility == -1 || 0 <= s.activeAbility < |s.abilities|
    requires forall c :: c in cs ==> c.ability.networkHash in cache
    ensures
      var r := ResumeAll(s, cs, cache, now);
      && |r.abilities| == |s.abilities|
      && (r.activeAbility == -1 || r.activeAbility == s.activeAbility)
      && r.coroutines == s.coroutines + Running(cs, now)
      && (cs != [] && !IsCasting(cs[|cs| - 1].ability, now) ==> r.activeAbility == -1)
      && ((exists c :: c in cs && !IsCasting(c.ability, now)) ==> r.activeAbility == -1)
    decreases |cs|
  {
    if cs != [] {
      var prefix := cs[..|cs| - 1];
      var c := cs[|cs| - 1];
      assert cs == prefix + [c];
      assert forall x :: x in prefix ==> x in cs;
      ResumeAllFacts(s, prefix, cache, now);
      assert c in cs;
      if (exists x :: x in cs && !IsCasting(x.ability, now)) && IsCasting(c.ability, now) {
        var x :| x in cs && !IsCasting(x.ability, now);
        assert x in prefix;
      }
    }
  }

  /** A frame in which no coroutine has reached its end time changes nothing: End never fires early. */
  lemma {:induction false} NoEndBeforeDue(s: CastState, cache: map<int, Definition>, now: real)
    requires forall c :: c in s.coroutines ==> c.ability.castTimeEnd > now
    ensures Frame(s, cache, now) == s
  {
    AllRunningResumeToThemselves(s.(coroutines := []), s.coroutines, cache, now);
  }

  lemma {:induction false} AllRunningResumeToThemselves(s: CastState, cs: seq<Coroutine>,
                                                        cache: map<int, Definition>, now: real)
    requires forall c :: c in cs ==> c.ability.castTimeEnd > now
    ensures ResumeAll(s, cs, cache, now) == s.(coroutines := s.coroutines + cs)
    decreases |cs|
  {
    if cs != [] {
      var prefix := cs[..|cs| - 1];
      assert forall x :: x in prefix ==> x in cs;
      AllRunningResumeToThemselves(s, prefix, cache, now);
      assert cs[|cs| - 1] in cs;
      assert prefix + [cs[|cs| - 1]] == cs;
    }
  }

  /**
   * A frame keeps exactly the coroutines whose copy is still casting, in order; each of the
   * others has had its End attempted, so the actor is idle after any coroutine finished, even
   * when another cast is still waiting.
   */
  lemma FrameKeepsRunning(s: CastState, cache: map<int, Definition>, now: real)
    requires Inv(s, cache)
    ensures Frame(s, cache, now).coroutines == Running(s.coroutines, now)
    ensures |Frame(s, cache, now).abilities| == |s.abilities|
    ensures (exists c :: c in s.coroutines && !IsCasting(c.ability, now)) ==>
              Frame(s, cache, now).activeAbility == -1
  {
    ResumeAllFacts(s.(coroutines := []), s.coroutines, cache, now);
  }

  lemma FramePreservesInv(s: CastState, cache: map<int, Definition>, now: real)
    requires Inv(s, cache)
    ensures Inv(Frame(s, cache, now), cache)
  {
    var cs := s.coroutines;
    ResumeAllFacts(s.(coroutines := []), cs, cache, now);
    var r := Frame(s, cache, now);
    if r.coroutines == [] && cs != [] {
      var last := cs[|cs| - 1];
      assert last in cs;
      assert !IsCasting(last.ability, now);
    }
  }

  lemma CommandPreservesInv(s: CastState, index: int, target: Position, cache: map<int, Definition>,
                            caster: Caster, now: real)
    requires Inv(s, cache)
    ensures Inv(Command(s, index, target, cache, caster, now).0, cache)
  {
    if Command(s, index, target, cache, caster, now).1 == Begun {
      BeginEffects(s, index, target, cache, caster, now);
    }
  }

  /** A client that sends nothing while casting keeps the server in the one-cast-at-a-time regime. */
  lemma SerialCommand(s: CastState, index: int, target: Position, cache: map<int, Definition>,
                      caster: Caster, now: real)
    requires Serial(s, cache) && s.activeAbility == -1
    ensures Serial(Command(s, index, target, cache, caster, now).0, cache)
  {
    CommandPreservesInv(s, index, target, cache, caster, now);
    if Command(s, index, target, cache, caster, now).1 == Begun {
      BeginEffects(s, index, target, cache, caster, now);
    }
  }

  /**
   * In that regime a frame either leaves everything as it was (the cast is not over) or ends the
   * cast: the begun slot gets `CooldownEnd = now + Cooldown`, the end broadcast names it, and the
   * actor is idle with no coroutine left.
   */
  lemma SerialFrame(s: CastState, cache: map<int, Definition>, now: real)
    requires Serial(s, cache)
    ensures Serial(Frame(s, cache, now), cache)
    ensures s.coroutines != [] && !IsCasting(s.coroutines[0].ability, now) ==>
      var r := Frame(s, cache, now);
      var c := s.coroutines[0];
      && r.activeAbility == -1 && r.coroutines == []
      && r.abilities == s.abilities[s.activeAbility :=
                                    c.ability.(cooldownEnd := now + cache[c.ability.networkHash].cooldown)]
      && r.events == s.events + [RpcCastEnd(s.activeAbility)]
    ensures (s.coroutines == [] || IsCasting(s.coroutines[0].ability, now)) ==> Frame(s, cache, now) == s
  {
    FramePreservesInv(s, cache, now);
    if s.coroutines != [] {
      var c := s.coroutines[0];
      assert s.coroutines == [c];
      assert s.coroutines[..0] == [];
      assert c in s.coroutines;
      var u := s.(coroutines := []);
      assert ResumeAll(u, s.coroutines, cache, now)
          == Resume(ResumeAll(u, s.coroutines[..0], cache, now), c, cache, now);
      assert Frame(s, cache, now) == Resume(u, c, cache, now);
      if !IsCasting(c.ability, now) {
        var r := Frame(s, cache, now);
        assert r.abilities == s.abilities[s.activeAbility :=
                                    c.ability.(cooldownEnd := now + cache[c.ability.networkHash].cooldown)];
      }
    }
  }

  /**
   * Repeating a request for the slot that is being cast, before its cast time is over, is
   * dropped and changes nothing, so the pair produces one Begin.
   */
  lemma RepeatRequestDropped(s: CastState, index: int, target: Position, again: Position,
                             cache: map<int, Definition>, caster: Caster, now: real, later: real)
    requires Command(s, index, target, cache, caster, now).1 == Begun
    requires now <= later < now + cache[s.abilities[index].networkHash].channelTime
    ensures
      var t := Command(s, index, target, cache, caster, now).0;
      Command(t, index, again, cache, caster, later) == (t, Dropped)
  {
    BeginEffects(s, index, target, cache, caster, now);
  }

  /** Whether Client_TryCast(index) sends a request: a slot in range whose ability can be cast. */
  function WouldRequest(abilities: seq<Ability>, index: int, cache: map<int, Definition>,
                        caster: Caster, now: real): (r: Result<bool>)
    ensures r == Ok(true) <==>
      0 <= index < |abilities| && CanCast(abilities[index], cache, caster, now) == Ok(true)
    ensures r.Err? ==> 0 <= index < |abilities| && abilities[index].networkHash !in cache
  {
    if index >= |abilities| || index < 0 then Ok(false)
    else CanCast(abilities[index], cache, caster, now)
  }

  /** One button of the client's Update: the requests it adds, or the exception it raised. */
  function Press(pressed: bool, slot: int, abilities: seq<Ability>, aim: Position,
                 cache: map<int, Definition>, caster: Caster, now: real): (seq<Request>, Status)
  {
    if !pressed then ([], Completed)
    else
      match WouldRequest(abilities, slot, cache, caster, now)
      case Err(f) => ([], Failed(f))
      case Ok(send) => (if send then [Request(slot, aim)] else [], Completed)
  }

  /**
   * The client's Update: nothing without authority or while casting; otherwise the primary,
   * secondary and movement buttons try slots 0, 1 and 2 in turn, stopping at an exception.
   */
  function UpdateRequests(abilities: seq<Ability>, activeAbility: int, hasAuthority: bool,
                          primary: bool, secondary: bool, movement: bool, aim: Position,
                          cache: map<int, Definition>, caster: Caster, now: real): (r: (seq<Request>, Status))
    ensures !hasAuthority || activeAbility >= 0 ==> r == ([], Completed)
  {
    if !hasAuthority || activeAbility >= 0 then ([], Completed)
    else
      var p := Press(primary && |abilities| > 0, 0, abilities, aim, cache, caster, now);
      if p.1.Failed? then p
      else
        var q := Press(secondary && |abilities| > 1, 1, abilities, aim, cache, caster, now);
        if q.1.Failed? then (p.0 + q.0, q.1)
        else
          var m := Press(movement && |abilities| > 2, 2, abilities, aim, cache, caster, now);
          (p.0 + q.0 + m.0, m.1)
  }

  lemma ConcatAssoc<T>(a: seq<T>, b: seq<T>, c: seq<T>)
    ensures (a + b) + c == a + (b + c)
  {
  }

  /** Every request Update sends is aimed, names one of the first three slots, and is castable. */
  lemma UpdateRequestsSound(abilities: seq<Ability>, activeAbility: int, hasAuthority: bool,
                            primary: bool, secondary: bool, movement: bool, aim: Position,
                            cache: map<int, Definition>, caster: Caster, now: real)
    ensures forall q :: q in UpdateRequests(abilities, activeAbility, hasAuthority, primary, secondary,
                                            movement, aim, cache, caster, now).0 ==>
      && q.target == aim && 0 <= q.slot < 3 && q.slot < |abilities|
      && CanCast(abilities[q.slot], cache, caster, now) == Ok(true)
  {
  }

  /** OnStartServer's abilities: one per template, in template order. */
  function FreshAbilities(templates: seq<Definition>, hash: StableHash, now: real): (r: seq<Ability>)
    ensures |r| == |templates|
    ensures forall k :: 0 <= k < |r| ==>
      && r[k].networkHash == hash(templates[k].name)
      && !IsCooldown(r[k], now) && !IsCasting(r[k], now)
  {
    seq(|templates|, k requires 0 <= k < |templates| => NewAbility(templates[k], hash, now))
  }

  /** The ActorCast component on one process: server state, plus the requests its client sent. */
  class ActorCast {
    /** The actor this component belongs to. */
    const caster: Caster
    const hash: StableHash
    /** The ability cache, built before any cast is served. */
    const cache: map<int, Definition>
    const templates: seq<Definition>

    var abilities: seq<Ability>
    var activeAbility: int
    /** The CastCoroutines started and not yet finished, in start order. */
    var coroutines: seq<Coroutine>
    /** Effects performed and RPCs broadcast, in order. */
    var events: seq<Event>
    /** Cmd_Cast calls this client sent. */
    var requests: seq<Request>

    ghost function State(): CastState
      reads this
    {
      CastState(abilities, activeAbility, coroutines, events)
    }

    ghost predicate Valid()
      reads this
    {
      Inv(State(), cache)
    }

    constructor (caster: Caster, hash: StableHash, cache: map<int, Definition>, templates: seq<Definition>)
      ensures Valid()
      ensures this.caster == caster && this.hash == hash && this.cache == cache && this.templates == templates
      ensures abilities == [] && activeAbility == -1 && coroutines == [] && events == [] && requests == []
    {
      this.caster := caster;
      this.hash := hash;
      this.cache := cache;
      this.templates := templates;
      abilities := [];
      activeAbility := -1;
      coroutines := [];
      events := [];
      requests := [];
    }

    /** Casting while some slot is active; in a valid state that index names a slot. */
    function IsCasting(): (r: bool)
      reads this
      ensures Valid() ==> (r <==> 0 <= activeAbility < |abilities|) && (!r <==> activeAbility == -1)
    {
      activeAbility >= 0
    }

    method OnStartServer(now: real)
      requires Valid()
      modifies this`abilities
      ensures Valid()
      ensures abilities == old(abilities) + FreshAbilities(templates, hash, now)
    {
      for i := 0 to |templates|
        invariant abilities == old(abilities) + FreshAbilities(templates[..i], hash, now)
        invariant Valid()
      {
        abilities := abilities + [NewAbility(templates[i], hash, now)];
        assert FreshAbilities(templates[..i + 1], hash, now)
            == FreshAbilities(templates[..i], hash, now) + [NewAbility(templates[i], hash, now)];
      }
      assert templates[..|templates|] == templates;
    }

    method CmdCast(index: int, target: Position, now: real) returns (outcome: CmdOutcome)
      requires Valid()
      modifies this`abilities, this`activeAbility, this`coroutines, this`events
      ensures Valid()
      ensures (State(), outcome) == Command(old(State()), index, target, cache, caster, now)
    {
      if index < 0 || index >= |abilities| {
        return Faulted(IndexOutOfRange(index));
      }
      var ability := abilities[index];
      var can := CanCast(ability, cache, caster, now);
      if can.Err? {
        return Faulted(can.fault);
      }
      if !can.value {
        return Dropped;
      }
      activeAbility := index;
      ServerCastBegin(ability, target, now);
      outcome := Begun;
      CommandPreservesInv(old(State()), index, target, cache, caster, now);
    }

    method ServerCastBegin(ability: Ability, target: Position, now: real)
      requires 0 <= activeAbility < |abilities|
      requires ability.networkHash in cache
      modifies this`abilities, this`activeAbility, this`coroutines, this`events
      ensures State() == Begin(old(State()), ability, target, cache, caster, now)
    {
      var began := ability.(castTimeEnd := now + CastTime(ability, cache).value);
      abilities := abilities[activeAbility := began];
      events := events + [Performed(Cast(began, cache, caster, target).value)];
      events := events + [RpcCastBegin(activeAbility, target)];
      ResumeCoroutine(Coroutine(began, target), now);
    }

    method ServerCastEnd(ability: Ability, now: real) returns (status: Status)
      modifies this`abilities, this`activeAbility, this`events
      ensures status.Completed? ==> End(old(State()), ability, cache, now) == Ok(State())
      ensures status.Failed? ==>
        End(old(State()), ability, cache, now) == Err(status.fault) && State() == old(State())
    {
      var cooldown := Cooldown(ability, cache);
      if cooldown.Err? {
        return Failed(cooldown.fault);
      }
      var ended := ability.(cooldownEnd := now + cooldown.value);
      if activeAbility < 0 || activeAbility >= |abilities| {
        return Failed(IndexOutOfRange(activeAbility));
      }
      abilities := abilities[activeAbility := ended];
      events := events + [RpcCastEnd(activeAbility)];
      activeAbility := -1;
      status := Completed;
    }

    /** The loop guard of CastCoroutine, evaluated once. */
    method ResumeCoroutine(c: Coroutine, now: real)
      modifies this`abilities, this`activeAbility, this`coroutines, this`events
      ensures State() == Resume(old(State()), c, cache, now)
    {
      if Abilities.IsCasting(c.ability, now) {
        coroutines := coroutines + [c];
      } else {
        var _ := ServerCastEnd(c.ability, now);
      }
    }

    /** One server frame: the running coroutines resume, in the order they were started. */
    method Tick(now: real)
      requires Valid()
      modifies this`abilities, this`activeAbility, this`coroutines, this`events
      ensures Valid()
      ensures State() == Frame(old(State()), cache, now)
    {
      var running := coroutines;
      coroutines := [];
      for i := 0 to |running|
        invariant State() == ResumeAll(old(State()).(coroutines := []), running[..i], cache, now)
      {
        assert running[..i + 1][..i] == running[..i];
        ResumeCoroutine(running[i], now);
      }
      assert running[..|running|] == running;
      FramePreservesInv(old(State()), cache, now);
    }

    method ClientTryCast(index: int, target: Position, now: real) returns (r: Result<bool>)
      modifies this`requests
      ensures r == WouldRequest(abilities, index, cache, caster, now)
      ensures requests == old(requests) + if r == Ok(true) then [Request(index, target)] else []
    {
      if index >= |abilities| || index < 0 {
        return Ok(false);
      }
      var ability := abilities[index];
      r := CanCast(ability, cache, caster, now);
      if r == Ok(true) {
        requests := requests + [Request(index, target)];
      }
    }

    /** The client's Update, given the authority flag, the three buttons and the aim position. */
    method Update(hasAuthority: bool, primary: bool, secondary: bool, movement: bool, aim: Position, now: real)
      returns (status: Status)
      modifies this`requests
      ensures
        var u := UpdateRequests(abilities, activeAbility, hasAuthority, primary, secondary, movement,
                                aim, cache, caster, now);
        requests == old(requests) + u.0 && status == u.1
    {
      if !hasAuthority || IsCasting() {
        return Completed;
      }
      ghost var start := requests;
      ghost var p := Press(primary && |abilities| > 0, 0, abilities, aim, cache, caster, now);
      ghost var q := Press(secondary && |abilities| > 1, 1, abilities, aim, cache, caster, now);
      ghost var m := Press(movement && |abilities| > 2, 2, abilities, aim, cache, caster, now);
      if primary && |abilities| > 0 {
        var r := ClientTryCast(0, aim, now);
        if r.Err? {
          return Failed(r.fault);
        }
      }
      assert requests == start + p.0;
      if secondary && |abilities| > 1 {
        var r := ClientTryCast(1, aim, now);
        if r.Err? {
          ConcatAssoc(start, p.0, q.0);
          return Failed(r.fault);
        }
      }
      assert requests == start + p.0 + q.0;
      ConcatAssoc(start, p.0, q.0);
      if movement && |abilities| > 2 {
        var r := ClientTryCast(2, aim, now);
        if r.Err? {
          ConcatAssoc(start, p.0 + q.0, m.0);
          return Failed(r.fault);
        }
      }
      ConcatAssoc(start, p.0 + q.0, m.0);
      status := Completed;
    }
  }
}
