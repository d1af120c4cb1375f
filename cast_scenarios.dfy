/** Worked runs of the cast protocol over concrete abilities. */
module CastScenarios {
  import opened Outcomes
  import opened ScriptableAbilities
  import opened Abilities
  import opened ActorCasting

  /** An ability with a five-second cooldown and a one-second cast time. */
  function Bolt(): Definition
  {
    Definition("Bolt", 5.0, 1.0, 10.0, DefaultCanCast)
  }

  /**
   * A request at t = 0 begins; frames before t = 1 change nothing; the first frame at some
   * `t1 >= 1` ends the cast with `CooldownEnd = t1 + 5`; after that a request during the
   * cooldown is dropped and a request once it is over begins again.
   */
  lemma CooldownFiveCastOne(h: int, caster: Caster, target: Position,
                            early: real, t1: real, during: real, after: real)
    requires 0.0 <= early < 1.0 <= t1
    requires t1 <= during < t1 + 5.0 <= after
    ensures
      var cache := map[h := Bolt()];
      var s0 := CastState([Ability(h, 0.0, 0.0)], -1, [], []);
      var (s1, o1) := Command(s0, 0, target, cache, caster, 0.0);
      && o1 == Begun
      && s1.activeAbility == 0 && s1.abilities[0] == Ability(h, 0.0, 1.0)
      && Frame(s1, cache, early) == s1
      && var s2 := Frame(s1, cache, t1);
         && s2.activeAbility == -1 && s2.coroutines == []
         && s2.abilities == [Ability(h, t1 + 5.0, 1.0)]
         && s2.events == [Performed(Effect("Bolt", caster, target)), RpcCastBegin(0, target), RpcCastEnd(0)]
         && Command(s2, 0, target, cache, caster, during) == (s2, Dropped)
         && Command(s2, 0, target, cache, caster, after).1 == Begun
  {
    var cache := map[h := Bolt()];
    var s0 := CastState([Ability(h, 0.0, 0.0)], -1, [], []);
    var s1 := Command(s0, 0, target, cache, caster, 0.0).0;
    BeginEffects(s0, 0, target, cache, caster, 0.0);
    assert Serial(s0, cache);
    SerialCommand(s0, 0, target, cache, caster, 0.0);
    SerialFrame(s1, cache, early);
    SerialFrame(s1, cache, t1);
  }

  /** Two abilities: slot 0 casts for one second, slot 1 for two; both cool down for five. */
  function Quick(): Definition
  {
    Definition("Quick", 5.0, 1.0, 1.0, DefaultCanCast)
  }

  function Slow(): Definition
  {
    Definition("Slow", 5.0, 2.0, 1.0, DefaultCanCast)
  }

  function TwoSlots(): map<int, Definition>
  {
    map[1 := Quick(), 2 := Slow()]
  }

  /** Both slots begun: slot 0 at 0.0, slot 1 at 0.5, with two coroutines pending. */
  function BothBegun(target: Position, caster: Caster): CastState
  {
    CastState([Ability(1, 0.0, 1.0), Ability(2, 0.0, 2.5)], 1,
              [Coroutine(Ability(1, 0.0, 1.0), target), Coroutine(Ability(2, 0.0, 2.5), target)],
              [Performed(Effect("Quick", caster, target)), RpcCastBegin(0, target),
               Performed(Effect("Slow", caster, target)), RpcCastBegin(1, target)])
  }

  /** While slot 0 is still casting, a request for slot 1 is accepted too. */
  lemma SecondSlotBeginsWhileCasting(target: Position, caster: Caster)
    ensures
      var s0 := CastState([Ability(1, 0.0, 0.0), Ability(2, 0.0, 0.0)], -1, [], []);
      var (s1, o1) := Command(s0, 0, target, TwoSlots(), caster, 0.0);
      && o1 == Begun && s1.activeAbility == 0
      && Command(s1, 1, target, TwoSlots(), caster, 0.5) == (BothBegun(target, caster), Begun)
  {
    var cache := TwoSlots();
    var s0 := CastState([Ability(1, 0.0, 0.0), Ability(2, 0.0, 0.0)], -1, [], []);
    BeginEffects(s0, 0, target, cache, caster, 0.0);
    var s1 := Command(s0, 0, target, cache, caster, 0.0).0;
    BeginEffects(s1, 1, target, cache, caster, 0.5);
    var s2 := Command(s1, 1, target, cache, caster, 0.5).0;
    var b := BothBegun(target, caster);
    assert s1.abilities == [b.abilities[0], Ability(2, 0.0, 0.0)];
    assert s2.abilities == b.abilities;
    assert s2.coroutines == b.coroutines;
    assert s2.events == b.events;
  }

  /**
   * The first cast's End writes its own copy into the slot that is active at that moment, slot 1,
   * which from then on holds the first ability; the second cast's End finds the actor idle and
   * throws, so slot 0 never enters its cooldown and stays castable.
   */
  lemma CastsCrossSlotsOnEnd(target: Position, caster: Caster)
    ensures
      var s3 := Frame(BothBegun(target, caster), TwoSlots(), 1.0);
      var s4 := Frame(s3, TwoSlots(), 2.5);
      && s3.abilities == [Ability(1, 0.0, 1.0), Ability(1, 6.0, 1.0)]
      && s3.activeAbility == -1
      && s4.abilities == s3.abilities
      && s4.coroutines == []
      && s4.events == s3.events
      && CanCast(s4.abilities[0], TwoSlots(), caster, 1.0) == Ok(true)
  {
    var cache := TwoSlots();
    var s2 := BothBegun(target, caster);
    var c0 := Coroutine(Ability(1, 0.0, 1.0), target);
    var c1 := Coroutine(Ability(2, 0.0, 2.5), target);
    var u2 := s2.(coroutines := []);
    assert s2.coroutines[..1] == [c0];
    assert [c0][..0] == [];
    var after0 := Resume(u2, c0, cache, 1.0);
    assert ResumeAll(u2, [c0], cache, 1.0) == after0;
    var s3 := Frame(s2, cache, 1.0);
    assert s3 == Resume(after0, c1, cache, 1.0);
    assert s3.coroutines == [c1];
    var u3 := s3.(coroutines := []);
    assert s3.coroutines[..0] == [];
    assert ResumeAll(u3, s3.coroutines, cache, 2.5)
        == Resume(ResumeAll(u3, s3.coroutines[..0], cache, 2.5), c1, cache, 2.5);
    assert Frame(s3, cache, 2.5) == Resume(u3, c1, cache, 2.5);
  }
}
