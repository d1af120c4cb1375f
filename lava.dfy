/** The lava volume (Lava): the victim list, interval-gated burn ticks and the rising progress. */
module LavaVolume {
  import opened Outcomes

  /** Identifies the ActorLife of an actor standing in the lava. */
  type LifeId = int

  datatype LavaVictim = LavaVictim(life: LifeId, timeStamp: real)

  /** One call of `Damage(damage)` on a victim's life. */
  datatype Burn = Burn(life: LifeId, amount: real)

  /** Mathf.Clamp01. */
  function Clamp01(x: real): (r: real)
    ensures 0.0 <= r <= 1.0
    ensures 0.0 <= x <= 1.0 ==> r == x
    ensures x < 0.0 ==> r == 0.0
    ensures x > 1.0 ==> r == 1.0
  {
    if x < 0.0 then 0.0 else if x > 1.0 then 1.0 else x
  }

  /** The normalised rise of the lava `now`, for a rise that began at `startTime`. */
  function Progress(now: real, startTime: real, raiseTime: real): (r: real)
    requires raiseTime > 0.0
    ensures 0.0 <= r <= 1.0
    ensures now <= startTime ==> r == 0.0
    ensures now >= startTime + raiseTime ==> r == 1.0
  {
    DivMonotone(raiseTime, now - startTime, raiseTime);
    Clamp01((now - startTime) / raiseTime)
  }

  lemma DivMonotone(a: real, b: real, d: real)
    requires d > 0.0
    ensures a <= b ==> a / d <= b / d
    ensures d / d == 1.0
  {
    assert (b / d - a / d) * d == b - a;
  }

  /** The lava never sinks while it is moving: progress grows with time. */
  lemma ProgressMonotone(t1: real, t2: real, startTime: real, raiseTime: real)
    requires raiseTime > 0.0 && t1 <= t2
    ensures Progress(t1, startTime, raiseTime) <= Progress(t2, startTime, raiseTime)
  {
    DivMonotone(t1 - startTime, t2 - startTime, raiseTime);
  }

  /** Whether a burn is due for this victim: at least `interval` has passed since its last one. */
  predicate Due(v: LavaVictim, now: real, interval: real)
  {
    now - v.timeStamp >= interval
  }

  function Restamp(v: LavaVictim, now: real, interval: real): LavaVictim
  {
    if Due(v, now, interval) then v.(timeStamp := now) else v
  }

  /** The victims one tick keeps, in order: the gone ones dropped, the burned ones restamped. */
  function Kept(vs: seq<LavaVictim>, gone: LifeId -> bool, now: real, interval: real): (r: seq<LavaVictim>)
    ensures |r| <= |vs|
    decreases |vs|
  {
    if vs == [] then []
    else
      var last := vs[|vs| - 1];
      Kept(vs[..|vs| - 1], gone, now, interval) + (if gone(last.life) then [] else [Restamp(last, now, interval)])
  }

  /** The burns one tick deals, in order: one per remaining victim whose burn is due. */
  function Burns(vs: seq<LavaVictim>, gone: LifeId -> bool, now: real, interval: real, damage: real)
    : (r: seq<Burn>)
    ensures |r| <= |vs|
    decreases |vs|
  {
    if vs == [] then []
    else
      var last := vs[|vs| - 1];
      Burns(vs[..|vs| - 1], gone, now, interval, damage)
        + (if !gone(last.life) && Due(last, now, interval) then [Burn(last.life, damage)] else [])
  }

  /** The victims that are still there, in their order. */
  function Remaining(vs: seq<LavaVictim>, gone: LifeId -> bool): (r: seq<LavaVictim>)
    ensures forall v :: v in r <==> v in vs && !gone(v.life)
    decreases |vs|
  {
    if vs == [] then []
    else
      var last := vs[|vs| - 1];
      Remaining(vs[..|vs| - 1], gone) + (if gone(last.life) then [] else [last])
  }

  function LivesOf(vs: seq<LavaVictim>): (r: set<LifeId>)
    ensures forall v :: v in vs ==> v.life in r
    ensures forall l :: l in r ==> exists v :: v in vs && v.life == l
  {
    set v | v in vs :: v.life
  }

  function Restamped(vs: seq<LavaVictim>, now: real, interval: real): (r: seq<LavaVictim>)
    ensures |r| == |vs|
  {
    seq(|vs|, j requires 0 <= j < |vs| => Restamp(vs[j], now, interval))
  }

  /** A tick is a filter followed by a restamp: it keeps exactly the remaining victims, in order. */
  lemma {:induction false} KeptIsRemainingRestamped(vs: seq<LavaVictim>, gone: LifeId -> bool, now: real, interval: real)
    ensures Kept(vs, gone, now, interval) == Restamped(Remaining(vs, gone), now, interval)
    decreases |vs|
  {
    if vs != [] {
      var n := |vs| - 1;
      KeptIsRemainingRestamped(vs[..n], gone, now, interval);
    }
  }

  /** Victims that are neither gone nor due pass through a tick untouched and unburned. */
  lemma {:induction false} SettledVictimsUntouched(vs: seq<LavaVictim>, gone: LifeId -> bool, now: real, interval: real, damage: real)
    requires forall j :: 0 <= j < |vs| ==> !gone(vs[j].life) && !Due(vs[j], now, interval)
    ensures Kept(vs, gone, now, interval) == vs
    ensures Burns(vs, gone, now, interval, damage) == []
    decreases |vs|
  {
    if vs != [] {
      var n := |vs| - 1;
      SettledVictimsUntouched(vs[..n], gone, now, interval, damage);
      assert vs[..n] + [vs[n]] == vs;
    }
  }

  /**
   * After a tick no kept victim is gone, and, with a positive interval, none is due at that same
   * instant.
   */
  lemma {:induction false} KeptAreSettled(vs: seq<LavaVictim>, gone: LifeId -> bool, now: real, interval: real)
    requires interval > 0.0
    ensures forall j :: 0 <= j < |Kept(vs, gone, now, interval)| ==>
      !gone(Kept(vs, gone, now, interval)[j].life) && !Due(Kept(vs, gone, now, interval)[j], now, interval)
    decreases |vs|
  {
    if vs != [] {
      var n := |vs| - 1;
      KeptAreSettled(vs[..n], gone, now, interval);
      var p := Kept(vs[..n], gone, now, interval);
      var r := Kept(vs, gone, now, interval);
      if gone(vs[n].life) {
        assert r == p;
      } else {
        var x := Restamp(vs[n], now, interval);
        assert r == p + [x];
        assert !gone(x.life) && !Due(x, now, interval);
        assert forall j :: 0 <= j < |r| ==> r[j] == if j < |p| then p[j] else x;
      }
    }
  }

  /** A second tick at the same instant changes nothing and burns nobody twice. */
  lemma TickIdempotent(vs: seq<LavaVictim>, gone: LifeId -> bool, now: real, interval: real, damage: real)
    requires interval > 0.0
    ensures var r := Kept(vs, gone, now, interval);
      Kept(r, gone, now, interval) == r && Burns(r, gone, now, interval, damage) == []
  {
    KeptAreSettled(vs, gone, now, interval);
    SettledVictimsUntouched(Kept(vs, gone, now, interval), gone, now, interval, damage);
  }

  /** Every burn of a tick deals the configured damage to a victim that is still there. */
  lemma {:induction false} BurnsHitRemaining(vs: seq<LavaVictim>, gone: LifeId -> bool, now: real, interval: real, damage: real)
    ensures forall j :: 0 <= j < |Burns(vs, gone, now, interval, damage)| ==>
      Burns(vs, gone, now, interval, damage)[j].amount == damage &&
      Burns(vs, gone, now, interval, damage)[j].life in LivesOf(Remaining(vs, gone))
    decreases |vs|
  {
    if vs != [] {
      var n := |vs| - 1;
      BurnsHitRemaining(vs[..n], gone, now, interval, damage);
      var p := Burns(vs[..n], gone, now, interval, damage);
      var r := Burns(vs, gone, now, interval, damage);
      var pr := Remaining(vs[..n], gone);
      var rr := Remaining(vs, gone);
      assert forall l :: l in LivesOf(pr) ==> l in LivesOf(rr);
      if !gone(vs[n].life) && Due(vs[n], now, interval) {
        assert r == p + [Burn(vs[n].life, damage)];
        assert rr == pr + [vs[n]];
        assert vs[n].life in LivesOf(rr);
        assert forall j :: 0 <= j < |r| ==> r[j] == if j < |p| then p[j] else Burn(vs[n].life, damage);
      } else {
        assert r == p;
      }
    }
  }

  /**
   * A tick burns exactly the victims that are still there and whose interval has passed, each
   * for the configured damage.
   */
  lemma {:induction false} BurnsExactlyDue(vs: seq<LavaVictim>, gone: LifeId -> bool, now: real, interval: real, damage: real)
    ensures forall b :: b in Burns(vs, gone, now, interval, damage) <==>
      exists v :: v in vs && !gone(v.life) && Due(v, now, interval) && b == Burn(v.life, damage)
    decreases |vs|
  {
    if vs != [] {
      var n := |vs| - 1;
      var p := vs[..n];
      var last := vs[n];
      assert vs == p + [last];
      BurnsExactlyDue(p, gone, now, interval, damage);
      forall b | exists v :: v in vs && !gone(v.life) && Due(v, now, interval) && b == Burn(v.life, damage)
        ensures b in Burns(vs, gone, now, interval, damage)
      {
        var v :| v in vs && !gone(v.life) && Due(v, now, interval) && b == Burn(v.life, damage);
        if v != last {
          assert v in p;
        }
      }
    }
  }

  /** A loop step over a victim that is gone: removing it at the seam extends the ticked prefix. */
  lemma DropStep(ov: seq<LavaVictim>, k: nat, a: seq<LavaVictim>, gone: LifeId -> bool, now: real, interval: real, damage: real)
    requires k < |ov| && gone(ov[k].life) && a == Kept(ov[..k], gone, now, interval)
    ensures && (a + ov[k..])[|a|] == ov[k]
      && (a + ov[k..])[..|a|] + (a + ov[k..])[|a| + 1..] == Kept(ov[..k + 1], gone, now, interval) + ov[k + 1..]
      && |Kept(ov[..k + 1], gone, now, interval)| == |a|
      && Burns(ov[..k + 1], gone, now, interval, damage) == Burns(ov[..k], gone, now, interval, damage)
  {
    assert ov[..k + 1][..k] == ov[..k];
    Split(a, ov[k..]);
    assert ov[k..][1..] == ov[k + 1..];
  }

  /** A loop step over a victim that remains: restamping it in place extends the ticked prefix. */
  lemma KeepStep(ov: seq<LavaVictim>, k: nat, a: seq<LavaVictim>, gone: LifeId -> bool, now: real, interval: real, damage: real)
    requires k < |ov| && !gone(ov[k].life) && a == Kept(ov[..k], gone, now, interval)
    ensures && (a + ov[k..])[|a|] == ov[k]
      && (a + ov[k..])[|a| := Restamp(ov[k], now, interval)] == Kept(ov[..k + 1], gone, now, interval) + ov[k + 1..]
      && (!Due(ov[k], now, interval) ==> a + ov[k..] == Kept(ov[..k + 1], gone, now, interval) + ov[k + 1..])
      && |Kept(ov[..k + 1], gone, now, interval)| == |a| + 1
      && Burns(ov[..k + 1], gone, now, interval, damage) == Burns(ov[..k], gone, now, interval, damage)
           + (if Due(ov[k], now, interval) then [Burn(ov[k].life, damage)] else [])
  {
    assert ov[..k + 1][..k] == ov[..k];
    Split(a, ov[k..]);
    assert ov[k..][1..] == ov[k + 1..];
    assert ov[k..] == [ov[k]] + ov[k + 1..];
  }

  /** Removing or replacing the element at a seam of a concatenation. */
  lemma Split<T>(a: seq<T>, b: seq<T>)
    requires |b| > 0
    ensures (a + b)[|a|] == b[0]
    ensures (a + b)[..|a|] + (a + b)[|a| + 1..] == a + b[1..]
    ensures forall x :: (a + b)[|a| := x] == (a + [x]) + b[1..]
  {
    assert (a + b)[..|a|] == a;
    assert (a + b)[|a| + 1..] == b[1..];
  }

  /** List.FindIndex with a matching life: the first match, or -1. */
  function FindIndex(vs: seq<LavaVictim>, life: LifeId): (r: int)
    ensures -1 <= r < |vs|
    ensures r == -1 <==> forall k :: 0 <= k < |vs| ==> vs[k].life != life
    ensures 0 <= r ==> vs[r].life == life && forall k :: 0 <= k < r ==> vs[k].life != life
    decreases |vs|
  {
    if vs == [] then -1
    else if vs[0].life == life then 0
    else
      var j := FindIndex(vs[1..], life);
      if j == -1 then -1 else j + 1
  }

  /** The victim list after the actor with `life` leaves the volume. */
  function RemoveFirst(vs: seq<LavaVictim>, life: LifeId): (r: seq<LavaVictim>)
    ensures (forall k :: 0 <= k < |vs| ==> vs[k].life != life) ==> r == vs
    ensures |r| == if FindIndex(vs, life) < 0 then |vs| else |vs| - 1
  {
    var i := FindIndex(vs, life);
    if i < 0 then vs else vs[..i] + vs[i + 1..]
  }

  /** Leaving removes the first entry with that life and keeps every other entry, in order. */
  lemma RemoveFirstDropsFirstMatch(vs: seq<LavaVictim>, life: LifeId, i: int)
    requires i == FindIndex(vs, life) && i >= 0
    ensures |RemoveFirst(vs, life)| == |vs| - 1
    ensures forall k :: 0 <= k < i ==> RemoveFirst(vs, life)[k] == vs[k]
    ensures forall k :: i <= k < |vs| - 1 ==> RemoveFirst(vs, life)[k] == vs[k + 1]
  {
  }

  /** An actor that enters and then leaves, with no earlier entry, leaves the list as it was. */
  lemma EnterThenExit(vs: seq<LavaVictim>, life: LifeId, now: real)
    requires forall k :: 0 <= k < |vs| ==> vs[k].life != life
    ensures RemoveFirst(vs + [LavaVictim(life, now)], life) == vs
  {
    var ws := vs + [LavaVictim(life, now)];
    assert ws[|vs|].life == life;
    assert forall k :: 0 <= k < |vs| ==> ws[k].life != life;
    assert ws[..|vs|] == vs;
  }

  class Lava {
    const damage: real
    const damageInterval: real
    const raiseTime: real
    var isMoving: bool
    /** Set by Enable; the progress is measured from it. */
    var startTime: real
    /** The actors currently in the lava. */
    var victims: seq<LavaVictim>
    var currentProgress: real
    /** The damage dealt so far, in order. */
    var burns: seq<Burn>

    ghost predicate Valid()
      reads this`currentProgress
    {
      raiseTime > 0.0 && 0.0 <= currentProgress <= 1.0
    }

    /** OnStartServer: the object starts still, at progress 0, with no victims. */
    constructor OnStartServer(now: real, damage: real, damageInterval: real, raiseTime: real)
      requires raiseTime > 0.0
      ensures Valid()
      ensures this.damage == damage && this.damageInterval == damageInterval && this.raiseTime == raiseTime
      ensures !isMoving && startTime == now && victims == [] && currentProgress == 0.0 && burns == []
    {
      this.damage := damage;
      this.damageInterval := damageInterval;
      this.raiseTime := raiseTime;
      isMoving := false;
      startTime := now;
      victims := [];
      currentProgress := 0.0;
      burns := [];
    }

    method Enable(now: real)
      modifies this`isMoving, this`startTime
      ensures isMoving && startTime == now
    {
      isMoving := true;
      startTime := now;
    }

    method Disable()
      requires Valid()
      modifies this`isMoving, this`currentProgress
      ensures Valid()
      ensures !isMoving && currentProgress == 0.0
    {
      isMoving := false;
      currentProgress := 0.0;
    }

    /**
     * Update: while moving, the progress follows the clock, victims that are gone (destroyed or
     * dead, as observed by `gone`) are dropped, and every victim whose interval has passed is
     * burned and restamped.
     */
    method Update(now: real, gone: LifeId -> bool)
      requires Valid()
      modifies this`currentProgress, this`victims, this`burns
      ensures Valid()
      ensures !old(isMoving) ==>
        currentProgress == old(currentProgress) && victims == old(victims) && burns == old(burns)
      ensures old(isMoving) ==>
        && currentProgress == Progress(now, startTime, raiseTime)
        && victims == Kept(old(victims), gone, now, damageInterval)
        && burns == old(burns) + Burns(old(victims), gone, now, damageInterval, damage)
    {
      if !isMoving {
        return;
      }
      currentProgress := Clamp01((now - startTime) / raiseTime);
      TickVictims(now, gone);
    }

    /** The victim loop of Update. */
    method TickVictims(now: real, gone: LifeId -> bool)
      modifies this`victims, this`burns
      ensures victims == Kept(old(victims), gone, now, damageInterval)
      ensures burns == old(burns) + Burns(old(victims), gone, now, damageInterval, damage)
    {
      ghost var ov := victims;
      ghost var k := 0;
      var list := victims;
      var dealt: seq<Burn> := [];
      ghost var done: seq<LavaVictim> := [];
      var i := 0;
      while i < |list|
        invariant 0 <= k <= |ov|
        invariant done == Kept(ov[..k], gone, now, damageInterval)
        invariant list == done + ov[k..] && i == |done|
        invariant dealt == Burns(ov[..k], gone, now, damageInterval, damage)
        invariant burns == old(burns)
        decreases |ov| - k
      {
        var victim := list[i];
        assert victim == ov[k] by { Split(done, ov[k..]); }
        if gone(victim.life) {
          DropStep(ov, k, done, gone, now, damageInterval, damage);
          list := list[..i] + list[i + 1..];
          done := Kept(ov[..k + 1], gone, now, damageInterval);
          assert list == done + ov[k + 1..];
          k := k + 1;
          continue;
        }
        KeepStep(ov, k, done, gone, now, damageInterval, damage);
        if now - victim.timeStamp >= damageInterval {
          dealt := dealt + [Burn(victim.life, damage)];
          victim := victim.(timeStamp := now);
          list := list[i := victim];
        }
        done := Kept(ov[..k + 1], gone, now, damageInterval);
        assert list == done + ov[k + 1..];
        assert dealt == Burns(ov[..k + 1], gone, now, damageInterval, damage);
        i := i + 1;
        k := k + 1;
      }
      assert ov[..k] == ov;
      victims, burns := list, burns + dealt;
    }

    /** OnTriggerEnter: an actor with a Life joins the list, stamped now; anything else is ignored. */
    method OnTriggerEnter(other: Option<LifeId>, now: real)
      modifies this`victims
      ensures other.None? ==> victims == old(victims)
      ensures other.Some? ==> victims == old(victims) + [LavaVictim(other.value, now)]
    {
      if other.None? {
        return;
      }
      victims := victims + [LavaVictim(other.value, now)];
    }

    /** OnTriggerExit: the first entry with the actor's Life, if any, leaves the list. */
    method OnTriggerExit(other: Option<LifeId>)
      modifies this`victims
      ensures other.None? ==> victims == old(victims)
      ensures other.Some? ==> victims == RemoveFirst(old(victims), other.value)
    {
      if other.None? {
        return;
      }
      var index := FindIndex(victims, other.value);
      if index >= 0 {
        victims := victims[..index] + victims[index + 1..];
      }
    }
  }
}
