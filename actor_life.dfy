/** Actor health (ActorLife): clamped damage and heal, the last-instigator tag, and kill. */
module ActorLives {
  import opened Outcomes
  import opened PlayerManagement

  /** Health after a hit of `value`: lowered by the value but never below zero. */
  function DamagedHealth(health: real, value: real): (r: real)
    ensures r >= 0.0 && r >= health - value
    ensures r == 0.0 || r == health - value
    ensures value >= 0.0 && health >= 0.0 ==> r <= health
  {
    if health - value > 0.0 then health - value else 0.0
  }

  /** Health after a heal of `value`: raised by the value but never above the maximum. */
  function HealedHealth(health: real, value: real, maxHealth: real): (r: real)
    ensures r <= maxHealth && r <= health + value
    ensures r == maxHealth || r == health + value
    ensures value >= 0.0 && health <= maxHealth ==> r >= health
  {
    if health + value < maxHealth then health + value else maxHealth
  }

  /** A heal of the amount a hit took away restores what the hit removed, up to the maximum. */
  lemma HealUndoesUnclampedDamage(health: real, value: real, maxHealth: real)
    requires value >= 0.0 && health - value >= 0.0 && health <= maxHealth
    ensures HealedHealth(DamagedHealth(health, value), value, maxHealth) == health
  {
  }

  class ActorLife {
    /** The lobby index of the owning player (`actor.OwnerId`). */
    const ownerId: int
    const maxHealth: real
    var health: real
    /** The tag of the last player that hurt this actor; -1 for none. */
    var lastInstigatorId: int
    /** Set when the server destroys the actor's game object. */
    var destroyed: bool

    ghost predicate Valid()
      reads this`health
    {
      0.0 <= maxHealth && 0.0 <= health
    }

    /** The serialized initial values: health 1, no instigator. */
    constructor (ownerId: int, maxHealth: real)
      requires 0.0 <= maxHealth
      ensures Valid()
      ensures this.ownerId == ownerId && this.maxHealth == maxHealth
      ensures health == 1.0 && lastInstigatorId == -1 && !destroyed
    {
      this.ownerId := ownerId;
      this.maxHealth := maxHealth;
      health := 1.0;
      lastInstigatorId := -1;
      destroyed := false;
    }

    /** Dead once health has run out; in a valid state that means health is exactly zero. */
    function IsDead(): (r: bool)
      reads this`health
      ensures Valid() ==> (r <==> health == 0.0)
    {
      health <= 0.0
    }

    method OnStartServer()
      modifies this`health
      ensures old(Valid()) ==> Valid()
      ensures health == maxHealth
    {
      health := maxHealth;
    }

    /**
     * Kill(): health is set to zero; the player manager, when there is one, credits the last
     * instigator; then the tag is reset and the actor destroyed. A fault in the player manager
     * stops the rest.
     */
    method Kill(pm: PlayerManager?) returns (status: Status)
      modifies this`health, this`lastInstigatorId, this`destroyed
      modifies if pm == null then {} else {pm.players}
      ensures health == 0.0
      ensures pm == null ==> status == Completed && lastInstigatorId == -1 && destroyed
      ensures pm != null ==>
        var r := Credit(old(pm.players[..]), ownerId, old(lastInstigatorId));
        && (r.Ok? ==> status == Completed && pm.players[..] == r.value && lastInstigatorId == -1 && destroyed)
        && (r.Err? ==> status == Failed(r.fault) && pm.players[..] == old(pm.players[..])
                       && lastInstigatorId == old(lastInstigatorId) && destroyed == old(destroyed))
    {
      if health != 0.0 {
        health := 0.0;
      }
      if pm != null {
        status := pm.PlayerKilled(ownerId, lastInstigatorId);
        if status.Failed? {
          return;
        }
      }
      lastInstigatorId := -1;
      destroyed := true;
      status := Completed;
    }

    /**
     * Damage(value, instigatorId): a negative value is ignored; otherwise health drops (clamped at
     * zero), a non-negative instigator replaces the tag, and an actor left without health is
     * killed.
     */
    method Damage(value: real, instigatorId: int, pm: PlayerManager?) returns (status: Status)
      modifies this`health, this`lastInstigatorId, this`destroyed
      modifies if pm == null then {} else {pm.players}
      ensures old(Valid()) ==> Valid()
      ensures value < 0.0 ==>
        status == Completed && health == old(health) && lastInstigatorId == old(lastInstigatorId)
        && destroyed == old(destroyed) && (pm != null ==> pm.players[..] == old(pm.players[..]))
      ensures value >= 0.0 ==> health == DamagedHealth(old(health), value)
      ensures var tag := if instigatorId >= 0 then instigatorId else old(lastInstigatorId);
        && (value >= 0.0 && health > 0.0 ==>
              status == Completed && lastInstigatorId == tag && destroyed == old(destroyed)
              && (pm != null ==> pm.players[..] == old(pm.players[..])))
        && (value >= 0.0 && health == 0.0 && pm == null ==>
              status == Completed && lastInstigatorId == -1 && destroyed)
        && (value >= 0.0 && health == 0.0 && pm != null ==>
              var r := Credit(old(pm.players[..]), ownerId, tag);
              && (r.Ok? ==> status == Completed && pm.players[..] == r.value && lastInstigatorId == -1 && destroyed)
              && (r.Err? ==> status == Failed(r.fault) && pm.players[..] == old(pm.players[..])
                             && lastInstigatorId == tag && destroyed == old(destroyed)))
    {
      if value < 0.0 {
        return Completed;
      }
      health := DamagedHealth(health, value);
      if instigatorId >= 0 {
        lastInstigatorId := instigatorId;
      }
      status := Completed;
      if health <= 0.0 {
        status := Kill(pm);
      }
    }

    /**
     * Heal(value, resurrect): a negative value is ignored, and so is any heal of a dead actor
     * unless `resurrect` is set; otherwise health rises, capped at the maximum.
     */
    method Heal(value: real, resurrect: bool)
      requires Valid()
      modifies this`health
      ensures Valid()
      ensures value < 0.0 || (old(IsDead()) && !resurrect) ==> health == old(health)
      ensures value >= 0.0 && (!old(IsDead()) || resurrect) ==>
        health == HealedHealth(old(health), value, maxHealth)
      ensures value >= 0.0 && (!old(IsDead()) || resurrect) ==> health <= maxHealth
    {
      if value < 0.0 {
        return;
      }
      if IsDead() && !resurrect {
        return;
      }
      health := HealedHealth(health, value, maxHealth);
    }
  }
}
