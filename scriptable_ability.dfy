/** Static ability definitions (ScriptableAbility) and the name-hash cache that resolves them. */
module ScriptableAbilities {
  import opened Outcomes

  /** The actor a definition's cast predicate is asked about. */
  type Caster = int

  /** Mirror's GetStableHashCode: a deterministic map from a resource name to a 32-bit code. */
  type StableHash = string -> int

  /** One ability asset: its name, timings in seconds, range and the predicate `CanCast(caster)`. */
  datatype Definition = Definition(
    name: string,
    cooldown: real,
    channelTime: real,
    range: real,
    canCast: Caster -> bool)

  /** The predicate every ability asset inherits: any caster may cast. */
  function DefaultCanCast(caster: Caster): (r: bool)
    ensures r
  {
    true
  }

  /** An asset as the editor creates it: one second of cooldown and channel time, range one. */
  function NewDefinition(name: string): Definition
  {
    Definition(name, 1.0, 1.0, 1.0, DefaultCanCast)
  }

  /** The keys ToDictionary computes for a sequence of loaded definitions. */
  ghost function NameHashes(defs: seq<Definition>, hash: StableHash): set<int>
  {
    set i | 0 <= i < |defs| :: hash(defs[i].name)
  }

  /** No two loaded definitions share a name hash. */
  ghost predicate DistinctHashes(defs: seq<Definition>, hash: StableHash)
  {
    forall i, j :: 0 <= i < j < |defs| ==> hash(defs[i].name) != hash(defs[j].name)
  }

  /**
   * The dictionary from name hash to definition: the definitions are added in order, and the
   * first key already present raises an exception instead of being overwritten.
   */
  function BuildCache(defs: seq<Definition>, hash: StableHash): (r: Result<map<int, Definition>>)
    ensures r.Ok? ==> r.value.Keys == NameHashes(defs, hash)
    ensures r.Err? ==> r.fault.DuplicateKey? && r.fault.key in NameHashes(defs, hash)
    decreases |defs|
  {
    if defs == [] then Ok(map[])
    else
      var prefix := defs[..|defs| - 1];
      var d := defs[|defs| - 1];
      var key := hash(d.name);
      assert NameHashes(defs, hash) == NameHashes(prefix, hash) + {key} by {
        assert forall i | 0 <= i < |prefix| :: prefix[i] == defs[i];
      }
      match BuildCache(prefix, hash)
      case Err(f) => Err(f)
      case Ok(m) => if key in m then Err(DuplicateKey(key)) else Ok(m[key := d])
  }

  /** Every loaded definition is found again under the hash of its own name. */
  lemma {:induction false} CacheResolves(defs: seq<Definition>, hash: StableHash, i: int)
    requires BuildCache(defs, hash).Ok?
    requires 0 <= i < |defs|
    ensures hash(defs[i].name) in BuildCache(defs, hash).value
    ensures BuildCache(defs, hash).value[hash(defs[i].name)] == defs[i]
  {
    var prefix := defs[..|defs| - 1];
    var m := BuildCache(prefix, hash).value;
    if i < |defs| - 1 {
      CacheResolves(prefix, hash, i);
      assert prefix[i] == defs[i];
      assert hash(defs[i].name) in m;
    }
  }

  /** Building the cache succeeds exactly when the loaded names have pairwise distinct hashes. */
  lemma {:induction false} CacheSucceedsIffDistinct(defs: seq<Definition>, hash: StableHash)
    ensures BuildCache(defs, hash).Ok? <==> DistinctHashes(defs, hash)
  {
    if defs != [] {
      var prefix := defs[..|defs| - 1];
      var n := |defs| - 1;
      CacheSucceedsIffDistinct(prefix, hash);
      assert forall i | 0 <= i < |prefix| :: prefix[i] == defs[i];
      if BuildCache(defs, hash).Ok? {
        var m := BuildCache(prefix, hash).value;
        forall i, j | 0 <= i < j < |defs| ensures hash(defs[i].name) != hash(defs[j].name) {
          if j == n {
            assert hash(defs[i].name) in NameHashes(prefix, hash) by { assert prefix[i] == defs[i]; }
          }
        }
      }
    }
  }

  /** Two names with the same hash make cache construction fail; neither is kept. */
  lemma CollisionFails(defs: seq<Definition>, hash: StableHash, i: int, j: int)
    requires 0 <= i < j < |defs| && hash(defs[i].name) == hash(defs[j].name)
    ensures BuildCache(defs, hash).Err?
    ensures BuildCache(defs, hash).fault.DuplicateKey?
  {
    CacheSucceedsIffDistinct(defs, hash);
  }

  /**
   * The static `ScriptableAbility.Cache` property: the dictionary is built from the loaded
   * resources on first access and kept from then on.
   */
  class AbilityRegistry {
    /** What `Resources.LoadAll<ScriptableAbility>("")` returns. */
    const resources: seq<Definition>
    const hash: StableHash
    /** The private static `cache` field; None stands for null. */
    var cache: Option<map<int, Definition>>

    ghost predicate Valid()
      reads this
    {
      cache.Some? ==> BuildCache(resources, hash) == Ok(cache.value)
    }

    constructor (resources: seq<Definition>, hash: StableHash)
      ensures Valid()
      ensures this.resources == resources && this.hash == hash && cache == None
    {
      this.resources := resources;
      this.hash := hash;
      cache := None;
    }

    /** The getter of `Cache`. */
    method Cache() returns (r: Result<map<int, Definition>>)
      requires Valid()
      modifies this
      ensures Valid()
      ensures r == BuildCache(resources, hash)
      ensures old(cache).Some? ==> r == Ok(old(cache).value) && cache == old(cache)
      ensures cache == if r.Ok? then Some(r.value) else None
    {
      if cache.None? {
        var built := BuildCache(resources, hash);
        if built.Err? {
          return built;
        }
        cache := Some(built.value);
      }
      r := Ok(cache.value);
    }
  }
}
