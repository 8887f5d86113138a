/** The Raspberry's SQLite cache and the service around it, tied to the values of DeviceSnapshot. */
module SnapshotServices {
  import opened Common
  import opened LightIntervals
  import opened DeviceSnapshot

  class LocalCache {
    var revision: Option<int>
    var zones: seq<ZoneRow>
    var grants: map<(nat, nat), GrantRow>
    var lights: seq<LightRow>
    var lightState: map<nat, bool>

    function Value(): Cache
      reads this
    {
      Cache(revision, zones, grants, lights)
    }

    constructor ()
      ensures Value() == EMPTY && lightState == map[]
    {
      revision, zones, grants, lights, lightState := None, [], map[], [], map[];
    }

    /** Delete everything, insert row by row, all in one transaction: a repeated zone key restores the old rows. */
    method ApplySnapshot(newRevision: int, c: Content) returns (ok: bool)
      modifies this`revision, this`zones, this`grants, this`lights
      ensures ok <==> DistinctKeys(c.zones)
      ensures ok ==> Applied(newRevision, c) == Some(Value())
      ensures !ok ==> Value() == old(Value())
    {
      var savedZones, savedGrants, savedLights := zones, grants, lights;
      zones, grants, lights := [], map[], [];
      for k := 0 to |c.zones|
        invariant zones == c.zones[..k] && DistinctKeys(zones)
        invariant revision == old(revision) && grants == map[]
      {
        if exists j :: 0 <= j < |zones| && zones[j].key == c.zones[k].key {
          zones, grants, lights := savedZones, savedGrants, savedLights;
          return false;
        }
        zones := zones + [c.zones[k]];
      }
      assert c.zones[..|c.zones|] == c.zones;
      assert c.grants[..0] == [];
      for k := 0 to |c.grants|
        invariant zones == c.zones && grants == GrantTable(c.grants[..k])
      {
        var g := c.grants[k];
        assert c.grants[..k + 1][..k] == c.grants[..k];
        grants := grants[(g.scope, g.code) := GrantRow(g.origin, g.validFrom, g.validUntil)];
      }
      assert c.grants[..|c.grants|] == c.grants;
      lights := c.lights;
      revision := Some(newRevision);
      ok := true;
    }

    /** Any matching row will do; none is returned only when none matches. */
    method ValidateCode(code: nat, now: real) returns (scope: Option<nat>)
      ensures scope.Some? <==> DeviceAccepts(Value(), code, now)
      ensures scope.Some? ==>
              (scope.value, code) in grants
              && grants[(scope.value, code)].validFrom <= now <= grants[(scope.value, code)].validUntil
    {
      var left := grants.Keys;
      while left != {}
        invariant left <= grants.Keys
        invariant forall pair :: pair in grants.Keys - left ==>
                    !(pair.1 == code && grants[pair].validFrom <= now <= grants[pair].validUntil)
        decreases |left|
      {
        var pair :| pair in left;
        if pair.1 == code && grants[pair].validFrom <= now <= grants[pair].validUntil { return Some(pair.0); }
        left := left - {pair};
      }
      scope := None;
    }

    function LightState(key: nat): bool
      reads this`lightState
    {
      key in lightState && lightState[key]
    }

    /** One pass of `evaluate_lighting`; `works` says whether the controller obeys for a zone. */
    method EvaluateLighting(now: real, works: nat -> bool)
      requires DistinctKeys(zones)
      modifies this`lightState
      ensures forall k :: 0 <= k < |zones| && zones[k].light ==>
                LightState(zones[k].key) == if works(zones[k].key) then LightOn(Value(), zones[k].key, now)
                  else old(LightState(zones[k].key))
      ensures forall key :: (forall k :: 0 <= k < |zones| && zones[k].light ==> zones[k].key != key) ==>
              LightState(key) == old(LightState(key))
    {
      for k := 0 to |zones|
        invariant forall i :: 0 <= i < k && zones[i].light ==>
                    LightState(zones[i].key) == if works(zones[i].key) then LightOn(Value(), zones[i].key, now)
                      else old(LightState(zones[i].key))
        invariant forall key :: (forall i :: 0 <= i < k && zones[i].light ==> zones[i].key != key) ==>
                  LightState(key) == old(LightState(key))
      {
        if zones[k].light {
          var key := zones[k].key;
          var shouldBeOn := LightOn(Value(), key, now);
          assert LightState(key) == old(LightState(key));
          if shouldBeOn != LightState(key) && works(key) { lightState := lightState[key := shouldBeOn]; }
        }
      }
    }

    /** `sync_snapshot` up to the commands: the conditional request, the 304, or the new content. */
    method SyncSnapshot(revisionOf: Content -> int, c: Content, lost: bool) returns (ok: bool)
      modifies this`revision, this`zones, this`grants, this`lights
      ensures (Value(), ok) == Sync(old(Value()), revisionOf, c, lost)
    {
      if lost { return false; }
      if revision == Some(revisionOf(c)) { return true; }
      ok := ApplySnapshot(revisionOf(c), c);
    }
  }
}
