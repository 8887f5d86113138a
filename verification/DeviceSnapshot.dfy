/**
 The versioned snapshot: what the server puts in it, the 200 or 304 answer, and the cache the Raspberry replaces in
 one transaction. Codes, keys and scopes are opaque numbers, instants are reals, and a revision is a function of the
 content.
 */
module DeviceSnapshot {
  import opened Common
  import opened LightIntervals

  datatype Grant = Grant(scope: nat, code: nat, origin: string, validFrom: real, validUntil: real)

  datatype Zone = Zone(key: nat, light: bool, court: Option<nat>, before: real, after: real)

  datatype ZoneRow = ZoneRow(key: nat, light: bool, court: Option<nat>)

  datatype LightRow = LightRow(zone: nat, interval: Interval)

  /** What the server's queries answer at one moment. */
  datatype Sources = Sources(zones: seq<Zone>, generated: seq<Grant>, staff: seq<Grant>, doinsport: seq<Grant>,
                             occupied: map<nat, seq<Interval>>, commands: seq<nat>)

  datatype Content = Content(zones: seq<ZoneRow>, grants: seq<Grant>, lights: seq<LightRow>, commands: seq<nat>)

  datatype GrantRow = GrantRow(origin: string, validFrom: real, validUntil: real)

  datatype Cache = Cache(revision: Option<int>, zones: seq<ZoneRow>, grants: map<(nat, nat), GrantRow>,
      lights: seq<LightRow>)

  const EMPTY := Cache(None, [], map[], [])

  // ---------------------------------------------------------------------
  // Server
  // ---------------------------------------------------------------------

  /**
   The three sources in order; without zones there is no scope to search. Shared by the snapshot and the admin's test.
   */
  function Grants(src: Sources): seq<Grant> {
    (if src.zones == [] then [] else src.generated) + src.staff + src.doinsport
  }

  function Occupied(src: Sources, court: nat): seq<Interval> {
    if court in src.occupied then src.occupied[court] else []
  }

  function Pad(w: Interval, z: Zone): Interval { Interval(w.start - z.before, w.end + z.after) }

  function Padded(windows: seq<Interval>, z: Zone): seq<Interval> {
    seq(|windows|, k requires 0 <= k < |windows| => Pad(windows[k], z))
  }

  function RowsFor(key: nat, merged: seq<Interval>): seq<LightRow> {
    seq(|merged|, k requires 0 <= k < |merged| => LightRow(key, merged[k]))
  }

  function ZoneLights(src: Sources, z: Zone): seq<LightRow> {
    if z.light && z.court.Some? then RowsFor(z.key, Merge(Padded(Occupied(src, z.court.value), z))) else []
  }

  /** The light rows of the first `n` zones. */
  function Lights(src: Sources, n: nat): seq<LightRow>
    requires n <= |src.zones|
  {
    if n == 0 then [] else Lights(src, n - 1) + ZoneLights(src, src.zones[n - 1])
  }

  function ZoneRows(zones: seq<Zone>): seq<ZoneRow> {
    seq(|zones|, k requires 0 <= k < |zones| => ZoneRow(zones[k].key, zones[k].light, zones[k].court))
  }

  function Build(src: Sources): Content {
    Content(ZoneRows(src.zones), Grants(src), Lights(src, |src.zones|), src.commands)
  }

  predicate ValidNow(g: Grant, code: nat, now: real) { g.code == code && g.validFrom <= now <= g.validUntil }

  /** A grant of any source; generated codes are only asked for when there is a zone. */
  predicate Offered(src: Sources, g: Grant) {
    (src.zones != [] && g in src.generated) || g in src.staff || g in src.doinsport
  }

  ghost predicate ServerAccepts(src: Sources, code: nat, now: real) {
    exists g :: Offered(src, g) && ValidNow(g, code, now)
  }

  /** No source is left out, and nothing else is in. */
  lemma {:induction false} GrantsAreOffered(src: Sources, g: Grant)
    ensures g in Grants(src) <==> Offered(src, g)
  {
    var a, b, c := if src.zones == [] then [] else src.generated, src.staff, src.doinsport;
    assert g in a + b + c <==> g in a || g in b || g in c;
  }

  /** The loop over the zones. */
  method BuildSnapshot(src: Sources) returns (content: Content)
    ensures content == Build(src)
    ensures |content.zones| == |src.zones| && content.commands == src.commands
    ensures forall k :: 0 <= k < |src.zones| ==>
              content.zones[k] == ZoneRow(src.zones[k].key, src.zones[k].light, src.zones[k].court)
    ensures forall g :: g in content.grants <==> Offered(src, g)
  {
    var lights := [];
    for k := 0 to |src.zones|
      invariant lights == Lights(src, k)
    {
      var z := src.zones[k];
      if z.light && z.court.Some? {
        var merged := MergeLightIntervals(Padded(Occupied(src, z.court.value), z));
        lights := lights + RowsFor(z.key, merged);
      }
    }
    content := Content(ZoneRows(src.zones), Grants(src), lights, src.commands);
    forall g ensures g in content.grants <==> Offered(src, g) { GrantsAreOffered(src, g); }
  }

  /** `candidates.find`. */
  method TestAccessCode(src: Sources, code: nat, now: real) returns (match_: Option<Grant>)
    ensures match_.Some? <==> ServerAccepts(src, code, now)
    ensures match_.Some? ==> Offered(src, match_.value) && ValidNow(match_.value, code, now)
  {
    var candidates := Grants(src);
    forall g ensures g in candidates <==> Offered(src, g) { GrantsAreOffered(src, g); }
    for k := 0 to |candidates|
      invariant forall j :: 0 <= j < k ==> !ValidNow(candidates[j], code, now)
    {
      if ValidNow(candidates[k], code, now) { return Some(candidates[k]); }
    }
    match_ := None;
  }

  // ---------------------------------------------------------------------
  // Device
  // ---------------------------------------------------------------------

  predicate DistinctKeys(zones: seq<ZoneRow>) { forall i, j :: 0 <= i < j < |zones| ==> zones[i].key != zones[j].key }

  /** `INSERT OR REPLACE` in order: the last row of a (scope, code) pair stays. */
  function GrantTable(grants: seq<Grant>): map<(nat, nat), GrantRow> {
    if grants == [] then map[]
    else
      var g := grants[|grants| - 1];
      GrantTable(grants[..|grants| - 1])[(g.scope, g.code) := GrantRow(g.origin, g.validFrom, g.validUntil)]
  }

  /** The transaction: a repeated zone key breaks the primary key and rolls everything back. */
  function Applied(revision: int, c: Content): Option<Cache> {
    if DistinctKeys(c.zones) then Some(Cache(Some(revision), c.zones, GrantTable(c.grants), c.lights)) else None
  }

  /** One poll: lost on the way, 304, or 200 with the content. */
  function Sync(cache: Cache, revision: Content -> int, c: Content, lost: bool): (Cache, bool) {
    if lost then (cache, false)
    else if cache.revision == Some(revision(c)) then (cache, true)
    else
      var next := Applied(revision(c), c);
      if next.Some? then (next.value, true) else (cache, false)
  }

  predicate DeviceAccepts(cache: Cache, code: nat, now: real) {
    exists pair :: pair in cache.grants && pair.1 == code
      && cache.grants[pair].validFrom <= now <= cache.grants[pair].validUntil
  }

  predicate LightOn(cache: Cache, zone: nat, now: real) {
    exists k :: 0 <= k < |cache.lights| && cache.lights[k].zone == zone && Contains(cache.lights[k].interval, now)
  }

  // ---------------------------------------------------------------------
  // Runs of polls
  // ---------------------------------------------------------------------

  /** The cache of the device before and after each poll; the server's content changes freely in between. */
  ghost predicate IsRun(revision: Content -> int, caches: seq<Cache>, contents: seq<Content>, lost: seq<bool>) {
    && |caches| == |contents| + 1 && |lost| == |contents| && caches[0] == EMPTY
    && forall k :: 0 <= k < |contents| ==> caches[k + 1] == Sync(caches[k], revision, contents[k], lost[k]).0
  }

  /** Two contents of this run with the same revision are the same: no hash collision happens in it. */
  ghost predicate NoCollision(revision: Content -> int, contents: seq<Content>) {
    forall i, j :: 0 <= i < |contents| && 0 <= j < |contents| && revision(contents[i]) == revision(contents[j]) ==>
      contents[i] == contents[j]
  }

  /** The cache is empty or one whole snapshot the server had earlier in the run. */
  lemma {:induction false} CacheIsWhole(revision: Content -> int, caches: seq<Cache>, contents: seq<Content>,
                                        lost: seq<bool>, k: nat)
    requires IsRun(revision, caches, contents, lost) && k < |caches|
    ensures caches[k] == EMPTY
            || exists j :: 0 <= j < k && Applied(revision(contents[j]), contents[j]) == Some(caches[k])
  {
    if k > 0 {
      CacheIsWhole(revision, caches, contents, lost, k - 1);
      assert caches[k] == Sync(caches[k - 1], revision, contents[k - 1], lost[k - 1]).0;
    }
  }

  /**
   After any poll that ended in 200 or 304 the cache is what the server's snapshot of that moment makes of an empty
   cache, whatever happened before; a poll that reached the server ends so exactly when the zone keys are distinct;
   and every other poll leaves the cache alone.
   */
  lemma {:induction false} SyncedIsExact(revision: Content -> int, caches: seq<Cache>, contents: seq<Content>,
                                         lost: seq<bool>, k: nat)
    requires IsRun(revision, caches, contents, lost) && NoCollision(revision, contents) && k < |contents|
    ensures var ok := Sync(caches[k], revision, contents[k], lost[k]).1;
            && (ok ==> Applied(revision(contents[k]), contents[k]) == Some(caches[k + 1]))
            && (!ok ==> caches[k + 1] == caches[k])
            && (ok <==> !lost[k] && DistinctKeys(contents[k].zones))
  {
    CacheIsWhole(revision, caches, contents, lost, k);
    if caches[k].revision == Some(revision(contents[k])) {
      var j :| 0 <= j < k && Applied(revision(contents[j]), contents[j]) == Some(caches[k]);
      assert contents[j] == contents[k];
    }
  }

  // ---------------------------------------------------------------------
  // Codes
  // ---------------------------------------------------------------------

  /** No later grant has the same scope and code. */
  predicate LastOfItsPair(grants: seq<Grant>, k: nat)
    requires k < |grants|
  {
    forall j :: k < j < |grants| ==> !(grants[j].scope == grants[k].scope && grants[j].code == grants[k].code)
  }

  lemma {:induction false} TableHoldsLast(grants: seq<Grant>, pair: (nat, nat)) returns (k: nat)
    requires pair in GrantTable(grants)
    ensures k < |grants| && (grants[k].scope, grants[k].code) == pair && LastOfItsPair(grants, k)
    ensures GrantTable(grants)[pair] == GrantRow(grants[k].origin, grants[k].validFrom, grants[k].validUntil)
  {
    var n := |grants| - 1;
    k := n;
    if (grants[n].scope, grants[n].code) != pair {
      k := TableHoldsLast(grants[..n], pair);
      forall j | k < j < |grants| ensures !(grants[j].scope == grants[k].scope && grants[j].code == grants[k].code) {
        if j < n { assert grants[..n][j] == grants[j]; }
      }
    }
  }

  lemma {:induction false} LastIsInTable(grants: seq<Grant>, k: nat)
    requires k < |grants| && LastOfItsPair(grants, k)
    ensures var pair := (grants[k].scope, grants[k].code);
            pair in GrantTable(grants)
              && GrantTable(grants)[pair] == GrantRow(grants[k].origin, grants[k].validFrom, grants[k].validUntil)
  {
    var n := |grants| - 1;
    if k < n {
      forall j | k < j < n
        ensures !(grants[..n][j].scope == grants[..n][k].scope && grants[..n][j].code == grants[..n][k].code) {
        assert grants[..n][j] == grants[j];
      }
      LastIsInTable(grants[..n], k);
      assert !(grants[n].scope == grants[k].scope && grants[n].code == grants[k].code);
    }
  }

  predicate VisibleGrant(grants: seq<Grant>, code: nat, now: real) {
    exists k :: 0 <= k < |grants| && ValidNow(grants[k], code, now) && LastOfItsPair(grants, k)
  }

  /** The device accepts a code exactly when some grant valid now has no later grant of the same scope and code. */
  lemma {:induction false} DeviceAcceptsExactly(revision: int, c: Content, cache: Cache, code: nat, now: real)
    requires Applied(revision, c) == Some(cache)
    ensures DeviceAccepts(cache, code, now) <==> VisibleGrant(c.grants, code, now)
  {
    hide LastOfItsPair, GrantTable;
    if DeviceAccepts(cache, code, now) {
      var pair :| pair in cache.grants && pair.1 == code
        && cache.grants[pair].validFrom <= now <= cache.grants[pair].validUntil;
      var k := TableHoldsLast(c.grants, pair);
      assert ValidNow(c.grants[k], code, now);
    }
    if VisibleGrant(c.grants, code, now) {
      var k :| 0 <= k < |c.grants| && ValidNow(c.grants[k], code, now) && LastOfItsPair(c.grants, k);
      LastIsInTable(c.grants, k);
      assert (c.grants[k].scope, c.grants[k].code) in cache.grants;
    }
  }

  /** Right after a sync every code the device accepts is one the server's own check accepts. */
  lemma {:induction false} DeviceNeverExceedsServer(revision: int, src: Sources, cache: Cache, code: nat, now: real)
    requires Applied(revision, Build(src)) == Some(cache) && DeviceAccepts(cache, code, now)
    ensures ServerAccepts(src, code, now)
  {
    hide Applied, DeviceAccepts, Lights, Grants;
    DeviceAcceptsExactly(revision, Build(src), cache, code, now);
    var k :| 0 <= k < |Grants(src)| && ValidNow(Grants(src)[k], code, now) && LastOfItsPair(Grants(src), k);
    GrantsAreOffered(src, Grants(src)[k]);
  }

  /** A valid grant that is the last of its scope and code in its list, and that no list behind it repeats. */
  predicate Shown(list: seq<Grant>, behind: seq<Grant>, code: nat, now: real) {
    exists k :: 0 <= k < |list| && ValidNow(list[k], code, now) && LastOfItsPair(list, k) && Unrepeated(list[k], behind)
  }

  predicate Unrepeated(g: Grant, behind: seq<Grant>) {
    forall j :: 0 <= j < |behind| ==> !(behind[j].scope == g.scope && behind[j].code == g.code)
  }

  lemma {:induction false} LastInConcat(a: seq<Grant>, b: seq<Grant>, k: nat)
    requires k < |a| + |b|
    ensures LastOfItsPair(a + b, k) <==>
            if k < |a| then LastOfItsPair(a, k) && Unrepeated(a[k], b) else LastOfItsPair(b, k - |a|)
  {
    var ab := a + b;
    if LastOfItsPair(ab, k) {
      forall j | 0 <= j < |a| && k < j ensures !(a[j].scope == ab[k].scope && a[j].code == ab[k].code) {
        assert ab[j] == a[j];
      }
      forall j | 0 <= j < |b| && k - |a| < j ensures !(b[j].scope == ab[k].scope && b[j].code == ab[k].code) {
        assert ab[|a| + j] == b[j];
      }
    }
  }

  lemma {:induction false} UnrepeatedInConcat(g: Grant, b: seq<Grant>, c: seq<Grant>)
    ensures Unrepeated(g, b + c) <==> Unrepeated(g, b) && Unrepeated(g, c)
  {
    if Unrepeated(g, b + c) {
      forall j | 0 <= j < |b| ensures !(b[j].scope == g.scope && b[j].code == g.code) { assert (b + c)[j] == b[j]; }
      forall j | 0 <= j < |c| ensures !(c[j].scope == g.scope && c[j].code == g.code) {
        assert (b + c)[|b| + j] == c[j];
      }
    }
  }

  lemma {:induction false} ShownInConcat(a: seq<Grant>, b: seq<Grant>, behind: seq<Grant>, code: nat, now: real)
    ensures Shown(a + b, behind, code, now) <==> Shown(a, b + behind, code, now) || Shown(b, behind, code, now)
  {
    hide LastOfItsPair, Unrepeated;
    forall k: nat | k < |a| + |b|
      ensures LastOfItsPair(a + b, k) <==>
              if k < |a| then LastOfItsPair(a, k) && Unrepeated(a[k], b) else LastOfItsPair(b, k - |a|) {
      LastInConcat(a, b, k);
    }
    forall k: nat | k < |a| ensures Unrepeated(a[k], b + behind) <==> Unrepeated(a[k], b) && Unrepeated(a[k], behind) {
      UnrepeatedInConcat(a[k], b, behind);
    }
    if k :| 0 <= k < |a| && ValidNow(a[k], code, now) && LastOfItsPair(a, k) && Unrepeated(a[k], b + behind) {
      assert (a + b)[k] == a[k];
    }
    if k :| 0 <= k < |b| && ValidNow(b[k], code, now) && LastOfItsPair(b, k) && Unrepeated(b[k], behind) {
      assert (a + b)[|a| + k] == b[k] && LastOfItsPair(b, |a| + k - |a|);
    }
  }

  lemma {:induction false} VisibleIsShown(list: seq<Grant>, code: nat, now: real)
    ensures VisibleGrant(list, code, now) <==> Shown(list, [], code, now)
  {
    hide LastOfItsPair;
    if VisibleGrant(list, code, now) {
      var k :| 0 <= k < |list| && ValidNow(list[k], code, now) && LastOfItsPair(list, k);
      assert Unrepeated(list[k], []);
    }
  }

  /**
   Which source decides: a Doinsport grant always counts, a staff grant unless Doinsport has the same scope and code,
   a generated one unless one of them has; within a source the later grant counts.
   */
  lemma {:induction false} LaterSourceDecides(revision: int, src: Sources, cache: Cache, code: nat, now: real)
    requires Applied(revision, Build(src)) == Some(cache)
    ensures DeviceAccepts(cache, code, now) <==>
            || Shown(src.doinsport, [], code, now)
            || Shown(src.staff, src.doinsport, code, now)
            || (src.zones != [] && Shown(src.generated, src.staff + src.doinsport, code, now))
  {
    hide Applied, DeviceAccepts, Lights, Shown, VisibleGrant;
    var g, s, d := if src.zones == [] then [] else src.generated, src.staff, src.doinsport;
    DeviceAcceptsExactly(revision, Build(src), cache, code, now);
    VisibleIsShown(g + s + d, code, now);
    ShownInConcat(g + s, d, [], code, now);
    ShownInConcat(g, s, d, code, now);
    assert d + [] == d;
    NothingShown(s + d, code, now);
  }

  lemma {:induction false} NothingShown(behind: seq<Grant>, code: nat, now: real)
    ensures !Shown([], behind, code, now)
  {
  }

  /**
   In a run of polls with any losses and any changes in between: right after a poll that ended in 200 or 304, every
   code the door accepts at that instant is one the server's own check accepts.
   */
  lemma {:induction false} DoorFollowsServer(revision: Content -> int, caches: seq<Cache>, contents: seq<Content>,
                                             lost: seq<bool>, k: nat, src: Sources, code: nat, now: real)
    requires IsRun(revision, caches, contents, lost) && NoCollision(revision, contents)
    requires k < |contents| && contents[k] == Build(src) && Sync(caches[k], revision, contents[k], lost[k]).1
    requires DeviceAccepts(caches[k + 1], code, now)
    ensures ServerAccepts(src, code, now)
  {
    hide NoCollision, Sync, Build, DeviceAccepts;
    SyncedIsExact(revision, caches, contents, lost, k);
    DeviceNeverExceedsServer(revision(contents[k]), src, caches[k + 1], code, now);
  }

  predicate DistinctPairs(grants: seq<Grant>) {
    forall i, j :: 0 <= i < j < |grants| ==> !(grants[i].scope == grants[j].scope && grants[i].code == grants[j].code)
  }

  /** With distinct (scope, code) pairs the two checks agree. */
  lemma {:induction false} ChecksAgree(revision: int, src: Sources, cache: Cache, code: nat, now: real)
    requires Applied(revision, Build(src)) == Some(cache) && DistinctPairs(Grants(src))
    ensures DeviceAccepts(cache, code, now) <==> ServerAccepts(src, code, now)
  {
    hide Applied, DeviceAccepts, Lights, Grants;
    DeviceAcceptsExactly(revision, Build(src), cache, code, now);
    forall g ensures g in Grants(src) <==> Offered(src, g) { GrantsAreOffered(src, g); }
    if ServerAccepts(src, code, now) {
      var g :| Offered(src, g) && ValidNow(g, code, now);
      var k :| 0 <= k < |Grants(src)| && Grants(src)[k] == g;
      assert LastOfItsPair(Grants(src), k);
    }
  }

  /** Otherwise a later grant of the pair hides a valid one: accepted by the server's check, refused at the door. */
  lemma {:induction false} LaterGrantHidesValidOne(revision: int, src: Sources, cache: Cache, g: Grant, h: Grant,
      now: real)
    requires Applied(revision, Build(src)) == Some(cache) && Grants(src) == [g, h]
    requires g.scope == h.scope && g.code == h.code && ValidNow(g, g.code, now) && !ValidNow(h, g.code, now)
    ensures ServerAccepts(src, g.code, now) && !DeviceAccepts(cache, g.code, now)
  {
    hide Applied, DeviceAccepts, Lights;
    DeviceAcceptsExactly(revision, Build(src), cache, g.code, now);
    GrantsAreOffered(src, g);
    assert ValidNow(Grants(src)[0], g.code, now);
    assert Grants(src)[1] == h && !LastOfItsPair(Grants(src), 0);
  }

  // ---------------------------------------------------------------------
  // Lights
  // ---------------------------------------------------------------------

  /** Some occupied window of the zone's court, widened by the zone's margins, contains the instant. */
  predicate ShouldShine(src: Sources, z: Zone, now: real) {
    && z.light && z.court.Some? && z.court.value in src.occupied
    && var windows := src.occupied[z.court.value];
       exists k :: 0 <= k < |windows| && windows[k].start - z.before <= now <= windows[k].end + z.after
  }

  predicate RowsShine(rows: seq<LightRow>, zone: nat, now: real) {
    exists k :: 0 <= k < |rows| && rows[k].zone == zone && Contains(rows[k].interval, now)
  }

  lemma {:induction false} RowsShineConcat(a: seq<LightRow>, b: seq<LightRow>, zone: nat, now: real)
    ensures RowsShine(a + b, zone, now) <==> RowsShine(a, zone, now) || RowsShine(b, zone, now)
  {
    if RowsShine(a, zone, now) {
      var k :| 0 <= k < |a| && a[k].zone == zone && Contains(a[k].interval, now);
      assert (a + b)[k] == a[k];
    }
    if RowsShine(b, zone, now) {
      var k :| 0 <= k < |b| && b[k].zone == zone && Contains(b[k].interval, now);
      assert (a + b)[|a| + k] == b[k];
    }
  }

  lemma {:induction false} PaddedCovers(windows: seq<Interval>, z: Zone, now: real)
    ensures Covers(Padded(windows, z), now) <==>
            exists k :: 0 <= k < |windows| && windows[k].start - z.before <= now <= windows[k].end + z.after
  {
    if k :| 0 <= k < |windows| && windows[k].start - z.before <= now <= windows[k].end + z.after {
      assert Contains(Padded(windows, z)[k], now);
    }
  }

  lemma {:induction false} RowsForShine(key: nat, merged: seq<Interval>, zone: nat, now: real)
    ensures RowsShine(RowsFor(key, merged), zone, now) <==> key == zone && Covers(merged, now)
  {
    if Covers(merged, now) {
      var k :| 0 <= k < |merged| && Contains(merged[k], now);
      assert RowsFor(key, merged)[k].interval == merged[k];
    }
  }

  lemma {:induction false} ZoneShines(src: Sources, z: Zone, zone: nat, now: real)
    ensures RowsShine(ZoneLights(src, z), zone, now) <==> z.key == zone && ShouldShine(src, z, now)
  {
    hide RowsShine, Merge, Covers;
    if z.light && z.court.Some? {
      var windows := Occupied(src, z.court.value);
      RowsForShine(z.key, Merge(Padded(windows, z)), zone, now);
      MergeKeepsCover(Padded(windows, z));
      assert Covers(Merge(Padded(windows, z)), now) <==> Covers(Padded(windows, z), now);
      PaddedCovers(windows, z, now);
    } else {
      NoRowsDark(zone, now);
    }
  }

  lemma {:induction false} NoRowsDark(zone: nat, now: real)
    ensures !RowsShine([], zone, now)
  {
  }

  lemma {:induction false} LightsShine(src: Sources, n: nat, zone: nat, now: real)
    requires n <= |src.zones|
    ensures RowsShine(Lights(src, n), zone, now) <==>
            exists i :: 0 <= i < n && src.zones[i].key == zone && ShouldShine(src, src.zones[i], now)
  {
    hide RowsShine, ShouldShine, ZoneLights;
    if n > 0 {
      LightsShine(src, n - 1, zone, now);
      RowsShineConcat(Lights(src, n - 1), ZoneLights(src, src.zones[n - 1]), zone, now);
      ZoneShines(src, src.zones[n - 1], zone, now);
    } else {
      NoRowsDark(zone, now);
    }
  }

  /**
   From the occupied windows to the relay: after a sync a zone's light is due on exactly when its court's padded
   windows say so.
   */
  lemma {:induction false} LightFollowsOccupation(revision: int, src: Sources, cache: Cache, i: nat, now: real)
    requires Applied(revision, Build(src)) == Some(cache) && i < |src.zones|
    ensures LightOn(cache, src.zones[i].key, now) <==> ShouldShine(src, src.zones[i], now)
  {
    hide ShouldShine, Lights, GrantTable;
    LightsShine(src, |src.zones|, src.zones[i].key, now);
    assert LightOn(cache, src.zones[i].key, now) <==> RowsShine(Lights(src, |src.zones|), src.zones[i].key, now);
    forall j | 0 <= j < |src.zones| && j != i ensures src.zones[j].key != src.zones[i].key {
      assert ZoneRows(src.zones)[j].key == src.zones[j].key && ZoneRows(src.zones)[i].key == src.zones[i].key;
    }
  }
}
