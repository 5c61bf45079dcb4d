/** The upstream sites the traffic-flow topology draws for every active key. */
module Topology {
  import opened Common
  import opened Sorting
  import opened StringSort
  import opened Access

  /** `resolveAllowedUpstreamIDs`: de-duplicate, then sort. */
  method ResolveAllowedUpstreamIDs(policy: Policy, allEnabled: seq<Id>, direct: seq<Id>, fromGroups: seq<Id>)
    returns (ids: seq<Id>)
    ensures policy == AllowAll ==> ids == allEnabled
    ensures policy == AllowList ==> StrictlyIncreasing(ids) && forall s :: s in ids <==> s in direct || s in fromGroups
  {
    if policy != AllowList { return allEnabled; }
    var both := direct + fromGroups;
    var seen: set<Id> := {};
    ids := [];
    for i := 0 to |both|
      invariant Distinct(ids)
      invariant forall s :: s in seen <==> s in ids
      invariant forall s :: s in ids <==> s in both[..i]
    {
      assert both[..i + 1] == both[..i] + [both[i]];
      if both[i] in seen { continue; }
      seen := seen + {both[i]};
      ids := ids + [both[i]];
    }
    assert both[..|both|] == both;
    SortedDistinct(ids);
    ids := StableSort(ids, Less);
  }

  /** Which sites the grouped tables hold for a key. */
  ghost predicate Holds(m: map<Id, seq<Id>>, key: Id, site: Id) {
    key in m && site in m[key]
  }

  method SitesByGroup(db: Database, enabled: set<Id>, enabledGroups: set<Id>) returns (m: map<Id, seq<Id>>)
    requires forall g :: g in enabledGroups <==> Group(g, true) in db.groups
    ensures forall g, s :: Holds(m, g, s) <==>
              Group(g, true) in db.groups && s in enabled && GroupSite(g, s) in db.groupSites
  {
    m := map[];
    for i := 0 to |db.groupSites|
      invariant forall g, s :: Holds(m, g, s) <==>
                  g in enabledGroups && s in enabled && GroupSite(g, s) in db.groupSites[..i]
    {
      var x := db.groupSites[i];
      assert db.groupSites[..i + 1] == db.groupSites[..i] + [x];
      if x.group !in enabledGroups { continue; }
      if x.site !in enabled { continue; }
      m := m[x.group := Bucket(m, x.group) + [x.site]];
    }
    assert db.groupSites[..|db.groupSites|] == db.groupSites;
  }

  method DirectByKey(db: Database, enabled: set<Id>) returns (m: map<Id, seq<Id>>)
    ensures forall k, s :: Holds(m, k, s) <==> s in enabled && Direct(db, k, s)
  {
    m := map[];
    for i := 0 to |db.sitePermissions|
      invariant forall k, s :: Holds(m, k, s) <==> s in enabled && SitePermission(k, s, true) in db.sitePermissions[..i]
    {
      var p := db.sitePermissions[i];
      assert db.sitePermissions[..i + 1] == db.sitePermissions[..i] + [p];
      if !p.enabled { continue; }
      if p.site !in enabled { continue; }
      m := m[p.key := Bucket(m, p.key) + [p.site]];
    }
    assert db.sitePermissions[..|db.sitePermissions|] == db.sitePermissions;
  }

  ghost predicate Fed(ps: seq<GroupPermission>, sitesByGroup: map<Id, seq<Id>>, key: Id, site: Id) {
    exists p :: p in ps && p.key == key && p.enabled && Holds(sitesByGroup, p.group, site)
  }

  method GroupByKeySites(db: Database, sitesByGroup: map<Id, seq<Id>>) returns (m: map<Id, seq<Id>>)
    ensures forall k, s :: Holds(m, k, s) <==> Fed(db.groupPermissions, sitesByGroup, k, s)
  {
    var ps := db.groupPermissions;
    m := map[];
    for i := 0 to |ps|
      invariant forall k, s :: Holds(m, k, s) <==> Fed(ps[..i], sitesByGroup, k, s)
    {
      var p := ps[i];
      assert ps[..i + 1] == ps[..i] + [p];
      forall k, s
        ensures Fed(ps[..i + 1], sitesByGroup, k, s) <==>
                Fed(ps[..i], sitesByGroup, k, s) || (p.enabled && p.key == k && Holds(sitesByGroup, p.group, s))
      {
        FedSnoc(ps[..i], p, sitesByGroup, k, s);
      }
      if !p.enabled { continue; }
      ghost var before := m;
      var added := Bucket(sitesByGroup, p.group);
      m := m[p.key := Bucket(m, p.key) + added];
      assert forall s :: s in added <==> Holds(sitesByGroup, p.group, s);
      assert forall k, s :: Holds(m, k, s) <==> Holds(before, k, s) || (k == p.key && s in added);
    }
    assert ps[..|ps|] == ps;
  }

  lemma FedSnoc(ps: seq<GroupPermission>, p: GroupPermission, sitesByGroup: map<Id, seq<Id>>, key: Id, site: Id)
    ensures Fed(ps + [p], sitesByGroup, key, site) <==>
            Fed(ps, sitesByGroup, key, site) || (p.enabled && p.key == key && Holds(sitesByGroup, p.group, site))
  {
    assert p in ps + [p];
    assert forall q :: q in ps ==> q in ps + [p];
  }

  lemma FedThroughGroup(db: Database, enabled: set<Id>, sitesByGroup: map<Id, seq<Id>>, key: Id, site: Id)
    requires forall g, s :: Holds(sitesByGroup, g, s) <==>
               Group(g, true) in db.groups && s in enabled && GroupSite(g, s) in db.groupSites
    ensures Fed(db.groupPermissions, sitesByGroup, key, site) <==> site in enabled && ThroughGroup(db, key, site)
  {
    if Fed(db.groupPermissions, sitesByGroup, key, site) {
      var p :| p in db.groupPermissions && p.key == key && p.enabled && Holds(sitesByGroup, p.group, site);
      assert p == GroupPermission(key, p.group, true);
      assert OpenGroup(db, key, p.group);
    }
    if site in enabled && ThroughGroup(db, key, site) {
      var p :| p in db.groupPermissions && p.key == key && OpenGroup(db, key, p.group)
            && GroupSite(p.group, site) in db.groupSites;
      var q := GroupPermission(key, p.group, true);
      assert q in db.groupPermissions && Holds(sitesByGroup, q.group, site);
    }
  }

  /** What the topology may draw for one key. */
  ghost predicate Drawn(db: Database, enabledSites: seq<Id>, key: ApiKey, ids: seq<Id>) {
    if key.sitePolicy == AllowAll then ids == enabledSites
    else StrictlyIncreasing(ids) && forall s :: s in ids <==> s in enabledSites && Reaches(db, key.id, s)
  }

  /** Exactly the active keys are drawn; an allow-list key gets precisely its granted sites
      among the enabled ones, sorted and without duplicates. Keys have distinct ids. */
  method TrafficFlowAllowedUpstreamIDs(db: Database, keys: seq<ApiKey>, enabledSites: seq<Id>)
    returns (result: map<Id, seq<Id>>)
    requires forall i, j :: 0 <= i < j < |keys| ==> keys[i].id != keys[j].id
    ensures forall k :: k in result <==> exists key :: key in keys && key.active && key.id == k
    ensures forall key :: key in keys && key.active ==> key.id in result && Drawn(db, enabledSites, key, result[key.id])
  {
    var enabled := set s | s in enabledSites;
    var enabledGroups := EnabledGroups(db.groups);
    var sitesByGroup := SitesByGroup(db, enabled, enabledGroups);
    var directByKey := DirectByKey(db, enabled);
    var groupByKey := GroupByKeySites(db, sitesByGroup);
    result := map[];
    for i := 0 to |keys|
      invariant forall k :: k in result <==> exists key :: key in keys[..i] && key.active && key.id == k
      invariant forall key :: key in keys[..i] && key.active ==>
                  key.id in result && Drawn(db, enabledSites, key, result[key.id])
    {
      var key := keys[i];
      assert keys[..i + 1] == keys[..i] + [key];
      if !key.active { continue; }
      var direct, fromGroups := Bucket(directByKey, key.id), Bucket(groupByKey, key.id);
      var ids := ResolveAllowedUpstreamIDs(key.sitePolicy, enabledSites, direct, fromGroups);
      forall s ensures s in direct || s in fromGroups <==> s in enabledSites && Reaches(db, key.id, s) {
        FedThroughGroup(db, enabled, sitesByGroup, key.id, s);
        assert s in Bucket(directByKey, key.id) <==> Holds(directByKey, key.id, s);
        assert s in Bucket(groupByKey, key.id) <==> Holds(groupByKey, key.id, s);
      }
      result := result[key.id := ids];
    }
    assert keys[..|keys|] == keys;
  }

  /** The drawn sites are the effective sites the gateway enforces, cut down to the enabled ones,
      if and only if the zero id is not both enabled and granted. */
  lemma DrawnSitesAreEffectiveIff(db: Database, enabledSites: seq<Id>, key: ApiKey, ids: seq<Id>)
    requires Drawn(db, enabledSites, key, ids) && key.sitePolicy == AllowList
    ensures (forall site :: site in ids <==> site in enabledSites && Effective(db, key.id, site)) <==>
            !(NIL in enabledSites && Reaches(db, key.id, NIL))
  {
    if NIL in enabledSites && Reaches(db, key.id, NIL) {
      assert NIL in ids && !Effective(db, key.id, NIL);
    }
  }

  /** As the database's foreign keys ensure. */
  lemma DrawnSitesAreEffective(db: Database, enabledSites: seq<Id>, key: ApiKey, ids: seq<Id>, site: Id)
    requires Drawn(db, enabledSites, key, ids) && key.sitePolicy == AllowList
    requires NIL !in enabledSites || NamesRealSites(db)
    ensures site in ids <==> site in enabledSites && Effective(db, key.id, site)
  {
  }

  /** A key without a list is drawn to every enabled site, in their order; a list is drawn sorted
      and without duplicates. */
  lemma DrawnIsSorted(db: Database, enabledSites: seq<Id>, key: ApiKey, ids: seq<Id>)
    requires Drawn(db, enabledSites, key, ids)
    ensures key.sitePolicy == AllowAll ==> ids == enabledSites
    ensures key.sitePolicy == AllowList ==>
              forall i, j :: 0 <= i < j < |ids| ==> Less(ids[i], ids[j]) && ids[i] != ids[j]
  {
    forall i, j | 0 <= i < j < |ids| && ids[i] == ids[j] ensures !Less(ids[i], ids[j]) { LessIrreflexive(ids[i]); }
  }
}
