/** Which sites and site models an API key may use. Three pieces of code compute it: per key,
    in one batch for the key listing, and for the topology view. Tables are sequences in the
    order the database scans them; an id is represented by its canonical text. */
module Access {
  import opened Common
  import opened Sorting

  type Id = string

  datatype Policy = AllowAll | AllowList

  datatype ApiKey = ApiKey(id: Id, active: bool, sitePolicy: Policy, modelPolicy: Policy)

  datatype SitePermission = SitePermission(key: Id, site: Id, enabled: bool)
  datatype GroupPermission = GroupPermission(key: Id, group: Id, enabled: bool)
  datatype ModelPermission = ModelPermission(key: Id, siteModel: Id, enabled: bool)
  datatype Group = Group(id: Id, enabled: bool)
  datatype GroupSite = GroupSite(group: Id, site: Id)
  datatype SiteModel = SiteModel(site: Id, siteName: string, upstreamName: string, canonical: Option<Id>)

  datatype Database = Database(
    sitePermissions: seq<SitePermission>,
    groupPermissions: seq<GroupPermission>,
    groups: seq<Group>,
    groupSites: seq<GroupSite>,
    modelPermissions: seq<ModelPermission>,
    siteModels: map<Id, SiteModel>)

  // ----- What the tables mean -----

  predicate Direct(db: Database, key: Id, site: Id) {
    SitePermission(key, site, true) in db.sitePermissions
  }

  predicate OpenGroup(db: Database, key: Id, group: Id) {
    GroupPermission(key, group, true) in db.groupPermissions && Group(group, true) in db.groups
  }

  predicate ThroughGroup(db: Database, key: Id, site: Id) {
    exists p :: p in db.groupPermissions && p.key == key && OpenGroup(db, key, p.group)
             && GroupSite(p.group, site) in db.groupSites
  }

  /** The site is granted to the key, directly or through an enabled group. */
  predicate Reaches(db: Database, key: Id, site: Id) {
    Direct(db, key, site) || ThroughGroup(db, key, site)
  }

  predicate Effective(db: Database, key: Id, site: Id) {
    site != NIL && Reaches(db, key, site)
  }

  // ----- Effective sites of one key -----

  method AllowedSiteIDs(db: Database, key: Id) returns (ids: seq<Id>)
    ensures forall s :: s in ids <==> Direct(db, key, s)
  {
    ids := [];
    for i := 0 to |db.sitePermissions|
      invariant forall s :: s in ids <==> SitePermission(key, s, true) in db.sitePermissions[..i]
    {
      var p := db.sitePermissions[i];
      assert db.sitePermissions[..i + 1] == db.sitePermissions[..i] + [p];
      if p.key == key && p.enabled { ids := ids + [p.site]; }
    }
    assert db.sitePermissions[..|db.sitePermissions|] == db.sitePermissions;
  }

  method EnabledGroups(groups: seq<Group>) returns (ids: set<Id>)
    ensures forall g :: g in ids <==> Group(g, true) in groups
  {
    ids := {};
    for i := 0 to |groups|
      invariant forall g :: g in ids <==> Group(g, true) in groups[..i]
    {
      assert groups[..i + 1] == groups[..i] + [groups[i]];
      if groups[i].enabled { ids := ids + {groups[i].id}; }
    }
    assert groups[..|groups|] == groups;
  }

  predicate InEnabledGroup(db: Database, groupIds: seq<Id>, site: Id) {
    exists g :: g in groupIds && Group(g, true) in db.groups && GroupSite(g, site) in db.groupSites
  }

  method EnabledSiteIDsForGroups(db: Database, groupIds: seq<Id>) returns (ids: seq<Id>)
    ensures Distinct(ids) && forall s :: s in ids <==> InEnabledGroup(db, groupIds, s)
  {
    if groupIds == [] { return []; }
    var enabled := EnabledGroups(Filter(db.groups, (g: Group) => g.id in groupIds));
    var rows := Filter(db.groupSites, (x: GroupSite) => x.group in groupIds);
    FilterMembers(db.groups, (g: Group) => g.id in groupIds);
    FilterMembers(db.groupSites, (x: GroupSite) => x.group in groupIds);
    var seen: set<Id> := {};
    ids := [];
    for i := 0 to |rows|
      invariant Distinct(ids) && forall s :: s in seen <==> s in ids
      invariant forall s :: s in ids <==> exists g :: g in enabled && GroupSite(g, s) in rows[..i]
    {
      assert rows[..i + 1] == rows[..i] + [rows[i]];
      if rows[i].group !in enabled { continue; }
      if rows[i].site in seen { continue; }
      seen := seen + {rows[i].site};
      ids := ids + [rows[i].site];
    }
    assert rows[..|rows|] == rows;
  }

  /** The de-duplicating loop, run once over direct sites and once over group sites. */
  method AppendFresh(result: seq<Id>, ids: seq<Id>) returns (r: seq<Id>)
    requires Distinct(result)
    ensures Distinct(r)
    ensures forall s :: s in r <==> s in result || (s in ids && s != NIL)
  {
    r := result;
    var seen := set s | s in result;
    for i := 0 to |ids|
      invariant Distinct(r)
      invariant forall s :: s in seen <==> s in r
      invariant forall s :: s in r <==> s in result || (s in ids[..i] && s != NIL)
    {
      assert ids[..i + 1] == ids[..i] + [ids[i]];
      if ids[i] == NIL { continue; }
      if ids[i] in seen { continue; }
      seen := seen + {ids[i]};
      r := r + [ids[i]];
    }
    assert ids[..|ids|] == ids;
  }

  method EnabledGroupIDs(db: Database, key: Id) returns (ids: seq<Id>)
    ensures forall g :: g in ids <==> GroupPermission(key, g, true) in db.groupPermissions
  {
    ids := [];
    for i := 0 to |db.groupPermissions|
      invariant forall g :: g in ids <==> GroupPermission(key, g, true) in db.groupPermissions[..i]
    {
      var p := db.groupPermissions[i];
      assert db.groupPermissions[..i + 1] == db.groupPermissions[..i] + [p];
      if p.key == key && p.enabled { ids := ids + [p.group]; }
    }
    assert db.groupPermissions[..|db.groupPermissions|] == db.groupPermissions;
  }

  /** Under an allow list, exactly the effective sites, once each; otherwise nothing (no limit). */
  method EffectiveAllowedSiteIDs(db: Database, key: ApiKey) returns (ids: seq<Id>)
    ensures key.sitePolicy == AllowAll ==> ids == []
    ensures Distinct(ids)
    ensures key.sitePolicy == AllowList ==> forall s :: s in ids <==> Effective(db, key.id, s)
    ensures key.sitePolicy == AllowList ==> forall s :: s in ids <==>
              && s != "00000000-0000-0000-0000-000000000000"
              && (|| SitePermission(key.id, s, true) in db.sitePermissions
                  || exists g :: GroupPermission(key.id, g, true) in db.groupPermissions
                              && Group(g, true) in db.groups && GroupSite(g, s) in db.groupSites)
  {
    if key.sitePolicy == AllowAll { return []; }
    var direct := AllowedSiteIDs(db, key.id);
    ids := AppendFresh([], direct);
    var groupIds := EnabledGroupIDs(db, key.id);
    var groupSites := EnabledSiteIDsForGroups(db, groupIds);
    ids := AppendFresh(ids, groupSites);
    forall s ensures InEnabledGroup(db, groupIds, s) <==> ThroughGroup(db, key.id, s) {
      GroupReach(db, key.id, groupIds, s);
    }
    forall s ensures Effective(db, key.id, s) <==>
              && s != "00000000-0000-0000-0000-000000000000"
              && (|| SitePermission(key.id, s, true) in db.sitePermissions
                  || exists g :: GroupPermission(key.id, g, true) in db.groupPermissions
                              && Group(g, true) in db.groups && GroupSite(g, s) in db.groupSites)
    {
      ThroughGroupMeans(db, key.id, s);
    }
  }

  lemma ThroughGroupMeans(db: Database, key: Id, site: Id)
    ensures ThroughGroup(db, key, site) <==>
            exists g :: GroupPermission(key, g, true) in db.groupPermissions
                     && Group(g, true) in db.groups && GroupSite(g, site) in db.groupSites
  {
    if exists g :: GroupPermission(key, g, true) in db.groupPermissions
                && Group(g, true) in db.groups && GroupSite(g, site) in db.groupSites {
      var g :| GroupPermission(key, g, true) in db.groupPermissions
            && Group(g, true) in db.groups && GroupSite(g, site) in db.groupSites;
      var p := GroupPermission(key, g, true);
      assert p in db.groupPermissions && OpenGroup(db, key, p.group);
    }
  }

  lemma GroupReach(db: Database, key: Id, groupIds: seq<Id>, site: Id)
    requires forall g :: g in groupIds <==> GroupPermission(key, g, true) in db.groupPermissions
    ensures InEnabledGroup(db, groupIds, site) <==> ThroughGroup(db, key, site)
  {
    if InEnabledGroup(db, groupIds, site) {
      var g :| g in groupIds && Group(g, true) in db.groups && GroupSite(g, site) in db.groupSites;
      var p := GroupPermission(key, g, true);
      assert p in db.groupPermissions && OpenGroup(db, key, p.group);
    }
  }

  // ----- Visible site models -----

  datatype ModelDetail = ModelDetail(permission: ModelPermission, site: Id, siteName: string, upstreamName: string)

  /** A permission whose site model is gone shows the zero site. */
  function DetailOf(db: Database, p: ModelPermission): ModelDetail {
    if p.siteModel in db.siteModels then
      var m := db.siteModels[p.siteModel];
      ModelDetail(p, m.site, m.siteName, m.upstreamName)
    else
      ModelDetail(p, NIL, "", "")
  }

  function BeforeDetail(a: ModelDetail, b: ModelDetail): bool {
    if a.siteName != b.siteName then Less(a.siteName, b.siteName) else Less(a.upstreamName, b.upstreamName)
  }

  function Details(db: Database, ps: seq<ModelPermission>): seq<ModelDetail> {
    StableSort(seq(|ps|, i requires 0 <= i < |ps| => DetailOf(db, ps[i])), BeforeDetail)
  }

  function PermissionOf(key: Id): ModelPermission -> bool {
    (p: ModelPermission) => p.key == key
  }

  function DetailKeyIs(key: Id): ModelDetail -> bool {
    (d: ModelDetail) => d.permission.key == key
  }

  /** All model permissions of one key, as the per-key query lists them. */
  function OwnDetails(db: Database, key: Id): seq<ModelDetail> {
    Details(db, Filter(db.modelPermissions, PermissionOf(key)))
  }

  function OnEffectiveSite(db: Database, key: Id): ModelDetail -> bool {
    (d: ModelDetail) => Effective(db, key, d.site)
  }

  function OnReachedSite(db: Database, key: Id): ModelDetail -> bool {
    (d: ModelDetail) => Reaches(db, key, d.site)
  }

  /** What the per-key code shows. */
  function VisibleModels(db: Database, key: ApiKey): seq<ModelDetail> {
    if key.sitePolicy == AllowAll then OwnDetails(db, key.id)
    else Filter(OwnDetails(db, key.id), OnEffectiveSite(db, key.id))
  }

  /** What the batched listing shows. */
  function ListedModels(db: Database, key: ApiKey): seq<ModelDetail> {
    var own := Filter(Details(db, db.modelPermissions), DetailKeyIs(key.id));
    if key.sitePolicy == AllowAll then own else Filter(own, OnReachedSite(db, key.id))
  }

  method APIKeyEffectiveSiteModels(db: Database, key: ApiKey) returns (models: seq<ModelDetail>)
    ensures models == VisibleModels(db, key)
  {
    var own := OwnDetails(db, key.id);
    if key.sitePolicy != AllowList { return own; }
    var allowed := EffectiveAllowedSiteIDs(db, key);
    if allowed == [] {
      FilterNone(own, OnEffectiveSite(db, key.id));
      return [];
    }
    var sites := set s | s in allowed;
    models := [];
    for i := 0 to |own|
      invariant models == Filter(own[..i], OnEffectiveSite(db, key.id))
    {
      assert own[..i + 1] == own[..i] + [own[i]];
      FilterSnoc(own[..i], own[i], OnEffectiveSite(db, key.id));
      if own[i].site in sites { models := models + [own[i]]; }
    }
    assert own[..|own|] == own;
  }

  lemma {:induction false} FilterNone<T>(s: seq<T>, keep: T -> bool)
    requires forall x :: x in s ==> !keep(x)
    ensures Filter(s, keep) == []
  {
    if s != [] {
      FilterNone(s[..|s| - 1], keep);
      assert s[|s| - 1] in s;
    }
  }

  /** A permission shows its site model's site and names, or the zero site when that is gone. */
  predicate ShowsPermission(db: Database, d: ModelDetail, p: ModelPermission) {
    && d.permission == p
    && (p.siteModel in db.siteModels ==>
          && d.site == db.siteModels[p.siteModel].site && d.siteName == db.siteModels[p.siteModel].siteName
          && d.upstreamName == db.siteModels[p.siteModel].upstreamName)
    && (p.siteModel !in db.siteModels ==>
          d.site == "00000000-0000-0000-0000-000000000000" && d.siteName == "" && d.upstreamName == "")
  }

  lemma DetailsAre(db: Database, ps: seq<ModelPermission>, d: ModelDetail)
    ensures d in Details(db, ps) <==> exists p :: p in ps && ShowsPermission(db, d, p)
  {
    var listed := seq(|ps|, i requires 0 <= i < |ps| => DetailOf(db, ps[i]));
    BeforeDetailIsStrictWeak();
    SortIsOrderedPermutation(listed, BeforeDetail);
    assert d in Details(db, ps) <==> d in multiset(Details(db, ps));
    assert d in listed <==> d in multiset(listed);
    if p :| p in ps && ShowsPermission(db, d, p) {
      var i :| 0 <= i < |ps| && ps[i] == p;
      assert listed[i] == d;
    }
    if d in listed {
      var i :| 0 <= i < |listed| && listed[i] == d;
      assert ps[i] in ps && ShowsPermission(db, d, ps[i]);
    }
  }

  /** A key sees exactly its own model permissions, on effective sites under an allow list. */
  lemma VisibleModelsAre(db: Database, key: ApiKey, d: ModelDetail)
    ensures d in VisibleModels(db, key) <==>
            && (exists p :: p in db.modelPermissions && p.key == key.id && ShowsPermission(db, d, p))
            && (key.sitePolicy == AllowList ==> Effective(db, key.id, d.site))
  {
    FilterMembers(db.modelPermissions, PermissionOf(key.id));
    DetailsAre(db, Filter(db.modelPermissions, PermissionOf(key.id)), d);
    FilterMembers(OwnDetails(db, key.id), OnEffectiveSite(db, key.id));
    if p :| p in db.modelPermissions && p.key == key.id && ShowsPermission(db, d, p) {
      assert p in Filter(db.modelPermissions, PermissionOf(key.id));
    }
  }

  /** They come in order of site name, then upstream name. */
  lemma DetailsAreOrdered(db: Database, ps: seq<ModelPermission>, i: nat, j: nat)
    requires i < j < |Details(db, ps)|
    ensures var a, b := Details(db, ps)[i], Details(db, ps)[j];
            !Less(b.siteName, a.siteName) && (a.siteName == b.siteName ==> !Less(b.upstreamName, a.upstreamName))
  {
    BeforeDetailIsStrictWeak();
    SortIsOrderedPermutation(seq(|ps|, k requires 0 <= k < |ps| => DetailOf(db, ps[k])), BeforeDetail);
    assert !BeforeDetail(Details(db, ps)[j], Details(db, ps)[i]);
    LessIrreflexive(Details(db, ps)[i].siteName);
  }

  // ----- The batched listing -----

  function Bucket<T>(m: map<Id, seq<T>>, key: Id): seq<T> {
    if key in m then m[key] else []
  }

  function Owned<T>(keyOf: T -> Id, key: Id): T -> bool {
    (x: T) => keyOf(x) == key
  }

  /** One of the append-to-bucket loops of the listing. */
  method GroupByKey<T>(items: seq<T>, keyOf: T -> Id) returns (m: map<Id, seq<T>>)
    ensures forall k :: Bucket(m, k) == Filter(items, Owned(keyOf, k))
  {
    m := map[];
    for i := 0 to |items|
      invariant forall k :: Bucket(m, k) == Filter(items[..i], Owned(keyOf, k))
    {
      var item := items[i];
      assert items[..i + 1] == items[..i] + [item];
      forall k ensures Filter(items[..i + 1], Owned(keyOf, k)) ==
                       Filter(items[..i], Owned(keyOf, k)) + if keyOf(item) == k then [item] else []
      {
        FilterSnoc(items[..i], item, Owned(keyOf, k));
      }
      m := m[keyOf(item) := Bucket(m, keyOf(item)) + [item]];
    }
    assert items[..|items|] == items;
  }

  /** The set of sites the listing collects for one key from its buckets. */
  method CollectSites(db: Database, key: Id, sites: seq<SitePermission>, groups: seq<GroupPermission>,
                      enabledGroups: set<Id>, sitesByGroup: map<Id, seq<GroupSite>>) returns (allowed: set<Id>)
    requires forall p :: p in sites <==> p in db.sitePermissions && p.key == key
    requires forall p :: p in groups <==> p in db.groupPermissions && p.key == key
    requires forall g :: g in enabledGroups <==> Group(g, true) in db.groups
    requires forall g, x :: x in Bucket(sitesByGroup, g) <==> x in db.groupSites && x.group == g
    ensures forall s :: s in allowed <==> Reaches(db, key, s)
  {
    allowed := {};
    for i := 0 to |sites|
      invariant forall s :: s in allowed <==> SitePermission(key, s, true) in sites[..i]
    {
      assert sites[..i + 1] == sites[..i] + [sites[i]];
      assert sites[i] in sites;
      if sites[i].enabled { allowed := allowed + {sites[i].site}; }
    }
    assert sites[..|sites|] == sites;
    ghost var direct := allowed;
    for i := 0 to |groups|
      invariant forall s :: s in allowed <==>
                  (s in direct ||
                   exists p :: p in groups[..i] && p.enabled && p.group in enabledGroups
                            && GroupSite(p.group, s) in db.groupSites)
    {
      var p := groups[i];
      assert groups[..i + 1] == groups[..i] + [p];
      if !p.enabled || p.group !in enabledGroups { continue; }
      allowed := allowed + (set x | x in Bucket(sitesByGroup, p.group) :: x.site);
      forall s
        ensures s in (set x | x in Bucket(sitesByGroup, p.group) :: x.site) <==> GroupSite(p.group, s) in db.groupSites
      {
        if GroupSite(p.group, s) in db.groupSites { assert GroupSite(p.group, s) in Bucket(sitesByGroup, p.group); }
      }
    }
    assert groups[..|groups|] == groups;
    forall s
      ensures (exists p :: p in groups && p.enabled && p.group in enabledGroups
                        && GroupSite(p.group, s) in db.groupSites)
              <==> ThroughGroup(db, key, s)
    {
      ListedGroupReach(db, key, groups, enabledGroups, s);
    }
  }

  lemma ListedGroupReach(db: Database, key: Id, groups: seq<GroupPermission>, enabledGroups: set<Id>, site: Id)
    requires forall p :: p in groups <==> p in db.groupPermissions && p.key == key
    requires forall g :: g in enabledGroups <==> Group(g, true) in db.groups
    ensures (exists p :: p in groups && p.enabled && p.group in enabledGroups
                      && GroupSite(p.group, site) in db.groupSites)
            <==> ThroughGroup(db, key, site)
  {
    if p :| p in groups && p.enabled && p.group in enabledGroups && GroupSite(p.group, site) in db.groupSites {
      assert p == GroupPermission(key, p.group, true);
      assert OpenGroup(db, key, p.group);
    }
    if ThroughGroup(db, key, site) {
      var p :| p in db.groupPermissions && p.key == key && OpenGroup(db, key, p.group)
            && GroupSite(p.group, site) in db.groupSites;
      assert GroupPermission(key, p.group, true) in groups;
    }
  }

  lemma OwnedMembers<T(!new)>(items: seq<T>, keyOf: T -> Id, key: Id)
    ensures forall x :: x in Filter(items, Owned(keyOf, key)) <==> x in items && keyOf(x) == key
  {
    FilterMembers(items, Owned(keyOf, key));
  }

  function DetailKey(d: ModelDetail): Id { d.permission.key }
  function SitePermissionKey(p: SitePermission): Id { p.key }
  function GroupPermissionKey(p: GroupPermission): Id { p.key }
  function GroupSiteGroup(x: GroupSite): Id { x.group }

  method SelectVisible(db: Database, key: Id, own: seq<ModelDetail>, allowed: set<Id>)
    returns (visible: seq<ModelDetail>)
    requires forall s :: s in allowed <==> Reaches(db, key, s)
    ensures visible == Filter(own, OnReachedSite(db, key))
  {
    visible := [];
    for j := 0 to |own|
      invariant visible == Filter(own[..j], OnReachedSite(db, key))
    {
      assert own[..j + 1] == own[..j] + [own[j]];
      FilterSnoc(own[..j], own[j], OnReachedSite(db, key));
      if own[j].site in allowed { visible := visible + [own[j]]; }
    }
    assert own[..|own|] == own;
  }

  /** The body of the listing loop for one key, given the grouped tables. */
  method ListOne(db: Database, key: ApiKey, own: seq<ModelDetail>, sites: seq<SitePermission>,
                 groups: seq<GroupPermission>,
                 enabledGroups: set<Id>, sitesByGroup: map<Id, seq<GroupSite>>) returns (visible: seq<ModelDetail>)
    requires own == Filter(Details(db, db.modelPermissions), Owned(DetailKey, key.id))
    requires sites == Filter(db.sitePermissions, Owned(SitePermissionKey, key.id))
    requires groups == Filter(db.groupPermissions, Owned(GroupPermissionKey, key.id))
    requires forall g :: g in enabledGroups <==> Group(g, true) in db.groups
    requires forall g :: Bucket(sitesByGroup, g) == Filter(db.groupSites, Owned(GroupSiteGroup, g))
    ensures visible == ListedModels(db, key)
  {
    visible := own;
    FilterCongruent(Details(db, db.modelPermissions), Owned(DetailKey, key.id), DetailKeyIs(key.id));
    if key.sitePolicy == AllowList {
      OwnedMembers(db.sitePermissions, SitePermissionKey, key.id);
      OwnedMembers(db.groupPermissions, GroupPermissionKey, key.id);
      forall g, x ensures x in Bucket(sitesByGroup, g) <==> x in db.groupSites && x.group == g {
        OwnedMembers(db.groupSites, GroupSiteGroup, g);
        assert GroupSiteGroup(x) == x.group;
      }
      assert forall p :: p in sites <==> p in db.sitePermissions && SitePermissionKey(p) == key.id;
      assert forall p :: p in groups <==> p in db.groupPermissions && GroupPermissionKey(p) == key.id;
      var allowed := CollectSites(db, key.id, sites, groups, enabledGroups, sitesByGroup);
      visible := SelectVisible(db, key.id, own, allowed);
    }
  }

  method ListAPIKeyDetails(db: Database, keys: seq<ApiKey>) returns (models: seq<seq<ModelDetail>>)
    ensures |models| == |keys|
    ensures forall i :: 0 <= i < |keys| ==> models[i] == ListedModels(db, keys[i])
  {
    var modelsByKey := GroupByKey(Details(db, db.modelPermissions), DetailKey);
    var sitesByKey := GroupByKey(db.sitePermissions, SitePermissionKey);
    var groupsByKey := GroupByKey(db.groupPermissions, GroupPermissionKey);
    var enabledGroups := EnabledGroups(db.groups);
    var sitesByGroup := GroupByKey(db.groupSites, GroupSiteGroup);
    models := [];
    for i := 0 to |keys|
      invariant |models| == i
      invariant forall j :: 0 <= j < i ==> models[j] == ListedModels(db, keys[j])
    {
      var id := keys[i].id;
      var visible := ListOne(db, keys[i], Bucket(modelsByKey, id), Bucket(sitesByKey, id), Bucket(groupsByKey, id),
                             enabledGroups, sitesByGroup);
      models := models + [visible];
    }
  }

  // ----- The listing agrees with the per-key code -----

  lemma BeforeDetailIsStrictWeak()
    ensures StrictWeak(BeforeDetail)
  {
    forall a: ModelDetail ensures !BeforeDetail(a, a) { LessIrreflexive(a.upstreamName); }
    forall a: ModelDetail, b: ModelDetail, c: ModelDetail
      ensures BeforeDetail(a, b) && BeforeDetail(b, c) ==> BeforeDetail(a, c)
      ensures !BeforeDetail(a, b) && !BeforeDetail(b, c) ==> !BeforeDetail(a, c)
    {
      LessIsWeak(a.siteName, b.siteName, c.siteName);
      LessIsWeak(a.upstreamName, b.upstreamName, c.upstreamName);
      LessTotal(a.siteName, b.siteName);
      LessTotal(b.siteName, c.siteName);
      LessTotal(a.siteName, c.siteName);
      LessIrreflexive(a.siteName);
    }
  }

  lemma {:induction false} MappedFilter(db: Database, ps: seq<ModelPermission>, key: Id)
    ensures Filter(seq(|ps|, i requires 0 <= i < |ps| => DetailOf(db, ps[i])), DetailKeyIs(key)) ==
            var own := Filter(ps, PermissionOf(key));
            seq(|own|, i requires 0 <= i < |own| => DetailOf(db, own[i]))
  {
    if ps != [] {
      var init := ps[..|ps| - 1];
      MappedFilter(db, init, key);
      var mapped := seq(|ps|, i requires 0 <= i < |ps| => DetailOf(db, ps[i]));
      assert mapped[..|ps| - 1] == seq(|init|, i requires 0 <= i < |init| => DetailOf(db, init[i]));
    }
  }

  /** Grouping the sorted listing of all permissions gives each key its own sorted listing. */
  lemma GroupedDetailsAreOwn(db: Database, key: Id)
    ensures Filter(Details(db, db.modelPermissions), DetailKeyIs(key)) == OwnDetails(db, key)
  {
    var ps := db.modelPermissions;
    BeforeDetailIsStrictWeak();
    FilterCommutesWithSort(seq(|ps|, i requires 0 <= i < |ps| => DetailOf(db, ps[i])), BeforeDetail, DetailKeyIs(key));
    MappedFilter(db, ps, key);
  }

  /** The zero site is granted to the key and one of its permissions shows it: the one case the
      listing and the per-key code treat differently. The database's foreign keys rule it out. */
  predicate ZeroSiteShown(db: Database, key: ApiKey) {
    key.sitePolicy == AllowList && Reaches(db, key.id, NIL) && exists d :: d in OwnDetails(db, key.id) && d.site == NIL
  }

  /** For every database, the batched listing shows a key exactly the models the per-key code
      shows it, in the same order, if and only if no granted zero site is on display. */
  lemma ListingAgreesIff(db: Database, key: ApiKey)
    ensures ListedModels(db, key) == VisibleModels(db, key) <==> !ZeroSiteShown(db, key)
  {
    GroupedDetailsAreOwn(db, key.id);
    var own := OwnDetails(db, key.id);
    if ZeroSiteShown(db, key) {
      var d :| d in own && d.site == NIL;
      FilterMembers(own, OnReachedSite(db, key.id));
      FilterMembers(own, OnEffectiveSite(db, key.id));
      assert d in ListedModels(db, key) && d !in VisibleModels(db, key);
    } else if key.sitePolicy == AllowList {
      FilterCongruent(own, OnReachedSite(db, key.id), OnEffectiveSite(db, key.id));
    }
  }

  /** What the database's foreign keys ensure: permissions and group memberships name real sites. */
  predicate NamesRealSites(db: Database) {
    && (forall p :: p in db.sitePermissions ==> p.site != NIL)
    && (forall x :: x in db.groupSites ==> x.site != NIL)
  }

  /** Then the listing and the per-key code always agree. */
  lemma RealSitesAgree(db: Database, key: ApiKey)
    requires NamesRealSites(db)
    ensures ListedModels(db, key) == VisibleModels(db, key)
  {
    ListingAgreesIff(db, key);
  }

  /** A permission for a site model that is gone, and a grant of the zero site. */
  function ZeroSiteDatabase(key: Id, gone: Id): Database {
    Database([SitePermission(key, NIL, true)], [], [], [], [ModelPermission(key, gone, true)], map[])
  }

  /** Without the foreign keys they can differ. */
  lemma ZeroSiteExample(key: Id, gone: Id)
    ensures var db, k := ZeroSiteDatabase(key, gone), ApiKey(key, true, AllowList, AllowAll);
            ListedModels(db, k) != VisibleModels(db, k)
  {
    var db, k := ZeroSiteDatabase(key, gone), ApiKey(key, true, AllowList, AllowAll);
    ZeroDetail(db, key, gone);
    assert SitePermission(key, NIL, true) in db.sitePermissions;
    ListingAgreesIff(db, k);
  }

  lemma ZeroDetail(db: Database, key: Id, gone: Id)
    requires db.modelPermissions == [ModelPermission(key, gone, true)] && gone !in db.siteModels
    ensures exists d :: d in OwnDetails(db, key) && d.site == NIL
  {
    var p := ModelPermission(key, gone, true);
    var d := DetailOf(db, p);
    FilterAll(db.modelPermissions, PermissionOf(key));
    var listed := seq(1, i requires 0 <= i < 1 => DetailOf(db, [p][i]));
    assert listed == [d];
    BeforeDetailIsStrictWeak();
    SortIsOrderedPermutation(listed, BeforeDetail);
    assert d in multiset(StableSort(listed, BeforeDetail));
    assert OwnDetails(db, key) == StableSort(listed, BeforeDetail);
  }
}
