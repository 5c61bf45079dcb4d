/** Access sets of a key and the decision whether it may be routed to a canonical model. */
module RouteAccess {
  import opened Common
  import opened Sorting
  import opened Access

  datatype Resolution = Resolved(sites: seq<Id>, models: seq<Id>) | LookupFailed

  datatype Route = Allowed(sites: seq<Id>, models: seq<Id>) | SiteNotAllowed | ModelNotAllowed | RouteLookupFailed

  // ----- Model permissions -----

  function EnabledModels(ps: seq<ModelPermission>, key: Id): seq<Id> {
    if ps == [] then []
    else
      var p := ps[|ps| - 1];
      EnabledModels(ps[..|ps| - 1], key) + if p.key == key && p.enabled then [p.siteModel] else []
  }

  /** The site model exists and is bound to the canonical model. */
  function BoundTo(db: Database, canonical: Id): Id -> bool {
    (m: Id) => m != NIL && m in db.siteModels && db.siteModels[m].canonical == Some(canonical)
  }

  function OnSites(db: Database, sites: seq<Id>): Id -> bool {
    (m: Id) => m in db.siteModels && db.siteModels[m].site in sites
  }

  method EnabledSiteModelIDs(db: Database, key: Id) returns (ids: seq<Id>)
    ensures ids == EnabledModels(db.modelPermissions, key)
  {
    ids := [];
    for i := 0 to |db.modelPermissions|
      invariant ids == EnabledModels(db.modelPermissions[..i], key)
    {
      var p := db.modelPermissions[i];
      assert db.modelPermissions[..i + 1][..i] == db.modelPermissions[..i];
      if p.key == key && p.enabled { ids := ids + [p.siteModel]; }
    }
    assert db.modelPermissions[..|db.modelPermissions|] == db.modelPermissions;
  }

  method EnabledSiteModelIDsForCanonical(db: Database, key: Id, canonical: Id) returns (ids: seq<Id>)
    ensures ids == Filter(EnabledModels(db.modelPermissions, key), BoundTo(db, canonical))
  {
    var enabled := EnabledSiteModelIDs(db, key);
    ids := [];
    for i := 0 to |enabled|
      invariant ids == Filter(enabled[..i], BoundTo(db, canonical))
    {
      assert enabled[..i + 1] == enabled[..i] + [enabled[i]];
      FilterSnoc(enabled[..i], enabled[i], BoundTo(db, canonical));
      if BoundTo(db, canonical)(enabled[i]) { ids := ids + [enabled[i]]; }
    }
    assert enabled[..|enabled|] == enabled;
  }

  // ----- Filtering by site, with its lookups -----

  predicate AllKnown(db: Database, ids: seq<Id>) {
    forall m :: m in ids ==> m in db.siteModels
  }

  function SiteFiltered(db: Database, ids: seq<Id>, sites: seq<Id>): Option<seq<Id>> {
    if ids == [] || sites == [] then Some([])
    else if AllKnown(db, ids) then Some(Filter(ids, OnSites(db, sites)))
    else None
  }

  lemma KnownSnoc(db: Database, ids: seq<Id>, m: Id)
    ensures AllKnown(db, ids + [m]) <==> AllKnown(db, ids) && m in db.siteModels
  {
    assert m in ids + [m];
    assert forall x :: x in ids + [m] <==> x in ids || x == m;
  }

  lemma UnknownMember(db: Database, ids: seq<Id>, i: nat)
    requires i < |ids| && ids[i] !in db.siteModels
    ensures !AllKnown(db, ids)
  {
    assert ids[i] in ids;
  }

  /** The first `i` models are known, and `kept` are those of them on the sites. */
  ghost predicate FilteredUpTo(db: Database, ids: seq<Id>, sites: seq<Id>, i: int, kept: seq<Id>) {
    0 <= i <= |ids| && AllKnown(db, ids[..i]) && kept == Filter(ids[..i], OnSites(db, sites))
  }

  lemma FilterNext(db: Database, ids: seq<Id>, sites: seq<Id>, i: nat, kept: seq<Id>)
    requires i < |ids| && FilteredUpTo(db, ids, sites, i, kept) && ids[i] in db.siteModels
    ensures FilteredUpTo(db, ids, sites, i + 1, if db.siteModels[ids[i]].site in sites then kept + [ids[i]] else kept)
  {
    assert ids[..i + 1] == ids[..i] + [ids[i]];
    KnownSnoc(db, ids[..i], ids[i]);
    FilterSnoc(ids[..i], ids[i], OnSites(db, sites));
  }

  lemma FilterDone(db: Database, ids: seq<Id>, sites: seq<Id>, kept: seq<Id>)
    requires ids != [] && sites != [] && FilteredUpTo(db, ids, sites, |ids|, kept)
    ensures SiteFiltered(db, ids, sites) == Some(kept)
  {
    assert ids[..|ids|] == ids;
  }

  method FilterSiteModelIDsBySites(db: Database, ids: seq<Id>, sites: seq<Id>) returns (r: Option<seq<Id>>)
    ensures r == SiteFiltered(db, ids, sites)
  {
    if ids == [] || sites == [] { return Some([]); }
    var allowed := set s | s in sites;
    var result: seq<Id> := [];
    for i := 0 to |ids|
      invariant FilteredUpTo(db, ids, sites, i, result)
    {
      if ids[i] !in db.siteModels {
        UnknownMember(db, ids, i);
        return None;
      }
      FilterNext(db, ids, sites, i, result);
      if db.siteModels[ids[i]].site in allowed { result := result + [ids[i]]; }
    }
    FilterDone(db, ids, sites, result);
    return Some(result);
  }

  // ----- The two resolvers -----

  /** A list the effective-site computation may produce for the key. */
  ghost predicate SitesOf(db: Database, key: ApiKey, sites: seq<Id>) {
    if key.sitePolicy == AllowAll then sites == []
    else forall s :: s in sites <==> Effective(db, key.id, s)
  }

  function AccessFrom(db: Database, key: ApiKey, sites: seq<Id>): Resolution {
    if key.modelPolicy == AllowAll then Resolved(sites, [])
    else
      var models := EnabledModels(db.modelPermissions, key.id);
      if key.sitePolicy == AllowAll then Resolved(sites, models)
      else match SiteFiltered(db, models, sites)
        case None => LookupFailed
        case Some(kept) => Resolved(sites, kept)
  }

  function RouteFrom(db: Database, key: ApiKey, canonical: Id, sites: seq<Id>): Route {
    if key.sitePolicy == AllowList && sites == [] then SiteNotAllowed
    else if key.modelPolicy == AllowAll then Allowed(sites, [])
    else
      var bound := Filter(EnabledModels(db.modelPermissions, key.id), BoundTo(db, canonical));
      match if sites == [] then Some(bound) else SiteFiltered(db, bound, sites)
      case None => RouteLookupFailed
      case Some(models) => if models == [] then ModelNotAllowed else Allowed(sites, models)
  }

  /** The access sets the code may resolve for the key. */
  ghost predicate IsAccess(db: Database, key: ApiKey, r: Resolution) {
    exists sites :: SitesOf(db, key, sites) && r == AccessFrom(db, key, sites)
  }

  /** The route decision the code may take for the key. */
  ghost predicate IsRoute(db: Database, key: ApiKey, canonical: Id, r: Route) {
    exists sites :: SitesOf(db, key, sites) && r == RouteFrom(db, key, canonical, sites)
  }

  method ResolveAPIKeyAccessSets(db: Database, key: ApiKey) returns (r: Resolution)
    ensures IsAccess(db, key, r)
  {
    var allowed := EffectiveAllowedSiteIDs(db, key);
    assert SitesOf(db, key, allowed);
    var models: seq<Id> := [];
    if key.modelPolicy == AllowList {
      models := EnabledSiteModelIDs(db, key.id);
      if key.sitePolicy == AllowList {
        var kept := FilterSiteModelIDsBySites(db, models, allowed);
        if kept.None? { return LookupFailed; }
        models := kept.value;
      }
    }
    return Resolved(allowed, models);
  }

  method ResolveAPIKeyRouteAccess(db: Database, key: ApiKey, canonical: Id) returns (r: Route)
    ensures IsRoute(db, key, canonical, r)
  {
    var allowed := EffectiveAllowedSiteIDs(db, key);
    assert SitesOf(db, key, allowed);
    if key.sitePolicy == AllowList && |allowed| == 0 { return SiteNotAllowed; }
    var models: seq<Id> := [];
    if key.modelPolicy == AllowList {
      models := EnabledSiteModelIDsForCanonical(db, key.id, canonical);
      if |allowed| != 0 {
        var kept := FilterSiteModelIDsBySites(db, models, allowed);
        if kept.None? { return RouteLookupFailed; }
        models := kept.value;
      }
      if |models| == 0 { return ModelNotAllowed; }
    }
    return Allowed(allowed, models);
  }

  // ----- They agree -----

  lemma BoundModelsAreKnown(db: Database, ids: seq<Id>, canonical: Id)
    ensures AllKnown(db, Filter(ids, BoundTo(db, canonical)))
  {
    FilterMembers(ids, BoundTo(db, canonical));
  }

  /** Restricting to a canonical model and then to sites is the same as the other way round. */
  lemma RestrictionsCommute(db: Database, ids: seq<Id>, canonical: Id, sites: seq<Id>, sites': seq<Id>)
    requires forall s :: s in sites <==> s in sites'
    ensures Filter(Filter(ids, BoundTo(db, canonical)), OnSites(db, sites)) ==
            Filter(Filter(ids, OnSites(db, sites')), BoundTo(db, canonical))
  {
    var both := (m: Id) => BoundTo(db, canonical)(m) && OnSites(db, sites)(m);
    FilterTwice(ids, BoundTo(db, canonical), OnSites(db, sites), both);
    FilterTwice(ids, OnSites(db, sites'), BoundTo(db, canonical), both);
  }

  /** What the access sets say of a route. */
  ghost predicate Follows(db: Database, key: ApiKey, canonical: Id, access: Resolution, route: Route)
    requires access.Resolved?
  {
    var bound := Filter(access.models, BoundTo(db, canonical));
    && !route.RouteLookupFailed?
    && (route.Allowed? <==> (key.sitePolicy == AllowList ==> access.sites != [])
                            && (key.modelPolicy == AllowList ==> bound != []))
    && (route.SiteNotAllowed? <==> key.sitePolicy == AllowList && access.sites == [])
    && (route.Allowed? ==> forall s :: s in route.sites <==> s in access.sites)
    && (route.Allowed? && key.modelPolicy == AllowList ==> route.models == bound)
  }

  lemma NoSiteFollows(db: Database, key: ApiKey, canonical: Id, sites: seq<Id>, sites': seq<Id>)
    requires key.sitePolicy == AllowList && sites == [] && sites' == []
    requires AccessFrom(db, key, sites').Resolved?
    ensures Follows(db, key, canonical, AccessFrom(db, key, sites'), RouteFrom(db, key, canonical, sites))
  {
  }

  lemma AnyModelFollows(db: Database, key: ApiKey, canonical: Id, sites: seq<Id>, sites': seq<Id>)
    requires key.modelPolicy == AllowAll && (key.sitePolicy == AllowList ==> sites != [] && sites' != [])
    requires forall s :: s in sites <==> s in sites'
    ensures Follows(db, key, canonical, AccessFrom(db, key, sites'), RouteFrom(db, key, canonical, sites))
  {
  }

  lemma AnySiteFollows(db: Database, key: ApiKey, canonical: Id)
    requires key.modelPolicy == AllowList && key.sitePolicy == AllowAll
    ensures Follows(db, key, canonical, AccessFrom(db, key, []), RouteFrom(db, key, canonical, []))
  {
  }

  lemma ListedFollows(db: Database, key: ApiKey, canonical: Id, sites: seq<Id>, sites': seq<Id>)
    requires key.modelPolicy == AllowList && key.sitePolicy == AllowList && sites != [] && sites' != []
    requires AccessFrom(db, key, sites').Resolved? && forall s :: s in sites <==> s in sites'
    ensures Follows(db, key, canonical, AccessFrom(db, key, sites'), RouteFrom(db, key, canonical, sites))
  {
    var ids := EnabledModels(db.modelPermissions, key.id);
    BoundModelsAreKnown(db, ids, canonical);
    RestrictionsCommute(db, ids, canonical, sites, sites');
    assert Filter([], BoundTo(db, canonical)) == [];
    assert Filter([], OnSites(db, sites)) == [];
  }

  /** Under every combination of policies and absent lookup errors, a route is allowed exactly
      when the access sets leave a permitted site and a permitted site model of that canonical
      model, and its site models are exactly the access-set ones bound to it, in order. */
  lemma RouteFollowsAccessSets(db: Database, key: ApiKey, canonical: Id, access: Resolution, route: Route)
    requires IsAccess(db, key, access) && access.Resolved? && IsRoute(db, key, canonical, route)
    ensures Follows(db, key, canonical, access, route)
  {
    var sites' :| SitesOf(db, key, sites') && access == AccessFrom(db, key, sites');
    var sites :| SitesOf(db, key, sites) && route == RouteFrom(db, key, canonical, sites);
    SameSites(db, key, sites, sites');
    if key.sitePolicy == AllowList && sites == [] {
      NoSiteFollows(db, key, canonical, sites, sites');
    } else if key.modelPolicy == AllowAll {
      AnyModelFollows(db, key, canonical, sites, sites');
    } else if key.sitePolicy == AllowAll {
      AnySiteFollows(db, key, canonical);
    } else {
      ListedFollows(db, key, canonical, sites, sites');
    }
  }

  lemma SameSites(db: Database, key: ApiKey, sites: seq<Id>, sites': seq<Id>)
    requires SitesOf(db, key, sites) && SitesOf(db, key, sites')
    ensures forall s :: s in sites <==> s in sites'
    ensures sites == [] <==> sites' == []
  {
    if sites != [] { assert sites[0] in sites'; }
    if sites' != [] { assert sites'[0] in sites; }
  }

  // ----- What they mean in terms of the tables -----

  lemma {:induction false} EnabledModelsAre(ps: seq<ModelPermission>, key: Id, m: Id)
    ensures m in EnabledModels(ps, key) <==> ModelPermission(key, m, true) in ps
  {
    if ps != [] {
      EnabledModelsAre(ps[..|ps| - 1], key, m);
      assert ps == ps[..|ps| - 1] + [ps[|ps| - 1]];
    }
  }

  /** The key has an enabled permission for the site model, on a granted site under a site list. */
  ghost predicate Permitted(db: Database, key: ApiKey, m: Id) {
    && ModelPermission(key.id, m, true) in db.modelPermissions
    && (key.sitePolicy == AllowList ==> m in db.siteModels && Effective(db, key.id, db.siteModels[m].site))
  }

  /** Under a model list, the access sets hold exactly the permitted site models. */
  lemma AccessIsPermitted(db: Database, key: ApiKey, access: Resolution, m: Id)
    requires IsAccess(db, key, access) && access.Resolved? && key.modelPolicy == AllowList
    ensures m in access.models <==> Permitted(db, key, m)
  {
    var sites :| SitesOf(db, key, sites) && access == AccessFrom(db, key, sites);
    EnabledModelsAre(db.modelPermissions, key.id, m);
    FilterMembers(EnabledModels(db.modelPermissions, key.id), OnSites(db, sites));
  }

  /** Resolving fails exactly when both policies are lists, a site is granted, and an enabled
      permission names a site model that is gone. */
  lemma AccessFailsIff(db: Database, key: ApiKey, access: Resolution)
    requires IsAccess(db, key, access)
    ensures access.LookupFailed? <==>
            && key.sitePolicy == AllowList && key.modelPolicy == AllowList
            && (exists s :: Effective(db, key.id, s))
            && (exists m :: ModelPermission(key.id, m, true) in db.modelPermissions && m !in db.siteModels)
  {
    var sites :| SitesOf(db, key, sites) && access == AccessFrom(db, key, sites);
    var models := EnabledModels(db.modelPermissions, key.id);
    forall m ensures m in models <==> ModelPermission(key.id, m, true) in db.modelPermissions {
      EnabledModelsAre(db.modelPermissions, key.id, m);
    }
    if key.sitePolicy == AllowList && sites != [] { assert sites[0] in sites; }
  }

  /** The site model is permitted and bound to the canonical model. */
  ghost predicate Routable(db: Database, key: ApiKey, canonical: Id, m: Id) {
    && m != "00000000-0000-0000-0000-000000000000" && Permitted(db, key, m)
    && m in db.siteModels && db.siteModels[m].canonical == Some(canonical)
  }

  /** An allowed route lists exactly the granted sites and, under a model list, exactly the
      routable site models. */
  lemma RouteIsPermitted(db: Database, key: ApiKey, canonical: Id, route: Route)
    requires IsRoute(db, key, canonical, route) && route.Allowed?
    ensures key.sitePolicy == AllowList ==> forall s :: s in route.sites <==> Effective(db, key.id, s)
    ensures key.modelPolicy == AllowList ==> forall m :: m in route.models <==> Routable(db, key, canonical, m)
  {
    var sites :| SitesOf(db, key, sites) && route == RouteFrom(db, key, canonical, sites);
    if key.modelPolicy == AllowList {
      RouteByLeft(db, key, canonical, sites);
      forall m ensures m in route.models <==> Routable(db, key, canonical, m) {
        LeftIsRoutable(db, key, canonical, sites, m);
      }
    }
  }

  lemma SitesAreRefusedIff(db: Database, key: ApiKey, canonical: Id, sites: seq<Id>)
    requires SitesOf(db, key, sites)
    ensures RouteFrom(db, key, canonical, sites).SiteNotAllowed? <==>
            key.sitePolicy == AllowList && forall s :: !Effective(db, key.id, s)
  {
    if key.sitePolicy == AllowList && sites != [] { assert Effective(db, key.id, sites[0]); }
  }

  /** The bound models left after the site filter are the routable ones. */
  lemma LeftIsRoutable(db: Database, key: ApiKey, canonical: Id, sites: seq<Id>, m: Id)
    requires SitesOf(db, key, sites)
    ensures var bound := Filter(EnabledModels(db.modelPermissions, key.id), BoundTo(db, canonical));
            key.sitePolicy == AllowAll ==> (m in bound <==> Routable(db, key, canonical, m))
    ensures var bound := Filter(EnabledModels(db.modelPermissions, key.id), BoundTo(db, canonical));
            key.sitePolicy == AllowList ==>
              (m in Filter(bound, OnSites(db, sites)) <==> Routable(db, key, canonical, m))
  {
    var enabled := EnabledModels(db.modelPermissions, key.id);
    EnabledModelsAre(db.modelPermissions, key.id, m);
    FilterMembers(enabled, BoundTo(db, canonical));
    FilterMembers(Filter(enabled, BoundTo(db, canonical)), OnSites(db, sites));
  }

  /** What the route lists when it lists site models. */
  function Left(db: Database, key: ApiKey, canonical: Id, sites: seq<Id>): seq<Id> {
    var bound := Filter(EnabledModels(db.modelPermissions, key.id), BoundTo(db, canonical));
    if sites == [] then bound else Filter(bound, OnSites(db, sites))
  }

  lemma RouteByLeft(db: Database, key: ApiKey, canonical: Id, sites: seq<Id>)
    requires key.modelPolicy == AllowList && !(key.sitePolicy == AllowList && sites == [])
    ensures RouteFrom(db, key, canonical, sites) ==
            if Left(db, key, canonical, sites) == [] then ModelNotAllowed
            else Allowed(sites, Left(db, key, canonical, sites))
  {
    BoundModelsAreKnown(db, EnabledModels(db.modelPermissions, key.id), canonical);
    assert Filter([], OnSites(db, sites)) == [];
  }

  lemma ModelsAreRefusedIff(db: Database, key: ApiKey, canonical: Id, sites: seq<Id>)
    requires SitesOf(db, key, sites) && key.modelPolicy == AllowList && !(key.sitePolicy == AllowList && sites == [])
    ensures Left(db, key, canonical, sites) == [] <==> forall m :: !Routable(db, key, canonical, m)
  {
    var left := Left(db, key, canonical, sites);
    forall m ensures m in left <==> Routable(db, key, canonical, m) { LeftIsRoutable(db, key, canonical, sites, m); }
    if left != [] { assert left[0] in left; }
  }

  /** A route is refused for its sites exactly when a list grants none, and for its models exactly
      when a list leaves nothing routable; otherwise it is allowed. */
  lemma RouteIsRefusedIff(db: Database, key: ApiKey, canonical: Id, route: Route)
    requires IsRoute(db, key, canonical, route)
    ensures !route.RouteLookupFailed?
    ensures route.SiteNotAllowed? <==> key.sitePolicy == AllowList && forall s :: !Effective(db, key.id, s)
    ensures route.ModelNotAllowed? <==>
            && !route.SiteNotAllowed? && key.modelPolicy == AllowList
            && forall m :: !Routable(db, key, canonical, m)
  {
    var sites :| SitesOf(db, key, sites) && route == RouteFrom(db, key, canonical, sites);
    SitesAreRefusedIff(db, key, canonical, sites);
    if key.modelPolicy == AllowList && !(key.sitePolicy == AllowList && sites == []) {
      RouteByLeft(db, key, canonical, sites);
      ModelsAreRefusedIff(db, key, canonical, sites);
    }
  }
}
