/** Tenant sites and their per-site configuration, including the hook that
    provisions a configuration row when a site is saved
    (job_board/models.py, `generate_site_config` and `SiteConfig`). */
module Sites {
  import opened Wrappers
  import opened Seqs

  /** A tenant of the framework's multi-site registry. It is not owned by the
      job board; only its identity, domain and display name are used. */
  datatype Site = Site(id: nat, domain: string, name: string)

  /** One configuration row. `expireAfter` is the listing lifetime in days. */
  datatype SiteConfig = SiteConfig(siteId: nat, adminEmail: string, expireAfter: int)

  /** Column default of `expire_after`. */
  const DefaultExpireAfter: int := 30

  /** The only way the provisioning lookup can fail: the `get` half of
      get-or-create finds more than one row. */
  datatype ProvisionError = MultipleObjectsReturned

  /** The administrator address provisioning derives from a site's domain. */
  function AdminEmailFor(site: Site): string {
    "admin@" + site.domain
  }

  /** Row selector for the configurations of one site. */
  function ForSite(siteId: nat): SiteConfig -> bool {
    (c: SiteConfig) => c.siteId == siteId
  }

  /** Row selector for the get-or-create lookup: both fields must match. */
  function MatchesKey(siteId: nat, adminEmail: string): SiteConfig -> bool {
    (c: SiteConfig) => c.siteId == siteId && c.adminEmail == adminEmail
  }

  /** Some row carries both the site and the administrator address. */
  predicate HasKey(configs: seq<SiteConfig>, siteId: nat, adminEmail: string) {
    exists i :: 0 <= i < |configs| && configs[i].siteId == siteId && configs[i].adminEmail == adminEmail
  }

  predicate HasConfigFor(configs: seq<SiteConfig>, siteId: nat) {
    exists i :: 0 <= i < |configs| && configs[i].siteId == siteId
  }

  /** Position of the row that `site.siteconfig_set.first()` returns: the
      configuration of `siteId` with the smallest primary key, rows being
      kept in primary-key order. */
  function FirstConfigIndex(configs: seq<SiteConfig>, siteId: nat): (r: Option<nat>)
    ensures r.Some? ==> r.value < |configs| && configs[r.value].siteId == siteId
    ensures r.Some? ==> forall k :: 0 <= k < r.value ==> configs[k].siteId != siteId
    ensures r.None? <==> !HasConfigFor(configs, siteId)
  {
    if |configs| == 0 then None
    else if configs[0].siteId == siteId then Some(0)
    else
      match FirstConfigIndex(configs[1..], siteId)
      case None => None
      case Some(k) => Some(k + 1)
  }

  /** `SiteConfig.objects.get_or_create(site=..., admin_email=...)`: when no
      row matches both fields a row carrying them and the default lifetime is
      appended; when exactly one matches nothing changes; when several match
      the lookup fails. Existing rows are never modified. */
  function GetOrCreate(configs: seq<SiteConfig>, siteId: nat, adminEmail: string)
    : (r: Result<seq<SiteConfig>, ProvisionError>)
    ensures r.Success? <==> |Filter(configs, MatchesKey(siteId, adminEmail))| <= 1
    ensures r.Success? ==> configs <= r.value
    ensures r.Success? ==> |Filter(r.value, MatchesKey(siteId, adminEmail))| == 1
    ensures r.Success? ==> HasKey(r.value, siteId, adminEmail)
    ensures r.Success? && |r.value| != |configs| ==>
              r.value == configs + [SiteConfig(siteId, adminEmail, DefaultExpireAfter)]
    ensures r.Success? && |r.value| != |configs| ==>
              Filter(configs, MatchesKey(siteId, adminEmail)) == []
  {
    var found := Filter(configs, MatchesKey(siteId, adminEmail));
    if |found| == 0 then
      var row := SiteConfig(siteId, adminEmail, DefaultExpireAfter);
      FilterAppend(configs, row, MatchesKey(siteId, adminEmail));
      assert (configs + [row])[|configs|] == row;
      Success(configs + [row])
    else if |found| == 1 then
      assert MatchesKey(siteId, adminEmail)(found[0]);
      assert found[0] in multiset(found);
      assert found[0] in multiset(configs);
      Success(configs)
    else Failure(MultipleObjectsReturned)
  }

  /** The post-save hook for a site. `created` is the flag the signal may
      carry; when it is absent the save is treated as a creation. */
  function GenerateSiteConfig(configs: seq<SiteConfig>, site: Site, created: Option<bool>)
    : (r: Result<seq<SiteConfig>, ProvisionError>)
    ensures created == Some(false) ==> r == Success(configs)
    ensures created != Some(false) && r.Success? ==>
              HasKey(r.value, site.id, AdminEmailFor(site))
    ensures r.Success? ==> configs <= r.value && |r.value| <= |configs| + 1
    ensures r.Failure? ==> created != Some(false)
    ensures created != Some(false) ==>
              (r.Success? <==> |Filter(configs, MatchesKey(site.id, AdminEmailFor(site)))| <= 1)
    ensures r.Success? && |r.value| != |configs| ==>
              r.value == configs + [SiteConfig(site.id, AdminEmailFor(site), 30)]
    ensures created != Some(false) && r.Success? && |r.value| != |configs| ==>
              Filter(configs, MatchesKey(site.id, AdminEmailFor(site))) == []
    ensures created != Some(false) && r.Success? ==>
              |Filter(r.value, MatchesKey(site.id, AdminEmailFor(site)))| == 1
  {
    if created.GetOr(true) then
      GetOrCreate(configs, site.id, AdminEmailFor(site))
    else Success(configs)
  }

  /** Saving a site whose configuration is already in place provisions
      nothing further: the hook is idempotent. */
  lemma GenerateIdempotent(configs: seq<SiteConfig>, site: Site, created: Option<bool>)
    requires GenerateSiteConfig(configs, site, created).Success?
    ensures GenerateSiteConfig(GenerateSiteConfig(configs, site, created).value, site, created)
            == GenerateSiteConfig(configs, site, created)
  {
  }

  /** A site with no configuration yet ends up with exactly one, carrying the
      derived administrator address and the default lifetime of 30 days. */
  lemma FreshSiteGetsOneConfig(configs: seq<SiteConfig>, site: Site, created: Option<bool>)
    requires !HasConfigFor(configs, site.id)
    requires created != Some(false)
    ensures GenerateSiteConfig(configs, site, created)
            == Success(configs + [SiteConfig(site.id, AdminEmailFor(site), 30)])
    ensures Filter(GenerateSiteConfig(configs, site, created).value, ForSite(site.id))
            == [SiteConfig(site.id, AdminEmailFor(site), 30)]
  {
    var row := SiteConfig(site.id, AdminEmailFor(site), DefaultExpireAfter);
    FilterNone(configs, MatchesKey(site.id, AdminEmailFor(site)));
    FilterNone(configs, ForSite(site.id));
    FilterAppend(configs, row, ForSite(site.id));
  }

  /** The lookup key is the site together with the administrator address: a
      site whose only configuration has had its address changed receives a
      second configuration when it is saved as created. */
  lemma AdminEmailIsPartOfKey(configs: seq<SiteConfig>, site: Site, created: Option<bool>)
    requires HasConfigFor(configs, site.id)
    requires !HasKey(configs, site.id, AdminEmailFor(site))
    requires created != Some(false)
    ensures GenerateSiteConfig(configs, site, created).Success?
    ensures |Filter(GenerateSiteConfig(configs, site, created).value, ForSite(site.id))|
            == |Filter(configs, ForSite(site.id))| + 1 >= 2
  {
    var email := AdminEmailFor(site);
    var row := SiteConfig(site.id, email, DefaultExpireAfter);
    FilterNone(configs, MatchesKey(site.id, email));
    FilterAppend(configs, row, ForSite(site.id));
    var i :| 0 <= i < |configs| && configs[i].siteId == site.id;
    assert configs[i] in Filter(configs, ForSite(site.id));
  }

  /** Two rows already matching the lookup key make the hook fail rather
      than choose one of them. */
  lemma DuplicateKeyFails(configs: seq<SiteConfig>, site: Site, created: Option<bool>, i: int, j: int)
    requires 0 <= i < j < |configs|
    requires configs[i].siteId == configs[j].siteId == site.id
    requires configs[i].adminEmail == configs[j].adminEmail == AdminEmailFor(site)
    requires created != Some(false)
    ensures GenerateSiteConfig(configs, site, created) == Failure(MultipleObjectsReturned)
  {
    FilterTwo(configs, i, j, MatchesKey(site.id, AdminEmailFor(site)));
  }
}
