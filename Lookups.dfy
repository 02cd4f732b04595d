/** The database queries of the site-status logic, each a first-row or
    all-rows selection over the tables in Records. */
module Lookups {
  import opened Wrappers
  import opened Query
  import opened Records

  // ---------------------------------------------------------------------
  // Site and organisation scope

  /** The org_site row joined with its org_organisation row. */
  datatype SiteRow = SiteRow(site: Site, organisation: Organisation)

  /** The organisation that the inner join `otable.id == stable.organisation_id`
      pairs with site `s`, if any. */
  function OrganisationOf(organisations: seq<Organisation>, s: Site): (r: Option<Organisation>)
    ensures r.None? <==> forall o <- organisations :: s.organisationId != Some(o.id)
    ensures r.Some? ==> r.value in organisations && s.organisationId == Some(r.value.id)
  {
    if s.organisationId.None? then None
    else match FirstIndex(organisations, (o: Organisation) => o.id == s.organisationId.value)
      case None => None
      case Some(k) => Some(organisations[k])
  }

  /** The first site row with this site ID that joins with an organisation
      (cr.py:177-190). Site IDs are the site table's unique key, so at most
      one row has the ID; the model does not rely on that. */
  function SiteOf(db: Database, siteId: Id): (r: Option<SiteRow>)
    ensures r.None? <==>
              forall s <- db.sites :: s.siteId == siteId ==>
                forall o <- db.organisations :: s.organisationId != Some(o.id)
    ensures r.Some? ==>
              && r.value.site in db.sites
              && r.value.site.siteId == siteId
              && r.value.organisation in db.organisations
              && r.value.site.organisationId == Some(r.value.organisation.id)
    ensures r.Some? ==>
              exists k :: 0 <= k < |db.sites| && db.sites[k] == r.value.site
                          && forall j :: 0 <= j < k ==>
                               db.sites[j].siteId != siteId || OrganisationOf(db.organisations, db.sites[j]).None?
  {
    match FirstIndex(db.sites, (s: Site) => s.siteId == siteId && OrganisationOf(db.organisations, s).Some?)
    case None => None
    case Some(k) => Some(SiteRow(db.sites[k], OrganisationOf(db.organisations, db.sites[k]).value))
  }

  /** `[row.id for row in rows]` where `rows` are the organisations whose
      person entity is one of `peIds` (cr.py:200-202). */
  function AncestorOrganisationIds(organisations: seq<Organisation>, peIds: seq<Id>): (ids: seq<Id>)
    ensures |ids| <= |organisations|
    ensures forall x :: x in ids <==> exists o <- organisations :: o.peId in peIds && o.id == x
  {
    if organisations == [] then []
    else
      var o := organisations[0];
      (if o.peId in peIds then [o.id] else []) + AncestorOrganisationIds(organisations[1..], peIds)
  }

  /** The organisation's root is set and is not the organisation itself. */
  predicate HasDistinctRoot(o: Organisation)
  {
    o.rootOrganisation.Some? && o.rootOrganisation.value != o.id
  }

  /** The organisations whose cases and staff count at a site owned by `o`:
      `o` itself first, then, only when `o` has a distinct root, every
      organisation whose person entity is an ancestor of `o`'s
      (cr.py:195-202). */
  function OrganisationScope(db: Database, env: Collaborators, o: Organisation): (scope: seq<Id>)
    ensures |scope| >= 1 && scope[0] == o.id
    ensures !HasDistinctRoot(o) ==> scope == [o.id]
    ensures forall x :: x in scope <==>
              || x == o.id
              || (HasDistinctRoot(o) &&
                  exists a <- db.organisations :: a.peId in env.ancestors(o.peId) && a.id == x)
  {
    [o.id] + (if HasDistinctRoot(o) then AncestorOrganisationIds(db.organisations, env.ancestors(o.peId)) else [])
  }

  // ---------------------------------------------------------------------
  // Case file

  /** The dvr_case row joined with its dvr_case_status row. */
  datatype CaseRow = CaseRow(caseFile: CaseFile, status: CaseStatus)

  function StatusOf(statuses: seq<CaseStatus>, c: CaseFile): (r: Option<CaseStatus>)
    ensures r.None? <==> forall st <- statuses :: st.id != c.statusId
    ensures r.Some? ==> r.value in statuses && r.value.id == c.statusId
  {
    match FirstIndex(statuses, (st: CaseStatus) => st.id == c.statusId)
    case None => None
    case Some(k) => Some(statuses[k])
  }

  /** The case query's filter (cr.py:205-209). Note that it does not
      exclude deleted cases. */
  predicate CaseMatches(db: Database, personId: Id, scope: seq<Id>, c: CaseFile)
  {
    && c.personId == personId
    && c.organisationId.Some? && c.organisationId.value in scope
    && StatusOf(db.caseStatuses, c).Some?
  }

  /** The first case of the person in one of the scope's organisations that
      has a status, joined with that status (cr.py:205-213). */
  function FindCase(db: Database, personId: Id, scope: seq<Id>): (r: Option<CaseRow>)
    ensures r.None? <==> forall c <- db.cases :: !CaseMatches(db, personId, scope, c)
    ensures r.Some? ==>
              && r.value.caseFile in db.cases
              && CaseMatches(db, personId, scope, r.value.caseFile)
              && r.value.status in db.caseStatuses
              && r.value.status.id == r.value.caseFile.statusId
    ensures r.Some? ==>
              exists k :: 0 <= k < |db.cases| && db.cases[k] == r.value.caseFile
                          && forall j :: 0 <= j < k ==> !CaseMatches(db, personId, scope, db.cases[j])
  {
    match FirstIndex(db.cases, (c: CaseFile) => CaseMatches(db, personId, scope, c))
    case None => None
    case Some(k) => Some(CaseRow(db.cases[k], StatusOf(db.caseStatuses, db.cases[k]).value))
  }

  /** The non-deleted case guard of the last-seen update (cr.py:248-250). */
  predicate HasLiveCase(c: CaseFile, personId: Id)
  {
    c.personId == personId && !c.deleted
  }

  /** The person has a case file that is not deleted, in any organisation
      and whatever its status (cr.py:248-251). */
  function HasCaseFile(db: Database, personId: Id): (b: bool)
    ensures b <==> exists c <- db.cases :: c.personId == personId && !c.deleted
  {
    FirstIndex(db.cases, (c: CaseFile) => HasLiveCase(c, personId)).Some?
  }

  // ---------------------------------------------------------------------
  // Shelter registration

  /** The `registration_status` of a registration that has been checked out. */
  const CheckedOut: int := 3

  /** The registration query's filter (cr.py:45-49). */
  predicate RegistrationMatches(db: Database, personId: Id, siteId: Id, r: ShelterRegistration)
  {
    && r.personId == personId
    && !r.deleted
    && exists s <- db.shelters :: s.id == r.shelterId && s.siteId == siteId
  }

  /** The first non-deleted registration of the person at the shelter that
      is site `siteId` (cr.py:45-53). */
  function FirstRegistration(db: Database, personId: Id, siteId: Id): (r: Option<nat>)
    ensures r.Some? ==>
              && r.value < |db.registrations|
              && RegistrationMatches(db, personId, siteId, db.registrations[r.value])
              && forall j :: 0 <= j < r.value ==> !RegistrationMatches(db, personId, siteId, db.registrations[j])
    ensures r.None? <==> forall x <- db.registrations :: !RegistrationMatches(db, personId, siteId, x)
  {
    FirstIndex(db.registrations, (r: ShelterRegistration) => RegistrationMatches(db, personId, siteId, r))
  }

  /** The person is a current resident of the shelter: the first matching
      registration exists and is not checked out; a later registration is
      never looked at (cr.py:50-56). */
  predicate IsResident(db: Database, personId: Id, siteId: Id): (b: bool)
    ensures b <==>
              exists k :: 0 <= k < |db.registrations|
                          && RegistrationMatches(db, personId, siteId, db.registrations[k])
                          && db.registrations[k].registrationStatus != CheckedOut
                          && forall j :: 0 <= j < k ==> !RegistrationMatches(db, personId, siteId, db.registrations[j])
  {
    match FirstRegistration(db, personId, siteId)
    case None => false
    case Some(k) => db.registrations[k].registrationStatus != CheckedOut
  }

  // ---------------------------------------------------------------------
  // Case flags

  /** The non-deleted flags with ID `flagId`, in table order. */
  function LiveFlagsWithId(flags: seq<CaseFlag>, flagId: Id): (r: seq<CaseFlag>)
    ensures forall f :: f in r <==> f in flags && f.id == flagId && !f.deleted
  {
    if flags == [] then []
    else
      (if flags[0].id == flagId && !flags[0].deleted then [flags[0]] else [])
      + LiveFlagsWithId(flags[1..], flagId)
  }

  /** The join of the non-deleted links of the person with the non-deleted
      flags they point to, link by link. */
  function FlagsOfLinks(links: seq<FlagLink>, flags: seq<CaseFlag>, personId: Id): (r: seq<CaseFlag>)
    ensures forall f :: f in r <==>
              && f in flags && !f.deleted
              && exists l <- links :: l.personId == personId && !l.deleted && l.flagId == f.id
  {
    if links == [] then []
    else
      var l := links[0];
      (if l.personId == personId && !l.deleted then LiveFlagsWithId(flags, l.flagId) else [])
      + FlagsOfLinks(links[1..], flags, personId)
  }

  /** A single link contributes the live flags with its flag id when the
      link is the person's and not deleted, and nothing otherwise. */
  lemma FlagsOfOneLink(l: FlagLink, flags: seq<CaseFlag>, personId: Id)
    ensures FlagsOfLinks([l], flags, personId)
            == if l.personId == personId && !l.deleted then LiveFlagsWithId(flags, l.flagId) else []
  {
    assert [l][1..] == [];
  }

  /** The join yields one group of rows per link, in link order: two live
      links to the same flag give that flag twice. */
  lemma {:induction false} FlagsOfLinksAppend(xs: seq<FlagLink>, ys: seq<FlagLink>, flags: seq<CaseFlag>, personId: Id)
    ensures FlagsOfLinks(xs + ys, flags, personId) == FlagsOfLinks(xs, flags, personId) + FlagsOfLinks(ys, flags, personId)
  {
    if xs != [] {
      assert (xs + ys)[0] == xs[0];
      assert (xs + ys)[1..] == xs[1..] + ys;
      FlagsOfLinksAppend(xs[1..], ys, flags, personId);
    } else {
      assert xs + ys == ys;
    }
  }

  /** The flags assigned to the person, counting a flag only when both the
      assignment and the flag are not deleted (cr.py:67-81). */
  function AssignedFlags(db: Database, personId: Id): (r: seq<CaseFlag>)
    ensures forall f :: f in r <==>
              && f in db.flags && !f.deleted
              && exists l <- db.flagLinks :: l.personId == personId && !l.deleted && l.flagId == f.id
  {
    FlagsOfLinks(db.flagLinks, db.flags, personId)
  }

  // ---------------------------------------------------------------------
  // Staff

  /** The `status` of an active human resource record. */
  const ActiveStaff: int := 1

  /** The staff query's filter (cr.py:133-137). */
  predicate ActiveStaffRecord(h: HumanResource, personId: Id, scope: seq<Id>)
  {
    && h.personId == personId
    && h.organisationId.Some? && h.organisationId.value in scope
    && h.status == ActiveStaff
    && !h.deleted
  }

  /** Some active, non-deleted staff record of the person exists in one of
      the scope's organisations (cr.py:133-140). */
  function IsActiveStaff(db: Database, personId: Id, scope: seq<Id>): (b: bool)
    ensures b <==> exists h <- db.humanResources :: ActiveStaffRecord(h, personId, scope)
  {
    FirstIndex(db.humanResources, (h: HumanResource) => ActiveStaffRecord(h, personId, scope)).Some?
  }
}
