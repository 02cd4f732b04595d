/** Whether a person may be registered at a site, whether they may enter
    and leave it, and what the reception staff must be told
    (modules/templates/MRCMS/customise/cr.py, lines 13-232). */
module SiteAccess {
  import opened Wrappers
  import opened Records
  import opened Lookups
  import opened CaseFlags

  /** The result dict: `error` and `info` are keys that may be absent. */
  datatype SiteStatus = SiteStatus(
    valid: bool,
    allowedIn: bool,
    allowedOut: bool,
    error: Option<string>,
    info: Option<seq<Advisory>>)

  /** The `instance_type` of a shelter site. */
  const ShelterType: string := "cr_shelter"

  const InvalidSiteError: string := "Invalid site"
  const ClosedCaseError: string := "Closed case"
  const NotResidentError: string := "Not currently a resident"
  const NotStaffError: string := "Neither currently a resident nor active staff member"

  /** The dict every status function starts from: nothing allowed. */
  const Denied: SiteStatus := SiteStatus(false, false, false, None, None)

  /** A refusal with an error message. */
  function Rejected(message: string): SiteStatus
  {
    Denied.(error := Some(message))
  }

  /** `result["info"]` is only set when at least one advisory was found. */
  function InfoOf(advisories: seq<Advisory>): (info: Option<seq<Advisory>>)
    ensures info.None? <==> advisories == []
    ensures info.Some? ==> info.value == advisories
  {
    if advisories == [] then None else Some(advisories)
  }

  /** `base.update(other)`: `valid`, `allowed_in` and `allowed_out` are
      always keys of `other`; `error` and `info` only when present. */
  function Update(base: SiteStatus, other: SiteStatus): (r: SiteStatus)
    ensures r.valid == other.valid && r.allowedIn == other.allowedIn && r.allowedOut == other.allowedOut
    ensures r.error.Some? <==> other.error.Some? || base.error.Some?
    ensures r.info.Some? <==> other.info.Some? || base.info.Some?
    ensures other.error.Some? ==> r.error == other.error
    ensures other.info.Some? ==> r.info == other.info
    ensures other.error.None? ==> r.error == base.error
    ensures other.info.None? ==> r.info == base.info
    ensures base == Denied ==> r == other
  {
    SiteStatus(other.valid, other.allowedIn, other.allowedOut,
               if other.error.Some? then other.error else base.error,
               if other.info.Some? then other.info else base.info)
  }

  /** Gives an invalid result without an error message the fallback
      message; any other result is left as it is. */
  function WithDefaultError(r: SiteStatus, message: string): (d: SiteStatus)
    ensures d.valid == r.valid && d.allowedIn == r.allowedIn && d.allowedOut == r.allowedOut
    ensures d.info == r.info
    ensures d.error.None? <==> r.valid && r.error.None?
    ensures r.error.Some? ==> d.error == r.error
    ensures !r.valid && r.error.None? ==> d.error == Some(message)
  {
    if !r.valid && r.error.None? then r.(error := Some(message)) else r
  }

  // ---------------------------------------------------------------------
  // client_site_status (cr.py:13-116)

  /** What `client_site_status` returns: a closed case is refused with an
      error before anything else is looked at; at a shelter, a person who
      is not a current resident is refused without one; otherwise the
      person is valid, entry and leaving are what the assigned flags allow,
      and the advisories are those of the shown flags. */
  function ClientStatus(db: Database, env: Collaborators, personId: Id, siteId: Id,
                        siteType: string, caseStatus: CaseStatus): (r: SiteStatus)
    ensures r.error.Some? <==> caseStatus.isClosed
    ensures !r.valid ==> !r.allowedIn && !r.allowedOut && r.info.None?
  {
    if caseStatus.isClosed then Rejected(ClosedCaseError)
    else if siteType == ShelterType && !IsResident(db, personId, siteId) then Denied
    else
      var flags := AssignedFlags(db, personId);
      SiteStatus(true,
                 AllowsEntry(flags),
                 AllowsExit(flags),
                 None,
                 InfoOf(Advisories(flags, env.presence(personId, siteId))))
  }

  /** The `for flag in flags` loop of `client_site_status`: entry and
      leaving start allowed and each flag can only withdraw them; each
      shown flag appends its advisory (cr.py:64-109). */
  method CheckFlags(flags: seq<CaseFlag>, presence: string)
    returns (allowedIn: bool, allowedOut: bool, info: seq<Advisory>)
    ensures allowedIn == AllowsEntry(flags)
    ensures allowedOut == AllowsExit(flags)
    ensures info == Advisories(flags, presence)
  {
    allowedIn, allowedOut := true, true;
    info := [];
    for i := 0 to |flags|
      invariant allowedIn == AllowsEntry(flags[..i])
      invariant allowedOut == AllowsExit(flags[..i])
      invariant info == Advisories(flags[..i], presence)
    {
      var flag := flags[i];
      assert flags[..i + 1][..i] == flags[..i] && flags[..i + 1][i] == flag;
      // A single denying flag closes that direction for good.
      if flag.denyCheckIn {
        allowedIn := false;
      }
      if flag.denyCheckOut {
        allowedOut := false;
      }
      // Shown flags contribute their advisory, in flag order.
      if Advise(flag, presence) {
        info := info + [AdvisoryOf(flag)];
      }
    }
    assert flags[..|flags|] == flags;
  }

  method ClientSiteStatus(db: Database, env: Collaborators, personId: Id, siteId: Id,
                          siteType: string, caseStatus: CaseStatus)
    returns (result: SiteStatus)
    ensures result == ClientStatus(db, env, personId, siteId, siteType, caseStatus)
  {
    result := Denied;

    if caseStatus.isClosed {
      result := result.(error := Some(ClosedCaseError));
      return;
    }

    if siteType == ShelterType {
      // Only the first matching registration decides residency.
      var registration := FirstRegistration(db, personId, siteId);
      if registration.None? || db.registrations[registration.value].registrationStatus == CheckedOut {
        return;
      }
    }

    result := result.(valid := true);

    // Selects which advise settings apply.
    var presence := env.presence(personId, siteId);

    var flags := AssignedFlags(db, personId);
    var allowedIn, allowedOut, info := CheckFlags(flags, presence);

    if info != [] {
      result := result.(info := Some(info));
    }
    result := result.(allowedIn := allowedIn, allowedOut := allowedOut);
  }

  // ---------------------------------------------------------------------
  // staff_site_status (cr.py:119-146)

  /** A person without a case is valid, and may enter and leave, exactly
      when they have an active staff record in the scope. */
  function StaffSiteStatus(db: Database, personId: Id, scope: seq<Id>): (r: SiteStatus)
    ensures r.valid == r.allowedIn == r.allowedOut
    ensures r.valid <==> exists h <- db.humanResources :: ActiveStaffRecord(h, personId, scope)
    ensures r.error.None? && r.info.None?
  {
    var valid := IsActiveStaff(db, personId, scope);
    SiteStatus(valid, valid, valid, None, None)
  }

  // ---------------------------------------------------------------------
  // person_site_status (cr.py:149-232)

  /** What `person_site_status` returns. A person for whom the case query
      finds no row goes to the staff branch: see CaseTestAsWritten for what
      the source does instead. */
  function PersonStatus(db: Database, env: Collaborators, siteId: Id, personId: Id): (r: SiteStatus)
    ensures r.error.None? <==> r.valid
    ensures !r.valid ==> !r.allowedIn && !r.allowedOut && r.info.None?
    ensures r.info.Some? ==> r.info.value != []
  {
    match SiteOf(db, siteId)
    case None => Rejected(InvalidSiteError)
    case Some(row) =>
      var scope := OrganisationScope(db, env, row.organisation);
      match FindCase(db, personId, scope)
      case Some(found) =>
        WithDefaultError(ClientStatus(db, env, personId, siteId, row.site.instanceType, found.status),
                         NotResidentError)
      case None =>
        WithDefaultError(StaffSiteStatus(db, personId, scope), NotStaffError)
  }

  method PersonSiteStatus(db: Database, env: Collaborators, siteId: Id, personId: Id)
    returns (result: SiteStatus)
    ensures result == PersonStatus(db, env, siteId, personId)
  {
    result := Denied;

    var row := SiteOf(db, siteId);
    if row.None? {
      result := result.(error := Some(InvalidSiteError));
      return;
    }
    var site, organisation := row.value.site, row.value.organisation;

    var organisationIds := [organisation.id];
    var rootOrg := organisation.rootOrganisation;
    if rootOrg.Some? && rootOrg.value != organisation.id {
      // A distinct root widens the scope to every ancestor organisation.
      var peIds := env.ancestors(organisation.peId);
      organisationIds := organisationIds + AncestorOrganisationIds(db.organisations, peIds);
    }

    // A missing row takes the staff branch (see CaseTestAsWritten).
    var found := FindCase(db, personId, organisationIds);
    if found.Some? {
      var client := ClientSiteStatus(db, env, personId, siteId, site.instanceType, found.value.status);
      result := Update(result, client);
      if !result.valid && result.error.None? {
        result := result.(error := Some(NotResidentError));
      }
    } else {
      result := Update(result, StaffSiteStatus(db, personId, organisationIds));
      if !result.valid && result.error.None? {
        result := result.(error := Some(NotStaffError));
      }
    }
  }

  // ---------------------------------------------------------------------
  // Properties of person_site_status

  /** A site that does not resolve to an organisation is refused. */
  lemma InvalidSiteIsRefused(db: Database, env: Collaborators, siteId: Id, personId: Id)
    requires forall s <- db.sites :: s.siteId == siteId ==>
               forall o <- db.organisations :: s.organisationId != Some(o.id)
    ensures PersonStatus(db, env, siteId, personId) == SiteStatus(false, false, false, Some(InvalidSiteError), None)
  {
  }

  /** The case that `person_site_status` finds for the person at the site:
      none when the site does not resolve or no case is in its scope. */
  function CaseAtSite(db: Database, env: Collaborators, siteId: Id, personId: Id): (found: Option<CaseRow>)
    ensures found.Some? ==>
              && SiteOf(db, siteId).Some?
              && found.value.caseFile in db.cases
              && CaseMatches(db, personId, OrganisationScope(db, env, SiteOf(db, siteId).value.organisation),
                             found.value.caseFile)
    ensures SiteOf(db, siteId).Some? ==>
              (found.None? <==>
                 forall c <- db.cases ::
                   !CaseMatches(db, personId, OrganisationScope(db, env, SiteOf(db, siteId).value.organisation), c))
  {
    match SiteOf(db, siteId)
    case None => None
    case Some(row) => FindCase(db, personId, OrganisationScope(db, env, row.organisation))
  }

  /** The site resolves and is a shelter. */
  predicate IsShelterSite(db: Database, siteId: Id)
  {
    SiteOf(db, siteId).Some? && SiteOf(db, siteId).value.site.instanceType == ShelterType
  }

  /** A closed case is refused, whatever the site type, registrations and
      flags. */
  lemma ClosedCaseIsRefused(db: Database, env: Collaborators, siteId: Id, personId: Id)
    ensures var found := CaseAtSite(db, env, siteId, personId);
            found.Some? && found.value.status.isClosed ==>
              PersonStatus(db, env, siteId, personId) == SiteStatus(false, false, false, Some(ClosedCaseError), None)
  {
  }

  /** At a shelter, an open case without a current residency is refused. */
  lemma NonResidentIsRefused(db: Database, env: Collaborators, siteId: Id, personId: Id)
    ensures var found := CaseAtSite(db, env, siteId, personId);
            found.Some? && !found.value.status.isClosed && IsShelterSite(db, siteId)
            && !IsResident(db, personId, siteId) ==>
              PersonStatus(db, env, siteId, personId) == SiteStatus(false, false, false, Some(NotResidentError), None)
  {
  }

  /** An open case at a site other than a shelter, or at a shelter where
      the person is a current resident, is valid. Entry is allowed exactly
      when no live assignment to a live flag denies it, and leaving
      likewise; the advisories are those of the assigned flags. */
  lemma OpenCaseIsValid(db: Database, env: Collaborators, siteId: Id, personId: Id)
    ensures var found := CaseAtSite(db, env, siteId, personId);
            var r := PersonStatus(db, env, siteId, personId);
            found.Some? && !found.value.status.isClosed
            && (IsShelterSite(db, siteId) ==> IsResident(db, personId, siteId)) ==>
              && r.valid && r.error.None?
              && (r.allowedIn <==>
                    !exists f <- db.flags :: !f.deleted && f.denyCheckIn &&
                       exists l <- db.flagLinks :: l.personId == personId && !l.deleted && l.flagId == f.id)
              && (r.allowedOut <==>
                    !exists f <- db.flags :: !f.deleted && f.denyCheckOut &&
                       exists l <- db.flagLinks :: l.personId == personId && !l.deleted && l.flagId == f.id)
              && r.info == InfoOf(Advisories(AssignedFlags(db, personId), env.presence(personId, siteId)))
  {
    AssignedFlagsDecideEntryAndExit(db, personId);
  }

  /** Over the flags assigned to a person, entry is allowed exactly when no
      live flag with a live assignment to the person denies it, and leaving
      likewise. */
  lemma AssignedFlagsDecideEntryAndExit(db: Database, personId: Id)
    ensures AllowsEntry(AssignedFlags(db, personId)) <==>
              !exists f <- db.flags :: !f.deleted && f.denyCheckIn &&
                 exists l <- db.flagLinks :: l.personId == personId && !l.deleted && l.flagId == f.id
    ensures AllowsExit(AssignedFlags(db, personId)) <==>
              !exists f <- db.flags :: !f.deleted && f.denyCheckOut &&
                 exists l <- db.flagLinks :: l.personId == personId && !l.deleted && l.flagId == f.id
  {
    var flags := AssignedFlags(db, personId);
    AllowsExactlyWithoutDenial(flags);
    if forall k :: 0 <= k < |flags| ==> !flags[k].denyCheckIn {
      forall f <- db.flags | !f.deleted && exists l <- db.flagLinks :: l.personId == personId && !l.deleted && l.flagId == f.id
        ensures !f.denyCheckIn
      {
        assert f in flags;
      }
    }
    if forall k :: 0 <= k < |flags| ==> !flags[k].denyCheckOut {
      forall f <- db.flags | !f.deleted && exists l <- db.flagLinks :: l.personId == personId && !l.deleted && l.flagId == f.id
        ensures !f.denyCheckOut
      {
        assert f in flags;
      }
    }
  }

  /** No assignment of the person that is not deleted points to a flag
      that is not deleted. */
  predicate NoLiveFlag(db: Database, personId: Id)
  {
    forall l <- db.flagLinks :: l.personId == personId && !l.deleted ==>
      forall f <- db.flags :: f.id == l.flagId ==> f.deleted
  }

  /** With no live flag assigned, a valid client may enter and leave and
      there is nothing to advise. */
  lemma NoFlagsNoRestrictions(db: Database, env: Collaborators, siteId: Id, personId: Id)
    ensures var found := CaseAtSite(db, env, siteId, personId);
            found.Some? && !found.value.status.isClosed
            && (IsShelterSite(db, siteId) ==> IsResident(db, personId, siteId))
            && NoLiveFlag(db, personId) ==>
              PersonStatus(db, env, siteId, personId) == SiteStatus(true, true, true, None, None)
  {
    var flags := AssignedFlags(db, personId);
    if NoLiveFlag(db, personId) {
      AllowsExactlyWithoutDenial(flags);
      AdvisoriesEmpty(flags, env.presence(personId, siteId));
      assert AllowsEntry(flags) && AllowsExit(flags) && Advisories(flags, env.presence(personId, siteId)) == [];
    }
  }

  /** A person without a case in the scope of a site that resolves is
      valid, and may enter and leave, exactly when they have an active
      staff record in the scope; otherwise they are refused as neither
      resident nor staff. */
  lemma NoCaseMeansStaffCheck(db: Database, env: Collaborators, siteId: Id, personId: Id)
    ensures SiteOf(db, siteId).Some? && CaseAtSite(db, env, siteId, personId).None? ==>
              var r := PersonStatus(db, env, siteId, personId);
              var scope := OrganisationScope(db, env, SiteOf(db, siteId).value.organisation);
              && r.valid == r.allowedIn == r.allowedOut
              && (r.valid <==> exists h <- db.humanResources :: ActiveStaffRecord(h, personId, scope))
              && r.info.None?
              && (!r.valid ==> r.error == Some(NotStaffError))
  {
  }

  // ---------------------------------------------------------------------
  // The case test as the source writes it (cr.py:210-223)

  /** Which branch `if case.dvr_case.id:` takes for the query's first row,
      or the AttributeError it raises when there is none. */
  datatype CaseTest = ClientPath(row: CaseRow) | StaffPath | AttributeError

  /** The test as written: `.first()` yields None on an empty selection and
      `None.dvr_case` raises; a row's case ID is never 0, so the staff
      branch is never taken. */
  function CaseTestAsWritten(first: Option<CaseRow>): (t: CaseTest)
    ensures !t.StaffPath?
    ensures t.AttributeError? <==> first.None?
    ensures first.Some? ==> t == ClientPath(first.value)
  {
    match first
    case None => AttributeError
    case Some(row) => if row.caseFile.id != 0 then ClientPath(row) else StaffPath
  }

  /** At a site that resolves, the test as written raises exactly when the
      person has no case in the site's organisation scope: every staff
      member without a case included, where the staff branch would have
      decided. */
  lemma NoCaseRaisesAsWritten(db: Database, env: Collaborators, siteId: Id, personId: Id)
    ensures SiteOf(db, siteId).Some? ==>
              var scope := OrganisationScope(db, env, SiteOf(db, siteId).value.organisation);
              var raises := CaseTestAsWritten(CaseAtSite(db, env, siteId, personId)) == AttributeError;
              && (raises <==> forall c <- db.cases :: !CaseMatches(db, personId, scope, c))
              && (raises ==> PersonStatus(db, env, siteId, personId).valid == IsActiveStaff(db, personId, scope))
  {
  }
}
