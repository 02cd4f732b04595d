/** The database rows the site-status logic reads, one datatype per table,
    and the two collaborators it calls but does not own. Only the columns
    that the logic selects or filters on are kept. */
module Records {
  import opened Wrappers

  /** Record IDs are auto-increment keys, so they are never 0 (and thus
      always truthy in the source's `if row_id:` tests). */
  type Id = x: int | x > 0 witness 1

  /** org_organisation. */
  datatype Organisation = Organisation(id: Id, rootOrganisation: Option<Id>, peId: Id)

  /** org_site: `instanceType` is the name of the table that holds the
      site's own record, e.g. "cr_shelter". */
  datatype Site = Site(siteId: Id, instanceType: string, organisationId: Option<Id>)

  /** cr_shelter. */
  datatype Shelter = Shelter(id: Id, siteId: Id)

  /** cr_shelter_registration. */
  datatype ShelterRegistration =
    ShelterRegistration(shelterId: Id, personId: Id, registrationStatus: int, deleted: bool)

  /** dvr_case_status. */
  datatype CaseStatus = CaseStatus(id: Id, isClosed: bool)

  /** dvr_case. */
  datatype CaseFile =
    CaseFile(id: Id, personId: Id, organisationId: Option<Id>, statusId: Id, deleted: bool)

  /** dvr_case_flag. */
  datatype CaseFlag = CaseFlag(
    id: Id,
    name: string,
    denyCheckIn: bool,
    denyCheckOut: bool,
    adviseAtCheckIn: bool,
    adviseAtCheckOut: bool,
    adviseAtIdCheck: bool,
    instructions: Option<string>,
    deleted: bool)

  /** dvr_case_flag_case: assigns a flag to a person. */
  datatype FlagLink = FlagLink(personId: Id, flagId: Id, deleted: bool)

  /** hrm_human_resource. */
  datatype HumanResource =
    HumanResource(personId: Id, organisationId: Option<Id>, status: int, deleted: bool)

  /** The tables, each in the order the database returns its rows. */
  datatype Database = Database(
    sites: seq<Site>,
    organisations: seq<Organisation>,
    shelters: seq<Shelter>,
    registrations: seq<ShelterRegistration>,
    cases: seq<CaseFile>,
    caseStatuses: seq<CaseStatus>,
    flags: seq<CaseFlag>,
    flagLinks: seq<FlagLink>,
    humanResources: seq<HumanResource>)

  /** Code the site-status logic calls but that is not part of this model:
      `presence(person, site)` is the first element of
      `SitePresence.status(person_id, site_id)`, and `ancestors(pe)` is
      `pr_get_ancestors(pe_id)`, the person entities above `pe`. */
  datatype Collaborators = Collaborators(presence: (Id, Id) -> string, ancestors: Id -> seq<Id>)
}
