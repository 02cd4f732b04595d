# Site presence authorisation (MRCMS shelter management)

A Dafny model of the logic that decides, when a person is presented at a
site (a shelter or another facility), three things:

- whether the person can be registered there at all (`valid`, with an
  `error` message when not);
- whether they may enter (`allowed_in`) and whether they may leave
  (`allowed_out`);
- which advisories the reception staff must see (`info`).

The logic is `person_site_status`, `client_site_status`,
`staff_site_status` and `on_site_presence_event` in
`modules/templates/MRCMS/customise/cr.py`. The database is a value of type
`Records.Database`: one sequence of rows per table, in the order the
database returns them. A `limitby=(0, 1)` select followed by `.first()` is
`Query.FirstIndex`, the first matching row in sequence order.

Files:

- `Records.dfy`: the rows read (site, organisation, shelter, shelter
  registration, case, case status, case flag, flag assignment, human
  resource record) and `Collaborators`, the two functions supplied from
  outside (`SitePresence.status` and `pr_get_ancestors`).
- `Query.dfy`: first-matching-row selection.
- `Lookups.dfy`: the queries: site with its organisation, organisation
  scope, case lookup, shelter residency, assigned flags, staff record,
  live case file.
- `Whitespace.dfy`: Python's `str.strip()`.
- `CaseFlags.dfy`: when a flag is shown and what its advisory says.
- `SiteAccess.dfy`: `client_site_status` and `person_site_status` as
  methods, each proved equal to a specification function, with
  `staff_site_status` as a function. It also holds the lemmas that state
  the decision rules, and the case test as written in the source.
- `LastSeen.dfy`: `on_site_presence_event` as a method that records its
  calls to `dvr_update_last_seen` in a ghost log.

Modelling choices:

- Record IDs are positive. Auto-increment keys are never 0, so
  `if case.dvr_case.id` and `if root_org` are true exactly when there is a
  value.
- `T(...)` is the identity on the fixed message strings.
- An advisory `DIV(H4(name), P(instructions))` is the pair
  `Advisory(heading, body)`.
- `info` is `None` when no advisory was produced. Otherwise it is `Some` of
  the non-empty list.
- The case query does not exclude deleted cases (cr.py:207-209), and the
  model keeps that. The last-seen update does exclude them (cr.py:249-250).
- Only the first non-deleted registration of the person at the shelter is
  examined. A later registration that is not checked out does not make
  the person a resident (cr.py:50-56). One might expect any live
  registration that is not checked out to prove residency, but the code
  examines only the first.
- When the case query finds no row, the source fails (see "Findings").
  The model takes the staff branch, which is what the `else` at
  cr.py:224-230 is evidently for.

## Model

| member | source | states |
|---|---|---|
| `Query.FirstIndex` | modules/templates/MRCMS/customise/cr.py:50-53 | the index returned, if any, is the first row that matches; None exactly when no row matches |
| `Whitespace.Strip` | modules/templates/MRCMS/customise/cr.py:101-103 | the result is empty exactly when the input is all whitespace; otherwise it neither starts nor ends with whitespace |
| `Whitespace.StripIsInnerSlice` | modules/templates/MRCMS/customise/cr.py:101-103 | a non-empty result is the input minus its leading and trailing whitespace runs |
| `Lookups.OrganisationOf` | modules/templates/MRCMS/customise/cr.py:180 | the organisation joined to a site is one whose id is the site's organisation_id; none exactly when no such organisation exists |
| `Lookups.SiteOf` | modules/templates/MRCMS/customise/cr.py:177-190 | no row exactly when no site with this id joins an organisation; otherwise the row is a site with this id and its own organisation |
| `Lookups.AncestorOrganisationIds` | modules/templates/MRCMS/customise/cr.py:200-202 | an id is listed exactly when some organisation with that id has its person entity among the ancestors |
| `Lookups.HasDistinctRoot` | modules/templates/MRCMS/customise/cr.py:197-198 | the organisation has a root organisation and it is not the organisation itself |
| `Lookups.OrganisationScope` | modules/templates/MRCMS/customise/cr.py:195-202 | the owning organisation comes first; ancestor organisations are added only when the root is set and differs from the organisation itself, and then all of them |
| `Lookups.StatusOf` | modules/templates/MRCMS/customise/cr.py:209 | the status joined to a case has the case's status_id; none exactly when no status has it |
| `Lookups.CaseMatches` | modules/templates/MRCMS/customise/cr.py:207-209 | the case filter: the person's case, in an organisation of the scope, with a status row; deleted cases are not excluded |
| `Lookups.FindCase` | modules/templates/MRCMS/customise/cr.py:205-213 | the case found is the first case row that matches the filter, joined with its status; none exactly when no case matches |
| `Lookups.HasLiveCase` | modules/templates/MRCMS/customise/cr.py:249-250 | the last-seen filter: the person's case, not deleted |
| `Lookups.HasCaseFile` | modules/templates/MRCMS/customise/cr.py:248-251 | true exactly when the person has a non-deleted case, in any organisation and whatever its status |
| `Lookups.RegistrationMatches` | modules/templates/MRCMS/customise/cr.py:46-49 | the registration filter: the person's registration, not deleted, at a shelter whose site is this site |
| `Lookups.FirstRegistration` | modules/templates/MRCMS/customise/cr.py:45-53 | the index found is the first registration row that matches the filter; none exactly when no row matches |
| `Lookups.IsResident` | modules/templates/MRCMS/customise/cr.py:50-56 | true exactly when the first non-deleted registration of the person at this shelter exists and its status is not 3; later registrations play no part |
| `Lookups.LiveFlagsWithId` | modules/templates/MRCMS/customise/cr.py:72-73 | a flag is listed exactly when it is a non-deleted flag with the id |
| `Lookups.FlagsOfLinks` | modules/templates/MRCMS/customise/cr.py:70-81 | a flag is listed exactly when it is not deleted and a non-deleted assignment links it to the person |
| `Lookups.FlagsOfOneLink` | modules/templates/MRCMS/customise/cr.py:70-81 | one link yields the live flags with its flag id when it is the person's live link, and nothing otherwise |
| `Lookups.FlagsOfLinksAppend` | modules/templates/MRCMS/customise/cr.py:67-81 | the join over two link lists joined is the two joins joined, so every live link contributes its own rows and a flag linked twice appears twice |
| `Lookups.AssignedFlags` | modules/templates/MRCMS/customise/cr.py:67-81 | the same for the database's flag and assignment tables |
| `Lookups.ActiveStaffRecord` | modules/templates/MRCMS/customise/cr.py:134-137 | the staff filter: the person's record, in an organisation of the scope, with status 1, not deleted |
| `Lookups.IsActiveStaff` | modules/templates/MRCMS/customise/cr.py:133-140 | true exactly when the person has a staff record in the scope with status 1 that is not deleted |
| `CaseFlags.AllowsEntry` | modules/templates/MRCMS/customise/cr.py:64-89 | the deny fold for entry: it starts allowed and any flag that denies check-in closes it |
| `CaseFlags.AllowsExit` | modules/templates/MRCMS/customise/cr.py:64-89 | the deny fold for leaving: it starts allowed and any flag that denies check-out closes it |
| `CaseFlags.AllowsExactlyWithoutDenial` | modules/templates/MRCMS/customise/cr.py:84-89 | the flags allow entry exactly when none of them denies check-in, and allow leaving exactly when none denies check-out |
| `CaseFlags.AllowsAppend` | modules/templates/MRCMS/customise/cr.py:84-89 | two flag lists joined allow entry exactly when each list does, and likewise for leaving, so a single denial decides |
| `CaseFlags.InstructionsText` | modules/templates/MRCMS/customise/cr.py:101-105 | the body is never empty; it is the placeholder when the instructions are missing or all whitespace, and otherwise the stripped instructions |
| `CaseFlags.Advise` | modules/templates/MRCMS/customise/cr.py:91-99 | whether a flag is shown for the presence state: the ID-check setting first, then the check-out setting when IN, the check-in setting when OUT, and either otherwise |
| `CaseFlags.AdvisoryOf` | modules/templates/MRCMS/customise/cr.py:100-109 | the advisory a shown flag produces is headed by the flag's name and never has an empty body |
| `CaseFlags.Advisories` | modules/templates/MRCMS/customise/cr.py:82-109 | there are never more advisories than flags |
| `CaseFlags.AdviseIsRule` | modules/templates/MRCMS/customise/cr.py:91-99 | a flag is shown when it is marked for the ID check, or the person is IN and it is marked for check-out, or OUT and marked for check-in, or in any other state and marked for either |
| `CaseFlags.AdvisoriesMembers` | modules/templates/MRCMS/customise/cr.py:84-109 | an advisory is listed exactly when some shown flag produces it |
| `CaseFlags.AdvisoriesContents` | modules/templates/MRCMS/customise/cr.py:91-109 | an advisory is listed exactly when some flag produces it and is shown under the four-way rule |
| `CaseFlags.AdvisoriesAppend` | modules/templates/MRCMS/customise/cr.py:84-109 | the advisories of two flag lists joined are the two advisory lists joined, so advisories keep the flags' order |
| `CaseFlags.AdvisoriesEmpty` | modules/templates/MRCMS/customise/cr.py:100-111 | there is no advisory exactly when no flag is shown |
| `CaseFlags.AdvisoriesIgnoreDeny` | modules/templates/MRCMS/customise/cr.py:91-109 | flags that agree on name, instructions and advise settings give the same advisories, whatever their deny settings |
| `SiteAccess.InfoOf` | modules/templates/MRCMS/customise/cr.py:110-111 | `info` is present exactly when there is at least one advisory, and then holds all of them |
| `SiteAccess.CheckFlags` | modules/templates/MRCMS/customise/cr.py:64-114 | the entry and exit answers are the deny folds over the flags, so (by `CaseFlags.AllowsExactlyWithoutDenial`) entry is allowed exactly when no flag denies check-in and leaving exactly when none denies check-out; the info list is the advisories of the flags in order |
| `SiteAccess.Update` | modules/templates/MRCMS/customise/cr.py:217-230 | `dict.update`: the three booleans come from the new dict, `error` and `info` from it when it has them and otherwise keep the old dict's value; updating the all-false start dict gives the new dict |
| `SiteAccess.WithDefaultError` | modules/templates/MRCMS/customise/cr.py:222-223 | an invalid result keeps its error, or without one gets exactly the given fallback message; the booleans and info are unchanged, and a valid result without an error stays without one |
| `SiteAccess.ClientStatus` | modules/templates/MRCMS/customise/cr.py:13-116 | there is an error exactly when the case is closed; a refusal allows neither direction and has no info |
| `SiteAccess.ClientSiteStatus` | modules/templates/MRCMS/customise/cr.py:13-116 | the method returns what ClientStatus specifies |
| `SiteAccess.StaffSiteStatus` | modules/templates/MRCMS/customise/cr.py:119-146 | valid, allowed_in and allowed_out are equal, and true exactly when an active staff record exists in the scope; no error and no info |
| `SiteAccess.PersonStatus` | modules/templates/MRCMS/customise/cr.py:149-232 | in every outcome the error is absent exactly when the person is valid; an invalid person may neither enter nor leave and gets no info; info is never an empty list |
| `SiteAccess.PersonSiteStatus` | modules/templates/MRCMS/customise/cr.py:149-232 | the method returns what PersonStatus specifies |
| `SiteAccess.InvalidSiteIsRefused` | modules/templates/MRCMS/customise/cr.py:188-190 | a site that joins no organisation gives "Invalid site" with everything false |
| `SiteAccess.CaseAtSite` | modules/templates/MRCMS/customise/cr.py:192-213 | a case is found only at a site that resolves, and is a case row matching the filter for the site's organisation scope; at a site that resolves, none is found exactly when no case matches |
| `SiteAccess.AssignedFlagsDecideEntryAndExit` | modules/templates/MRCMS/customise/cr.py:67-89 | over the person's assigned flags, entry is allowed exactly when no live flag linked by a live assignment denies check-in, and leaving likewise for check-out |
| `SiteAccess.ClosedCaseIsRefused` | modules/templates/MRCMS/customise/cr.py:33-40 | a closed case gives "Closed case" with everything false and no info, whatever the site type, registrations and flags |
| `SiteAccess.NonResidentIsRefused` | modules/templates/MRCMS/customise/cr.py:42-56 | at a shelter, an open case without a current residency gives "Not currently a resident" with everything false |
| `SiteAccess.OpenCaseIsValid` | modules/templates/MRCMS/customise/cr.py:58-116 | an open case, at a non-shelter site or with residency, is valid with no error; entry is allowed exactly when no live flag linked by a live assignment denies it, and leaving likewise; info holds the flags' advisories |
| `SiteAccess.NoFlagsNoRestrictions` | modules/templates/MRCMS/customise/cr.py:64-114 | an open case at a valid site with no live flag assigned may enter and leave, with no error and no info |
| `SiteAccess.NoCaseMeansStaffCheck` | modules/templates/MRCMS/customise/cr.py:224-230 | without a case, valid, allowed_in and allowed_out are equal and true exactly when an active staff record exists in the scope; otherwise the error is "Neither currently a resident nor active staff member" |
| `SiteAccess.CaseTestAsWritten` | modules/templates/MRCMS/customise/cr.py:210-215 | as written, the staff branch is never taken, and the test raises exactly when the query found no case |
| `SiteAccess.NoCaseRaisesAsWritten` | modules/templates/MRCMS/customise/cr.py:205-230 | at a site that resolves, the test as written raises exactly when no case of the person is in the scope, which includes every case where the staff check would have decided |
| `LastSeen.LastSeenLog.UpdateLastSeen` | modules/templates/MRCMS/customise/cr.py:252 | one call to dvr_update_last_seen is appended to the log |
| `LastSeen.OnSitePresenceEvent` | modules/templates/MRCMS/customise/cr.py:235-252 | the log gains the person exactly when they have a non-deleted case, and nothing else changes |

## Findings

| source | as written | input that shows it | evidently intended | confidence | as-written member | corrected member |
|---|---|---|---|---|---|---|
| modules/templates/MRCMS/customise/cr.py:210-215 | `case.dvr_case.id` is read from `.first()` without a None test | a person with no case in the site's organisation scope: `.first()` is None and `None.dvr_case` raises AttributeError, so the staff branch at lines 224-230 is unreachable | no case found leads to the staff check | high, not executed | `SiteAccess.CaseTestAsWritten` (with `SiteAccess.NoCaseRaisesAsWritten`) | `SiteAccess.PersonStatus` (with `SiteAccess.NoCaseMeansStaffCheck`) |

## Left out

- `SitePresence.status` and `pr_get_ancestors` are not modelled. They are
  the caller-supplied functions in `Records.Collaborators`: presence state
  by person and site, and ancestor person entities. No ancestor traversal
  is modelled.
- `dvr_update_last_seen` is not modelled. The model records each call in a
  ghost log. The timestamp it writes, and transactions or races on that
  write, are not modelled.
- Translation `T()` and the HTML structure of `info` (`DIV`, `H4`, `P`,
  CSS classes) are not modelled.
- Row order is taken as a table's sequence order. The source's queries
  have no `orderby`, so the real order is whatever the database returns.
  For each join, the model orders the rows by one side only:
  - the flags query follows the order of the flag assignments
    (`dvr_case_flag_case`), and for each assignment the order of the flag
    table;
  - the shelter registration query follows the order of the registrations;
  - the case query follows the order of the cases.
- Nullable booleans (a `deleted` or `deny_check_in` column holding NULL)
  are not modelled. Every such column is a plain `bool`.
- The controllers, resource configuration and `profile_header`
  (cr.py:254 onwards) are not modelled. They are form, list and
  report configuration and HTML assembly.
- `modules/templates/RLPPTM/customise/org.py` is not part of this model.
  It holds the configuration of organisation and facility forms, lists,
  filters and reports, and their workflow hooks (onaccept, onvalidation,
  postprocess). Its few queries play no part in site presence:
  - `check_blocked_l2` (org.py:513-540) sets a form error when the
    facility's district is on the blacklist of districts closed to new
    registrations, unless the user has the ADMIN role;
  - `facility_mgrinfo` (org.py:595-622) reads the MGRINFO verification tag
    of the facility's organisation;
  - the organisation group options (org.py:465).
