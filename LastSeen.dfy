/** The last-seen update that follows a site presence event
    (modules/templates/MRCMS/customise/cr.py, lines 235-252). */
module LastSeen {
  import opened Query
  import opened Records
  import opened Lookups

  /** The calls made to the case subsystem's `dvr_update_last_seen`, one
      person ID per call, oldest first. */
  class LastSeenLog {
    ghost var updates: seq<Id>

    constructor ()
      ensures updates == []
    {
      updates := [];
    }

    /** `dvr_update_last_seen(person_id)`. */
    method UpdateLastSeen(personId: Id)
      modifies this
      ensures updates == old(updates) + [personId]
    {
      updates := updates + [personId];
    }
  }

  /** `on_site_presence_event`: update the person's last-seen date exactly
      when they have a case file that is not deleted, in any organisation
      and whether open or closed; the site plays no part. */
  method OnSitePresenceEvent(db: Database, log: LastSeenLog, siteId: Id, personId: Id)
    modifies log
    ensures log.updates == old(log.updates) + (if HasCaseFile(db, personId) then [personId] else [])
  {
    var found := FirstIndex(db.cases, (c: CaseFile) => HasLiveCase(c, personId));
    if found.Some? {
      log.UpdateLastSeen(personId);
    }
  }
}
