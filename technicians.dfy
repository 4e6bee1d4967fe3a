/**
 * The technicians directory: a search-and-status filter over the technician
 * list and the per-technician activity feed.
 */
module Technicians {
  import opened Common
  import opened JsString

  datatype Technician = Technician(
    id: string, name: string, phone: string, email: string, status: string,
    servicesThisMonth: nat, attendanceRate: nat, lastActive: string)

  datatype Activity = Activity(
    id: nat, technicianId: string, technicianName: string, kind: string, details: string, timestamp: string)

  /** Name, id and e-mail are searched case-insensitively; the phone number is searched as typed. */
  predicate MatchesSearch(t: Technician, searchTerm: string) {
    IncludesIgnoringCase(t.name, searchTerm) ||
    IncludesIgnoringCase(t.id, searchTerm) ||
    IncludesIgnoringCase(t.email, searchTerm) ||
    Includes(t.phone, searchTerm)
  }

  /** `statusFilter === "all" || tech.status === statusFilter`. */
  predicate MatchesStatus(t: Technician, statusFilter: string) {
    statusFilter == "all" || t.status == statusFilter
  }

  predicate KeepsTechnician(searchTerm: string, statusFilter: string, t: Technician) {
    MatchesSearch(t, searchTerm) && MatchesStatus(t, statusFilter)
  }

  /** The `filteredTechnicians` list. */
  function FilteredTechnicians(technicians: seq<Technician>, searchTerm: string, statusFilter: string): (r: seq<Technician>)
    ensures |r| <= |technicians|
    ensures forall i :: 0 <= i < |r| ==> MatchesSearch(r[i], searchTerm) && MatchesStatus(r[i], statusFilter)
  {
    Filter(technicians, t => KeepsTechnician(searchTerm, statusFilter, t))
  }

  /** The list keeps the directory's order and holds exactly the technicians passing both criteria. */
  lemma FilteredTechniciansExact(technicians: seq<Technician>, searchTerm: string, statusFilter: string, t: Technician)
    ensures IsSubsequence(FilteredTechnicians(technicians, searchTerm, statusFilter), technicians)
    ensures t in FilteredTechnicians(technicians, searchTerm, statusFilter) <==>
            t in technicians && MatchesSearch(t, searchTerm) && MatchesStatus(t, statusFilter)
  {
    FilterIsSubsequence(technicians, t => KeepsTechnician(searchTerm, statusFilter, t));
    FilterMembership(technicians, t => KeepsTechnician(searchTerm, statusFilter, t), t);
  }

  /** An empty search with the "all" filter lists every technician. */
  lemma EmptySearchKeepsAll(technicians: seq<Technician>)
    ensures FilteredTechnicians(technicians, "", "all") == technicians
  {
    forall i | 0 <= i < |technicians| ensures KeepsTechnician("", "all", technicians[i]) {
      IncludesEmpty(technicians[i].phone);
    }
    FilterKeepsAll(technicians, t => KeepsTechnician("", "all", t));
  }

  /** A term found in the phone number keeps a technician whatever the other fields hold. */
  lemma PhoneMatchSuffices(technicians: seq<Technician>, searchTerm: string, t: Technician)
    requires t in technicians && Includes(t.phone, searchTerm)
    ensures t in FilteredTechnicians(technicians, searchTerm, "all")
  {
    FilteredTechniciansExact(technicians, searchTerm, "all", t);
  }

  predicate ByTechnician(techId: string, a: Activity) {
    a.technicianId == techId
  }

  /** `recentActivities.filter(activity => activity.technicianId === techId)`. */
  function TechnicianActivities(activities: seq<Activity>, techId: string): (r: seq<Activity>)
    ensures |r| <= |activities|
    ensures forall i :: 0 <= i < |r| ==> r[i].technicianId == techId
  {
    Filter(activities, a => ByTechnician(techId, a))
  }

  /** The feed is exactly that technician's activities, in their original order. */
  lemma TechnicianActivitiesExact(activities: seq<Activity>, techId: string, a: Activity)
    ensures IsSubsequence(TechnicianActivities(activities, techId), activities)
    ensures a in TechnicianActivities(activities, techId) <==> a in activities && a.technicianId == techId
  {
    FilterIsSubsequence(activities, a => ByTechnician(techId, a));
    FilterMembership(activities, a => ByTechnician(techId, a), a);
  }
}
