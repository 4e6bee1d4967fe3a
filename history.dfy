/**
 * A technician's service history: a search over the text fields combined
 * with a calendar-month filter.
 */
module History {
  import opened Common
  import opened JsString

  datatype ServiceRecord = ServiceRecord(
    id: nat, date: string, store: string, branch: string, kind: string, description: string, imageUrl: string)

  /**
   * `(new Date(date).getMonth() + 1).toString()`. The month index (0 to 11) in
   * the local time zone is supplied by `monthOf`; an invalid date gives None,
   * whose text is "NaN".
   */
  function MonthText(date: string, monthOf: string -> Option<nat>): (r: string)
    ensures monthOf(date).None? <==> r == "NaN"
    ensures monthOf(date).Some? ==> AllDigits(r) && ParseInt(r) == Some(monthOf(date).value + 1)
  {
    match monthOf(date)
    case Some(m) =>
      ParseIntNumberToString(m + 1);
      NumberToString(m + 1)
    case None => "NaN"
  }

  /** Store, branch, type and description are searched case-insensitively. */
  predicate MatchesSearch(s: ServiceRecord, searchTerm: string) {
    IncludesIgnoringCase(s.store, searchTerm) ||
    IncludesIgnoringCase(s.branch, searchTerm) ||
    IncludesIgnoringCase(s.kind, searchTerm) ||
    IncludesIgnoringCase(s.description, searchTerm)
  }

  predicate MatchesMonth(s: ServiceRecord, selectedMonth: string, monthOf: string -> Option<nat>) {
    selectedMonth == "all" || MonthText(s.date, monthOf) == selectedMonth
  }

  predicate KeepsService(searchTerm: string, selectedMonth: string, monthOf: string -> Option<nat>, s: ServiceRecord) {
    MatchesSearch(s, searchTerm) && MatchesMonth(s, selectedMonth, monthOf)
  }

  /** The `filteredServices` list. */
  function FilteredServices(services: seq<ServiceRecord>, searchTerm: string, selectedMonth: string,
                            monthOf: string -> Option<nat>): (r: seq<ServiceRecord>)
    ensures |r| <= |services|
    ensures forall i :: 0 <= i < |r| ==> MatchesSearch(r[i], searchTerm) && MatchesMonth(r[i], selectedMonth, monthOf)
  {
    Filter(services, s => KeepsService(searchTerm, selectedMonth, monthOf, s))
  }

  /** The list keeps the history's order and holds exactly the records passing both criteria. */
  lemma FilteredServicesExact(services: seq<ServiceRecord>, searchTerm: string, selectedMonth: string,
                              monthOf: string -> Option<nat>, s: ServiceRecord)
    ensures IsSubsequence(FilteredServices(services, searchTerm, selectedMonth, monthOf), services)
    ensures s in FilteredServices(services, searchTerm, selectedMonth, monthOf) <==>
            s in services && MatchesSearch(s, searchTerm) && MatchesMonth(s, selectedMonth, monthOf)
  {
    FilterIsSubsequence(services, s => KeepsService(searchTerm, selectedMonth, monthOf, s));
    FilterMembership(services, s => KeepsService(searchTerm, selectedMonth, monthOf, s), s);
  }

  /** An empty search over "All Time" lists every record. */
  lemma EmptySearchKeepsAll(services: seq<ServiceRecord>, monthOf: string -> Option<nat>)
    ensures FilteredServices(services, "", "all", monthOf) == services
  {
    forall i | 0 <= i < |services| ensures KeepsService("", "all", monthOf, services[i]) {
      IncludesEmpty(ToLower(services[i].store));
    }
    FilterKeepsAll(services, s => KeepsService("", "all", monthOf, s));
  }

  /** With "all" the dates are never looked at: any month function gives the same list. */
  lemma {:induction false} AllMonthsIgnoresDates(services: seq<ServiceRecord>, searchTerm: string,
                                                 monthOf: string -> Option<nat>, otherMonthOf: string -> Option<nat>)
    ensures FilteredServices(services, searchTerm, "all", monthOf) == FilteredServices(services, searchTerm, "all", otherMonthOf)
  {
    if services != [] {
      AllMonthsIgnoresDates(services[1..], searchTerm, monthOf, otherMonthOf);
    }
  }

  /** Selecting month m keeps only records dated in month m; invalid dates never match a month. */
  lemma MonthFilterSelectsMonth(services: seq<ServiceRecord>, searchTerm: string, m: nat, monthOf: string -> Option<nat>)
    ensures forall s :: s in FilteredServices(services, searchTerm, NumberToString(m), monthOf) ==>
              monthOf(s.date).Some? && monthOf(s.date).value + 1 == m
  {
    forall s | s in FilteredServices(services, searchTerm, NumberToString(m), monthOf)
      ensures monthOf(s.date).Some? && monthOf(s.date).value + 1 == m
    {
      var r := FilteredServices(services, searchTerm, NumberToString(m), monthOf);
      var i :| 0 <= i < |r| && r[i] == s;
      var text := NumberToString(m);
      assert MatchesMonth(s, text, monthOf);
      assert IsDigit(text[0]) && !IsDigit("all"[0]) && !IsDigit("NaN"[0]);
      NumberToStringInjective(monthOf(s.date).value + 1, m);
    }
  }
}
