/** The events page: the optional day filter over the listed events. */
module Home {
  import opened Wrappers
  import opened Seqs
  import opened Schemas

  const MsPerDay: int := 86400000

  /** The local calendar day of an instant, `offsetMs` being the local
      time's offset from UTC; two instants have equal `toDateString()`
      exactly when their local days are equal. */
  function LocalDay(ms: int, offsetMs: int): (day: int)
    ensures day * MsPerDay <= ms + offsetMs < (day + 1) * MsPerDay
  {
    (ms + offsetMs) / MsPerDay
  }

  /** `filteredEvents`: every event when no date is selected, otherwise the
      events on the selected day. */
  function FilteredEvents(events: seq<Event>, selectedDate: Option<int>, offsetMs: int): (r: seq<Event>)
    ensures selectedDate.None? ==> r == events
    ensures selectedDate.Some? ==>
              forall e :: e in r <==> e in events && LocalDay(e.date, offsetMs) == LocalDay(selectedDate.value, offsetMs)
    ensures IsSubsequence(r, events)
  {
    match selectedDate
    case None =>
      SubsequenceOfItself(events);
      events
    case Some(day) =>
      var p := (e: Event) => LocalDay(e.date, offsetMs) == LocalDay(day, offsetMs);
      FilterIsSubsequence(events, p);
      Filter(events, p)
  }

  /** Selecting the day of an instant keeps an event exactly when it starts
      in the same 24 hours of local time. */
  lemma SameDayBounds(eventDate: int, selected: int, offsetMs: int)
    requires LocalDay(eventDate, offsetMs) == LocalDay(selected, offsetMs)
    ensures -MsPerDay < eventDate - selected < MsPerDay
  {
  }
}
