/** The "my bookings" page: each booked event gets a status, and the list
    is shown latest first. */
module BookedEvents {
  import opened Schemas

  datatype Status = Active | Expired

  /** `getStatus`: `now` is the current time. An event exactly at `now` has expired. */
  function GetStatus(date: int, now: int): (s: Status)
    ensures s == Active <==> date > now
    ensures s == Expired <==> date <= now
  {
    if date > now then Active else Expired
  }

  /** `{ ...event, status }` */
  datatype StatusedEvent = StatusedEvent(event: Event, status: Status)

  function WithStatus(events: seq<Event>, now: int): (r: seq<StatusedEvent>)
    ensures |r| == |events|
    ensures forall k :: 0 <= k < |r| ==> r[k].event == events[k] && r[k].status == GetStatus(events[k].date, now)
  {
    seq(|events|, k requires 0 <= k < |events| => StatusedEvent(events[k], GetStatus(events[k].date, now)))
  }

  predicate LatestFirst(s: seq<StatusedEvent>) {
    forall a, b :: 0 <= a < b < |s| ==> s[a].event.date >= s[b].event.date
  }

  /** A later-or-equal head in front of a latest-first list keeps it latest first. */
  lemma ConsLatestFirst(h: StatusedEvent, t: seq<StatusedEvent>)
    requires LatestFirst(t)
    requires t != [] ==> h.event.date >= t[0].event.date
    ensures LatestFirst([h] + t)
  {
    var r := [h] + t;
    forall a, b | 0 <= a < b < |r| ensures r[a].event.date >= r[b].event.date {
      if a == 0 && b > 1 {
        assert r[1] == t[0] && r[b] == t[b - 1];
      }
    }
  }

  /** The tail of a latest-first list is latest first, and not later than the head. */
  lemma LatestFirstTail(s: seq<StatusedEvent>)
    requires LatestFirst(s) && s != []
    ensures LatestFirst(s[1..])
    ensures |s| > 1 ==> s[0].event.date >= s[1].event.date
  {
    var t := s[1..];
    forall a, b | 0 <= a < b < |t| ensures t[a].event.date >= t[b].event.date {
      assert t[a] == s[a + 1] && t[b] == s[b + 1];
    }
  }

  /** Places `x` before the first element that is not later than it. */
  function Insert(x: StatusedEvent, s: seq<StatusedEvent>): (r: seq<StatusedEvent>)
    requires LatestFirst(s)
    ensures LatestFirst(r)
    ensures multiset(r) == multiset(s) + multiset{x}
    ensures |r| == |s| + 1
    ensures r[0] == x || (s != [] && r[0] == s[0])
  {
    if s == [] || s[0].event.date <= x.event.date then
      ConsLatestFirst(x, s);
      [x] + s
    else
      LatestFirstTail(s);
      var rest := Insert(x, s[1..]);
      ConsLatestFirst(s[0], rest);
      assert s == [s[0]] + s[1..];
      [s[0]] + rest
  }

  /** The sort of `fetchBookedEvents` (BookedEvents.jsx:23): the comparator
      subtracts the first date from the second, so later dates come first. */
  function SortLatestFirst(s: seq<StatusedEvent>): (r: seq<StatusedEvent>)
    ensures LatestFirst(r)
    ensures multiset(r) == multiset(s)
    ensures |r| == |s|
  {
    if s == [] then []
    else
      assert s == [s[0]] + s[1..];
      Insert(s[0], SortLatestFirst(s[1..]))
  }

  /** The list `fetchBookedEvents` stores: the server's events, each with
      its status, latest first. */
  function FetchedEvents(events: seq<Event>, now: int): (r: seq<StatusedEvent>)
    ensures |r| == |events|
    ensures LatestFirst(r)
    ensures multiset(r) == multiset(WithStatus(events, now))
    ensures forall x :: x in r ==> x.event in events && x.status == GetStatus(x.event.date, now)
  {
    var annotated := WithStatus(events, now);
    var r := SortLatestFirst(annotated);
    assert forall x :: x in r ==> x in multiset(annotated);
    r
  }
}
