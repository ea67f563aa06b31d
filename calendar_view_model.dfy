/** The in-memory event list of the calendar view model: direct insertion of
    an event and cancellation of a lesson. The date calculators it offers are
    in LessonDates. */
module CalendarViewModel {
  import opened Data
  import opened Dates
  import opened Sorting

  predicate HasId(events: seq<Event>, id: int) {
    exists i :: 0 <= i < |events| && events[i].id == id
  }

  predicate DistinctIds(events: seq<Event>) {
    forall i, j :: 0 <= i < j < |events| ==> events[i].id != events[j].id
  }

  /** Same year, month, day, hour and minute: in a zone whose offset is a whole
      number of minutes, the same minute since the epoch. */
  predicate SameMinute(a: int, b: int) {
    a / MinuteMs == b / MinuteMs
  }

  /** The removeIf condition of cancelLesson. */
  predicate IsLessonAt(e: Event, date: int) {
    e.kind == "Lesson" && SameMinute(e.date, date)
  }

  class CalendarViewModel {
    var events: seq<Event>

    constructor ()
      ensures events == []
    {
      events := [];
    }

    /** addEventDirectly: appends the event unless one with its id is present. */
    method AddEventDirectly(e: Event)
      modifies this
      ensures HasId(old(events), e.id) ==> events == old(events)
      ensures !HasId(old(events), e.id) ==> events == old(events) + [e]
      ensures HasId(events, e.id)
      ensures DistinctIds(old(events)) ==> DistinctIds(events)
    {
      var eventExists := false;
      var i := 0;
      while i < |events|
        invariant 0 <= i <= |events|
        invariant eventExists <==> exists j :: 0 <= j < i && events[j].id == e.id
      {
        if events[i].id == e.id {
          eventExists := true;
        }
        i := i + 1;
      }
      if !eventExists {
        events := events + [e];
        assert events[|events| - 1].id == e.id;
      }
    }

    /** cancelLesson: removes every "Lesson" event at the given minute, and only those. */
    method CancelLesson(date: int)
      modifies this
      ensures events == Filter(old(events), (e: Event) => !IsLessonAt(e, date))
      ensures forall i :: 0 <= i < |events| ==> !IsLessonAt(events[i], date)
      ensures forall i :: 0 <= i < |old(events)| && !IsLessonAt(old(events)[i], date) ==>
        old(events)[i] in events
    {
      events := Filter(events, (e: Event) => !IsLessonAt(e, date));
    }
  }
}
