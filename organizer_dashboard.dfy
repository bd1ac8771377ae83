/** The organizer dashboard: the event form, its `validate`, and the state
    updates of `handleSubmit` and `handleDateChange`. */
module OrganizerDashboard {
  import opened Wrappers
  import opened Forms
  import opened Schemas

  /** The parts of the component's state that these handlers touch. */
  datatype Dashboard = Dashboard(eventData: Form, errors: Errors, events: seq<Event>, selectedDate: int)

  const EmptyEventForm: Form := map["title" := "", "description" := "", "date" := "", "time" := ""]

  const RequiredFields: set<string> := {"title", "date", "time"}

  predicate RequiredFilled(eventData: Form) {
    Field(eventData, "title") != "" && Field(eventData, "date") != "" && Field(eventData, "time") != ""
  }

  /** `validate`: 'Required' on each of title, date and time that is empty;
      the description is never checked. */
  method Validate(eventData: Form) returns (errors: Errors, valid: bool)
    ensures valid <==> errors == map[]
    ensures valid <==> RequiredFilled(eventData)
    ensures errors.Keys <= RequiredFields
    ensures forall k :: k in RequiredFields ==> (k in errors <==> Field(eventData, k) == "")
    ensures forall k :: k in errors ==> errors[k] == "Required"
  {
    var newErrors: Errors := map[];
    if Field(eventData, "title") == "" {
      newErrors := newErrors["title" := "Required"];
    }
    if Field(eventData, "date") == "" {
      newErrors := newErrors["date" := "Required"];
    }
    if Field(eventData, "time") == "" {
      newErrors := newErrors["time" := "Required"];
    }
    errors := newErrors;
    valid := |errors.Keys| == 0;
  }

  /** `handleSubmit`: validate; when valid, post the form. `created` is the
      event the server answered with, or None when the request failed. */
  method HandleSubmit(state: Dashboard, created: Option<Event>) returns (next: Dashboard)
    ensures next.selectedDate == state.selectedDate
    ensures next.errors == map[] <==> RequiredFilled(state.eventData)
    ensures forall k :: k in RequiredFields ==> (k in next.errors <==> Field(state.eventData, k) == "")
    ensures next.errors.Keys <= RequiredFields
    ensures forall k :: k in next.errors ==> next.errors[k] == "Required"
    ensures RequiredFilled(state.eventData) && created.Some? ==>
              next.events == state.events + [created.value] && next.eventData == EmptyEventForm
    ensures !RequiredFilled(state.eventData) || created.None? ==>
              next.events == state.events && next.eventData == state.eventData
  {
    var errors, valid := Validate(state.eventData);
    next := state.(errors := errors);
    if valid && created.Some? {
      next := next.(events := next.events + [created.value]);
      next := next.(eventData := EmptyEventForm);
    }
  }

  /** `handleDateChange`: records the picked day and writes its
      'en-CA' rendering (`format`) into the form's `date` field. */
  function HandleDateChange(state: Dashboard, date: int, format: int -> string): (next: Dashboard)
    ensures next.selectedDate == date
    ensures Field(next.eventData, "date") == format(date)
    ensures forall k :: k != "date" ==> Field(next.eventData, k) == Field(state.eventData, k)
    ensures next.events == state.events && next.errors == state.errors
  {
    state.(selectedDate := date, eventData := UpdateField(state.eventData, "date", format(date)))
  }

  /** After a successful create the form is back to four empty fields, so it
      no longer passes validation. */
  lemma ResetFormIsEmpty()
    ensures EmptyEventForm.Keys == {"title", "description", "date", "time"}
    ensures forall k :: k in EmptyEventForm ==> EmptyEventForm[k] == ""
    ensures !RequiredFilled(EmptyEventForm)
  {
  }
}
