/** App.tsx: the page's state (the bookings shown, whether they are loading,
    whether a booking is being submitted) and the two handlers that change it
    through the booking service. */
module App {
  import opened Wrappers
  import opened Types
  import opened BookingService

  /** The message of the alert shown when a booking could not be created. */
  const CREATE_FAILED_ALERT: string := "Не удалось создать запись. Пожалуйста, попробуйте снова."

  /** `{ ...data, agenda }`: the form's fields with the agenda added. The topic
      and the agenda are always present (possibly empty), and the form's
      fields can be read back from the request unchanged. */
  function CreatePayload(data: FormData, agenda: string): (req: BookingRequest)
    ensures req.topic.Some? && req.agenda == Some(agenda)
    ensures FormData(req.date, req.startTime, req.endTime, req.employeeName, req.topic.value) == data
  {
    BookingRequest(data.date, data.startTime, data.endTime, data.employeeName, Some(data.topic), Some(agenda))
  }

  class AppState {
    /** The service the handlers call. */
    const store: BookingStore
    var bookings: seq<Booking>
    var loading: bool
    var submitting: bool

    /** The first render: no bookings, loading, not submitting. */
    constructor (store: BookingStore)
      ensures this.store == store
      ensures bookings == [] && loading && !submitting
    {
      this.store := store;
      bookings := [];
      loading := true;
      submitting := false;
    }

    /** In local mode the page shows exactly the stored list. */
    predicate ShowsStoredList()
      reads this, store
    {
      store.apiUrl == "" ==> bookings == LocalFetch(store.slot)
    }

    /** `loadData`: fetches the bookings; on success they replace the shown
        list, on failure the shown list is kept. Loading ends either way, and
        in local mode the page then shows the stored list. */
    method LoadData(response: FetchResponse) returns (outcome: Result<seq<Booking>, ServiceError>)
      modifies this
      ensures store.apiUrl != "" ==> outcome == RemoteFetch(response)
      ensures store.apiUrl == "" ==> outcome == Success(LocalFetch(store.slot))
      ensures bookings == (if outcome.Success? then outcome.value else old(bookings))
      ensures !loading && submitting == old(submitting)
      ensures ShowsStoredList()
    {
      loading := true;
      outcome := store.FetchBookings(response);
      if outcome.Success? {
        bookings := outcome.value;
      }
      loading := false;
    }

    /** `handleBookingSubmit`: creates a booking from the form's fields, the
        agenda and the generated `id`. On success the new booking, carrying
        exactly those fields and that id, is put at the head of the shown
        list; on failure the list is kept and the alert is shown. Submitting
        ends either way. A page that showed the stored list still does. */
    method HandleBookingSubmit(data: FormData, agenda: string, id: string, response: CreateResponse)
      returns (outcome: Result<Booking, ServiceError>, alert: Option<string>)
      modifies this, store
      ensures store.apiUrl != "" ==>
                outcome == RemoteCreate(WithId(CreatePayload(data, agenda), id), response)
                && store.slot == old(store.slot)
      ensures store.apiUrl == "" ==>
                outcome == Success(WithId(CreatePayload(data, agenda), id))
                && store.slot == LocalCreate(old(store.slot), WithId(CreatePayload(data, agenda), id))
      ensures outcome.Success? ==>
                outcome.value == WithId(CreatePayload(data, agenda), id)
                && bookings == [outcome.value] + old(bookings) && alert == None
      ensures outcome.Failure? ==> bookings == old(bookings) && alert == Some(CREATE_FAILED_ALERT)
      ensures !submitting && loading == old(loading)
      ensures old(ShowsStoredList()) ==> ShowsStoredList()
    {
      submitting := true;
      outcome := store.CreateBooking(CreatePayload(data, agenda), id, response);
      if outcome.Success? {
        bookings := [outcome.value] + bookings;
        alert := None;
      } else {
        alert := Some(CREATE_FAILED_ALERT);
      }
      submitting := false;
    }
  }
}
