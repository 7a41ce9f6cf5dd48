/** The record shapes of types.ts. */
module Types {
  import opened Wrappers

  /** A reservation. `date` is `YYYY-MM-DD`, the times are `HH:mm`; none of this
      is enforced. `topic` and `agenda` may be absent. */
  datatype Booking = Booking(
    id: string,
    date: string,
    startTime: string,
    endTime: string,
    employeeName: string,
    topic: Option<string>,
    agenda: Option<string>)

  /** A booking without its id (`Omit<Booking, 'id'>`): what creation is given. */
  datatype BookingRequest = BookingRequest(
    date: string,
    startTime: string,
    endTime: string,
    employeeName: string,
    topic: Option<string>,
    agenda: Option<string>)

  /** The form's fields (`BookingFormData`): every field is a string, possibly empty. */
  datatype FormData = FormData(
    date: string,
    startTime: string,
    endTime: string,
    employeeName: string,
    topic: string)

  /** Drops the id of a booking. */
  function WithoutId(b: Booking): BookingRequest {
    BookingRequest(b.date, b.startTime, b.endTime, b.employeeName, b.topic, b.agenda)
  }

  /** `{ ...booking, id }`: the request's fields with the given id attached. */
  function WithId(req: BookingRequest, id: string): (b: Booking)
    ensures b.id == id
    ensures WithoutId(b) == req
  {
    Booking(id, req.date, req.startTime, req.endTime, req.employeeName, req.topic, req.agenda)
  }
}
