/** bookingService.ts: fetching and creating bookings, against the remote
    endpoint when one is configured and against one browser-storage slot
    otherwise. The network's answers and the generated id are inputs. */
module BookingService {
  import opened Wrappers
  import opened Types

  /** The configured endpoint. Being non-empty, it selects the remote branch. */
  const API_URL: string := "https://script.google.com/macros/s/AKfycbwhd6rem5TH0Q7eclsqw3xj8JXmcJL4p1qAPlO7XVNLJKi51ixEjKZopPwuAt-hR8PQ/exec"

  /** The configured endpoint is non-empty: a store built with it takes the
      remote branch of `FetchBookings` and `CreateBooking`, and storage is
      never touched. */
  lemma ConfiguredEndpointIsRemote()
    ensures API_URL != ""
  {
  }

  /** The demo records served while nothing is stored. */
  const INITIAL_DATA: seq<Booking> := [
    Booking("1", "2023-10-27", "09:00", "10:00", "Анна Петрова",
            Some("Еженедельная планерка"), Some("Обсуждение KPI")),
    Booking("2", "2023-10-27", "14:00", "15:30", "Иван Сидоров",
            Some("Собеседование Frontend"), Some("Техническое интервью")),
    Booking("3", "2023-10-28", "11:00", "12:00", "Елена Смирнова",
            Some("Бюджет Q4"), Some("Согласование сметы"))
  ]

  /** What an operation throws: an `Error` with its message, or the failure
      of `response.json()` on a body that is not JSON. */
  datatype ServiceError = Thrown(message: string) | BodyNotJson

  /** The answer to the read request: the `ok` flag and the decoded body
      (`None` when the body is not JSON). */
  datatype FetchResponse = FetchResponse(ok: bool, body: Option<seq<Booking>>)

  /** The decoded body of the write answer: its `status` and `message` fields,
      each possibly absent. */
  datatype WriteReply = WriteReply(status: Option<string>, message: Option<string>)

  datatype CreateResponse = CreateResponse(ok: bool, body: Option<WriteReply>)

  /** The remote read: fails unless the answer is ok and its body decodes, and
      otherwise yields the decoded body unchanged. */
  function RemoteFetch(response: FetchResponse): (r: Result<seq<Booking>, ServiceError>)
    ensures !response.ok ==> r == Failure(Thrown("Network response was not ok"))
    ensures r.Success? <==> response.ok && response.body.Some?
    ensures r.Success? ==> r.value == response.body.value
  {
    if !response.ok then Failure(Thrown("Network response was not ok"))
    else match response.body
      case None => Failure(BodyNotJson)
      case Some(data) => Success(data)
  }

  /** The remote write of the assembled booking `b`: fails when the answer is
      not ok, when its body does not decode, or when the body's status is
      `"error"` (with the body's message); otherwise yields `b` itself, not
      anything the server sent back. */
  function RemoteCreate(b: Booking, response: CreateResponse): (r: Result<Booking, ServiceError>)
    ensures !response.ok ==> r == Failure(Thrown("Failed to send data to Google Sheet"))
    ensures r.Success? <==> response.ok && response.body.Some? && response.body.value.status != Some("error")
    ensures r.Success? ==> r.value == b
    ensures response.ok && response.body.Some? && response.body.value.status == Some("error") ==>
              r == Failure(Thrown(match response.body.value.message case Some(m) => m case None => ""))
  {
    if !response.ok then Failure(Thrown("Failed to send data to Google Sheet"))
    else match response.body
      case None => Failure(BodyNotJson)
      case Some(reply) =>
        if reply.status == Some("error") then
          Failure(Thrown(match reply.message case Some(m) => m case None => ""))
        else
          Success(b)
  }

  /** The local read: the stored list, or a copy of the seed records when the
      slot is empty. */
  function LocalFetch(slot: Option<seq<Booking>>): seq<Booking> {
    match slot
    case Some(list) => list
    case None => INITIAL_DATA
  }

  /** The slot after a local write of `b`: `b` before the current list (the
      seed records when the slot was empty). */
  function LocalCreate(slot: Option<seq<Booking>>, b: Booking): Option<seq<Booking>> {
    Some([b] + LocalFetch(slot))
  }

  /** With nothing stored, the local read yields the three seed records with
      ids "1", "2" and "3". */
  lemma LocalFetchSeeds()
    ensures |LocalFetch(None)| == 3
    ensures LocalFetch(None)[0].id == "1" && LocalFetch(None)[1].id == "2" && LocalFetch(None)[2].id == "3"
  {
  }

  /** A local write followed by a local read yields the new booking followed
      by the earlier list, in its order: one more element than before. */
  lemma LocalCreateThenFetch(slot: Option<seq<Booking>>, b: Booking)
    ensures LocalFetch(LocalCreate(slot, b)) == [b] + LocalFetch(slot)
    ensures |LocalFetch(LocalCreate(slot, b))| == |LocalFetch(slot)| + 1
    ensures LocalFetch(LocalCreate(slot, b))[0] == b
  {
  }

  /** The slot after writing `bs` one after the other. */
  function LocalCreateAll(slot: Option<seq<Booking>>, bs: seq<Booking>): Option<seq<Booking>>
    decreases |bs|
  {
    if bs == [] then slot else LocalCreateAll(LocalCreate(slot, bs[0]), bs[1..])
  }

  function Reversed<T>(s: seq<T>): (r: seq<T>)
    ensures |r| == |s|
    ensures forall k :: 0 <= k < |s| ==> r[k] == s[|s| - 1 - k]
  {
    if s == [] then [] else Reversed(s[1..]) + [s[0]]
  }

  /** Successive local writes: the list read back holds the written bookings,
      latest first, before the earlier list, and grows by one per write. */
  lemma {:induction false} LocalCreateAllThenFetch(slot: Option<seq<Booking>>, bs: seq<Booking>)
    ensures LocalFetch(LocalCreateAll(slot, bs)) == Reversed(bs) + LocalFetch(slot)
    ensures |LocalFetch(LocalCreateAll(slot, bs))| == |LocalFetch(slot)| + |bs|
    decreases |bs|
  {
    if bs != [] {
      var earlier := LocalFetch(slot);
      LocalCreateAllThenFetch(LocalCreate(slot, bs[0]), bs[1..]);
      assert LocalFetch(LocalCreate(slot, bs[0])) == [bs[0]] + earlier;
      assert Reversed(bs) == Reversed(bs[1..]) + [bs[0]];
      assert Reversed(bs[1..]) + ([bs[0]] + earlier) == Reversed(bs) + earlier;
    }
  }

  /** The persistence gateway. `apiUrl` selects the backend once: remote when
      non-empty, local otherwise; `slot` is the local storage entry under
      `hr_bookings_ru`, with the list it holds in deserialized form. */
  class BookingStore {
    const apiUrl: string
    var slot: Option<seq<Booking>>

    constructor (apiUrl: string, slot: Option<seq<Booking>>)
      ensures this.apiUrl == apiUrl && this.slot == slot
    {
      this.apiUrl := apiUrl;
      this.slot := slot;
    }

    /** `fetchBookings`: the remote read when an endpoint is configured,
        otherwise the stored list or the seed records. Storage is not written. */
    method FetchBookings(response: FetchResponse) returns (r: Result<seq<Booking>, ServiceError>)
      ensures apiUrl != "" ==> r == RemoteFetch(response)
      ensures apiUrl == "" && slot.Some? ==> r == Success(slot.value)
      ensures apiUrl == "" && slot.None? ==> r == Success(INITIAL_DATA)
    {
      if apiUrl != "" {
        r := RemoteFetch(response);
      } else {
        var list := LocalFetch(slot);
        r := Success(list);
      }
    }

    /** `createBooking`: attaches the generated `id` to the request; remotely,
        sends it and decides on the answer, leaving storage alone; locally,
        prepends it to the stored list (the seed records when nothing is
        stored), writes the list back and yields it. */
    method CreateBooking(req: BookingRequest, id: string, response: CreateResponse)
      returns (r: Result<Booking, ServiceError>)
      modifies this
      ensures apiUrl != "" ==> r == RemoteCreate(WithId(req, id), response) && slot == old(slot)
      ensures apiUrl == "" ==> r == Success(WithId(req, id)) && slot == LocalCreate(old(slot), WithId(req, id))
    {
      var newBooking := WithId(req, id);
      if apiUrl != "" {
        r := RemoteCreate(newBooking, response);
        return;
      }
      var currentList := LocalFetch(slot);
      slot := Some([newBooking] + currentList);
      r := Success(newBooking);
    }
  }
}
