# Meeting-room booking widget: the rules behind the screens

This project models, in Dafny, the rules inside a small HR meeting-room
booking widget: the booking service with its local-storage slot and remote
endpoint, the reservation form with its meeting-length calculation, the
per-hour histogram on the dashboard, the newest-first booking list and the
page state that ties them together. Everything visual is left aside.

Modules follow the source files:

- `Types` (`types.ts`): the `Booking` record, the id-less creation request
  and the form's field record.
- `JsText`: the part of JavaScript's `parseInt` and number-to-text
  conversion the widget relies on: white space, sign, `0x` prefix, longest
  digit prefix, NaN as `None`.
- `Clock`: the digits of `HH:mm` times and `YYYY-MM-DD` dates.
- `Sorting`: a stable comparison sort over a key that may be NaN.
- `BookingService` (`bookingService.ts`): remote answers as decision
  functions, and the `BookingStore` class whose `slot` field is the
  `hr_bookings_ru` storage entry.
- `BookingForm` (`BookingForm.tsx`): the meeting length, and the `FormState`
  class with the form's handlers.
- `DashboardStats` (`DashboardStats.tsx`): the tally loop, the chart data and
  its properties.
- `BookingList` (`BookingList.tsx`): the newest-first order and the three
  list views.
- `App` (`App.tsx`): the `AppState` class with `loadData` and
  `handleBookingSubmit`.

The endpoint constant is non-empty, so as configured the service runs its
remote branch. The store takes the endpoint as a field, so both branches are
modelled. Network answers, the generated id, the agenda writer's reply and
today's date are parameters.

## Model

| member | source | states |
|---|---|---|
| Types.WithId | bookingService.ts:40-43 | the created booking carries the given id, and dropping that id gives back exactly the request's fields |
| JsText.TrimStartNoSpace | BookingForm.tsx:34-35 | `parseInt` skips nothing in a text that does not start with white space |
| JsText.ParseInt | BookingForm.tsx:34-35 | `parseInt(s)` with radix 10 or 16 chosen by the text: leading white space skipped, an optional sign, an optional `0x`, the longest digit run, NaN (`None`) when there is none; its readings are stated by ParseIntOfDigits, ParseIntOfDigitText, ParseIntOfNegative and ParseIntOfIntToString |
| JsText.DigitRun | DashboardStats.tsx:12 | the digits `parseInt` reads are the longest digit prefix of the text |
| JsText.ParseMagnitude | BookingForm.tsx:34-35 | an unsigned reading is never negative |
| JsText.NatToString | DashboardStats.tsx:18 | the decimal text of a count or hour is non-empty, all digits and has no leading zero |
| JsText.NatToStringValue | DashboardStats.tsx:18-19 | reading those digits back gives the number |
| JsText.IntToString | DashboardStats.tsx:18 | `String(n)` for an integer is non-empty and starts with a minus sign exactly when `n` is negative; ParseIntOfIntToString reads it back |
| JsText.ParseIntOfDigits | BookingForm.tsx:34-35 | `parseInt` of a digit run followed by a non-digit is the run's decimal value |
| JsText.ParseIntOfDigitText | BookingForm.tsx:34-35 | `parseInt` of a non-empty text of decimal digits is its decimal value |
| JsText.NegativeText | DashboardStats.tsx:17-20 | the text of a negative number is a minus sign before the text of its magnitude |
| JsText.ParseIntOfNegative | DashboardStats.tsx:17-20 | `parseInt` reads the text of a negative number, followed by text not starting with a digit or `x`, back as that number |
| JsText.ParseIntOfIntToString | DashboardStats.tsx:17-20 | `parseInt(String(n) + rest)` is `n` for any integer and any `rest` that does not start with a digit or `x`, so a bar's name and a key's text both read back as the hour |
| Clock.TwoDigitValue | BookingForm.tsx:39-42 | two digits read as a number below 100 |
| Clock.MinuteOfDay | BookingForm.tsx:39-43 | a well-formed time falls inside a day: below 1440 minutes |
| BookingService.ConfiguredEndpointIsRemote | bookingService.ts:5 | the configured endpoint is non-empty; with `apiUrl == API_URL` the contracts of FetchBookings and CreateBooking then give their remote branch |
| BookingService.RemoteFetch | bookingService.ts:18-27 | a read fails with "Network response was not ok" when the answer is not ok; it succeeds exactly when the answer is ok and its body decodes, and then yields that body unchanged |
| BookingService.RemoteCreate | bookingService.ts:46-61 | a write fails with "Failed to send data to Google Sheet" when not ok, and with the body's message when its status is "error"; it succeeds exactly otherwise (and when the body decodes) and yields the client-assembled booking, not a server echo |
| BookingService.LocalFetch | bookingService.ts:30-36 | the stored list, or a copy of the seed records when nothing is stored; LocalFetchSeeds and LocalCreateThenFetch state its results |
| BookingService.LocalCreate | bookingService.ts:63-68 | the new list is the booking before the current one; LocalCreateThenFetch and LocalCreateAllThenFetch state what is read back |
| BookingService.LocalFetchSeeds | bookingService.ts:8-12 | with nothing stored the local read yields exactly three seed records, ids "1", "2", "3" |
| BookingService.LocalCreateThenFetch | bookingService.ts:63-70 | after a local write, reading back yields the new booking as head, followed by the earlier list in order (the seeds when nothing was stored), one longer |
| BookingService.Reversed | bookingService.ts:63-70 | the reversal of a list, element by element |
| BookingService.LocalCreateAllThenFetch | bookingService.ts:63-70 | after several local writes the list read back is the written bookings, latest first, before the earlier list, longer by their number |
| BookingService.BookingStore.constructor | bookingService.ts:5 | a store with the given endpoint and storage slot |
| BookingService.BookingStore.FetchBookings | bookingService.ts:16-37 | with an endpoint, the remote read decides; otherwise the stored list unchanged, or the seed records when nothing is stored; storage is not written |
| BookingService.BookingStore.CreateBooking | bookingService.ts:39-71 | with an endpoint, the remote decision on the request plus id and storage untouched; otherwise success with that booking and the slot holding it before the previous list |
| BookingForm.FirstIndex | BookingForm.tsx:34-35 | the position found holds the character and no earlier position does |
| BookingForm.RemoveFirst | BookingForm.tsx:34-35 | `replace(':', '')` leaves text without a colon unchanged and makes text with one exactly one character shorter |
| BookingForm.RemoveFirstAt | BookingForm.tsx:34-35 | the character removed is the first colon, and all the others stay, in order |
| BookingForm.HHmm | BookingForm.tsx:34-35 | `parseInt(t.replace(':', ''))`; HHmmOfTime gives its value on `HH:mm` text and DurationFallback covers its NaN |
| BookingForm.JsRem | BookingForm.tsx:40-42 | JavaScript's `%`: the remainder has the dividend's sign, lies strictly within the divisor and differs from the dividend by a multiple of it, so a negative reading such as -130 leaves -30; SplitHHmm shows it recovers the minutes |
| BookingForm.JsRemUnique | BookingForm.tsx:40-42 | those three properties fix the remainder: any value meeting them is JsRem's |
| BookingForm.MinutesBetween | BookingForm.tsx:36-44 | the length from two readings; MinutesBetweenClockTimes states it for clock-time readings and DurationFallback for NaN or an end not after the start |
| BookingForm.Duration | BookingForm.tsx:34-44 | the length from the two time fields; DurationOfTimes states it for well-formed times, always within 1..1439 |
| BookingForm.RemoveColonOfTime | BookingForm.tsx:34-35 | `replace(':', '')` on `HH:mm` leaves the four digits, in order |
| BookingForm.FourDigitsValue | BookingForm.tsx:34-35 | four digits read in decimal are the first pair's value times 100 plus the second pair's |
| BookingForm.HHmmOfTime | BookingForm.tsx:34-35 | a well-formed `HH:mm` reads as the integer `HH * 100 + mm` |
| BookingForm.SplitHHmm | BookingForm.tsx:39-42 | flooring division by 100 and JavaScript's `%` 100 split an `HHmm` reading back into hours and minutes |
| BookingForm.MinutesBetweenClockTimes | BookingForm.tsx:37-44 | for readings of clock times (hours up to 23, minutes up to 59) the source's arithmetic gives the minutes from start to end when the end is later and 60 otherwise: comparing `HHmm` integers compares the times |
| BookingForm.DurationFallback | BookingForm.tsx:34-38 | when a reading is NaN or the end is not after the start, the duration is 60 |
| BookingForm.DurationOfTimes | BookingForm.tsx:34-44 | for well-formed times: end after start gives `(endH*60+endM) - (startH*60+startM)`, otherwise 60; the duration is always in 1..1439 |
| BookingForm.DurationOfReadings | BookingForm.tsx:34-44 | the same, stated over the two `HHmm` readings |
| BookingForm.DurationExamples | BookingForm.tsx:34-44 | "09:00" to "10:30" gives 90; "10:00" to "09:00" gives the default 60 |
| BookingForm.SetField | BookingForm.tsx:23-26 | the named field takes the value and every other field keeps its value |
| BookingForm.ClearedForNext | BookingForm.tsx:58 | topic and name become empty; date, start and end are kept |
| BookingForm.FormState.constructor | BookingForm.tsx:12-21 | the form starts on today's date, 09:00 to 10:00, empty name and topic, no agenda, not generating |
| BookingForm.FormState.HandleChange | BookingForm.tsx:23-26 | only the named field changes; agenda and busy flag are untouched |
| BookingForm.FormState.HandleAISuggestion | BookingForm.tsx:28-52 | an empty topic requests nothing and changes nothing; otherwise the topic and the computed duration are requested, the reply becomes the agenda and the busy flag ends false; the fields never change |
| BookingForm.FormState.HandleSubmit | BookingForm.tsx:54-60 | hands on the current fields and agenda, then clears topic, name and agenda and keeps date and times |
| Sorting.Insert | BookingList.tsx:12-16 | inserting keeps every element and adds the new one, as a multiset |
| Sorting.InsertSorted | BookingList.tsx:12-16 | inserting into a sorted list keeps it sorted |
| Sorting.SortBy | BookingList.tsx:12-16 | the sorted copy is a permutation of the input (same multiset, same length) in non-decreasing key order |
| Sorting.InsertKeepsDistinct | DashboardStats.tsx:17-20 | inserting an element of a new key keeps the keys distinct |
| Sorting.SortByKeepsDistinct | DashboardStats.tsx:17-20 | sorting keeps distinct keys distinct, so a sorted list of distinct keys is strictly ascending |
| Sorting.SortedUnique | DashboardStats.tsx:17-20 | a sorted list with distinct keys is the only sorted arrangement of its elements |
| Sorting.SortPair | BookingList.tsx:12-16 | two elements already in rank order are their own sorted order |
| Sorting.SortSwapped | BookingList.tsx:12-16 | two elements, the first ranked after the second, swap places |
| Sorting.InsertBehindPair | BookingList.tsx:12-16 | an element ranked after both elements of a pair goes behind them |
| Sorting.SortReversed3 | BookingList.tsx:12-16 | three elements, each ranked strictly after the next, come out reversed |
| DashboardStats.BeforeColon | DashboardStats.tsx:12 | `split(':')[0]` is the longest colon-free prefix |
| DashboardStats.HourOf | DashboardStats.tsx:12 | `parseInt(startTime.split(':')[0])`; HourOfTwoDigits gives it for a two-digit hour |
| DashboardStats.CountHour | DashboardStats.tsx:11-15 | an hour's count never exceeds the number of bookings |
| DashboardStats.CountHourOfMember | DashboardStats.tsx:11-15 | every booking is counted under its own hour |
| DashboardStats.HourKeys | DashboardStats.tsx:11-17 | the object's keys are distinct and are exactly the hours with a positive count |
| DashboardStats.Tally | DashboardStats.tsx:11-15 | the object maps exactly the hours with a positive count, each to its number of bookings |
| DashboardStats.KeyText | DashboardStats.tsx:17-18 | the text of an object key: `String` of the hour, or "NaN"; KeyTextRoundTrip reads it back |
| DashboardStats.KeyTextRoundTrip | DashboardStats.tsx:17-20 | `parseInt` of a key's text, with or without ":00", gives back the key, NaN included |
| DashboardStats.Entry | DashboardStats.tsx:17-20 | a bar is named key text plus ":00", and the count looked up by `parseInt` of the key text is the key's own count |
| DashboardStats.Entries | DashboardStats.tsx:17-20 | one bar per key, in key order |
| DashboardStats.EntriesHours | DashboardStats.tsx:17-20 | each bar's name reads back as its key |
| DashboardStats.ChartData | DashboardStats.tsx:17-20 | the bars, sorted by `parseInt` of their names; its properties are ChartCounts, ChartCovers, ChartAscending, ChartOrderIndependent and ChartTotal |
| DashboardStats.ChartEmpty | DashboardStats.tsx:22 | the chart has no bar exactly when there are no bookings |
| DashboardStats.ChartView | DashboardStats.tsx:22 | nothing is rendered exactly when there are no bookings, otherwise the chart data |
| DashboardStats.HourlyStats | DashboardStats.tsx:11-20 | the loop over the bookings, followed by the map and sort, yields the chart data |
| DashboardStats.ChartCounts | DashboardStats.tsx:11-19 | every bar is named `<hour>:00` and counts the bookings of its hour, at least one |
| DashboardStats.BarOfKey | DashboardStats.tsx:17-19 | any arrangement of the bars has a bar for each key |
| DashboardStats.KeyOfBar | DashboardStats.tsx:17-19 | every bar of such an arrangement belongs to a key |
| DashboardStats.BarsOfKeys | DashboardStats.tsx:17-19 | such an arrangement has a bar for exactly the keys |
| DashboardStats.ChartCovers | DashboardStats.tsx:11-20 | the chart has a bar for an hour exactly when some booking starts in it |
| DashboardStats.ChartHasBookingHour | DashboardStats.tsx:11-20 | every booking's hour has a bar |
| DashboardStats.EntriesDistinct | DashboardStats.tsx:17-20 | no two bars share an hour |
| DashboardStats.StrictRank | DashboardStats.tsx:20 | strictly ordered keys mean a numeric hour below the next, or the next is NaN |
| DashboardStats.AscendingHours | DashboardStats.tsx:20 | sorted bars of distinct hours are strictly ascending, with a NaN bar last |
| DashboardStats.ChartAscending | DashboardStats.tsx:17-20 | the chart's bars are in strictly ascending hour order, a NaN bar last |
| DashboardStats.ChartOrderIndependent | DashboardStats.tsx:17-20 | whatever order the object lists its keys in, the sorted chart is the same |
| DashboardStats.TotalCountAppend | DashboardStats.tsx:11-15 | the total of two lists of bars is the sum of their totals |
| DashboardStats.TotalCountInsert | DashboardStats.tsx:20 | inserting a bar adds its count to the total |
| DashboardStats.TotalCountSort | DashboardStats.tsx:20 | sorting keeps the total |
| DashboardStats.KeyTotalStep | DashboardStats.tsx:11-15 | one more booking adds one to the total over distinct hours that include its own |
| DashboardStats.KeyTotalAll | DashboardStats.tsx:11-15 | the hours' counts add up to the number of bookings |
| DashboardStats.TotalCountEntries | DashboardStats.tsx:17-19 | the bars' total is the total of their hours' counts |
| DashboardStats.ChartTotal | DashboardStats.tsx:11-20 | the bars' counts add up to the number of bookings, NaN bar included |
| DashboardStats.HourOfTwoDigits | DashboardStats.tsx:12 | a start time "dd:..." is counted under the hour the two digits spell |
| DashboardStats.ExampleTally | DashboardStats.tsx:11-15 | hours 9, 9, 14 give keys 9 then 14 with counts 2 and 1 |
| DashboardStats.ExampleLabels | DashboardStats.tsx:18 | hours 9 and 14 are written "9" and "14", without a leading zero |
| DashboardStats.ExampleEntries | DashboardStats.tsx:17-19 | those keys give the bars ("9:00", 2) and ("14:00", 1) |
| DashboardStats.PairEntries | DashboardStats.tsx:17-19 | two keys give two bars, each named after its key and carrying its count |
| DashboardStats.ExampleChart | DashboardStats.tsx:17-20 | keys 9 then 14 with counts 2 and 1 are charted as ("9:00", 2) then ("14:00", 1) |
| DashboardStats.ChartExample | DashboardStats.tsx:11-20 | start times "09:15", "09:45", "14:00" give exactly the bars ("9:00", 2) and ("14:00", 1), in that order |
| BookingList.Timestamp | BookingList.tsx:13-14 | the time stamp of a booking with a well-formed date and start time, NaN otherwise; MomentKeyOrder shows it orders moments as the calendar does |
| BookingList.MomentKeyOrder | BookingList.tsx:13-15 | for in-range dates and times, a smaller time stamp is exactly an earlier moment |
| BookingList.NewestFirstRank | BookingList.tsx:15 | `dateB - dateA` as an ascending key: the negated time stamp, NaN last; RankNotOlder turns its order into newest-first order |
| BookingList.SortNewestFirst | BookingList.tsx:12-16 | the sorted copy is a permutation of the input; bookings with a time stamp precede those without, time stamps never increase, and no booking precedes an earlier one |
| BookingList.RankNotOlder | BookingList.tsx:12-16 | a booking ranked no later than another has a time stamp no smaller (a missing stamp ranks last) and a moment no earlier |
| BookingList.RenderList | BookingList.tsx:18-53 | loading shows placeholders whatever the contents; otherwise the empty notice exactly for no bookings, and for a non-empty list exactly the count and the sorted cards |
| BookingList.SeedMoments | bookingService.ts:8-12 | the seed records' dates and start times are well formed, with the moments they spell |
| BookingList.SeedOrder | BookingList.tsx:12-16 | the seed records list as 28 October 11:00, 27 October 14:00, 27 October 09:00 |
| App.CreatePayload | App.tsx:34-37 | the request carries the form's fields unchanged, the topic present, and the agenda added |
| App.AppState.constructor | App.tsx:10-12 | the page starts with no bookings, loading, not submitting |
| App.AppState.LoadData | App.tsx:14-24 | success replaces the shown list with the fetched one, failure keeps it; loading ends false either way; in local mode the page then shows the stored list |
| App.AppState.HandleBookingSubmit | App.tsx:31-45 | the created booking carries the form's fields, the agenda and the id; on success it is put at the head of the unchanged earlier list, on failure the list is kept and the alert is shown; submitting ends false; a page showing the stored list still does |

## Left out

- The `fetch` transport, JSON encoding and decoding, and the `delay` timers are I/O. Network answers are inputs, and a stored list is held in decoded form, which assumes encoding then decoding gives the list back.
- A remote body that decodes to something other than a list of bookings, and a write reply that is not an object, are not modelled: a decoded body is a list of bookings or absent.
- The id generated with `Math.random().toString(36)` is an input. Nothing is claimed about its form or its uniqueness.
- geminiService.ts is not part of this model. The agenda writer's reply, including its two fallback texts, is an input to the form.
- Today's date for the form's initial `date` field comes from the clock, so it is a constructor parameter.
- Async interleaving is not modelled: overlapping loads, a submit during a load, edits made while an agenda is being written, and the storage read-modify-write race. Each handler runs to completion.
- The intermediate `loading = true`, `submitting = true` and `isGeneratingAI = true` states are visible only during the awaited call. The model states the state after the handler finishes, and FormState.HandleAISuggestion collapses the agenda request into one step.
- All JSX, styling, icons and chart drawing are left out, and so are the list's localised date formatting and the 800 and 1200 ms delays.
- BookingList.Timestamp: stands in for `new Date(date + "T" + startTime).getTime()`. It is defined only for strict `YYYY-MM-DD` and `HH:mm` text with month 1..12, day 1..31, hour 0..23 and minute 0..59, and orders those moments as the calendar does. Time zone, daylight-saving shifts, day overflow such as 31 April, and the looser forms `Date` also accepts are not modelled. Any other text is NaN.
- Sorting.RankLe: places a NaN key after every number. A comparator that answers NaN (an invalid date, a non-numeric hour) is inconsistent, and then ECMAScript leaves the order of the whole result implementation-defined, valid elements included. The model's order agrees with JavaScript's only when every booking has a time stamp and, for the chart, every hour is a number.
- BookingList.SortNewestFirst: its promises that time stamps never increase and that stamped bookings come first hold for the program only when every booking has a time stamp. With an invalid date present an engine may, for example, leave an older booking before a newer one.
- JsText.ParseInt: reads integers with unbounded precision. JavaScript numbers lose precision beyond 2^53, and `String` writes very large numbers in exponent form. Neither matters for hours and `HHmm` readings of clock times.
- DashboardStats.Entries: takes the object's keys in the order the tally first meets them. JavaScript lists array-index keys (0 to 2^32-2) in ascending order and every other key, "-1" and "NaN" included, in insertion order. DashboardStats.ChartOrderIndependent shows that the sorted chart is the same for every key order, which matches JavaScript only while the comparator is consistent, that is, with no NaN hour.
- BookingService.BookingStore.FetchBookings: a stored entry that is present but empty counts as nothing stored in JavaScript (an empty string is falsy). Since the store always writes a serialized list, the slot is either absent or holds a list.
- The `console.error` logging of a failed read or write (bookingService.ts:25, App.tsx:20 and App.tsx:40) is output only and is left out.
- A `fetch` that is rejected (a network error, a CORS refusal) has no `FetchResponse` or `CreateResponse`. Its outcome matches an answer with `ok` false except for the error value thrown, so the model covers it only through that case.
