/** BookingForm.tsx: the reservation form's state and its handlers, and the
    meeting length it derives from the two time fields. */
module BookingForm {
  import opened Wrappers
  import opened Types
  import opened JsText
  import opened Clock

  /** The duration used when the end time is not after the start time. */
  const DEFAULT_DURATION: int := 60

  /** The position of the first occurrence of `c` in `s`. */
  function FirstIndex(s: string, c: char): (i: nat)
    requires c in s
    ensures i < |s| && s[i] == c && c !in s[..i]
  {
    if s[0] == c then 0
    else
      var i := FirstIndex(s[1..], c) + 1;
      assert s[..i] == [s[0]] + s[1..][..i - 1];
      i
  }

  /** `s.replace(c, '')` with a one-character pattern: text without `c` is
      unchanged, text with it loses one character. */
  function RemoveFirst(s: string, c: char): (r: string)
    ensures c !in s ==> r == s
    ensures |r| == if c in s then |s| - 1 else |s|
  {
    if s == [] then []
    else if s[0] == c then s[1..]
    else [s[0]] + RemoveFirst(s[1..], c)
  }

  /** The character removed is the first occurrence of `c`, and every other
      character stays, in order. */
  lemma {:induction false} RemoveFirstAt(s: string, c: char)
    requires c in s
    ensures RemoveFirst(s, c) == s[..FirstIndex(s, c)] + s[FirstIndex(s, c) + 1..]
  {
    if s[0] != c {
      var k := FirstIndex(s[1..], c);
      RemoveFirstAt(s[1..], c);
      assert FirstIndex(s, c) == k + 1;
      assert s[..k + 1] == [s[0]] + s[1..][..k];
      assert s[k + 2..] == s[1..][k + 1..];
    }
  }

  /** `parseInt(t.replace(':', ''))`: a time read as the integer `HHmm`. */
  function HHmm(t: string): Option<int> {
    ParseInt(RemoveFirst(t, ':'))
  }

  /** JavaScript's `%`: the remainder takes the sign of the dividend, and
      differs from it by a multiple of the divisor; together these fix it. */
  function JsRem(a: int, b: int): (r: int)
    requires b > 0
    ensures a >= 0 ==> 0 <= r < b
    ensures a < 0 ==> -b < r <= 0
    ensures exists q: int :: a == q * b + r
  {
    var r := if a >= 0 then a % b else -((-a) % b);
    assert a == (if a >= 0 then a / b else -((-a) / b)) * b + r;
    r
  }

  /** The sign, range and quotient clauses leave one value: any remainder
      meeting them is `JsRem`'s, so `-130 % 100` is -30. */
  lemma JsRemUnique(a: int, b: int, q: int, r: int)
    requires b > 0 && a == q * b + r
    requires a >= 0 ==> 0 <= r < b
    requires a < 0 ==> -b < r <= 0
    ensures r == JsRem(a, b)
  {
    var r' := JsRem(a, b);
    var q' :| a == q' * b + r';
    assert (q - q') * b == r' - r;
    assert -b < r' - r < b;
    MultipleWithinDivisor(q - q', b, r' - r);
  }

  /** A multiple of `b` strictly between `-b` and `b` is zero. */
  lemma MultipleWithinDivisor(k: int, b: int, d: int)
    requires b > 0 && k * b == d && -b < d < b
    ensures d == 0
  {
    MultipleBound(k, b);
  }

  /** A non-zero multiple of `b` is at least `b` away from zero. */
  lemma MultipleBound(k: int, b: int)
    requires b > 0
    ensures k >= 1 ==> k * b >= b
    ensures k <= -1 ==> k * b <= -b
  {
    if k >= 1 {
      assert k * b == (k - 1) * b + b;
      assert (k - 1) * b >= 0;
    } else if k <= -1 {
      assert k * b == (k + 1) * b - b;
      assert (k + 1) * b <= 0;
    }
  }

  /** The meeting length computed from the two `HHmm` readings: the
      difference in minutes when the end is after the start, the default
      otherwise, including when either reading is NaN (every comparison with
      NaN is false). */
  function MinutesBetween(start: Option<int>, end: Option<int>): int {
    if start.Some? && end.Some? && end.value > start.value then
      // Math.floor(x / 100) is Dafny's division, the divisor being positive
      var startH := start.value / 100;
      var startM := JsRem(start.value, 100);
      var endH := end.value / 100;
      var endM := JsRem(end.value, 100);
      (endH * 60 + endM) - (startH * 60 + startM)
    else
      DEFAULT_DURATION
  }

  /** The meeting length in minutes handed to the agenda writer. */
  function Duration(startTime: string, endTime: string): int {
    MinutesBetween(HHmm(startTime), HHmm(endTime))
  }

  /** Removing the colon of `HH:mm` leaves its four digits. */
  lemma RemoveColonOfTime(t: string)
    requires IsTimeText(t)
    ensures RemoveFirst(t, ':') == [t[0], t[1], t[3], t[4]]
  {
    assert t[2..][1..] == t[3..];
    assert RemoveFirst(t[2..], ':') == t[3..];
    assert t[1..][1..] == t[2..];
    assert RemoveFirst(t[1..], ':') == [t[1]] + t[3..];
    assert t[3..] == [t[3], t[4]];
  }

  /** Four decimal digits read as the two-digit values of their halves. */
  lemma FourDigitsValue(a: char, b: char, c: char, d: char)
    requires IsDigit(a) && IsDigit(b) && IsDigit(c) && IsDigit(d)
    ensures DigitsValue([a, b, c, d], 10) == TwoDigitValue(a, b) * 100 + TwoDigitValue(c, d)
  {
    assert [a, b, c, d][..3] == [a, b, c];
    assert [a, b, c][..2] == [a, b];
    assert [a, b][..1] == [a];
    assert [a][..0] == [];
    assert DigitsValue([a], 10) == HexDigitValue(a);
    assert DigitsValue([a, b], 10) == TwoDigitValue(a, b);
    assert DigitsValue([a, b, c], 10) == TwoDigitValue(a, b) * 10 + HexDigitValue(c);
  }

  /** A well-formed `HH:mm` reads as the integer `HH * 100 + mm`. */
  lemma HHmmOfTime(t: string)
    requires IsTimeText(t)
    ensures HHmm(t) == Some(Hours(t) * 100 + Minutes(t))
  {
    var ds := [t[0], t[1], t[3], t[4]];
    RemoveColonOfTime(t);
    FourDigitsValue(t[0], t[1], t[3], t[4]);
    assert AllDigits(ds);
    ParseIntOfDigitText(ds);
    var v := DigitsValue(ds, 10);
    assert v == Hours(t) * 100 + Minutes(t);
    assert HHmm(t) == ParseInt(ds) == Some(v);
  }

  /** Splitting `HH * 100 + mm` back into hours and minutes, as the source does
      with `Math.floor(x / 100)` and `x % 100`. */
  lemma SplitHHmm(h: nat, m: nat)
    requires m < 100
    ensures (h * 100 + m) / 100 == h
    ensures JsRem(h * 100 + m, 100) == m
  {
  }

  /** On `HHmm` readings of two clock times, the source's arithmetic yields
      the minutes from start to end when the end is later, and the default
      otherwise: ordering `HHmm` integers orders the clock times. */
  lemma MinutesBetweenClockTimes(sh: nat, sm: nat, eh: nat, em: nat)
    requires sh <= 23 && sm <= 59 && eh <= 23 && em <= 59
    ensures MinutesBetween(Some(sh * 100 + sm), Some(eh * 100 + em))
         == if eh * 60 + em > sh * 60 + sm then (eh * 60 + em) - (sh * 60 + sm) else DEFAULT_DURATION
  {
    SplitHHmm(sh, sm);
    SplitHHmm(eh, em);
    assert eh * 100 + em > sh * 100 + sm <==> eh * 60 + em > sh * 60 + sm;
  }

  /** When either time is not a number, or the end is not after the start,
      the default duration is used. */
  lemma DurationFallback(startTime: string, endTime: string)
    requires HHmm(startTime).None? || HHmm(endTime).None? || HHmm(endTime).value <= HHmm(startTime).value
    ensures Duration(startTime, endTime) == DEFAULT_DURATION
  {
  }

  /** For two well-formed times the duration is the number of minutes from
      start to end when the end is later, and the default otherwise; either way
      it lies between one minute and a day less one minute. */
  lemma DurationOfTimes(startTime: string, endTime: string)
    requires WellFormedTime(startTime) && WellFormedTime(endTime)
    ensures MinuteOfDay(endTime) > MinuteOfDay(startTime) ==>
              Duration(startTime, endTime) == MinuteOfDay(endTime) - MinuteOfDay(startTime)
    ensures MinuteOfDay(endTime) <= MinuteOfDay(startTime) ==>
              Duration(startTime, endTime) == DEFAULT_DURATION
    ensures 1 <= Duration(startTime, endTime) <= 24 * 60 - 1
  {
    HHmmOfTime(startTime);
    HHmmOfTime(endTime);
    DurationOfReadings(startTime, endTime, Hours(startTime), Minutes(startTime), Hours(endTime), Minutes(endTime));
  }

  /** The duration of two times whose `HHmm` readings are known clock times. */
  lemma DurationOfReadings(startTime: string, endTime: string, sh: nat, sm: nat, eh: nat, em: nat)
    requires sh <= 23 && sm <= 59 && eh <= 23 && em <= 59
    requires HHmm(startTime) == Some(sh * 100 + sm) && HHmm(endTime) == Some(eh * 100 + em)
    ensures Duration(startTime, endTime)
         == if eh * 60 + em > sh * 60 + sm then (eh * 60 + em) - (sh * 60 + sm) else DEFAULT_DURATION
  {
    MinutesBetweenClockTimes(sh, sm, eh, em);
  }

  /** 09:00 to 10:30 is 90 minutes; 10:00 to 09:00 falls back to 60. */
  lemma DurationExamples()
    ensures Duration("09:00", "10:30") == 90
    ensures Duration("10:00", "09:00") == 60
  {
    assert WellFormedTime("09:00") && MinuteOfDay("09:00") == 540;
    assert WellFormedTime("10:30") && MinuteOfDay("10:30") == 630;
    assert WellFormedTime("10:00") && MinuteOfDay("10:00") == 600;
    DurationOfTimes("09:00", "10:30");
    DurationOfTimes("10:00", "09:00");
  }

  /** The names of the form's inputs. */
  datatype Field = Date | StartTime | EndTime | EmployeeName | Topic

  function FieldValue(f: FormData, name: Field): string {
    match name
    case Date => f.date
    case StartTime => f.startTime
    case EndTime => f.endTime
    case EmployeeName => f.employeeName
    case Topic => f.topic
  }

  /** `{ ...prev, [name]: value }`: the named field takes the value, every
      other field keeps its own. */
  function SetField(f: FormData, name: Field, value: string): (r: FormData)
    ensures forall g :: FieldValue(r, g) == if g == name then value else FieldValue(f, g)
  {
    match name
    case Date => f.(date := value)
    case StartTime => f.(startTime := value)
    case EndTime => f.(endTime := value)
    case EmployeeName => f.(employeeName := value)
    case Topic => f.(topic := value)
  }

  /** The partial reset after a submission: topic and name are cleared, the
      date and the two times stay for the next booking. */
  function ClearedForNext(f: FormData): (r: FormData)
    ensures forall g :: FieldValue(r, g) == if g == Topic || g == EmployeeName then "" else FieldValue(f, g)
  {
    f.(topic := "", employeeName := "")
  }

  /** What the form asks the agenda writer for. */
  datatype AgendaRequest = AgendaRequest(topic: string, durationMinutes: int)

  /** The form component's state: the field values, the agenda drafted so
      far, and whether a draft is being written. */
  class FormState {
    var formData: FormData
    var generatedAgenda: string
    var isGeneratingAI: bool

    /** The initial state; `today` is the current UTC date as `YYYY-MM-DD`. */
    constructor (today: string)
      ensures formData == FormData(today, "09:00", "10:00", "", "")
      ensures generatedAgenda == "" && !isGeneratingAI
    {
      formData := FormData(today, "09:00", "10:00", "", "");
      generatedAgenda := "";
      isGeneratingAI := false;
    }

    /** An input changed: only the named field is updated. */
    method HandleChange(name: Field, value: string)
      modifies this
      ensures formData == SetField(old(formData), name, value)
      ensures generatedAgenda == old(generatedAgenda) && isGeneratingAI == old(isGeneratingAI)
    {
      formData := SetField(formData, name, value);
    }

    /** The agenda button: with an empty topic nothing happens and nothing is
        requested; otherwise the agenda writer is asked for the topic and the
        computed duration, its `reply` becomes the drafted agenda, and the busy
        flag ends cleared. */
    method HandleAISuggestion(reply: string) returns (request: Option<AgendaRequest>)
      modifies this
      ensures formData == old(formData)
      ensures old(formData).topic == "" ==>
                request.None? && generatedAgenda == old(generatedAgenda) && isGeneratingAI == old(isGeneratingAI)
      ensures old(formData).topic != "" ==>
                && request == Some(AgendaRequest(formData.topic, Duration(formData.startTime, formData.endTime)))
                && generatedAgenda == reply
                && !isGeneratingAI
    {
      if formData.topic == "" {
        return None;
      }
      isGeneratingAI := true;
      var duration := Duration(formData.startTime, formData.endTime);
      request := Some(AgendaRequest(formData.topic, duration));
      generatedAgenda := reply;
      isGeneratingAI := false;
    }

    /** Submission: the current fields and drafted agenda are handed on, then
        topic, name and agenda are cleared while date and times stay. */
    method HandleSubmit() returns (data: FormData, agenda: string)
      modifies this
      ensures data == old(formData) && agenda == old(generatedAgenda)
      ensures formData == ClearedForNext(old(formData))
      ensures generatedAgenda == "" && isGeneratingAI == old(isGeneratingAI)
    {
      data, agenda := formData, generatedAgenda;
      formData := ClearedForNext(formData);
      generatedAgenda := "";
    }
  }
}
