/**
 * The worker's input checks: the event body accepted by `POST /api/events`
 * and `PUT /api/events/:id`, the `month` query parameter of `GET /api/events`,
 * and the body of `POST /api/notification-settings`.
 */
module Validation {
  import opened Wrappers
  import opened Text

  // ------------------------------------------------------------ event types

  const InUnit: string := "ในหน่วย"
  const InDepartment: string := "ในกรม"
  const Headquarters: string := "บก.ใหญ่"
  const OffSite: string := "นอกหน่วย"

  /** The closed enumeration of event types, in the order the worker lists them. */
  const EventTypes: seq<string> := [InUnit, InDepartment, Headquarters, OffSite]

  // --------------------------------------------------------------- formats

  /** `/^\d{4}-\d{2}-\d{2}$/` */
  const DatePattern: string := "####-##-##"
  /** `/^\d{2}:\d{2}$/` */
  const TimePattern: string := "##:##"
  /** `/^\d{4}-\d{2}$/` */
  const MonthPattern: string := "####-##"

  predicate IsDateString(s: string) {
    MatchesDigitPattern(s, DatePattern)
  }

  predicate IsTimeString(s: string) {
    MatchesDigitPattern(s, TimePattern)
  }

  /** A field that JavaScript treats as true: present and not the empty string. */
  predicate Present(o: Option<string>) {
    o.Some? && o.value != ""
  }

  // ----------------------------------------------------------- event input

  /**
   * The fields of a request body; `None` is a field that is missing or not a
   * string.
   */
  datatype EventFields = EventFields(
    date: Option<string>, time: Option<string>, eventType: Option<string>,
    location: Option<string>, uniform: Option<string>, details: Option<string>,
    notes: Option<string>)

  /** The errors `validateEventInput` reports, in the order it checks for them. */
  datatype EventError =
    | InvalidInput | InvalidDate | InvalidTime | InvalidType
    | LocationRequired | UniformRequired | DetailsRequired
    | LocationTooLong | UniformTooLong | DetailsTooLong | NotesTooLong

  datatype Verdict = Valid | Invalid(error: EventError)

  const MaxShortField: nat := 500
  const MaxLongField: nat := 2000

  /** The error text sent back with status 400. */
  function Message(e: EventError): string {
    match e
    case InvalidInput => "Invalid input"
    case InvalidDate => "Invalid date format (required: YYYY-MM-DD)"
    case InvalidTime => "Invalid time format (required: HH:MM)"
    case InvalidType => "Invalid type"
    case LocationRequired => "Location is required"
    case UniformRequired => "Uniform is required"
    case DetailsRequired => "Details is required"
    case LocationTooLong => "Location too long (max 500 chars)"
    case UniformTooLong => "Uniform too long (max 500 chars)"
    case DetailsTooLong => "Details too long (max 2000 chars)"
    case NotesTooLong => "Notes too long (max 2000 chars)"
  }

  /** The position of a check in the order the worker runs them. */
  function Rank(e: EventError): nat {
    match e
    case InvalidInput => 0
    case InvalidDate => 1
    case InvalidTime => 2
    case InvalidType => 3
    case LocationRequired => 4
    case UniformRequired => 5
    case DetailsRequired => 6
    case LocationTooLong => 7
    case UniformTooLong => 8
    case DetailsTooLong => 9
    case NotesTooLong => 10
  }

  /** A text field that is a string with something other than white space in it. */
  predicate Filled(o: Option<string>) {
    o.Some? && !IsBlank(o.value)
  }

  /** A string field whose JavaScript length exceeds `limit`. */
  predicate TooLong(o: Option<string>, limit: nat) {
    o.Some? && Utf16Length(o.value) > limit
  }

  /** The condition under which the check that reports `e` fails for `d`. */
  predicate Fails(d: EventFields, e: EventError) {
    match e
    case InvalidInput => false
    case InvalidDate => !(d.date.Some? && IsDateString(d.date.value))
    case InvalidTime => !(d.time.Some? && IsTimeString(d.time.value))
    case InvalidType => !(d.eventType.Some? && d.eventType.value in EventTypes)
    case LocationRequired => !Filled(d.location)
    case UniformRequired => !Filled(d.uniform)
    case DetailsRequired => !Filled(d.details)
    case LocationTooLong => TooLong(d.location, MaxShortField)
    case UniformTooLong => TooLong(d.uniform, MaxShortField)
    case DetailsTooLong => TooLong(d.details, MaxLongField)
    case NotesTooLong => TooLong(d.notes, MaxLongField)
  }

  /** Everything an accepted event body satisfies. */
  predicate WellFormedEvent(d: EventFields) {
    && d.date.Some? && IsDateString(d.date.value)
    && d.time.Some? && IsTimeString(d.time.value)
    && d.eventType.Some? && d.eventType.value in EventTypes
    && Filled(d.location) && Filled(d.uniform) && Filled(d.details)
    && Utf16Length(d.location.value) <= MaxShortField
    && Utf16Length(d.uniform.value) <= MaxShortField
    && Utf16Length(d.details.value) <= MaxLongField
    && (d.notes.Some? ==> Utf16Length(d.notes.value) <= MaxLongField)
  }

  /**
   * `validateEventInput`: a body that is not an object is invalid input;
   * otherwise the first failing check, in the order the worker runs them, is
   * reported; the body is valid exactly when it is well formed.
   */
  function ValidateEventInput(data: Option<EventFields>): (r: Verdict)
    ensures r.Valid? <==> data.Some? && WellFormedEvent(data.value)
    ensures data.None? ==> r == Invalid(InvalidInput)
  {
    if data.None? then Invalid(InvalidInput)
    else
      var d := data.value;
      if d.date.None? || !IsDateString(d.date.value) then Invalid(InvalidDate)
      else if d.time.None? || !IsTimeString(d.time.value) then Invalid(InvalidTime)
      else if d.eventType.None? || d.eventType.value !in EventTypes then Invalid(InvalidType)
      else if !Filled(d.location) then Invalid(LocationRequired)
      else if !Filled(d.uniform) then Invalid(UniformRequired)
      else if !Filled(d.details) then Invalid(DetailsRequired)
      else if Utf16Length(d.location.value) > MaxShortField then Invalid(LocationTooLong)
      else if Utf16Length(d.uniform.value) > MaxShortField then Invalid(UniformTooLong)
      else if Utf16Length(d.details.value) > MaxLongField then Invalid(DetailsTooLong)
      else if d.notes.Some? && Utf16Length(d.notes.value) > MaxLongField then Invalid(NotesTooLong)
      else Valid
  }

  /**
   * The error reported is that of the first check, in the worker's order, that
   * fails: its check fails and every earlier one passes.
   */
  lemma ReportsFirstFailure(d: EventFields)
    ensures var r := ValidateEventInput(Some(d));
      && (r.Invalid? ==> Fails(d, r.error))
      && (forall e :: Fails(d, e) ==> r.Invalid? && Rank(r.error) <= Rank(e))
  {
    var r := ValidateEventInput(Some(d));
    forall e | Fails(d, e) ensures r.Invalid? && Rank(r.error) <= Rank(e) {
      FailureIsReported(d, e);
    }
  }

  lemma FailureIsReported(d: EventFields, e: EventError)
    requires Fails(d, e)
    ensures var r := ValidateEventInput(Some(d)); r.Invalid? && Rank(r.error) <= Rank(e)
  {
  }

  /** An accepted body has a non-empty location, uniform and details. */
  lemma AcceptedFieldsAreNonEmpty(d: EventFields)
    requires ValidateEventInput(Some(d)).Valid?
    ensures d.location.value != "" && d.uniform.value != "" && d.details.value != ""
  {
  }

  // ------------------------------------------------------------------ month

  /** `validateMonth`: four digits, a hyphen, two digits, and nothing else. */
  function ValidateMonth(month: string): (ok: bool)
    ensures ok <==> |month| == 7 && month[4] == '-' && AllDigits(month[..4]) && AllDigits(month[5..])
  {
    MatchesDigitPattern(month, MonthPattern)
  }

  /**
   * The month of a well-formed date is a well-formed month: the filter
   * `substr(date,1,7) = month` of `GET /api/events` compares like with like.
   */
  lemma DateMonthIsValidMonth(date: string)
    requires IsDateString(date)
    ensures ValidateMonth(date[..7])
  {
    assert forall i :: 0 <= i < 7 ==> date[..7][i] == date[i] && MonthPattern[i] == DatePattern[i];
  }

  // --------------------------------------------------- notification settings

  const MaxThresholdMinutes: int := 1440

  datatype SettingError = MissingField | BadThresholds

  /** The response texts of `POST /api/notification-settings` for its two refusals. */
  function SettingMessage(e: SettingError): string {
    match e
    case MissingField => "type and thresholds required"
    case BadThresholds => "Invalid thresholds format"
  }

  /** A comma token that `parseInt` reads as a number of minutes in `[0, 1440]`. */
  predicate TokenInRange(token: string) {
    var n := ParseInt(Trim(token));
    n.Some? && 0 <= n.value <= MaxThresholdMinutes
  }

  /** `nums.some(n => isNaN(n) || n < 0 || n > 1440)`, negated. */
  function AllTokensInRange(tokens: seq<string>): bool {
    if |tokens| == 0 then true
    else AllTokensInRange(tokens[..|tokens| - 1]) && TokenInRange(tokens[|tokens| - 1])
  }

  lemma {:induction false} AllTokensInRangeMeans(tokens: seq<string>)
    ensures AllTokensInRange(tokens) <==> forall tok :: tok in tokens ==> TokenInRange(tok)
  {
    if |tokens| > 0 {
      var init := tokens[..|tokens| - 1];
      AllTokensInRangeMeans(init);
      assert tokens == init + [tokens[|tokens| - 1]];
    }
  }

  /**
   * The checks of `POST /api/notification-settings`: both fields present, and
   * every comma-separated token a number of minutes in `[0, 1440]`. `None` means
   * the setting is stored.
   */
  function CheckThresholdSetting(eventType: Option<string>, thresholds: Option<string>): (r: Option<SettingError>)
    ensures r == Some(MissingField) <==> !Present(eventType) || !Present(thresholds)
    ensures r == None <==>
      && Present(eventType) && Present(thresholds)
      && forall tok :: tok in Split(thresholds.value, ',') ==> TokenInRange(tok)
  {
    if !Present(eventType) || !Present(thresholds) then Some(MissingField)
    else
      AllTokensInRangeMeans(Split(thresholds.value, ','));
      if AllTokensInRange(Split(thresholds.value, ',')) then None
      else Some(BadThresholds)
  }
}
