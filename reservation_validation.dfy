/**
 * The reservation validator of the reservation controller: nine field rules,
 * each checked on its own, whose messages are collected in a fixed order.
 */
module ReservationValidation {
  import opened Js

  /** The three reservation statuses. */
  datatype Status = Pending | Confirmed | Cancelled

  function StatusName(s: Status): string
  {
    match s
    case Pending => "pending"
    case Confirmed => "confirmed"
    case Cancelled => "cancelled"
  }

  /** The list of allowed status names, in the order the API reports them. */
  const ReservationStatuses: seq<string> := ["pending", "confirmed", "cancelled"]

  /**
   * `RESERVATION_STATUSES.includes(v)`: `includes` compares without coercion,
   * so only one of the three strings is recognised.
   */
  function ParseStatus(v: JsValue): (r: Option<Status>)
    ensures r.Some? <==> v.Str? && v.s in ReservationStatuses
    ensures r.Some? ==> v == Str(StatusName(r.value))
  {
    if v == Str("pending") then Some(Pending)
    else if v == Str("confirmed") then Some(Confirmed)
    else if v == Str("cancelled") then Some(Cancelled)
    else None
  }

  /**
   * What the validator cannot compute itself: the clock, `new Date(v)`
   * (None when the date is invalid), `Number(s)` for strings and
   * `mongoose.Types.ObjectId.isValid`.
   */
  datatype Env = Env(
    now: int,
    parseDate: JsValue -> Option<int>,
    parseNumber: string -> Number,
    isObjectId: JsValue -> bool)

  /** A reservation submission: the fields of the request body the controller reads. */
  datatype Payload = Payload(
    date: JsValue,
    travelers: JsValue,
    total: JsValue,
    fullName: JsValue,
    email: JsValue,
    phoneNumber: JsValue,
    pickUpLocation: JsValue,
    flight: JsValue,
    status: JsValue)

  const MsPerDay: int := 86400000

  /** The calendar day of a timestamp in milliseconds, as `setHours(0, 0, 0, 0)` finds it. */
  function DayOf(ms: int): int
  {
    ms / MsPerDay
  }

  /** The messages the validator can report, one per failed check. */
  datatype Message =
    | DateRequired
    | DateInPast
    | TravelersOutOfRange
    | InvalidTotal
    | InvalidFullName
    | InvalidEmail
    | InvalidPhone
    | InvalidPickup
    | InvalidFlight
    | InvalidStatus

  /** The text each message is reported with. */
  function Text(m: Message): string
  {
    match m
    case DateRequired => "Valid date is required"
    case DateInPast => "Reservation date cannot be in the past"
    case TravelersOutOfRange => "Number of travelers must be between 1 and 20"
    case InvalidTotal => "Valid total price is required and must be greater than 0"
    case InvalidFullName => "Full name is required and must be at least 2 characters"
    case InvalidEmail => "Valid email is required"
    case InvalidPhone => "Phone number must be a string if provided"
    case InvalidPickup => "Pickup location is required and must be at least 3 characters"
    case InvalidFlight => "Valid flight reference is required"
    case InvalidStatus => "Status must be one of: pending, confirmed, cancelled"
  }

  /** The validator's rules, in the order it checks them. */
  datatype Rule = DateRule | TravelersRule | TotalRule | FullNameRule | EmailRule
                | PhoneRule | PickupRule | FlightRule | StatusRule

  const AllRules: seq<Rule> := [DateRule, TravelersRule, TotalRule, FullNameRule, EmailRule,
                                PhoneRule, PickupRule, FlightRule, StatusRule]

  function RuleRank(r: Rule): nat
  {
    match r
    case DateRule => 0
    case TravelersRule => 1
    case TotalRule => 2
    case FullNameRule => 3
    case EmailRule => 4
    case PhoneRule => 5
    case PickupRule => 6
    case FlightRule => 7
    case StatusRule => 8
  }

  /** The rank of the rule a message belongs to. */
  function MessageRank(m: Message): nat
  {
    match m
    case DateRequired => 0
    case DateInPast => 0
    case TravelersOutOfRange => 1
    case InvalidTotal => 2
    case InvalidFullName => 3
    case InvalidEmail => 4
    case InvalidPhone => 5
    case InvalidPickup => 6
    case InvalidFlight => 7
    case InvalidStatus => 8
  }

  /** A character the class `[^\s@]` accepts. */
  predicate EmailChar(c: char)
  {
    !IsWhitespace(c) && c != '@'
  }

  /**
   * `/^[^\s@]+@[^\s@]+\.[^\s@]+$/.test(s)`: one '@' after a non-empty local
   * part, and after it a '.' with at least one character on each side; no
   * whitespace and no second '@' anywhere.
   */
  predicate MatchesEmail(s: string)
    ensures MatchesEmail(s) ==> |s| >= 5 && '@' in s && '.' in s
  {
    exists at, dot | 0 < at && at + 1 < dot < |s| - 1 ::
      s[at] == '@' && s[dot] == '.' && (forall k | 0 <= k < |s| && k != at :: EmailChar(s[k]))
  }

  /**
   * `regex.test(v)` converts `v` to a string first. The string forms of
   * numbers, booleans, null and undefined contain no '@', so only strings and
   * objects can match.
   */
  predicate EmailTest(v: JsValue)
    ensures EmailTest(v) ==> Truthy(v) && (v.Str? || v.Obj?)
  {
    match v
    case Str(s) => MatchesEmail(s)
    case Obj(s) => MatchesEmail(s)
    case _ => false
  }

  /** The date must be present, parseable and not on a day before today. */
  function DateError(data: Payload, env: Env): (r: Option<Message>)
    ensures r.None? <==>
      Truthy(data.date) && env.parseDate(data.date).Some? && DayOf(env.now) <= DayOf(env.parseDate(data.date).value)
    ensures r.Some? ==> r.value == DateRequired || r.value == DateInPast
  {
    if !Truthy(data.date) || env.parseDate(data.date).None? then Some(DateRequired)
    else if DayOf(env.parseDate(data.date).value) < DayOf(env.now) then Some(DateInPast)
    else None
  }

  /** `travelers` must be a number in [1, 20]. */
  function TravelersError(data: Payload): (r: Option<Message>)
    ensures r.None? <==> data.travelers.Num? && data.travelers.n.Finite? && 1.0 <= data.travelers.n.r <= 20.0
    ensures r.Some? ==> r.value == TravelersOutOfRange
  {
    var t := data.travelers;
    if !Truthy(t) || !t.Num? || LessThan(t.n, 1.0) || GreaterThan(t.n, 20.0) then Some(TravelersOutOfRange) else None
  }

  /** `total` must be a number above 0. */
  function TotalError(data: Payload): (r: Option<Message>)
    ensures r.None? <==>
      data.total == Num(PosInfinity) || (data.total.Num? && data.total.n.Finite? && data.total.n.r > 0.0)
    ensures r.Some? ==> r.value == InvalidTotal
  {
    var t := data.total;
    if !Truthy(t) || !t.Num? || AtMost(t.n, 0.0) then Some(InvalidTotal) else None
  }

  /** `fullName` must be a string at least 2 code units long once trimmed. */
  function FullNameError(data: Payload): (r: Option<Message>)
    ensures r.None? <==> data.fullName.Str? && Utf16Length(Trim(data.fullName.s)) >= 2
    ensures r.Some? ==> r.value == InvalidFullName
  {
    var n := data.fullName;
    if !Truthy(n) || !n.Str? || Utf16Length(Trim(n.s)) < 2 then Some(InvalidFullName) else None
  }

  /** `email` must pass the pattern. */
  function EmailError(data: Payload): (r: Option<Message>)
    ensures r.None? <==> EmailTest(data.email)
    ensures r.Some? ==> r.value == InvalidEmail
  {
    if !Truthy(data.email) || !EmailTest(data.email) then Some(InvalidEmail) else None
  }

  /** A phone number is optional, but one that is given must be a string. */
  function PhoneError(data: Payload): (r: Option<Message>)
    ensures r.None? <==> !Truthy(data.phoneNumber) || data.phoneNumber.Str?
    ensures r.Some? ==> r.value == InvalidPhone
  {
    if Truthy(data.phoneNumber) && !data.phoneNumber.Str? then Some(InvalidPhone) else None
  }

  /** `pickUpLocation` must be a string at least 3 code units long once trimmed. */
  function PickupError(data: Payload): (r: Option<Message>)
    ensures r.None? <==> data.pickUpLocation.Str? && Utf16Length(Trim(data.pickUpLocation.s)) >= 3
    ensures r.Some? ==> r.value == InvalidPickup
  {
    var p := data.pickUpLocation;
    if !Truthy(p) || !p.Str? || Utf16Length(Trim(p.s)) < 3 then Some(InvalidPickup) else None
  }

  /** `flight` must be a valid object id. */
  function FlightError(data: Payload, env: Env): (r: Option<Message>)
    ensures r.None? <==> Truthy(data.flight) && env.isObjectId(data.flight)
    ensures r.Some? ==> r.value == InvalidFlight
  {
    if !Truthy(data.flight) || !env.isObjectId(data.flight) then Some(InvalidFlight) else None
  }

  /** A status is optional, but one that is given must be one of the three. */
  function StatusError(data: Payload): (r: Option<Message>)
    ensures r.None? <==> !Truthy(data.status) || (data.status.Str? && data.status.s in ReservationStatuses)
    ensures r.Some? ==> r.value == InvalidStatus
  {
    if Truthy(data.status) && ParseStatus(data.status).None? then Some(InvalidStatus) else None
  }

  /** The message one rule contributes, if any. */
  function RuleError(rule: Rule, data: Payload, env: Env): Option<Message>
  {
    match rule
    case DateRule => DateError(data, env)
    case TravelersRule => TravelersError(data)
    case TotalRule => TotalError(data)
    case FullNameRule => FullNameError(data)
    case EmailRule => EmailError(data)
    case PhoneRule => PhoneError(data)
    case PickupRule => PickupError(data)
    case FlightRule => FlightError(data, env)
    case StatusRule => StatusError(data)
  }

  /** The message list a rule outcome pushes: nothing, or its one message. */
  function Pushed(error: Option<Message>): seq<Message>
  {
    if error.Some? then [error.value] else []
  }

  /** The messages of the failing rules among `rules`, in the order of `rules`. */
  function Collect(rules: seq<Rule>, data: Payload, env: Env): seq<Message>
  {
    if rules == [] then [] else Pushed(RuleError(rules[0], data, env)) + Collect(rules[1..], data, env)
  }

  /** The complete error list of a submission. */
  function ValidationErrors(data: Payload, env: Env): seq<Message>
  {
    Collect(AllRules, data, env)
  }

  /**
   * One step of the validator: when `list` holds the messages of the rules
   * before `k`, pushing rule `k`'s message leaves the messages of the rules
   * up to `k`.
   */
  lemma PushStep(list: seq<Message>, k: nat, data: Payload, env: Env)
    requires k < |AllRules|
    requires list + Collect(AllRules[k..], data, env) == ValidationErrors(data, env)
    ensures list + Pushed(RuleError(AllRules[k], data, env)) + Collect(AllRules[k + 1..], data, env)
      == ValidationErrors(data, env)
  {
    var pushed := Pushed(RuleError(AllRules[k], data, env));
    var rest := Collect(AllRules[k + 1..], data, env);
    CollectFrom(k, data, env);
    assert list + pushed + rest == list + (pushed + rest);
  }

  /** `Collect` over a suffix of the rule list: the first rule's message, then the rest. */
  lemma CollectFrom(k: nat, data: Payload, env: Env)
    requires k < |AllRules|
    ensures Collect(AllRules[k..], data, env) ==
      Pushed(RuleError(AllRules[k], data, env)) + Collect(AllRules[k + 1..], data, env)
  {
    assert AllRules[k..][1..] == AllRules[k + 1..];
  }

  /**
   * The validator: every rule is checked, each failing rule pushes its
   * message, and the result is null exactly when nothing was pushed.
   */
  method ValidateReservationData(data: Payload, env: Env) returns (errors: Option<seq<Message>>)
    ensures errors.None? <==> ValidationErrors(data, env) == []
    ensures errors.Some? ==> errors.value == ValidationErrors(data, env)
  {
    var list: seq<Message> := [];
    assert AllRules[0..] == AllRules;
    var check := RuleError(DateRule, data, env);
    PushStep(list, 0, data, env);
    list := list + Pushed(check);
    check := RuleError(TravelersRule, data, env);
    PushStep(list, 1, data, env);
    list := list + Pushed(check);
    check := RuleError(TotalRule, data, env);
    PushStep(list, 2, data, env);
    list := list + Pushed(check);
    check := RuleError(FullNameRule, data, env);
    PushStep(list, 3, data, env);
    list := list + Pushed(check);
    check := RuleError(EmailRule, data, env);
    PushStep(list, 4, data, env);
    list := list + Pushed(check);
    check := RuleError(PhoneRule, data, env);
    PushStep(list, 5, data, env);
    list := list + Pushed(check);
    check := RuleError(PickupRule, data, env);
    PushStep(list, 6, data, env);
    list := list + Pushed(check);
    check := RuleError(FlightRule, data, env);
    PushStep(list, 7, data, env);
    list := list + Pushed(check);
    check := RuleError(StatusRule, data, env);
    PushStep(list, 8, data, env);
    list := list + Pushed(check);
    assert AllRules[9..] == [];
    errors := if |list| > 0 then Some(list) else None;
  }

  lemma RuleMessageRank(rule: Rule, data: Payload, env: Env)
    ensures RuleError(rule, data, env).Some? ==> MessageRank(RuleError(rule, data, env).value) == RuleRank(rule)
  {
  }

  /** Messages of `Collect` come from rules of `rules`, so their ranks are among those rules' ranks. */
  lemma {:induction false} CollectRanks(rules: seq<Rule>, data: Payload, env: Env, i: int)
    requires 0 <= i < |Collect(rules, data, env)|
    ensures exists j :: 0 <= j < |rules| && RuleError(rules[j], data, env) == Some(Collect(rules, data, env)[i])
    ensures exists j :: 0 <= j < |rules| && MessageRank(Collect(rules, data, env)[i]) == RuleRank(rules[j])
  {
    var rest := Collect(rules[1..], data, env);
    RuleMessageRank(rules[0], data, env);
    match RuleError(rules[0], data, env)
    case Some(m) =>
      if i == 0 {
        assert RuleError(rules[0], data, env) == Some(Collect(rules, data, env)[i]);
      } else {
        CollectRanks(rules[1..], data, env, i - 1);
        var j :| 0 <= j < |rules[1..]| && RuleError(rules[1..][j], data, env) == Some(rest[i - 1]);
        assert RuleError(rules[j + 1], data, env) == Some(Collect(rules, data, env)[i]);
        RuleMessageRank(rules[j + 1], data, env);
      }
    case None =>
      CollectRanks(rules[1..], data, env, i);
      var j :| 0 <= j < |rules[1..]| && RuleError(rules[1..][j], data, env) == Some(rest[i]);
      assert RuleError(rules[j + 1], data, env) == Some(Collect(rules, data, env)[i]);
      RuleMessageRank(rules[j + 1], data, env);
  }

  predicate StrictlyRanked(rules: seq<Rule>)
  {
    forall i, j :: 0 <= i < j < |rules| ==> RuleRank(rules[i]) < RuleRank(rules[j])
  }

  /** The validator checks its rules in increasing rank. */
  lemma AllRulesRanked()
    ensures StrictlyRanked(AllRules)
  {
  }

  /** When every rule of `rules` ranks above `lo`, so does every message collected from them. */
  lemma {:induction false} CollectRanksAbove(rules: seq<Rule>, data: Payload, env: Env, lo: int)
    requires forall j :: 0 <= j < |rules| ==> RuleRank(rules[j]) > lo
    ensures forall m :: m in Collect(rules, data, env) ==> MessageRank(m) > lo
  {
    if rules != [] {
      CollectRanksAbove(rules[1..], data, env, lo);
      RuleMessageRank(rules[0], data, env);
    }
  }

  /** Collecting over rules in increasing rank yields messages in increasing rank. */
  lemma {:induction false} CollectOrdered(rules: seq<Rule>, data: Payload, env: Env)
    requires StrictlyRanked(rules)
    ensures RankOrdered(Collect(rules, data, env))
  {
    if rules != [] {
      var rest := Collect(rules[1..], data, env);
      CollectOrdered(rules[1..], data, env);
      var error := RuleError(rules[0], data, env);
      if error.Some? {
        RuleMessageRank(rules[0], data, env);
        CollectRanksAbove(rules[1..], data, env, RuleRank(rules[0]));
        ConsOrdered(error.value, rest);
      }
    }
  }

  /** The messages are in strictly increasing rank. */
  predicate RankOrdered(ms: seq<Message>)
  {
    Ascending(ms, MessageRank)
  }

  predicate Ascending<T>(xs: seq<T>, rank: T -> nat)
  {
    forall i, j :: 0 <= i < j < |xs| ==> rank(xs[i]) < rank(xs[j])
  }

  /** A message ranked below every message of an ordered list can be put in front of it. */
  lemma ConsOrdered(m: Message, ms: seq<Message>)
    requires RankOrdered(ms)
    requires forall x :: x in ms ==> MessageRank(x) > MessageRank(m)
    ensures RankOrdered([m] + ms)
  {
    ConsAscending(m, ms, MessageRank);
  }

  lemma ConsAscending<T>(x: T, xs: seq<T>, rank: T -> nat)
    requires Ascending(xs, rank)
    requires forall y :: y in xs ==> rank(y) > rank(x)
    ensures Ascending([x] + xs, rank)
  {
    var l := [x] + xs;
    forall i, j | 0 <= i < j < |l|
      ensures rank(l[i]) < rank(l[j])
    {
      assert l[j] == xs[j - 1];
      if i > 0 {
        assert l[i] == xs[i - 1];
      }
    }
  }

  /**
   * At most one message per rule, in the fixed order date, travelers, total,
   * full name, email, phone, pickup, flight, status.
   */
  lemma ErrorsInRuleOrder(data: Payload, env: Env)
    ensures RankOrdered(ValidationErrors(data, env))
  {
    AllRulesRanked();
    CollectOrdered(AllRules, data, env);
  }

  /** A rule's message is in `Collect(rules)` whenever the rule is in `rules` and fails. */
  lemma {:induction false} CollectReports(rules: seq<Rule>, data: Payload, env: Env, rule: Rule)
    requires rule in rules && RuleError(rule, data, env).Some?
    ensures RuleError(rule, data, env).value in Collect(rules, data, env)
  {
    if rules[0] != rule {
      CollectReports(rules[1..], data, env, rule);
    }
  }

  /** Whatever the other rules say, a failing rule's message is in the error list. */
  lemma FailingRuleReported(rule: Rule, data: Payload, env: Env)
    ensures RuleError(rule, data, env).Some? ==> RuleError(rule, data, env).value in ValidationErrors(data, env)
  {
    if RuleError(rule, data, env).Some? {
      assert rule in AllRules by { assert AllRules[RuleRank(rule)] == rule; }
      CollectReports(AllRules, data, env, rule);
    }
  }

  /**
   * No short-circuit: a message is reported exactly when some rule produces
   * it, whatever the other rules say.
   */
  lemma ErrorsAreFailingRules(data: Payload, env: Env, m: Message)
    ensures m in ValidationErrors(data, env) <==> exists rule :: RuleError(rule, data, env) == Some(m)
  {
    var errs := ValidationErrors(data, env);
    if m in errs {
      var i :| 0 <= i < |errs| && errs[i] == m;
      CollectRanks(AllRules, data, env, i);
    }
    if exists rule :: RuleError(rule, data, env) == Some(m) {
      var rule :| RuleError(rule, data, env) == Some(m);
      FailingRuleReported(rule, data, env);
    }
  }

  /**
   * `travelers` passes exactly when it is a number in the closed range
   * [1, 20]; non-integers pass, 0 and NaN do not.
   */
  lemma TravelersRange(data: Payload, env: Env)
    ensures RuleError(TravelersRule, data, env).None? <==>
      (data.travelers.Num? && data.travelers.n.Finite? && 1.0 <= data.travelers.n.r <= 20.0)
  {
  }

  /** `total` passes exactly when it is a number greater than 0 (positive infinity included). */
  lemma TotalPositive(data: Payload, env: Env)
    ensures RuleError(TotalRule, data, env).None? <==>
      (data.total == Num(PosInfinity) || (data.total.Num? && data.total.n.Finite? && data.total.n.r > 0.0))
  {
  }

  /** A missing or unparseable date yields only the "required" message, never the "past" one. */
  lemma DateMissingOrInvalid(data: Payload, env: Env)
    requires !Truthy(data.date) || env.parseDate(data.date).None?
    ensures DateRequired in ValidationErrors(data, env)
    ensures DateInPast !in ValidationErrors(data, env)
  {
    ErrorsAreFailingRules(data, env, DateRequired);
    ErrorsAreFailingRules(data, env, DateInPast);
  }

  /** A valid date is rejected exactly when its day is before today's; time of day is ignored. */
  lemma DateDayGranularity(data: Payload, env: Env)
    requires Truthy(data.date) && env.parseDate(data.date).Some?
    ensures DateInPast in ValidationErrors(data, env) <==>
      DayOf(env.parseDate(data.date).value) < DayOf(env.now)
    ensures DateRequired !in ValidationErrors(data, env)
  {
    ErrorsAreFailingRules(data, env, DateRequired);
    ErrorsAreFailingRules(data, env, DateInPast);
  }

  /** Any whitespace in a string, leading or trailing included, makes the email invalid. */
  lemma EmailRejectsWhitespace(s: string, i: int)
    requires 0 <= i < |s| && IsWhitespace(s[i])
    ensures !MatchesEmail(s)
  {
  }

  /** A matching email has no whitespace at all, so `trim()` leaves it unchanged. */
  lemma EmailHasNoWhitespace(s: string)
    requires MatchesEmail(s)
    ensures NoWhitespace(s) && Trim(s) == s
  {
    var at, dot :| 0 < at && at + 1 < dot < |s| - 1 &&
      s[at] == '@' && s[dot] == '.' && (forall k | 0 <= k < |s| && k != at :: EmailChar(s[k]));
    forall k | 0 <= k < |s|
      ensures !IsWhitespace(s[k])
    {
      if k != at {
        assert EmailChar(s[k]);
      }
    }
    TrimOfNoWhitespace(s);
  }

  /** Lower-casing (ASCII) keeps an email matching: '@', '.' and whitespace are not letters. */
  lemma EmailLowerCase(s: string)
    requires MatchesEmail(s)
    ensures MatchesEmail(ToLower(s))
  {
    var at, dot :| 0 < at && at + 1 < dot < |s| - 1 &&
      s[at] == '@' && s[dot] == '.' && (forall k | 0 <= k < |s| && k != at :: EmailChar(s[k]));
    var l := ToLower(s);
    assert l[at] == '@' && l[dot] == '.';
    forall k | 0 <= k < |l| && k != at
      ensures EmailChar(l[k])
    {
      LowerEmailChar(s[k]);
    }
  }

  /** The ASCII case mapping takes an email character to an email character. */
  lemma LowerEmailChar(c: char)
    requires EmailChar(c)
    ensures EmailChar(LowerChar(c))
  {
  }

  /** The one field of the submission a rule reads. */
  function RuleField(rule: Rule, data: Payload): JsValue
  {
    match rule
    case DateRule => data.date
    case TravelersRule => data.travelers
    case TotalRule => data.total
    case FullNameRule => data.fullName
    case EmailRule => data.email
    case PhoneRule => data.phoneNumber
    case PickupRule => data.pickUpLocation
    case FlightRule => data.flight
    case StatusRule => data.status
  }

  /** Each rule depends on its own field only: the other fields cannot change its outcome. */
  lemma RuleReadsOnlyItsField(rule: Rule, data: Payload, other: Payload, env: Env)
    requires RuleField(rule, data) == RuleField(rule, other)
    ensures RuleError(rule, data, env) == RuleError(rule, other, env)
  {
  }

  /** A missing required field is reported with its rule's message. */
  lemma MissingFieldReported(rule: Rule, data: Payload, env: Env)
    requires rule != PhoneRule && rule != StatusRule
    requires RuleField(rule, data) == Undefined
    ensures RuleError(rule, data, env).Some?
    ensures RuleError(rule, data, env).value in ValidationErrors(data, env)
  {
    FailingRuleReported(rule, data, env);
  }

  /** Every rule passes. */
  predicate Accepted(data: Payload, env: Env)
  {
    forall rule :: RuleError(rule, data, env).None?
  }

  /** `Collect(rules)` is empty exactly when every rule in `rules` passes. */
  lemma {:induction false} CollectEmpty(rules: seq<Rule>, data: Payload, env: Env)
    ensures Collect(rules, data, env) == [] <==> forall rule :: rule in rules ==> RuleError(rule, data, env).None?
  {
    if rules != [] {
      CollectEmpty(rules[1..], data, env);
      assert forall rule :: rule in rules <==> rule == rules[0] || rule in rules[1..];
    }
  }

  /** The error list is empty exactly when every rule passes. */
  lemma NoErrorsIffAccepted(data: Payload, env: Env)
    ensures ValidationErrors(data, env) == [] <==> Accepted(data, env)
  {
    CollectEmpty(AllRules, data, env);
    forall rule
      ensures rule in AllRules
    {
      assert AllRules[RuleRank(rule)] == rule;
    }
  }

  // What an accepted submission's fields are known to be, field by field.

  lemma AcceptedDate(data: Payload, env: Env)
    requires Accepted(data, env)
    ensures Truthy(data.date) && env.parseDate(data.date).Some?
    ensures DayOf(env.parseDate(data.date).value) >= DayOf(env.now)
  {
    assert RuleError(DateRule, data, env).None?;
  }

  lemma AcceptedNumbers(data: Payload, env: Env)
    requires Accepted(data, env)
    ensures data.travelers.Num? && data.travelers.n.Finite? && 1.0 <= data.travelers.n.r <= 20.0
    ensures data.total.Num? && (data.total.n == PosInfinity || (data.total.n.Finite? && data.total.n.r > 0.0))
  {
    assert RuleError(TravelersRule, data, env).None?;
    assert RuleError(TotalRule, data, env).None?;
  }

  lemma AcceptedName(data: Payload, env: Env)
    requires Accepted(data, env)
    ensures data.fullName.Str? && Utf16Length(Trim(data.fullName.s)) >= 2
  {
    assert RuleError(FullNameRule, data, env).None?;
  }

  lemma AcceptedPickup(data: Payload, env: Env)
    requires Accepted(data, env)
    ensures data.pickUpLocation.Str? && Utf16Length(Trim(data.pickUpLocation.s)) >= 3
  {
    assert RuleError(PickupRule, data, env).None?;
  }

  /**
   * Lengths are counted in UTF-16 code units, so a full name made of one
   * character outside the Basic Multilingual Plane (such as U+20BB7) is
   * long enough.
   */
  lemma AstralNameAccepted(data: Payload, c: char)
    requires c as int >= 0x1_0000 && data.fullName == Str([c])
    ensures FullNameError(data).None? && |data.fullName.s| < 2
  {
    SingleUtf16Length(c);
    AstralNotWhitespace(c);
    assert NoWhitespace([c]);
    TrimOfNoWhitespace([c]);
  }

  lemma AstralNotWhitespace(c: char)
    requires c as int >= 0x1_0000
    ensures !IsWhitespace(c)
  {
  }

  lemma AcceptedContact(data: Payload, env: Env)
    requires Accepted(data, env)
    ensures EmailTest(data.email)
    ensures Truthy(data.phoneNumber) ==> data.phoneNumber.Str?
  {
    assert RuleError(EmailRule, data, env).None?;
    assert RuleError(PhoneRule, data, env).None?;
  }
}
