/**
 * The reservation controller's operations on the reservation collection:
 * create, list, get by id, delete and status update, each with its own
 * error outcome. The collection is a map from reservation id to record,
 * beside the set of flight ids that exist.
 */
module ReservationStore {
  import opened Js
  import opened ReservationValidation
  import NewestFirst

  type Id = string

  /** A persisted reservation, with the fields the controller writes. */
  datatype Reservation = Reservation(
    date: int,
    travelers: real,
    total: Number,
    fullName: string,
    email: string,
    phoneNumber: Option<string>,
    pickUpLocation: string,
    flight: Id,
    status: Status,
    createdAt: int)

  /**
   * What holds of every reservation the controller creates: travelers in
   * [1, 20], a positive total, trimmed name and pickup of the minimum
   * lengths, a lower-case email that matches the email pattern, a trimmed
   * phone number, and a date no earlier than the day of creation.
   */
  predicate WellFormed(r: Reservation)
  {
    && 1.0 <= r.travelers <= 20.0
    && (r.total == PosInfinity || (r.total.Finite? && r.total.r > 0.0))
    && IsTrimmed(r.fullName) && Utf16Length(r.fullName) >= 2
    && MatchesEmail(r.email) && IsLower(r.email)
    && (r.phoneNumber.Some? ==> IsTrimmed(r.phoneNumber.value))
    && IsTrimmed(r.pickUpLocation) && Utf16Length(r.pickUpLocation) >= 3
    && DayOf(r.date) >= DayOf(r.createdAt)
  }

  /** The controller's replies: the HTTP status and the message it sends. */
  datatype Response =
    | Created(id: Id, record: Reservation)
    | Found(id: Id, record: Reservation)
    | Updated(id: Id, record: Reservation)
    | Deleted(deletedId: Id)
    | ValidationFailed(errors: seq<Message>)
    | BadFlightReference
    | CreateFailed
    | InvalidReservationId
    | InvalidStatusValue(allowedStatuses: seq<string>)
    | NotFound
  {
    function StatusCode(): int
    {
      match this
      case Created(_, _) => 201
      case Found(_, _) => 200
      case Updated(_, _) => 200
      case Deleted(_) => 200
      case NotFound => 404
      case _ => 400
    }

    function Message(): string
    {
      match this
      case Created(_, _) => ""
      case Found(_, _) => ""
      case Updated(_, _) => "Reservation status updated successfully"
      case Deleted(_) => "Reservation deleted successfully"
      case ValidationFailed(_) => "Validation failed"
      case BadFlightReference => "Referenced flight does not exist"
      case CreateFailed => "Failed to create reservation"
      case InvalidReservationId => "Invalid reservation ID"
      case InvalidStatusValue(_) => "Invalid status value"
      case NotFound => "Reservation not found"
    }
  }

  /** `{ ...req.body, travelers: Number(req.body.travelers), total: Number(req.body.total) }`. */
  function Normalize(body: Payload, env: Env): (data: Payload)
    ensures data.travelers.Num? && data.total.Num?
    ensures data == body.(travelers := data.travelers, total := data.total)
  {
    body.(travelers := Num(ToNumber(body.travelers, env.parseNumber)),
          total := Num(ToNumber(body.total, env.parseNumber)))
  }

  /**
   * What validation establishes about the fields the record is built from:
   * a parseable date not before today, numbers in range, a name and a
   * pickup location long enough once trimmed, a string phone number if
   * any, and an email value that matches the pattern.
   */
  predicate Admissible(data: Payload, env: Env)
  {
    && env.parseDate(data.date).Some? && DayOf(env.parseDate(data.date).value) >= DayOf(env.now)
    && data.travelers.Num? && data.travelers.n.Finite? && 1.0 <= data.travelers.n.r <= 20.0
    && data.total.Num? && (data.total.n == PosInfinity || (data.total.n.Finite? && data.total.n.r > 0.0))
    && data.fullName.Str? && Utf16Length(Trim(data.fullName.s)) >= 2
    && data.pickUpLocation.Str? && Utf16Length(Trim(data.pickUpLocation.s)) >= 3
    && (Truthy(data.phoneNumber) ==> data.phoneNumber.Str?)
    && EmailTest(data.email)
  }

  /** A submission with no validation errors is admissible. */
  lemma NoErrorsAdmissible(data: Payload, env: Env)
    requires ValidationErrors(data, env) == []
    ensures Admissible(data, env)
  {
    NoErrorsIffAccepted(data, env);
    AcceptedDate(data, env);
    AcceptedNumbers(data, env);
    AcceptedName(data, env);
    AcceptedPickup(data, env);
    AcceptedContact(data, env);
  }

  // The fields of a validated submission as the controller stores them.
  // Each one is defined because validation passed, and lies in the range
  // its rule checked.

  /** The reservation date, at or after the start of today. */
  function DateOf(data: Payload, env: Env): (d: int)
    requires Admissible(data, env)
    ensures env.parseDate(data.date) == Some(d)
    ensures DayOf(d) >= DayOf(env.now)
  {
    env.parseDate(data.date).value
  }

  /** The number of travelers, between 1 and 20. */
  function TravelersOf(data: Payload, env: Env): (t: real)
    requires Admissible(data, env)
    ensures data.travelers == Num(Finite(t))
    ensures 1.0 <= t <= 20.0
  {
    data.travelers.n.r
  }

  /** The total price, greater than 0. */
  function TotalOf(data: Payload, env: Env): (t: Number)
    requires Admissible(data, env)
    ensures data.total == Num(t)
    ensures t == PosInfinity || (t.Finite? && t.r > 0.0)
  {
    data.total.n
  }

  /** `fullName.trim()`: at least 2 UTF-16 code units. */
  function FullNameOf(data: Payload, env: Env): (n: string)
    requires Admissible(data, env)
    ensures data.fullName.Str? && n == Trim(data.fullName.s)
    ensures IsTrimmed(n) && Utf16Length(n) >= 2
  {
    Trim(data.fullName.s)
  }

  /** `pickUpLocation.trim()`: at least 3 UTF-16 code units. */
  function PickupOf(data: Payload, env: Env): (p: string)
    requires Admissible(data, env)
    ensures data.pickUpLocation.Str? && p == Trim(data.pickUpLocation.s)
    ensures IsTrimmed(p) && Utf16Length(p) >= 3
  {
    Trim(data.pickUpLocation.s)
  }

  /** `phoneNumber ? phoneNumber.trim() : undefined`. */
  function PhoneOf(data: Payload, env: Env): (p: Option<string>)
    requires Admissible(data, env)
    ensures p.Some? <==> Truthy(data.phoneNumber)
    ensures p.Some? ==> data.phoneNumber.Str? && p.value == Trim(data.phoneNumber.s) && IsTrimmed(p.value)
  {
    if Truthy(data.phoneNumber) then Some(Trim(data.phoneNumber.s)) else None
  }

  /** `status && RESERVATION_STATUSES.includes(status) ? status : 'pending'`: the submitted status when it is one of the three known ones, `pending` otherwise. */
  function StatusOf(data: Payload): (s: Status)
    ensures ParseStatus(data.status).Some? ==> s == ParseStatus(data.status).value
    ensures ParseStatus(data.status).None? ==> s == Pending
  {
    match ParseStatus(data.status)
    case Some(s) => s
    case None => Pending
  }

  /**
   * `email.trim().toLowerCase()` on an email that matched the pattern: the
   * trim changes nothing, and the result still matches.
   */
  function NormalizedEmail(s: string): (e: string)
    requires MatchesEmail(s)
    ensures e == ToLower(s)
    ensures MatchesEmail(e) && IsLower(e)
  {
    EmailHasNoWhitespace(s);
    EmailLowerCase(s);
    ToLower(Trim(s))
  }

  /**
   * The record the controller builds from a validated submission, stamped
   * with the current time. None when `email.trim()` throws, because the
   * email is an object whose string form matched the pattern. Every record
   * built satisfies the invariant of stored reservations.
   */
  function BuildRecord(data: Payload, env: Env, flight: Id): (r: Option<Reservation>)
    requires Admissible(data, env)
    ensures r.Some? <==> data.email.Str?
    ensures r.Some? ==> WellFormed(r.value) && r.value.flight == flight && r.value.createdAt == env.now
  {
    if !data.email.Str? then None
    else
        Some(Reservation(
        date := DateOf(data, env),
        travelers := TravelersOf(data, env),
        total := TotalOf(data, env),
        fullName := FullNameOf(data, env),
        email := NormalizedEmail(data.email.s),
        phoneNumber := PhoneOf(data, env),
        pickUpLocation := PickupOf(data, env),
        flight := flight,
        status := StatusOf(data),
        createdAt := env.now))
  }

  /** The flight reference names a flight that exists (`Flight.exists`), looked up by its string form. */
  predicate FlightExists(flight: JsValue, flights: set<Id>)
    ensures FlightExists(flight, flights) <==> exists id :: id in flights && flight == Str(id)
  {
    flight.Str? && flight.s in flights
  }

  /** The pair a listed reservation is sorted on: its creation time. */
  function CreatedAt(entry: (Id, Reservation)): int
  {
    entry.1.createdAt
  }

  /** The (id, record) entries of a part of the collection. */
  function Entries(m: map<Id, Reservation>, ids: set<Id>): set<(Id, Reservation)>
  {
    set id | id in ids && id in m :: (id, m[id])
  }

  /** Taking one more id out of the remaining ones adds exactly its entry, which was not there yet. */
  lemma EntriesAdd(m: map<Id, Reservation>, keys: set<Id>, remaining: set<Id>, id: Id)
    requires id in remaining && remaining <= keys && keys == m.Keys
    ensures Entries(m, keys - (remaining - {id})) == Entries(m, keys - remaining) + {(id, m[id])}
    ensures (id, m[id]) !in Entries(m, keys - remaining)
  {
    assert keys - (remaining - {id}) == (keys - remaining) + {id};
  }

  /** A listing of all the entries of a valid collection holds only well-formed records of existing flights. */
  lemma ListedEntries(m: map<Id, Reservation>, flights: set<Id>, list: seq<(Id, Reservation)>)
    requires forall id :: id in m ==> WellFormed(m[id]) && m[id].flight in flights
    requires multiset(list) == multiset(Entries(m, m.Keys))
    ensures forall i :: 0 <= i < |list| ==> WellFormed(list[i].1) && list[i].1.flight in flights
  {
    forall i | 0 <= i < |list|
      ensures WellFormed(list[i].1) && list[i].1.flight in flights
    {
      assert list[i] in multiset(list);
      assert list[i] in Entries(m, m.Keys);
    }
  }

  class ReservationCollection {
    var reservations: map<Id, Reservation>
    var flights: set<Id>

    /** Every stored reservation is well formed and refers to an existing flight. */
    ghost predicate Valid()
      reads this
    {
      forall id :: id in reservations ==> WellFormed(reservations[id]) && reservations[id].flight in flights
    }

    constructor (flights: set<Id>)
      ensures Valid() && reservations == map[] && this.flights == flights
    {
      reservations := map[];
      this.flights := flights;
    }

    /**
     * `createReservation`: validation failure and a missing flight are two
     * distinct 400 replies that persist nothing; a submission that passes
     * both is stored under the fresh id the store assigns.
     */
    method CreateReservation(body: Payload, env: Env, newId: Id) returns (response: Response)
      requires Valid()
      modifies this
      ensures Valid() && flights == old(flights)
      ensures var data := Normalize(body, env);
        var errors := ValidationErrors(data, env);
        if errors != [] then
          response == ValidationFailed(errors) && reservations == old(reservations)
        else if !FlightExists(data.flight, flights) then
          response == BadFlightReference && reservations == old(reservations)
        else if !data.email.Str? || newId in old(reservations) then
          response == CreateFailed && reservations == old(reservations)
        else
          && Admissible(data, env)
          && var record := BuildRecord(data, env, data.flight.s).value;
             response == Created(newId, record) && reservations == old(reservations)[newId := record]
      ensures response.StatusCode() == 201 || reservations == old(reservations)
      ensures response.Created? ==> response.record.flight in flights && WellFormed(response.record)
    {
      var data := Normalize(body, env);
      var validation := ValidateReservationData(data, env);
      if validation.Some? {
        return ValidationFailed(validation.value);
      }
      if !FlightExists(data.flight, flights) {
        return BadFlightReference;
      }
      NoErrorsAdmissible(data, env);
      var record := BuildRecord(data, env, data.flight.s);
      if record.None? {
        // `.trim()` threw: the catch block replies 400
        return CreateFailed;
      }
      if newId in reservations {
        // the store rejects a duplicate key: the catch block replies 400
        return CreateFailed;
      }
      Insert(newId, record.value);
      response := Created(newId, record.value);
    }

    /** Stores a well-formed record under an id not yet in use. */
    method Insert(id: Id, record: Reservation)
      requires Valid() && WellFormed(record) && record.flight in flights && id !in reservations
      modifies this
      ensures Valid() && flights == old(flights)
      ensures reservations == old(reservations)[id := record]
    {
      reservations := reservations[id := record];
    }

    /** `getAllReservations`: every stored reservation exactly once, newest first. */
    method ListNewestFirst() returns (list: seq<(Id, Reservation)>)
      ensures multiset(list) == multiset(Entries(reservations, reservations.Keys))
      ensures NewestFirst.Sorted(list, CreatedAt)
    {
      var remaining := reservations.Keys;
      list := [];
      while remaining != {}
        invariant remaining <= reservations.Keys
        invariant multiset(list) == multiset(Entries(reservations, reservations.Keys - remaining))
        invariant NewestFirst.Sorted(list, CreatedAt)
        decreases remaining
      {
        var id :| id in remaining;
        EntriesAdd(reservations, reservations.Keys, remaining, id);
        list := NewestFirst.Insert(list, (id, reservations[id]), CreatedAt);
        remaining := remaining - {id};
      }
    }

    /** `getReservationById`: a malformed id is refused before the collection is read. */
    method GetReservationById(id: string, env: Env) returns (response: Response)
      requires Valid()
      ensures response.Found? ==> WellFormed(response.record) && response.record.flight in flights
      ensures !env.isObjectId(Str(id)) ==> response == InvalidReservationId
      ensures env.isObjectId(Str(id)) && id !in reservations ==> response == NotFound
      ensures env.isObjectId(Str(id)) && id in reservations ==> response == Found(id, reservations[id])
    {
      if !env.isObjectId(Str(id)) {
        return InvalidReservationId;
      }
      if id !in reservations {
        return NotFound;
      }
      response := Found(id, reservations[id]);
    }

    /** `deleteReservation`: removes exactly the named reservation and replies with its id. */
    method DeleteReservation(id: string, env: Env) returns (response: Response)
      requires Valid()
      modifies this
      ensures Valid() && flights == old(flights)
      ensures !env.isObjectId(Str(id)) ==> response == InvalidReservationId && reservations == old(reservations)
      ensures env.isObjectId(Str(id)) && id !in old(reservations) ==>
        response == NotFound && reservations == old(reservations)
      ensures env.isObjectId(Str(id)) && id in old(reservations) ==>
        && response == Deleted(id)
        && reservations == old(reservations) - {id}
        && |reservations| == |old(reservations)| - 1
    {
      if !env.isObjectId(Str(id)) {
        return InvalidReservationId;
      }
      if id !in reservations {
        return NotFound;
      }
      assert (reservations - {id}).Keys == reservations.Keys - {id};
      reservations := reservations - {id};
      response := Deleted(id);
    }

    /**
     * `updateReservationStatus`: the id is checked, then the status (a
     * missing or unknown one is refused with the allowed list), then the
     * record; only its `status` changes.
     */
    method UpdateReservationStatus(id: string, status: JsValue, env: Env) returns (response: Response)
      requires Valid()
      modifies this
      ensures Valid() && flights == old(flights)
      ensures !env.isObjectId(Str(id)) ==> response == InvalidReservationId && reservations == old(reservations)
      ensures env.isObjectId(Str(id)) && ParseStatus(status).None? ==>
        response == InvalidStatusValue(ReservationStatuses) && reservations == old(reservations)
      ensures env.isObjectId(Str(id)) && ParseStatus(status).Some? && id !in old(reservations) ==>
        response == NotFound && reservations == old(reservations)
      ensures env.isObjectId(Str(id)) && ParseStatus(status).Some? && id in old(reservations) ==>
        var record := old(reservations)[id].(status := ParseStatus(status).value);
        response == Updated(id, record) && reservations == old(reservations)[id := record]
    {
      if !env.isObjectId(Str(id)) {
        return InvalidReservationId;
      }
      var parsed := ParseStatus(status);
      if !Truthy(status) || parsed.None? {
        return InvalidStatusValue(ReservationStatuses);
      }
      if id !in reservations {
        return NotFound;
      }
      var record := reservations[id].(status := parsed.value);
      reservations := reservations[id := record];
      response := Updated(id, record);
    }
  }

  /** An email with surrounding spaces fails validation, so it is never stored (not trimmed and kept). */
  lemma PaddedEmailRejected(data: Payload, env: Env)
    requires data.email == Str(" Jane@EXAMPLE.com ")
    ensures InvalidEmail in ValidationErrors(data, env)
  {
    EmailRejectsWhitespace(data.email.s, 0);
    FailingRuleReported(EmailRule, data, env);
  }

  /** A status update refused for its value names the three allowed statuses. */
  lemma UnknownStatusRefused()
    ensures ParseStatus(Str("shipped")).None?
    ensures ParseStatus(Str("confirmed")) == Some(Confirmed)
    ensures InvalidStatusValue(ReservationStatuses).StatusCode() == 400
  {
  }
}
