/**
 * Recording a rental from a Telegram message
 * (packages/backend/src/services/message-parser.ts). One call parses the text,
 * finds or creates the vehicle by plate, inserts the rental unless that
 * (user, message) pair was already recorded, and queues the expiry
 * notification when the rental has not expired yet and a scheduler is set.
 * An expiry outside the JavaScript Date range makes `toISOString` throw after
 * the vehicle row was written, so that call records the vehicle and no rental.
 *
 * `Ingest` states the effect of one call on the tables as a function of the old
 * tables; the method `ProcessRentalMessage` performs it step by step and is
 * proved to agree with it. The current time is the parameter `now`.
 */
module RentalIngestion {
  import opened Common
  import opened Store
  import opened Notifications
  import opened ParseRental
  import opened CarMapping

  const MsPerHour: nat := 60 * 60 * 1000

  /** The largest distance from the epoch, in milliseconds, that a JavaScript `Date` can hold. */
  const MaxDateMs: nat := 8_640_000_000_000_000

  /** A valid `Date`: `new Date(t)` beyond the range is an Invalid Date, and its `toISOString` throws. */
  predicate ValidDate(t: int) {
    -(MaxDateMs as int) <= t <= MaxDateMs
  }

  /** `rentedAt + durationHours * 60 * 60 * 1000`, in milliseconds. */
  function ExpiresAt(rentedAt: int, hours: nat): (e: int)
    ensures e >= rentedAt
    ensures (e - rentedAt) % MsPerHour == 0 && (e - rentedAt) / MsPerHour == hours
  {
    rentedAt + hours * MsPerHour
  }

  /** Both dates of the rental row can be written as ISO strings. */
  predicate DatesInRange(messageDate: int, hours: nat) {
    ValidDate(messageDate) && ValidDate(ExpiresAt(messageDate, hours))
  }

  /** What `processRentalMessage` reports. */
  datatype Outcome = Outcome(inserted: bool, rentalId: Option<nat>)

  const NotInserted := Outcome(false, None)

  /** What a call raises: a database error, or the RangeError of `toISOString` on an Invalid Date. */
  datatype IngestError = Constraint(error: DbError) | InvalidDate

  /**
   * The effect of one call: the new vehicle and rental tables, the report or
   * the error raised, and what to queue.
   */
  datatype Step = Step(vehicles: seq<Vehicle>, rentals: seq<Rental>, outcome: Result<Outcome, IngestError>,
                       notify: Option<Scheduled>)

  /** The rental row the call inserts. */
  function RentalRow(userId: nat, vehicleId: nat, p: ParsedRental, messageId: int, messageDate: int, now: int): (r: Rental)
    ensures r.rentedAt == messageDate && r.expiresAt == ExpiresAt(messageDate, p.durationHours)
    ensures r.notificationSent <==> r.expiresAt <= now
    ensures r.userId == userId && r.vehicleId == vehicleId && r.telegramMessageId == messageId
  {
    var expiresAt := ExpiresAt(messageDate, p.durationHours);
    Rental(userId, vehicleId, p.server, p.characterName, p.characterId, p.price, p.durationHours,
           p.renterName, messageDate, expiresAt, expiresAt <= now, messageId)
  }

  /** The vehicle row created for a plate the user has not used before; its slug comes from the name. */
  function NewVehicle(table: seq<Entry>, userId: nat, p: ParsedRental): Vehicle {
    Vehicle(userId, p.vehicleName, p.plateNumber, SlugOf(table, p.vehicleName))
  }

  /** Parse succeeded and the user exists: the call goes on to the tables. */
  predicate Accepted(users: seq<User>, userId: nat, text: string) {
    IsRentalMessage(text) && ParseRentalMessage(text).Some? && IsRowId(|users|, userId)
  }

  /** `processRentalMessage` as a function of the tables before the call. */
  function Ingest(table: seq<Entry>, users: seq<User>, vehicles: seq<Vehicle>, rentals: seq<Rental>,
                  userId: nat, text: string, messageId: int, messageDate: int, now: int): Step
  {
    if !Accepted(users, userId, text) then Step(vehicles, rentals, Ok(NotInserted), None)
    else IngestParsed(table, users, vehicles, rentals, userId, ParseRentalMessage(text).value, messageId, messageDate, now)
  }

  /**
   * The vehicle step (message-parser.ts lines 46-69): the user's first vehicle
   * with the plate, or a new row appended for it, which the (user, name) index
   * refuses when the user already has a vehicle of that name.
   */
  function VehicleFor(table: seq<Entry>, vehicles: seq<Vehicle>, userId: nat, p: ParsedRental)
    : Result<(seq<Vehicle>, nat), DbError>
  {
    var found := VehicleByPlate(vehicles, userId, p.plateNumber, 0);
    if found.Some? then Ok((vehicles, found.value))
    else if HasVehicleNamed(vehicles, userId, p.vehicleName) then Err(UniqueViolation)
    else Ok((vehicles + [NewVehicle(table, userId, p)], |vehicles| + 1))
  }

  /**
   * The rental step: the row's dates must be valid, then insert unless the
   * (user, message id) pair is recorded, and pick what to queue.
   */
  function RentalStep(users: seq<User>, vehicles: seq<Vehicle>, rentals: seq<Rental>, userId: nat, vehicleId: nat,
                      p: ParsedRental, messageId: int, messageDate: int, now: int): Step
    requires IsRowId(|users|, userId)
  {
    var row := RentalRow(userId, vehicleId, p, messageId, messageDate, now);
    if !DatesInRange(messageDate, p.durationHours) then Step(vehicles, rentals, Err(InvalidDate), None)
    else if HasRentalFor(rentals, userId, messageId) then Step(vehicles, rentals, Ok(NotInserted), None)
    else
      var id := |rentals| + 1;
      var notify :=
        if row.notificationSent then None
        else Some(Scheduled(id, users[userId - 1].telegramId, p.vehicleName, p.plateNumber, row.expiresAt));
      Step(vehicles, rentals + [row], Ok(Outcome(true, Some(id))), notify)
  }

  /** The table updates of `processRentalMessage` once the text has parsed to `p` and the user exists. */
  function IngestParsed(table: seq<Entry>, users: seq<User>, vehicles: seq<Vehicle>, rentals: seq<Rental>,
                        userId: nat, p: ParsedRental, messageId: int, messageDate: int, now: int): Step
    requires IsRowId(|users|, userId)
  {
    match VehicleFor(table, vehicles, userId, p)
    case Err(e) => Step(vehicles, rentals, Err(Constraint(e)), None)
    case Ok((vehicles', vehicleId)) =>
      RentalStep(users, vehicles', rentals, userId, vehicleId, p, messageId, messageDate, now)
  }

  /** Non-trigger text, a failed parse or an unknown user: nothing is stored, nothing queued. */
  lemma IngestRejected(table: seq<Entry>, users: seq<User>, vehicles: seq<Vehicle>, rentals: seq<Rental>,
                       userId: nat, text: string, messageId: int, messageDate: int, now: int)
    requires !IsRentalMessage(text) || ParseRentalMessage(text).None? || !IsRowId(|users|, userId)
    ensures Ingest(table, users, vehicles, rentals, userId, text, messageId, messageDate, now)
      == Step(vehicles, rentals, Ok(NotInserted), None)
  {
  }

  /**
   * The user's first vehicle with the plate is reused unchanged; only when there
   * is none is one vehicle appended, with the slug resolved from the name, and
   * that append fails when the user already has a vehicle of that name. The
   * vehicle row stays even when the rental step then raises.
   */
  lemma IngestVehicle(table: seq<Entry>, users: seq<User>, vehicles: seq<Vehicle>, rentals: seq<Rental>,
                      userId: nat, p: ParsedRental, messageId: int, messageDate: int, now: int)
    requires IsRowId(|users|, userId)
    ensures var r := IngestParsed(table, users, vehicles, rentals, userId, p, messageId, messageDate, now);
      var found := VehicleByPlate(vehicles, userId, p.plateNumber, 0);
      var refused := found.None? && HasVehicleNamed(vehicles, userId, p.vehicleName);
      && (r.outcome == Err(Constraint(UniqueViolation)) <==> refused)
      && (found.Some? || refused ==> r.vehicles == vehicles)
      && (found.None? && !refused ==> r.vehicles == vehicles + [NewVehicle(table, userId, p)])
      && (!refused ==> VehicleByPlate(r.vehicles, userId, p.plateNumber, 0).Some?)
  {
    var found := VehicleByPlate(vehicles, userId, p.plateNumber, 0);
    if found.None? {
      VehicleByPlateAfterAppend(vehicles, NewVehicle(table, userId, p), userId, p.plateNumber);
    }
  }

  /**
   * A rental is inserted exactly when its (user, message id) pair is new; the new
   * row expires `durationHours` after the message date and is stored as notified
   * exactly when it has already expired.
   */
  lemma IngestInsertsOnce(table: seq<Entry>, users: seq<User>, vehicles: seq<Vehicle>, rentals: seq<Rental>,
                          userId: nat, p: ParsedRental, messageId: int, messageDate: int, now: int)
    requires IsRowId(|users|, userId)
    ensures var r := IngestParsed(table, users, vehicles, rentals, userId, p, messageId, messageDate, now);
      r.outcome.Ok? ==>
        && (r.outcome.value.inserted <==> !HasRentalFor(rentals, userId, messageId))
        && (!r.outcome.value.inserted ==> r.rentals == rentals && r.outcome.value == NotInserted)
        && (r.outcome.value.inserted ==>
              var row := r.rentals[|rentals|];
              && r.rentals == rentals + [row]
              && r.outcome.value.rentalId == Some(|rentals| + 1)
              && row.userId == userId && row.telegramMessageId == messageId
              && row.expiresAt - messageDate == p.durationHours * MsPerHour
              && (row.notificationSent <==> row.expiresAt <= now))
  {
  }

  /**
   * A call fails exactly when the vehicle insert is refused or a date of the
   * rental row lies outside the Date range; the range error comes after the
   * vehicle step. A failed call inserts no rental and queues nothing.
   */
  lemma IngestFails(table: seq<Entry>, users: seq<User>, vehicles: seq<Vehicle>, rentals: seq<Rental>,
                    userId: nat, p: ParsedRental, messageId: int, messageDate: int, now: int)
    requires IsRowId(|users|, userId)
    ensures var r := IngestParsed(table, users, vehicles, rentals, userId, p, messageId, messageDate, now);
      && (r.outcome == Err(InvalidDate) <==>
            VehicleFor(table, vehicles, userId, p).Ok? && !DatesInRange(messageDate, p.durationHours))
      && (r.outcome.Ok? <==> VehicleFor(table, vehicles, userId, p).Ok? && DatesInRange(messageDate, p.durationHours))
      && (r.outcome.Err? ==> r.rentals == rentals && r.notify.None?)
  {
  }

  /**
   * A notification is queued exactly for an inserted rental that has not expired,
   * for that rental and its stored expiry, addressed to the user's Telegram id.
   */
  lemma IngestNotifies(table: seq<Entry>, users: seq<User>, vehicles: seq<Vehicle>, rentals: seq<Rental>,
                       userId: nat, p: ParsedRental, messageId: int, messageDate: int, now: int)
    requires IsRowId(|users|, userId)
    ensures var r := IngestParsed(table, users, vehicles, rentals, userId, p, messageId, messageDate, now);
      && (r.notify.Some? <==>
            r.outcome.Ok? && r.outcome.value.inserted && !r.rentals[|rentals|].notificationSent)
      && (r.notify.Some? ==>
            && Some(r.notify.value.rentalId) == r.outcome.value.rentalId
            && r.notify.value.expiresAt == r.rentals[|rentals|].expiresAt
            && r.notify.value.expiresAt > now
            && r.notify.value.telegramId == users[userId - 1].telegramId)
  {
  }

  /** A call adds exactly one rental when it reports one inserted, and none otherwise. */
  lemma IngestCounts(table: seq<Entry>, users: seq<User>, vehicles: seq<Vehicle>, rentals: seq<Rental>,
                     userId: nat, text: string, messageId: int, messageDate: int, now: int)
    ensures var r := Ingest(table, users, vehicles, rentals, userId, text, messageId, messageDate, now);
      |r.rentals| == |rentals| + (if r.outcome.Ok? && r.outcome.value.inserted then 1 else 0)
  {
    if Accepted(users, userId, text) {
      IngestFails(table, users, vehicles, rentals, userId, ParseRentalMessage(text).value,
                  messageId, messageDate, now);
      IngestInsertsOnce(table, users, vehicles, rentals, userId, ParseRentalMessage(text).value,
                        messageId, messageDate, now);
    }
  }

  /** Processing the same message again changes nothing and reports nothing inserted. */
  lemma IngestTwice(table: seq<Entry>, users: seq<User>, vehicles: seq<Vehicle>, rentals: seq<Rental>,
                    userId: nat, text: string, messageId: int, messageDate: int, now: int, later: int)
    requires Ingest(table, users, vehicles, rentals, userId, text, messageId, messageDate, now).outcome.Ok?
    ensures var s := Ingest(table, users, vehicles, rentals, userId, text, messageId, messageDate, now);
      Ingest(table, users, s.vehicles, s.rentals, userId, text, messageId, messageDate, later)
        == Step(s.vehicles, s.rentals, Ok(NotInserted), None)
  {
    if Accepted(users, userId, text) {
      IngestParsedTwice(table, users, vehicles, rentals, userId, ParseRentalMessage(text).value,
                        messageId, messageDate, now, later);
    }
  }

  lemma IngestParsedTwice(table: seq<Entry>, users: seq<User>, vehicles: seq<Vehicle>, rentals: seq<Rental>,
                          userId: nat, p: ParsedRental, messageId: int, messageDate: int, now: int, later: int)
    requires IsRowId(|users|, userId)
    requires IngestParsed(table, users, vehicles, rentals, userId, p, messageId, messageDate, now).outcome.Ok?
    ensures var s := IngestParsed(table, users, vehicles, rentals, userId, p, messageId, messageDate, now);
      IngestParsed(table, users, s.vehicles, s.rentals, userId, p, messageId, messageDate, later)
        == Step(s.vehicles, s.rentals, Ok(NotInserted), None)
  {
    var s := IngestParsed(table, users, vehicles, rentals, userId, p, messageId, messageDate, now);
    IngestVehicle(table, users, vehicles, rentals, userId, p, messageId, messageDate, now);
    if !HasRentalFor(rentals, userId, messageId) {
      assert s.rentals[|rentals|].userId == userId && s.rentals[|rentals|].telegramMessageId == messageId;
    }
    assert HasRentalFor(s.rentals, userId, messageId);
  }

  /** A plate absent from the table is found in the row just appended for it. */
  lemma VehicleByPlateAfterAppend(vehicles: seq<Vehicle>, v: Vehicle, userId: nat, plate: string)
    requires VehicleByPlate(vehicles, userId, plate, 0).None?
    requires v.userId == userId && v.plateNumber == plate
    ensures VehicleByPlate(vehicles + [v], userId, plate, 0) == Some(|vehicles| + 1)
  {
    var all := vehicles + [v];
    assert all[|vehicles|] == v;
    assert forall i :: 0 <= i < |vehicles| ==> all[i] == vehicles[i];
  }

  /** The call keeps the schema's unique indexes. */
  lemma IngestKeepsIndexes(table: seq<Entry>, users: seq<User>, vehicles: seq<Vehicle>, rentals: seq<Rental>,
                           userId: nat, p: ParsedRental, messageId: int, messageDate: int, now: int)
    requires IsRowId(|users|, userId)
    requires UniqueVehicleNames(vehicles) && UniqueRentalMessages(rentals)
    ensures var r := IngestParsed(table, users, vehicles, rentals, userId, p, messageId, messageDate, now);
      UniqueVehicleNames(r.vehicles) && UniqueRentalMessages(r.rentals)
  {
    var r := IngestParsed(table, users, vehicles, rentals, userId, p, messageId, messageDate, now);
    if VehicleFor(table, vehicles, userId, p).Ok? {
      if VehicleByPlate(vehicles, userId, p.plateNumber, 0).None? {
        AppendKeepsVehicleNames(vehicles, NewVehicle(table, userId, p));
      }
      if DatesInRange(messageDate, p.durationHours) && !HasRentalFor(rentals, userId, messageId) {
        var vehicleId := if |r.vehicles| > |vehicles| then |r.vehicles|
          else VehicleByPlate(vehicles, userId, p.plateNumber, 0).value;
        AppendKeepsRentalMessages(rentals, RentalRow(userId, vehicleId, p, messageId, messageDate, now));
      }
    }
  }

  /** Appending a vehicle whose (user, name) is new keeps the vehicle index unique. */
  lemma AppendKeepsVehicleNames(vehicles: seq<Vehicle>, v: Vehicle)
    requires UniqueVehicleNames(vehicles) && !HasVehicleNamed(vehicles, v.userId, v.name)
    ensures UniqueVehicleNames(vehicles + [v])
  {
    var vs := vehicles + [v];
    forall i, j | 0 <= i < j < |vs|
      ensures vs[i].userId != vs[j].userId || vs[i].name != vs[j].name
    {
      assert vs[i] == vehicles[i];
    }
  }

  /** Appending a rental whose (user, message id) is new keeps the rental index unique. */
  lemma AppendKeepsRentalMessages(rentals: seq<Rental>, row: Rental)
    requires UniqueRentalMessages(rentals) && !HasRentalFor(rentals, row.userId, row.telegramMessageId)
    ensures UniqueRentalMessages(rentals + [row])
  {
    var rs := rentals + [row];
    forall i, j | 0 <= i < j < |rs|
      ensures rs[i].userId != rs[j].userId || rs[i].telegramMessageId != rs[j].telegramMessageId
    {
      assert rs[i] == rentals[i];
    }
  }

  /** The queue after a call: the notification inserted in order, if there is one. */
  function Queued(q: seq<Scheduled>, s: Step): seq<Scheduled> {
    if s.notify.Some? then Inserted(q, s.notify.value) else q
  }

  /** The module state of message-parser.ts: the database, the car table and the optional scheduler. */
  class MessageParser {
    const db: Database
    const table: seq<Entry>
    /** The `nameToId` index car-mapping.ts builds at load time. */
    const nameToId: map<string, string>
    var scheduler: NotificationScheduler?

    ghost predicate Valid()
      reads this, scheduler
    {
      nameToId == NameToId(table) && (scheduler != null ==> scheduler.Valid())
    }

    constructor(db: Database, table: seq<Entry>)
      ensures Valid() && this.db == db && this.table == table && scheduler == null
    {
      this.db := db;
      this.table := table;
      var index := BuildNameToId(table);
      nameToId := index;
      scheduler := null;
    }

    /** `setNotificationScheduler` */
    method SetNotificationScheduler(s: NotificationScheduler)
      requires Valid() && s.Valid()
      modifies this
      ensures Valid() && scheduler == s
    {
      scheduler := s;
    }

    /** `processRentalMessage`; what it throws is the error result. */
    method ProcessRentalMessage(userId: nat, text: string, messageId: int, messageDate: int, now: int)
      returns (r: Result<Outcome, IngestError>)
      requires Valid() && db.Valid()
      modifies db, scheduler
      ensures Valid() && db.Valid()
      ensures db.users == old(db.users) && db.notificationLog == old(db.notificationLog)
      ensures var spec := Ingest(table, old(db.users), old(db.vehicles), old(db.rentals), userId, text, messageId, messageDate, now);
        && r == spec.outcome && db.vehicles == spec.vehicles && db.rentals == spec.rentals
        && (scheduler != null ==> scheduler.queue == Queued(old(scheduler.queue), spec))
    {
      if !IsRentalMessage(text) {
        return Ok(NotInserted);
      }
      var parsed := ParseRentalMessage(text);
      if parsed.None? || !IsRowId(|db.users|, userId) {
        return Ok(NotInserted);
      }
      r := RecordParsed(userId, parsed.value, messageId, messageDate, now);
    }

    /** The part of `processRentalMessage` after the text has parsed to `p` and the user was found. */
    method RecordParsed(userId: nat, p: ParsedRental, messageId: int, messageDate: int, now: int)
      returns (r: Result<Outcome, IngestError>)
      requires Valid() && db.Valid() && IsRowId(|db.users|, userId)
      modifies db, scheduler
      ensures Valid() && db.Valid()
      ensures db.users == old(db.users) && db.notificationLog == old(db.notificationLog)
      ensures var spec := IngestParsed(table, old(db.users), old(db.vehicles), old(db.rentals), userId, p, messageId, messageDate, now);
        && r == spec.outcome && db.vehicles == spec.vehicles && db.rentals == spec.rentals
        && (scheduler != null ==> scheduler.queue == Queued(old(scheduler.queue), spec))
    {
      var vehicle := FindOrCreateVehicle(userId, p);
      if vehicle.Err? {
        return Err(Constraint(UniqueViolation));
      }
      r := InsertRental(userId, vehicle.value, p, messageId, messageDate, now);
    }

    /** Lines 46-69 of message-parser.ts: find the vehicle by plate, or insert it with its resolved slug. */
    method FindOrCreateVehicle(userId: nat, p: ParsedRental) returns (r: Result<nat, DbError>)
      requires Valid() && db.Valid()
      modifies db
      ensures db.Valid()
      ensures db.users == old(db.users) && db.rentals == old(db.rentals) && db.notificationLog == old(db.notificationLog)
      ensures r.Err? ==> VehicleFor(table, old(db.vehicles), userId, p) == Err(UniqueViolation) && db.vehicles == old(db.vehicles)
      ensures r.Ok? ==> VehicleFor(table, old(db.vehicles), userId, p) == Ok((db.vehicles, r.value))
    {
      var found := VehicleByPlate(db.vehicles, userId, p.plateNumber, 0);
      if found.Some? {
        return Ok(found.value);
      }
      var slug := VehicleNameToImageSlug(table, nameToId, p.vehicleName);
      var inserted := db.InsertVehicle(Vehicle(userId, p.vehicleName, p.plateNumber, slug));
      if inserted.Err? {
        return Err(UniqueViolation);
      }
      return Ok(inserted.value);
    }

    /**
     * Lines 71-122 of message-parser.ts: build the row (its ISO dates throw for
     * an Invalid Date), insert it unless recorded, then queue its notification.
     */
    method InsertRental(userId: nat, vehicleId: nat, p: ParsedRental, messageId: int, messageDate: int, now: int)
      returns (r: Result<Outcome, IngestError>)
      requires Valid() && db.Valid() && IsRowId(|db.users|, userId)
      modifies db, scheduler
      ensures Valid() && db.Valid()
      ensures db.users == old(db.users) && db.vehicles == old(db.vehicles) && db.notificationLog == old(db.notificationLog)
      ensures var step := RentalStep(old(db.users), old(db.vehicles), old(db.rentals), userId, vehicleId, p, messageId, messageDate, now);
        && r == step.outcome && db.rentals == step.rentals
        && (scheduler != null ==> scheduler.queue == if step.notify.Some? then Inserted(old(scheduler.queue), step.notify.value) else old(scheduler.queue))
    {
      var user := db.users[userId - 1];
      var expiresAt := ExpiresAt(messageDate, p.durationHours);
      var alreadyExpired := expiresAt <= now;
      if !ValidDate(messageDate) || !ValidDate(expiresAt) {
        return Err(InvalidDate);
      }
      var rental := db.InsertRentalOrIgnore(RentalRow(userId, vehicleId, p, messageId, messageDate, now));
      if rental.None? {
        return Ok(NotInserted);
      }
      if !alreadyExpired && scheduler != null {
        scheduler.ScheduleNotification(Scheduled(rental.value, user.telegramId, p.vehicleName, p.plateNumber, expiresAt));
      }
      return Ok(Outcome(true, Some(rental.value)));
    }

    /**
     * `handleIncomingMessage`: a message without text (modelled as the empty
     * text) is ignored; otherwise the message is processed with its date in
     * seconds, and a failure is swallowed.
     */
    method HandleIncomingMessage(userId: nat, text: string, messageId: int, dateSeconds: int, now: int)
      requires Valid() && db.Valid()
      modifies db, scheduler
      ensures Valid() && db.Valid()
      ensures db.users == old(db.users) && db.notificationLog == old(db.notificationLog)
      ensures text == [] ==> (db.vehicles == old(db.vehicles) && db.rentals == old(db.rentals)
        && (scheduler != null ==> scheduler.queue == old(scheduler.queue)))
      ensures var spec := Ingest(table, old(db.users), old(db.vehicles), old(db.rentals),
                                 userId, text, messageId, dateSeconds * 1000, now);
        text != [] ==>
          && db.vehicles == spec.vehicles && db.rentals == spec.rentals
          && (scheduler != null ==> scheduler.queue == Queued(old(scheduler.queue), spec))
    {
      if text == [] {
        return;
      }
      var _ := ProcessRentalMessage(userId, text, messageId, dateSeconds * 1000, now);
    }
  }
}
