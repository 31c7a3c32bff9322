/**
 * The SQLite tables the core reads and writes (packages/backend/src/db/schema.ts),
 * held in memory. Every table has an auto-increment primary key and the core
 * never deletes a row, so row `id` is element `id - 1` of its sequence. The
 * unique indexes of the schema are the invariant `Valid`; an insert that would
 * break one fails, as SQLite's constraint check does.
 */
module Store {
  import opened Common

  datatype User = User(
    telegramId: int,
    session: Option<string>,
    isConnected: bool,
    lastScannedMessageId: Option<int>)

  datatype Vehicle = Vehicle(userId: nat, name: string, plateNumber: string, imageSlug: Option<string>)

  /** A rental row; `rentedAt` and `expiresAt` are milliseconds since the epoch. */
  datatype Rental = Rental(
    userId: nat,
    vehicleId: nat,
    server: string,
    characterName: string,
    characterId: string,
    price: nat,
    durationHours: nat,
    renterName: string,
    rentedAt: int,
    expiresAt: int,
    notificationSent: bool,
    telegramMessageId: int)

  datatype LogEntry = LogEntry(rentalId: nat, userId: nat, success: bool)

  /** The unique-constraint violation SQLite reports. */
  datatype DbError = UniqueViolation

  /** `id` names a row of a table of `n` rows. */
  predicate IsRowId(n: nat, id: nat) {
    1 <= id <= n
  }

  /** Unique index `users.telegram_id`. */
  predicate UniqueTelegramIds(users: seq<User>) {
    forall i, j :: 0 <= i < j < |users| ==> users[i].telegramId != users[j].telegramId
  }

  /** Unique index `vehicles_user_name_idx` on `(user_id, name)`. */
  predicate UniqueVehicleNames(vehicles: seq<Vehicle>) {
    forall i, j :: 0 <= i < j < |vehicles| ==>
      vehicles[i].userId != vehicles[j].userId || vehicles[i].name != vehicles[j].name
  }

  /** Unique index `rentals_user_msg_idx` on `(user_id, telegram_message_id)`. */
  predicate UniqueRentalMessages(rentals: seq<Rental>) {
    forall i, j :: 0 <= i < j < |rentals| ==>
      rentals[i].userId != rentals[j].userId || rentals[i].telegramMessageId != rentals[j].telegramMessageId
  }

  /** Some vehicle row already has this user and name. */
  predicate HasVehicleNamed(vehicles: seq<Vehicle>, userId: nat, name: string) {
    exists i :: 0 <= i < |vehicles| && vehicles[i].userId == userId && vehicles[i].name == name
  }

  /** Some rental row already has this user and message id. */
  predicate HasRentalFor(rentals: seq<Rental>, userId: nat, messageId: int) {
    exists i :: 0 <= i < |rentals| && rentals[i].userId == userId && rentals[i].telegramMessageId == messageId
  }

  /** `select … from vehicles where user_id = ? and plate_number = ?` … `.get()`: the first such row's id. */
  function VehicleByPlate(vehicles: seq<Vehicle>, userId: nat, plate: string, from: nat): (r: Option<nat>)
    requires from <= |vehicles|
    ensures r.Some? ==> (from < r.value <= |vehicles|
      && vehicles[r.value - 1].userId == userId && vehicles[r.value - 1].plateNumber == plate)
    ensures r.Some? ==> forall i :: from <= i < r.value - 1 ==>
      !(vehicles[i].userId == userId && vehicles[i].plateNumber == plate)
    ensures r.None? ==> forall i :: from <= i < |vehicles| ==>
      !(vehicles[i].userId == userId && vehicles[i].plateNumber == plate)
    decreases |vehicles| - from
  {
    if from == |vehicles| then None
    else if vehicles[from].userId == userId && vehicles[from].plateNumber == plate then Some(from + 1)
    else VehicleByPlate(vehicles, userId, plate, from + 1)
  }

  /** `select … from users where telegram_id = ?` … `.get()`: the id of the user with that Telegram id. */
  function UserByTelegramId(users: seq<User>, telegramId: int, from: nat): (r: Option<nat>)
    requires from <= |users|
    ensures r.Some? ==> from < r.value <= |users| && users[r.value - 1].telegramId == telegramId
    ensures r.Some? ==> forall i :: from <= i < r.value - 1 ==> users[i].telegramId != telegramId
    ensures r.None? ==> forall i :: from <= i < |users| ==> users[i].telegramId != telegramId
    decreases |users| - from
  {
    if from == |users| then None
    else if users[from].telegramId == telegramId then Some(from + 1)
    else UserByTelegramId(users, telegramId, from + 1)
  }

  /** Under the unique index, the lookup by Telegram id finds exactly the row that has it. */
  lemma UserByTelegramIdUnique(users: seq<User>, id: nat)
    requires UniqueTelegramIds(users) && IsRowId(|users|, id)
    ensures UserByTelegramId(users, users[id - 1].telegramId, 0) == Some(id)
  {
  }

  class Database {
    var users: seq<User>
    var vehicles: seq<Vehicle>
    var rentals: seq<Rental>
    var notificationLog: seq<LogEntry>

    /** The schema's unique indexes hold. */
    ghost predicate Valid()
      reads this
    {
      && UniqueTelegramIds(users)
      && UniqueVehicleNames(vehicles)
      && UniqueRentalMessages(rentals)
    }

    constructor(users: seq<User>)
      requires UniqueTelegramIds(users)
      ensures Valid()
      ensures this.users == users && vehicles == [] && rentals == [] && notificationLog == []
    {
      this.users := users;
      vehicles := [];
      rentals := [];
      notificationLog := [];
    }

    /** `insert into vehicles … returning`: the new row's id, or the unique-index violation. */
    method InsertVehicle(v: Vehicle) returns (r: Result<nat, DbError>)
      requires Valid()
      modifies this
      ensures Valid()
      ensures r.Err? <==> HasVehicleNamed(old(vehicles), v.userId, v.name)
      ensures r.Err? ==> vehicles == old(vehicles)
      ensures r.Ok? ==> vehicles == old(vehicles) + [v] && r.value == |vehicles|
      ensures users == old(users) && rentals == old(rentals) && notificationLog == old(notificationLog)
    {
      var i := 0;
      while i < |vehicles|
        invariant 0 <= i <= |vehicles|
        invariant forall k :: 0 <= k < i ==> vehicles[k].userId != v.userId || vehicles[k].name != v.name
      {
        if vehicles[i].userId == v.userId && vehicles[i].name == v.name {
          return Err(UniqueViolation);
        }
        i := i + 1;
      }
      vehicles := vehicles + [v];
      r := Ok(|vehicles|);
    }

    /** `insert into rentals … on conflict do nothing returning`: the new row's id, or nothing. */
    method InsertRentalOrIgnore(rental: Rental) returns (r: Option<nat>)
      requires Valid()
      modifies this
      ensures Valid()
      ensures r.None? <==> HasRentalFor(old(rentals), rental.userId, rental.telegramMessageId)
      ensures r.None? ==> rentals == old(rentals)
      ensures r.Some? ==> rentals == old(rentals) + [rental] && r.value == |rentals|
      ensures users == old(users) && vehicles == old(vehicles) && notificationLog == old(notificationLog)
    {
      var i := 0;
      while i < |rentals|
        invariant 0 <= i <= |rentals|
        invariant forall k :: 0 <= k < i ==>
          rentals[k].userId != rental.userId || rentals[k].telegramMessageId != rental.telegramMessageId
      {
        if rentals[i].userId == rental.userId && rentals[i].telegramMessageId == rental.telegramMessageId {
          return None;
        }
        i := i + 1;
      }
      rentals := rentals + [rental];
      r := Some(|rentals|);
    }

    /** `update rentals set notification_sent = true where id = ?` */
    method MarkNotified(rentalId: nat)
      requires Valid()
      modifies this
      ensures Valid()
      ensures rentals == MarkedNotified(old(rentals), rentalId)
      ensures users == old(users) && vehicles == old(vehicles) && notificationLog == old(notificationLog)
    {
      rentals := MarkedNotified(rentals, rentalId);
      MarkedNotifiedKeepsKeys(old(rentals), rentalId);
    }

    /** `update users set last_scanned_message_id = ? where id = ?` */
    method SetLastScanned(userId: nat, messageId: int)
      requires Valid()
      modifies this
      ensures Valid()
      ensures IsRowId(|old(users)|, userId) ==>
        users == old(users)[userId - 1 := old(users)[userId - 1].(lastScannedMessageId := Some(messageId))]
      ensures !IsRowId(|old(users)|, userId) ==> users == old(users)
      ensures vehicles == old(vehicles) && rentals == old(rentals) && notificationLog == old(notificationLog)
    {
      if IsRowId(|users|, userId) {
        users := users[userId - 1 := users[userId - 1].(lastScannedMessageId := Some(messageId))];
      }
    }

    /** `update users set is_connected = ? where id = ?` */
    method SetConnected(userId: nat, connected: bool)
      requires Valid()
      modifies this
      ensures Valid()
      ensures IsRowId(|old(users)|, userId) ==>
        users == old(users)[userId - 1 := old(users)[userId - 1].(isConnected := connected)]
      ensures !IsRowId(|old(users)|, userId) ==> users == old(users)
      ensures vehicles == old(vehicles) && rentals == old(rentals) && notificationLog == old(notificationLog)
    {
      if IsRowId(|users|, userId) {
        users := users[userId - 1 := users[userId - 1].(isConnected := connected)];
      }
    }

    /** `update users set mtproto_session = ?, is_connected = true where id = ?`; no row, no change. */
    method SetSession(userId: nat, session: string)
      requires Valid()
      modifies this
      ensures Valid()
      ensures IsRowId(|old(users)|, userId) ==>
        users == old(users)[userId - 1 := old(users)[userId - 1].(session := Some(session), isConnected := true)]
      ensures !IsRowId(|old(users)|, userId) ==> users == old(users)
      ensures vehicles == old(vehicles) && rentals == old(rentals) && notificationLog == old(notificationLog)
    {
      if IsRowId(|users|, userId) {
        users := users[userId - 1 := users[userId - 1].(session := Some(session), isConnected := true)];
      }
    }

    /** `insert into notification_log` */
    method AppendLog(entry: LogEntry)
      requires Valid()
      modifies this
      ensures Valid()
      ensures notificationLog == old(notificationLog) + [entry]
      ensures users == old(users) && vehicles == old(vehicles) && rentals == old(rentals)
    {
      notificationLog := notificationLog + [entry];
    }
  }

  /** The rentals after `notification_sent` is set on row `rentalId` (no row: no change). */
  function MarkedNotified(rentals: seq<Rental>, rentalId: nat): (r: seq<Rental>)
    ensures |r| == |rentals|
    ensures forall i :: 0 <= i < |rentals| && i != rentalId - 1 ==> r[i] == rentals[i]
    ensures IsRowId(|rentals|, rentalId) ==> r[rentalId - 1] == rentals[rentalId - 1].(notificationSent := true)
  {
    if IsRowId(|rentals|, rentalId) then
      rentals[rentalId - 1 := rentals[rentalId - 1].(notificationSent := true)]
    else rentals
  }

  /** Marking a rental notified keeps every row's user and message id, hence the unique index. */
  lemma MarkedNotifiedKeepsKeys(rentals: seq<Rental>, rentalId: nat)
    requires UniqueRentalMessages(rentals)
    ensures UniqueRentalMessages(MarkedNotified(rentals, rentalId))
    ensures forall i :: 0 <= i < |rentals| ==>
      MarkedNotified(rentals, rentalId)[i].userId == rentals[i].userId
      && MarkedNotified(rentals, rentalId)[i].telegramMessageId == rentals[i].telegramMessageId
  {
    var r := MarkedNotified(rentals, rentalId);
    forall i | 0 <= i < |rentals|
      ensures r[i].userId == rentals[i].userId && r[i].telegramMessageId == rentals[i].telegramMessageId
    {
    }
  }
}
