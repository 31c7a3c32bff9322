/**
 * The registry of live user-account connections
 * (packages/backend/src/services/userbot-manager.ts) and the two client objects
 * it holds: the protocol library's client, reduced to whether its connection is
 * open, and the wrapper of packages/backend/src/services/userbot-client.ts with
 * its own `connected` flag. Whether a network call succeeds is a parameter.
 */
module Userbot {
  import opened Common
  import opened Store

  /** The protocol library's client: only whether its connection is open. */
  class TelegramClient {
    var open: bool
    const session: string

    constructor(session: string)
      ensures !open && this.session == session
    {
      open := false;
      this.session := session;
    }

    /** `client.connect()`; `ok` says whether the network let it through. */
    method Connect(ok: bool)
      modifies this
      ensures open == ok
    {
      open := ok;
    }

    /** `client.disconnect()`; a failed call leaves the connection as it was. */
    method Disconnect(ok: bool)
      modifies this
      ensures open == (old(open) && !ok)
    {
      if ok {
        open := false;
      }
    }
  }

  /** `UserbotClient`: the library client plus the flag `isConnected()` reports. */
  class UserbotClient {
    const userId: nat
    const inner: TelegramClient
    var connected: bool

    /** `new UserbotClient(userId, sessionString, …)`: not connected yet. */
    constructor(userId: nat, session: string)
      ensures this.userId == userId && fresh(inner) && inner.session == session
      ensures !connected && !inner.open
    {
      this.userId := userId;
      inner := new TelegramClient(session);
      connected := false;
    }

    /** `UserbotClient.fromExistingClient`: wraps a client some other object already holds; the flag starts true. */
    constructor FromExisting(userId: nat, client: TelegramClient)
      ensures this.userId == userId && inner == client && connected
    {
      this.userId := userId;
      inner := client;
      connected := true;
    }

    /** `connect()`: the flag follows the outcome; a failure is rethrown (`false`). */
    method Connect(ok: bool) returns (r: bool)
      modifies this, inner
      ensures r == ok && connected == ok && inner.open == ok
    {
      inner.Connect(ok);
      connected := ok;
      r := ok;
    }

    /** `disconnect()`: library errors are swallowed and the flag is cleared either way. */
    method Disconnect(ok: bool)
      modifies this, inner
      ensures !connected
      ensures inner.open == (old(inner.open) && !ok)
    {
      inner.Disconnect(ok);
      connected := false;
    }
  }

  /** A stored session counts only when present and non-empty (`!user.mtprotoSession`). */
  predicate HasSession(u: User) {
    u.session.Some? && u.session.value != ""
  }

  /** `initialize` tries this user: connected in the table, with a session. */
  predicate Restorable(u: User) {
    u.isConnected && HasSession(u)
  }

  /** `addClient` is called: the session also decrypts. */
  predicate Attempted(u: User, decrypt: string -> Option<string>) {
    Restorable(u) && decrypt(u.session.value).Some?
  }

  /** The user's client is restored: the session decrypts and the connection comes up. */
  predicate Restored(u: User, id: nat, decrypt: string -> Option<string>, connectOk: nat -> bool) {
    Attempted(u, decrypt) && connectOk(id)
  }

  /** The row after `initialize`: a restore that was tried and failed clears `is_connected`. */
  function AfterRestore(u: User, id: nat, decrypt: string -> Option<string>, connectOk: nat -> bool): (r: User)
    ensures r.isConnected <==> u.isConnected && (!HasSession(u) || Restored(u, id, decrypt, connectOk))
    ensures r.telegramId == u.telegramId && r.session == u.session
    ensures r.lastScannedMessageId == u.lastScannedMessageId
  {
    if Restorable(u) && !Restored(u, id, decrypt, connectOk) then u.(isConnected := false) else u
  }

  /** All rows after `initialize`; row `i` has id `i + 1`. */
  function AfterRestoreAll(users: seq<User>, decrypt: string -> Option<string>, connectOk: nat -> bool): (r: seq<User>)
    ensures |r| == |users|
    ensures forall i :: 0 <= i < |users| ==> r[i] == AfterRestore(users[i], i + 1, decrypt, connectOk)
  {
    seq(|users|, i requires 0 <= i < |users| => AfterRestore(users[i], i + 1, decrypt, connectOk))
  }

  /** The table while `initialize` runs: the first `i` rows are done, the rest untouched. */
  predicate RestoredUpTo(rows: seq<User>, users: seq<User>, i: nat, decrypt: string -> Option<string>, connectOk: nat -> bool) {
    && |rows| == |users| && i <= |users|
    && (forall k :: 0 <= k < i ==> rows[k] == AfterRestore(users[k], k + 1, decrypt, connectOk))
    && (forall k :: i <= k < |users| ==> rows[k] == users[k])
  }

  /** Restoring row `i` extends the finished prefix by one. */
  lemma RestoredUpToStep(rows: seq<User>, users: seq<User>, i: nat, decrypt: string -> Option<string>, connectOk: nat -> bool)
    requires RestoredUpTo(rows, users, i, decrypt, connectOk) && i < |users|
    ensures RestoredUpTo(rows[i := AfterRestore(rows[i], i + 1, decrypt, connectOk)], users, i + 1, decrypt, connectOk)
  {
  }

  /** Once every row is done the table is `AfterRestoreAll` of the one read at the start. */
  lemma RestoredUpToAll(rows: seq<User>, users: seq<User>, decrypt: string -> Option<string>, connectOk: nat -> bool)
    requires RestoredUpTo(rows, users, |users|, decrypt, connectOk)
    ensures rows == AfterRestoreAll(users, decrypt, connectOk)
  {
  }

  /** A restore never touches the Telegram ids, so the unique index still holds. */
  lemma AfterRestoreKeepsIds(users: seq<User>, decrypt: string -> Option<string>, connectOk: nat -> bool)
    requires UniqueTelegramIds(users)
    ensures UniqueTelegramIds(AfterRestoreAll(users, decrypt, connectOk))
  {
    var r := AfterRestoreAll(users, decrypt, connectOk);
    forall i, j | 0 <= i < j < |r| ensures r[i].telegramId != r[j].telegramId {
      assert r[i].telegramId == users[i].telegramId && r[j].telegramId == users[j].telegramId;
    }
  }

  /** Users whose `addClient` was called among the first `n` rows. */
  function AttemptedIds(users: seq<User>, n: nat, decrypt: string -> Option<string>): (s: set<nat>)
    requires n <= |users|
    ensures forall id :: id in s <==> 1 <= id <= n && Attempted(users[id - 1], decrypt)
  {
    set i | 0 <= i < n && Attempted(users[i], decrypt) :: i + 1
  }

  /** Users whose client was restored among the first `n` rows. */
  function RestoredIds(users: seq<User>, n: nat, decrypt: string -> Option<string>, connectOk: nat -> bool): (s: set<nat>)
    requires n <= |users|
    ensures forall id :: id in s <==> 1 <= id <= n && Restored(users[id - 1], id, decrypt, connectOk)
  {
    set i | 0 <= i < n && Restored(users[i], i + 1, decrypt, connectOk) :: i + 1
  }

  /** Taking one more row adds at most that row's id. */
  lemma IdsStep(users: seq<User>, n: nat, decrypt: string -> Option<string>, connectOk: nat -> bool)
    requires n < |users|
    ensures AttemptedIds(users, n + 1, decrypt)
      == AttemptedIds(users, n, decrypt) + (if Attempted(users[n], decrypt) then {n + 1} else {})
    ensures RestoredIds(users, n + 1, decrypt, connectOk)
      == RestoredIds(users, n, decrypt, connectOk) + (if Restored(users[n], n + 1, decrypt, connectOk) then {n + 1} else {})
  {
  }

  /** The registry while `initialize` runs, after the first `i` rows. */
  predicate Registered(keys: set<nat>, initial: set<nat>, users: seq<User>, i: nat,
                       decrypt: string -> Option<string>, connectOk: nat -> bool)
    requires i <= |users|
  {
    keys == (initial - AttemptedIds(users, i, decrypt)) + RestoredIds(users, i, decrypt, connectOk)
  }

  /** How one turn of `initialize` moves the registered ids. */
  lemma RegisteredStep(keys: set<nat>, next: set<nat>, initial: set<nat>, users: seq<User>, i: nat,
                       decrypt: string -> Option<string>, connectOk: nat -> bool)
    requires i < |users| && Registered(keys, initial, users, i, decrypt, connectOk)
    requires next ==
      if !Attempted(users[i], decrypt) then keys
      else if connectOk(i + 1) then keys + {i + 1}
      else keys - {i + 1}
    ensures Registered(next, initial, users, i + 1, decrypt, connectOk)
  {
    IdsStep(users, i, decrypt, connectOk);
  }

  /** The restored users are exactly the attempted ones whose connection came up. */
  lemma RestoredAreAttempted(users: seq<User>, n: nat, decrypt: string -> Option<string>, connectOk: nat -> bool)
    requires n <= |users|
    ensures RestoredIds(users, n, decrypt, connectOk) <= AttemptedIds(users, n, decrypt)
    ensures forall id :: id in AttemptedIds(users, n, decrypt) - RestoredIds(users, n, decrypt, connectOk) ==> !connectOk(id)
  {
  }

  class UserbotManager {
    var clients: map<nat, UserbotClient>

    constructor()
      ensures clients == map[]
    {
      clients := map[];
    }

    /** The library clients inside the registered wrappers. */
    function Inners(): set<TelegramClient>
      reads this, clients.Values
    {
      set c | c in clients.Values :: c.inner
    }

    /** `removeClient`: disconnect then forget; nothing for a user without a client. */
    method RemoveClient(userId: nat, closeOk: bool)
      modifies this, if userId in clients then {clients[userId], clients[userId].inner} else {}
      ensures clients == old(clients) - {userId}
      ensures userId in old(clients) ==> !old(clients)[userId].connected
      ensures userId in old(clients) ==>
        old(clients)[userId].inner.open == (old(clients[userId].inner.open) && !closeOk)
    {
      if userId in clients {
        var c := clients[userId];
        c.Disconnect(closeOk);
        clients := clients - {userId};
      }
    }

    /** `isConnected`: false without a registered client. */
    function IsConnected(userId: nat): (r: bool)
      reads this, clients.Values
      ensures r <==> userId in clients && clients[userId].connected
    {
      userId in clients && clients[userId].connected
    }

    /**
     * `addClient`: an existing client is removed (and disconnected) first; the new
     * client is registered only if it connects. `false` is the rethrown failure.
     */
    method AddClient(userId: nat, session: string, closeOk: bool, connectOk: bool) returns (ok: bool)
      modifies this, if userId in clients then {clients[userId], clients[userId].inner} else {}
      ensures ok == connectOk
      ensures userId in old(clients) ==> !old(clients)[userId].connected
      ensures ok ==>
        && userId in clients && fresh(clients[userId]) && clients[userId].connected
        && clients[userId].inner.open && clients[userId].inner.session == session
        && clients == old(clients)[userId := clients[userId]]
      ensures !ok ==> clients == old(clients) - {userId}
    {
      RemoveClient(userId, closeOk);
      var c := new UserbotClient(userId, session);
      ok := c.Connect(connectOk);
      if ok {
        clients := clients[userId := c];
      }
    }

    /** `addExistingClient`: overwrites the entry; a client registered before is not disconnected. */
    method AddExistingClient(userId: nat, client: UserbotClient)
      modifies this
      ensures clients == old(clients)[userId := client]
    {
      clients := clients[userId := client];
    }

    /** `disconnectAll`: every client is disconnected, whatever fails, and the registry ends empty. */
    method DisconnectAll(closeOk: nat -> bool)
      modifies this, clients.Values, Inners()
      ensures clients == map[]
      ensures forall u :: u in old(clients) ==> !old(clients)[u].connected
    {
      var pending := clients.Keys;
      ghost var all := clients;
      while pending != {}
        invariant clients == all && pending <= all.Keys
        invariant forall u :: u in all && u !in pending ==> !all[u].connected
        decreases pending
      {
        var u :| u in pending;
        clients[u].Disconnect(closeOk(u));
        pending := pending - {u};
      }
      clients := map[];
    }

    /** One turn of `initialize`'s loop, for the user with row id `id`. */
    method RestoreOne(db: Database, id: nat, decrypt: string -> Option<string>, connectOk: nat -> bool, closeOk: bool)
      requires db.Valid() && IsRowId(|db.users|, id)
      modifies this, db, if id in clients then {clients[id], clients[id].inner} else {}
      ensures db.Valid()
      ensures db.users == old(db.users)[id - 1 := AfterRestore(old(db.users)[id - 1], id, decrypt, connectOk)]
      ensures db.vehicles == old(db.vehicles) && db.rentals == old(db.rentals)
      ensures db.notificationLog == old(db.notificationLog)
      ensures clients.Keys ==
        if !Attempted(old(db.users)[id - 1], decrypt) then old(clients).Keys
        else if connectOk(id) then old(clients).Keys + {id}
        else old(clients).Keys - {id}
      ensures forall k :: k in clients && k != id ==> clients[k] == old(clients)[k]
      ensures Restored(old(db.users)[id - 1], id, decrypt, connectOk) ==> fresh(clients[id]) && clients[id].connected
      ensures forall k :: k in old(clients) && k != id && (id in old(clients) ==> old(clients)[k] != old(clients)[id]) ==>
        old(clients)[k].connected == old(clients[k].connected)
    {
      var user := db.users[id - 1];
      if user.isConnected && user.session.Some? && user.session.value != "" {
        var session := decrypt(user.session.value);
        if session.Some? {
          var ok := AddClient(id, session.value, closeOk, connectOk(id));
          if !ok {
            db.SetConnected(id, false);
          }
        } else {
          db.SetConnected(id, false);
        }
      }
      assert db.users[id - 1] == AfterRestore(old(db.users)[id - 1], id, decrypt, connectOk);
    }

    /**
     * `initialize`: every user connected in the table with a session is restored
     * in row order; a session that does not decrypt or a connection that fails
     * clears only that user's `is_connected`, and the next user is tried.
     */
    method Initialize(db: Database, decrypt: string -> Option<string>, connectOk: nat -> bool, closeOk: bool)
      requires db.Valid()
      modifies this, db, clients.Values, Inners()
      ensures db.Valid()
      ensures db.users == AfterRestoreAll(old(db.users), decrypt, connectOk)
      ensures db.vehicles == old(db.vehicles) && db.rentals == old(db.rentals)
      ensures db.notificationLog == old(db.notificationLog)
      ensures clients.Keys == (old(clients).Keys - AttemptedIds(old(db.users), |old(db.users)|, decrypt))
        + RestoredIds(old(db.users), |old(db.users)|, decrypt, connectOk)
      ensures forall id :: id in RestoredIds(old(db.users), |old(db.users)|, decrypt, connectOk) ==>
        id in clients && fresh(clients[id]) && clients[id].connected
    {
      ghost var users0 := db.users;
      ghost var clients0 := clients;
      var n := |db.users|;
      var i := 0;
      while i < n
        invariant n == |users0| && 0 <= i <= n
        invariant db.Valid() && |db.users| == |users0|
        invariant RestoredUpTo(db.users, users0, i, decrypt, connectOk)
        invariant db.vehicles == old(db.vehicles) && db.rentals == old(db.rentals)
        invariant db.notificationLog == old(db.notificationLog)
        invariant Registered(clients.Keys, clients0.Keys, users0, i, decrypt, connectOk)
        invariant forall id :: id in RestoredIds(users0, i, decrypt, connectOk) ==> fresh(clients[id]) && clients[id].connected
        invariant forall k :: k in clients && i < k ==> k in clients0 && clients[k] == clients0[k]
      {
        var id := i + 1;
        assert db.users[i] == users0[i];
        ghost var rows := db.users;
        ghost var before := clients;
        RestoreOne(db, id, decrypt, connectOk, closeOk);
        RestoredUpToStep(rows, users0, i, decrypt, connectOk);
        RegisteredStep(before.Keys, clients.Keys, clients0.Keys, users0, i, decrypt, connectOk);
        forall r | r in RestoredIds(users0, i + 1, decrypt, connectOk)
          ensures fresh(clients[r]) && clients[r].connected
        {
          if r != id {
            assert r in RestoredIds(users0, i, decrypt, connectOk);
            assert clients[r] == before[r];
            assert id in before ==> before[r] != before[id];
          }
        }
        i := i + 1;
      }
      RestoredUpToAll(db.users, users0, decrypt, connectOk);
    }
  }
}
