/**
 * The in-memory queue of pending expiry notifications
 * (packages/backend/src/services/notification-scheduler.ts). The queue is kept
 * in ascending `expiresAt` order; items due by the current time are popped
 * from the front and sent, and each send either reaches Telegram or fails.
 * Whether a send succeeds is the parameter `delivered`, one answer per rental.
 */
module Notifications {
  import opened Common
  import opened Store

  /** One queued notification; `expiresAt` in milliseconds since the epoch. */
  datatype Scheduled = Scheduled(rentalId: nat, telegramId: int, vehicleName: string, plateNumber: string, expiresAt: int)

  predicate Sorted(q: seq<Scheduled>) {
    forall i, j :: 0 <= i < j < |q| ==> q[i].expiresAt <= q[j].expiresAt
  }

  /** `findIndex(n => n.expiresAt > t)`, with "not found" as `|q|`. */
  function FirstLater(q: seq<Scheduled>, t: int): (k: nat)
    ensures k <= |q|
    ensures forall i :: 0 <= i < k ==> q[i].expiresAt <= t
    ensures k < |q| ==> q[k].expiresAt > t
  {
    if q == [] || q[0].expiresAt > t then 0 else 1 + FirstLater(q[1..], t)
  }

  /** The index a left-to-right scan stops at is the one `FirstLater` names. */
  lemma FirstLaterIs(q: seq<Scheduled>, t: int, k: nat)
    requires k <= |q|
    requires forall i :: 0 <= i < k ==> q[i].expiresAt <= t
    requires k < |q| ==> q[k].expiresAt > t
    ensures FirstLater(q, t) == k
  {
  }

  /** What is left of a sorted queue after dropping a prefix is sorted. */
  lemma SortedSuffix(q: seq<Scheduled>, k: nat)
    requires Sorted(q) && k <= |q|
    ensures Sorted(q[k..])
  {
    assert forall i :: 0 <= i < |q| - k ==> q[k..][i] == q[k + i];
  }

  /** The items of `q` due by `t`, in queue order. */
  function NotLater(q: seq<Scheduled>, t: int): seq<Scheduled> {
    if q == [] then []
    else (if q[0].expiresAt <= t then [q[0]] else []) + NotLater(q[1..], t)
  }

  /** The items of `q` not yet due at `t`, in queue order. */
  function Later(q: seq<Scheduled>, t: int): seq<Scheduled> {
    if q == [] then []
    else (if q[0].expiresAt > t then [q[0]] else []) + Later(q[1..], t)
  }

  /** In a sorted queue, the due items are exactly the prefix before the first later one. */
  lemma {:induction false} SortedDuePrefix(q: seq<Scheduled>, t: int)
    requires Sorted(q)
    ensures q[..FirstLater(q, t)] == NotLater(q, t)
    decreases |q|
  {
    if q != [] {
      if q[0].expiresAt > t {
        SortedNothingDue(q, t);
      } else {
        var rest := q[1..];
        var k := FirstLater(q, t);
        assert Sorted(rest);
        SortedDuePrefix(rest, t);
        assert k == 1 + FirstLater(rest, t);
        assert q[..k] == [q[0]] + rest[..k - 1];
      }
    }
  }

  /** ... and the items not yet due are exactly the rest. */
  lemma {:induction false} SortedLaterSuffix(q: seq<Scheduled>, t: int)
    requires Sorted(q)
    ensures q[FirstLater(q, t)..] == Later(q, t)
    decreases |q|
  {
    if q != [] {
      if q[0].expiresAt > t {
        SortedLater(q, t);
      } else {
        var rest := q[1..];
        var k := FirstLater(q, t);
        assert Sorted(rest);
        SortedLaterSuffix(rest, t);
        assert k == 1 + FirstLater(rest, t);
        assert q[k..] == rest[k - 1..];
      }
    }
  }

  /** A sorted queue whose head is later than `t` has no due item. */
  lemma {:induction false} SortedNothingDue(q: seq<Scheduled>, t: int)
    requires Sorted(q) && q != [] && q[0].expiresAt > t
    ensures NotLater(q, t) == []
    decreases |q|
  {
    if |q| > 1 {
      assert Sorted(q[1..]);
      SortedNothingDue(q[1..], t);
    }
  }

  /** A sorted queue whose head is later than `t` is entirely later. */
  lemma {:induction false} SortedLater(q: seq<Scheduled>, t: int)
    requires Sorted(q) && q != [] && q[0].expiresAt > t
    ensures Later(q, t) == q
    decreases |q|
  {
    if |q| > 1 {
      assert Sorted(q[1..]);
      SortedLater(q[1..], t);
      assert q == [q[0]] + q[1..];
    }
  }

  /** `scheduleNotification`: insert before the first strictly later item, or at the end. */
  function Inserted(q: seq<Scheduled>, n: Scheduled): (r: seq<Scheduled>)
    ensures |r| == |q| + 1
  {
    var k := FirstLater(q, n.expiresAt);
    q[..k] + [n] + q[k..]
  }

  /** Inserting adds exactly the new item. */
  lemma InsertedAdds(q: seq<Scheduled>, n: Scheduled)
    ensures multiset(Inserted(q, n)) == multiset(q) + multiset{n}
  {
    var k := FirstLater(q, n.expiresAt);
    assert q == q[..k] + q[k..];
  }

  /** Inserting keeps the queue sorted. */
  lemma InsertedSorted(q: seq<Scheduled>, n: Scheduled)
    requires Sorted(q)
    ensures Sorted(Inserted(q, n))
  {
    var k := FirstLater(q, n.expiresAt);
    var r := Inserted(q, n);
    assert r == q[..k] + [n] + q[k..];
    assert forall i :: 0 <= i < k ==> r[i] == q[i];
    assert r[k] == n;
    assert forall i :: k < i < |r| ==> r[i] == q[i - 1];
    forall i, j | 0 <= i < j < |r|
      ensures r[i].expiresAt <= r[j].expiresAt
    {
      if j > k {
        assert q[k].expiresAt <= q[j - 1].expiresAt;
      }
    }
  }

  /**
   * The new item lands after every item due by its own expiry (so equal expiries
   * stay first-in first-out) and before every later one.
   */
  lemma InsertedOrder(q: seq<Scheduled>, n: Scheduled)
    requires Sorted(q)
    ensures Inserted(q, n) == NotLater(q, n.expiresAt) + [n] + Later(q, n.expiresAt)
  {
    SortedDuePrefix(q, n.expiresAt);
    SortedLaterSuffix(q, n.expiresAt);
  }

  /** `cancelNotification`: drop the first item for `rentalId`, if there is one. */
  function RemoveFirst(q: seq<Scheduled>, rentalId: nat): seq<Scheduled>
    decreases |q|
  {
    if q == [] then []
    else if q[0].rentalId == rentalId then q[1..]
    else [q[0]] + RemoveFirst(q[1..], rentalId)
  }

  /** Removing takes items out and adds none. */
  lemma {:induction false} RemoveFirstSubset(q: seq<Scheduled>, rentalId: nat)
    ensures multiset(RemoveFirst(q, rentalId)) <= multiset(q)
    decreases |q|
  {
    if q != [] {
      assert q == [q[0]] + q[1..];
      if q[0].rentalId != rentalId {
        RemoveFirstSubset(q[1..], rentalId);
      }
    }
  }

  /** Without an item for `rentalId` the queue stays as it is; with one, exactly one item goes. */
  lemma {:induction false} RemoveFirstLength(q: seq<Scheduled>, rentalId: nat)
    ensures (forall i :: 0 <= i < |q| ==> q[i].rentalId != rentalId) ==> RemoveFirst(q, rentalId) == q
    ensures (exists i :: 0 <= i < |q| && q[i].rentalId == rentalId) ==> |RemoveFirst(q, rentalId)| == |q| - 1
    decreases |q|
  {
    if q != [] && q[0].rentalId != rentalId {
      var rest := q[1..];
      RemoveFirstLength(rest, rentalId);
      if forall i :: 0 <= i < |q| ==> q[i].rentalId != rentalId {
        assert forall i :: 0 <= i < |rest| ==> rest[i].rentalId != rentalId by {
          forall i | 0 <= i < |rest| ensures rest[i].rentalId != rentalId {
            assert rest[i] == q[i + 1];
          }
        }
        assert q == [q[0]] + rest;
      }
      if exists i :: 0 <= i < |q| && q[i].rentalId == rentalId {
        var i :| 0 <= i < |q| && q[i].rentalId == rentalId;
        assert rest[i - 1].rentalId == rentalId;
      }
    }
  }

  /** With the first item for `rentalId` at `k`, that one item is dropped and the rest keep their order. */
  lemma RemoveFirstAt(q: seq<Scheduled>, rentalId: nat, k: nat)
    requires k < |q| && q[k].rentalId == rentalId
    requires forall i :: 0 <= i < k ==> q[i].rentalId != rentalId
    ensures RemoveFirst(q, rentalId) == q[..k] + q[k + 1..]
  {
    var p := q[..k];
    assert forall i :: 0 <= i < |p| ==> p[i].rentalId != rentalId by {
      forall i | 0 <= i < |p| ensures p[i].rentalId != rentalId {
        assert p[i] == q[i];
      }
    }
    assert q == p + [q[k]] + q[k + 1..];
    RemoveAfterPrefix(p, q[k], q[k + 1..]);
  }

  /** Every item of `q` expires at `t` or later. */
  predicate NoneBefore(q: seq<Scheduled>, t: int) {
    forall i :: 0 <= i < |q| ==> t <= q[i].expiresAt
  }

  /** Removing an item keeps every remaining expiry at `t` or later. */
  lemma {:induction false} RemoveFirstNoneBefore(q: seq<Scheduled>, rentalId: nat, t: int)
    requires NoneBefore(q, t)
    ensures NoneBefore(RemoveFirst(q, rentalId), t)
    decreases |q|
  {
    if q != [] && q[0].rentalId != rentalId {
      var rest := q[1..];
      assert NoneBefore(rest, t) by {
        forall i | 0 <= i < |rest| ensures t <= rest[i].expiresAt {
          assert rest[i] == q[i + 1];
        }
      }
      RemoveFirstNoneBefore(rest, rentalId, t);
    }
  }

  /** An item placed before a sorted queue whose items all expire no earlier keeps it sorted. */
  lemma SortedCons(h: Scheduled, rest: seq<Scheduled>)
    requires Sorted(rest) && NoneBefore(rest, h.expiresAt)
    ensures Sorted([h] + rest)
  {
    var r := [h] + rest;
    forall i, j | 0 <= i < j < |r|
      ensures r[i].expiresAt <= r[j].expiresAt
    {
      assert r[j] == rest[j - 1];
      if i > 0 {
        assert r[i] == rest[i - 1];
      }
    }
  }

  /** Removing one item keeps a sorted queue sorted. */
  lemma {:induction false} RemoveFirstSorted(q: seq<Scheduled>, rentalId: nat)
    requires Sorted(q)
    ensures Sorted(RemoveFirst(q, rentalId))
    decreases |q|
  {
    if q != [] {
      var rest := q[1..];
      assert Sorted(rest);
      if q[0].rentalId != rentalId {
        RemoveFirstSorted(rest, rentalId);
        assert NoneBefore(rest, q[0].expiresAt) by {
          forall i | 0 <= i < |rest| ensures q[0].expiresAt <= rest[i].expiresAt {
            assert rest[i] == q[i + 1];
          }
        }
        RemoveFirstNoneBefore(rest, rentalId, q[0].expiresAt);
        SortedCons(q[0], RemoveFirst(rest, rentalId));
      }
    }
  }

  /** Cancelling a rental that was not queued undoes scheduling it. */
  lemma {:induction false} CancelUndoesSchedule(q: seq<Scheduled>, n: Scheduled)
    requires forall i :: 0 <= i < |q| ==> q[i].rentalId != n.rentalId
    ensures RemoveFirst(Inserted(q, n), n.rentalId) == q
  {
    var k := FirstLater(q, n.expiresAt);
    RemoveAfterPrefix(q[..k], n, q[k..]);
    assert q[..k] + q[k..] == q;
  }

  /** Removing scans past a prefix without the rental and drops the item right after it. */
  lemma {:induction false} RemoveAfterPrefix(p: seq<Scheduled>, n: Scheduled, s: seq<Scheduled>)
    requires forall i :: 0 <= i < |p| ==> p[i].rentalId != n.rentalId
    ensures RemoveFirst(p + [n] + s, n.rentalId) == p + s
    decreases |p|
  {
    if p == [] {
      assert p + [n] + s == [n] + s;
    } else {
      var t := p + [n] + s;
      var tail := p[1..];
      assert t[0] == p[0] && t[1..] == tail + [n] + s;
      assert forall i :: 0 <= i < |tail| ==> tail[i].rentalId != n.rentalId by {
        forall i | 0 <= i < |tail| ensures tail[i].rentalId != n.rentalId {
          assert tail[i] == p[i + 1];
        }
      }
      RemoveAfterPrefix(tail, n, s);
      assert p + s == [p[0]] + (tail + s);
    }
  }

  /** Sorting by expiry as `Array.prototype.sort` does (stably), built by repeated insertion. */
  function SortByExpiry(q: seq<Scheduled>): seq<Scheduled>
    decreases |q|
  {
    if q == [] then []
    else Inserted(SortByExpiry(q[..|q| - 1]), q[|q| - 1])
  }

  /** Sorting yields a queue ordered by expiry. */
  lemma {:induction false} SortSorts(q: seq<Scheduled>)
    ensures Sorted(SortByExpiry(q))
    decreases |q|
  {
    if q != [] {
      SortSorts(q[..|q| - 1]);
      InsertedSorted(SortByExpiry(q[..|q| - 1]), q[|q| - 1]);
    }
  }

  /** Sorting rearranges the queue: the same items, as often as before. */
  lemma {:induction false} SortPermutes(q: seq<Scheduled>)
    ensures multiset(SortByExpiry(q)) == multiset(q)
    decreases |q|
  {
    if q != [] {
      var init := q[..|q| - 1];
      SortPermutes(init);
      InsertedAdds(SortByExpiry(init), q[|q| - 1]);
      assert q == init + [q[|q| - 1]];
    }
  }

  /** An item due no earlier than every queued one goes to the end. */
  lemma InsertedAtEnd(q: seq<Scheduled>, n: Scheduled)
    requires forall i :: 0 <= i < |q| ==> q[i].expiresAt <= n.expiresAt
    ensures Inserted(q, n) == q + [n]
  {
    FirstLaterIs(q, n.expiresAt, |q|);
    assert q[..|q|] == q && q[|q|..] == [];
  }

  /** Sorting an already sorted queue leaves it as it is. */
  lemma {:induction false} SortSortedUnchanged(q: seq<Scheduled>)
    requires Sorted(q)
    ensures SortByExpiry(q) == q
    decreases |q|
  {
    if q != [] {
      var init := q[..|q| - 1];
      SortedInit(q);
      SortSortedUnchanged(init);
    }
  }

  /** A sorted queue is its sorted front with its last item inserted at the end. */
  lemma SortedInit(q: seq<Scheduled>)
    requires Sorted(q) && q != []
    ensures Sorted(q[..|q| - 1])
    ensures Inserted(q[..|q| - 1], q[|q| - 1]) == q
  {
    var init, last := q[..|q| - 1], q[|q| - 1];
    assert forall i :: 0 <= i < |init| ==> init[i] == q[i];
    InsertedAtEnd(init, last);
    assert init + [last] == q;
  }

  /** The items of `q` due exactly at `t`, in queue order. */
  function AtExpiry(q: seq<Scheduled>, t: int): seq<Scheduled>
    decreases |q|
  {
    if q == [] then []
    else AtExpiry(q[..|q| - 1], t) + (if q[|q| - 1].expiresAt == t then [q[|q| - 1]] else [])
  }

  lemma {:induction false} AtExpiryConcat(a: seq<Scheduled>, b: seq<Scheduled>, t: int)
    ensures AtExpiry(a + b, t) == AtExpiry(a, t) + AtExpiry(b, t)
    decreases |b|
  {
    if b == [] {
      assert a + b == a;
    } else {
      var init := b[..|b| - 1];
      assert (a + b)[..|a + b| - 1] == a + init;
      assert (a + b)[|a + b| - 1] == b[|b| - 1];
      AtExpiryConcat(a, init, t);
    }
  }

  /** No item of a queue entirely later than `t` is due exactly at `t`. */
  lemma {:induction false} AtExpiryLater(q: seq<Scheduled>, t: int)
    requires forall i :: 0 <= i < |q| ==> q[i].expiresAt > t
    ensures AtExpiry(q, t) == []
    decreases |q|
  {
    if q != [] {
      AtExpiryLater(q[..|q| - 1], t);
    }
  }

  /** Inserting into a sorted queue puts the new item after every queued item with the same expiry. */
  lemma InsertedAtExpiry(q: seq<Scheduled>, n: Scheduled, t: int)
    requires Sorted(q)
    ensures AtExpiry(Inserted(q, n), t) == AtExpiry(q, t) + (if n.expiresAt == t then [n] else [])
  {
    if n.expiresAt == t {
      SortedAfterFirstLater(q, t);
    }
    InsertedAtExpiryAt(q, n, t);
  }

  lemma InsertedAtExpiryAt(q: seq<Scheduled>, n: Scheduled, t: int)
    requires n.expiresAt == t ==> AtExpiry(q[FirstLater(q, t)..], t) == []
    ensures AtExpiry(Inserted(q, n), t) == AtExpiry(q, t) + (if n.expiresAt == t then [n] else [])
  {
    AtExpiryAround(q, n, FirstLater(q, n.expiresAt), t);
  }

  /** Splitting a queue at `k`, with or without an item put there, splits the items due exactly at `t` alike. */
  lemma AtExpiryAround(q: seq<Scheduled>, n: Scheduled, k: nat, t: int)
    requires k <= |q|
    ensures AtExpiry(q[..k] + [n] + q[k..], t)
      == AtExpiry(q[..k], t) + (if n.expiresAt == t then [n] else []) + AtExpiry(q[k..], t)
    ensures AtExpiry(q, t) == AtExpiry(q[..k], t) + AtExpiry(q[k..], t)
  {
    var front, back := q[..k], q[k..];
    AtExpiryConcat(front + [n], back, t);
    AtExpiryConcat(front, [n], t);
    AtExpiryConcat(front, back, t);
    assert [n][..0] == [];
    assert q == front + back;
  }

  /** In a sorted queue, nothing from the first item later than `t` on is due exactly at `t`. */
  lemma SortedAfterFirstLater(q: seq<Scheduled>, t: int)
    requires Sorted(q)
    ensures AtExpiry(q[FirstLater(q, t)..], t) == []
  {
    var k := FirstLater(q, t);
    var back := q[k..];
    forall i | 0 <= i < |back| ensures back[i].expiresAt > t {
      assert back[i] == q[k + i] && q[k].expiresAt <= q[k + i].expiresAt;
    }
    AtExpiryLater(back, t);
  }

  /** The sort is stable: items with the same expiry keep their relative order. */
  lemma {:induction false} SortStable(q: seq<Scheduled>, t: int)
    ensures AtExpiry(SortByExpiry(q), t) == AtExpiry(q, t)
    decreases |q|
  {
    if q != [] {
      var init := q[..|q| - 1];
      SortStable(init, t);
      SortSorts(init);
      InsertedAtExpiry(SortByExpiry(init), q[|q| - 1], t);
    }
  }

  /** The log entry written for one send: only when a user has the item's Telegram id. */
  function LogFor(users: seq<User>, item: Scheduled, ok: bool): (r: seq<LogEntry>)
    ensures |r| <= 1
    ensures r != [] <==> UserByTelegramId(users, item.telegramId, 0).Some?
    ensures forall e :: e in r ==> (e.rentalId == item.rentalId && e.success == ok
      && IsRowId(|users|, e.userId) && users[e.userId - 1].telegramId == item.telegramId)
  {
    match UserByTelegramId(users, item.telegramId, 0)
    case None => []
    case Some(u) => [LogEntry(item.rentalId, u, ok)]
  }

  /** The log entries written while sending `items` in order. */
  function SendLog(users: seq<User>, items: seq<Scheduled>, delivered: nat -> bool): (r: seq<LogEntry>)
    decreases |items|
  {
    if items == [] then []
    else
      var last := items[|items| - 1];
      SendLog(users, items[..|items| - 1], delivered) + LogFor(users, last, delivered(last.rentalId))
  }

  /** The rentals after sending `items` in order: each delivered one is marked notified. */
  function MarkSent(rentals: seq<Rental>, items: seq<Scheduled>, delivered: nat -> bool): (r: seq<Rental>)
    ensures |r| == |rentals|
    decreases |items|
  {
    if items == [] then rentals
    else
      var before := MarkSent(rentals, items[..|items| - 1], delivered);
      var last := items[|items| - 1];
      if delivered(last.rentalId) then MarkedNotified(before, last.rentalId) else before
  }

  /** Some delivered item is for rental `id`. */
  predicate DeliveredFor(items: seq<Scheduled>, delivered: nat -> bool, id: nat) {
    exists j :: 0 <= j < |items| && items[j].rentalId == id && delivered(items[j].rentalId)
  }

  /** An item is delivered for `id` among `items + [last]` iff among `items` or it is `last`. */
  lemma DeliveredForSnoc(items: seq<Scheduled>, last: Scheduled, delivered: nat -> bool, id: nat)
    ensures DeliveredFor(items + [last], delivered, id)
      <==> DeliveredFor(items, delivered, id) || (last.rentalId == id && delivered(last.rentalId))
  {
    var all := items + [last];
    if DeliveredFor(items, delivered, id) {
      var j :| 0 <= j < |items| && items[j].rentalId == id && delivered(items[j].rentalId);
      assert all[j] == items[j];
    }
    if last.rentalId == id && delivered(last.rentalId) {
      assert all[|items|] == last;
    }
    if DeliveredFor(all, delivered, id) {
      var j :| 0 <= j < |all| && all[j].rentalId == id && delivered(all[j].rentalId);
      assert j < |items| ==> all[j] == items[j];
    }
  }

  /**
   * A rental is marked by the sends exactly when one of its items was delivered;
   * a failed send leaves its rental as it was, and nothing else changes.
   */
  lemma {:induction false} MarkSentMarksDelivered(rentals: seq<Rental>, items: seq<Scheduled>, delivered: nat -> bool)
    ensures forall i :: 0 <= i < |rentals| ==>
      MarkSent(rentals, items, delivered)[i]
        == if DeliveredFor(items, delivered, i + 1) then rentals[i].(notificationSent := true) else rentals[i]
    decreases |items|
  {
    if items != [] {
      var init := items[..|items| - 1];
      var last := items[|items| - 1];
      assert items == init + [last];
      MarkSentMarksDelivered(rentals, init, delivered);
      forall i | 0 <= i < |rentals|
        ensures MarkSent(rentals, items, delivered)[i]
          == if DeliveredFor(items, delivered, i + 1) then rentals[i].(notificationSent := true) else rentals[i]
      {
        DeliveredForSnoc(init, last, delivered, i + 1);
      }
    }
  }

  /** Every log entry of the sends records whether its rental's send was delivered. */
  lemma {:induction false} SendLogRecordsOutcome(users: seq<User>, items: seq<Scheduled>, delivered: nat -> bool)
    ensures |SendLog(users, items, delivered)| <= |items|
    ensures forall e :: e in SendLog(users, items, delivered) ==>
      e.success == delivered(e.rentalId) && IsRowId(|users|, e.userId)
    decreases |items|
  {
    if items != [] {
      SendLogRecordsOutcome(users, items[..|items| - 1], delivered);
    }
  }

  /** Sending one more item extends the rentals and log of the items sent before it. */
  lemma SendStep(rentals: seq<Rental>, users: seq<User>, q: seq<Scheduled>, k: nat, delivered: nat -> bool)
    requires k < |q|
    ensures MarkSent(rentals, q[..k + 1], delivered)
      == if delivered(q[k].rentalId) then MarkedNotified(MarkSent(rentals, q[..k], delivered), q[k].rentalId)
         else MarkSent(rentals, q[..k], delivered)
    ensures SendLog(users, q[..k + 1], delivered)
      == SendLog(users, q[..k], delivered) + LogFor(users, q[k], delivered(q[k].rentalId))
  {
    assert q[..k + 1][..k] == q[..k];
  }

  /**
   * The queue's seed at start-up: rental row `from + 1` onward, joined with its
   * vehicle and user. The query leaves the row order open, and the stable sort
   * keeps it among equal expiries; the model fixes one of the allowed orders,
   * table order.
   */
  function PendingRows(rentals: seq<Rental>, vehicles: seq<Vehicle>, users: seq<User>, now: int, from: nat): (r: seq<Scheduled>)
    requires from <= |rentals|
    ensures forall x :: x in r ==> (&& from < x.rentalId <= |rentals|
                                    && IsPending(rentals[x.rentalId - 1], vehicles, users, now)
                                    && x == PendingItem(rentals, vehicles, users, now, x.rentalId - 1))
    ensures forall i :: from <= i < |rentals| && IsPending(rentals[i], vehicles, users, now) ==>
      PendingItem(rentals, vehicles, users, now, i) in r
    decreases |rentals| - from
  {
    if from == |rentals| then []
    else
      var rest := PendingRows(rentals, vehicles, users, now, from + 1);
      if IsPending(rentals[from], vehicles, users, now) then [PendingItem(rentals, vehicles, users, now, from)] + rest
      else rest
  }

  /** The notification for rental row `i + 1`: its id and expiry, its user's chat and its vehicle's name and plate. */
  function PendingItem(rentals: seq<Rental>, vehicles: seq<Vehicle>, users: seq<User>, now: int, i: nat): Scheduled
    requires i < |rentals| && IsPending(rentals[i], vehicles, users, now)
  {
    var row := rentals[i];
    Scheduled(i + 1, users[row.userId - 1].telegramId, vehicles[row.vehicleId - 1].name,
              vehicles[row.vehicleId - 1].plateNumber, row.expiresAt)
  }

  /** The filter of the start-up query: not yet expired, not notified, and both joins succeed. */
  predicate IsPending(row: Rental, vehicles: seq<Vehicle>, users: seq<User>, now: int) {
    row.expiresAt > now && !row.notificationSent
    && IsRowId(|vehicles|, row.vehicleId) && IsRowId(|users|, row.userId)
  }

  class NotificationScheduler {
    var queue: seq<Scheduled>
    /** Whether the 30-second check interval is running. */
    var timerRunning: bool
    const db: Database

    ghost predicate Valid()
      reads this
    {
      Sorted(queue)
    }

    constructor(db: Database)
      ensures Valid() && this.db == db && queue == [] && !timerRunning
    {
      this.db := db;
      queue := [];
      timerRunning := false;
    }

    /** `initialize`: append the pending rows, sort the whole queue and start the timer. */
    method Initialize(now: int)
      modifies this
      ensures Valid() && timerRunning
      ensures queue == SortByExpiry(old(queue) + PendingRows(db.rentals, db.vehicles, db.users, now, 0))
    {
      var pending := PendingRows(db.rentals, db.vehicles, db.users, now, 0);
      var i := 0;
      while i < |pending|
        invariant 0 <= i <= |pending|
        invariant queue == old(queue) + pending[..i]
      {
        queue := queue + [pending[i]];
        i := i + 1;
      }
      assert pending[..i] == pending;
      SortSorts(queue);
      queue := SortByExpiry(queue);
      timerRunning := true;
    }

    /** `scheduleNotification`: an ordered insert found by a linear scan. */
    method ScheduleNotification(n: Scheduled)
      requires Valid()
      modifies this
      ensures Valid() && timerRunning == old(timerRunning)
      ensures queue == Inserted(old(queue), n)
    {
      var idx := 0;
      while idx < |queue| && !(queue[idx].expiresAt > n.expiresAt)
        invariant 0 <= idx <= |queue|
        invariant forall i :: 0 <= i < idx ==> queue[i].expiresAt <= n.expiresAt
      {
        idx := idx + 1;
      }
      FirstLaterIs(queue, n.expiresAt, idx);
      InsertedSorted(queue, n);
      if idx == |queue| {
        assert queue[..idx] == queue && queue[idx..] == [];
        queue := queue + [n];
      } else {
        queue := queue[..idx] + [n] + queue[idx..];
      }
    }

    /** `sendNotification`: on delivery mark the rental notified; log the outcome when the user is known. */
    method SendNotification(item: Scheduled, ok: bool)
      requires db.Valid()
      modifies db
      ensures db.Valid()
      ensures db.rentals == if ok then MarkedNotified(old(db.rentals), item.rentalId) else old(db.rentals)
      ensures db.notificationLog == old(db.notificationLog) + LogFor(db.users, item, ok)
      ensures db.users == old(db.users) && db.vehicles == old(db.vehicles)
    {
      if ok {
        db.MarkNotified(item.rentalId);
      }
      var user := UserByTelegramId(db.users, item.telegramId, 0);
      if user.Some? {
        db.AppendLog(LogEntry(item.rentalId, user.value, ok));
      }
    }

    /** `processQueue`: send and drop items from the front while they are due. */
    method ProcessQueue(now: int, delivered: nat -> bool)
      requires Valid() && db.Valid()
      modifies this, db
      ensures Valid() && db.Valid() && timerRunning == old(timerRunning)
      ensures queue == old(queue)[FirstLater(old(queue), now)..]
      ensures queue == [] || queue[0].expiresAt > now
      ensures db.rentals == MarkSent(old(db.rentals), old(queue)[..FirstLater(old(queue), now)], delivered)
      ensures db.notificationLog
        == old(db.notificationLog) + SendLog(old(db.users), old(queue)[..FirstLater(old(queue), now)], delivered)
      ensures db.users == old(db.users) && db.vehicles == old(db.vehicles)
    {
      ghost var q0 := queue;
      ghost var rentals0 := db.rentals;
      ghost var log0 := db.notificationLog;
      ghost var users0 := db.users;
      ghost var k := 0;
      while |queue| > 0 && queue[0].expiresAt <= now
        invariant 0 <= k <= |q0| && queue == q0[k..]
        invariant forall i :: 0 <= i < k ==> q0[i].expiresAt <= now
        invariant db.Valid() && timerRunning == old(timerRunning)
        invariant db.users == users0 && db.vehicles == old(db.vehicles)
        invariant db.rentals == MarkSent(rentals0, q0[..k], delivered)
        invariant db.notificationLog == log0 + SendLog(users0, q0[..k], delivered)
        decreases |queue|
      {
        var item := queue[0];
        assert item == q0[k];
        queue := queue[1..];
        SendNotification(item, delivered(item.rentalId));
        SendStep(rentals0, users0, q0, k, delivered);
        k := k + 1;
      }
      FirstLaterIs(q0, now, k);
      SortedSuffix(q0, k);
    }

    /** `cancelNotification` */
    method CancelNotification(rentalId: nat)
      requires Valid()
      modifies this
      ensures Valid() && timerRunning == old(timerRunning)
      ensures queue == RemoveFirst(old(queue), rentalId)
    {
      var idx := 0;
      while idx < |queue| && queue[idx].rentalId != rentalId
        invariant 0 <= idx <= |queue|
        invariant forall i :: 0 <= i < idx ==> queue[i].rentalId != rentalId
      {
        idx := idx + 1;
      }
      RemoveFirstSorted(queue, rentalId);
      if idx < |queue| {
        RemoveFirstAt(queue, rentalId, idx);
        queue := queue[..idx] + queue[idx + 1..];
      } else {
        RemoveFirstLength(queue, rentalId);
      }
    }

    /** `stop`: the timer stops; the queue is kept. */
    method Stop()
      modifies this
      ensures !timerRunning && queue == old(queue)
    {
      timerRunning := false;
    }
  }
}
