/**
 * Importing a user's past rental messages
 * (packages/backend/src/services/history-scanner.ts). A scan walks the chat
 * with the game bot from the stored checkpoint on, counts the messages, records
 * every rental message through the ingestion routine, and writes the highest
 * message id seen as the new checkpoint every 500 messages and at the end.
 * When Telegram throttles the client (a flood wait) the scan starts over from
 * the stored checkpoint; any other error ends it, keeping the checkpoints
 * already written.
 *
 * The chat is the sequence `history`; the part a scan reads is `Since(history,
 * minId)`. Where `iterMessages` throws is the parameter `interrupts`: attempt
 * `k` is stopped by `interrupts[k]` (a flood wait or any other error, before
 * the message at that position), and attempts beyond `|interrupts|` run to
 * the end of the chat.
 */
module HistoryScan {
  import opened Common
  import opened Store
  import opened ParseRental
  import opened RentalIngestion

  datatype Message = Message(id: int, text: string, date: int)

  datatype Progress = Progress(totalProcessed: nat, rentalsFound: nat, newRentalsInserted: nat, isRunning: bool)

  /**
   * Why `scanUser` gave no result: a refusal before the scan starts, an error
   * recording a message, or an `iterMessages` error other than a flood wait.
   */
  datatype ScanError = AlreadyScanning | NotConnected | UserNotFound | IngestFailed | FetchFailed

  /** `iterMessages` throwing before it yields the message at stream position `at`. */
  datatype Interrupt = FloodWait(at: nat) | FetchError(at: nat)

  /**
   * How one pass over the messages ended: read to the end, stopped by a flood
   * wait or another `iterMessages` error, or failed while recording a message.
   */
  datatype Attempt = Completed | Flooded | Broken | Failed

  const CheckpointEvery: nat := 500

  /** `iterMessages(…, { minId, reverse: true })`: the messages after `minId`, oldest first. */
  function Since(history: seq<Message>, minId: int): (r: seq<Message>)
    ensures forall m :: m in r ==> m in history && m.id > minId
    ensures forall m :: m in history && m.id > minId ==> m in r
  {
    if history == [] then []
    else (if history[0].id > minId then [history[0]] else []) + Since(history[1..], minId)
  }

  /** The high-water mark: the larger of `start` and every id in `s`. */
  function MaxId(start: int, s: seq<Message>): (r: int)
    ensures r >= start
    ensures forall m :: m in s ==> m.id <= r
    ensures r == start || exists m :: m in s && m.id == r
    decreases |s|
  {
    if s == [] then start
    else
      var before := MaxId(start, s[..|s| - 1]);
      assert forall m :: m in s[..|s| - 1] ==> m in s;
      assert forall m :: m in s ==> m in s[..|s| - 1] || m == s[|s| - 1];
      if s[|s| - 1].id > before then s[|s| - 1].id else before
  }

  /** A longer prefix has a high-water mark at least as high. */
  lemma MaxIdPrefix(start: int, s: seq<Message>, a: nat, b: nat)
    requires a <= b <= |s|
    ensures MaxId(start, s[..a]) <= MaxId(start, s[..b])
  {
    var hi := MaxId(start, s[..a]);
    if hi != start {
      var m :| m in s[..a] && m.id == hi;
      assert m in s[..b];
    }
  }

  /** The high-water mark only depends on the messages above its starting value. */
  lemma MaxIdSince(start: int, history: seq<Message>)
    ensures MaxId(start, Since(history, start)) == MaxId(start, history)
  {
    var since := Since(history, start);
    var x := MaxId(start, since);
    var y := MaxId(start, history);
    assert y <= x by {
      if y != start {
        var m :| m in history && m.id == y;
        assert m in since;
      }
    }
    assert x <= y by {
      if x != start {
        var m :| m in since && m.id == x;
        assert m in history;
      }
    }
  }

  /** Starting from any value between `a` and the mark from `a` gives the same mark. */
  lemma MaxIdAbsorb(a: int, b: int, s: seq<Message>)
    requires a <= b <= MaxId(a, s)
    ensures MaxId(b, s) == MaxId(a, s)
  {
    var x := MaxId(a, s);
    var y := MaxId(b, s);
    if x != a {
      var m :| m in s && m.id == x;
    }
    if y != b {
      var m :| m in s && m.id == y;
    }
  }

  /** Messages with text that the trigger test accepts: the ones handed to ingestion. */
  predicate IsRentalText(m: Message) {
    m.text != [] && IsRentalMessage(m.text)
  }

  function RentalCount(s: seq<Message>): (r: nat)
    ensures r <= |s|
    decreases |s|
  {
    if s == [] then 0
    else RentalCount(s[..|s| - 1]) + (if IsRentalText(s[|s| - 1]) then 1 else 0)
  }

  /** `lastScannedMessageId ?? 0` */
  function LastScanned(u: User): int {
    if u.lastScannedMessageId.Some? then u.lastScannedMessageId.value else 0
  }

  /** The count at which the last checkpoint was due: the largest multiple of 500 up to `n`. */
  function LastBoundary(n: nat): (j: nat)
    ensures j <= n && j % CheckpointEvery == 0 && n - j < CheckpointEvery
  {
    n - n % CheckpointEvery
  }

  /** One more message moves the last boundary only when the count reaches a multiple of 500. */
  lemma BoundaryStep(n: nat)
    ensures (n + 1) % CheckpointEvery != 0 ==> LastBoundary(n + 1) == LastBoundary(n)
    ensures (n + 1) % CheckpointEvery == 0 ==> LastBoundary(n + 1) == n + 1
  {
  }

  /**
   * The stored checkpoint after `n` messages of `stream`: the mark at the last
   * multiple of 500, if it rose above `minId`, else what was stored before.
   */
  function Checkpointed(minId: int, prior: Option<int>, stream: seq<Message>, n: nat): (r: Option<int>)
    requires n <= |stream|
    ensures r == prior || (r.Some? && minId < r.value <= MaxId(minId, stream[..n]))
  {
    var j := LastBoundary(n);
    MaxIdPrefix(minId, stream, j, n);
    if j > 0 && MaxId(minId, stream[..j]) > minId then Some(MaxId(minId, stream[..j])) else prior
  }

  /** One more message keeps the checkpoint unless the count reaches a multiple of 500. */
  lemma CheckpointStep(minId: int, prior: Option<int>, stream: seq<Message>, n: nat)
    requires n < |stream|
    ensures (n + 1) % CheckpointEvery != 0 ==>
      Checkpointed(minId, prior, stream, n + 1) == Checkpointed(minId, prior, stream, n)
    ensures (n + 1) % CheckpointEvery == 0 ==>
      Checkpointed(minId, prior, stream, n + 1)
        == if MaxId(minId, stream[..n + 1]) > minId then Some(MaxId(minId, stream[..n + 1]))
           else Checkpointed(minId, prior, stream, n)
  {
    BoundaryStep(n);
    if (n + 1) % CheckpointEvery == 0 {
      MaxIdPrefix(minId, stream, LastBoundary(n), n + 1);
    }
  }

  /** The checkpoint after a completed pass, the final write included. */
  function Finished(minId: int, prior: Option<int>, stream: seq<Message>): Option<int> {
    if MaxId(minId, stream) > minId then Some(MaxId(minId, stream)) else prior
  }

  /**
   * A completed pass ends with the checkpoint at the mark over the whole stream
   * whenever that rose above `minId`; otherwise no checkpoint was ever written.
   */
  lemma FinishedAfterCheckpoints(minId: int, prior: Option<int>, stream: seq<Message>)
    ensures (if MaxId(minId, stream) > minId then Some(MaxId(minId, stream))
             else Checkpointed(minId, prior, stream, |stream|))
      == Finished(minId, prior, stream)
  {
    MaxIdPrefix(minId, stream, LastBoundary(|stream|), |stream|);
    assert stream[..|stream|] == stream;
  }

  /**
   * How a pass over `stream` ended: all of it read, stopped by the interrupt
   * `stop` at its position (possibly before the first message), or failed
   * after counting at least one message; with the counts of what it read.
   */
  predicate PassEnded(outcome: Attempt, progress: Progress, stream: seq<Message>, stop: Option<Interrupt>) {
    && progress.totalProcessed <= |stream| && progress.isRunning
    && progress.newRentalsInserted <= progress.rentalsFound <= progress.totalProcessed
    && progress.rentalsFound == RentalCount(stream[..progress.totalProcessed])
    && (outcome == Completed ==>
          progress.totalProcessed == |stream| && (stop.None? || stop.value.at >= |stream|))
    && (outcome == Flooded ==> stop == Some(FloodWait(progress.totalProcessed)) && progress.totalProcessed < |stream|)
    && (outcome == Broken ==> stop == Some(FetchError(progress.totalProcessed)) && progress.totalProcessed < |stream|)
    && (outcome == Failed ==> progress.totalProcessed > 0)
  }

  /** A pass that reaches the position of its interrupt ends there, by the interrupt's kind. */
  lemma Interrupted(outcome: Attempt, progress: Progress, stream: seq<Message>, stop: Interrupt)
    requires stop.at < |stream| && progress.totalProcessed == stop.at && progress.isRunning
    requires progress.newRentalsInserted <= progress.rentalsFound <= progress.totalProcessed
    requires progress.rentalsFound == RentalCount(stream[..progress.totalProcessed])
    requires outcome == if stop.FloodWait? then Flooded else Broken
    ensures PassEnded(outcome, progress, stream, Some(stop))
  {
  }

  /** A completed pass counted every message of its stream and every rental among them. */
  lemma CompletedCounts(outcome: Attempt, progress: Progress, stream: seq<Message>, stop: Option<Interrupt>)
    requires PassEnded(outcome, progress, stream, stop) && outcome == Completed
    ensures progress.totalProcessed == |stream| && progress.rentalsFound == RentalCount(stream)
  {
    assert stream[..|stream|] == stream;
  }

  /**
   * The checkpoint a pass leaves after counting `n` messages: the final write of
   * a completed pass, else the last periodic one before the stop (a failure
   * counts the message it failed on, which never reached its checkpoint).
   */
  function PassStored(outcome: Attempt, minId: int, prior: Option<int>, stream: seq<Message>, n: nat): Option<int>
    requires n <= |stream|
  {
    if outcome == Completed then Finished(minId, prior, stream)
    else Checkpointed(minId, prior, stream, if outcome == Failed && n > 0 then n - 1 else n)
  }

  /** One more message extends the count and the mark by that message. */
  lemma PrefixStep(minId: int, stream: seq<Message>, i: nat)
    requires i < |stream|
    ensures RentalCount(stream[..i + 1]) == RentalCount(stream[..i]) + (if IsRentalText(stream[i]) then 1 else 0)
    ensures MaxId(minId, stream[..i + 1])
      == if stream[i].id > MaxId(minId, stream[..i]) then stream[i].id else MaxId(minId, stream[..i])
  {
    var p := stream[..i + 1];
    assert p[..|p| - 1] == stream[..i];
  }

  /** The users table with `userId`'s checkpoint set to `stored`. */
  function WithCheckpoint(users: seq<User>, userId: nat, stored: Option<int>): seq<User>
    requires IsRowId(|users|, userId)
  {
    users[userId - 1 := users[userId - 1].(lastScannedMessageId := stored)]
  }

  /** A second checkpoint write replaces the first. */
  lemma WithCheckpointTwice(users: seq<User>, userId: nat, a: Option<int>, b: Option<int>)
    requires IsRowId(|users|, userId)
    ensures var u := WithCheckpoint(users, userId, a);
      u[userId - 1 := u[userId - 1].(lastScannedMessageId := b)] == WithCheckpoint(users, userId, b)
  {
  }

  class HistoryScanner {
    var activeScans: map<nat, Progress>
    const parser: MessageParser

    /** An entry exists only while its scan runs: every exit deletes it. */
    ghost predicate Valid()
      reads this
    {
      forall u :: u in activeScans ==> activeScans[u].isRunning
    }

    constructor(parser: MessageParser)
      ensures Valid() && activeScans == map[] && this.parser == parser
    {
      activeScans := map[];
      this.parser := parser;
    }

    /** `isScanning` */
    predicate IsScanning(userId: nat)
      reads this
    {
      userId in activeScans && activeScans[userId].isRunning
    }

    /** `processRentalMessage` for one scanned message: whether a rental was inserted, or the error. */
    method Record(userId: nat, message: Message, now: int) returns (r: Result<bool, IngestError>)
      requires parser.Valid() && parser.db.Valid() && IsRowId(|parser.db.users|, userId)
      modifies parser.db, parser.scheduler
      ensures parser.Valid() && parser.db.Valid()
      ensures parser.db.users == old(parser.db.users)
      ensures |parser.db.rentals| == |old(parser.db.rentals)| + (if r == Ok(true) then 1 else 0)
    {
      var db := parser.db;
      IngestCounts(parser.table, db.users, db.vehicles, db.rentals, userId, message.text, message.id,
                   message.date * 1000, now);
      var result := parser.ProcessRentalMessage(userId, message.text, message.id, message.date * 1000, now);
      if result.Err? {
        return Err(result.error);
      }
      return Ok(result.value.inserted);
    }

    /** What holds of a pass after its first `i` messages. */
    ghost predicate PassState(userId: nat, minId: int, stream: seq<Message>, i: nat, progress: Progress, highest: int,
                              users0: seq<User>, prior: Option<int>, rentals0: nat)
      reads this, parser, parser.db, parser.scheduler
    {
      && i <= |stream| && progress.totalProcessed == i && progress.isRunning
      && parser.Valid() && parser.db.Valid()
      && highest == MaxId(minId, stream[..i])
      && progress.newRentalsInserted <= progress.rentalsFound <= i
      && progress.rentalsFound == RentalCount(stream[..i])
      && |parser.db.rentals| == rentals0 + progress.newRentalsInserted
      && IsRowId(|users0|, userId)
      && parser.db.users == WithCheckpoint(users0, userId, Checkpointed(minId, prior, stream, i))
    }

    /** One turn of the `for await` loop: count, raise the mark, record a rental message, checkpoint. */
    method Visit(userId: nat, minId: int, stream: seq<Message>, i: nat, progress: Progress, highest: int, now: int,
                 ghost users0: seq<User>, ghost prior: Option<int>, ghost rentals0: nat)
      returns (failed: bool, next: Progress, highest': int)
      requires i < |stream|
      requires PassState(userId, minId, stream, i, progress, highest, users0, prior, rentals0)
      modifies parser.db, parser.scheduler
      ensures next.totalProcessed == i + 1 && next.isRunning
      ensures next.rentalsFound == RentalCount(stream[..i + 1])
      ensures next.newRentalsInserted <= next.rentalsFound
      ensures |parser.db.rentals| == rentals0 + next.newRentalsInserted
      ensures parser.Valid() && parser.db.Valid()
      ensures failed ==> parser.db.users == WithCheckpoint(users0, userId, Checkpointed(minId, prior, stream, i))
      ensures !failed ==> PassState(userId, minId, stream, i + 1, next, highest', users0, prior, rentals0)
    {
      var message := stream[i];
      PrefixStep(minId, stream, i);
      next := progress.(totalProcessed := progress.totalProcessed + 1);
      highest' := highest;
      if message.id > highest' {
        highest' := message.id;
      }
      if message.text != [] && IsRentalMessage(message.text) {
        next := next.(rentalsFound := next.rentalsFound + 1);
        var result := Record(userId, message, now);
        if result.Err? {
          return true, next, highest';
        }
        if result.value {
          next := next.(newRentalsInserted := next.newRentalsInserted + 1);
        }
      }
      Checkpoint(userId, minId, stream, i, next.totalProcessed, highest', users0, prior);
      return false, next, highest';
    }

    /** The checkpoint write after message `i` (the `count`-th), due when `count` is a multiple of 500. */
    method Checkpoint(userId: nat, minId: int, stream: seq<Message>, i: nat, count: nat, highest: int,
                      ghost users0: seq<User>, ghost prior: Option<int>)
      requires i < |stream| && count == i + 1 && IsRowId(|users0|, userId)
      requires parser.db.Valid() && highest == MaxId(minId, stream[..i + 1])
      requires parser.db.users == WithCheckpoint(users0, userId, Checkpointed(minId, prior, stream, i))
      modifies parser.db
      ensures parser.db.Valid() && parser.db.rentals == old(parser.db.rentals)
      ensures parser.db.users == WithCheckpoint(users0, userId, Checkpointed(minId, prior, stream, i + 1))
    {
      CheckpointStep(minId, prior, stream, i);
      if count % CheckpointEvery == 0 && highest > minId {
        parser.db.SetLastScanned(userId, highest);
        WithCheckpointTwice(users0, userId, Checkpointed(minId, prior, stream, i), Some(highest));
      }
    }

    /** The `for await` loop and the final checkpoint, for one pass over `stream`. */
    method Pass(userId: nat, minId: int, stream: seq<Message>, stop: Option<Interrupt>, now: int)
      returns (outcome: Attempt, progress: Progress)
      requires parser.Valid() && parser.db.Valid() && IsRowId(|parser.db.users|, userId)
      modifies parser.db, parser.scheduler
      ensures parser.Valid() && parser.db.Valid()
      ensures PassEnded(outcome, progress, stream, stop)
      ensures |parser.db.rentals| == |old(parser.db.rentals)| + progress.newRentalsInserted
      ensures parser.db.users == WithCheckpoint(old(parser.db.users), userId,
        PassStored(outcome, minId, old(parser.db.users[userId - 1].lastScannedMessageId), stream, progress.totalProcessed))
    {
      ghost var users0 := parser.db.users;
      ghost var prior := users0[userId - 1].lastScannedMessageId;
      assert WithCheckpoint(users0, userId, prior) == users0;
      var highest;
      outcome, progress, highest := Loop(userId, minId, stream, stop, now, users0, prior, |parser.db.rentals|);
      if outcome == Completed {
        FinishedAfterCheckpoints(minId, prior, stream);
        if highest > minId {
          parser.db.SetLastScanned(userId, highest);
          WithCheckpointTwice(users0, userId, Checkpointed(minId, prior, stream, |stream|), Some(highest));
        }
      }
    }

    /**
     * The turns of the `for await` loop over the first `end` messages, or up to
     * the one whose recording fails.
     */
    method Walk(userId: nat, minId: int, stream: seq<Message>, end: nat, now: int,
                ghost users0: seq<User>, ghost prior: Option<int>, ghost rentals0: nat)
      returns (failed: bool, progress: Progress, highest: int)
      requires end <= |stream|
      requires PassState(userId, minId, stream, 0, Progress(0, 0, 0, true), minId, users0, prior, rentals0)
      modifies parser.db, parser.scheduler
      ensures parser.Valid() && parser.db.Valid()
      ensures !failed ==> PassState(userId, minId, stream, end, progress, highest, users0, prior, rentals0)
      ensures failed ==>
        && 0 < progress.totalProcessed <= end && progress.isRunning
        && progress.newRentalsInserted <= progress.rentalsFound <= progress.totalProcessed
        && progress.rentalsFound == RentalCount(stream[..progress.totalProcessed])
        && |parser.db.rentals| == rentals0 + progress.newRentalsInserted
        && parser.db.users == WithCheckpoint(users0, userId, Checkpointed(minId, prior, stream, progress.totalProcessed - 1))
    {
      progress := Progress(0, 0, 0, true);
      highest := minId;
      var i := 0;
      while i < end
        invariant i <= end
        invariant PassState(userId, minId, stream, i, progress, highest, users0, prior, rentals0)
      {
        failed, progress, highest := Visit(userId, minId, stream, i, progress, highest, now, users0, prior, rentals0);
        if failed {
          return true, progress, highest;
        }
        i := i + 1;
      }
      return false, progress, highest;
    }

    /**
     * The `for await` loop of a pass, up to the final checkpoint: it stops
     * where `iterMessages` throws, if that comes before the end of the stream.
     */
    method Loop(userId: nat, minId: int, stream: seq<Message>, stop: Option<Interrupt>, now: int,
                ghost users0: seq<User>, ghost prior: Option<int>, ghost rentals0: nat)
      returns (outcome: Attempt, progress: Progress, highest: int)
      requires PassState(userId, minId, stream, 0, Progress(0, 0, 0, true), minId, users0, prior, rentals0)
      modifies parser.db, parser.scheduler
      ensures parser.Valid() && parser.db.Valid()
      ensures PassEnded(outcome, progress, stream, stop)
      ensures |parser.db.rentals| == rentals0 + progress.newRentalsInserted
      ensures parser.db.users == WithCheckpoint(users0, userId,
        Checkpointed(minId, prior, stream, if outcome == Failed then progress.totalProcessed - 1 else progress.totalProcessed))
      ensures outcome == Completed ==> highest == MaxId(minId, stream)
    {
      var end := if stop.Some? && stop.value.at < |stream| then stop.value.at else |stream|;
      var failed;
      failed, progress, highest := Walk(userId, minId, stream, end, now, users0, prior, rentals0);
      if failed {
        assert PassEnded(Failed, progress, stream, stop);
        return Failed, progress, highest;
      }
      if end < |stream| {
        outcome := if stop.value.FloodWait? then Flooded else Broken;
        Interrupted(outcome, progress, stream, stop.value);
        return outcome, progress, highest;
      }
      assert stream[..end] == stream;
      assert PassEnded(Completed, progress, stream, stop);
      return Completed, progress, highest;
    }

    /**
     * `scanUser`. `connected` says whether the manager holds a connected client
     * for the user. The checks come before the scan is registered, so a refused
     * call leaves `activeScans` as it was.
     */
    method ScanUser(userId: nat, connected: bool, history: seq<Message>, interrupts: seq<Interrupt>, now: int)
      returns (r: Result<Progress, ScanError>)
      requires Valid() && parser.Valid() && parser.db.Valid()
      modifies this, parser.db, parser.scheduler
      ensures Valid() && parser.Valid() && parser.db.Valid()
      ensures old(IsScanning(userId)) ==> r == Err(AlreadyScanning) && activeScans == old(activeScans)
      ensures !old(IsScanning(userId)) ==> activeScans == old(activeScans) && !IsScanning(userId)
      ensures !old(IsScanning(userId)) && !connected ==> r == Err(NotConnected)
      ensures !old(IsScanning(userId)) && connected && !IsRowId(|old(parser.db.users)|, userId) ==>
        r == Err(UserNotFound)
      ensures !old(IsScanning(userId)) && connected && IsRowId(|old(parser.db.users)|, userId) ==>
        r.Ok? || r == Err(IngestFailed) || r == Err(FetchFailed)
      ensures r.Err? && r.error != IngestFailed && r.error != FetchFailed ==>
        parser.db.users == old(parser.db.users) && parser.db.rentals == old(parser.db.rentals)
      ensures |parser.db.users| == |old(parser.db.users)|
      ensures forall u :: 0 <= u < |parser.db.users| && u != userId - 1 ==>
        parser.db.users[u] == old(parser.db.users)[u]
      ensures IsRowId(|parser.db.users|, userId) ==>
        LastScanned(old(parser.db.users)[userId - 1]) <= LastScanned(parser.db.users[userId - 1])
          <= MaxId(LastScanned(old(parser.db.users)[userId - 1]), history)
      ensures r.Ok? ==>
        && IsRowId(|parser.db.users|, userId)
        && LastScanned(parser.db.users[userId - 1]) == MaxId(LastScanned(old(parser.db.users)[userId - 1]), history)
        && !r.value.isRunning
        && r.value.newRentalsInserted <= r.value.rentalsFound <= r.value.totalProcessed
      decreases |interrupts|, 1
    {
      if IsScanning(userId) {
        return Err(AlreadyScanning);
      }
      if !connected {
        return Err(NotConnected);
      }
      if !IsRowId(|parser.db.users|, userId) {
        return Err(UserNotFound);
      }
      r := RunScan(userId, history, interrupts, now);
    }

    /**
     * One pass from the stored checkpoint: the checkpoint it leaves lies between
     * the one it started from and the highest id of the chat, and reaches that
     * id when the pass completes.
     */
    method ScanOnce(userId: nat, history: seq<Message>, stop: Option<Interrupt>, now: int)
      returns (outcome: Attempt, progress: Progress)
      requires parser.Valid() && parser.db.Valid() && IsRowId(|parser.db.users|, userId)
      modifies parser.db, parser.scheduler
      ensures parser.Valid() && parser.db.Valid()
      ensures |parser.db.users| == |old(parser.db.users)|
      ensures forall u :: 0 <= u < |parser.db.users| && u != userId - 1 ==>
        parser.db.users[u] == old(parser.db.users)[u]
      ensures LastScanned(old(parser.db.users)[userId - 1]) <= LastScanned(parser.db.users[userId - 1])
          <= MaxId(LastScanned(old(parser.db.users)[userId - 1]), history)
      ensures outcome == Completed ==>
        LastScanned(parser.db.users[userId - 1]) == MaxId(LastScanned(old(parser.db.users)[userId - 1]), history)
      ensures outcome == Flooded ==> stop.Some? && stop.value.FloodWait?
      ensures outcome == Broken ==> stop.Some? && stop.value.FetchError?
      ensures progress.newRentalsInserted <= progress.rentalsFound <= progress.totalProcessed
      ensures outcome == Completed ==>
        var stream := Since(history, LastScanned(old(parser.db.users)[userId - 1]));
        progress.totalProcessed == |stream| && progress.rentalsFound == RentalCount(stream)
    {
      var user := parser.db.users[userId - 1];
      var minId := LastScanned(user);
      var stream := Since(history, minId);
      outcome, progress := Pass(userId, minId, stream, stop, now);
      MaxIdSince(minId, history);
      CheckpointBounds(minId, user.lastScannedMessageId, stream, outcome, progress.totalProcessed, stop);
      if outcome == Completed {
        CompletedCounts(outcome, progress, stream, stop);
      }
    }

    /**
     * The registered part of `scanUser`, from `activeScans.set` to the `finally`
     * that deletes the entry. A flood wait scans again from the stored
     * checkpoint; any other failure ends the scan with an error.
     */
    method RunScan(userId: nat, history: seq<Message>, interrupts: seq<Interrupt>, now: int)
      returns (r: Result<Progress, ScanError>)
      requires Valid() && parser.Valid() && parser.db.Valid()
      requires !IsScanning(userId) && IsRowId(|parser.db.users|, userId)
      modifies this, parser.db, parser.scheduler
      ensures Valid() && parser.Valid() && parser.db.Valid()
      ensures activeScans == old(activeScans) && !IsScanning(userId)
      ensures r.Ok? || r == Err(IngestFailed) || r == Err(FetchFailed)
      ensures |parser.db.users| == |old(parser.db.users)|
      ensures forall u :: 0 <= u < |parser.db.users| && u != userId - 1 ==>
        parser.db.users[u] == old(parser.db.users)[u]
      ensures LastScanned(old(parser.db.users)[userId - 1]) <= LastScanned(parser.db.users[userId - 1])
          <= MaxId(LastScanned(old(parser.db.users)[userId - 1]), history)
      ensures r.Ok? ==>
        && LastScanned(parser.db.users[userId - 1]) == MaxId(LastScanned(old(parser.db.users)[userId - 1]), history)
        && !r.value.isRunning
        && r.value.newRentalsInserted <= r.value.rentalsFound <= r.value.totalProcessed
      decreases |interrupts|, 0
    {
      ghost var scans0 := activeScans;
      ghost var lo := LastScanned(parser.db.users[userId - 1]);
      activeScans := activeScans[userId := Progress(0, 0, 0, true)];
      var stop := if interrupts == [] then None else Some(interrupts[0]);
      var outcome, progress := ScanOnce(userId, history, stop, now);
      activeScans := activeScans - {userId};
      assert activeScans == scans0;

      if outcome == Flooded {
        ghost var mid := LastScanned(parser.db.users[userId - 1]);
        r := ScanUser(userId, true, history, interrupts[1..], now);
        MaxIdAbsorb(lo, mid, history);
        return r;
      }
      if outcome == Broken {
        return Err(FetchFailed);
      }
      if outcome == Failed {
        return Err(IngestFailed);
      }
      return Ok(progress.(isRunning := false));
    }
  }

  /**
   * What a pass leaves as the checkpoint lies between the checkpoint it started
   * from and the mark over the whole stream, and equals that mark after a
   * completed pass.
   */
  lemma CheckpointBounds(minId: int, prior: Option<int>, stream: seq<Message>, outcome: Attempt, n: nat, stop: Option<Interrupt>)
    requires n <= |stream|
    requires prior.Some? ==> prior.value == minId
    requires prior.None? ==> minId == 0
    ensures var c := Checkpointed(minId, prior, stream, if outcome == Failed && n > 0 then n - 1 else n);
      minId <= (if c.Some? then c.value else 0) <= MaxId(minId, stream)
    ensures var c := Finished(minId, prior, stream);
      (if c.Some? then c.value else 0) == MaxId(minId, stream)
  {
    var k := if outcome == Failed && n > 0 then n - 1 else n;
    MaxIdPrefix(minId, stream, k, |stream|);
    assert stream[..|stream|] == stream;
  }
}
