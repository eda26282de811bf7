/**
 The change-event log of backend/src/events.rs: one table whose rows carry
 consecutive cursors, is cut back to the newest 2000 rows on every publish, and
 is read in batches of 100 by streams that resume after a cursor.
 */
module ChangeEvents {
  import opened Wrappers

  const EVENT_RETENTION: nat := 2000
  const EVENT_BATCH: nat := 100
  const SUBJECT_LIMIT: nat := 512

  datatype Kind =
    | HostConnectionChanged
    | DiscoveryRunChanged
    | ProjectionChanged
    | OnboardingChanged
    | ProjectAgentChanged
    | MonitorScheduleChanged
    | MonitorRunChanged

  datatype Change = Change(kind: Kind, subjectRef: string, revision: int, summary: string, committedAt: string)

  datatype StoredEvent = StoredEvent(cursor: int, change: Change)

  /** The rows of `change_events` in cursor order, and the largest cursor ever assigned. */
  datatype Log = Log(rows: seq<StoredEvent>, lastCursor: nat)

  const EMPTY_LOG := Log([], 0)

  // ---- the table's aggregates and row filters --------------------------------

  function MaxCursor(rows: seq<StoredEvent>): Option<int> {
    if rows == [] then None
    else match MaxCursor(rows[1..])
      case None => Some(rows[0].cursor)
      case Some(m) => Some(if m < rows[0].cursor then rows[0].cursor else m)
  }

  function MinCursor(rows: seq<StoredEvent>): Option<int> {
    if rows == [] then None
    else match MinCursor(rows[1..])
      case None => Some(rows[0].cursor)
      case Some(m) => Some(if rows[0].cursor < m then rows[0].cursor else m)
  }

  /** DELETE ... WHERE cursor <= bound. */
  function DeleteUpTo(rows: seq<StoredEvent>, bound: int): seq<StoredEvent> {
    if rows == [] then []
    else if rows[0].cursor <= bound then DeleteUpTo(rows[1..], bound)
    else [rows[0]] + DeleteUpTo(rows[1..], bound)
  }

  /** SELECT ... WHERE cursor > after ORDER BY cursor; the rows are kept in cursor order. */
  function After(rows: seq<StoredEvent>, after: int): seq<StoredEvent> {
    DeleteUpTo(rows, after)
  }

  function Truncated(s: string, limit: nat): string {
    if |s| <= limit then s else s[..limit]
  }

  function Newest(rows: seq<StoredEvent>, n: nat): seq<StoredEvent> {
    if |rows| <= n then rows else rows[|rows| - n..]
  }

  // ---- what the log promises ----------------------------------------------

  /** What one publish leaves: the next cursor, and only the newest rows. */
  function Appended(log: Log, change: Change): Log {
    var stored := StoredEvent(log.lastCursor + 1, change.(subjectRef := Truncated(change.subjectRef, SUBJECT_LIMIT)));
    Log(Newest(log.rows + [stored], EVENT_RETENTION), log.lastCursor + 1)
  }

  /** Rows are a gapless run of cursors that ends at the last one assigned. */
  ghost predicate Consecutive(rows: seq<StoredEvent>, last: int) {
    forall i :: 0 <= i < |rows| ==> rows[i].cursor == last - |rows| + 1 + i
  }

  ghost predicate Sound(log: Log) {
    && Consecutive(log.rows, log.lastCursor)
    && |log.rows| <= EVENT_RETENTION
    && |log.rows| <= log.lastCursor
  }

  /** An event after `cursor` was published once and is no longer stored. */
  ghost predicate LostAfter(log: Log, cursor: int) {
    exists c :: cursor < c <= log.lastCursor && Lost(log, c)
  }

  ghost predicate Lost(log: Log, c: int) {
    0 < c && forall i :: 0 <= i < |log.rows| ==> log.rows[i].cursor != c
  }

  function OldestCursor(log: Log): int {
    log.lastCursor - |log.rows| + 1
  }

  function LoadAfter(log: Log, cursor: int): seq<StoredEvent> {
    var later := After(log.rows, cursor);
    if |later| <= EVENT_BATCH then later else later[..EVENT_BATCH]
  }

  /** The check a new stream makes against the bounds it read. */
  predicate Expired(log: Log, requested: int) {
    requested > 0 && MinCursor(log.rows).Some? && requested < MinCursor(log.rows).value - 1
  }

  // ---- lemmas over the filters ----------------------------------------------

  lemma {:induction false} BoundsOfConsecutive(rows: seq<StoredEvent>, last: int)
    requires Consecutive(rows, last)
    ensures rows == [] ==> MaxCursor(rows) == None && MinCursor(rows) == None
    ensures rows != [] ==> MaxCursor(rows) == Some(last) && MinCursor(rows) == Some(last - |rows| + 1)
  {
    if rows != [] {
      assert forall i :: 0 <= i < |rows| - 1 ==> rows[1..][i] == rows[i + 1];
      BoundsOfConsecutive(rows[1..], last);
    }
  }

  /** On consecutive rows a cursor bound always cuts at one position. */
  lemma {:induction false} DeleteCutsOnce(rows: seq<StoredEvent>, last: int, bound: int)
    requires Consecutive(rows, last)
    ensures bound <= last - |rows| ==> DeleteUpTo(rows, bound) == rows
    ensures last - |rows| < bound <= last ==> DeleteUpTo(rows, bound) == rows[bound - (last - |rows|)..]
    ensures last < bound ==> DeleteUpTo(rows, bound) == []
  {
    if rows != [] {
      assert forall i :: 0 <= i < |rows| - 1 ==> rows[1..][i] == rows[i + 1];
      DeleteCutsOnce(rows[1..], last, bound);
    }
  }

  /** Publishing keeps the log sound, however full it is. */
  lemma AppendKeepsSound(log: Log, change: Change)
    requires Sound(log)
    ensures Sound(Appended(log, change))
    ensures Appended(log, change).rows != []
  {
  }

  /** Behind the newest rows, 1999 of them at most, stands the change under its cursor. */
  predicate IsPublished(before: seq<StoredEvent>, now: seq<StoredEvent>, cursor: int, change: Change) {
    && |now| == (if |before| < 2000 then |before| + 1 else 2000)
    && |now| <= |before| + 1
    && now[..|now| - 1] == before[|before| + 1 - |now|..]
    && now[|now| - 1]
       == StoredEvent(cursor, Change(change.kind, if |change.subjectRef| > 512 then change.subjectRef[..512]
                                                  else change.subjectRef,
                                     change.revision, change.summary, change.committedAt))
  }

  /** What one publish leaves, column by column. */
  lemma AppendedIsPublished(log: Log, change: Change)
    requires Sound(log)
    ensures IsPublished(log.rows, Appended(log, change).rows, log.lastCursor + 1, change)
  {
  }

  /** What a stream reads: the stored events after the cursor, oldest first, without gaps, at most one batch. */
  lemma LoadAfterIsWindow(log: Log, cursor: int)
    requires Sound(log)
    ensures |LoadAfter(log, cursor)| <= 100
    ensures |LoadAfter(log, cursor)| < 100 ==>
              forall i :: 0 <= i < |log.rows| && log.rows[i].cursor > cursor ==> log.rows[i] in LoadAfter(log, cursor)
    ensures LoadAfter(log, cursor) == [] <==> log.rows == [] || log.lastCursor <= cursor
    ensures forall i :: 0 <= i < |LoadAfter(log, cursor)| ==>
              var first := if cursor < OldestCursor(log) then OldestCursor(log) else cursor + 1;
              && LoadAfter(log, cursor)[i] in log.rows
              && LoadAfter(log, cursor)[i].cursor == first + i
  {
    DeleteCutsOnce(log.rows, log.lastCursor, cursor);
  }

  /**
   A stored log declares a Last-Event-ID expired exactly when some event after
   it is gone. The one exception is an empty log.
   */
  lemma ExpiredExactlyWhenLost(log: Log, requested: int)
    requires Sound(log)
    ensures Expired(log, requested) <==> requested > 0 && log.rows != [] && LostAfter(log, requested)
  {
    BoundsOfConsecutive(log.rows, log.lastCursor);
    if requested > 0 && log.rows != [] {
      var oldest := OldestCursor(log);
      assert log.rows[0].cursor == oldest;
      if requested < oldest - 1 {
        assert Lost(log, requested + 1);
      } else {
        forall c | requested < c <= log.lastCursor ensures !Lost(log, c) {
          assert log.rows[c - oldest].cursor == c;
        }
      }
    }
  }

  /** Once the rows are erased a stale Last-Event-ID is accepted although an event after it is gone. */
  lemma ErasedLogHidesLoss(change: Change)
    ensures var log := Appended(Appended(EMPTY_LOG, change), change).(rows := []);
            Sound(log) && LostAfter(log, 1) && !Expired(log, 1)
  {
    var log := Appended(Appended(EMPTY_LOG, change), change).(rows := []);
    assert Lost(log, 2);
  }

  /** Polling an idle log until nothing is left. */
  function Drained(log: Log, cursor: int): seq<StoredEvent>
    requires Sound(log)
    decreases if cursor < log.lastCursor then log.lastCursor - cursor else 0
  {
    LoadAfterIsWindow(log, cursor);
    var batch := LoadAfter(log, cursor);
    if batch == [] then [] else batch + Drained(log, batch[|batch| - 1].cursor)
  }

  /** The batch limit loses nothing: draining gives every stored event after the cursor once, in order. */
  lemma {:induction false} DrainingReadsEverything(log: Log, cursor: int)
    requires Sound(log)
    ensures Drained(log, cursor) == After(log.rows, cursor)
    decreases if cursor < log.lastCursor then log.lastCursor - cursor else 0
  {
    LoadAfterIsWindow(log, cursor);
    var batch := LoadAfter(log, cursor);
    if batch == [] {
      DeleteCutsOnce(log.rows, log.lastCursor, cursor);
    } else {
      DrainingReadsEverything(log, batch[|batch| - 1].cursor);
      BatchThenRest(log, cursor);
    }
  }

  lemma BatchThenRest(log: Log, cursor: int)
    requires Sound(log) && LoadAfter(log, cursor) != []
    ensures var batch := LoadAfter(log, cursor);
            After(log.rows, cursor) == batch + After(log.rows, batch[|batch| - 1].cursor)
  {
    var batch := LoadAfter(log, cursor);
    var later, next := After(log.rows, cursor), batch[|batch| - 1].cursor;
    DeleteCutsOnce(log.rows, log.lastCursor, cursor);
    DeleteCutsOnce(log.rows, log.lastCursor, next);
    assert later == log.rows[|log.rows| - |later|..];
    assert After(log.rows, next) == later[|batch|..];
  }

  // ---- the table and the stream ---------------------------------------------

  class ChangeLog {
    var rows: seq<StoredEvent>
    var lastCursor: nat

    function Value(): Log
      reads this
    {
      Log(rows, lastCursor)
    }

    ghost predicate Valid()
      reads this
    {
      Sound(Value())
    }

    constructor ()
      ensures Valid() && Value() == EMPTY_LOG
    {
      rows, lastCursor := [], 0;
    }

    /** INSERT with the next AUTOINCREMENT cursor, then DELETE below the retention bound. */
    method Publish(change: Change) returns (cursor: int)
      requires Valid()
      modifies this
      ensures Valid()
      ensures cursor == old(lastCursor) + 1
      ensures Value() == Appended(old(Value()), change)
    {
      cursor := lastCursor + 1;
      var stored := StoredEvent(cursor, change.(subjectRef := Truncated(change.subjectRef, SUBJECT_LIMIT)));
      rows := rows + [stored];
      lastCursor := lastCursor + 1;
      BoundsOfConsecutive(rows, lastCursor);
      var maximum := match MaxCursor(rows) case None => 0 case Some(m) => m;
      DeleteCutsOnce(rows, lastCursor, maximum - EVENT_RETENTION);
      rows := DeleteUpTo(rows, maximum - EVENT_RETENTION);
    }

    /** Deleting the workspace empties the table; AUTOINCREMENT never reuses a cursor. */
    method Erase()
      requires Valid()
      modifies this
      ensures Valid()
      ensures Value() == old(Value()).(rows := [])
    {
      rows := [];
    }

    method CursorBounds() returns (minimum: Option<int>, maximum: Option<int>)
      requires Valid()
      ensures rows == [] ==> minimum == None && maximum == None
      ensures rows != [] ==> minimum == Some(OldestCursor(Value())) && maximum == Some(lastCursor)
    {
      BoundsOfConsecutive(rows, lastCursor);
      minimum, maximum := MinCursor(rows), MaxCursor(rows);
    }
  }

  /** One line of the stream: the opening reset or a change event. */
  datatype Item = Reset(latest: int) | Delivered(event: StoredEvent)

  function IdOf(item: Item): int {
    match item
    case Reset(latest) => latest
    case Delivered(event) => event.cursor
  }

  function Lines(events: seq<StoredEvent>): (items: seq<Item>)
    ensures |items| == |events|
    ensures forall i :: 0 <= i < |events| ==> items[i] == Delivered(events[i])
  {
    seq(|events|, i requires 0 <= i < |events| => Delivered(events[i]))
  }

  /** What a new stream sends before its first poll. */
  function Opening(log: Log, requested: int): seq<Item> {
    if Expired(log, requested) then [Reset(log.lastCursor)] else []
  }

  /** A connection: the stream cursor and every line it has yielded. */
  class EventStream {
    const log: ChangeLog
    var cursor: int
    var yielded: seq<Item>

    constructor (log: ChangeLog, requested: nat)
      requires log.Valid()
      ensures this.log == log
      ensures yielded == Opening(log.Value(), requested)
      ensures cursor == if yielded == [] then requested else log.lastCursor
    {
      var minimum, maximum := log.CursorBounds();
      BoundsOfConsecutive(log.rows, log.lastCursor);
      var expired := requested > 0 && minimum.Some? && requested < minimum.value - 1;
      this.log := log;
      if expired {
        var latest := match maximum case None => requested case Some(m) => m;
        cursor := latest;
        yielded := [Reset(latest)];
      } else {
        cursor := requested;
        yielded := [];
      }
    }

    /** One poll tick: load a batch and yield it line by line, moving the cursor with each line. */
    method Poll()
      requires log.Valid()
      modifies this
      ensures yielded == old(yielded) + Lines(LoadAfter(log.Value(), old(cursor)))
      ensures cursor == if yielded == old(yielded) then old(cursor) else IdOf(yielded[|yielded| - 1])
    {
      var events := LoadAfter(log.Value(), cursor);
      for k := 0 to |events|
        invariant yielded == old(yielded) + Lines(events)[..k]
        invariant cursor == if k == 0 then old(cursor) else events[k - 1].cursor
      {
        cursor := events[k].cursor;
        yielded := yielded + [Delivered(events[k])];
      }
      assert Lines(events)[..|events|] == Lines(events);
    }
  }
}
