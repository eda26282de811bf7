/**
 Runs of the change-event stream: publishers, one client that connects,
 receives, loses its connection and resumes from its last id, and deletion of
 the workspace, interleaved in any order (backend/src/events.rs).
 */
module StreamProtocol {
  import opened ChangeEvents

  /** A connection holds the stream cursor and the loaded lines not yielded yet. */
  datatype Connection = Offline | Online(cursor: int, queued: seq<Item>)

  /** `history` is every event ever published: it is never read by a step, only spoken about. */
  datatype State = State(log: Log, connection: Connection, start: nat, received: seq<Item>, history: seq<StoredEvent>)

  datatype Action =
    | Publish(change: Change)
    | Erase
    | Connect
    | Poll
    | Yield
    | Drop

  /** The Last-Event-ID the client sends: the id of the last line it received. */
  function LastId(start: nat, received: seq<Item>): int {
    if received == [] then start else IdOf(received[|received| - 1])
  }

  predicate Enabled(s: State, a: Action) {
    match a
    case Publish(_) => true
    case Erase => true
    case Connect => s.connection.Offline?
    case Poll => s.connection.Online? && s.connection.queued == []
    case Yield => s.connection.Online? && s.connection.queued != []
    case Drop => s.connection.Online?
  }

  function Step(s: State, a: Action): State
    requires Enabled(s, a)
  {
    match a
    case Publish(change) =>
      var log := Appended(s.log, change);
      s.(log := log, history := s.history + [log.rows[|log.rows| - 1]])
    case Erase => s.(log := s.log.(rows := []))
    case Connect =>
      var requested := LastId(s.start, s.received);
      s.(connection := Online(requested, Opening(s.log, requested)))
    case Poll =>
      s.(connection := s.connection.(queued := Lines(LoadAfter(s.log, s.connection.cursor))))
    case Yield =>
      var item := s.connection.queued[0];
      s.(connection := Online(IdOf(item), s.connection.queued[1..]), received := s.received + [item])
    case Drop => s.(connection := Offline)
  }

  function Initial(start: nat): State {
    State(EMPTY_LOG, Offline, start, [], [])
  }

  ghost predicate IsRun(start: nat, states: seq<State>, actions: seq<Action>) {
    && |states| == |actions| + 1
    && states[0] == Initial(start)
    && forall i :: 0 <= i < |actions| ==> Enabled(states[i], actions[i]) && states[i + 1] == Step(states[i], actions[i])
  }

  // ---- safety over every run --------------------------------------------------

  /** Ids of `items` strictly increase and start above `from`. */
  ghost predicate Increasing(from: int, items: seq<Item>) {
    && (items != [] ==> from < IdOf(items[0]))
    && forall i, j :: 0 <= i < j < |items| ==> IdOf(items[i]) < IdOf(items[j])
  }

  /** Every change event in `items` is the event that was published under its cursor. */
  ghost predicate Genuine(history: seq<StoredEvent>, items: seq<Item>) {
    forall i :: 0 <= i < |items| && items[i].Delivered? ==> items[i].event in history
  }

  ghost predicate Recorded(log: Log, history: seq<StoredEvent>) {
    && |history| == log.lastCursor
    && (forall i :: 0 <= i < |history| ==> history[i].cursor == i + 1)
    && (forall e :: e in log.rows ==> e in history)
  }

  ghost predicate Safe(s: State) {
    && Sound(s.log)
    && Recorded(s.log, s.history)
    && Increasing(s.start, s.received)
    && Genuine(s.history, s.received)
    && (s.connection.Online? ==>
          && s.connection.cursor == LastId(s.start, s.received)
          && Increasing(s.connection.cursor, s.connection.queued)
          && Genuine(s.history, s.connection.queued))
  }

  lemma QueuedIsSafe(s: State, cursor: int)
    requires Sound(s.log) && Recorded(s.log, s.history)
    ensures Increasing(cursor, Lines(LoadAfter(s.log, cursor))) && Genuine(s.history, Lines(LoadAfter(s.log, cursor)))
    ensures Increasing(cursor, Opening(s.log, cursor)) && Genuine(s.history, Opening(s.log, cursor))
  {
    LoadAfterIsWindow(s.log, cursor);
    BoundsOfConsecutive(s.log.rows, s.log.lastCursor);
  }

  lemma StepIsSafe(s: State, a: Action)
    requires Safe(s) && Enabled(s, a)
    ensures Safe(Step(s, a))
  {
    match a
    case Publish(change) =>
      AppendKeepsSound(s.log, change);
      var next := Step(s, a);
      forall e | e in next.log.rows ensures e in next.history {
        assert e in s.log.rows || e == next.log.rows[|next.log.rows| - 1];
      }
    case Connect => QueuedIsSafe(s, LastId(s.start, s.received));
    case Poll => QueuedIsSafe(s, s.connection.cursor);
    case _ =>
  }

  /**
   Over every interleaving of publishes, erasures, connects, polls, lost
   connections and resumes, the ids a client receives strictly increase (so
   nothing is delivered twice), and each event is the one published under its id.
   */
  lemma {:induction false} EveryRunIsSafe(start: nat, states: seq<State>, actions: seq<Action>, n: nat)
    requires IsRun(start, states, actions) && n <= |actions|
    ensures Safe(states[n])
    ensures states[n].start == start
  {
    if n > 0 {
      EveryRunIsSafe(start, states, actions, n - 1);
      StepIsSafe(states[n - 1], actions[n - 1]);
    }
  }

  // ---- what is published is what is delivered -----------------------------------------

  /** The changes handed to publish, in order. */
  function PublishedBy(actions: seq<Action>): seq<Change> {
    if actions == [] then []
    else
      var before := PublishedBy(actions[..|actions| - 1]);
      match actions[|actions| - 1]
      case Publish(change) => before + [change]
      case _ => before
  }

  /** The stored event has this cursor and the change's own columns; a subject beyond 512 characters is cut there. */
  predicate Records(e: StoredEvent, cursor: int, change: Change) {
    && e.cursor == cursor
    && e.change.kind == change.kind && e.change.revision == change.revision
    && e.change.summary == change.summary && e.change.committedAt == change.committedAt
    && e.change.subjectRef == (if |change.subjectRef| > 512 then change.subjectRef[..512] else change.subjectRef)
  }

  ghost predicate RecordsAll(history: seq<StoredEvent>, changes: seq<Change>) {
    |history| == |changes| && forall i :: 0 <= i < |history| ==> Records(history[i], i + 1, changes[i])
  }

  lemma StepRecords(s: State, a: Action, changes: seq<Change>)
    requires Safe(s) && Enabled(s, a) && RecordsAll(s.history, changes)
    ensures RecordsAll(Step(s, a).history, if a.Publish? then changes + [a.change] else changes)
  {
  }

  /** The history is the list of published changes, the n-th under cursor n. */
  lemma {:induction false} HistoryIsPublished(start: nat, states: seq<State>, actions: seq<Action>, n: nat)
    requires IsRun(start, states, actions) && n <= |actions|
    ensures RecordsAll(states[n].history, PublishedBy(actions[..n]))
  {
    if n > 0 {
      HistoryIsPublished(start, states, actions, n - 1);
      EveryRunIsSafe(start, states, actions, n - 1);
      StepRecords(states[n - 1], actions[n - 1], PublishedBy(actions[..n - 1]));
      assert actions[..n][..n - 1] == actions[..n - 1];
    }
  }

  /** Every change event a client receives is the change published under its id. */
  lemma ReceivedWasPublished(start: nat, states: seq<State>, actions: seq<Action>, i: nat)
    requires IsRun(start, states, actions)
    requires i < |states[|actions|].received| && states[|actions|].received[i].Delivered?
    ensures var e := states[|actions|].received[i].event;
            1 <= e.cursor <= |PublishedBy(actions)| && Records(e, e.cursor, PublishedBy(actions)[e.cursor - 1])
  {
    var s := states[|actions|];
    EveryRunIsSafe(start, states, actions, |actions|);
    HistoryIsPublished(start, states, actions, |actions|);
    assert actions[..|actions|] == actions;
    var k :| 0 <= k < |s.history| && s.history[k] == s.received[i].event;
    assert Records(s.history[k], k + 1, PublishedBy(actions)[k]);
  }

  // ---- contiguity exactly while the next event is found --------------------------

  /** What the stream has yet to deliver is stored from its next event on. */
  ghost predicate FindsNext(s: State) {
    s.connection.Online? && s.log.rows != [] ==> OldestCursor(s.log) <= s.connection.cursor + 1
  }

  ghost predicate EveryPollFindsNext(states: seq<State>, actions: seq<Action>)
    requires |states| == |actions| + 1
  {
    forall i :: 0 <= i < |actions| ==> actions[i] != Poll || FindsNext(states[i])
  }

  /** The id of the line before position i. */
  function IdBefore(from: int, items: seq<Item>, i: nat): int
    requires i < |items|
  {
    if i == 0 then from else IdOf(items[i - 1])
  }

  /** A change event always carries the id right after the line before it. */
  ghost predicate Gapless(from: int, items: seq<Item>) {
    forall i :: 0 <= i < |items| && items[i].Delivered? ==> IdOf(items[i]) == IdBefore(from, items, i) + 1
  }

  /** Neither what the client received nor what waits to be yielded skips an event unannounced. */
  ghost predicate GapFree(s: State) {
    && Gapless(s.start, s.received)
    && (s.connection.Online? ==> Gapless(s.connection.cursor, s.connection.queued))
  }

  lemma {:induction false} CursorIsNonNegative(s: State)
    requires Safe(s) && s.connection.Online?
    ensures 0 <= s.connection.cursor
  {
    if s.received != [] {
      assert s.start < IdOf(s.received[0]);
      assert |s.received| > 1 ==> IdOf(s.received[0]) < IdOf(s.received[|s.received| - 1]);
    }
  }

  /** A poll loads only change events, and skips some exactly when the next one is gone. */
  lemma PollSkipsExactlyWhenNextIsGone(s: State)
    requires Safe(s) && Enabled(s, Poll)
    ensures var next := Step(s, Poll).connection;
            && (forall i :: 0 <= i < |next.queued| ==> next.queued[i].Delivered?)
            && next.cursor == s.connection.cursor
            && (Gapless(next.cursor, next.queued) <==> FindsNext(s))
  {
    var cursor := s.connection.cursor;
    var queued := Step(s, Poll).connection.queued;
    LoadAfterIsWindow(s.log, cursor);
    if queued != [] {
      assert queued[0].Delivered? && IdBefore(cursor, queued, 0) == cursor;
    }
  }

  lemma YieldStaysGapFree(s: State)
    requires GapFree(s) && Enabled(s, Yield) && s.connection.cursor == LastId(s.start, s.received)
    ensures GapFree(Step(s, Yield))
  {
    var queued := s.connection.queued;
    assert queued[0].Delivered? ==> IdOf(queued[0]) == s.connection.cursor + 1;
    assert forall i :: 0 <= i < |queued| - 1 ==> queued[1..][i] == queued[i + 1];
  }

  lemma StepStaysGapFree(s: State, a: Action)
    requires Safe(s) && GapFree(s) && Enabled(s, a)
    requires a == Poll ==> FindsNext(s)
    ensures GapFree(Step(s, a))
  {
    match a
    case Poll => PollSkipsExactlyWhenNextIsGone(s);
    case Yield => YieldStaysGapFree(s);
    case _ =>
  }

  lemma {:induction false} FindingLeavesNoGap(start: nat, states: seq<State>, actions: seq<Action>, n: nat)
    requires IsRun(start, states, actions) && n <= |actions| && EveryPollFindsNext(states, actions)
    ensures GapFree(states[n])
  {
    if n > 0 {
      FindingLeavesNoGap(start, states, actions, n - 1);
      EveryRunIsSafe(start, states, actions, n - 1);
      StepStaysGapFree(states[n - 1], actions[n - 1]);
    }
  }

  /**
   Over any run, erasures included: each event received directly follows the line before
   it, even across lost connections, exactly when every poll still finds the next event.
   Expiry is checked at connect alone, so any later poll skips events without a reset.
   */
  lemma GapFreeExactlyWhenPollsFindNext(start: nat, states: seq<State>, actions: seq<Action>)
    requires IsRun(start, states, actions)
    ensures EveryPollFindsNext(states, actions) <==> forall n :: 0 <= n <= |actions| ==> GapFree(states[n])
  {
    if EveryPollFindsNext(states, actions) {
      forall n | 0 <= n <= |actions| ensures GapFree(states[n]) {
        FindingLeavesNoGap(start, states, actions, n);
      }
    }
    if forall n :: 0 <= n <= |actions| ==> GapFree(states[n]) {
      forall i | 0 <= i < |actions| && actions[i] == Poll ensures FindsNext(states[i]) {
        EveryRunIsSafe(start, states, actions, i);
        PollSkipsExactlyWhenNextIsGone(states[i]);
        assert GapFree(states[i + 1]);
      }
    }
  }

  // ---- keeping up -------------------------------------------------------------------

  ghost predicate NeverErased(actions: seq<Action>) {
    forall i :: 0 <= i < |actions| ==> actions[i] != Erase
  }

  ghost predicate PollsInTime(s: State) {
    s.connection.Online? ==> s.log.lastCursor <= s.connection.cursor + 2000
  }

  /** Every poll happens while the log is at most one retention window ahead of the stream. */
  ghost predicate KeepsUp(states: seq<State>, actions: seq<Action>)
    requires |states| == |actions| + 1
  {
    forall i :: 0 <= i < |actions| ==> actions[i] != Poll || PollsInTime(states[i])
  }

  /** Pruning alone never drops more than it must. */
  ghost predicate Retained(s: State) {
    |s.log.rows| == (if s.log.lastCursor < 2000 then s.log.lastCursor else 2000)
  }

  lemma StepRetains(s: State, a: Action)
    requires Safe(s) && Retained(s) && Enabled(s, a) && a != Erase
    ensures Safe(Step(s, a)) && Retained(Step(s, a))
  {
    StepIsSafe(s, a);
  }

  lemma {:induction false} EveryRunRetains(start: nat, states: seq<State>, actions: seq<Action>, n: nat)
    requires IsRun(start, states, actions) && NeverErased(actions) && n <= |actions|
    ensures Safe(states[n]) && Retained(states[n]) && states[n].start == start
  {
    if n > 0 {
      EveryRunRetains(start, states, actions, n - 1);
      StepRetains(states[n - 1], actions[n - 1]);
    }
  }

  /**
   Unless the log is erased, a client misses nothing exactly when no poll finds the log more than
   2000 events ahead.
   */
  lemma KeepingUpLeavesNoGap(start: nat, states: seq<State>, actions: seq<Action>)
    requires IsRun(start, states, actions) && NeverErased(actions)
    ensures KeepsUp(states, actions) <==> EveryPollFindsNext(states, actions)
    ensures KeepsUp(states, actions) <==> forall n :: 0 <= n <= |actions| ==> GapFree(states[n])
  {
    forall i | 0 <= i < |actions| ensures PollsInTime(states[i]) <==> FindsNext(states[i]) {
      EveryRunRetains(start, states, actions, i);
      if states[i].connection.Online? {
        CursorIsNonNegative(states[i]);
      }
    }
    GapFreeExactlyWhenPollsFindNext(start, states, actions);
  }

  // ---- a silent gap --------------------------------------------------------------

  ghost predicate IsRunTo(states: seq<State>, actions: seq<Action>, last: State) {
    IsRun(0, states, actions) && NeverErased(actions) && states[|actions|] == last
  }

  lemma OneMoreStep(states: seq<State>, actions: seq<Action>, last: State, a: Action)
    requires IsRunTo(states, actions, last) && Enabled(last, a) && a != Erase
    ensures IsRunTo(states + [Step(last, a)], actions + [a], Step(last, a))
  {
    var states', actions' := states + [Step(last, a)], actions + [a];
    forall i | 0 <= i < |actions'|
      ensures Enabled(states'[i], actions'[i]) && states'[i + 1] == Step(states'[i], actions'[i])
    {
      if i < |actions| {
        assert states'[i] == states[i] && states'[i + 1] == states[i + 1] && actions'[i] == actions[i];
      }
    }
  }

  /** Any number of publishes between two steps of the client. */
  lemma {:induction false} ManyPublishes(states: seq<State>, actions: seq<Action>, last: State, change: Change, n: nat)
      returns (states': seq<State>, actions': seq<Action>, last': State)
    requires IsRunTo(states, actions, last)
    ensures IsRunTo(states', actions', last')
    ensures last'.connection == last.connection && last'.received == last.received
    ensures last'.log.lastCursor == last.log.lastCursor + n
  {
    if n == 0 {
      states', actions', last' := states, actions, last;
    } else {
      states', actions', last' := ManyPublishes(states, actions, last, change, n - 1);
      OneMoreStep(states', actions', last', Publish(change));
      states', actions' := states' + [Step(last', Publish(change))], actions' + [Publish(change)];
      last' := Step(last', Publish(change));
    }
  }

  /**
   A client connected to an empty log receives event 2 first, without a reset, when 2001 events
   precede its first poll.
   */
  lemma LatePollSkipsSilently(change: Change) returns (states: seq<State>, actions: seq<Action>)
    ensures IsRun(0, states, actions) && NeverErased(actions)
    ensures var items := states[|actions|].received; |items| == 1 && items[0].Delivered? && IdOf(items[0]) == 2
  {
    var last := Initial(0);
    states, actions := [last], [];
    OneMoreStep(states, actions, last, Connect);
    states, actions, last := states + [Step(last, Connect)], actions + [Connect], Step(last, Connect);
    assert last.connection == Online(0, []);
    states, actions, last := ManyPublishes(states, actions, last, change, 2001);
    EveryRunRetains(0, states, actions, |actions|);
    LoadAfterIsWindow(last.log, 0);
    OneMoreStep(states, actions, last, Poll);
    states, actions, last := states + [Step(last, Poll)], actions + [Poll], Step(last, Poll);
    OneMoreStep(states, actions, last, Yield);
    states, actions, last := states + [Step(last, Yield)], actions + [Yield], Step(last, Yield);
  }

  ghost predicate NeverReset(items: seq<Item>) {
    forall k :: 0 <= k < |items| ==> items[k].Delivered?
  }

  lemma {:induction false} GaplessIds(from: int, items: seq<Item>, i: nat)
    requires Gapless(from, items) && NeverReset(items) && i < |items|
    ensures IdOf(items[i]) == from + 1 + i
  {
    assert items[i].Delivered?;
    if i > 0 {
      GaplessIds(from, items, i - 1);
    }
  }

  /** Exactly the published events after an id, as far as the items go. */
  ghost predicate IsHistoryAfter(history: seq<StoredEvent>, from: nat, items: seq<Item>) {
    && (items != [] ==> from + |items| <= |history|)
    && forall i :: 0 <= i < |items| ==> items[i] == Delivered(history[from + i])
  }

  ghost predicate Numbered(history: seq<StoredEvent>) {
    forall i :: 0 <= i < |history| ==> history[i].cursor == i + 1
  }

  lemma GaplessAt(history: seq<StoredEvent>, from: nat, items: seq<Item>, i: nat)
    requires Numbered(history) && Genuine(history, items) && Gapless(from, items) && NeverReset(items) && i < |items|
    ensures from + i < |history| && items[i] == Delivered(history[from + i])
  {
    GaplessIds(from, items, i);
    assert items[i].Delivered?;
    var k :| 0 <= k < |history| && history[k] == items[i].event;
  }

  lemma GaplessIsHistory(history: seq<StoredEvent>, from: nat, items: seq<Item>)
    requires Numbered(history) && Genuine(history, items) && Gapless(from, items) && NeverReset(items)
    ensures IsHistoryAfter(history, from, items)
  {
    if items != [] {
      GaplessAt(history, from, items, |items| - 1);
    }
    forall i | 0 <= i < |items| ensures from + i < |history| && items[i] == Delivered(history[from + i]) {
      GaplessAt(history, from, items, i);
    }
  }

  lemma GaplessTail(from: int, items: seq<Item>, i: nat)
    requires Gapless(from, items) && i < |items|
    ensures Gapless(IdOf(items[i]), items[i + 1..])
  {
    var tail := items[i + 1..];
    forall k | 0 <= k < |tail| && tail[k].Delivered? ensures IdOf(tail[k]) == IdBefore(IdOf(items[i]), tail, k) + 1 {
      assert tail[k] == items[i + 1 + k] && IdBefore(from, items, i + 1 + k) == IdBefore(IdOf(items[i]), tail, k);
    }
  }

  /**
   A client whose polls find their next events and that is never reset has received exactly the
   history after its start.
   */
  lemma UnresetClientSeesHistory(start: nat, states: seq<State>, actions: seq<Action>)
    requires IsRun(start, states, actions) && EveryPollFindsNext(states, actions)
    requires NeverReset(states[|actions|].received)
    ensures IsHistoryAfter(states[|actions|].history, start, states[|actions|].received)
  {
    EveryRunIsSafe(start, states, actions, |actions|);
    FindingLeavesNoGap(start, states, actions, |actions|);
    GaplessIsHistory(states[|actions|].history, start, states[|actions|].received);
  }

  lemma LaterIsHistory(s: State, i: nat)
    requires Safe(s) && GapFree(s) && i < |s.received| && NeverReset(s.received[i + 1..])
    ensures IdOf(s.received[i]) >= 0 && IsHistoryAfter(s.history, IdOf(s.received[i]), s.received[i + 1..])
  {
    assert i > 0 ==> IdOf(s.received[0]) < IdOf(s.received[i]);
    GaplessTail(s.start, s.received, i);
    GaplessIsHistory(s.history, IdOf(s.received[i]), s.received[i + 1..]);
  }

  /** What the client received behind its last reset is exactly the history after that reset's id. */
  lemma ResetClientSeesHistory(start: nat, states: seq<State>, actions: seq<Action>, i: nat)
    requires IsRun(start, states, actions) && EveryPollFindsNext(states, actions)
    requires i < |states[|actions|].received| && states[|actions|].received[i].Reset?
    requires NeverReset(states[|actions|].received[i + 1..])
    ensures var s := states[|actions|];
            && IdOf(s.received[i]) >= 0
            && IsHistoryAfter(s.history, IdOf(s.received[i]), s.received[i + 1..])
  {
    EveryRunIsSafe(start, states, actions, |actions|);
    FindingLeavesNoGap(start, states, actions, |actions|);
    LaterIsHistory(states[|actions|], i);
  }

  // ---- reset before anything later -------------------------------------------

  /** No connection change between two moments of a run. */
  ghost predicate Undisturbed(actions: seq<Action>, i: nat, j: nat)
    requires i <= j <= |actions|
  {
    forall k :: i < k < j ==> actions[k].Publish? || actions[k].Erase? || actions[k].Poll?
  }

  lemma {:induction false} ResetWaits(start: nat, states: seq<State>, actions: seq<Action>, i: nat, j: nat)
    requires IsRun(start, states, actions) && i < j <= |actions|
    requires actions[i] == Connect && Expired(states[i].log, LastId(start, states[i].received))
    requires Undisturbed(actions, i, j)
    ensures states[j].connection.Online? && states[j].connection.queued == [Reset(states[i].log.lastCursor)]
    ensures states[j].received == states[i].received
  {
    if j == i + 1 {
      EveryRunIsSafe(start, states, actions, i);
    } else {
      ResetWaits(start, states, actions, i, j - 1);
    }
  }

  /**
   When a resuming client's id is expired, whatever else happens first, the
   first line its new connection yields is stream.reset with the newest cursor
   at connect time, and some event after its id had indeed been lost.
   */
  lemma ResetPrecedesLaterEvents(start: nat, states: seq<State>, actions: seq<Action>, i: nat, j: nat)
    requires IsRun(start, states, actions) && i < j < |actions|
    requires actions[i] == Connect && actions[j] == Yield && Undisturbed(actions, i, j)
    requires Expired(states[i].log, LastId(start, states[i].received))
    ensures states[j + 1].received == states[i].received + [Reset(states[i].log.lastCursor)]
    ensures LostAfter(states[i].log, LastId(start, states[i].received))
    ensures LastId(start, states[i].received) < states[i].log.lastCursor
  {
    ResetWaits(start, states, actions, i, j);
    EveryRunIsSafe(start, states, actions, i);
    ExpiredExactlyWhenLost(states[i].log, LastId(start, states[i].received));
    BoundsOfConsecutive(states[i].log.rows, states[i].log.lastCursor);
  }
}
