/** Paging through the event log from a cursor (internal/api/ws/store.go). The log is the table in the
    order of its primary key, (occurred_at, id); it does not change while one backfill runs. */
module Backfill {
  import opened RailTypes
  import opened Sequences
  import opened EventFilters

  const BATCH_LIMIT := 1000

  datatype Cursor = Cursor(occurredAt: Time, id: int)

  datatype BackfillError = Rejected(filter: FilterError) | StoreFailed | SendFailed

  function CursorOf(e: LiveEvent): Cursor {
    Cursor(e.occurredAt, e.id)
  }

  predicate Before(a: Cursor, b: Cursor) {
    a.occurredAt < b.occurredAt || (a.occurredAt == b.occurredAt && a.id < b.id)
  }

  /** The rows rise in time and, at the same time, in ID. */
  predicate Rising(log: seq<LiveEvent>) {
    forall i, j :: 0 <= i < j < |log| ==>
      log[i].occurredAt < log[j].occurredAt || (log[i].occurredAt == log[j].occurredAt && log[i].id < log[j].id)
  }

  /** Whether a row is one the query asks for. */
  predicate Wanted(after: Cursor, f: Filters, e: LiveEvent) {
    Before(after, CursorOf(e)) && OnPage(f, e)
  }

  /** Everything that is due to a subscriber at a cursor. */
  function Due(log: seq<LiveEvent>, after: Cursor, f: Filters): seq<LiveEvent> {
    Filter(log, e => Wanted(after, f, e))
  }

  function FirstOf(events: seq<LiveEvent>, n: nat): seq<LiveEvent> {
    if |events| <= n then events else events[..n]
  }

  lemma DueOneMore(log: seq<LiveEvent>, e: LiveEvent, after: Cursor, f: Filters)
    ensures Due(log + [e], after, f) == Due(log, after, f) + (if Wanted(after, f, e) then [e] else [])
  {
    assert (log + [e])[..|log|] == log;
  }

  /** The row comes after the cursor: at a later time, or at its time with a larger ID. */
  predicate Later(e: LiveEvent, c: Cursor) {
    e.occurredAt > c.occurredAt || (e.occurredAt == c.occurredAt && e.id > c.id)
  }

  /** The due events are the wanted rows, all of them, in increasing order and so once each. */
  lemma {:induction false} DueIsExact(log: seq<LiveEvent>, after: Cursor, f: Filters)
    requires Rising(log)
    ensures Rising(Due(log, after, f))
    ensures forall e :: e in Due(log, after, f) <==> e in log && Later(e, after) && OnPage(f, e)
  {
    FilterMembers(log, e => Wanted(after, f, e));
    if log != [] {
      var front, last := log[..|log| - 1], log[|log| - 1];
      DueIsExact(front, after, f);
      var due := Due(front, after, f);
      forall i | 0 <= i < |due| ensures Later(last, CursorOf(due[i])) {
        assert due[i] in due && due[i] in front;
        var j :| 0 <= j < |front| && front[j] == due[i];
        assert log[j] == front[j];
      }
    }
  }

  // --- Told on positions of the log ---

  /** The first `n` rows are at or before the cursor, the others after it. */
  predicate Splits(log: seq<LiveEvent>, c: Cursor, n: int) {
    && 0 <= n <= |log|
    && (forall i | 0 <= i < n :: !Later(log[i], c))
    && (forall i | n <= i < |log| :: Later(log[i], c))
  }

  function Selected(rows: seq<LiveEvent>, f: Filters): seq<LiveEvent> {
    Filter(rows, e => OnPage(f, e))
  }

  /** What is due at a cursor is what the filters select of the rows after it. */
  lemma DueIsTheRest(log: seq<LiveEvent>, c: Cursor, f: Filters, n: int)
    requires Splits(log, c, n)
    ensures Due(log, c, f) == Selected(log[n..], f)
  {
    assert log == log[..n] + log[n..];
    FilterConcat(log[..n], log[n..], e => Wanted(c, f, e));
    FilterNone(log[..n], e => Wanted(c, f, e));
    FilterAgrees(log[n..], e => Wanted(c, f, e), e => OnPage(f, e));
  }

  /** At the cursor of a row, that is every selected row behind it. */
  lemma DueBehindARow(log: seq<LiveEvent>, f: Filters, i: nat)
    requires Rising(log) && i < |log|
    ensures Due(log, Cursor(log[i].occurredAt, log[i].id), f) == Selected(log[i + 1..], f)
  {
    DueIsTheRest(log, Cursor(log[i].occurredAt, log[i].id), f, i + 1);
  }

  /** Every cursor splits a rising log. */
  lemma {:induction false} CursorsSplit(log: seq<LiveEvent>, c: Cursor) returns (n: nat)
    requires Rising(log)
    ensures Splits(log, c, n)
  {
    if log == [] || !Later(log[|log| - 1], c) {
      n := |log|;
    } else {
      n := CursorsSplit(log[..|log| - 1], c);
    }
  }

  /** From the rows behind `since` the log goes on to those behind `cursor`: what had been sent before and the
      selected rows behind the one are what has been sent after and the selected rows behind the other, of
      which there are none if it is `done`. */
  ghost predicate GoesOn(log: seq<LiveEvent>, since: Cursor, cursor: Cursor, f: Filters, before: seq<LiveEvent>,
                         after: seq<LiveEvent>, done: bool) {
    forall n | Splits(log, since, n) ::
      exists m :: Splits(log, cursor, m)
        && before + Selected(log[n..], f) == after + Selected(log[m..], f)
        && (done ==> Selected(log[m..], f) == [])
  }

  lemma DueGoesOn(log: seq<LiveEvent>, since: Cursor, cursor: Cursor, f: Filters, before: seq<LiveEvent>,
                  after: seq<LiveEvent>)
    requires Rising(log) && before + Due(log, since, f) == after + Due(log, cursor, f)
    ensures GoesOn(log, since, cursor, f, before, after, Due(log, cursor, f) == [])
  {
    var m := CursorsSplit(log, cursor);
    DueIsTheRest(log, cursor, f, m);
    forall n | Splits(log, since, n)
      ensures before + Selected(log[n..], f) == after + Selected(log[m..], f)
    {
      DueIsTheRest(log, since, f, n);
    }
  }

  /** Whether a row is wanted does not change when the cursor moves to a due event before it. */
  lemma LaterRowsStayWanted(front: seq<LiveEvent>, last: LiveEvent, after: Cursor, f: Filters, e: LiveEvent)
    requires Rising(front + [last]) && e in Due(front, after, f)
    ensures Wanted(CursorOf(e), f, last) <==> Wanted(after, f, last)
  {
    FilterMembers(front, x => Wanted(after, f, x));
    var i :| 0 <= i < |front| && front[i] == e;
    assert (front + [last])[i] == e && (front + [last])[|front|] == last;
    BeforeIsTransitive(after, CursorOf(e), CursorOf(last));
  }

  lemma NothingIsDueAfterLast(log: seq<LiveEvent>, f: Filters)
    requires Rising(log) && log != []
    ensures Due(log, CursorOf(log[|log| - 1]), f) == []
  {
    FilterNone(log, e => Wanted(CursorOf(log[|log| - 1]), f, e));
  }

  /** Moving the cursor to the nth due event leaves exactly the events after it due. */
  lemma {:induction false} DueAfterSending(log: seq<LiveEvent>, after: Cursor, f: Filters, n: nat)
    requires Rising(log) && n < |Due(log, after, f)|
    ensures Due(log, CursorOf(Due(log, after, f)[n]), f) == Due(log, after, f)[n + 1..]
  {
    var front, last := log[..|log| - 1], log[|log| - 1];
    var before := Due(front, after, f);
    assert log == front + [last];
    DueOneMore(front, last, after, f);
    if n < |before| {
      DueAfterSending(front, after, f, n);
      DueOneMore(front, last, CursorOf(before[n]), f);
      LaterRowsStayWanted(front, last, after, f, before[n]);
    } else {
      NothingIsDueAfterLast(log, f);
    }
  }

  lemma BeforeIsTransitive(a: Cursor, b: Cursor, c: Cursor)
    requires Before(b, c)
    ensures Before(a, b) ==> Before(a, c)
  {
  }

  /** A filter with an empty list makes nothing due. */
  lemma NothingIsDue(log: seq<LiveEvent>, after: Cursor, f: Filters)
    requires MatchNothing(f)
    ensures Due(log, after, f) == []
  {
    FilterNone(log, e => Wanted(after, f, e));
  }

  /** What a subscriber who had been listening since the cursor would have been sent. */
  function Live(log: seq<LiveEvent>, after: Cursor, f: Filters): seq<LiveEvent> {
    Filter(log, e => Before(after, CursorOf(e)) && Match(f, e))
  }

  /** A backfill sends what live delivery would have sent exactly when every matching row has lower-case,
      trimmed values where it is filtered. */
  lemma BackfillIsLiveExactlyWhenClean(log: seq<LiveEvent>, after: Cursor, f: Filters)
    requires Normal(f)
    ensures Due(log, after, f) == Live(log, after, f) <==>
            forall e <- log :: Before(after, CursorOf(e)) && Match(f, e) ==> CleanWhereFiltered(f, e)
  {
    forall e ensures OnPage(f, e) <==> Match(f, e) && CleanWhereFiltered(f, e) {
      PageSelectsCleanMatches(f, e);
    }
    FilterMembers(log, e => Wanted(after, f, e));
    FilterMembers(log, e => Before(after, CursorOf(e)) && Match(f, e));
    if forall e <- log :: Before(after, CursorOf(e)) && Match(f, e) ==> CleanWhereFiltered(f, e) {
      FilterAgrees(log, e => Wanted(after, f, e), e => Before(after, CursorOf(e)) && Match(f, e));
    }
  }

  /** The page size for a limit: the batch limit unless it is positive and smaller. */
  function Capped(limit: int): nat {
    if limit <= 0 || limit > BATCH_LIMIT then BATCH_LIMIT else limit
  }

  /** The first of what is due, as many as the page holds. */
  predicate IsPage(page: seq<LiveEvent>, due: seq<LiveEvent>, most: nat) {
    page <= due && |page| <= most && (|page| < most ==> page == due)
  }

  class EventLog {
    const rows: seq<LiveEvent>

    constructor (rows: seq<LiveEvent>)
      ensures this.rows == rows
    {
      this.rows := rows;
    }

    /** One page: the first due rows, at most `limit` of them. The query itself may fail. */
    method Page(after: Cursor, filters: Filters, limit: int)
      returns (page: Result<seq<LiveEvent>, FilterError>, available: bool)
      ensures available ==>
                match Normalized(filters)
                case Ok(f) => page.Ok?
                              && IsPage(page.value, Due(rows, after, f), if 0 < limit <= 1000 then limit else 1000)
                case Err(e) => page == Err(e)
    {
      available := *;
      var most := Capped(limit);
      var normalized := NormalizeFilters(filters);
      if normalized.Err? {
        return Err(normalized.error), available;
      }
      var f := normalized.value;
      if MatchNothing(f) {
        NothingIsDue(rows, after, f);
        return Ok([]), available;
      }
      var events := Select(after, f, most);
      page := Ok(events);
    }

    method Select(after: Cursor, f: Filters, most: nat) returns (events: seq<LiveEvent>)
      ensures events == FirstOf(Due(rows, after, f), most)
    {
      events := [];
      for i := 0 to |rows|
        invariant events == FirstOf(Due(rows[..i], after, f), most)
      {
        assert rows[..i + 1] == rows[..i] + [rows[i]];
        DueOneMore(rows[..i], rows[i], after, f);
        if |events| < most && Wanted(after, f, rows[i]) {
          events := events + [rows[i]];
        }
      }
      assert rows[..|rows|] == rows;
    }
  }

  /** Where a backfill sends to. Any send may fail. */
  class Sink {
    var sent: seq<LiveEvent>

    constructor ()
      ensures sent == []
    {
      sent := [];
    }

    method Send(e: LiveEvent) returns (ok: bool)
      modifies this
      ensures sent == if ok then old(sent) + [e] else old(sent)
    {
      ok := *;
      if ok {
        sent := sent + [e];
      }
    }
  }

  /** Sends the events of a page, the next ones due, moving the cursor past each one sent. */
  method SendPage(ghost log: seq<LiveEvent>, ghost f: Filters, start: Cursor, events: seq<LiveEvent>, sink: Sink)
    returns (cursor: Cursor, ok: bool)
    requires Rising(log) && events <= Due(log, start, f)
    modifies sink
    ensures old(sink.sent) + Due(log, start, f) == sink.sent + Due(log, cursor, f)
    ensures ok ==> sink.sent == old(sink.sent) + events
  {
    cursor := start;
    ghost var due := Due(log, start, f);
    for i := 0 to |events|
      invariant sink.sent == old(sink.sent) + due[..i]
      invariant Due(log, cursor, f) == due[i..]
    {
      ok := sink.Send(events[i]);
      if !ok {
        assert due == due[..i] + due[i..];
        return cursor, false;
      }
      DueAfterSending(log, cursor, f, 0);
      cursor := CursorOf(events[i]);
    }
    assert due == due[..|events|] + due[|events|..];
    ok := true;
  }

  /** Sends what is due from `since` on, page by page. However it ends, what it sent followed by what is
      due at the cursor it returns is what was due at the start: nothing is lost, sent twice or out of
      order, and a later backfill from that cursor sends exactly the rest. Without an error nothing is
      left due. */
  method BackfillSince(log: EventLog, since: Cursor, filters: Filters, sink: Sink)
    returns (cursor: Cursor, error: Option<BackfillError>)
    requires Rising(log.rows)
    modifies sink
    ensures match Normalized(filters)
            case Err(e) =>
              && cursor == since && sink.sent == old(sink.sent)
              && (error == Some(Rejected(e)) || error == Some(StoreFailed))
            case Ok(f) =>
              && GoesOn(log.rows, since, cursor, f, old(sink.sent), sink.sent, error.None?)
              && (error.Some? ==> error.value in {StoreFailed, SendFailed})
  {
    cursor := since;
    ghost var valid := Normalized(filters).Ok?;
    ghost var f := if valid then Normalized(filters).value else filters;
    ghost var total := old(sink.sent) + Due(log.rows, since, f);
    forall c, sent | total == sent + Due(log.rows, c, f)
      ensures GoesOn(log.rows, since, c, f, old(sink.sent), sent, Due(log.rows, c, f) == [])
    {
      DueGoesOn(log.rows, since, c, f, old(sink.sent), sent);
    }
    while true
      invariant valid ==> total == sink.sent + Due(log.rows, cursor, f)
      invariant !valid ==> cursor == since && sink.sent == old(sink.sent)
      decreases |total| - |sink.sent|
    {
      var page, available := log.Page(cursor, filters, BATCH_LIMIT);
      if !available {
        return cursor, Some(StoreFailed);
      }
      if page.Err? {
        return cursor, Some(Rejected(page.error));
      }
      ghost var due := Due(log.rows, cursor, f);
      var ok: bool;
      cursor, ok := SendPage(log.rows, f, cursor, page.value, sink);
      if !ok {
        return cursor, Some(SendFailed);
      }
      if |page.value| < BATCH_LIMIT {
        return cursor, None;
      }
    }
  }
}
