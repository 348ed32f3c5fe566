/** `WorksheetWriteOffsHandler.findWriteOffs`, `findWriteOffsInWorksheets`
    and the run `main` performs with the default filters. */
module WriteOffsHandler {
  import opened Sequences
  import opened Filters
  import opened TimeUtilities
  import opened WriteOffs
  import opened WorksheetSelector

  /** A handler: the filters it applies and the worksheet it reads. */
  datatype Handler = Handler(eventFilters: seq<EventFilter>, worksheet: Worksheet)

  /** What `findWriteOffs` returns: the worksheet's name and its events,
      each once, in the order they were first seen. */
  datatype UnitWriteOffs = UnitWriteOffs(unitName: string, events: seq<string>)

  /** Seconds before a kept write-off expires. `toEpoch` is the `Date`
      constructor's conversion of local fields to epoch milliseconds, which
      the normalized date's `getTime()` reports. */
  function SecondsBeforeExpire(w: WriteOff, now: Instant, toEpoch: DateTime -> int): (seconds: real)
    ensures now.epochMillis as real + seconds * 1000.0 == toEpoch(w.toBeWrittenOffAt) as real
    ensures seconds < 0.0 <==> toEpoch(w.toBeWrittenOffAt) < now.epochMillis
  {
    CalculateTimeBeforeExpire(toEpoch(w.toBeWrittenOffAt), now.epochMillis)
  }

  /** Filter `f` fires for write-off `w`. */
  predicate FiresFor(f: EventFilter, w: WriteOff, now: Instant, toEpoch: DateTime -> int)
  {
    f.IsSatisfied(SecondsBeforeExpire(w, now, toEpoch))
  }

  /** Every event fired, row by row and within a row filter by filter, with
      repetitions: the sequence of `add` calls the nested loops make. */
  function FiredAll(writeOffs: seq<WriteOff>, filters: seq<EventFilter>, now: Instant, toEpoch: DateTime -> int): seq<string>
  {
    if writeOffs == [] then []
    else
      var last := writeOffs[|writeOffs| - 1];
      FiredAll(writeOffs[..|writeOffs| - 1], filters, now, toEpoch) + Fired(filters, SecondsBeforeExpire(last, now, toEpoch))
  }

  /** `FiredAll` lists exactly the event types of the filters that fire for
      some write-off. */
  lemma {:induction false} FiredAllMembers(writeOffs: seq<WriteOff>, filters: seq<EventFilter>, now: Instant, toEpoch: DateTime -> int)
    ensures forall e :: e in FiredAll(writeOffs, filters, now, toEpoch) <==>
      exists i, j :: 0 <= i < |writeOffs| && 0 <= j < |filters| &&
        FiresFor(filters[j], writeOffs[i], now, toEpoch) && filters[j].EventType() == e
  {
    if writeOffs != [] {
      var init := writeOffs[..|writeOffs| - 1];
      var last := writeOffs[|writeOffs| - 1];
      FiredAllMembers(init, filters, now, toEpoch);
      FiredMembers(filters, SecondsBeforeExpire(last, now, toEpoch));
      assert forall i :: 0 <= i < |init| ==> init[i] == writeOffs[i];
    }
  }

  /** The write-offs `findWriteOffs` classifies: today's weekday columns,
      validated and normalized against `today`. There are no more of them
      than the worksheet has rows below its header, and each falls on
      `today`'s calendar day with no milliseconds. */
  function KeptWriteOffs(h: Handler, now: Instant, today: DateTime): (kept: seq<WriteOff>)
    ensures |kept| < |h.worksheet.grid| || |kept| == 0
    ensures forall k :: 0 <= k < |kept| ==>
      SameCalendarDay(kept[k].toBeWrittenOffAt, today) && kept[k].toBeWrittenOffAt.millis == 0
  {
    FilterWriteOffs(GetWriteOffsByWeekday(h.worksheet, GetWeekdayFromDate(now)), today)
  }

  /** What `findWriteOffs` computes: the worksheet's name, and each event
      type of a filter that fires for at least one kept write-off, exactly
      once. */
  function WorksheetEvents(h: Handler, now: Instant, today: DateTime, toEpoch: DateTime -> int): (u: UnitWriteOffs)
    ensures u.unitName == h.worksheet.name
    ensures Distinct(u.events)
    ensures var kept := KeptWriteOffs(h, now, today);
      forall e :: e in u.events <==>
        exists i, j :: 0 <= i < |kept| && 0 <= j < |h.eventFilters| &&
          FiresFor(h.eventFilters[j], kept[i], now, toEpoch) && h.eventFilters[j].EventType() == e
  {
    var fired := FiredAll(KeptWriteOffs(h, now, today), h.eventFilters, now, toEpoch);
    FiredAllMembers(KeptWriteOffs(h, now, today), h.eventFilters, now, toEpoch);
    DedupMembers(fired);
    UnitWriteOffs(h.worksheet.name, Dedup(fired))
  }

  /** One more filter adds its event type exactly when it fires. */
  lemma FiredStep(filters: seq<EventFilter>, j: nat, x: real)
    requires j < |filters|
    ensures Fired(filters[..j + 1], x) ==
      Fired(filters[..j], x) + (if filters[j].IsSatisfied(x) then [filters[j].EventType()] else [])
  {
    assert filters[..j + 1][..j] == filters[..j];
  }

  /** `FiredStep` after the events of earlier write-offs. */
  lemma AfterFiredStep(before: seq<string>, filters: seq<EventFilter>, j: nat, x: real)
    requires j < |filters|
    ensures before + Fired(filters[..j + 1], x) ==
      if filters[j].IsSatisfied(x) then (before + Fired(filters[..j], x)) + [filters[j].EventType()]
      else before + Fired(filters[..j], x)
  {
    FiredStep(filters, j, x);
  }

  /** One more write-off adds what every filter fires for it. */
  lemma FiredAllStep(writeOffs: seq<WriteOff>, i: nat, filters: seq<EventFilter>, now: Instant, toEpoch: DateTime -> int)
    requires i < |writeOffs|
    ensures FiredAll(writeOffs[..i + 1], filters, now, toEpoch) ==
      FiredAll(writeOffs[..i], filters, now, toEpoch) + Fired(filters, SecondsBeforeExpire(writeOffs[i], now, toEpoch))
  {
    assert writeOffs[..i + 1][..i] == writeOffs[..i];
  }

  /** The inner `forEach` of `findWriteOffs`: for one write-off, adds the
      event type of every filter that fires, filter by filter, to the
      worksheet's set. `before` is every event added so far, with
      repetitions; the set is a sequence in insertion order, as
      `Array.from` lists it. */
  method AddFiredEvents(worksheetEvents0: seq<string>, ghost before: seq<string>, filters: seq<EventFilter>, timeBeforeExpire: real)
    returns (worksheetEvents: seq<string>)
    requires worksheetEvents0 == Dedup(before)
    ensures worksheetEvents == Dedup(before + Fired(filters, timeBeforeExpire))
  {
    worksheetEvents := worksheetEvents0;
    assert before + Fired(filters[..0], timeBeforeExpire) == before by {
      assert filters[..0] == [];
    }
    var j := 0;
    while j < |filters|
      invariant 0 <= j <= |filters|
      invariant worksheetEvents == Dedup(before + Fired(filters[..j], timeBeforeExpire))
    {
      var eventFilter := filters[j];
      ghost var fired := before + Fired(filters[..j], timeBeforeExpire);
      ghost var next := before + Fired(filters[..j + 1], timeBeforeExpire);
      AfterFiredStep(before, filters, j, timeBeforeExpire);
      if eventFilter.IsSatisfied(timeBeforeExpire) {
        assert AddToSet(worksheetEvents, eventFilter.EventType()) == Dedup(next) by {
          DedupSnoc(fired, eventFilter.EventType());
        }
        worksheetEvents := AddToSet(worksheetEvents, eventFilter.EventType());
      }
      j := j + 1;
    }
    assert filters[..|filters|] == filters;
  }

  /** The outer `forEach` of `findWriteOffs`: for every write-off in
      order, computes its seconds before expiry and adds the events its
      filters fire. The result is the distinct fired event types in order
      of first firing. */
  method CollectEvents(writeOffs: seq<WriteOff>, filters: seq<EventFilter>, now: Instant, toEpoch: DateTime -> int)
    returns (worksheetEvents: seq<string>)
    ensures worksheetEvents == Dedup(FiredAll(writeOffs, filters, now, toEpoch))
  {
    worksheetEvents := [];
    var i := 0;
    while i < |writeOffs|
      invariant 0 <= i <= |writeOffs|
      invariant worksheetEvents == Dedup(FiredAll(writeOffs[..i], filters, now, toEpoch))
    {
      var writeOff := writeOffs[i];
      var timeBeforeExpire := SecondsBeforeExpire(writeOff, now, toEpoch);
      worksheetEvents := AddFiredEvents(worksheetEvents, FiredAll(writeOffs[..i], filters, now, toEpoch), filters, timeBeforeExpire);
      FiredAllStep(writeOffs, i, filters, now, toEpoch);
      i := i + 1;
    }
    assert writeOffs[..|writeOffs|] == writeOffs;
  }

  /** `findWriteOffs`: reads today's weekday columns, keeps and normalizes
      the rows with a date, collects the events their filters fire, and
      reports them under the worksheet's name. `now` is the clock reading
      passed in; `today` is the calendar day of the readings
      `normalizeDate` takes itself. */
  method FindWriteOffs(h: Handler, now: Instant, today: DateTime, toEpoch: DateTime -> int) returns (u: UnitWriteOffs)
    ensures u == WorksheetEvents(h, now, today, toEpoch)
  {
    var weekday := GetWeekdayFromDate(now);
    var rawWriteOffs := GetWriteOffsByWeekday(h.worksheet, weekday);
    var filteredWriteOffs := FilterWriteOffs(rawWriteOffs, today);
    var worksheetEvents := CollectEvents(filteredWriteOffs, h.eventFilters, now, toEpoch);
    u := UnitWriteOffs(h.worksheet.name, worksheetEvents);
  }

  /** A worksheet result with at least one event. */
  predicate HasEvents(u: UnitWriteOffs)
  {
    |u.events| != 0
  }

  /** The map step of `findWriteOffsInWorksheets`: every handler's result,
      in handler order. */
  function RunHandlers(handlers: seq<Handler>, now: Instant, today: DateTime, toEpoch: DateTime -> int): (results: seq<UnitWriteOffs>)
    ensures |results| == |handlers|
    ensures forall i :: 0 <= i < |handlers| ==> results[i] == WorksheetEvents(handlers[i], now, today, toEpoch)
  {
    seq(|handlers|, i requires 0 <= i < |handlers| => WorksheetEvents(handlers[i], now, today, toEpoch))
  }

  /** `findWriteOffsInWorksheets`: runs every handler and keeps the results
      that have events, in handler order. The k-th result is the result of
      handler `KeptIndices(...)[k]`; every handler whose result has events
      is among them, and no result without events is. */
  function FindWriteOffsInWorksheets(handlers: seq<Handler>, now: Instant, today: DateTime, toEpoch: DateTime -> int): (r: seq<UnitWriteOffs>)
    ensures forall k :: 0 <= k < |r| ==> |r[k].events| != 0
    ensures var idx := KeptIndices(RunHandlers(handlers, now, today, toEpoch), HasEvents);
      && |idx| == |r|
      && (forall k :: 0 <= k < |r| ==> idx[k] < |handlers| && r[k] == WorksheetEvents(handlers[idx[k]], now, today, toEpoch))
      && (forall k, l :: 0 <= k < l < |r| ==> idx[k] < idx[l])
      && (forall i :: 0 <= i < |handlers| && HasEvents(WorksheetEvents(handlers[i], now, today, toEpoch)) ==> i in idx)
  {
    var results := RunHandlers(handlers, now, today, toEpoch);
    KeptIndicesSelect(results, HasEvents);
    KeptIndicesIncrease(results, HasEvents);
    KeptIndicesComplete(results, HasEvents);
    Filter(results, HasEvents)
  }

  /** The handlers `main` builds: one per worksheet, all with the default
      filters. */
  function DefaultHandlers(worksheets: seq<Worksheet>): (handlers: seq<Handler>)
    ensures |handlers| == |worksheets|
    ensures forall i :: 0 <= i < |handlers| ==> handlers[i] == Handler(DefaultFilters, worksheets[i])
  {
    seq(|worksheets|, i requires 0 <= i < |worksheets| => Handler(DefaultFilters, worksheets[i]))
  }

  /** Every event a worksheet reports is the event type of one of its
      handler's filters. */
  lemma EventsComeFromFilters(h: Handler, now: Instant, today: DateTime, toEpoch: DateTime -> int, e: string)
    requires e in WorksheetEvents(h, now, today, toEpoch).events
    ensures exists j :: 0 <= j < |h.eventFilters| && h.eventFilters[j].EventType() == e
  {
    var kept := KeptWriteOffs(h, now, today);
    var i, j :| 0 <= i < |kept| && 0 <= j < |h.eventFilters| &&
      FiresFor(h.eventFilters[j], kept[i], now, toEpoch) && h.eventFilters[j].EventType() == e;
  }

  /** A filter firing for a kept write-off puts its event type in the
      worksheet's report. */
  lemma FiringIsReported(h: Handler, now: Instant, today: DateTime, toEpoch: DateTime -> int, i: nat, j: nat)
    requires i < |KeptWriteOffs(h, now, today)| && j < |h.eventFilters|
    requires FiresFor(h.eventFilters[j], KeptWriteOffs(h, now, today)[i], now, toEpoch)
    ensures h.eventFilters[j].EventType() in WorksheetEvents(h, now, today, toEpoch).events
  {
  }

  /** A worksheet run with the default filters reports only the four
      default event types. */
  lemma DefaultHandlerEvents(ws: Worksheet, now: Instant, today: DateTime, toEpoch: DateTime -> int, e: string)
    requires e in WorksheetEvents(Handler(DefaultFilters, ws), now, today, toEpoch).events
    ensures e in [AlreadyExpiredEvent, ExpireAt5Minutes, ExpireAt10Minutes, ExpireAt15Minutes]
  {
    EventsComeFromFilters(Handler(DefaultFilters, ws), now, today, toEpoch, e);
    var j :| 0 <= j < |DefaultFilters| && DefaultFilters[j].EventType() == e;
    assert j == 0 || j == 1 || j == 2 || j == 3;
  }

  /** The events of a worksheet run with the default filters. */
  function DefaultEvents(ws: Worksheet, now: Instant, today: DateTime, toEpoch: DateTime -> int): UnitWriteOffs
  {
    WorksheetEvents(Handler(DefaultFilters, ws), now, today, toEpoch)
  }

  /** Every entry of the default report is one worksheet's result, has
      events, and holds only default event types. */
  lemma DefaultReportEntry(worksheets: seq<Worksheet>, now: Instant, today: DateTime, toEpoch: DateTime -> int, k: nat)
    requires k < |FindWriteOffsInWorksheets(DefaultHandlers(worksheets), now, today, toEpoch)|
    ensures var u := FindWriteOffsInWorksheets(DefaultHandlers(worksheets), now, today, toEpoch)[k];
      && |u.events| != 0
      && (exists i :: 0 <= i < |worksheets| && u == DefaultEvents(worksheets[i], now, today, toEpoch))
      && (forall e :: e in u.events ==>
            e in [AlreadyExpiredEvent, ExpireAt5Minutes, ExpireAt10Minutes, ExpireAt15Minutes])
  {
    var handlers := DefaultHandlers(worksheets);
    var idx := KeptIndices(RunHandlers(handlers, now, today, toEpoch), HasEvents);
    var i := idx[k];
    assert handlers[i] == Handler(DefaultFilters, worksheets[i]);
    forall e | e in DefaultEvents(worksheets[i], now, today, toEpoch).events
      ensures e in [AlreadyExpiredEvent, ExpireAt5Minutes, ExpireAt10Minutes, ExpireAt15Minutes]
    {
      DefaultHandlerEvents(worksheets[i], now, today, toEpoch, e);
    }
  }

  /** Every worksheet whose default run has events is in the default
      report. */
  lemma DefaultReportComplete(worksheets: seq<Worksheet>, now: Instant, today: DateTime, toEpoch: DateTime -> int, i: nat)
    requires i < |worksheets| && HasEvents(DefaultEvents(worksheets[i], now, today, toEpoch))
    ensures DefaultEvents(worksheets[i], now, today, toEpoch) in
      FindWriteOffsInWorksheets(DefaultHandlers(worksheets), now, today, toEpoch)
  {
    var handlers := DefaultHandlers(worksheets);
    var r := FindWriteOffsInWorksheets(handlers, now, today, toEpoch);
    var idx := KeptIndices(RunHandlers(handlers, now, today, toEpoch), HasEvents);
    assert handlers[i] == Handler(DefaultFilters, worksheets[i]);
    var k :| 0 <= k < |idx| && idx[k] == i;
    assert r[k] == WorksheetEvents(handlers[i], now, today, toEpoch);
  }

  /** Every entry of the default report `r` is one worksheet's result,
      has events, and holds only default event types. */
  lemma DefaultReportEntries(worksheets: seq<Worksheet>, now: Instant, today: DateTime, toEpoch: DateTime -> int, r: seq<UnitWriteOffs>)
    requires r == FindWriteOffsInWorksheets(DefaultHandlers(worksheets), now, today, toEpoch)
    ensures forall k :: 0 <= k < |r| ==>
      (|r[k].events| != 0 &&
       exists i :: 0 <= i < |worksheets| && r[k] == DefaultEvents(worksheets[i], now, today, toEpoch))
    ensures forall k, e :: 0 <= k < |r| && e in r[k].events ==>
      e in [AlreadyExpiredEvent, ExpireAt5Minutes, ExpireAt10Minutes, ExpireAt15Minutes]
  {
    forall k | 0 <= k < |r|
      ensures |r[k].events| != 0
      ensures exists i :: 0 <= i < |worksheets| && r[k] == DefaultEvents(worksheets[i], now, today, toEpoch)
      ensures forall e :: e in r[k].events ==>
        e in [AlreadyExpiredEvent, ExpireAt5Minutes, ExpireAt10Minutes, ExpireAt15Minutes]
    {
      DefaultReportEntry(worksheets, now, today, toEpoch, k);
    }
  }

  /** Every worksheet whose default run has events is in the default
      report `r`. */
  lemma DefaultReportIsComplete(worksheets: seq<Worksheet>, now: Instant, today: DateTime, toEpoch: DateTime -> int, r: seq<UnitWriteOffs>)
    requires r == FindWriteOffsInWorksheets(DefaultHandlers(worksheets), now, today, toEpoch)
    ensures forall i :: 0 <= i < |worksheets| ==>
      (HasEvents(DefaultEvents(worksheets[i], now, today, toEpoch)) ==> DefaultEvents(worksheets[i], now, today, toEpoch) in r)
  {
    forall i | 0 <= i < |worksheets| && HasEvents(DefaultEvents(worksheets[i], now, today, toEpoch))
      ensures DefaultEvents(worksheets[i], now, today, toEpoch) in r
    {
      DefaultReportComplete(worksheets, now, today, toEpoch, i);
    }
  }

  /** `main`: one handler per worksheet with the default filters, and the
      worksheets that have events. The report is `findWriteOffsInWorksheets`
      over those handlers. Every reported entry is the result of one
      worksheet and has events, every worksheet with events is reported,
      and every reported event is one of the four default event types. */
  function MainWriteOffs(worksheets: seq<Worksheet>, now: Instant, today: DateTime, toEpoch: DateTime -> int): (r: seq<UnitWriteOffs>)
    ensures r == FindWriteOffsInWorksheets(DefaultHandlers(worksheets), now, today, toEpoch)
    ensures forall k :: 0 <= k < |r| ==>
      (|r[k].events| != 0 &&
       exists i :: 0 <= i < |worksheets| && r[k] == DefaultEvents(worksheets[i], now, today, toEpoch))
    ensures forall i :: 0 <= i < |worksheets| ==>
      (HasEvents(DefaultEvents(worksheets[i], now, today, toEpoch)) ==> DefaultEvents(worksheets[i], now, today, toEpoch) in r)
    ensures forall k, e :: 0 <= k < |r| && e in r[k].events ==>
      e in [AlreadyExpiredEvent, ExpireAt5Minutes, ExpireAt10Minutes, ExpireAt15Minutes]
  {
    var r := FindWriteOffsInWorksheets(DefaultHandlers(worksheets), now, today, toEpoch);
    DefaultReportEntries(worksheets, now, today, toEpoch, r);
    DefaultReportIsComplete(worksheets, now, today, toEpoch, r);
    r
  }

  /** A date cell due exactly five minutes from `now`, in today's date
      column, makes the worksheet report `EXPIRE_AT_5_MINUTES`, once. */
  lemma {:induction false} FiveMinutesAheadIsReported(ws: Worksheet, now: Instant, today: DateTime, toEpoch: DateTime -> int, row: nat)
    requires 1 <= row < |ws.grid|
    requires var cell := CellAt(ws, row, 2 * GetWeekdayFromDate(now));
      cell.DateVal? && toEpoch(NormalizeDate(cell.date, today)) == now.epochMillis + 300000
    ensures var u := WorksheetEvents(Handler(DefaultFilters, ws), now, today, toEpoch);
      ExpireAt5Minutes in u.events && Distinct(u.events)
  {
    var h := Handler(DefaultFilters, ws);
    var kept := KeptWriteOffs(h, now, today);
    var due := NormalizeDate(CellAt(ws, row, 2 * GetWeekdayFromDate(now)).date, today);
    assert exists k :: 0 <= k < |kept| && kept[k].toBeWrittenOffAt == due by {
      DateRowIsKept(GetWriteOffsByWeekday(ws, GetWeekdayFromDate(now)), row - 1, today);
    }
    var k :| 0 <= k < |kept| && kept[k].toBeWrittenOffAt == due;
    FiveMinutesAheadFires(kept[k], now, toEpoch);
    FiringIsReported(h, now, today, toEpoch, k, 1);
  }

  /** A write-off due 300000 ms after `now` satisfies the default
      five-minute filter, whose event is `EXPIRE_AT_5_MINUTES`. */
  lemma FiveMinutesAheadFires(w: WriteOff, now: Instant, toEpoch: DateTime -> int)
    requires toEpoch(w.toBeWrittenOffAt) == now.epochMillis + 300000
    ensures FiresFor(DefaultFilters[1], w, now, toEpoch)
    ensures DefaultFilters[1].EventType() == ExpireAt5Minutes
  {
    assert SecondsBeforeExpire(w, now, toEpoch) == 300.0;
  }
}
