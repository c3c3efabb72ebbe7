/**
 The per-phone slot set of internal/twilioadapter/pending_set.go: a live map with lazy expiry, and the
 audit rows it is rebuilt from after a restart.
 */
module PendingSets {
  import opened Core

  datatype RowKind = Opened | Released | TimedOut

  /** An audit row. `Unrelated` is any row that replay skips: another type, malformed, or without a time. */
  datatype Row = Slot(kind: RowKind, requestId: string, phone: string, at: int) | Unrelated(text: string)

  datatype Entry = Entry(requestId: string, openedAt: int)

  type Items = map<string, Entry>

  datatype Slots = Slots(items: Items, audit: seq<Row>)

  // ----- The operations -----

  predicate Busy(items: Items, ttl: int, phone: string, now: int) {
    phone in items && now - items[phone].openedAt < ttl
  }

  predicate Stale(items: Items, ttl: int, phone: string, now: int) {
    phone in items && now - items[phone].openedAt >= ttl
  }

  /** Deletes the entry of a phone and writes why. */
  function Drop(s: Slots, kind: RowKind, phone: string, now: int): Slots
    requires phone in s.items
  {
    Slots(s.items - {phone}, s.audit + [Slot(kind, s.items[phone].requestId, phone, now)])
  }

  /** Lazy expiry of one phone. */
  function Expire(s: Slots, ttl: int, phone: string, now: int): Slots {
    if Stale(s.items, ttl, phone, now) then Drop(s, TimedOut, phone, now) else s
  }

  function Open(s: Slots, ttl: int, phone: string, requestId: string, now: int): Slots {
    if Busy(s.items, ttl, phone, now) then s
    else
      var t := Expire(s, ttl, phone, now);
      Slots(t.items[phone := Entry(requestId, now)], t.audit + [Slot(Opened, requestId, phone, now)])
  }

  function Free(s: Slots, phone: string, now: int): Slots {
    if phone in s.items then Drop(s, Released, phone, now) else s
  }

  /** `ExpireDue`, walking the map in the given order. */
  function Sweep(s: Slots, ttl: int, now: int, order: seq<string>): Slots {
    if order == [] then s else Expire(Sweep(s, ttl, now, order[..|order| - 1]), ttl, order[|order| - 1], now)
  }

  // ----- Replay -----

  /** The rows replay keeps. */
  function Relevant(rows: seq<Row>): seq<Row> {
    if rows == [] then [] else
      var rest, row := Relevant(rows[..|rows| - 1]), rows[|rows| - 1];
      if row.Slot? && row.phone != "" && row.requestId != "" then rest + [row] else rest
  }

  function ApplyRow(items: Items, row: Row): Items {
    match row
    case Slot(Opened, requestId, phone, at) => items[phone := Entry(requestId, at)]
    case Slot(_, requestId, phone, _) =>
      if phone in items && items[phone].requestId == requestId then items - {phone} else items
    case Unrelated(_) => items
  }

  function ApplyRows(items: Items, rows: seq<Row>): Items {
    if rows == [] then items else ApplyRow(ApplyRows(items, rows[..|rows| - 1]), rows[|rows| - 1])
  }

  function TimeOf(row: Row): int {
    if row.Slot? then row.at else 0
  }

  /** Puts a row behind every row that is not later than it. */
  function InsertRow(rows: seq<Row>, row: Row): seq<Row> {
    if rows == [] || TimeOf(rows[|rows| - 1]) <= TimeOf(row) then rows + [row]
    else InsertRow(rows[..|rows| - 1], row) + [rows[|rows| - 1]]
  }

  /** `sort.SliceStable` by timestamp. */
  function StableSort(rows: seq<Row>): seq<Row> {
    if rows == [] then [] else InsertRow(StableSort(rows[..|rows| - 1]), rows[|rows| - 1])
  }

  /** `ReplayFromAudit` into a set that already holds `items`. */
  function Replay(items: Items, audit: seq<Row>): Items {
    ApplyRows(items, StableSort(Relevant(audit)))
  }

  // ----- What replayed rows mean -----

  /** The row at `i` opens the phone, and no later row opens it again or ends the claim of that request. */
  ghost predicate LastWord(rows: seq<Row>, i: nat, phone: string, entry: Entry) {
    && i < |rows| && rows[i] == Slot(Opened, entry.requestId, phone, entry.openedAt)
    && forall j :: i < j < |rows| && rows[j].Slot? && rows[j].phone == phone ==>
         !rows[j].kind.Opened? && rows[j].requestId != entry.requestId
  }

  lemma LastWordSnoc(rows: seq<Row>, row: Row, i: nat, phone: string, entry: Entry)
    requires i < |rows|
    ensures LastWord(rows + [row], i, phone, entry) <==>
            LastWord(rows, i, phone, entry)
            && !(row.Slot? && row.phone == phone && (row.kind.Opened? || row.requestId == entry.requestId))
  {
    var all := rows + [row];
    assert all[|rows|] == row && forall j :: 0 <= j < |rows| ==> all[j] == rows[j];
  }

  /** A phone is held by a request since a time exactly when a row says so and is the last word on it. */
  lemma {:induction false} RowsDecide(rows: seq<Row>, phone: string, entry: Entry)
    ensures (phone in ApplyRows(map[], rows) && ApplyRows(map[], rows)[phone] == entry) <==>
            exists i :: LastWord(rows, i, phone, entry)
  {
    if rows != [] {
      var front, row := rows[..|rows| - 1], rows[|rows| - 1];
      RowsDecide(front, phone, entry);
      assert rows == front + [row];
      forall i: nat | i < |front|
        ensures LastWord(rows, i, phone, entry) <==>
                LastWord(front, i, phone, entry)
                && !(row.Slot? && row.phone == phone && (row.kind.Opened? || row.requestId == entry.requestId))
      {
        LastWordSnoc(front, row, i, phone, entry);
      }
      RowDecides(front, row, phone, entry);
    }
  }

  lemma RowDecides(front: seq<Row>, row: Row, phone: string, entry: Entry)
    requires (phone in ApplyRows(map[], front) && ApplyRows(map[], front)[phone] == entry) <==>
             exists i :: LastWord(front, i, phone, entry)
    requires forall i: nat :: i < |front| ==>
               (LastWord(front + [row], i, phone, entry) <==>
                LastWord(front, i, phone, entry)
                && !(row.Slot? && row.phone == phone && (row.kind.Opened? || row.requestId == entry.requestId)))
    ensures (phone in ApplyRows(map[], front + [row]) && ApplyRows(map[], front + [row])[phone] == entry) <==>
            exists i :: LastWord(front + [row], i, phone, entry)
  {
    var rows := front + [row];
    assert rows[|front|] == row;
    ApplyRowsSnoc(map[], front, row);
    assert LastWord(rows, |front|, phone, entry) <==> row == Slot(Opened, entry.requestId, phone, entry.openedAt);
    if exists i :: LastWord(front, i, phone, entry) {
      var i: nat :| LastWord(front, i, phone, entry);
      assert LastWord(rows, i, phone, entry) <==>
             !(row.Slot? && row.phone == phone && (row.kind.Opened? || row.requestId == entry.requestId));
    }
    if exists i :: LastWord(rows, i, phone, entry) {
      var i: nat :| LastWord(rows, i, phone, entry);
      assert i < |front| || i == |front|;
    }
  }

  /** Replay keeps exactly the slot rows that name a phone and a request. */
  lemma {:induction false} RelevantRows(rows: seq<Row>)
    ensures forall row :: row in Relevant(rows) <==> row in rows && row.Slot? && row.phone != "" && row.requestId != ""
  {
    if rows != [] {
      RelevantRows(rows[..|rows| - 1]);
      assert rows == rows[..|rows| - 1] + [rows[|rows| - 1]];
    }
  }

  // ----- The sort is stable, and the identity on ordered rows -----

  ghost predicate Ordered(rows: seq<Row>) {
    forall i, j :: 0 <= i < j < |rows| ==> TimeOf(rows[i]) <= TimeOf(rows[j])
  }

  function At(rows: seq<Row>, t: int): seq<Row> {
    if rows == [] then [] else
      var rest := At(rows[..|rows| - 1], t);
      if TimeOf(rows[|rows| - 1]) == t then rest + [rows[|rows| - 1]] else rest
  }

  lemma AtSnoc(rows: seq<Row>, row: Row, t: int)
    ensures At(rows + [row], t) == if TimeOf(row) == t then At(rows, t) + [row] else At(rows, t)
  {
    assert (rows + [row])[..|rows|] == rows;
  }

  lemma OrderedSnoc(rows: seq<Row>, row: Row)
    requires Ordered(rows) && forall i :: 0 <= i < |rows| ==> TimeOf(rows[i]) <= TimeOf(row)
    ensures Ordered(rows + [row])
  {
  }

  lemma {:induction false} InsertRowPermutes(rows: seq<Row>, row: Row)
    ensures multiset(InsertRow(rows, row)) == multiset(rows) + multiset{row}
  {
    if rows != [] && TimeOf(rows[|rows| - 1]) > TimeOf(row) {
      InsertRowPermutes(rows[..|rows| - 1], row);
      assert rows == rows[..|rows| - 1] + [rows[|rows| - 1]];
    }
  }

  lemma {:induction false} InsertRowOrders(rows: seq<Row>, row: Row, bound: int)
    requires Ordered(rows) && TimeOf(row) <= bound && forall i :: 0 <= i < |rows| ==> TimeOf(rows[i]) <= bound
    ensures Ordered(InsertRow(rows, row))
    ensures forall i :: 0 <= i < |InsertRow(rows, row)| ==> TimeOf(InsertRow(rows, row)[i]) <= bound
  {
    if rows == [] || TimeOf(rows[|rows| - 1]) <= TimeOf(row) {
      OrderedSnoc(rows, row);
    } else {
      var front, last := rows[..|rows| - 1], rows[|rows| - 1];
      InsertRowOrders(front, row, TimeOf(last));
      OrderedSnoc(InsertRow(front, row), last);
    }
  }

  lemma {:induction false} InsertRowIsStable(rows: seq<Row>, row: Row, t: int)
    ensures At(InsertRow(rows, row), t) == At(rows + [row], t)
  {
    if rows != [] && TimeOf(rows[|rows| - 1]) > TimeOf(row) {
      var front, last := rows[..|rows| - 1], rows[|rows| - 1];
      InsertRowIsStable(front, row, t);
      assert rows == front + [last];
      AtSnoc(InsertRow(front, row), last, t);
      AtSnoc(front, last, t);
      AtSnoc(front, row, t);
      AtSnoc(rows, row, t);
    }
  }

  function Latest(rows: seq<Row>, t: int): (bound: int)
    ensures t <= bound && forall i :: 0 <= i < |rows| ==> TimeOf(rows[i]) <= bound
  {
    if rows == [] then t else
      var rest := Latest(rows[..|rows| - 1], t);
      if TimeOf(rows[|rows| - 1]) > rest then TimeOf(rows[|rows| - 1]) else rest
  }

  lemma {:induction false} StableSortOrders(rows: seq<Row>)
    ensures Ordered(StableSort(rows))
  {
    if rows != [] {
      var sorted, last := StableSort(rows[..|rows| - 1]), rows[|rows| - 1];
      StableSortOrders(rows[..|rows| - 1]);
      InsertRowOrders(sorted, last, Latest(sorted, TimeOf(last)));
    }
  }

  lemma {:induction false} StableSortPermutes(rows: seq<Row>)
    ensures multiset(StableSort(rows)) == multiset(rows)
  {
    if rows != [] {
      StableSortPermutes(rows[..|rows| - 1]);
      InsertRowPermutes(StableSort(rows[..|rows| - 1]), rows[|rows| - 1]);
      assert rows == rows[..|rows| - 1] + [rows[|rows| - 1]];
    }
  }

  /** The result is ordered, is a permutation, and keeps the order of rows with equal times. */
  lemma {:induction false} StableSortIsStable(rows: seq<Row>, t: int)
    ensures Ordered(StableSort(rows)) && multiset(StableSort(rows)) == multiset(rows)
    ensures At(StableSort(rows), t) == At(rows, t)
  {
    StableSortOrders(rows);
    StableSortPermutes(rows);
    if rows != [] {
      var sorted, last := StableSort(rows[..|rows| - 1]), rows[|rows| - 1];
      StableSortIsStable(rows[..|rows| - 1], t);
      InsertRowIsStable(sorted, last, t);
      AtSnoc(sorted, last, t);
    }
  }

  lemma {:induction false} SortOfOrdered(rows: seq<Row>)
    requires Ordered(rows)
    ensures StableSort(rows) == rows
  {
    if rows != [] {
      var front := rows[..|rows| - 1];
      SortOfOrdered(front);
      assert rows == front + [rows[|rows| - 1]];
    }
  }

  // ----- A live set always equals the replay of its own audit -----

  /** No row is later than `clock`, and replaying the rows as they lie gives the live map. */
  ghost predicate Faithful(s: Slots, clock: int) {
    && Ordered(Relevant(s.audit))
    && (forall row :: row in Relevant(s.audit) ==> TimeOf(row) <= clock)
    && ApplyRows(map[], Relevant(s.audit)) == s.items
    && (forall phone :: phone in s.items ==> phone != "" && s.items[phone].requestId != "")
  }

  lemma RelevantSnoc(rows: seq<Row>, row: Row)
    ensures Relevant(rows + [row]) ==
            if row.Slot? && row.phone != "" && row.requestId != "" then Relevant(rows) + [row] else Relevant(rows)
  {
    assert (rows + [row])[..|rows|] == rows;
  }

  lemma ApplyRowsSnoc(items: Items, rows: seq<Row>, row: Row)
    ensures ApplyRows(items, rows + [row]) == ApplyRow(ApplyRows(items, rows), row)
  {
    assert (rows + [row])[..|rows|] == rows;
  }

  /** Writing the row of a change and making the change go together. */
  lemma WriteKeepsFaithful(s: Slots, clock: int, row: Row, now: int)
    requires Faithful(s, clock) && clock <= now
    requires row.Slot? ==> row.at == now && row.phone != "" && row.requestId != ""
    ensures Faithful(Slots(ApplyRow(s.items, row), s.audit + [row]), now)
  {
    RelevantSnoc(s.audit, row);
    if row.Slot? {
      SlotRowFits(s, clock, row, now);
    }
  }

  lemma SlotRowFits(s: Slots, clock: int, row: Row, now: int)
    requires Faithful(s, clock) && clock <= now && row.Slot? && row.at == now && row.phone != "" && row.requestId != ""
    ensures
      var rows := Relevant(s.audit) + [row];
      && Ordered(rows) && (forall r :: r in rows ==> TimeOf(r) <= now)
      && ApplyRows(map[], rows) == ApplyRow(s.items, row)
      && forall phone :: phone in ApplyRow(s.items, row) ==> phone != "" && ApplyRow(s.items, row)[phone].requestId != ""
  {
    ApplyRowsSnoc(map[], Relevant(s.audit), row);
    StillOrdered(Relevant(s.audit), row);
  }

  lemma StillOrdered(rows: seq<Row>, row: Row)
    requires Ordered(rows) && forall r :: r in rows ==> TimeOf(r) <= TimeOf(row)
    ensures Ordered(rows + [row])
  {
    forall i | 0 <= i < |rows| ensures TimeOf(rows[i]) <= TimeOf(row) {
      assert rows[i] in rows;
    }
    OrderedSnoc(rows, row);
  }

  lemma DropFaithful(s: Slots, clock: int, kind: RowKind, phone: string, now: int)
    requires Faithful(s, clock) && clock <= now && phone in s.items && !kind.Opened?
    ensures Faithful(Drop(s, kind, phone, now), now)
  {
    WriteKeepsFaithful(s, clock, Slot(kind, s.items[phone].requestId, phone, now), now);
  }

  lemma ExpireFaithful(s: Slots, ttl: int, clock: int, phone: string, now: int)
    requires Faithful(s, clock) && clock <= now
    ensures Faithful(Expire(s, ttl, phone, now), now)
  {
    if Stale(s.items, ttl, phone, now) {
      DropFaithful(s, clock, TimedOut, phone, now);
    }
  }

  lemma OpenFaithful(s: Slots, ttl: int, clock: int, phone: string, requestId: string, now: int)
    requires Faithful(s, clock) && clock <= now && phone != "" && requestId != ""
    ensures Faithful(Open(s, ttl, phone, requestId, now), now)
  {
    ExpireFaithful(s, ttl, clock, phone, now);
    if !Busy(s.items, ttl, phone, now) {
      WriteKeepsFaithful(Expire(s, ttl, phone, now), now, Slot(Opened, requestId, phone, now), now);
    }
  }

  lemma FreeFaithful(s: Slots, clock: int, phone: string, now: int)
    requires Faithful(s, clock) && clock <= now
    ensures Faithful(Free(s, phone, now), now)
  {
    if phone in s.items {
      DropFaithful(s, clock, Released, phone, now);
    }
  }

  lemma {:induction false} SweepFaithful(s: Slots, ttl: int, clock: int, now: int, order: seq<string>)
    requires Faithful(s, clock) && clock <= now
    ensures Faithful(Sweep(s, ttl, now, order), now)
  {
    if order != [] {
      var front := order[..|order| - 1];
      SweepFaithful(s, ttl, clock, now, front);
      ExpireFaithful(Sweep(s, ttl, now, front), ttl, now, order[|order| - 1], now);
    }
  }

  lemma FaithfulReplay(s: Slots, clock: int)
    requires Faithful(s, clock)
    ensures Replay(map[], s.audit) == s.items
  {
    SortOfOrdered(Relevant(s.audit));
  }

  // ----- Runs -----

  datatype Op =
    | OpenOp(phone: string, requestId: string, now: int)
    | ResolveOp(phone: string, now: int)
    | ReleaseOp(phone: string, now: int)
    | SweepOp(now: int, order: seq<string>)
    | OtherRow(text: string)
    | ReloadOp(lost: set<nat>)

  /** The rows that are left when those at some positions were never written. */
  function Without(rows: seq<Row>, lost: set<nat>): seq<Row> {
    if rows == [] then [] else
      var rest := Without(rows[..|rows| - 1], lost);
      if |rows| - 1 in lost then rest else rest + [rows[|rows| - 1]]
  }

  /**
   `Resolve` changes the set only by expiring the phone it is asked about. Writing a row is best effort: a
   restart reads a file from which any rows may be missing. Nothing reads the file before, so which of
   them are is decided then.
   */
  function Do(s: Slots, ttl: int, op: Op): Slots {
    match op
    case OpenOp(phone, requestId, now) => Open(s, ttl, phone, requestId, now)
    case ResolveOp(phone, now) => Expire(s, ttl, phone, now)
    case ReleaseOp(phone, now) => Free(s, phone, now)
    case SweepOp(now, order) => Sweep(s, ttl, now, order)
    case OtherRow(text) => s.(audit := s.audit + [Unrelated(text)])
    case ReloadOp(lost) => Slots(Replay(map[], Without(s.audit, lost)), Without(s.audit, lost))
  }

  function Run(ttl: int, ops: seq<Op>): Slots {
    if ops == [] then Slots(map[], []) else Do(Run(ttl, ops[..|ops| - 1]), ttl, ops[|ops| - 1])
  }

  /** The clock reading of a step; steps without one keep the last. */
  function Clock(op: Op, before: int): int {
    if op.OtherRow? || op.ReloadOp? then before else op.now
  }

  function LastClock(ops: seq<Op>, start: int): int {
    if ops == [] then start else Clock(ops[|ops| - 1], LastClock(ops[..|ops| - 1], start))
  }

  /** The clock never steps back from `start`, and slots are opened for real phones and requests. */
  ghost predicate Regular(ops: seq<Op>, start: int) {
    forall i :: 0 <= i < |ops| ==>
      && LastClock(ops[..i], start) <= Clock(ops[i], LastClock(ops[..i], start))
      && (ops[i].OpenOp? ==> ops[i].phone != "" && ops[i].requestId != "")
  }

  lemma {:induction false} RunIsFaithful(ttl: int, ops: seq<Op>, start: int)
    requires Regular(ops, start)
    ensures Faithful(Run(ttl, ops), LastClock(ops, start))
  {
    if ops != [] {
      var front, op := ops[..|ops| - 1], ops[|ops| - 1];
      assert forall i :: 0 <= i < |front| ==> front[..i] == ops[..i] && front[i] == ops[i];
      RunIsFaithful(ttl, front, start);
      assert LastClock(ops[..|ops| - 1], start) <= Clock(op, LastClock(front, start));
      StepIsFaithful(Run(ttl, front), ttl, LastClock(front, start), op);
    }
  }

  lemma {:induction false} WithoutIsThinned(rows: seq<Row>, lost: set<nat>)
    ensures Thinned(Nothing(), rows, Without(rows, lost))
  {
    if rows != [] {
      var front := rows[..|rows| - 1];
      WithoutIsThinned(front, lost);
      if |rows| - 1 !in lost {
        assert Without(rows, lost)[..|Without(front, lost)|] == Without(front, lost);
      }
    }
  }

  lemma {:induction false} RelevantNames(rows: seq<Row>)
    ensures forall row :: row in Relevant(rows) ==> row.Slot? && row.phone != "" && row.requestId != ""
    ensures forall phone :: phone in ApplyRows(map[], Relevant(rows)) ==>
              phone != "" && ApplyRows(map[], Relevant(rows))[phone].requestId != ""
  {
    if rows != [] {
      var front, row := rows[..|rows| - 1], rows[|rows| - 1];
      RelevantNames(front);
      if row.Slot? && row.phone != "" && row.requestId != "" {
        ApplyRowsSnoc(map[], Relevant(front), row);
      }
    }
  }

  lemma ReloadFaithful(s: Slots, clock: int, lost: set<nat>)
    requires Faithful(s, clock)
    ensures Faithful(Slots(Replay(map[], Without(s.audit, lost)), Without(s.audit, lost)), clock)
  {
    var file := Without(s.audit, lost);
    WithoutIsThinned(s.audit, lost);
    ThinnedRelevant(Nothing(), s.audit, file);
    ThinnedFaithful(s, clock, file);
  }

  lemma ThinnedFaithful(s: Slots, clock: int, file: seq<Row>)
    requires Faithful(s, clock) && Thinned(Nothing(), Relevant(s.audit), Relevant(file))
    ensures Faithful(Slots(Replay(map[], file), file), clock)
  {
    ThinnedOrdered(Nothing(), Relevant(s.audit), Relevant(file));
    SortOfOrdered(Relevant(file));
    RelevantNames(file);
  }

  lemma StepIsFaithful(s: Slots, ttl: int, clock: int, op: Op)
    requires Faithful(s, clock) && clock <= Clock(op, clock)
    requires op.OpenOp? ==> op.phone != "" && op.requestId != ""
    ensures Faithful(Do(s, ttl, op), Clock(op, clock))
  {
    match op
    case OpenOp(phone, requestId, now) => OpenFaithful(s, ttl, clock, phone, requestId, now);
    case ResolveOp(phone, now) => ExpireFaithful(s, ttl, clock, phone, now);
    case ReleaseOp(phone, now) => FreeFaithful(s, clock, phone, now);
    case SweepOp(now, order) => SweepFaithful(s, ttl, clock, now, order);
    case OtherRow(text) => WriteKeepsFaithful(s, clock, Unrelated(text), clock);
    case ReloadOp(lost) => ReloadFaithful(s, clock, lost);
  }

  /**
   For any run of opens, resolves, releases and sweeps over any phones, in any sweep order, with other
   rows mixed in and any number of restarts, replaying the audit into an empty set gives the live map:
   entries that have outlived their time included.
   */
  lemma ReplayGivesTheLiveMap(ttl: int, ops: seq<Op>, start: int)
    requires Regular(ops, start)
    ensures Replay(map[], Run(ttl, ops).audit) == Run(ttl, ops).items
  {
    RunIsFaithful(ttl, ops, start);
    FaithfulReplay(Run(ttl, ops), LastClock(ops, start));
  }

  /** The slots a replay that dropped what has expired would give. */
  function Unexpired(items: Items, ttl: int, now: int): Items {
    map phone | phone in items && !Stale(items, ttl, phone, now) :: items[phone]
  }

  /** Replay does not drop what has expired: it gives the unexpired slots exactly when the live map has no other. */
  lemma ReplayIsUnexpiredIff(ttl: int, ops: seq<Op>, start: int, now: int)
    requires Regular(ops, start)
    ensures
      var s := Run(ttl, ops);
      Replay(map[], s.audit) == Unexpired(s.items, ttl, now) <==> forall phone :: !Stale(s.items, ttl, phone, now)
  {
    var items := Run(ttl, ops).items;
    ReplayGivesTheLiveMap(ttl, ops, start);
    forall phone | Stale(items, ttl, phone, now) ensures phone in items && phone !in Unexpired(items, ttl, now) {
    }
  }

  /** A slot opened for a real phone and request survives the replay however long ago that was. */
  lemma StaleSlotSurvivesReplay(ttl: int, phone: string, requestId: string, at: int, now: int)
    requires phone != "" && requestId != "" && now - at >= ttl
    ensures
      var s := Run(ttl, [OpenOp(phone, requestId, at)]);
      Stale(s.items, ttl, phone, now) && Replay(map[], s.audit) == map[phone := Entry(requestId, at)]
  {
    var op := OpenOp(phone, requestId, at);
    RunSnoc(ttl, [], op);
    assert [] + [op] == [op];
    assert [op][..0] == [];
    ReplayGivesTheLiveMap(ttl, [op], at);
  }

  /** The clock hypothesis is needed: a release stamped before its open is replayed before it. */
  lemma ClockMustNotStepBack()
    ensures var s := Run(100, [OpenOp("+1", "r", 10), ReleaseOp("+1", 5)]);
            s.items == map[] && Replay(map[], s.audit) == map["+1" := Entry("r", 10)]
  {
    var first, second := OpenOp("+1", "r", 10), ReleaseOp("+1", 5);
    var o, r := Slot(Opened, "r", "+1", 10), Slot(Released, "r", "+1", 5);
    RunSnoc(100, [], first);
    RunSnoc(100, [first], second);
    assert [] + [first] == [first] && [first] + [second] == [first, second];
    assert Run(100, [first]).items == map["+1" := Entry("r", 10)] && Run(100, [first]).audit == [o];
    assert Run(100, [first, second]).audit == [o, r];
    LateReleaseIsReplayedFirst(o, r);
  }

  lemma RunSnoc(ttl: int, ops: seq<Op>, op: Op)
    ensures Run(ttl, ops + [op]) == Do(Run(ttl, ops), ttl, op)
  {
    assert (ops + [op])[..|ops|] == ops;
  }

  lemma LateReleaseIsReplayedFirst(o: Row, r: Row)
    requires o.Slot? && r.Slot? && o.kind == Opened && r.kind == Released && r.at < o.at
    requires o.phone != "" && r.phone != "" && o.requestId != "" && r.requestId != ""
    ensures Replay(map[], [o, r]) == map[o.phone := Entry(o.requestId, o.at)]
  {
    RelevantSnoc([], o);
    RelevantSnoc([o], r);
    assert [] + [o] == [o] && [o] + [r] == [o, r];
    assert [o, r][..1] == [o] && [o][..0] == [];
    assert StableSort([o]) == InsertRow(StableSort([]), o) == [] + [o] == [o];
    assert InsertRow([], r) == [] + [r] == [r];
    assert StableSort([o, r]) == InsertRow([o], r) == InsertRow([], r) + [o] == [r, o];
    ApplyRowsSnoc(map[], [], r);
    ApplyRowsSnoc(map[], [r], o);
    assert [] + [r] == [r] && [r] + [o] == [r, o];
  }

  // ----- Lost rows -----

  /** `b` is `a` with some rows missing, none of them essential. */
  ghost predicate Thinned(essential: Row -> bool, a: seq<Row>, b: seq<Row>) {
    if a == [] then b == []
    else
      var front, last := a[..|a| - 1], a[|a| - 1];
      || (b != [] && b[|b| - 1] == last && Thinned(essential, front, b[..|b| - 1]))
      || (!essential(last) && Thinned(essential, front, b))
  }

  predicate Opens(row: Row, phone: string) {
    row.Slot? && row.kind.Opened? && row.phone == phone
  }

  // What may be essential: nothing, or the opening rows of a phone.

  function Nothing(): Row -> bool {
    row => false
  }

  function Opening(phone: string): Row -> bool {
    row => Opens(row, phone)
  }

  lemma {:induction false} ThinnedRelevant(essential: Row -> bool, a: seq<Row>, b: seq<Row>)
    requires Thinned(essential, a, b)
    ensures Thinned(essential, Relevant(a), Relevant(b))
  {
    if a != [] {
      var front, last := a[..|a| - 1], a[|a| - 1];
      var ra := Relevant(front);
      assert (ra + [last])[..|ra|] == ra;
      if b != [] && b[|b| - 1] == last && Thinned(essential, front, b[..|b| - 1]) {
        ThinnedRelevant(essential, front, b[..|b| - 1]);
        var rb := Relevant(b[..|b| - 1]);
        assert (rb + [last])[..|rb|] == rb;
      } else {
        ThinnedRelevant(essential, front, b);
      }
    }
  }

  lemma {:induction false} ThinnedOrdered(essential: Row -> bool, a: seq<Row>, b: seq<Row>)
    requires Thinned(essential, a, b) && Ordered(a)
    ensures Ordered(b) && forall row :: row in b ==> row in a
  {
    if a != [] {
      var front, last := a[..|a| - 1], a[|a| - 1];
      assert a == front + [last];
      if b != [] && b[|b| - 1] == last && Thinned(essential, front, b[..|b| - 1]) {
        ThinnedOrdered(essential, front, b[..|b| - 1]);
        assert b == b[..|b| - 1] + [last];
        forall i | 0 <= i < |b| - 1 ensures TimeOf(b[i]) <= TimeOf(last) {
          assert b[..|b| - 1][i] in front;
        }
      } else {
        ThinnedOrdered(essential, front, b);
      }
    }
  }

  /** A slot survives the loss of rows that are no opening of its phone. */
  ghost predicate Survives(live: Items, replayed: Items, phone: string) {
    phone in live ==> phone in replayed && replayed[phone] == live[phone]
  }

  lemma {:induction false} ThinnedKeeps(a: seq<Row>, b: seq<Row>, phone: string)
    requires Thinned(Opening(phone), a, b)
    ensures Survives(ApplyRows(map[], a), ApplyRows(map[], b), phone)
  {
    if a != [] {
      var front, last := a[..|a| - 1], a[|a| - 1];
      if b != [] && b[|b| - 1] == last && Thinned(Opening(phone), front, b[..|b| - 1]) {
        ThinnedKeeps(front, b[..|b| - 1], phone);
      } else {
        ThinnedKeeps(front, b, phone);
      }
    }
  }

  /** The reload has lost no opening row of this phone. */
  ghost predicate KeepsOpenings(audit: seq<Row>, lost: set<nat>, phone: string) {
    forall k :: k in lost && k < |audit| ==> !Opens(audit[k], phone)
  }

  lemma {:induction false} WithoutKeepsOpenings(rows: seq<Row>, lost: set<nat>, phone: string)
    requires KeepsOpenings(rows, lost, phone)
    ensures Thinned(Opening(phone), rows, Without(rows, lost))
  {
    if rows != [] {
      var front := rows[..|rows| - 1];
      WithoutKeepsOpenings(front, lost, phone);
      if |rows| - 1 in lost {
        assert !Opens(rows[|rows| - 1], phone);
      } else {
        assert Without(rows, lost)[..|Without(front, lost)|] == Without(front, lost);
      }
    }
  }

  lemma ReloadKeepsSlot(s: Slots, clock: int, ttl: int, lost: set<nat>, phone: string)
    requires Faithful(s, clock) && KeepsOpenings(s.audit, lost, phone)
    ensures Survives(s.items, Do(s, ttl, ReloadOp(lost)).items, phone)
  {
    var file := Without(s.audit, lost);
    WithoutKeepsOpenings(s.audit, lost, phone);
    ThinnedRelevant(Opening(phone), s.audit, file);
    ThinnedSlotSurvives(s, clock, file, phone);
  }

  lemma ThinnedSlotSurvives(s: Slots, clock: int, file: seq<Row>, phone: string)
    requires Faithful(s, clock) && Thinned(Opening(phone), Relevant(s.audit), Relevant(file))
    ensures Survives(s.items, Replay(map[], file), phone)
  {
    ThinnedOrdered(Opening(phone), Relevant(s.audit), Relevant(file));
    SortOfOrdered(Relevant(file));
    ThinnedKeeps(Relevant(s.audit), Relevant(file), phone);
  }

  /**
   After any run, itself with restarts that found rows missing, losing any rows but openings of a phone
   leaves its slot, if it is taken, taken by the same request since the same time. So if no opening is
   lost at all, what a restart rebuilds is a superset that agrees with every live slot.
   */
  lemma LostRowsOnlyKeepSlots(ttl: int, ops: seq<Op>, start: int, lost: set<nat>, phone: string)
    requires Regular(ops, start) && KeepsOpenings(Run(ttl, ops).audit, lost, phone)
    ensures Survives(Run(ttl, ops).items, Do(Run(ttl, ops), ttl, ReloadOp(lost)).items, phone)
  {
    RunIsFaithful(ttl, ops, start);
    ReloadKeepsSlot(Run(ttl, ops), LastClock(ops, start), ttl, lost, phone);
  }

  // ----- Claims, when rows may be lost -----

  /** The operation at `i` claims this phone. */
  ghost predicate Claims(ttl: int, ops: seq<Op>, i: nat, phone: string) {
    i < |ops| && ops[i].OpenOp? && ops[i].phone == phone && !Busy(Run(ttl, ops[..i]).items, ttl, phone, ops[i].now)
  }

  /** The operation neither releases the phone nor reads a file from which an opening row of it is missing. */
  ghost predicate Spares(ttl: int, ops: seq<Op>, m: nat, phone: string)
    requires m < |ops|
  {
    && !(ops[m].ReleaseOp? && ops[m].phone == phone)
    && (ops[m].ReloadOp? ==> KeepsOpenings(Run(ttl, ops[..m]).audit, ops[m].lost, phone))
  }

  lemma {:induction false} ClocksRise(ops: seq<Op>, start: int, i: nat, j: nat)
    requires Regular(ops, start) && i <= j <= |ops|
    ensures LastClock(ops[..i], start) <= LastClock(ops[..j], start)
    decreases j
  {
    if i < j {
      ClocksRise(ops, start, i, j - 1);
      assert ops[..j][..j - 1] == ops[..j - 1];
    }
  }

  /** A step before the TTL is over leaves the slot alone, unless it releases the phone or loses its opening. */
  lemma StepKeepsSlot(s: Slots, ttl: int, clock: int, op: Op, phone: string, entry: Entry)
    requires Faithful(s, clock) && phone in s.items && s.items[phone] == entry
    requires Clock(op, clock) - entry.openedAt < ttl && !(op.ReleaseOp? && op.phone == phone)
    requires op.ReloadOp? ==> KeepsOpenings(s.audit, op.lost, phone)
    ensures phone in Do(s, ttl, op).items && Do(s, ttl, op).items[phone] == entry
  {
    match op
    case SweepOp(now, order) => SweepLeavesTheFresh(s, ttl, now, order);
    case ReloadOp(lost) => ReloadKeepsSlot(s, clock, ttl, lost, phone);
    case _ =>
  }

  ghost predicate HeldAt(ttl: int, ops: seq<Op>, k: nat, phone: string, entry: Entry)
    requires k <= |ops|
  {
    phone in Run(ttl, ops[..k]).items && Run(ttl, ops[..k]).items[phone] == entry
  }

  lemma {:induction false} HeldThroughout(ttl: int, ops: seq<Op>, i: nat, k: nat, phone: string, entry: Entry)
    requires i <= k <= |ops| && HeldAt(ttl, ops, i, phone, entry)
    requires forall m :: i <= m < k && HeldAt(ttl, ops, m, phone, entry) ==> HeldAt(ttl, ops, m + 1, phone, entry)
    ensures HeldAt(ttl, ops, k, phone, entry)
    decreases k
  {
    if i < k {
      HeldThroughout(ttl, ops, i, k - 1, phone, entry);
    }
  }

  lemma StandsOneMore(ttl: int, ops: seq<Op>, start: int, m: nat, k: nat, phone: string, entry: Entry)
    requires Regular(ops, start) && m < k <= |ops| && HeldAt(ttl, ops, m, phone, entry) && Spares(ttl, ops, m, phone)
    requires LastClock(ops[..k], start) - entry.openedAt < ttl
    ensures HeldAt(ttl, ops, m + 1, phone, entry)
  {
    ClocksRise(ops, start, m + 1, k);
    NextKeepsSlot(ttl, ops, start, m, phone, entry);
  }

  lemma SlotStands(ttl: int, ops: seq<Op>, start: int, i: nat, k: nat, phone: string, entry: Entry)
    requires Regular(ops, start) && i <= k <= |ops| && HeldAt(ttl, ops, i, phone, entry)
    requires forall m :: i <= m < k ==> Spares(ttl, ops, m, phone)
    requires LastClock(ops[..k], start) - entry.openedAt < ttl
    ensures HeldAt(ttl, ops, k, phone, entry)
  {
    forall m | i <= m < k && HeldAt(ttl, ops, m, phone, entry) ensures HeldAt(ttl, ops, m + 1, phone, entry) {
      StandsOneMore(ttl, ops, start, m, k, phone, entry);
    }
    HeldThroughout(ttl, ops, i, k, phone, entry);
  }

  lemma ClaimTakes(ttl: int, ops: seq<Op>, i: nat, phone: string)
    requires Claims(ttl, ops, i, phone)
    ensures HeldAt(ttl, ops, i + 1, phone, Entry(ops[i].requestId, ops[i].now))
  {
    assert ops[..i + 1] == ops[..i] + [ops[i]];
    RunSnoc(ttl, ops[..i], ops[i]);
  }

  lemma NextKeepsSlot(ttl: int, ops: seq<Op>, start: int, k: nat, phone: string, entry: Entry)
    requires Regular(ops, start) && k < |ops| && HeldAt(ttl, ops, k, phone, entry)
    requires LastClock(ops[..k + 1], start) - entry.openedAt < ttl && Spares(ttl, ops, k, phone)
    ensures HeldAt(ttl, ops, k + 1, phone, entry)
  {
    RegularPrefix(ops, start, k);
    RunIsFaithful(ttl, ops[..k], start);
    assert ops[..k + 1] == ops[..k] + [ops[k]];
    RunSnoc(ttl, ops[..k], ops[k]);
    assert ops[..k + 1][..k] == ops[..k];
    StepKeepsSlot(Run(ttl, ops[..k]), ttl, LastClock(ops[..k], start), ops[k], phone, entry);
  }

  lemma RegularPrefix(ops: seq<Op>, start: int, n: nat)
    requires Regular(ops, start) && n <= |ops|
    ensures Regular(ops[..n], start)
  {
    forall i | 0 <= i < n
      ensures LastClock(ops[..n][..i], start) <= Clock(ops[..n][i], LastClock(ops[..n][..i], start))
              && (ops[..n][i].OpenOp? ==> ops[..n][i].phone != "" && ops[..n][i].requestId != "")
    {
      assert ops[..n][..i] == ops[..i] && ops[..n][i] == ops[i];
    }
  }

  /**
   Two claims of a phone less than a TTL apart have a release of it between them, or a restart that read a
   file from which an opening row of that phone was missing.
   */
  lemma CloseClaimsAreSeparated(ttl: int, ops: seq<Op>, start: int, i: nat, j: nat, phone: string)
    requires Regular(ops, start) && i < j && Claims(ttl, ops, i, phone) && Claims(ttl, ops, j, phone)
    requires ops[j].now - ops[i].now < ttl
    ensures exists m :: i < m < j && !Spares(ttl, ops, m, phone)
  {
    if forall m :: i < m < j ==> Spares(ttl, ops, m, phone) {
      assert LastClock(ops[..j], start) <= Clock(ops[j], LastClock(ops[..j], start));
      ClaimTakes(ttl, ops, i, phone);
      SlotStands(ttl, ops, start, i + 1, j, phone, Entry(ops[i].requestId, ops[i].now));
    }
  }

  /** How a lost opening row unseparates two claims. */
  lemma LostOpeningUnseparatesClaims(ttl: int, phone: string, a: string, b: string, t: int, u: int, lost: set<nat>)
    requires 0 in lost
    ensures
      var ops := [OpenOp(phone, a, t), ReloadOp(lost), OpenOp(phone, b, u)];
      Claims(ttl, ops, 0, phone) && Claims(ttl, ops, 2, phone)
  {
    var first, second, third := OpenOp(phone, a, t), ReloadOp(lost), OpenOp(phone, b, u);
    var ops := [first, second, third];
    assert ops[..0] == [] && ops[..2] == [first] + [second];
    RunOfOne(ttl, first);
    RunSnoc(ttl, [first], second);
    NothingIsReloaded(Do(Slots(map[], []), ttl, first), ttl, lost);
  }

  lemma RunOfOne(ttl: int, op: Op)
    ensures Run(ttl, [op]) == Do(Slots(map[], []), ttl, op)
  {
    RunSnoc(ttl, [], op);
    assert [] + [op] == [op];
  }

  lemma NothingIsReloaded(s: Slots, ttl: int, lost: set<nat>)
    requires |s.audit| == 1 && 0 in lost
    ensures Do(s, ttl, ReloadOp(lost)).items == map[]
  {
    assert s.audit[..0] == [];
    assert Without(s.audit, lost) == Without(s.audit[..0], lost) == [];
  }

  // ----- What a sweep leaves -----

  lemma {:induction false} SweepLeavesTheFresh(s: Slots, ttl: int, now: int, order: seq<string>)
    ensures Sweep(s, ttl, now, order).items ==
            map phone | phone in s.items && !(phone in order && Stale(s.items, ttl, phone, now)) :: s.items[phone]
  {
    if order != [] {
      var front, last := order[..|order| - 1], order[|order| - 1];
      SweepLeavesTheFresh(s, ttl, now, front);
      assert forall phone :: phone in order <==> phone in front || phone == last;
    }
  }

  // ----- The object -----

  /** The row that says a slot outlived its time. */
  ghost predicate ExpiryRow(row: Row, items: Items, ttl: int, now: int) {
    && row.Slot? && row.phone in items && now - items[row.phone].openedAt >= ttl
    && row == Slot(TimedOut, items[row.phone].requestId, row.phone, now)
  }

  /** One such row for each of the slots that a sweep from `before` to `items` has dropped. */
  ghost predicate Swept(rows: seq<Row>, before: Items, items: Items, ttl: int, now: int) {
    && (forall i :: 0 <= i < |rows| ==> ExpiryRow(rows[i], before, ttl, now) && rows[i].phone !in items)
    && (forall i, j :: 0 <= i < j < |rows| ==> rows[i] != rows[j])
  }

  lemma SweptSnoc(rows: seq<Row>, before: Items, items: Items, ttl: int, now: int, phone: string)
    requires Swept(rows, before, items, ttl, now) && phone in items && phone in before && items[phone] == before[phone]
    requires now - before[phone].openedAt >= ttl
    ensures Swept(rows + [Slot(TimedOut, before[phone].requestId, phone, now)], before, items - {phone}, ttl, now)
  {
  }

  /** `audit` is the content of the adapter's audit file. The clock reading is a parameter. */
  class PendingSet {
    const ttl: int
    var items: Items
    var audit: seq<Row>

    ghost function View(): Slots
      reads this
    {
      Slots(items, audit)
    }

    constructor (ttl: int, audit: seq<Row>)
      ensures this.ttl == ttl && View() == Slots(map[], audit)
    {
      this.ttl, this.items, this.audit := ttl, map[], audit;
    }

    method Emit(kind: RowKind, requestId: string, phone: string, now: int)
      modifies this`audit
      ensures audit == old(audit) + [Slot(kind, requestId, phone, now)]
    {
      audit := audit + [Slot(kind, requestId, phone, now)];
    }

    /** Any other row the adapter writes to the same file. */
    method Write(text: string)
      modifies this`audit
      ensures audit == old(audit) + [Unrelated(text)]
    {
      audit := audit + [Unrelated(text)];
    }

    /** False stands for `ErrPhoneBusy`. */
    method OpenPending(phone: string, requestId: string, now: int) returns (claimed: bool)
      modifies this
      ensures View() == Open(old(View()), ttl, phone, requestId, now)
      ensures claimed <==> !Busy(old(items), ttl, phone, now)
      ensures claimed <==> phone !in old(items) || now - old(items)[phone].openedAt >= ttl
      ensures items == if claimed then old(items)[phone := Entry(requestId, now)] else old(items)
      ensures audit == old(audit)
                       + (if claimed && phone in old(items) then [Slot(TimedOut, old(items)[phone].requestId, phone, now)] else [])
                       + (if claimed then [Slot(Opened, requestId, phone, now)] else [])
      ensures forall clock :: old(Faithful(View(), clock)) && clock <= now && phone != "" && requestId != "" ==> Faithful(View(), now)
    {
      forall clock | Faithful(View(), clock) && clock <= now && phone != "" && requestId != ""
        ensures Faithful(Open(View(), ttl, phone, requestId, now), now)
      {
        OpenFaithful(View(), ttl, clock, phone, requestId, now);
      }
      if phone in items {
        var existing := items[phone];
        if now - existing.openedAt < ttl {
          return false;
        }
        items := items - {phone};
        Emit(TimedOut, existing.requestId, phone, now);
      }
      items := items[phone := Entry(requestId, now)];
      Emit(Opened, requestId, phone, now);
      return true;
    }

    method Resolve(phone: string, now: int) returns (requestId: Option<string>)
      modifies this
      ensures View() == Expire(old(View()), ttl, phone, now)
      ensures requestId == if phone in old(items) && now - old(items)[phone].openedAt < ttl then Some(old(items)[phone].requestId)
                           else None
      ensures items == if requestId.None? then old(items) - {phone} else old(items)
      ensures audit == old(audit) + if requestId.None? && phone in old(items)
                                    then [Slot(TimedOut, old(items)[phone].requestId, phone, now)] else []
    {
      if phone !in items {
        return None;
      }
      var entry := items[phone];
      if now - entry.openedAt >= ttl {
        items := items - {phone};
        Emit(TimedOut, entry.requestId, phone, now);
        return None;
      }
      return Some(entry.requestId);
    }

    method Release(phone: string, now: int)
      modifies this
      ensures View() == Free(old(View()), phone, now)
      ensures items == old(items) - {phone}
      ensures audit == old(audit) + if phone in old(items) then [Slot(Released, old(items)[phone].requestId, phone, now)] else []
    {
      if phone !in items {
        return;
      }
      var entry := items[phone];
      items := items - {phone};
      Emit(Released, entry.requestId, phone, now);
    }

    /** The body of the sweep. */
    method DropIfStale(phone: string, now: int) returns (dropped: bool)
      requires phone in items
      modifies this
      ensures View() == Expire(old(View()), ttl, phone, now)
      ensures dropped <==> now - old(items)[phone].openedAt >= ttl
      ensures items == if dropped then old(items) - {phone} else old(items)
      ensures |items| == |old(items)| - if dropped then 1 else 0
      ensures audit == old(audit) + if dropped then [Slot(TimedOut, old(items)[phone].requestId, phone, now)] else []
    {
      dropped := now - items[phone].openedAt >= ttl;
      if dropped {
        var entry := items[phone];
        assert (items - {phone}).Keys == items.Keys - {phone};
        assert |items - {phone}| == |(items - {phone}).Keys| && |items| == |items.Keys|;
        items := items - {phone};
        Emit(TimedOut, entry.requestId, phone, now);
      }
    }

    /** The order the map is walked in is up to the runtime; `order` reports it. */
    method ExpireDue(now: int) returns (count: nat, ghost order: seq<string>, ghost rows: seq<Row>)
      modifies this
      ensures View() == Sweep(old(View()), ttl, now, order)
      ensures items == map phone | phone in old(items) && now - old(items)[phone].openedAt < ttl :: old(items)[phone]
      ensures count == |old(items)| - |items| == |rows| && audit == old(audit) + rows
      ensures Swept(rows, old(items), items, ttl, now)
    {
      ghost var before := View();
      count, order, rows := 0, [], [];
      var left := items.Keys;
      while left != {}
        invariant left <= items.Keys <= before.items.Keys
        invariant View() == Sweep(before, ttl, now, order)
        invariant forall phone :: phone in items ==> items[phone] == before.items[phone]
        invariant forall phone :: phone in before.items ==> phone in left || phone in order
        invariant count + |items| == |before.items| && count == |rows| && audit == before.audit + rows
        invariant Swept(rows, before.items, items, ttl, now)
        decreases |left|
      {
        var phone :| phone in left;
        left := left - {phone};
        ghost var order' := order + [phone];
        assert order'[..|order|] == order;
        ghost var mid := items;
        var dropped := DropIfStale(phone, now);
        if dropped {
          SweptSnoc(rows, before.items, mid, ttl, now, phone);
          rows := rows + [Slot(TimedOut, before.items[phone].requestId, phone, now)];
          count := count + 1;
        }
        order := order';
      }
      SweepLeavesTheFresh(before, ttl, now, order);
    }

    /** A missing file is a no-op. */
    method ReplayFromAudit(file: Option<seq<Row>>)
      modifies this`items
      ensures file.None? ==> items == old(items)
      ensures file.Some? ==> items == Replay(old(items), file.value)
    {
      if file.None? {
        return;
      }
      var lines := file.value;
      var rows := [];
      for i := 0 to |lines|
        invariant rows == Relevant(lines[..i])
      {
        assert lines[..i + 1][..i] == lines[..i];
        if lines[i].Slot? && lines[i].phone != "" && lines[i].requestId != "" {
          rows := rows + [lines[i]];
        }
      }
      assert lines[..|lines|] == lines;
      rows := StableSort(rows);
      ghost var before := items;
      for i := 0 to |rows|
        invariant items == ApplyRows(before, rows[..i])
      {
        assert rows[..i + 1][..i] == rows[..i];
        match rows[i]
        case Slot(kind, requestId, phone, at) =>
          if kind.Opened? {
            items := items[phone := Entry(requestId, at)];
          } else if phone in items && items[phone].requestId == requestId {
            items := items - {phone};
          }
        case Unrelated(_) =>
      }
      assert rows[..|rows|] == rows;
    }
  }
}
