/**
 * The classification half of flushing discovery records: which records count as
 * pending updates, which are double-checked against the object table, and, after
 * that check, which objects are deleted, which get a status update, which only a
 * lastcheck bump and which a full SET clause of the discovery table.
 *
 * The hashset of records is a map from object id to record. Every list the flush
 * builds is sorted by id before it is used, so each is modelled as a set (or a
 * map keyed by id) and hashset iteration order plays no part.
 */
module LldFlush {
  import opened Options
  import opened LldTypes
  import opened Numbers

  // ----- First pass: counting pending updates -----

  /** Whether the first pass counts a record as a pending update: no flags at all,
      or the deletion flag alone, do not count. */
  predicate Counted(d: Discovery)
  {
    d.flags != {} && d.flags != {DeleteObject}
  }

  function PendingIds(m: map<Id, Discovery>): set<Id>
  {
    set id | id in m && Counted(m[id])
  }

  /** The ids whose object status must be locked and double-checked in the database. */
  function StatusCheckIds(m: map<Id, Discovery>): (ids: set<Id>)
    ensures ids <= PendingIds(m)
  {
    set id | id in m && Counted(m[id]) && UpdateObjectStatus in m[id].flags
  }

  /** The first loop of the flush: count the pending updates and collect the ids
      whose status update must be double-checked. */
  method CountUpdates(m: map<Id, Discovery>) returns (updatesNum: nat, updIds: set<Id>)
    ensures updatesNum == |PendingIds(m)|
    ensures updIds == StatusCheckIds(m)
  {
    updatesNum, updIds := 0, {};
    var todo := m.Keys;
    ghost var counted: set<Id> := {};
    while todo != {}
      invariant todo <= m.Keys
      invariant counted == set id | id in m.Keys - todo && Counted(m[id])
      invariant updIds == set id | id in m.Keys - todo && Counted(m[id]) && UpdateObjectStatus in m[id].flags
      invariant updatesNum == |counted|
      decreases todo
    {
      var id :| id in todo;
      todo := todo - {id};
      if Counted(m[id]) {
        if UpdateObjectStatus in m[id].flags {
          updIds := updIds + {id};
        }
        counted := counted + {id};
        updatesNum := updatesNum + 1;
      }
    }
    assert counted == PendingIds(m);
  }

  // ----- Double-check against the object table -----

  /** A row of the object table came back for this record: it exists, and a status
      update that the table already reflects is dropped. */
  function MarkExisting(d: Discovery, dbStatus: UChar): (r: Discovery)
    ensures UpdateObjectExists in r.flags
    ensures UpdateObjectStatus in r.flags <==> UpdateObjectStatus in d.flags && dbStatus != d.objectStatus
    ensures r.flags - {UpdateObjectStatus, UpdateObjectExists} == d.flags - {UpdateObjectStatus, UpdateObjectExists}
    ensures r == d.(flags := r.flags)
  {
    var found := d.(flags := d.flags + {UpdateObjectExists});
    if UpdateObjectStatus in found.flags && dbStatus == found.objectStatus
    then found.(flags := found.flags - {UpdateObjectStatus})
    else found
  }

  /** No row came back for a checked record: the object is gone and the record's
      flags are reset, so the flush leaves it alone. */
  function ResetIfRemoved(d: Discovery): (r: Discovery)
    ensures UpdateObjectExists in d.flags ==> r == d
    ensures UpdateObjectExists !in d.flags ==> r == d.(flags := {})
  {
    if UpdateObjectExists !in d.flags then d.(flags := {}) else d
  }

  /** A record after the double-check; `selected` says whether its id was checked and
      `row` is the status the table holds for it, if the object is still there. */
  function CheckedRecord(d: Discovery, selected: bool, row: Option<UChar>): Discovery
  {
    if !selected then d
    else ResetIfRemoved(if row.Some? then MarkExisting(d, row.value) else d)
  }

  /** All records after the double-check of `updIds` against the object table
      `table` (object id to its status column). */
  function CheckedInDb(m: map<Id, Discovery>, updIds: set<Id>, table: map<Id, UChar>): (r: map<Id, Discovery>)
    ensures r.Keys == m.Keys
    ensures forall id | id in m && id !in updIds :: r[id] == m[id]
  {
    map id | id in m :: CheckedRecord(m[id], id in updIds, if id in table then Some(table[id]) else None)
  }

  /** What the double-check does to one checked record. */
  lemma CheckedRecordEffect(m: map<Id, Discovery>, updIds: set<Id>, table: map<Id, UChar>, id: Id)
    requires id in m && id in updIds
    ensures var d, r := m[id], CheckedInDb(m, updIds, table)[id];
      && (id in table ==>
            UpdateObjectExists in r.flags
            && (UpdateObjectStatus in r.flags <==> UpdateObjectStatus in d.flags && table[id] != d.objectStatus)
            && r.flags - {UpdateObjectStatus, UpdateObjectExists} == d.flags - {UpdateObjectStatus, UpdateObjectExists})
      && (id !in table && UpdateObjectExists !in d.flags ==> r.flags == {})
      && (id !in table && UpdateObjectExists in d.flags ==> r == d)
      && r == d.(flags := r.flags)
  {
  }

  /** Checking no ids changes nothing. */
  lemma CheckedInDbNothing(m: map<Id, Discovery>, table: map<Id, UChar>)
    ensures CheckedInDb(m, {}, table) == m
  {
  }

  // ----- Second pass: preparing the updates -----

  predicate ToDelete(d: Discovery)
  {
    DeleteObject in d.flags
  }

  predicate ToUpdateStatus(d: Discovery)
  {
    !ToDelete(d) && UpdateObjectStatus in d.flags
  }

  /** Only lastcheck changes in the discovery table: batched in one statement. */
  predicate LastcheckOnly(d: Discovery)
  {
    !ToDelete(d) && d.flags * UPDATE == {UpdateLastcheck}
  }

  /** Other discovery-table columns change: the record gets its own SET clause. */
  predicate FullUpdate(d: Discovery)
  {
    !ToDelete(d) && d.flags * UPDATE != {} && d.flags * UPDATE != {UpdateLastcheck}
  }

  /** One column assignment of a discovery-table SET clause. */
  datatype Assignment =
    | Lastcheck(now: Timestamp)
    | Status(discoveryStatus: UChar)
    | DisableSource(disableSource: UChar)
    | TsDelete(tsDelete: Timestamp)
    | TsDisable(tsDisable: Timestamp)

  /** The assignments of a record's SET clause, in the source's column order. */
  function Columns(d: Discovery, now: Timestamp): seq<Assignment>
  {
    (if UpdateLastcheck in d.flags then [Lastcheck(now)] else [])
    + (if UpdateDiscoveryStatus in d.flags then [Status(d.discoveryStatus)] else [])
    + (if UpdateDisableSource in d.flags then [DisableSource(d.disableSource)] else [])
    + (if UpdateTsDelete in d.flags then [TsDelete(d.tsDelete)] else [])
    + (if UpdateTsDisable in d.flags then [TsDisable(d.tsDisable)] else [])
  }

  /** The position of an assignment's column in the source's column order. */
  function ColumnIndex(a: Assignment): nat
  {
    match a
    case Lastcheck(_) => 0
    case Status(_) => 1
    case DisableSource(_) => 2
    case TsDelete(_) => 3
    case TsDisable(_) => 4
  }

  /** The clause lists exactly the flagged columns, with the record's values. */
  lemma ColumnsExact(d: Discovery, now: Timestamp)
    ensures Lastcheck(now) in Columns(d, now) <==> UpdateLastcheck in d.flags
    ensures Status(d.discoveryStatus) in Columns(d, now) <==> UpdateDiscoveryStatus in d.flags
    ensures DisableSource(d.disableSource) in Columns(d, now) <==> UpdateDisableSource in d.flags
    ensures TsDelete(d.tsDelete) in Columns(d, now) <==> UpdateTsDelete in d.flags
    ensures TsDisable(d.tsDisable) in Columns(d, now) <==> UpdateTsDisable in d.flags
    ensures forall a | a in Columns(d, now) ::
      a in [Lastcheck(now), Status(d.discoveryStatus), DisableSource(d.disableSource),
            TsDelete(d.tsDelete), TsDisable(d.tsDisable)]
  {
  }

  /** The assignments of `cols` are in strictly increasing column order. */
  predicate InColumnOrder(cols: seq<Assignment>)
  {
    forall i, j | 0 <= i < j < |cols| :: ColumnIndex(cols[i]) < ColumnIndex(cols[j])
  }

  predicate ColumnsBelow(cols: seq<Assignment>, k: nat)
  {
    forall i | 0 <= i < |cols| :: ColumnIndex(cols[i]) < k
  }

  /** Appending at most one assignment of column `k` after columns below `k`. */
  lemma InColumnOrderAppend(cols: seq<Assignment>, piece: seq<Assignment>, k: nat)
    requires InColumnOrder(cols) && ColumnsBelow(cols, k)
    requires |piece| <= 1 && forall i | 0 <= i < |piece| :: ColumnIndex(piece[i]) == k
    ensures InColumnOrder(cols + piece) && ColumnsBelow(cols + piece, k + 1)
  {
  }

  /** Each column appears at most once, and in the source's column order. */
  lemma ColumnsOrdered(d: Discovery, now: Timestamp)
    ensures InColumnOrder(Columns(d, now))
  {
    var c1 := if UpdateLastcheck in d.flags then [Lastcheck(now)] else [];
    var c2 := if UpdateDiscoveryStatus in d.flags then [Status(d.discoveryStatus)] else [];
    var c3 := if UpdateDisableSource in d.flags then [DisableSource(d.disableSource)] else [];
    var c4 := if UpdateTsDelete in d.flags then [TsDelete(d.tsDelete)] else [];
    var c5 := if UpdateTsDisable in d.flags then [TsDisable(d.tsDisable)] else [];
    PiecesInColumnOrder(c1, c2, c3, c4, c5);
    assert Columns(d, now) == c1 + c2 + c3 + c4 + c5;
  }

  /** Five pieces of at most one assignment each, of columns 0 to 4, in order. */
  lemma PiecesInColumnOrder(c1: seq<Assignment>, c2: seq<Assignment>, c3: seq<Assignment>,
                            c4: seq<Assignment>, c5: seq<Assignment>)
    requires |c1| <= 1 && |c2| <= 1 && |c3| <= 1 && |c4| <= 1 && |c5| <= 1
    requires forall i | 0 <= i < |c1| :: ColumnIndex(c1[i]) == 0
    requires forall i | 0 <= i < |c2| :: ColumnIndex(c2[i]) == 1
    requires forall i | 0 <= i < |c3| :: ColumnIndex(c3[i]) == 2
    requires forall i | 0 <= i < |c4| :: ColumnIndex(c4[i]) == 3
    requires forall i | 0 <= i < |c5| :: ColumnIndex(c5[i]) == 4
    ensures InColumnOrder(c1 + c2 + c3 + c4 + c5)
  {
    InColumnOrderAppend([], c1, 0);
    assert [] + c1 == c1;
    InColumnOrderAppend(c1, c2, 1);
    InColumnOrderAppend(c1 + c2, c3, 2);
    InColumnOrderAppend(c1 + c2 + c3, c4, 3);
    InColumnOrderAppend(c1 + c2 + c3 + c4, c5, 4);
  }

  /** A clause is empty exactly when none of the five column flags is set. */
  lemma ColumnsEmpty(d: Discovery, now: Timestamp)
    ensures Columns(d, now) == [] <==> d.flags * UPDATE == {}
  {
    ColumnsExact(d, now);
    NoColumnFlags(d.flags);
  }

  lemma NoColumnFlags(flags: Flags)
    ensures flags * UPDATE == {} <==>
      UpdateLastcheck !in flags && UpdateDiscoveryStatus !in flags && UpdateDisableSource !in flags
      && UpdateTsDelete !in flags && UpdateTsDisable !in flags
  {
    if flags * UPDATE == {} {
      assert UpdateLastcheck !in flags * UPDATE;
      assert UpdateDiscoveryStatus !in flags * UPDATE;
      assert UpdateDisableSource !in flags * UPDATE;
      assert UpdateTsDelete !in flags * UPDATE;
      assert UpdateTsDisable !in flags * UPDATE;
    }
  }

  /** The decimal digits of `n`, as `%d` and `%u` print a non-negative number:
      a non-empty digit string, without leading zeros, that reads back as `n`. */
  function Decimal(n: nat): (s: string)
    ensures |s| >= 1
    ensures forall i | 0 <= i < |s| :: IsDigit(s[i])
    ensures DigitsValue(s) == n
    ensures |s| > 1 ==> s[0] != '0'
    decreases n
  {
    var digit := ['0' + (n % 10) as char];
    if n < 10 then
      assert digit[..0] == [];
      digit
    else
      var front := Decimal(n / 10);
      assert (front + digit)[..|front|] == front;
      front + digit
  }

  function AssignmentText(a: Assignment): string
  {
    match a
    case Lastcheck(t) => "lastcheck=" + Decimal(t)
    case Status(s) => "status=" + Decimal(s)
    case DisableSource(s) => "disable_source=" + Decimal(s)
    case TsDelete(t) => "ts_delete=" + Decimal(t)
    case TsDisable(t) => "ts_disable=" + Decimal(t)
  }

  /** The text after "update <table> set": a space before the first assignment and a
      comma before each later one. */
  function RenderClause(cols: seq<Assignment>): string
  {
    if cols == [] then ""
    else
      var n := |cols| - 1;
      RenderClause(cols[..n]) + [if n == 0 then ' ' else ','] + AssignmentText(cols[n])
  }

  function CountChar(s: string, c: char): nat
  {
    if s == [] then 0 else CountChar(s[..|s| - 1], c) + (if s[|s| - 1] == c then 1 else 0)
  }

  lemma CountCharAppend(s: string, t: string, c: char)
    ensures CountChar(s + t, c) == CountChar(s, c) + CountChar(t, c)
    decreases |t|
  {
    if t == [] {
      assert s + t == s;
    } else {
      assert (s + t)[..|s + t| - 1] == s + t[..|t| - 1];
      CountCharAppend(s, t[..|t| - 1], c);
    }
  }

  lemma {:induction false} CountCharAbsent(s: string, c: char)
    requires forall i | 0 <= i < |s| :: s[i] != c
    ensures CountChar(s, c) == 0
    decreases |s|
  {
    if s != [] {
      CountCharAbsent(s[..|s| - 1], c);
    }
  }

  lemma NoCommaInText(a: Assignment)
    ensures CountChar(AssignmentText(a), ',') == 0
  {
    CountCharAbsent(AssignmentText(a), ',');
  }

  /** The rendered clause starts with a space and separates its assignments by
      exactly one comma each. */
  lemma {:induction false} RenderClauseCommaSeparated(cols: seq<Assignment>)
    requires cols != []
    ensures |RenderClause(cols)| > 0 && RenderClause(cols)[0] == ' '
    ensures CountChar(RenderClause(cols), ',') == |cols| - 1
  {
    var n := |cols| - 1;
    var delim: string := [if n == 0 then ' ' else ','];
    var front := RenderClause(cols[..n]);
    assert RenderClause(cols) == front + delim + AssignmentText(cols[n]);
    CountCharAppend(front + delim, AssignmentText(cols[n]), ',');
    CountCharAppend(front, delim, ',');
    NoCommaInText(cols[n]);
    assert CountChar(delim, ',') == (if n == 0 then 0 else 1);
    if n > 0 {
      RenderClauseCommaSeparated(cols[..n]);
    } else {
      assert front == "";
    }
  }

  lemma RenderClauseSnoc(cols: seq<Assignment>, a: Assignment)
    ensures RenderClause(cols + [a]) == RenderClause(cols) + [if cols == [] then ' ' else ','] + AssignmentText(a)
  {
    assert (cols + [a])[..|cols|] == cols;
  }

  /** Build the SET clause of one record the way the flush does, column by column
      with a running delimiter. */
  method BuildSetClause(d: Discovery, now: Timestamp) returns (clause: string)
    ensures clause == RenderClause(Columns(d, now))
  {
    var delim := ' ';
    clause := "";
    ghost var cols: seq<Assignment> := [];
    clause, delim := AppendColumn(clause, delim, cols, UpdateLastcheck in d.flags, Lastcheck(now));
    cols := cols + (if UpdateLastcheck in d.flags then [Lastcheck(now)] else []);
    clause, delim := AppendColumn(clause, delim, cols, UpdateDiscoveryStatus in d.flags, Status(d.discoveryStatus));
    cols := cols + (if UpdateDiscoveryStatus in d.flags then [Status(d.discoveryStatus)] else []);
    clause, delim := AppendColumn(clause, delim, cols, UpdateDisableSource in d.flags, DisableSource(d.disableSource));
    cols := cols + (if UpdateDisableSource in d.flags then [DisableSource(d.disableSource)] else []);
    clause, delim := AppendColumn(clause, delim, cols, UpdateTsDelete in d.flags, TsDelete(d.tsDelete));
    cols := cols + (if UpdateTsDelete in d.flags then [TsDelete(d.tsDelete)] else []);
    clause, delim := AppendColumn(clause, delim, cols, UpdateTsDisable in d.flags, TsDisable(d.tsDisable));
    cols := cols + (if UpdateTsDisable in d.flags then [TsDisable(d.tsDisable)] else []);
    assert cols == [] + Columns(d, now);
  }

  /** One step of the clause: when the column is flagged, write the delimiter and the
      assignment and switch the delimiter to a comma. */
  method AppendColumn(clause: string, delim: char, ghost cols: seq<Assignment>, flagged: bool, a: Assignment)
    returns (clause': string, delim': char)
    requires clause == RenderClause(cols) && delim == (if cols == [] then ' ' else ',')
    ensures clause' == RenderClause(cols + (if flagged then [a] else []))
    ensures delim' == (if cols + (if flagged then [a] else []) == [] then ' ' else ',')
  {
    if flagged {
      RenderClauseSnoc(cols, a);
      clause', delim' := clause + [delim] + AssignmentText(a), ',';
    } else {
      assert cols + [] == cols;
      clause', delim' := clause, delim;
    }
  }

  /** What the flush writes: the objects to delete, the new object statuses, the
      records whose lastcheck alone is bumped to `now`, and the SET clause of every
      other updated discovery record. */
  datatype FlushPlan = FlushPlan(
    deleteIds: set<Id>,
    statusUpdates: map<Id, UChar>,
    lastcheckIds: set<Id>,
    setClauses: map<Id, string>)

  /** The plan contributed by the records with ids in `keys`. */
  function PlanOver(m: map<Id, Discovery>, keys: set<Id>, now: Timestamp): FlushPlan
    requires keys <= m.Keys
  {
    FlushPlan(
      set id | id in keys && ToDelete(m[id]),
      map id | id in keys && ToUpdateStatus(m[id]) :: m[id].objectStatus,
      set id | id in keys && LastcheckOnly(m[id]),
      map id | id in keys && FullUpdate(m[id]) :: RenderClause(Columns(m[id], now)))
  }

  function PlanOf(m: map<Id, Discovery>, now: Timestamp): FlushPlan
  {
    PlanOver(m, m.Keys, now)
  }

  lemma PlanOverStep(m: map<Id, Discovery>, keys: set<Id>, id: Id, now: Timestamp)
    requires keys <= m.Keys && id in m && id !in keys
    ensures var p, q := PlanOver(m, keys, now), PlanOver(m, keys + {id}, now);
      && q.deleteIds == (if ToDelete(m[id]) then p.deleteIds + {id} else p.deleteIds)
      && q.statusUpdates == (if ToUpdateStatus(m[id]) then p.statusUpdates[id := m[id].objectStatus]
                             else p.statusUpdates)
      && q.lastcheckIds == (if LastcheckOnly(m[id]) then p.lastcheckIds + {id} else p.lastcheckIds)
      && q.setClauses == (if FullUpdate(m[id]) then p.setClauses[id := RenderClause(Columns(m[id], now))]
                          else p.setClauses)
  {
    DeleteIdsStep(m, keys, id, now);
    StatusUpdatesStep(m, keys, id, now);
    LastcheckIdsStep(m, keys, id, now);
    SetClausesStep(m, keys, id, now);
  }

  lemma DeleteIdsStep(m: map<Id, Discovery>, keys: set<Id>, id: Id, now: Timestamp)
    requires keys <= m.Keys && id in m && id !in keys
    ensures PlanOver(m, keys + {id}, now).deleteIds ==
      if ToDelete(m[id]) then PlanOver(m, keys, now).deleteIds + {id} else PlanOver(m, keys, now).deleteIds
  {
  }

  lemma StatusUpdatesStep(m: map<Id, Discovery>, keys: set<Id>, id: Id, now: Timestamp)
    requires keys <= m.Keys && id in m && id !in keys
    ensures PlanOver(m, keys + {id}, now).statusUpdates ==
      if ToUpdateStatus(m[id]) then PlanOver(m, keys, now).statusUpdates[id := m[id].objectStatus]
      else PlanOver(m, keys, now).statusUpdates
  {
  }

  lemma LastcheckIdsStep(m: map<Id, Discovery>, keys: set<Id>, id: Id, now: Timestamp)
    requires keys <= m.Keys && id in m && id !in keys
    ensures PlanOver(m, keys + {id}, now).lastcheckIds ==
      if LastcheckOnly(m[id]) then PlanOver(m, keys, now).lastcheckIds + {id} else PlanOver(m, keys, now).lastcheckIds
  {
  }

  lemma SetClausesStep(m: map<Id, Discovery>, keys: set<Id>, id: Id, now: Timestamp)
    requires keys <= m.Keys && id in m && id !in keys
    ensures PlanOver(m, keys + {id}, now).setClauses ==
      if FullUpdate(m[id]) then PlanOver(m, keys, now).setClauses[id := RenderClause(Columns(m[id], now))]
      else PlanOver(m, keys, now).setClauses
  {
    var p, q := PlanOver(m, keys, now).setClauses, PlanOver(m, keys + {id}, now).setClauses;
    var expected := if FullUpdate(m[id]) then p[id := RenderClause(Columns(m[id], now))] else p;
    assert q.Keys == expected.Keys;
    forall k | k in q ensures q[k] == expected[k] {
    }
  }

  /** The second loop of the flush: sort every record into the lists of the plan. */
  method PrepareUpdates(m: map<Id, Discovery>, now: Timestamp) returns (plan: FlushPlan)
    ensures plan == PlanOf(m, now)
  {
    plan := FlushPlan({}, map[], {}, map[]);
    var todo := m.Keys;
    ghost var done: set<Id> := {};
    while todo != {}
      invariant todo <= m.Keys && done == m.Keys - todo
      invariant plan == PlanOver(m, done, now)
      decreases todo
    {
      var id :| id in todo;
      var d := m[id];
      PlanOverStep(m, done, id, now);
      todo, done := todo - {id}, done + {id};
      if DeleteObject in d.flags {
        plan := plan.(deleteIds := plan.deleteIds + {id});
        continue;
      }
      if UpdateObjectStatus in d.flags {
        plan := plan.(statusUpdates := plan.statusUpdates[id := d.objectStatus]);
      }
      if d.flags * UPDATE != {} {
        if d.flags * UPDATE == {UpdateLastcheck} {
          plan := plan.(lastcheckIds := plan.lastcheckIds + {id});
        } else {
          var clause := BuildSetClause(d, now);
          plan := plan.(setClauses := plan.setClauses[id := clause]);
        }
      }
    }
  }

  /** Every record lands in at most one discovery-table list, and a record marked
      for deletion lands only in the delete list. A SET clause lists at least one
      column. */
  lemma PlanPartition(m: map<Id, Discovery>, now: Timestamp, id: Id)
    requires id in m
    ensures var p := PlanOf(m, now);
      && (id in p.deleteIds <==> DeleteObject in m[id].flags)
      && (id in p.deleteIds ==> id !in p.statusUpdates && id !in p.lastcheckIds && id !in p.setClauses)
      && (id in p.statusUpdates <==> DeleteObject !in m[id].flags && UpdateObjectStatus in m[id].flags)
      && (id in p.lastcheckIds <==> DeleteObject !in m[id].flags && m[id].flags * UPDATE == {UpdateLastcheck})
      && !(id in p.lastcheckIds && id in p.setClauses)
      && (id in p.setClauses ==> Columns(m[id], now) != [] && p.setClauses[id] == RenderClause(Columns(m[id], now)))
      && (DeleteObject !in m[id].flags && m[id].flags * UPDATE != {} ==> id in p.lastcheckIds || id in p.setClauses)
  {
    ColumnsEmpty(m[id], now);
  }

  /** A record marked only for deletion does not count as an update: when every
      record is unchanged or only marked for deletion, the flush stops before it
      prepares anything, so nothing is deleted. */
  lemma LoneDeletionsNotFlushed(m: map<Id, Discovery>)
    requires forall id | id in m :: m[id].flags == {} || m[id].flags == {DeleteObject}
    ensures PendingIds(m) == {}
  {
  }

  /** Once some record counts as an update, a record marked only for deletion is
      deleted. */
  lemma DeletionWithOtherUpdates(m: map<Id, Discovery>, table: map<Id, UChar>, now: Timestamp, id: Id, other: Id)
    requires id in m && m[id].flags == {DeleteObject}
    requires other in PendingIds(m)
    ensures PendingIds(m) != {}
    ensures id in PlanOf(CheckedInDb(m, StatusCheckIds(m), table), now).deleteIds
  {
  }

  /** An object that disappeared from the object table is left alone: its record's
      flags are reset, so it is neither deleted nor updated. */
  lemma RemovedObjectLeftAlone(m: map<Id, Discovery>, table: map<Id, UChar>, now: Timestamp, id: Id)
    requires id in StatusCheckIds(m) && id !in table && UpdateObjectExists !in m[id].flags
    ensures var p := PlanOf(CheckedInDb(m, StatusCheckIds(m), table), now);
      id !in p.deleteIds && id !in p.statusUpdates && id !in p.lastcheckIds && id !in p.setClauses
  {
    var c := CheckedInDb(m, StatusCheckIds(m), table);
    assert c[id].flags == {};
  }

  /** A status update that the object table already reflects is not written. */
  lemma MatchingStatusNotRewritten(m: map<Id, Discovery>, table: map<Id, UChar>, now: Timestamp, id: Id)
    requires id in StatusCheckIds(m) && id in table && table[id] == m[id].objectStatus
    ensures id !in PlanOf(CheckedInDb(m, StatusCheckIds(m), table), now).statusUpdates
  {
  }
}
