/** The outbox table and the SQL statements that touch it, as values. */
module OutboxTable {
  import opened Common
  import opened Leases

  type EventId = nat

  datatype Status = Pending | Processing | Processed

  datatype Row = Row(
    payload: Payload,
    createdAt: nat,
    status: Status,
    lockedUntil: Option<nat>,
    processedAt: Option<nat>)

  type Rows = map<EventId, Row>

  /** The SET list of each UPDATE statement of the repository. */
  datatype Assignment =
    | ToProcessing(until: nat)
    | ToProcessed(at: nat)
    | ToPending

  function FreshRow(payload: Payload, createdAt: nat): Row {
    Row(payload, createdAt, Pending, None, None)
  }

  function Assign(r: Row, a: Assignment): Row {
    match a
    case ToProcessing(until) => r.(status := Processing, lockedUntil := Some(until))
    case ToProcessed(at) => r.(status := Processed, processedAt := Some(at), lockedUntil := None)
    case ToPending => r.(status := Pending, lockedUntil := None)
  }

  /** UPDATE ... SET a WHERE event_id IN (ids). Unknown ids are ignored, as in SQL. */
  function Update(rows: Rows, ids: set<EventId>, a: Assignment): Rows {
    map id | id in rows :: if id in ids then Assign(rows[id], a) else rows[id]
  }

  function StaleIds(rows: Rows, at: nat): set<EventId> {
    set id | id in rows && rows[id].status == Processing
             && rows[id].lockedUntil.Some? && Stale(rows[id].lockedUntil.value, at)
  }

  function PendingIds(rows: Rows): set<EventId> {
    set id | id in rows && rows[id].status == Pending
  }

  function UnprocessedIds(rows: Rows): set<EventId> {
    set id | id in rows && rows[id].status != Processed
  }

  /** status is 'processing' exactly when locked_until is set. */
  ghost predicate LeaseMatchesStatus(rows: Rows) {
    forall id :: id in rows ==> (rows[id].status == Processing <==> rows[id].lockedUntil.Some?)
  }

  /** No row disappears, and the columns written at insertion never change. */
  ghost predicate KeepsEvents(rows: Rows, rows': Rows) {
    forall id :: id in rows ==>
      id in rows' && rows'[id].payload == rows[id].payload && rows'[id].createdAt == rows[id].createdAt
  }

  /**
   SELECT ... WHERE status = 'pending' ORDER BY created_at LIMIT count FOR UPDATE SKIP LOCKED:
   any answer the database may give, ties in created_at being broken at will.
   */
  ghost predicate IsSelection(rows: Rows, locked: set<EventId>, count: nat, ids: seq<EventId>) {
    && Distinct(ids)
    && |ids| <= count
    && (forall i :: 0 <= i < |ids| ==> ids[i] in PendingIds(rows) - locked)
    && (forall i, j :: 0 <= i < j < |ids| ==> rows[ids[i]].createdAt <= rows[ids[j]].createdAt)
    && (forall id :: id in PendingIds(rows) - locked && id !in ids ==>
          |ids| == count && forall i :: 0 <= i < |ids| ==> rows[ids[i]].createdAt <= rows[id].createdAt)
  }

  function Elements(ids: seq<EventId>): set<EventId> {
    set i | 0 <= i < |ids| :: ids[i]
  }

  ghost predicate IsOldest(rows: Rows, candidates: set<EventId>, id: EventId)
    requires candidates <= rows.Keys
  {
    id in candidates && forall other :: other in candidates ==> rows[id].createdAt <= rows[other].createdAt
  }

  lemma {:induction false} OldestExists(rows: Rows, candidates: set<EventId>) returns (id: EventId)
    requires candidates <= rows.Keys && candidates != {}
    ensures IsOldest(rows, candidates, id)
  {
    var c :| c in candidates;
    if candidates == {c} {
      id := c;
    } else {
      var rest := OldestExists(rows, candidates - {c});
      id := if rows[c].createdAt <= rows[rest].createdAt then c else rest;
    }
  }

  /** The database can always answer the claim query. */
  lemma {:induction false} SelectionExists(rows: Rows, locked: set<EventId>, count: nat) returns (ids: seq<EventId>)
    ensures IsSelection(rows, locked, count, ids)
    decreases count
  {
    var free := PendingIds(rows) - locked;
    if count == 0 || free == {} {
      ids := [];
    } else {
      var first := OldestExists(rows, free);
      var rest := SelectionExists(rows, locked + {first}, count - 1);
      ids := [first] + rest;
      assert PendingIds(rows) - (locked + {first}) == free - {first};
      forall id | id in free && id !in ids
        ensures |ids| == count && forall i :: 0 <= i < |ids| ==> rows[ids[i]].createdAt <= rows[id].createdAt
      {
        assert id in PendingIds(rows) - (locked + {first}) && id !in rest;
      }
    }
  }
}
