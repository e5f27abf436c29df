// The paged history of closed notification receipts (src/board/server.ts): one
// page of the route, and a client that follows its cursor to the end.
module ReceiptPages {
  import opened Outcomes

  datatype Row = Row(id: nat, agentId: string)

  const LEDGER_PAGE: nat := 100
  const MAX_LIMIT: nat := 100
  const DEFAULT_LIMIT: nat := 30

  // A query number as the route reads it: anything that is no safe integer is None.
  function OffsetOf(raw: Option<int>): nat {
    if raw.Some? && raw.value >= 0 then raw.value else 0
  }

  function LimitOf(raw: Option<int>): (limit: nat)
    ensures 1 <= limit <= MAX_LIMIT
  {
    var asked := if raw.Some? && raw.value > 0 then raw.value else DEFAULT_LIMIT;
    if asked > MAX_LIMIT then MAX_LIMIT else asked
  }

  // What a caller asks for is what it gets: a limit of 1 to 100 as it stands, a
  // larger one as 100, none or no positive one as 30; an offset from 0 on as it
  // stands, any other as 0.
  lemma QueryIsTaken(raw: Option<int>)
    ensures forall n :: 1 <= n <= 100 && raw == Some(n) ==> LimitOf(raw) == n
    ensures forall n :: n > 100 && raw == Some(n) ==> LimitOf(raw) == 100
    ensures raw.None? || raw.value <= 0 ==> LimitOf(raw) == 30
    ensures forall n :: n >= 0 && raw == Some(n) ==> OffsetOf(raw) == n
    ensures raw.None? || raw.value < 0 ==> OffsetOf(raw) == 0
  {
  }

  // The ledger's rows from an offset on, at most a page of them.
  function ListNotifications(table: seq<Row>, offset: nat): seq<Row> {
    if offset >= |table| then []
    else if offset + LEDGER_PAGE >= |table| then table[offset..]
    else table[offset..offset + LEDGER_PAGE]
  }

  // The closed receipts among some rows, in their order.
  function ClosedRows(rows: seq<Row>, isClosed: string -> bool): seq<Row> {
    if |rows| == 0 then []
    else ClosedRows(rows[..|rows| - 1], isClosed)
         + (if isClosed(rows[|rows| - 1].agentId) then [rows[|rows| - 1]] else [])
  }

  // The rows between two cursors; a cursor past the end points at the end.
  function Between(table: seq<Row>, a: nat, b: nat): seq<Row>
    requires a <= b
  {
    if a >= |table| then [] else if b >= |table| then table[a..] else table[a..b]
  }

  lemma {:induction false} ClosedInParts(a: seq<Row>, b: seq<Row>, isClosed: string -> bool)
    ensures ClosedRows(a + b, isClosed) == ClosedRows(a, isClosed) + ClosedRows(b, isClosed)
  {
    if |b| == 0 {
      assert a + b == a;
    } else {
      ClosedInParts(a, b[..|b| - 1], isClosed);
      assert (a + b)[..|a + b| - 1] == a + b[..|b| - 1];
    }
  }

  lemma BetweenInParts(table: seq<Row>, a: nat, b: nat, c: nat)
    requires a <= b <= c
    ensures Between(table, a, c) == Between(table, a, b) + Between(table, b, c)
  {
  }

  lemma NothingBetween(table: seq<Row>, offset: nat, isClosed: string -> bool)
    ensures ClosedRows(Between(table, offset, offset), isClosed) == []
  {
  }

  lemma PageIsBetween(table: seq<Row>, offset: nat, examined: nat)
    requires examined <= |ListNotifications(table, offset)|
    ensures var page := ListNotifications(table, offset);
            && page[..examined] == Between(table, offset, offset + examined)
            && (if offset > |table| then page == [] else offset + |page| <= |table|)
            && (|page| < LEDGER_PAGE && offset <= |table| ==> offset + |page| == |table|)
            && (examined > 0 ==> offset + examined <= |table| && page[examined - 1] == table[offset + examined - 1])
  {
  }

  // The rows of one ledger page, until the receipts are enough.
  method Examine(page: seq<Row>, isClosed: string -> bool, before: seq<Row>, limit: nat)
    returns (receipts: seq<Row>, examined: nat)
    requires |before| < limit
    ensures examined <= |page| && receipts == before + ClosedRows(page[..examined], isClosed)
    ensures |receipts| <= limit && (|receipts| < limit ==> examined == |page|)
    ensures |receipts| == limit ==> examined > 0 && isClosed(page[examined - 1].agentId)
  {
    receipts, examined := before, 0;
    while examined < |page|
      invariant examined <= |page| && |receipts| < limit
      invariant receipts == before + ClosedRows(page[..examined], isClosed)
    {
      var row := page[examined];
      examined := examined + 1;
      assert page[..examined][..examined - 1] == page[..examined - 1];
      if !isClosed(row.agentId) {
        continue;
      }
      receipts := receipts + [row];
      if |receipts| >= limit {
        break;
      }
    }
  }

  // One page of the route: the closed receipts from the offset on, up to the
  // limit. A full page ends right after its last receipt, so that the next one
  // skips nothing; any other page reaches the end of the table.
  method Page(table: seq<Row>, isClosed: string -> bool, offsetRaw: Option<int>, limitRaw: Option<int>)
    returns (receipts: seq<Row>, nextOffset: nat, hasMore: bool)
    ensures var offset, limit := OffsetOf(offsetRaw), LimitOf(limitRaw);
            && offset <= nextOffset && receipts == ClosedRows(Between(table, offset, nextOffset), isClosed)
            && |receipts| <= limit && (hasMore <==> |receipts| == limit)
            && (hasMore ==> offset < nextOffset <= |table| && isClosed(table[nextOffset - 1].agentId))
            && (!hasMore ==> nextOffset == if offset >= |table| then offset else |table|)
  {
    hide ClosedRows, Between, ListNotifications, LimitOf, OffsetOf;
    var offset, limit := OffsetOf(offsetRaw), LimitOf(limitRaw);
    receipts, nextOffset := [], offset;
    NothingBetween(table, offset, isClosed);
    while true
      invariant offset <= nextOffset && |receipts| < limit
      invariant nextOffset <= |table| || nextOffset == offset
      invariant receipts == ClosedRows(Between(table, offset, nextOffset), isClosed)
      decreases |table| - nextOffset
    {
      var page := ListNotifications(table, nextOffset);
      var examined;
      receipts, examined := Examine(page, isClosed, receipts, limit);
      BetweenInParts(table, offset, nextOffset, nextOffset + examined);
      PageIsBetween(table, nextOffset, examined);
      ClosedInParts(Between(table, offset, nextOffset), page[..examined], isClosed);
      nextOffset := nextOffset + examined;
      if |receipts| >= limit || |page| < LEDGER_PAGE {
        break;
      }
    }
    hasMore := |receipts| >= limit;
  }

  lemma EverythingBetween(table: seq<Row>)
    ensures Between(table, 0, |table|) == table
  {
  }

  // ---- Following the cursor --------------------------------------------------------

  // Following `nextOffset` until `hasMore` is false yields every closed receipt
  // exactly once, in the table's order, in as many full pages as they fill and
  // one that is not full.
  method FollowAll(table: seq<Row>, isClosed: string -> bool, limitRaw: Option<int>)
    returns (all: seq<Row>, pages: nat)
    ensures all == ClosedRows(table, isClosed)
    ensures (pages - 1) * LimitOf(limitRaw) <= |all| < pages * LimitOf(limitRaw)
  {
    hide ClosedRows, Between, LimitOf;
    NothingBetween(table, 0, isClosed);
    EverythingBetween(table);
    var offset, hasMore := 0, true;
    all, pages := [], 0;
    while hasMore
      invariant offset <= |table| && (!hasMore ==> offset == |table|)
      invariant all == ClosedRows(Between(table, 0, offset), isClosed)
      invariant if hasMore then |all| == pages * LimitOf(limitRaw)
                else (pages - 1) * LimitOf(limitRaw) <= |all| < pages * LimitOf(limitRaw)
      decreases |table| - offset, hasMore
    {
      var receipts, nextOffset, more := Page(table, isClosed, Some(offset), limitRaw);
      BetweenInParts(table, 0, offset, nextOffset);
      ClosedInParts(Between(table, 0, offset), Between(table, offset, nextOffset), isClosed);
      all, pages, offset, hasMore := all + receipts, pages + 1, nextOffset, more;
    }
  }
}
