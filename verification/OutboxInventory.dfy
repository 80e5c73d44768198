/** cmd/bahia-migrate/outbox_transfer.go: a read-only inventory of the outbox in windows
    that a returned token chains together. */
module OutboxInventory {
  import opened Common
  import S = Sorting

  // ----- the table

  /** When a row was received, zero for never, and its id. */
  datatype Key = Key(receivedAt: nat, id: string)

  datatype Row = Row(key: Key, signed: bool, attempts: nat, lastError: string, target: string, pending: bool)

  predicate Before(a: Key, b: Key) {
    a.receivedAt < b.receivedAt || (a.receivedAt == b.receivedAt && S.StringLess(a.id, b.id))
  }

  /** The table in key order. */
  ghost predicate Ordered(table: seq<Row>) {
    forall i, j {:trigger Before(table[i].key, table[j].key)} :: 0 <= i < j < |table| ==>
      Before(table[i].key, table[j].key)
  }

  /** Those of the first `n` rows that come strictly after the cursor. */
  function After(table: seq<Row>, cursor: Option<Key>, n: nat): seq<Row>
    requires n <= |table|
  {
    if n == 0 then []
    else
      After(table, cursor, n - 1)
      + if cursor.None? || Before(cursor.value, table[n - 1].key) then [table[n - 1]] else []
  }

  function Take(rows: seq<Row>, limit: nat): seq<Row> {
    if limit < |rows| then rows[..limit] else rows
  }

  /** One query: the first rows after the cursor, at most `limit`. */
  function ListAfter(table: seq<Row>, cursor: Option<Key>, limit: nat): seq<Row> {
    Take(After(table, cursor, |table|), limit)
  }

  lemma BeforeTrans(a: Key, b: Key, c: Key)
    requires Before(a, b) && Before(b, c)
    ensures Before(a, c)
  {
    if a.receivedAt == b.receivedAt == c.receivedAt {
      S.StringLessTrans(a.id, b.id, c.id);
    }
  }

  lemma BeforeStrict(a: Key, b: Key)
    ensures !Before(a, a) && !(Before(a, b) && Before(b, a))
  {
    S.StringLessTotal(a.id, a.id);
    if Before(a, b) && Before(b, a) {
      BeforeTrans(a, b, a);
    }
  }

  /** The cursor for a place in the table: the row before it. */
  function CursorAt(table: seq<Row>, n: nat): Option<Key>
    requires n <= |table|
  {
    if n == 0 then None else Some(table[n - 1].key)
  }

  lemma {:induction false} AfterPlace(table: seq<Row>, n: nat, m: nat)
    requires Ordered(table) && n <= |table| && m <= |table|
    ensures After(table, CursorAt(table, n), m) == if n <= m then table[n..m] else []
    decreases m
  {
    if m > 0 {
      AfterPlace(table, n, m - 1);
      if 0 < n {
        BeforeStrict(table[n - 1].key, table[m - 1].key);
      }
    }
  }

  /** A query by the cursor of a place goes on from that place. */
  lemma ListFrom(table: seq<Row>, n: nat, limit: nat)
    requires Ordered(table) && n <= |table|
    ensures var rows := ListAfter(table, CursorAt(table, n), limit);
      && |rows| == (if n + limit < |table| then limit else |table| - n)
      && rows == table[n..n + |rows|]
  {
    AfterPlace(table, n, |table|);
    var rows := ListAfter(table, CursorAt(table, n), limit);
    assert rows == table[n..n + |rows|];
  }

  // ----- one row

  datatype Reason = Clean | Unsigned | Attempted | Changed

  /** A row that could be transferred as it is. */
  predicate Transferable(row: Row, target: string) {
    row.signed && row.attempts == 0 && row.lastError == "" && row.target == target && row.pending
  }

  /** The reason a row conflicts: that it changed counts before that it was attempted, and that
      before a missing signature. */
  function ReasonOf(row: Row, target: string): (r: Reason)
    ensures r.Clean? <==> Transferable(row, target)
    ensures r.Changed? <==> !(row.target == target && row.pending)
    ensures r.Attempted? ==> row.attempts > 0 || row.lastError != ""
    ensures r.Unsigned? ==> Transferable(row.(signed := true), target) && !row.signed
  {
    if row.target != target || !row.pending then Changed
    else if row.attempts != 0 || row.lastError != "" then Attempted
    else if !row.signed then Unsigned
    else Clean
  }

  datatype Line = Line(id: string, reason: Reason)

  /** The inventory of the rows from place `a` to place `b`: a line each, in order. */
  function Lines(table: seq<Row>, a: nat, b: nat, target: string): seq<Line>
    requires a <= b <= |table|
    decreases b
  {
    if a == b then []
    else Lines(table, a, b - 1, target) + [Line(table[b - 1].key.id, ReasonOf(table[b - 1], target))]
  }

  function Conflicts(table: seq<Row>, a: nat, b: nat, target: string): (n: nat)
    requires a <= b <= |table|
    ensures n <= b - a
    decreases b
  {
    if a == b then 0
    else Conflicts(table, a, b - 1, target) + if ReasonOf(table[b - 1], target).Clean? then 0 else 1
  }

  /** The rows from place `a` to place `b` that could not be transferred. */
  ghost function Conflicting(table: seq<Row>, a: nat, b: nat, target: string): set<nat>
    requires a <= b <= |table|
  {
    set i: nat | a <= i < b && !Transferable(table[i], target)
  }

  /** The conflicts counted are the rows that could not be transferred. */
  lemma {:induction false} ConflictsMeans(table: seq<Row>, a: nat, b: nat, target: string)
    requires a <= b <= |table|
    ensures Conflicts(table, a, b, target) == |Conflicting(table, a, b, target)|
    decreases b
  {
    if a == b {
      assert Conflicting(table, a, b, target) == {};
    } else {
      ConflictsMeans(table, a, b - 1, target);
      assert Conflicting(table, a, b, target)
        == Conflicting(table, a, b - 1, target) + if Transferable(table[b - 1], target) then {} else {b - 1};
    }
  }

  lemma {:induction false} LinesJoin(table: seq<Row>, a: nat, b: nat, c: nat, target: string)
    requires a <= b <= c <= |table|
    ensures Lines(table, a, c, target) == Lines(table, a, b, target) + Lines(table, b, c, target)
    ensures Conflicts(table, a, c, target) == Conflicts(table, a, b, target) + Conflicts(table, b, c, target)
    decreases c
  {
    if b < c {
      LinesJoin(table, a, b, c - 1, target);
    }
  }

  // ----- the token

  datatype Cursor = Cursor(target: string, key: Key, conflicts: int)

  /** The token: nothing, or an injective encoding of a cursor. */
  datatype Token = Empty | Encoded(cursor: Cursor)

  datatype Decoded = Start | From(cursor: Cursor) | Invalid

  function Decode(token: Token, target: string): Decoded {
    match token
    case Empty => Start
    case Encoded(c) =>
      if c.target != target || c.key.receivedAt == 0 || c.key.id == "" || c.conflicts < 0 then Invalid else From(c)
  }

  /** A row a window may end at: its token is accepted again. */
  predicate Resumable(row: Row) {
    row.key.receivedAt != 0 && row.key.id != ""
  }

  // ----- one window

  datatype Stats = Stats(inspected: nat, conflicts: nat, cumulative: int, unattempted: nat, next: Token)

  const PAGE := 100

  /** The place a window ends at. */
  function End(table: seq<Row>, place: nat, maxRows: nat): (end: nat)
    requires place <= |table|
    ensures place <= end <= |table|
  {
    if place + maxRows < |table| then place + maxRows else |table|
  }

  /** The rows of one page: a line each, and the conflicts among them. */
  method InspectPage(rows: seq<Row>, target: string) returns (output: seq<Line>, conflicts: nat)
    ensures output == Lines(rows, 0, |rows|, target) && conflicts == Conflicts(rows, 0, |rows|, target)
  {
    output, conflicts := [], 0;
    for i := 0 to |rows|
      invariant output == Lines(rows, 0, i, target) && conflicts == Conflicts(rows, 0, i, target)
    {
      var row := rows[i];
      var reason := Clean;
      if !row.signed {
        reason := Unsigned;
      }
      if row.attempts != 0 || row.lastError != "" {
        reason := Attempted;
      }
      if row.target != target || !row.pending {
        reason := Changed;
      }
      if reason != Clean {
        conflicts := conflicts + 1;
      }
      output := output + [Line(row.key.id, reason)];
    }
  }

  lemma {:induction false} LinesOfPage(table: seq<Row>, rows: seq<Row>, from: nat, n: nat, target: string)
    requires n <= |rows| && from + |rows| <= |table| && forall i :: 0 <= i < |rows| ==> rows[i] == table[from + i]
    ensures Lines(rows, 0, n, target) == Lines(table, from, from + n, target)
    ensures Conflicts(rows, 0, n, target) == Conflicts(table, from, from + n, target)
  {
    if n > 0 {
      LinesOfPage(table, rows, from, n - 1, target);
    }
  }

  /** One query: by the cursor of a place it goes on from that place. */
  method Query(table: seq<Row>, cursor: Option<Key>, limit: nat, ghost from: nat) returns (rows: seq<Row>)
    requires Ordered(table) && from <= |table| && cursor == CursorAt(table, from)
    ensures |rows| == (if from + limit < |table| then limit else |table| - from)
    ensures forall i :: 0 <= i < |rows| ==> rows[i] == table[from + i]
  {
    ListFrom(table, from, limit);
    rows := ListAfter(table, cursor, limit);
  }

  /** The rows from place `a` to place `b` are inspected, on top of earlier conflicts. */
  ghost predicate Inspected(table: seq<Row>, target: string, a: nat, b: nat, earlier: int, stats: Stats,
                            output: seq<Line>)
  {
    && a <= b <= |table| && stats.inspected == b - a
    && output == Lines(table, a, b, target) && stats.conflicts == Conflicts(table, a, b, target)
    && stats.cumulative == earlier + stats.conflicts && stats.unattempted == stats.inspected - stats.conflicts
  }

  /** The cursor moves to the last row inspected. */
  function Onward(cursor: Option<Key>, rows: seq<Row>): Option<Key> {
    if rows == [] then cursor else Some(rows[|rows| - 1].key)
  }

  /** The counts with one more page. */
  function More(stats: Stats, n: nat, conflicts: nat): Stats
    requires conflicts <= n
  {
    Stats(stats.inspected + n, stats.conflicts + conflicts, stats.cumulative + conflicts,
          stats.unattempted + n - conflicts, Empty)
  }

  /** The lines and conflicts of one more page. */
  lemma PageJoins(table: seq<Row>, target: string, place: nat, from: nat, rows: seq<Row>)
    requires place <= from && from + |rows| <= |table| && forall i :: 0 <= i < |rows| ==> rows[i] == table[from + i]
    ensures Lines(table, place, from + |rows|, target)
      == Lines(table, place, from, target) + Lines(rows, 0, |rows|, target)
    ensures Conflicts(table, place, from + |rows|, target)
      == Conflicts(table, place, from, target) + Conflicts(rows, 0, |rows|, target)
  {
    LinesOfPage(table, rows, from, |rows|, target);
    LinesJoin(table, place, from, from + |rows|, target);
  }

  lemma CursorMoves(table: seq<Row>, from: nat, rows: seq<Row>)
    requires from + |rows| <= |table| && forall i :: 0 <= i < |rows| ==> rows[i] == table[from + i]
    ensures CursorAt(table, from + |rows|) == Onward(CursorAt(table, from), rows)
  {
  }

  lemma OnePage(table: seq<Row>, target: string, place: nat, from: nat, earlier: int, stats: Stats, output: seq<Line>,
                rows: seq<Row>)
    requires Inspected(table, target, place, from, earlier, stats, output)
    requires from + |rows| <= |table| && forall i :: 0 <= i < |rows| ==> rows[i] == table[from + i]
    ensures Inspected(table, target, place, from + |rows|, earlier,
                      More(stats, |rows|, Conflicts(rows, 0, |rows|, target)),
                      output + Lines(rows, 0, |rows|, target))
    ensures CursorAt(table, from + |rows|) == Onward(CursorAt(table, from), rows)
  {
    PageJoins(table, target, place, from, rows);
    CursorMoves(table, from, rows);
  }

  /** Reads one page, `n` rows of it. */
  method ReadPage(table: seq<Row>, target: string, ghost place: nat, ghost from: nat, ghost earlier: int,
                  stats: Stats, output: seq<Line>, cursor: Option<Key>, limit: nat)
    returns (stats': Stats, output': seq<Line>, cursor': Option<Key>, n: nat)
    requires Ordered(table) && Inspected(table, target, place, from, earlier, stats, output)
    requires cursor == CursorAt(table, from)
    ensures n == (if from + limit < |table| then limit else |table| - from)
    ensures Inspected(table, target, place, from + n, earlier, stats', output') && cursor' == CursorAt(table, from + n)
    ensures stats'.next == Empty
  {
    var rows := Query(table, cursor, limit, from);
    var lines, conflicts := InspectPage(rows, target);
    OnePage(table, target, place, from, earlier, stats, output, rows);
    return More(stats, |rows|, conflicts), output + lines, Onward(cursor, rows), |rows|;
  }

  /** Reads page by page from a place in the table. The pages add up to the one window,
      and a token is returned exactly when the window is full. */
  method InventoryRows(table: seq<Row>, target: string, after: Option<Cursor>, maxRows: nat, ghost place: nat)
    returns (stats: Stats, output: seq<Line>)
    requires Ordered(table) && place <= |table| && maxRows >= 1
    requires CursorAt(table, place) == if after.Some? then Some(after.value.key) else None
    ensures var end := End(table, place, maxRows);
      && Inspected(table, target, place, end, if after.Some? then after.value.conflicts else 0, stats, output)
      && stats.next
         == (if end - place == maxRows then Encoded(Cursor(target, table[end - 1].key, stats.cumulative)) else Empty)
  {
    var cursor := if after.Some? then Some(after.value.key) else None;
    var earlier := if after.Some? then after.value.conflicts else 0;
    stats := Stats(0, 0, earlier, 0, Empty);
    output := [];
    ghost var from: nat := place;
    while stats.inspected < maxRows
      invariant Inspected(table, target, place, from, earlier, stats, output)
      invariant stats.inspected <= maxRows && stats.next == Empty && cursor == CursorAt(table, from)
    {
      var limit: nat := if maxRows - stats.inspected < PAGE then maxRows - stats.inspected else PAGE;
      var n;
      stats, output, cursor, n := ReadPage(table, target, place, from, earlier, stats, output, cursor, limit);
      from := from + n;
      if n < limit {
        return;
      }
    }
    if cursor.Some? {
      stats := stats.(next := Encoded(Cursor(target, cursor.value, stats.cumulative)));
    }
  }

  // ----- a chain of windows

  /** One invocation: the token is decoded, a window inspected, and the exit status is a
      failure when conflicts have been found anywhere along the chain. */
  datatype Report = Rejected | Reported(stats: Stats, failed: bool)

  method Transfer(table: seq<Row>, target: string, token: Token, maxRows: nat, ghost place: nat)
    returns (r: Report, output: seq<Line>)
    requires Ordered(table) && place <= |table| && maxRows >= 1
    requires Decode(token, target).Start? ==> place == 0
    requires Decode(token, target).From? ==> place > 0 && table[place - 1].key == token.cursor.key
    ensures r.Rejected? <==> Decode(token, target).Invalid?
    ensures r.Rejected? <==>
      && token.Encoded?
      && var c := token.cursor; c.target != target || c.key.receivedAt == 0 || c.key.id == "" || c.conflicts < 0
    ensures r.Rejected? ==> output == []
    ensures r.Reported? ==>
      var end := End(table, place, maxRows);
      && Inspected(table, target, place, end, if token.Empty? then 0 else token.cursor.conflicts, r.stats, output)
      && (r.failed <==> r.stats.cumulative > 0)
      && r.stats.next
         == (if end - place == maxRows then Encoded(Cursor(target, table[end - 1].key, r.stats.cumulative)) else Empty)
  {
    var decoded := Decode(token, target);
    if decoded.Invalid? {
      return Rejected, [];
    }
    var stats;
    stats, output := InventoryRows(table, target, if decoded.From? then Some(decoded.cursor) else None, maxRows, place);
    return Reported(stats, stats.cumulative > 0), output;
  }

  function Sum(sizes: seq<nat>, k: nat): nat
    requires k <= |sizes|
  {
    if k == 0 then 0 else Sum(sizes, k - 1) + sizes[k - 1]
  }

  /** How a chain of invocations ends: with no token left, with all sizes used, or with a
      token that is not accepted, after a number of rows. */
  datatype ChainEnd = Exhausted | Unfinished | Refused(after: nat)

  lemma {:induction false} SumGrows(sizes: seq<nat>, j: nat, k: nat)
    requires j <= k <= |sizes|
    ensures Sum(sizes, j) <= Sum(sizes, k)
  {
    if j < k {
      SumGrows(sizes, j, k - 1);
    }
  }

  /** The window before the `k`-th is full and ends at a row that cannot be resumed from. */
  ghost predicate Blocked(table: seq<Row>, sizes: seq<nat>, k: nat) {
    0 < k < |sizes| && 0 < Sum(sizes, k) <= |table| && !Resumable(table[Sum(sizes, k) - 1])
  }

  lemma NoneBlocked(table: seq<Row>, sizes: seq<nat>, k: nat)
    requires k < |sizes| && Sum(sizes, k + 1) > |table| && forall j :: 0 <= j <= k ==> !Blocked(table, sizes, j)
    ensures forall j :: !Blocked(table, sizes, j)
  {
    forall j | k < j < |sizes|
      ensures !Blocked(table, sizes, j)
    {
      SumGrows(sizes, k + 1, j);
    }
  }

  /** Invocations of any sizes, each with the token of the one before, until no token comes
      back. Together they inspect a prefix of the table once, row by row; the conflicts
      are those of one pass over it; no token means the table is exhausted; and a token is
      refused exactly if a window that another follows is full and ends at a row that cannot
      be resumed from. */
  method Chain(table: seq<Row>, target: string, sizes: seq<nat>)
    returns (output: seq<Line>, cumulative: int, r: ChainEnd)
    requires Ordered(table) && (forall i :: 0 <= i < |sizes| ==> sizes[i] >= 1)
    ensures var n :=
        match r case Exhausted => |table| case Unfinished => Sum(sizes, |sizes|) case Refused(after) => after;
      n <= |table| && output == Lines(table, 0, n, target) && cumulative == Conflicts(table, 0, n, target)
    ensures r.Refused? <==> exists k :: Blocked(table, sizes, k)
    ensures r.Refused? ==> exists k :: Blocked(table, sizes, k) && r.after == Sum(sizes, k)
  {
    output, cumulative := [], 0;
    var token := Empty;
    var place: nat := 0;
    for k := 0 to |sizes|
      invariant place == Sum(sizes, k) <= |table| && (k > 0 ==> place > 0)
      invariant output == Lines(table, 0, place, target) && cumulative == Conflicts(table, 0, place, target)
      invariant token == if place == 0 then Empty else Encoded(Cursor(target, table[place - 1].key, cumulative))
      invariant forall j :: 0 <= j < k ==> !Blocked(table, sizes, j)
    {
      var report, lines := Transfer(table, target, token, sizes[k], place);
      if report.Rejected? {
        assert Blocked(table, sizes, k);
        return output, cumulative, Refused(place);
      }
      LinesJoin(table, 0, place, End(table, place, sizes[k]), target);
      output, cumulative, token := output + lines, report.stats.cumulative, report.stats.next;
      if token.Empty? {
        NoneBlocked(table, sizes, k);
        return output, cumulative, Exhausted;
      }
      place := place + report.stats.inspected;
    }
    return output, cumulative, Unfinished;
  }

  /** A chain that is refused: its first window ends at a row without a receive time. */
  method RefusedChain(target: string) returns (r: ChainEnd)
    ensures r == Refused(1)
  {
    var table := [Row(Key(0, "a"), true, 0, "", target, true), Row(Key(1, "b"), true, 0, "", target, true)];
    assert Sum([1, 1], 1) == 1 && Sum([1, 1], 0) == 0;
    assert Blocked(table, [1, 1], 1);
    var output, cumulative;
    output, cumulative, r := Chain(table, target, [1, 1]);
  }

  /** The lines of one pass: one for each row, in the table's order. */
  lemma {:induction false} LinesAreRows(table: seq<Row>, b: nat, target: string, i: nat)
    requires i < b <= |table|
    ensures |Lines(table, 0, b, target)| == b
    ensures Lines(table, 0, b, target)[i] == Line(table[i].key.id, ReasonOf(table[i], target))
  {
    if b > 1 {
      LinesAreRows(table, b - 1, target, if i < b - 1 then i else 0);
    }
  }
}
