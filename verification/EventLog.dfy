/** Rows of the events table, in ascending id order. */
module EventLog {
  import opened Prelude

  datatype Kind = Platform | Message | StateChange

  /**
   * One stored event. `payload` is absent when the stored bytes do not decode,
   * `createdAt` when the database cannot format it, and `mentionsAnswer` is the
   * verdict of the SQL filter `payload LIKE '%question_answer%'`.
   */
  datatype Row = Row(
    id: int,
    executionId: string,
    sessionId: Option<string>,
    kind: Kind,
    payload: Option<string>,
    createdAt: Option<string>,
    mentionsAnswer: bool)

  predicate IdsAscend(log: seq<Row>) {
    forall i, j :: 0 <= i < j < |log| ==> log[i].id < log[j].id
  }

  /** The row with a given id. */
  function RowById(log: seq<Row>, id: int): (r: Option<Row>)
    ensures r.Some? ==> r.value in log && r.value.id == id
  {
    if log == [] then None
    else if log[0].id == id then Some(log[0])
    else RowById(log[1..], id)
  }

  lemma {:induction false} RowByIdUnique(log: seq<Row>, i: nat)
    requires IdsAscend(log) && i < |log|
    ensures RowById(log, log[i].id) == Some(log[i])
  {
    if i > 0 {
      assert log[0].id < log[i].id;
      RowByIdUnique(log[1..], i - 1);
    }
  }

  /** (session id, execution id) pairs of the sessions table. */
  type Sessions = set<(string, string)>

  /** The row's session is known and belongs to the row's execution. */
  predicate Coherent(row: Row, sessions: Sessions) {
    row.sessionId.Some? && (row.sessionId.value, row.executionId) in sessions
  }

  // ---- Ordered reads ----

  predicate IsBelow(id: int, before: Option<int>) {
    before.Some? ==> id < before.value
  }

  /** The kept rows with an id below `before`, newest first. */
  function Newest(log: seq<Row>, keep: Row -> bool, before: Option<int>): seq<Row> {
    if log == [] then []
    else
      var last, rest := log[|log| - 1], Newest(log[..|log| - 1], keep, before);
      if keep(last) && IsBelow(last.id, before) then [last] + rest else rest
  }

  /** The kept rows with an id above `after`, oldest first. */
  function Oldest(log: seq<Row>, keep: Row -> bool, after: int): seq<Row> {
    if log == [] then []
    else
      var last, rest := log[|log| - 1], Oldest(log[..|log| - 1], keep, after);
      if keep(last) && after < last.id then rest + [last] else rest
  }

  predicate IdsDescend(rows: seq<Row>) {
    forall i, j :: 0 <= i < j < |rows| ==> rows[i].id > rows[j].id
  }

  lemma {:induction false} NewestRows(log: seq<Row>, keep: Row -> bool, before: Option<int>)
    requires IdsAscend(log)
    ensures IdsDescend(Newest(log, keep, before))
    ensures forall r :: r in Newest(log, keep, before) <==> r in log && keep(r) && IsBelow(r.id, before)
  {
    if log != [] {
      var init := log[..|log| - 1];
      assert log == init + [log[|log| - 1]];
      NewestRows(init, keep, before);
    }
  }

  lemma {:induction false} OldestRows(log: seq<Row>, keep: Row -> bool, after: int)
    requires IdsAscend(log)
    ensures IdsAscend(Oldest(log, keep, after))
    ensures forall r :: r in Oldest(log, keep, after) <==> r in log && keep(r) && after < r.id
  {
    if log != [] {
      var init := log[..|log| - 1];
      assert log == init + [log[|log| - 1]];
      OldestRows(init, keep, after);
    }
  }

  lemma OldestAbove(log: seq<Row>, keep: Row -> bool, after: int)
    requires IdsAscend(log)
    ensures IdsAscend(Oldest(log, keep, after))
    ensures forall r :: r in Oldest(log, keep, after) ==> after < r.id
  {
    OldestRows(log, keep, after);
    hide IdsAscend, Oldest;
  }

  lemma ReadsOrdered(log: seq<Row>, keep: Row -> bool, before: Option<int>, after: int)
    requires IdsAscend(log)
    ensures IdsDescend(Newest(log, keep, before)) && IdsAscend(Oldest(log, keep, after))
  {
    NewestRows(log, keep, before);
    OldestRows(log, keep, after);
  }

  lemma {:induction false} NewestUnbounded(log: seq<Row>, keep: Row -> bool, before: Option<int>)
    requires forall r :: r in log && keep(r) ==> IsBelow(r.id, before)
    ensures Newest(log, keep, before) == Newest(log, keep, None)
  {
    if log != [] {
      NewestUnbounded(log[..|log| - 1], keep, before);
    }
  }

  lemma {:induction false} OldestNone(log: seq<Row>, keep: Row -> bool, after: int)
    requires forall r :: r in log && keep(r) ==> r.id <= after
    ensures Oldest(log, keep, after) == []
  {
    if log != [] {
      OldestNone(log[..|log| - 1], keep, after);
    }
  }

  lemma {:induction false} NewestFrom(log: seq<Row>, keep: Row -> bool, before: Option<int>, k: nat)
    requires k < |Newest(log, keep, before)|
    ensures Newest(log, keep, before)[k] in log
  {
    var init, last := log[..|log| - 1], log[|log| - 1];
    if keep(last) && IsBelow(last.id, before) {
      if k > 0 {
        NewestFrom(init, keep, before, k - 1);
      }
    } else {
      NewestFrom(init, keep, before, k);
    }
  }

  /** Reading on below a row that was read continues exactly where that read stopped. */
  lemma {:induction false} NewestResumes(log: seq<Row>, keep: Row -> bool, before: Option<int>, k: nat)
    requires IdsAscend(log) && k < |Newest(log, keep, before)|
    ensures var rows := Newest(log, keep, before);
            Newest(log, keep, Some(rows[k].id)) == rows[k + 1..]
  {
    var init, last := log[..|log| - 1], log[|log| - 1];
    var rows := Newest(log, keep, before);
    if keep(last) && IsBelow(last.id, before) && k == 0 {
      NewestUnbounded(init, keep, before);
      NewestUnbounded(init, keep, Some(last.id));
    } else {
      var j := if keep(last) && IsBelow(last.id, before) then k - 1 else k;
      NewestFrom(init, keep, before, j);
      assert rows[k] == Newest(init, keep, before)[j] && rows[k].id < last.id;
      NewestResumes(init, keep, before, j);
      assert rows[k + 1..] == Newest(init, keep, before)[j + 1..];
    }
  }

  /** Reading on above a row that was read continues exactly where that read stopped. */
  lemma {:induction false} OldestResumes(log: seq<Row>, keep: Row -> bool, after: int, k: nat)
    requires IdsAscend(log) && k < |Oldest(log, keep, after)|
    ensures var rows := Oldest(log, keep, after);
            Oldest(log, keep, rows[k].id) == rows[k + 1..]
  {
    var init, last := log[..|log| - 1], log[|log| - 1];
    var rows := Oldest(log, keep, after);
    assert log == init + [last];
    OldestRows(init, keep, after);
    if keep(last) && after < last.id && k == |rows| - 1 {
      OldestNone(log, keep, last.id);
    } else {
      var older := Oldest(init, keep, after);
      assert rows[k] == older[k] && older[k] in init;
      OldestResumes(init, keep, after, k);
      if keep(last) && after < last.id {
        assert rows[k + 1..] == older[k + 1..] + [last];
      } else {
        assert rows[k + 1..] == older[k + 1..];
      }
    }
  }
}
