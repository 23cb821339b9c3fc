/** The event that ends an execution, and the rows up to it. */
module TerminalEvents {
  import opened Prelude
  import opened Json
  import opened JsonParser
  import opened EventLog

  /** An execution-level state change to an outcome; session-level ones do not end the execution. */
  predicate IsTerminalEvent(row: Row) {
    && row.sessionId.None? && row.kind == StateChange && row.payload.Some?
    && var v := Parse(row.payload.value);
       && v.Some?
       && var outcome, to := AsStr(Get(v.value, "outcome")), AsStr(Get(v.value, "to"));
          var terminal := if outcome.Some? then outcome else to;
          terminal == Some("completed") || terminal == Some("failed") || terminal == Some("canceled")
  }

  predicate NoTerminal(rows: seq<Row>) {
    forall r :: r in rows ==> !IsTerminalEvent(r)
  }

  /** The rows up to and including the first terminal one. */
  function UpToTerminal(rows: seq<Row>): seq<Row> {
    if rows == [] then []
    else if IsTerminalEvent(rows[0]) then [rows[0]]
    else [rows[0]] + UpToTerminal(rows[1..])
  }

  lemma {:induction false} UpToTerminalAppend(a: seq<Row>, b: seq<Row>)
    requires NoTerminal(a)
    ensures UpToTerminal(a + b) == a + UpToTerminal(b)
  {
    hide IsTerminalEvent;
    if a == [] {
      assert a + b == b;
    } else {
      assert (a + b)[1..] == a[1..] + b;
      UpToTerminalAppend(a[1..], b);
    }
  }

  lemma {:induction false} UpToTerminalWithin(a: seq<Row>, b: seq<Row>)
    requires !NoTerminal(a)
    ensures UpToTerminal(a + b) == UpToTerminal(a)
  {
    hide IsTerminalEvent;
    if !IsTerminalEvent(a[0]) {
      assert (a + b)[1..] == a[1..] + b;
      UpToTerminalWithin(a[1..], b);
    } else {
      assert (a + b)[0] == a[0];
    }
  }

  lemma SomeTerminal(a: seq<Row>, b: seq<Row>)
    requires !NoTerminal(b)
    ensures !NoTerminal(a + b)
  {
    hide IsTerminalEvent;
    var r :| r in b && IsTerminalEvent(r);
    assert r in a + b;
  }

  lemma {:induction false} UpToTerminalEnds(rows: seq<Row>)
    requires !NoTerminal(rows)
    ensures !NoTerminal(UpToTerminal(rows))
  {
    hide IsTerminalEvent;
    if IsTerminalEvent(rows[0]) {
      assert rows[0] in UpToTerminal(rows);
    } else {
      UpToTerminalEnds(rows[1..]);
      assert UpToTerminal(rows) == [rows[0]] + UpToTerminal(rows[1..]);
    }
  }

  lemma StopsHere(rows: seq<Row>, i: nat)
    requires i < |rows| && NoTerminal(rows[..i]) && IsTerminalEvent(rows[i])
    ensures UpToTerminal(rows) == rows[..i + 1]
  {
    hide IsTerminalEvent;
    assert rows == rows[..i] + rows[i..];
    UpToTerminalAppend(rows[..i], rows[i..]);
    assert UpToTerminal(rows[i..]) == [rows[i]];
  }

  lemma UpToTerminalStarts(rows: seq<Row>)
    ensures UpToTerminal(rows) != [] <==> rows != []
    ensures rows != [] ==> UpToTerminal(rows)[0] == rows[0]
  {
  }

  // ---- Which stored state changes are terminal ----

  /** The text of a state change: what is desired, with an outcome or a target state. */
  function StateChangeText(desired: string, outcome: Option<string>, to: Option<string>): string {
    Serialize(Obj(StateChangeMembers(desired, outcome, to)))
  }

  function StateChangeMembers(desired: string, outcome: Option<string>, to: Option<string>): seq<Field> {
    [Field("desired", Str(desired))] + OptionalMember("outcome", outcome) + OptionalMember("to", to)
  }

  function OptionalMember(key: string, value: Option<string>): seq<Field> {
    if value.Some? then [Field(key, Str(value.value))] else []
  }

  predicate EndsExecution(state: string) {
    state in {"completed", "failed", "canceled"}
  }

  lemma OptionalFind(key: string, value: Option<string>, sought: string)
    ensures Find(OptionalMember(key, value), sought)
            == if sought == key && value.Some? then Some(Str(value.value)) else None
  {
  }

  lemma StateChangeFind(desired: string, outcome: Option<string>, to: Option<string>)
    ensures var v := Obj(StateChangeMembers(desired, outcome, to));
            AsStr(Get(v, "outcome")) == outcome && AsStr(Get(v, "to")) == to
  {
    hide Find, OptionalMember;
    var d := [Field("desired", Str(desired))];
    assert d == OptionalMember("desired", Some(desired)) by {
      DesiredMember(desired);
    }
    forall key | key == "outcome" || key == "to"
      ensures Find(StateChangeMembers(desired, outcome, to), key)
           == if key == "outcome" then (if outcome.Some? then Some(Str(outcome.value)) else None)
              else (if to.Some? then Some(Str(to.value)) else None)
    {
      FindAppend(d, OptionalMember("outcome", outcome), key);
      FindAppend(d + OptionalMember("outcome", outcome), OptionalMember("to", to), key);
      OptionalFind("desired", Some(desired), key);
      OptionalFind("outcome", outcome, key);
      OptionalFind("to", to, key);
      assert |"desired"| == |"outcome"| && "desired"[0] != "outcome"[0] && |"to"| == 2;
    }
  }

  lemma DesiredMember(desired: string)
    ensures [Field("desired", Str(desired))] == OptionalMember("desired", Some(desired))
  {
  }

  lemma StateChangeWellFormed(desired: string, outcome: Option<string>, to: Option<string>)
    ensures WellFormed(Obj(StateChangeMembers(desired, outcome, to)))
  {
    hide Before;
    BeforeByFirst("desired", "outcome");
    BeforeByFirst("desired", "to");
    BeforeByFirst("outcome", "to");
    var fields := StateChangeMembers(desired, outcome, to);
    assert KeysAscend(fields);
    forall j | 0 <= j < |fields| ensures WellFormed(fields[j].value) {
      assert fields[j].value.Str?;
    }
  }

  /**
   * A stored state change ends the execution exactly when it belongs to no session and
   * its outcome is a final one; the target state counts only when there is no outcome.
   */
  lemma TerminalExact(row: Row, desired: string, outcome: Option<string>, to: Option<string>)
    requires row.kind == StateChange && row.payload == Some(StateChangeText(desired, outcome, to))
    ensures IsTerminalEvent(row) <==>
            row.sessionId.None?
            && if outcome.Some? then EndsExecution(outcome.value) else to.Some? && EndsExecution(to.value)
  {
    hide WellFormed, Parse, Serialize, StateChangeMembers, Get;
    StateChangeWellFormed(desired, outcome, to);
    RoundTrip(Obj(StateChangeMembers(desired, outcome, to)));
    StateChangeFind(desired, outcome, to);
  }

  /** Rows that all belong to a session, or are no state changes, end nothing. */
  lemma SessionsEndNothing(rows: seq<Row>)
    requires forall r :: r in rows ==> r.sessionId.Some? || r.kind != StateChange
    ensures NoTerminal(rows) && UpToTerminal(rows) == rows
  {
    hide Parse;
    assert NoTerminal(rows);
    UpToTerminalAppend(rows, []);
    assert rows + [] == rows;
  }
}
