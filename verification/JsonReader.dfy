/** What the reader can produce: values the writer round-trips, whatever the text. */
module JsonReader {
  import opened Prelude
  import opened Json
  import opened JsonParser

  // ---- Repeated and unordered members ----

  lemma {:induction false} BeforeTotal(a: string, b: string)
    ensures a == b || Before(a, b) || Before(b, a)
  {
    if a != [] && b != [] && a[0] == b[0] {
      BeforeTotal(a[1..], b[1..]);
      assert a == [a[0]] + a[1..] && b == [b[0]] + b[1..];
    }
  }

  /** Inserting a member keeps the object in key order. */
  lemma {:induction false} AddFieldAscends(f: Field, fields: seq<Field>)
    requires KeysAscend(fields)
    ensures KeysAscend(AddField(f, fields)) && AddField(f, fields) != []
    ensures AddField(f, fields)[0] == f || (fields != [] && AddField(f, fields)[0] == fields[0])
    ensures forall g :: g in AddField(f, fields) ==> g == f || g in fields
  {
    hide Before;
    if fields != [] && !Before(f.key, fields[0].key) && f.key != fields[0].key {
      var rest := fields[1..];
      AscendsTail(fields);
      AddFieldAscends(f, rest);
      BeforeTotal(f.key, fields[0].key);
      var added := AddField(f, rest);
      assert Before(fields[0].key, added[0].key);
      assert AddField(f, fields) == [fields[0]] + added;
      AscendsCons(fields[0], added);
    } else if fields != [] && Before(f.key, fields[0].key) {
      AscendsCons(f, fields);
    }
  }

  lemma AscendsTail(fields: seq<Field>)
    requires KeysAscend(fields) && fields != []
    ensures KeysAscend(fields[1..])
    ensures |fields| > 1 ==> Before(fields[0].key, fields[1].key)
  {
    hide Before;
    var rest := fields[1..];
    forall i | 0 <= i < |rest| - 1 ensures Before(rest[i].key, rest[i + 1].key) {
      assert rest[i] == fields[i + 1] && rest[i + 1] == fields[i + 2];
    }
  }

  lemma AscendsCons(f: Field, fields: seq<Field>)
    requires KeysAscend(fields) && fields != [] && Before(f.key, fields[0].key)
    ensures KeysAscend([f] + fields)
  {
    hide Before;
    var all := [f] + fields;
    forall i | 0 <= i < |all| - 1 ensures Before(all[i].key, all[i + 1].key) {
      if i > 0 {
        assert all[i] == fields[i - 1] && all[i + 1] == fields[i];
      }
    }
  }

  lemma {:induction false} AboveAllMissing(key: string, fields: seq<Field>)
    requires KeysAscend(fields) && (fields != [] ==> Before(key, fields[0].key))
    ensures Find(fields, key) == None
  {
    hide Before;
    if fields != [] {
      AscendsTail(fields);
      BeforeIrreflexive(key);
      if |fields| > 1 {
        BeforeTransitive(key, fields[0].key, fields[1].key);
      }
      AboveAllMissing(key, fields[1..]);
    }
  }

  /** An inserted member is found unless the object already holds its key. */
  lemma {:induction false} AddFieldFinds(f: Field, fields: seq<Field>, key: string)
    requires KeysAscend(fields)
    ensures Find(AddField(f, fields), key)
         == if Find(fields, key).Some? then Find(fields, key) else if key == f.key then Some(f.value) else None
  {
    hide Before, KeysAscend;
    if fields == [] {
      assert [f] + fields == [f] && [f][1..] == [];
    } else if Before(f.key, fields[0].key) {
      AboveAllMissing(f.key, fields);
      assert ([f] + fields)[1..] == fields;
    } else if f.key != fields[0].key {
      AscendsTail(fields);
      AddFieldFinds(f, fields[1..], key);
      assert ([fields[0]] + AddField(f, fields[1..]))[1..] == AddField(f, fields[1..]);
    }
  }

  /** The members a list of written members reads as. */
  function Merged(fields: seq<Field>): seq<Field> {
    if |fields| <= 1 then fields else AddField(fields[0], Merged(fields[1..]))
  }

  /** The value a key is last given. */
  function LastGiven(fields: seq<Field>, key: string): Option<Json> {
    if fields == [] then None
    else if fields[|fields| - 1].key == key then Some(fields[|fields| - 1].value)
    else LastGiven(fields[..|fields| - 1], key)
  }

  lemma {:induction false} LastGivenCons(fields: seq<Field>, key: string)
    requires fields != []
    ensures LastGiven(fields, key)
         == if LastGiven(fields[1..], key).Some? then LastGiven(fields[1..], key)
            else if fields[0].key == key then Some(fields[0].value) else None
  {
    if |fields| > 1 {
      var init := fields[..|fields| - 1];
      LastGivenCons(init, key);
      assert init[1..] == fields[1..][..|fields| - 2];
      assert fields[1..][|fields| - 2] == fields[|fields| - 1];
    } else {
      assert fields[1..] == [] && fields[..0] == [];
    }
  }

  lemma {:induction false} MergedFinds(fields: seq<Field>, key: string)
    ensures KeysAscend(Merged(fields)) && Find(Merged(fields), key) == LastGiven(fields, key)
  {
    hide Before, LastGiven;
    if fields == [] {
      assert LastGiven(fields, key) == None by {
        NothingGiven(key);
      }
    } else {
      LastGivenCons(fields, key);
      if |fields| == 1 {
        NothingGiven(key);
        assert fields[1..] == [];
      } else {
        MergedFinds(fields[1..], key);
        AddFieldAscends(fields[0], Merged(fields[1..]));
        AddFieldFinds(fields[0], Merged(fields[1..]), key);
      }
    }
  }

  lemma NothingGiven(key: string)
    ensures LastGiven([], key) == None
  {
  }

  lemma NextMember(s: string, f: Field, more: string, rest: seq<Field>, t: string)
    requires ParseField(s) == Some((f, [','] + more)) && ParseFields(more) == Some((rest, t))
    ensures ParseFields(s) == Some((AddField(f, rest), t))
  {
    hide Before, AddField;
    var u := [','] + more;
    assert SkipSpace(u) == u && u[1..] == more;
  }

  lemma {:induction false} MembersMerged(fields: seq<Field>, rest: string)
    requires fields != [] && forall j :: 0 <= j < |fields| ==> WellFormed(fields[j].value)
    ensures ParseFields(SerializeFields(fields) + ['}'] + rest) == Some((Merged(fields), rest))
    decreases |fields|
  {
    hide ParseField, ParseFields, AddField, WellFormed, SerializeField;
    var s := SerializeFields(fields) + ['}'] + rest;
    if |fields| == 1 {
      var t := ['}'] + rest;
      assert s == SerializeField(fields[0]) + t;
      FieldRoundTrip(fields[0], t);
      LastField(s, fields[0], rest);
      assert fields == [fields[0]];
    } else {
      var more := SerializeFields(fields[1..]) + ['}'] + rest;
      var t := [','] + more;
      assert s == SerializeField(fields[0]) + t;
      FieldRoundTrip(fields[0], t);
      MembersMerged(fields[1..], rest);
      NextMember(s, fields[0], more, Merged(fields[1..]), rest);
    }
  }

  /** An object's members may come in any order and repeat: read, they are in key order, each as last given. */
  lemma MembersReadInOrder(fields: seq<Field>, key: string)
    requires fields != [] && forall j :: 0 <= j < |fields| ==> WellFormed(fields[j].value)
    ensures var v := Parse(['{'] + SerializeFields(fields) + ['}']);
            v.Some? && v.value.Obj? && KeysAscend(v.value.fields) && Get(v.value, key) == LastGiven(fields, key)
  {
    hide WellFormed, ParseFields, Merged, LastGiven, KeysAscend, SerializeField;
    var body := SerializeFields(fields) + ['}'];
    assert ['{'] + SerializeFields(fields) + ['}'] == ['{'] + body;
    assert body + [] == body;
    MembersMerged(fields, []);
    MergedFinds(fields, key);
    FieldsStart(fields, []);
    var s := ['{'] + body;
    assert SkipSpace(s) == s && s[1..] == body && SkipSpace(body) == body;
  }

  // ---- Everything read is well formed ----

  lemma {:induction false} RunOfNumberChars(s: string)
    ensures forall i :: 0 <= i < |NumberRun(s)| ==> IsNumberChar(NumberRun(s)[i])
  {
    if s != [] {
      RunOfNumberChars(s[1..]);
    }
  }

  lemma NumberWellFormed(run: string)
    requires NumberOf(run).Some? && run != [] && forall i :: 0 <= i < |run| ==> IsNumberChar(run[i])
    ensures WellFormed(NumberOf(run).value)
  {
    hide DigitsValue, IsNumberTail, IsNumberChar;
    if NumberOf(run).value.Float? {
      var u := if run[0] == '-' then run[1..] else run;
      assert CanonicalDigits(u[..DigitRun(u)]);
      assert u[..DigitRun(u)][0] == u[0];
    }
  }

  lemma {:induction false} ReadsWellFormed(s: string)
    ensures ParseValue(s).Some? ==> WellFormed(ParseValue(s).value.0)
    decreases |s|, 1
  {
    hide WellFormed, ParseString, ParseItems, ParseFields, NumberRun, NumberOf;
    var t := SkipSpace(s);
    if ParseValue(s).Some? {
      match t[0] {
        case 'n' => PlainWellFormed("");
        case 't' => PlainWellFormed("");
        case 'f' => PlainWellFormed("");
        case '\"' => PlainWellFormed(ParseString(t[1..]).value.0);
        case '[' =>
          PlainWellFormed("");
          ItemsWellFormed(t[1..]);
        case '{' =>
          PlainWellFormed("");
          FieldsWellFormed(t[1..]);
        case _ =>
          RunOfNumberChars(t);
          NumberWellFormed(NumberRun(t));
      }
    }
  }

  lemma PlainWellFormed(text: string)
    ensures WellFormed(Null) && WellFormed(Bool(true)) && WellFormed(Bool(false)) && WellFormed(Str(text))
    ensures WellFormed(Arr([])) && WellFormed(Obj([]))
  {
  }

  lemma ItemsJoin(first: Json, rest: seq<Json>)
    requires WellFormed(first) && WellFormed(Arr(rest))
    ensures WellFormed(Arr([first] + rest))
  {
    var items := [first] + rest;
    forall j | 0 <= j < |items| ensures WellFormed(items[j]) {
      if j > 0 {
        assert items[j] == rest[j - 1];
      }
    }
  }

  lemma {:induction false} ItemsWellFormed(s: string)
    ensures ParseItems(s).Some? ==> WellFormed(Arr(ParseItems(s).value.0))
    decreases |s|, 2
  {
    hide WellFormed, ParseValue;
    ReadsWellFormed(s);
    var first := ParseValue(s);
    if first.Some? {
      PlainWellFormed("");
      ItemsJoin(first.value.0, []);
      assert [first.value.0] + [] == [first.value.0];
      var t := SkipSpace(first.value.1);
      if t != [] && t[0] == ',' {
        ItemsWellFormed(t[1..]);
        if ParseItems(t[1..]).Some? {
          ItemsJoin(first.value.0, ParseItems(t[1..]).value.0);
        }
      }
    }
  }

  lemma MembersJoin(f: Field, fields: seq<Field>)
    requires WellFormed(f.value) && WellFormed(Obj(fields))
    ensures WellFormed(Obj(AddField(f, fields)))
  {
    hide KeysAscend, AddField;
    AddFieldAscends(f, fields);
    var added := AddField(f, fields);
    forall j | 0 <= j < |added| ensures WellFormed(added[j].value) {
      assert added[j] in added;
    }
  }

  lemma {:induction false} FieldWellFormed(s: string)
    ensures ParseField(s).Some? ==> WellFormed(ParseField(s).value.0.value)
    decreases |s|, 2
  {
    hide WellFormed, ParseValue, ParseString;
    var t := SkipSpace(s);
    if t != [] && t[0] == '\"' {
      var key := ParseString(t[1..]);
      if key.Some? {
        var u := SkipSpace(key.value.1);
        if u != [] && u[0] == ':' {
          ReadsWellFormed(u[1..]);
        }
      }
    }
  }

  lemma {:induction false} FieldsWellFormed(s: string)
    ensures ParseFields(s).Some? ==> WellFormed(Obj(ParseFields(s).value.0))
    decreases |s|, 3
  {
    hide WellFormed, ParseField, AddField;
    FieldWellFormed(s);
    var first := ParseField(s);
    if first.Some? {
      PlainWellFormed("");
      MembersJoin(first.value.0, []);
      AloneAdded(first.value.0);
      var t := SkipSpace(first.value.1);
      if t != [] && t[0] == ',' {
        FieldsWellFormed(t[1..]);
        if ParseFields(t[1..]).Some? {
          MembersJoin(first.value.0, ParseFields(t[1..]).value.0);
        }
      }
    }
  }

  lemma AloneAdded(f: Field)
    ensures AddField(f, []) == [f]
  {
    assert [f] + [] == [f];
  }

  /** Whatever text is read, writing the value and reading it again gives the same value. */
  lemma ReadWriteRead(s: string)
    requires Parse(s).Some?
    ensures WellFormed(Parse(s).value) && Parse(Serialize(Parse(s).value)) == Parse(s)
  {
    ReadsWellFormed(s);
    hide ParseValue, WellFormed, SkipSpace;
    RoundTrip(Parse(s).value);
  }
}
