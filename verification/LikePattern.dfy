/** The `LIKE` pattern that prefilters stored payloads by batch id. */
module LikePattern {
  import opened Prelude
  import opened Json
  import opened Markers
  import opened PayloadTree

  // ---- SQL LIKE with backslash as the escape character ----

  /** Whether `s` matches the pattern, comparing characters exactly. */
  predicate Like(pattern: string, s: string)
    decreases |pattern|, |s|
  {
    if pattern == [] then s == []
    else if pattern[0] == '%' then Like(pattern[1..], s) || (s != [] && Like(pattern, s[1..]))
    else if pattern[0] == '\\' then
      |pattern| > 1 && s != [] && s[0] == pattern[1] && Like(pattern[2..], s[1..])
    else if pattern[0] == '_' then s != [] && Like(pattern[1..], s[1..])
    else s != [] && s[0] == pattern[0] && Like(pattern[1..], s[1..])
  }

  /** `word` stands somewhere in `s`. */
  ghost predicate Contains(s: string, word: string) {
    exists i :: 0 <= i <= |s| && word <= s[i..]
  }

  /** Pattern text that matches `s` literally. */
  function LikeEscape(s: string): string {
    if s == [] then []
    else (if s[0] == '\\' || s[0] == '%' || s[0] == '_' then ['\\'] else []) + [s[0]] + LikeEscape(s[1..])
  }

  lemma QuotedInside(s: string)
    ensures |Quote(s)| >= 2 && Quote(s)[1..|Quote(s)| - 1] == Escape(s)
  {
    hide Escape;
  }

  lemma LikeEscapeNext(s: string, i: nat)
    requires i < |s|
    ensures LikeEscape(s[i..])
         == (if s[i] == '\\' || s[i] == '%' || s[i] == '_' then ['\\', s[i]] else [s[i]]) + LikeEscape(s[i + 1..])
  {
    assert s[i..][1..] == s[i + 1..];
  }

  /** Build the pattern character by character from the id as JSON writes it. */
  method LikePatternForBatchId(batchId: string) returns (escaped: string)
    ensures escaped == ['%'] + LikeEscape(Escape(batchId)) + ['%']
  {
    hide Escape, Quote, LikeEscape;
    QuotedInside(batchId);
    var encoded := Quote(batchId);
    var inner := encoded[1..|encoded| - 1];
    assert inner[0..] == inner && inner[|inner|..] == [];
    escaped := ['%'];
    for i := 0 to |inner|
      invariant escaped + LikeEscape(inner[i..]) == ['%'] + LikeEscape(inner)
    {
      LikeEscapeNext(inner, i);
      var c := inner[i];
      if c == '\\' || c == '%' || c == '_' {
        escaped := escaped + ['\\'];
      }
      escaped := escaped + [c];
    }
    NothingEscaped();
    escaped := escaped + ['%'];
  }

  lemma NothingEscaped()
    ensures LikeEscape([]) == []
  {
  }

  lemma {:induction false} AnythingMatches(s: string)
    ensures Like(['%'], s)
  {
    assert ['%'][1..] == [];
    if s != [] {
      AnythingMatches(s[1..]);
    }
  }

  /** Escaped text followed by `%` matches exactly the strings it begins. */
  lemma {:induction false} EscapedMatchesPrefix(word: string, s: string)
    ensures Like(LikeEscape(word) + ['%'], s) <==> word <= s
  {
    var p := LikeEscape(word) + ['%'];
    if word == [] {
      assert p == ['%'];
      AnythingMatches(s);
    } else {
      var rest := LikeEscape(word[1..]) + ['%'];
      if word[0] == '\\' || word[0] == '%' || word[0] == '_' {
        assert p == ['\\', word[0]] + rest && p[2..] == rest;
      } else {
        assert p == [word[0]] + rest && p[1..] == rest;
      }
      if s != [] {
        EscapedMatchesPrefix(word[1..], s[1..]);
      }
    }
  }

  /** The pattern for a word matches exactly the strings that contain it. */
  lemma {:induction false} PatternMatchesContainment(word: string, s: string)
    ensures Like(['%'] + LikeEscape(word) + ['%'], s) <==> Contains(s, word)
  {
    var tail := LikeEscape(word) + ['%'];
    var p := ['%'] + LikeEscape(word) + ['%'];
    assert p[1..] == tail;
    EscapedMatchesPrefix(word, s);
    assert s[0..] == s;
    if s != [] {
      PatternMatchesContainment(word, s[1..]);
      if Contains(s[1..], word) {
        var i :| 0 <= i <= |s[1..]| && word <= s[1..][i..];
        assert s[i + 1..] == s[1..][i..];
      }
      if Contains(s, word) && !(word <= s) {
        var i :| 0 <= i <= |s| && word <= s[i..];
        assert s[1..][i - 1..] == s[i..];
      }
    }
  }

  // ---- Stored payloads contain the ids they carry ----

  lemma ContainsWithin(pre: string, mid: string, post: string, word: string)
    requires Contains(mid, word)
    ensures Contains(pre + mid + post, word)
  {
    var i :| 0 <= i <= |mid| && word <= mid[i..];
    assert (pre + mid + post)[|pre| + i..] == mid[i..] + post;
  }

  lemma {:induction false} ItemWithin(items: seq<Json>, j: nat, word: string)
    requires j < |items| && Contains(Serialize(items[j]), word)
    ensures Contains(SerializeItems(items), word)
    decreases items
  {
    hide Contains, Serialize;
    if j == 0 {
      var rest := if |items| == 1 then [] else [','] + SerializeItems(items[1..]);
      ContainsWithin([], Serialize(items[0]), rest, word);
      assert SerializeItems(items) == [] + Serialize(items[0]) + rest;
    } else {
      ItemWithin(items[1..], j - 1, word);
      ContainsWithin(Serialize(items[0]) + [','], SerializeItems(items[1..]), [], word);
      assert SerializeItems(items) == Serialize(items[0]) + [','] + SerializeItems(items[1..]) + [];
    }
  }

  lemma OneFieldWithin(f: Field, word: string)
    requires Contains(Serialize(f.value), word)
    ensures Contains(SerializeField(f), word)
  {
    hide Contains, Quote;
    ContainsWithin(Quote(f.key) + [':'], Serialize(f.value), [], word);
    assert SerializeField(f) == Quote(f.key) + [':'] + Serialize(f.value) + [];
  }

  lemma {:induction false} FieldWithin(fields: seq<Field>, j: nat, word: string)
    requires j < |fields| && Contains(Serialize(fields[j].value), word)
    ensures Contains(SerializeFields(fields), word)
    decreases fields
  {
    hide Contains, SerializeField, Serialize;
    if j == 0 {
      OneFieldWithin(fields[0], word);
      var rest := if |fields| == 1 then [] else [','] + SerializeFields(fields[1..]);
      ContainsWithin([], SerializeField(fields[0]), rest, word);
      assert SerializeFields(fields) == [] + SerializeField(fields[0]) + rest;
    } else {
      FieldWithin(fields[1..], j - 1, word);
      ContainsWithin(SerializeField(fields[0]) + [','], SerializeFields(fields[1..]), [], word);
      assert SerializeFields(fields) == SerializeField(fields[0]) + [','] + SerializeFields(fields[1..]) + [];
    }
  }

  /** Every string in a value appears, escaped, in its serialized text. */
  lemma {:induction false} StringAppears(v: Json, path: Path)
    requires StringAt(v, path)
    ensures Contains(Serialize(v), Escape(TextAt(v, path)))
    decreases |path|
  {
    if path == [] {
      var word := Escape(v.s);
      assert Serialize(v)[1..] == word + ['\"'];
    } else {
      StringStep(v, path);
      var j := Locate(v, path[0]).value;
      var word := Escape(TextAt(v, path));
      StringAppears(Kids(v)[j], path[1..]);
      if v.Arr? {
        ItemWithin(v.items, j, word);
        ContainsWithin(['['], SerializeItems(v.items), [']'], word);
      } else {
        FieldWithin(v.fields, j, word);
        ContainsWithin(['{'], SerializeFields(v.fields), ['}'], word);
      }
    }
  }

  /** The prefilter never misses a stored payload that carries the batch id as a string. */
  lemma PatternFindsPayload(v: Json, path: Path, batchId: string)
    requires StringAt(v, path) && TextAt(v, path) == batchId
    ensures Like(['%'] + LikeEscape(Escape(batchId)) + ['%'], Serialize(v))
  {
    StringAppears(v, path);
    PatternMatchesContainment(Escape(batchId), Serialize(v));
  }

  // ---- Markers and answer parts ----

  lemma {:induction false} FindLocates(fields: seq<Field>, key: string)
    ensures Find(fields, key).Some? <==> FieldIndex(fields, key).Some?
    ensures Find(fields, key).Some? ==> fields[FieldIndex(fields, key).value].value == Find(fields, key).value
  {
    if fields != [] && fields[0].key != key {
      FindLocates(fields[1..], key);
    }
  }

  /** Looking a member up and then reading on is reading through it. */
  lemma AtMember(v: Json, key: string, rest: Path)
    requires Get(v, key).Some?
    ensures At(v, [Key(key)] + rest) == At(Get(v, key).value, rest)
  {
    FindLocates(v.fields, key);
    assert ([Key(key)] + rest)[1..] == rest;
  }

  lemma AtItem(v: Json, k: nat, rest: Path)
    requires v.Arr? && k < |v.items|
    ensures At(v, [Index(k)] + rest) == At(v.items[k], rest)
  {
    assert ([Index(k)] + rest)[1..] == rest;
  }

  /** Where a part's `data` keeps a string member. */
  function DataPath(k: nat, key: string): Path {
    [Key("parts")] + ([Index(k)] + ([Key("data")] + ([Key(key)] + [])))
  }

  lemma DataString(v: Json, items: seq<Json>, k: nat, key: string)
    requires Get(v, "parts") == Some(Arr(items)) && k < |items| && AsStr(DataMember(items[k], key)).Some?
    ensures StringAt(v, DataPath(k, key)) && TextAt(v, DataPath(k, key)) == AsStr(DataMember(items[k], key)).value
  {
    hide At, Get;
    AtMember(v, "parts", [Index(k)] + ([Key("data")] + ([Key(key)] + [])));
    AtItem(Arr(items), k, [Key("data")] + ([Key(key)] + []));
    AtMember(items[k], "data", [Key(key)] + []);
    AtMember(Get(items[k], "data").value, key, []);
    AtNothing(DataMember(items[k], key).value);
  }

  lemma AtNothing(v: Json)
    ensures At(v, []) == Some(v)
  {
  }

  /** The prefilter by batch id finds every stored marker of the batch. */
  lemma PatternFindsMarker(batchId: string, escalationId: Option<int>, resolvedId: int, resolvedAt: string,
                           answer: Option<string>, truncated: bool)
    ensures Like(['%'] + LikeEscape(Escape(batchId)) + ['%'],
                 Serialize(MarkerPayload(batchId, escalationId, resolvedId, resolvedAt, answer, truncated)))
  {
    hide Like, LikeEscape, MarkerData, MarkerPayload;
    var payload := MarkerPayload(batchId, escalationId, resolvedId, resolvedAt, answer, truncated);
    var data := MarkerData(batchId, escalationId, resolvedId, resolvedAt, answer, truncated);
    var part := Obj([Field("data", data)]);
    MarkerParts(batchId, escalationId, resolvedId, resolvedAt, answer, truncated);
    MarkerFind(batchId, escalationId, resolvedId, resolvedAt, answer, truncated, "batch_id");
    assert |"answer_text"| != |"batch_id"|;
    assert Get(part, "data") == Some(data);
    assert AsStr(DataMember(part, "batch_id")) == Some(batchId);
    DataString(payload, [part], 0, "batch_id");
    PatternFindsPayload(payload, DataPath(0, "batch_id"), batchId);
  }

  /** The filter on the message lane; its underscore matches any character. */
  const ANSWER_FILTER: string := ['%'] + ANSWER_TYPE + ['%']

  /** Lower-case letters and underscores. */
  predicate Plain(s: string) {
    forall i :: 0 <= i < |s| ==> 'a' <= s[i] <= 'z' || s[i] == '_'
  }

  /** A plain word followed by `%` matches whatever it begins. */
  lemma {:induction false} PlainMatchesPrefix(word: string, s: string)
    requires Plain(word)
    requires word <= s
    ensures Like(word + ['%'], s)
  {
    if word == [] {
      assert word + ['%'] == ['%'];
      AnythingMatches(s);
    } else {
      assert (word + ['%'])[1..] == word[1..] + ['%'];
      PlainMatchesPrefix(word[1..], s[1..]);
    }
  }

  lemma {:induction false} PlainMatchesContained(word: string, s: string)
    requires Plain(word)
    requires Contains(s, word)
    ensures Like(['%'] + word + ['%'], s)
  {
    var p := ['%'] + word + ['%'];
    assert p[1..] == word + ['%'];
    if word <= s {
      PlainMatchesPrefix(word, s);
    } else {
      var i :| 0 <= i <= |s| && word <= s[i..];
      assert i > 0;
      assert s[1..][i - 1..] == s[i..];
      PlainMatchesContained(word, s[1..]);
    }
  }

  /** Some part carries a type that is counted. */
  lemma {:induction false} CountedPart(parts: seq<Json>, dataType: string) returns (k: nat)
    requires TypeCount(parts, dataType) > 0
    ensures k < |parts| && PartDataType(parts[k]) == Some(dataType)
  {
    hide PartDataType;
    if PartDataType(parts[0]) == Some(dataType) {
      k := 0;
    } else {
      var j := CountedPart(parts[1..], dataType);
      k := j + 1;
    }
  }

  lemma AnswerTypePlain()
    ensures Plain(ANSWER_TYPE)
  {
    hide Escape;
  }

  /** Lower-case text and underscores are written as they are. */
  lemma {:induction false} PlainEscape(s: string)
    requires Plain(s)
    ensures Escape(s) == s
  {
    if s != [] {
      PlainEscape(s[1..]);
      PlainChar(s[0]);
    }
  }

  lemma PlainChar(c: char)
    requires 'a' <= c <= 'z' || c == '_'
    ensures EscapeChar(c) == [c]
  {
  }

  /** The filter on the message lane passes every stored value with an answer part. */
  lemma FilterPassesAnswers(v: Json, items: seq<Json>)
    requires Get(v, "parts") == Some(Arr(items)) && TypeCount(items, ANSWER_TYPE) > 0
    ensures Like(ANSWER_FILTER, Serialize(v))
  {
    hide Like, Escape, Contains, TypeCount, Get;
    var k := CountedPart(items, ANSWER_TYPE);
    DataString(v, items, k, "type");
    StringAppears(v, DataPath(k, "type"));
    AnswerTypePlain();
    PlainEscape(ANSWER_TYPE);
    PlainMatchesContained(ANSWER_TYPE, Serialize(v));
  }
}
