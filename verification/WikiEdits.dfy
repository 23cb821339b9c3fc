/** Wiki body edits: each replaces the only occurrence of a string, or all of them. */
module WikiEdits {
  import opened Prelude
  import opened Text
  import opened Utf8

  datatype PatchEdit = PatchEdit(oldString: string, newString: string, replaceAll: bool)

  datatype Reason = NotFound | MultipleMatches | EmptyResult

  datatype BodyEditFailure = BodyEditFailure(index: Option<nat>, reason: Reason)

  // ---- Replacing every occurrence ----

  /** The pieces between occurrences found left to right without overlap. */
  function Split(s: string, t: string): (parts: seq<string>)
    requires t != ""
    ensures parts != []
    decreases |s|
  {
    var k := FindFrom(s, t, 0);
    if k.None? then [s] else [s[..k.value]] + Split(s[k.value + |t|..], t)
  }

  function Join(parts: seq<string>, sep: string): string
    requires parts != []
  {
    if |parts| == 1 then parts[0] else parts[0] + sep + Join(parts[1..], sep)
  }

  function ReplaceAll(s: string, t: string, u: string): string
    requires t != ""
  {
    Join(Split(s, t), u)
  }

  /** Each piece is followed by the first occurrence after it; the last piece holds none. */
  predicate IsSplit(parts: seq<string>, s: string, t: string) {
    && parts != [] && Join(parts, t) == s
    && (forall i :: 0 <= i < |parts| - 1 ==> FindFrom(parts[i] + t, t, 0) == Some(|parts[i]|))
    && FindFrom(parts[|parts| - 1], t, 0).None?
  }

  lemma OccursInPrefix(a: string, b: string, t: string, k: nat)
    requires k + |t| <= |a|
    ensures OccursAt(a + b, t, k) <==> OccursAt(a, t, k)
  {
    assert (a + b)[k..k + |t|] == a[k..k + |t|];
  }

  /** An occurrence that ends a prefix is the first of the whole when it is the first of the prefix. */
  lemma FirstOfPrefix(p: string, t: string, rest: string)
    ensures FindFrom(p + t, t, 0) == Some(|p|) <==> FindFrom(p + t + rest, t, 0) == Some(|p|)
  {
    var a, whole := p + t, p + t + rest;
    forall k | 0 <= k <= |p| ensures OccursAt(whole, t, k) <==> OccursAt(a, t, k) {
      OccursInPrefix(a, rest, t, k);
    }
    assert OccursAt(a, t, |p|);
  }

  /** Splitting yields such pieces, so joining them with the separator gives the string back. */
  lemma {:induction false} SplitIsSplit(s: string, t: string)
    requires t != ""
    ensures IsSplit(Split(s, t), s, t)
    decreases |s|
  {
    var k := FindFrom(s, t, 0);
    if k.Some? {
      var head, rest := s[..k.value], s[k.value + |t|..];
      assert s == head + t + rest;
      SplitIsSplit(rest, t);
      FirstOfPrefix(head, t, rest);
      var parts := Split(s, t);
      assert parts == [head] + Split(rest, t) && parts[1..] == Split(rest, t);
    }
  }

  /** There is only one way to split. */
  lemma {:induction false} SplitUnique(parts: seq<string>, s: string, t: string)
    requires t != "" && IsSplit(parts, s, t)
    ensures parts == Split(s, t)
    decreases |parts|
  {
    hide FindFrom, OccursAt;
    if |parts| > 1 {
      var head, rest := parts[0], Join(parts[1..], t);
      assert s == head + t + rest;
      FirstOfPrefix(head, t, rest);
      assert s[..|head|] == head && s[|head| + |t|..] == rest;
      SplitUnique(parts[1..], rest, t);
      assert parts == [head] + parts[1..];
    }
  }

  // ---- One edit ----

  predicate OccursOnce(s: string, t: string) {
    var k := FindFrom(s, t, 0);
    k.Some? && FindFrom(s, t, k.value + 1).None?
  }

  function Splice(s: string, k: nat, n: nat, u: string): string
    requires k + n <= |s|
  {
    s[..k] + u + s[k + n..]
  }

  /** The body after one edit, or why the edit does not apply. */
  function Edited(body: string, e: PatchEdit): Result<string, Reason>
    requires e.oldString != ""
  {
    var k := FindFrom(body, e.oldString, 0);
    if k.None? then Err(NotFound)
    else if e.replaceAll then Ok(ReplaceAll(body, e.oldString, e.newString))
    else if FindFrom(body, e.oldString, k.value + 1).Some? then Err(MultipleMatches)
    else Ok(Splice(body, k.value, |e.oldString|, e.newString))
  }

  /**
   * A single replacement applies exactly when the old string occurs at exactly one
   * position, overlapping occurrences counted, and then it replaces that one.
   */
  lemma SingleEditExact(body: string, e: PatchEdit)
    requires e.oldString != "" && !e.replaceAll
    ensures Edited(body, e).Ok? <==>
              exists k :: OccursAt(body, e.oldString, k) && forall j :: OccursAt(body, e.oldString, j) ==> j == k
    ensures Edited(body, e) == Err(NotFound) <==> forall k :: !OccursAt(body, e.oldString, k)
    ensures forall k :: Edited(body, e).Ok? && OccursAt(body, e.oldString, k) ==>
              Edited(body, e).value == Splice(body, k, |e.oldString|, e.newString)
  {
    var first := FindFrom(body, e.oldString, 0);
    if first.Some? {
      var again := FindFrom(body, e.oldString, first.value + 1);
      if again.Some? {
        assert OccursAt(body, e.oldString, first.value) && OccursAt(body, e.oldString, again.value);
      } else {
        assert OccursAt(body, e.oldString, first.value);
      }
    }
  }

  /** However a string is split at its occurrences, replacing all of them joins the pieces with the new string. */
  lemma ReplaceAllJoins(parts: seq<string>, s: string, t: string, u: string)
    requires t != "" && IsSplit(parts, s, t)
    ensures ReplaceAll(s, t, u) == Join(parts, u)
  {
    SplitUnique(parts, s, t);
  }

  /**
   * Replacing all occurrences applies exactly when there is one, and then every piece
   * between occurrences stays and every occurrence becomes the new string.
   */
  lemma ReplaceAllExact(body: string, e: PatchEdit)
    requires e.oldString != "" && e.replaceAll
    ensures Edited(body, e).Ok? <==> exists k :: OccursAt(body, e.oldString, k)
    ensures Edited(body, e).Err? ==> Edited(body, e) == Err(NotFound)
    ensures forall parts :: Edited(body, e).Ok? && IsSplit(parts, body, e.oldString) ==>
              Edited(body, e).value == Join(parts, e.newString)
    ensures exists parts :: IsSplit(parts, body, e.oldString)
    ensures forall parts :: IsSplit(parts, body, e.oldString) ==> (Edited(body, e).Ok? <==> |parts| > 1)
  {
    hide ReplaceAll, Split, Join, FindFrom;
    var k := FindFrom(body, e.oldString, 0);
    if k.Some? {
      assert OccursAt(body, e.oldString, k.value);
    }
    SplitIsSplit(body, e.oldString);
    forall parts | IsSplit(parts, body, e.oldString)
      ensures ReplaceAll(body, e.oldString, e.newString) == Join(parts, e.newString)
      ensures k.Some? <==> |parts| > 1
    {
      ReplaceAllJoins(parts, body, e.oldString, e.newString);
      SplitUnique(parts, body, e.oldString);
      PiecesCount(body, e.oldString);
    }
  }

  lemma PiecesCount(s: string, t: string)
    requires t != ""
    ensures |Split(s, t)| > 1 <==> FindFrom(s, t, 0).Some?
  {
  }

  function Swapped(e: PatchEdit): PatchEdit {
    PatchEdit(e.newString, e.oldString, e.replaceAll)
  }

  /**
   * After a single replacement, the swapped edit applies exactly when the new string
   * then occurs once, and in that case it restores the body.
   */
  lemma SwapRestores(body: string, e: PatchEdit)
    requires e.oldString != "" && e.newString != "" && !e.replaceAll && Edited(body, e).Ok?
    ensures var result := Edited(body, e).value;
            && (Edited(result, Swapped(e)).Ok? <==> OccursOnce(result, e.newString))
            && (OccursOnce(result, e.newString) ==> Edited(result, Swapped(e)) == Ok(body))
  {
    var k := FindFrom(body, e.oldString, 0).value;
    var result := Edited(body, e).value;
    var a, b := body[..k], body[k + |e.oldString|..];
    assert result == a + e.newString + b && body == a + e.oldString + b;
    assert result[k..k + |e.newString|] == e.newString;
    assert OccursAt(result, e.newString, k);
    if OccursOnce(result, e.newString) {
      assert FindFrom(result, e.newString, 0) == Some(k);
      assert result[..k] == a && result[k + |e.newString|..] == b;
    }
  }

  // ---- Searching in bytes ----

  lemma ByteLenGrows(s: string, i: nat, j: nat)
    requires i < j <= |s|
    ensures ByteLen(s[..i]) < ByteLen(s[..j])
  {
    WeighPrefixes(s, i, j, Width);
  }

  /** The first byte match is where the first character match is. */
  lemma FindInBytes(s: string, t: string)
    requires t != ""
    ensures FindFrom(Encode(s), Encode(t), 0) ==
            var k := FindFrom(s, t, 0); if k.Some? then Some(ByteLen(s[..k.value])) else None
  {
    hide Encode;
    var k, p := FindFrom(s, t, 0), FindFrom(Encode(s), Encode(t), 0);
    if p.Some? {
      var j := MatchOnBoundary(s, t, p.value);
      assert OccursAt(s, t, j) && k.Some? && k.value <= j;
      OccursEncoded(s, t, k.value);
      if k.value < j {
        ByteLenGrows(s, k.value, j);
      }
    } else if k.Some? {
      OccursEncoded(s, t, k.value);
    }
  }

  lemma OccursInSuffix(s: seq<Byte>, t: seq<Byte>, from: nat, p: nat)
    requires from <= |s|
    ensures OccursAt(s[from..], t, p) <==> OccursAt(s, t, from + p)
  {
    if from + p + |t| <= |s| {
      assert s[from..][p..p + |t|] == s[from + p..from + p + |t|];
    }
  }

  /** A byte match starting past the first one's first byte is a later character match. */
  lemma FindAgainInBytes(s: string, t: string, k: nat)
    requires t != "" && OccursAt(s, t, k)
    ensures ByteLen(s[..k]) + 1 <= |Encode(s)|
    ensures FindFrom(Encode(s)[ByteLen(s[..k]) + 1..], Encode(t), 0).Some? <==> FindFrom(s, t, k + 1).Some?
  {
    hide Encode;
    var es, et, from := Encode(s), Encode(t), ByteLen(s[..k]) + 1;
    EncodeLength(s);
    ByteLenGrows(s, k, |s|);
    assert s[..|s|] == s;
    var later, p := FindFrom(s, t, k + 1), FindFrom(es[from..], et, 0);
    if later.Some? {
      OccursEncoded(s, t, later.value);
      ByteLenGrows(s, k, later.value);
      OccursInSuffix(es, et, from, ByteLen(s[..later.value]) - from);
    }
    if p.Some? {
      OccursInSuffix(es, et, from, p.value);
      var j := MatchOnBoundary(s, t, from + p.value);
      if j <= k {
        WeighPrefixes(s, j, k, Width);
        assert false;
      }
    }
  }

  /** The characters from byte offset `b` on. */
  function ByteSuffix(s: string, b: nat): string
    requires IsCharBoundary(s, b)
  {
    s[|BytePrefix(s, b)|..]
  }

  /** Slicing at the byte offset of a character gives the characters after it. */
  lemma SliceAt(s: string, k: nat)
    requires k <= |s|
    ensures IsCharBoundary(s, ByteLen(s[..k]))
    ensures BytePrefix(s, ByteLen(s[..k])) == s[..k] && ByteSuffix(s, ByteLen(s[..k])) == s[k..]
  {
    hide BytePrefix, IsCharBoundary, ByteLen;
    BytePrefixOfPrefix(s, k);
  }

  /** Both ends of a match can be sliced at, and leave what surrounds it. */
  lemma CutOut(s: string, t: string, k: nat)
    requires OccursAt(s, t, k)
    ensures var pos := ByteLen(s[..k]);
            var end := pos + |Encode(t)|;
            && IsCharBoundary(s, pos) && IsCharBoundary(s, end)
            && BytePrefix(s, pos) == s[..k] && ByteSuffix(s, end) == s[k + |t|..]
  {
    hide BytePrefix, IsCharBoundary, ByteSuffix, Encode;
    assert s[..k + |t|] == s[..k] + t;
    WeighAppend(s[..k], t, Width);
    EncodeLength(t);
    SliceAt(s, k);
    SliceAt(s, k + |t|);
  }

  // ---- A list of edits ----

  /** Every edit names something to look for; the request handler refuses empty ones. */
  predicate Searchable(edits: seq<PatchEdit>) {
    forall i :: 0 <= i < |edits| ==> edits[i].oldString != ""
  }

  /** The edits from the `i`-th on, applied in order until one fails. */
  function EditsFrom(body: string, edits: seq<PatchEdit>, i: nat): Result<string, BodyEditFailure>
    requires Searchable(edits) && i <= |edits|
    decreases |edits| - i
  {
    if i == |edits| then
      if body == "" then Err(BodyEditFailure(None, EmptyResult)) else Ok(body)
    else
      var r := Edited(body, edits[i]);
      if r.Err? then Err(BodyEditFailure(Some(i), r.error)) else EditsFrom(r.value, edits, i + 1)
  }

  /** Replace one occurrence, looked for and cut out in bytes. */
  method ReplaceOne(current: string, edit: PatchEdit) returns (r: Result<string, Reason>)
    requires edit.oldString != "" && !edit.replaceAll
    ensures r == Edited(current, edit)
  {
    hide Encode, BytePrefix, IsCharBoundary, ByteSuffix, ByteLen;
    var bytes, needle := Encode(current), Encode(edit.oldString);
    FindInBytes(current, edit.oldString);
    var found := FindFrom(bytes, needle, 0);
    if found.None? {
      return Err(NotFound);
    }
    var pos := found.value;
    ghost var k := FindFrom(current, edit.oldString, 0).value;
    FindAgainInBytes(current, edit.oldString, k);
    if pos + 1 <= |bytes| && FindFrom(bytes[pos + 1..], needle, 0).Some? {
      return Err(MultipleMatches);
    }
    var restStart := pos + |needle|;
    CutOut(current, edit.oldString, k);
    r := Ok(BytePrefix(current, pos) + edit.newString + ByteSuffix(current, restStart));
  }

  method ApplyEdits(body: string, edits: seq<PatchEdit>) returns (r: Result<string, BodyEditFailure>)
    requires Searchable(edits)
    ensures r == EditsFrom(body, edits, 0)
  {
    var current := body;
    for i := 0 to |edits|
      invariant EditsFrom(current, edits, i) == EditsFrom(body, edits, 0)
    {
      var edit := edits[i];
      if edit.replaceAll {
        FindInBytes(current, edit.oldString);
        if FindFrom(Encode(current), Encode(edit.oldString), 0).None? {
          return Err(BodyEditFailure(Some(i), NotFound));
        }
        current := ReplaceAll(current, edit.oldString, edit.newString);
      } else {
        var one := ReplaceOne(current, edit);
        if one.Err? {
          return Err(BodyEditFailure(Some(i), one.error));
        }
        current := one.value;
      }
    }
    if current == "" {
      return Err(BodyEditFailure(None, EmptyResult));
    }
    r := Ok(current);
  }

  // ---- Undoing a patch ----

  /** The edits in order, without positions. */
  function EditedAll(body: string, edits: seq<PatchEdit>): Result<string, Reason>
    requires Searchable(edits)
    decreases |edits|
  {
    if edits == [] then Ok(body)
    else
      var r := Edited(body, edits[0]);
      if r.Err? then r else EditedAll(r.value, edits[1..])
  }

  lemma {:induction false} EditsFromAll(body: string, edits: seq<PatchEdit>, i: nat)
    requires Searchable(edits) && i <= |edits|
    ensures var r := EditedAll(body, edits[i..]);
            EditsFrom(body, edits, i).Ok? <==> r.Ok? && r.value != ""
    ensures EditsFrom(body, edits, i).Ok? ==> EditsFrom(body, edits, i).value == EditedAll(body, edits[i..]).value
    decreases |edits| - i
  {
    if i < |edits| {
      var r := Edited(body, edits[i]);
      assert edits[i..][1..] == edits[i + 1..];
      if r.Ok? {
        EditsFromAll(r.value, edits, i + 1);
      }
    }
  }

  /**
   * The position a patch fails at is that of the first edit that does not apply to what
   * the edits before it made of the body, and the reason is that edit's.
   */
  lemma {:induction false} FirstFailure(body: string, edits: seq<PatchEdit>, i: nat, j: nat, reason: Reason)
    requires Searchable(edits) && i <= |edits|
    ensures EditsFrom(body, edits, i) == Err(BodyEditFailure(Some(j), reason)) <==>
            && i <= j < |edits| && EditedAll(body, edits[i..j]).Ok?
            && Edited(EditedAll(body, edits[i..j]).value, edits[j]) == Err(reason)
    decreases |edits| - i
  {
    hide Edited;
    if i < |edits| {
      var r := Edited(body, edits[i]);
      if i < j < |edits| {
        assert edits[i..j][0] == edits[i] && edits[i..j][1..] == edits[i + 1..j];
      }
      if r.Ok? {
        FirstFailure(r.value, edits, i + 1, j, reason);
      }
    }
  }

  /** A patch whose edits all apply is refused exactly when it empties the body. */
  lemma {:induction false} EmptyRefused(body: string, edits: seq<PatchEdit>, i: nat)
    requires Searchable(edits) && i <= |edits|
    ensures EditsFrom(body, edits, i) == Err(BodyEditFailure(None, EmptyResult)) <==>
            EditedAll(body, edits[i..]) == Ok("")
    decreases |edits| - i
  {
    hide Edited;
    if i < |edits| {
      var r := Edited(body, edits[i]);
      assert edits[i..][1..] == edits[i + 1..];
      if r.Ok? {
        EmptyRefused(r.value, edits, i + 1);
      }
    }
  }

  lemma {:induction false} EditedAllAppend(body: string, a: seq<PatchEdit>, b: seq<PatchEdit>)
    requires Searchable(a) && Searchable(b) && EditedAll(body, a).Ok?
    ensures Searchable(a + b) && EditedAll(body, a + b) == EditedAll(EditedAll(body, a).value, b)
    decreases |a|
  {
    if a == [] {
      assert a + b == b;
    } else {
      assert (a + b)[1..] == a[1..] + b;
      EditedAllAppend(Edited(body, a[0]).value, a[1..], b);
    }
  }

  /** Each edit is a single replacement whose new string then occurs once. */
  predicate Reversible(body: string, edits: seq<PatchEdit>)
    requires Searchable(edits)
    decreases |edits|
  {
    edits == [] ||
    var e, r := edits[0], Edited(body, edits[0]);
    && !e.replaceAll && e.newString != "" && r.Ok? && OccursOnce(r.value, e.newString)
    && Reversible(r.value, edits[1..])
  }

  /** The swapped edits, last first. */
  function Undo(edits: seq<PatchEdit>): seq<PatchEdit> {
    if edits == [] then [] else Undo(edits[1..]) + [Swapped(edits[0])]
  }

  lemma {:induction false} UndoRestores(body: string, edits: seq<PatchEdit>)
    requires Searchable(edits) && Reversible(body, edits)
    ensures Searchable(Undo(edits)) && EditedAll(body, edits).Ok?
    ensures EditedAll(EditedAll(body, edits).value, Undo(edits)) == Ok(body)
    decreases |edits|
  {
    if edits != [] {
      var e, rest := edits[0], edits[1..];
      var r := Edited(body, e).value;
      UndoRestores(r, rest);
      SwapRestores(body, e);
      hide Edited, OccursOnce;
      EditedAllAppend(EditedAll(r, rest).value, Undo(rest), [Swapped(e)]);
      assert [Swapped(e)][1..] == [];
    }
  }

  /** A reversible patch of a nonempty body is undone by its swapped edits in reverse. */
  lemma PatchRoundTrip(body: string, edits: seq<PatchEdit>)
    requires Searchable(edits) && Reversible(body, edits) && body != "" && EditsFrom(body, edits, 0).Ok?
    ensures Searchable(Undo(edits)) && EditsFrom(EditsFrom(body, edits, 0).value, Undo(edits), 0) == Ok(body)
  {
    UndoRestores(body, edits);
    EditsFromAll(body, edits, 0);
    EditsFromAll(EditsFrom(body, edits, 0).value, Undo(edits), 0);
    assert edits[0..] == edits && Undo(edits)[0..] == Undo(edits);
  }
}
