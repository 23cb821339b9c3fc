/** Shrinking an event payload until its serialized form fits the budget. */
module PayloadBudget {
  import opened Prelude
  import opened Text
  import opened Json
  import opened PayloadTree
  import SharedCeiling

  const MAX_PASSES: nat := 32
  const LEAF_PROTECTION_FLOOR_BYTES: nat := 256
  const EVENT_STRING_LEAF_MAX_BYTES: nat := 16 * 1024
  const EVENT_PAYLOAD_BUDGET_BYTES: nat := 64 * 1024

  datatype Outcome = Outcome(payload: Json, omittedPaths: seq<string>, changed: bool, finalSize: nat)

  /** A leaf that may be shortened, with the length it currently has. */
  datatype Slot = Slot(path: Path, len: nat)

  // ---- Paths ----

  function PathText(path: Path): string {
    if path == [] then "" else
    var init, last := PathText(path[..|path| - 1]), path[|path| - 1];
    match last
    case Key(k) => (if init == "" then "" else init + ".") + k
    case Index(i) => init + "[" + Decimal(i) + "]"
  }

  method FormatPath(path: Path) returns (out: string)
    ensures out == PathText(path)
  {
    out := "";
    for i := 0 to |path|
      invariant out == PathText(path[..i])
    {
      assert path[..i + 1][..i] == path[..i];
      match path[i] {
        case Key(k) =>
          if out != "" {
            out := out + ".";
          }
          out := out + k;
        case Index(n) =>
          out := out + "[" + Decimal(n) + "]";
      }
    }
    assert path[..|path|] == path;
  }

  /** Where encoded attachments live: they are emptied whole, never shortened. */
  predicate IsAttachment(path: Path) {
    || (|path| == 3 && path[0] == Key("parts") && path[1].Index? && path[2] == Key("raw"))
    || (|path| == 4 && path[0] == Key("content") && path[1].Index?
        && path[2] == Key("source") && path[3] == Key("data"))
  }

  /** An attachment is the `raw` of one of the parts or the `data` of a content item's source, and nothing else. */
  lemma AttachmentPaths(path: Path)
    ensures IsAttachment(path) <==> exists i: nat :: path == RawPath(i) || path == DataPath(i)
  {
    if IsAttachment(path) {
      assert path == if |path| == 3 then RawPath(path[1].index) else DataPath(path[1].index);
    }
  }

  function RawPath(i: nat): Path {
    [Key("parts"), Index(i), Key("raw")]
  }

  function DataPath(i: nat): Path {
    [Key("content"), Index(i), Key("source"), Key("data")]
  }

  lemma RawText(i: nat)
    ensures PathText(RawPath(i)) == "parts[" + Decimal(i) + "].raw"
  {
    hide PathText, Decimal;
    var path := [Key("parts"), Index(i)];
    TextOfIndexed("parts", i);
    TextOfMember(path, "raw");
    assert path + [Key("raw")] == RawPath(i);
    assert "parts" + "[" == "parts[" && "]" + "." + "raw" == "].raw";
    Regroup("parts" + "[", Decimal(i), "]", ".", "raw");
  }

  lemma DataText(i: nat)
    ensures PathText(DataPath(i)) == "content[" + Decimal(i) + "].source.data"
  {
    hide PathText, Decimal;
    var path := [Key("content"), Index(i)];
    TextOfIndexed("content", i);
    TextOfMember(path, "source");
    assert path + [Key("source")] == [Key("content"), Index(i), Key("source")];
    TextOfMember(path + [Key("source")], "data");
    assert path + [Key("source")] + [Key("data")] == DataPath(i);
    assert "content" + "[" == "content[" && "]" + "." + "source" == "].source";
    assert "].source" + "." + "data" == "].source.data";
    Regroup("content[", Decimal(i), "]", ".", "source");
    Regroup("content[", Decimal(i), "].source", ".", "data");
  }

  lemma Regroup(a: string, b: string, c: string, d: string, e: string)
    ensures a + b + c + d + e == a + b + (c + d + e)
  {
  }

  lemma TextOfIndexed(key: string, i: nat)
    ensures PathText([Key(key), Index(i)]) == key + "[" + Decimal(i) + "]"
  {
    assert [Key(key), Index(i)][..1] == [Key(key)] && [Key(key)][..0] == [];
    assert PathText([Key(key)]) == "" + key == key;
  }

  lemma TextOfMember(path: Path, key: string)
    requires PathText(path) != ""
    ensures PathText(path + [Key(key)]) == PathText(path) + "." + key
  {
    assert (path + [Key(key)])[..|path|] == path;
  }

  /** The leaves shortening may reduce: attachments, and anything over the protection floor. */
  predicate Emptiable(path: Path, text: string) {
    IsAttachment(path) || ByteLen(text) > LEAF_PROTECTION_FLOOR_BYTES
  }

  predicate Target(orig: Json, path: Path) {
    StringAt(orig, path) && !IsAttachment(path) && ByteLen(TextAt(orig, path)) > LEAF_PROTECTION_FLOOR_BYTES
  }

  // ---- What a served payload may look like ----

  /** Two containers with the same keys or the same number of elements. */
  predicate SameShell(a: Json, b: Json) {
    || (a.Arr? && b.Arr? && |a.items| == |b.items|)
    || (a.Obj? && b.Obj? && |a.fields| == |b.fields|
        && forall j :: 0 <= j < |a.fields| ==> a.fields[j].key == b.fields[j].key)
  }

  /**
   * `v` is `orig` with the same structure, keys and non-string values; every
   * string is a character prefix of its original, and protected strings are intact.
   */
  ghost predicate Served(orig: Json, v: Json, path: Path)
    decreases orig
  {
    match orig
    case Str(s) => v.Str? && v.s <= s && (!Emptiable(path, s) ==> v.s == s)
    case Null => v == orig
    case Bool(_) => v == orig
    case Int(_) => v == orig
    case Float(_) => v == orig
    case _ =>
      SameShell(orig, v) && forall j :: 0 <= j < |Kids(orig)| ==>
        Served(Kids(orig)[j], Kids(v)[j], path + [SegAt(orig, j)])
  }

  /** What one leaf becomes when reducible leaves are held to `limit` bytes. */
  function Reduced(path: Path, text: string, limit: nat): string {
    if IsAttachment(path) then ""
    else if ByteLen(text) > LEAF_PROTECTION_FLOOR_BYTES then LongestPrefix(text, limit, Width)
    else text
  }

  /**
   * `orig` with attachments emptied and every leaf over the protection floor cut
   * to the longest character prefix of at most `limit` bytes.
   */
  function Limited(orig: Json, path: Path, limit: nat): Json
    decreases orig
  {
    match orig
    case Str(s) => Str(Reduced(path, s, limit))
    case Arr(items) =>
      Arr(seq(|items|, j requires 0 <= j < |items| => Limited(items[j], path + [Index(j)], limit)))
    case Obj(fields) =>
      Obj(seq(|fields|, j requires 0 <= j < |fields| =>
            Field(fields[j].key, Limited(fields[j].value, path + [Key(fields[j].key)], limit))))
    case _ => orig
  }

  /** Every leaf shortening may reduce is emptied. */
  function Emptied(orig: Json): Json {
    Limited(orig, [], 0)
  }

  lemma {:induction false} ServedSelf(orig: Json, path: Path)
    ensures Served(orig, orig, path)
    decreases orig
  {
    forall j | 0 <= j < |Kids(orig)| ensures Served(Kids(orig)[j], Kids(orig)[j], path + [SegAt(orig, j)]) {
      ServedSelf(Kids(orig)[j], path + [SegAt(orig, j)]);
    }
  }

  lemma LocateSameShell(a: Json, b: Json, seg: Seg)
    requires SameShell(a, b)
    ensures Locate(a, seg) == Locate(b, seg)
  {
    if a.Obj? && seg.Key? {
      FieldIndexSameKeys(a.fields, b.fields, seg.key);
    }
  }

  /** A child of a served payload is the served form of the child. */
  lemma ServedKid(orig: Json, v: Json, path: Path, seg: Seg)
    requires Served(orig, v, path) && Locate(orig, seg).Some?
    ensures Locate(v, seg) == Locate(orig, seg)
    ensures var j := Locate(orig, seg).value; Served(Kids(orig)[j], Kids(v)[j], path + [seg])
  {
    LocateSameShell(orig, v, seg);
  }

  /** A served payload keeps every string at its path, as a prefix. */
  lemma {:induction false} ServedAt(orig: Json, v: Json, path: Path, rel: Path)
    requires Served(orig, v, path) && StringAt(orig, rel)
    ensures StringAt(v, rel) && TextAt(v, rel) <= TextAt(orig, rel)
    ensures !Emptiable(path + rel, TextAt(orig, rel)) ==> TextAt(v, rel) == TextAt(orig, rel)
    decreases |rel|
  {
    if rel == [] {
      assert path + rel == path;
    } else {
      StringStep(orig, rel);
      ServedKid(orig, v, path, rel[0]);
      var j := Locate(orig, rel[0]).value;
      ServedAt(Kids(orig)[j], Kids(v)[j], path + [rel[0]], rel[1..]);
      StringUnstep(v, rel);
      assert path + [rel[0]] + rel[1..] == path + rel;
    }
  }

  /** Shortening one reducible string keeps the payload servable. */
  lemma {:induction false} ServedSet(orig: Json, v: Json, path: Path, rel: Path, t: string)
    requires Served(orig, v, path) && StringAt(orig, rel) && StringAt(v, rel)
    requires t <= TextAt(orig, rel) && Emptiable(path + rel, TextAt(orig, rel))
    ensures Served(orig, SetAt(v, rel, Str(t)), path)
    decreases |rel|
  {
    hide Served, Emptiable, WithKid, TextAt, StringAt, Kids, Locate, At, SetAt;
    if rel == [] {
      assert path + rel == path;
      ServedLeaf(orig, v, path, t);
    } else {
      StringStep(orig, rel);
      var j := Locate(orig, rel[0]).value;
      ServedKid(orig, v, path, rel[0]);
      StringStep(v, rel);
      SetAtStep(v, rel, t);
      assert path + [rel[0]] + rel[1..] == path + rel;
      ServedSet(Kids(orig)[j], Kids(v)[j], path + [rel[0]], rel[1..], t);
      ServedWithKid(orig, v, path, j, SetAt(Kids(v)[j], rel[1..], Str(t)));
    }
  }

  lemma ServedLeaf(orig: Json, v: Json, path: Path, t: string)
    requires StringAt(orig, []) && StringAt(v, [])
    requires t <= TextAt(orig, []) && Emptiable(path, TextAt(orig, []))
    ensures Served(orig, SetAt(v, [], Str(t)), path)
  {
  }

  lemma ServedWithKid(orig: Json, v: Json, path: Path, j: nat, w: Json)
    requires Served(orig, v, path) && j < |Kids(orig)| && j < |Kids(v)|
    requires Served(Kids(orig)[j], w, path + [SegAt(orig, j)])
    ensures Served(orig, WithKid(v, j, w), path)
  {
  }

  lemma LimitedShell(orig: Json, path: Path, limit: nat)
    requires orig.Arr? || orig.Obj?
    ensures SameShell(orig, Limited(orig, path, limit))
    ensures forall j :: 0 <= j < |Kids(orig)| ==>
              Kids(Limited(orig, path, limit))[j] == Limited(Kids(orig)[j], path + [SegAt(orig, j)], limit)
  {
  }

  lemma SameShellSize(a: Json, b: Json)
    requires SameShell(a, b)
    ensures Size(a) + SizeSum(Kids(b)) == Size(b) + SizeSum(Kids(a))
  {
    ContainerSize(a);
    ContainerSize(b);
    if a.Obj? {
      KeysSizeSame(a.fields, b.fields);
    }
  }

  /** No served payload is smaller than the emptied one. */
  lemma {:induction false} EmptiedIsSmallest(orig: Json, v: Json, path: Path)
    requires Served(orig, v, path)
    ensures Size(Limited(orig, path, 0)) <= Size(v)
    decreases orig, |Kids(orig)| + 1
  {
    if orig.Str? {
      StrSize(v.s);
      StrSize(Reduced(path, orig.s, 0));
    } else if orig.Arr? || orig.Obj? {
      LimitedShell(orig, path, 0);
      EmptiedKidsSmallest(orig, v, path, 0);
      SameShellSize(Limited(orig, path, 0), v);
    }
  }

  lemma {:induction false} EmptiedKidsSmallest(orig: Json, v: Json, path: Path, j: nat)
    requires (orig.Arr? || orig.Obj?) && Served(orig, v, path) && j <= |Kids(orig)|
    ensures SizeSum(Kids(Limited(orig, path, 0))[j..]) <= SizeSum(Kids(v)[j..])
    decreases orig, |Kids(orig)| - j
  {
    hide Size, Limited, Reduced;
    LimitedShell(orig, path, 0);
    if j < |Kids(orig)| {
      EmptiedIsSmallest(Kids(orig)[j], Kids(v)[j], path + [SegAt(orig, j)]);
      EmptiedKidsSmallest(orig, v, path, j + 1);
      assert Kids(v)[j..][1..] == Kids(v)[j + 1..];
      assert Kids(Limited(orig, path, 0))[j..][1..] == Kids(Limited(orig, path, 0))[j + 1..];
    }
  }

  ghost predicate TextsReduced(orig: Json, v: Json, path: Path, limit: nat) {
    forall rel :: StringAt(orig, rel) ==>
      StringAt(v, rel) && TextAt(v, rel) == Reduced(path + rel, TextAt(orig, rel), limit)
  }

  lemma TextsReducedKid(orig: Json, v: Json, path: Path, limit: nat, j: nat)
    requires WellKeyed(orig) && SameShell(orig, v) && j < |Kids(orig)|
    requires TextsReduced(orig, v, path, limit)
    ensures TextsReduced(Kids(orig)[j], Kids(v)[j], path + [SegAt(orig, j)], limit)
  {
    var sub := path + [SegAt(orig, j)];
    hide Reduced;
    LocateSeg(orig, j);
    LocateSameShell(orig, v, SegAt(orig, j));
    hide Locate, SegAt, WellKeyed, SameShell;
    forall rel | StringAt(Kids(orig)[j], rel)
      ensures StringAt(Kids(v)[j], rel)
      ensures TextAt(Kids(v)[j], rel) == Reduced(sub + rel, TextAt(Kids(orig)[j], rel), limit)
    {
      var full := [SegAt(orig, j)] + rel;
      assert full[1..] == rel && path + full == sub + rel;
      assert StringAt(orig, full) && TextAt(orig, full) == TextAt(Kids(orig)[j], rel);
    }
  }

  /** The strings of a served payload determine it. */
  lemma {:induction false} TextsDetermine(orig: Json, v: Json, path: Path, limit: nat)
    requires WellKeyed(orig) && Served(orig, v, path) && TextsReduced(orig, v, path, limit)
    ensures v == Limited(orig, path, limit)
    decreases orig
  {
    if orig.Str? {
      assert StringAt(orig, []) && path + [] == path;
    } else if orig.Arr? || orig.Obj? {
      var e := Limited(orig, path, limit);
      LimitedShell(orig, path, limit);
      forall j | 0 <= j < |Kids(orig)| ensures Kids(v)[j] == Kids(e)[j] {
        TextsReducedKid(orig, v, path, limit, j);
        TextsDetermine(Kids(orig)[j], Kids(v)[j], path + [SegAt(orig, j)], limit);
      }
      if orig.Arr? {
        assert v.items == e.items;
      } else {
        assert forall j :: 0 <= j < |v.fields| ==> v.fields[j] == e.fields[j];
        assert v.fields == e.fields;
      }
    }
  }

  // ---- The state of a shortening run ----

  function Lens(slots: seq<Slot>): seq<nat> {
    seq(|slots|, k requires 0 <= k < |slots| => slots[k].len)
  }

  function Total(slots: seq<Slot>): nat {
    if slots == [] then 0 else slots[0].len + Total(slots[1..])
  }

  predicate SlotPathsDistinct(slots: seq<Slot>) {
    forall j, k :: 0 <= j < k < |slots| ==> slots[j].path != slots[k].path
  }

  /** The slots are the target leaves of `orig`, each exactly once. */
  ghost predicate CoversTargets(orig: Json, slots: seq<Slot>) {
    && SlotPathsDistinct(slots)
    && (forall k :: 0 <= k < |slots| ==> Target(orig, slots[k].path))
    && (forall p :: Target(orig, p) ==> exists k :: 0 <= k < |slots| && slots[k].path == p)
  }

  /** Each slot records the byte length its leaf has in `v`. */
  ghost predicate Measures(v: Json, slots: seq<Slot>) {
    forall k :: 0 <= k < |slots| ==>
      StringAt(v, slots[k].path) && slots[k].len == ByteLen(TextAt(v, slots[k].path))
  }

  ghost predicate AttachmentsEmpty(orig: Json, v: Json) {
    forall p :: StringAt(orig, p) && IsAttachment(p) ==> StringAt(v, p) && TextAt(v, p) == ""
  }

  /** What holds of the payload and its slots between writes. */
  ghost predicate Working(orig: Json, v: Json, slots: seq<Slot>) {
    && Served(orig, v, [])
    && AttachmentsEmpty(orig, v)
    && CoversTargets(orig, slots)
    && Measures(v, slots)
  }

  lemma PrefixLen(a: string, b: string, w: char -> nat)
    requires a <= b
    ensures Weigh(b, w) == Weigh(a, w) + Weigh(b[|a|..], w)
  {
    assert b == a + b[|a|..];
    WeighAppend(a, b[|a|..], w);
  }

  /** Cutting a string saves at least as many serialized bytes as raw ones. */
  lemma CutSavesEscaped(a: string, b: string)
    requires a <= b
    ensures EscapedLen(a) + (ByteLen(b) - ByteLen(a)) <= EscapedLen(b)
    ensures ByteLen(a) <= ByteLen(b)
  {
    PrefixLen(a, b, Width);
    PrefixLen(a, b, EscapedWidth);
    EscapingNeverShrinks(b[|a|..]);
  }

  lemma {:induction false} TotalUpdate(slots: seq<Slot>, k: nat, s: Slot)
    requires k < |slots|
    ensures Total(slots[k := s]) + slots[k].len == Total(slots) + s.len
  {
    if k == 0 {
      assert slots[k := s][1..] == slots[1..];
    } else {
      TotalUpdate(slots[1..], k - 1, s);
      assert slots[k := s][1..] == slots[1..][k - 1 := s];
    }
  }

  /** One write: the run's facts survive and size falls by at least what the slots give up. */
  lemma WriteSlot(orig: Json, v: Json, slots: seq<Slot>, k: nat, t: string)
    requires Working(orig, v, slots) && k < |slots|
    requires t <= TextAt(v, slots[k].path)
    ensures var p := slots[k].path;
            var v' := SetAt(v, p, Str(t));
            var slots' := slots[k := Slot(p, ByteLen(t))];
            && Working(orig, v', slots')
            && ByteLen(t) <= slots[k].len
            && Size(v') + Total(slots) <= Size(v) + Total(slots')
  {
    var p := slots[k].path;
    var v' := SetAt(v, p, Str(t));
    var slots' := slots[k := Slot(p, ByteLen(t))];
    assert [] + p == p;
    ServedAt(orig, v, [], p);
    ServedSet(orig, v, [], p, t);
    SetAtSize(v, p, t);
    CutSavesEscaped(t, TextAt(v, p));
    TotalUpdate(slots, k, Slot(p, ByteLen(t)));
    forall j | 0 <= j < |slots'|
      ensures StringAt(v', slots'[j].path) && slots'[j].len == ByteLen(TextAt(v', slots'[j].path))
    {
      SetAtOther(v, p, slots[j].path, t);
    }
    forall q | StringAt(orig, q) && IsAttachment(q) ensures StringAt(v', q) && TextAt(v', q) == "" {
      SetAtOther(v, p, q, t);
    }
    SamePathsCover(orig, slots, slots');
  }

  lemma SamePathsCover(orig: Json, a: seq<Slot>, b: seq<Slot>)
    requires CoversTargets(orig, a)
    requires |a| == |b| && forall k :: 0 <= k < |a| ==> a[k].path == b[k].path
    ensures CoversTargets(orig, b)
  {
  }

  // ---- Emptying attachments ----

  /** The formatted paths of the attachments that hold anything. */
  function OmittedPaths(leaves: seq<Leaf>): seq<string> {
    if leaves == [] then []
    else
      var last := leaves[|leaves| - 1];
      OmittedPaths(leaves[..|leaves| - 1])
        + if IsAttachment(last.path) && ByteLen(last.text) > 0 then [PathText(last.path)] else []
  }

  lemma {:induction false} OmittedFrom(leaves: seq<Leaf>, text: string)
    ensures text in OmittedPaths(leaves) <==>
            exists leaf :: leaf in leaves && IsAttachment(leaf.path) && leaf.text != "" && PathText(leaf.path) == text
  {
    hide IsAttachment, PathText;
    if leaves != [] {
      var init, last := leaves[..|leaves| - 1], leaves[|leaves| - 1];
      OmittedFrom(init, text);
      assert leaves == init + [last];
      EmptyHasNoBytes(last.text);
    }
  }

  lemma EmptyHasNoBytes(s: string)
    ensures ByteLen(s) > 0 <==> s != ""
  {
  }

  /** The omitted paths name exactly the attachments that held text. */
  lemma OmittedExact(v: Json, text: string)
    requires WellKeyed(v)
    ensures text in OmittedPaths(Collect(v, [])) <==>
            exists p :: StringAt(v, p) && IsAttachment(p) && TextAt(v, p) != "" && PathText(p) == text
  {
    hide IsAttachment, PathText;
    OmittedFrom(Collect(v, []), text);
    if text in OmittedPaths(Collect(v, [])) {
      var leaf :| leaf in Collect(v, []) && IsAttachment(leaf.path) && leaf.text != "" && PathText(leaf.path) == text;
      CollectExact(v, leaf.path, leaf.text);
      assert StringAt(v, leaf.path) && TextAt(v, leaf.path) == leaf.text;
    }
    if p :| StringAt(v, p) && IsAttachment(p) && TextAt(v, p) != "" && PathText(p) == text {
      CollectExact(v, p, TextAt(v, p));
      assert Leaf(p, TextAt(v, p)) in Collect(v, []);
    }
  }

  /** Whether `p` is the path of one of the first `n` leaves. */
  ghost predicate AmongFirst(leaves: seq<Leaf>, n: nat, p: Path)
    requires n <= |leaves|
  {
    exists i :: 0 <= i < n && leaves[i].path == p
  }

  /** `v` is `orig` with the attachments among the first `n` leaves emptied. */
  ghost predicate EmptiedUpTo(orig: Json, v: Json, leaves: seq<Leaf>, n: nat)
    requires n <= |leaves|
  {
    Served(orig, v, []) && forall p :: StringAt(orig, p) ==> TextOk(orig, v, leaves, n, p)
  }

  ghost predicate TextOk(orig: Json, v: Json, leaves: seq<Leaf>, n: nat, p: Path)
    requires n <= |leaves| && StringAt(orig, p)
  {
    && StringAt(v, p)
    && (IsAttachment(p) && AmongFirst(leaves, n, p) ==> TextAt(v, p) == "")
    && (!IsAttachment(p) ==> TextAt(v, p) == TextAt(orig, p))
  }

  lemma EmptyText(orig: Json, v: Json, leaves: seq<Leaf>, i: nat, p: Path)
    requires i < |leaves| && StringAt(orig, p) && TextOk(orig, v, leaves, i, p)
    requires StringAt(v, leaves[i].path) && IsAttachment(leaves[i].path)
    ensures TextOk(orig, SetAt(v, leaves[i].path, Str("")), leaves, i + 1, p)
  {
    hide At, SetAt, IsAttachment;
    SetAtOther(v, leaves[i].path, p, "");
    if p != leaves[i].path && AmongFirst(leaves, i + 1, p) {
      var k :| 0 <= k < i + 1 && leaves[k].path == p;
      assert AmongFirst(leaves, i, p);
    }
  }

  lemma EmptyOne(orig: Json, v: Json, leaves: seq<Leaf>, i: nat)
    requires i < |leaves| && EmptiedUpTo(orig, v, leaves, i)
    requires StringAt(orig, leaves[i].path) && IsAttachment(leaves[i].path)
    ensures StringAt(v, leaves[i].path)
    ensures EmptiedUpTo(orig, SetAt(v, leaves[i].path, Str("")), leaves, i + 1)
  {
    var q := leaves[i].path;
    assert [] + q == q;
    assert TextOk(orig, v, leaves, i, q);
    ServedSet(orig, v, [], q, "");
    hide Served, At, SetAt, IsAttachment, TextOk, StringAt;
    forall p | StringAt(orig, p) ensures TextOk(orig, SetAt(v, q, Str("")), leaves, i + 1, p) {
      EmptyText(orig, v, leaves, i, p);
    }
  }

  lemma NothingEmptied(orig: Json, leaves: seq<Leaf>)
    ensures EmptiedUpTo(orig, orig, leaves, 0)
  {
    ServedSelf(orig, []);
    assert forall p :: !AmongFirst(leaves, 0, p);
  }

  lemma LeafStands(orig: Json, v: Json, leaves: seq<Leaf>, i: nat)
    requires WellKeyed(orig) && leaves == Collect(orig, []) && i < |leaves| && EmptiedUpTo(orig, v, leaves, i)
    ensures StringAt(orig, leaves[i].path) && TextAt(orig, leaves[i].path) == leaves[i].text
    ensures At(v, leaves[i].path).Some?
  {
    assert Leaf(leaves[i].path, leaves[i].text) in leaves;
    CollectExact(orig, leaves[i].path, leaves[i].text);
    assert TextOk(orig, v, leaves, i, leaves[i].path);
  }

  lemma SkipOne(orig: Json, v: Json, leaves: seq<Leaf>, i: nat)
    requires i < |leaves| && EmptiedUpTo(orig, v, leaves, i)
    requires StringAt(orig, leaves[i].path) && TextAt(orig, leaves[i].path) == leaves[i].text
    requires !(ByteLen(leaves[i].text) > 0 && IsAttachment(leaves[i].path))
    ensures EmptiedUpTo(orig, v, leaves, i + 1)
  {
    ServedAt(orig, v, [], leaves[i].path);
    hide Served, At, IsAttachment;
    forall p | StringAt(orig, p) ensures TextOk(orig, v, leaves, i + 1, p) {
      assert TextOk(orig, v, leaves, i, p);
      if IsAttachment(p) && p == leaves[i].path {
        assert leaves[i].text == [];
      } else if AmongFirst(leaves, i + 1, p) && p != leaves[i].path {
        var k :| 0 <= k < i + 1 && leaves[k].path == p;
        assert AmongFirst(leaves, i, p);
      }
    }
  }

  method EmptyAttachments(orig: Json, leaves: seq<Leaf>) returns (payload: Json, omitted: seq<string>)
    requires WellKeyed(orig) && leaves == Collect(orig, [])
    ensures EmptiedUpTo(orig, payload, leaves, |leaves|)
    ensures omitted == OmittedPaths(leaves)
  {
    hide Served, WellKeyed, Collect, At, StringAt, TextAt, IsAttachment, ByteLen, EmptiedUpTo, SetAt;
    payload := orig;
    omitted := [];
    NothingEmptied(orig, leaves);
    for i := 0 to |leaves|
      invariant EmptiedUpTo(orig, payload, leaves, i)
      invariant omitted == OmittedPaths(leaves[..i])
    {
      assert leaves[..i + 1][..i] == leaves[..i];
      var leaf := leaves[i];
      LeafStands(orig, payload, leaves, i);
      if ByteLen(leaf.text) > 0 && IsAttachment(leaf.path) {
        EmptyOne(orig, payload, leaves, i);
        payload := SetAt(payload, leaf.path, Str(""));
        var text := FormatPath(leaf.path);
        omitted := omitted + [text];
      } else {
        SkipOne(orig, payload, leaves, i);
      }
    }
    assert leaves[..|leaves|] == leaves;
  }

  // ---- Selecting the leaves to shorten ----

  predicate Eligible(leaf: Leaf) {
    !IsAttachment(leaf.path) && ByteLen(leaf.text) > LEAF_PROTECTION_FLOOR_BYTES
  }

  function Targets(leaves: seq<Leaf>): seq<Leaf> {
    if leaves == [] then []
    else (if Eligible(leaves[0]) then [leaves[0]] else []) + Targets(leaves[1..])
  }

  function SlotsOf(leaves: seq<Leaf>): seq<Slot> {
    var targets := Targets(leaves);
    seq(|targets|, k requires 0 <= k < |targets| => Slot(targets[k].path, ByteLen(targets[k].text)))
  }

  /** The lengths of the reducible, non-attachment leaves once held to `limit`. */
  function ReducedLens(leaves: seq<Leaf>, limit: nat): seq<nat> {
    var targets := Targets(leaves);
    seq(|targets|, k requires 0 <= k < |targets| => ByteLen(LongestPrefix(targets[k].text, limit, Width)))
  }

  lemma {:induction false} TargetsExact(leaves: seq<Leaf>, leaf: Leaf)
    ensures leaf in Targets(leaves) <==> leaf in leaves && Eligible(leaf)
  {
    if leaves != [] {
      TargetsExact(leaves[1..], leaf);
    }
  }

  lemma {:induction false} TargetsDistinct(leaves: seq<Leaf>)
    requires PathsDistinct(leaves)
    ensures PathsDistinct(Targets(leaves))
  {
    if leaves != [] {
      TargetsDistinct(leaves[1..]);
      forall leaf | leaf in Targets(leaves[1..]) ensures leaf.path != leaves[0].path {
        TargetsExact(leaves[1..], leaf);
      }
    }
  }

  /** A target leaf of the collected leaves stands at its path in the payload. */
  lemma TargetStands(orig: Json, k: nat)
    requires WellKeyed(orig) && k < |Targets(Collect(orig, []))|
    ensures var leaf := Targets(Collect(orig, []))[k];
            Eligible(leaf) && StringAt(orig, leaf.path) && TextAt(orig, leaf.path) == leaf.text
  {
    var leaf := Targets(Collect(orig, []))[k];
    TargetsExact(Collect(orig, []), leaf);
    CollectExact(orig, leaf.path, leaf.text);
  }

  lemma SlotsCover(orig: Json)
    requires WellKeyed(orig)
    ensures CoversTargets(orig, SlotsOf(Collect(orig, [])))
  {
    var leaves := Collect(orig, []);
    var slots := SlotsOf(leaves);
    CollectDistinct(orig, []);
    TargetsDistinct(leaves);
    forall k | 0 <= k < |slots| ensures Target(orig, slots[k].path) {
      TargetStands(orig, k);
    }
    forall p | Target(orig, p) ensures exists k :: 0 <= k < |slots| && slots[k].path == p {
      var leaf := Leaf(p, TextAt(orig, p));
      CollectExact(orig, p, TextAt(orig, p));
      TargetsExact(leaves, leaf);
      var k :| 0 <= k < |Targets(leaves)| && Targets(leaves)[k] == leaf;
      assert slots[k].path == p;
    }
  }

  lemma SelectedMeasure(orig: Json, payload: Json)
    requires WellKeyed(orig)
    requires EmptiedUpTo(orig, payload, Collect(orig, []), |Collect(orig, [])|)
    ensures Measures(payload, SlotsOf(Collect(orig, [])))
  {
    hide WellKeyed, Served, Collect, At, ByteLen, IsAttachment;
    forall k | 0 <= k < |SlotsOf(Collect(orig, []))|
      ensures var slot := SlotsOf(Collect(orig, []))[k];
              StringAt(payload, slot.path) && slot.len == ByteLen(TextAt(payload, slot.path))
    {
      TargetStands(orig, k);
      assert TextOk(orig, payload, Collect(orig, []), |Collect(orig, [])|, Targets(Collect(orig, []))[k].path);
    }
  }

  lemma AttachmentsGone(orig: Json, payload: Json)
    requires WellKeyed(orig)
    requires EmptiedUpTo(orig, payload, Collect(orig, []), |Collect(orig, [])|)
    ensures AttachmentsEmpty(orig, payload)
  {
    hide WellKeyed, Served, Collect, At, ByteLen, IsAttachment;
    var leaves := Collect(orig, []);
    forall p | StringAt(orig, p) && IsAttachment(p) ensures StringAt(payload, p) && TextAt(payload, p) == "" {
      CollectedAt(orig, p);
      var i :| 0 <= i < |leaves| && leaves[i] == Leaf(p, TextAt(orig, p));
      assert AmongFirst(leaves, |leaves|, p) && TextOk(orig, payload, leaves, |leaves|, p);
    }
  }

  lemma CollectedAt(orig: Json, p: Path)
    requires WellKeyed(orig) && StringAt(orig, p)
    ensures Leaf(p, TextAt(orig, p)) in Collect(orig, [])
  {
    CollectExact(orig, p, TextAt(orig, p));
  }

  /** The selected slots are exactly the target leaves, at their measured lengths. */
  lemma SelectedSlots(orig: Json, payload: Json)
    requires WellKeyed(orig)
    requires EmptiedUpTo(orig, payload, Collect(orig, []), |Collect(orig, [])|)
    ensures Working(orig, payload, SlotsOf(Collect(orig, [])))
  {
    SlotsCover(orig);
    SelectedMeasure(orig, payload);
    AttachmentsGone(orig, payload);
  }

  // ---- Shortening ----

  /** Every slot's text is the longest prefix of its original within `limit` bytes. */
  ghost predicate HeldTo(orig: Json, v: Json, slots: seq<Slot>, limit: nat) {
    PartlyHeld(orig, v, slots, |slots|, limit, limit)
  }

  /** The first `n` slots are held to `first`, the others to `rest`. */
  ghost predicate PartlyHeld(orig: Json, v: Json, slots: seq<Slot>, n: nat, first: nat, rest: nat) {
    && Working(orig, v, slots)
    && forall k :: 0 <= k < |slots| ==>
         TextAt(v, slots[k].path) == LongestPrefix(TextAt(orig, slots[k].path), if k < n then first else rest, Width)
  }

  lemma HeldFacts(orig: Json, v: Json, slots: seq<Slot>, n: nat, first: nat, rest: nat, k: nat)
    requires PartlyHeld(orig, v, slots, n, first, rest) && k < |slots|
    ensures StringAt(v, slots[k].path) && slots[k].len == ByteLen(TextAt(v, slots[k].path))
    ensures slots[k].len <= if k < n then first else rest
    ensures slots[k].len == ByteLen(LongestPrefix(TextAt(orig, slots[k].path), if k < n then first else rest, Width))
  {
    LongestPrefixCorrect(TextAt(orig, slots[k].path), if k < n then first else rest, Width);
  }

  /** A held payload is the original limited to that many bytes a leaf. */
  lemma HeldIsLimited(orig: Json, v: Json, slots: seq<Slot>, limit: nat)
    requires WellKeyed(orig) && HeldTo(orig, v, slots, limit)
    ensures v == Limited(orig, [], limit)
  {
    var root: Path := [];
    forall p | StringAt(orig, p)
      ensures StringAt(v, p) && TextAt(v, p) == Reduced(root + p, TextAt(orig, p), limit)
    {
      assert root + p == p;
      ServedAt(orig, v, root, p);
      if Target(orig, p) {
        var k :| 0 <= k < |slots| && slots[k].path == p;
      }
    }
    TextsDetermine(orig, v, root, limit);
  }

  lemma CutIsShorter(s: string, target: nat)
    ensures LongestPrefix(s, target, Width) <= s
    ensures ByteLen(LongestPrefix(s, target, Width)) <= target
  {
    LongestPrefixCorrect(s, target, Width);
  }

  /** A write to one slot leaves the texts of the others alone. */
  lemma WriteSlotTexts(orig: Json, v: Json, slots: seq<Slot>, i: nat, t: string)
    requires Working(orig, v, slots) && i < |slots| && StringAt(v, slots[i].path)
    ensures forall k :: 0 <= k < |slots| ==>
              StringAt(v, slots[k].path) && StringAt(SetAt(v, slots[i].path, Str(t)), slots[k].path)
              && TextAt(SetAt(v, slots[i].path, Str(t)), slots[k].path)
                 == if k == i then t else TextAt(v, slots[k].path)
  {
    hide Served, At, SetAt;
    forall k | 0 <= k < |slots|
      ensures StringAt(v, slots[k].path) && StringAt(SetAt(v, slots[i].path, Str(t)), slots[k].path)
      ensures TextAt(SetAt(v, slots[i].path, Str(t)), slots[k].path) == if k == i then t else TextAt(v, slots[k].path)
    {
      SetAtOther(v, slots[i].path, slots[k].path, t);
    }
  }

  lemma WorkingSlot(orig: Json, v: Json, slots: seq<Slot>, i: nat)
    requires Working(orig, v, slots) && i < |slots|
    ensures StringAt(v, slots[i].path) && StringAt(orig, slots[i].path)
  {
  }

  /** Slot `i` cut to the ceiling is the original held to the lower limit. */
  lemma CutAgain(orig: Json, v: Json, slots: seq<Slot>, i: nat, limit: nat, ceiling: nat)
    requires i < |slots| && PartlyHeld(orig, v, slots, i, Min(limit, ceiling), limit)
    ensures var p := slots[i].path;
            var t := LongestPrefix(TextAt(v, p), ceiling, Width);
            && t == LongestPrefix(TextAt(orig, p), Min(limit, ceiling), Width)
            && t <= TextAt(v, p) && ByteLen(t) <= ceiling
  {
    WorkingSlot(orig, v, slots, i);
    hide Working, At, StringAt, TextAt, LongestPrefix, ByteLen;
    var p := slots[i].path;
    CutIsShorter(TextAt(v, p), ceiling);
    LongestPrefixTwice(TextAt(orig, p), limit, ceiling, Width);
  }

  /** Once slot `i` holds the right prefix, the first `i + 1` slots are held. */
  lemma HeldByOneMore(orig: Json, v: Json, slots: seq<Slot>, i: nat, first: nat, rest: nat, t: string)
    requires i < |slots| && PartlyHeld(orig, v, slots, i, first, rest)
    requires t == LongestPrefix(TextAt(orig, slots[i].path), first, Width) && t <= TextAt(v, slots[i].path)
    ensures var slots' := slots[i := Slot(slots[i].path, ByteLen(t))];
            PartlyHeld(orig, SetAt(v, slots[i].path, Str(t)), slots', i + 1, first, rest)
  {
    WorkingSlot(orig, v, slots, i);
    hide Working, At, SetAt, StringAt, TextAt, LongestPrefix, Size, Total, ByteLen;
    WriteSlot(orig, v, slots, i, t);
    WriteSlotTexts(orig, v, slots, i, t);
  }

  /** Cutting the next slot to the ceiling. */
  lemma HoldNext(orig: Json, v: Json, slots: seq<Slot>, i: nat, limit: nat, ceiling: nat)
    requires i < |slots| && PartlyHeld(orig, v, slots, i, Min(limit, ceiling), limit)
    ensures var p := slots[i].path;
            var t := LongestPrefix(TextAt(v, p), ceiling, Width);
            var v' := SetAt(v, p, Str(t));
            var slots' := slots[i := Slot(p, ByteLen(t))];
            && PartlyHeld(orig, v', slots', i + 1, Min(limit, ceiling), limit)
            && Size(v') + Total(slots) <= Size(v) + Total(slots')
            && ByteLen(t) <= Min(slots[i].len, ceiling)
  {
    HeldFacts(orig, v, slots, i, Min(limit, ceiling), limit, i);
    PartlyWorking(orig, v, slots, i, Min(limit, ceiling), limit);
    hide PartlyHeld, Working, At, SetAt, StringAt, TextAt, LongestPrefix, Size, Total, ByteLen;
    var t := LongestPrefix(TextAt(v, slots[i].path), ceiling, Width);
    CutAgain(orig, v, slots, i, limit, ceiling);
    HeldByOneMore(orig, v, slots, i, Min(limit, ceiling), limit, t);
    WriteSlot(orig, v, slots, i, t);
  }

  lemma PartlyWorking(orig: Json, v: Json, slots: seq<Slot>, n: nat, first: nat, rest: nat)
    requires PartlyHeld(orig, v, slots, n, first, rest)
    ensures Working(orig, v, slots)
  {
  }


  /** A slot already within the ceiling is held by it. */
  lemma HoldUntouched(orig: Json, v: Json, slots: seq<Slot>, i: nat, limit: nat, ceiling: nat)
    requires i < |slots| && PartlyHeld(orig, v, slots, i, Min(limit, ceiling), limit)
    requires slots[i].len <= ceiling
    ensures PartlyHeld(orig, v, slots, i + 1, Min(limit, ceiling), limit)
  {
    var p := slots[i].path;
    LongestPrefixWhole(TextAt(v, p), ceiling, Width);
    LongestPrefixTwice(TextAt(orig, p), limit, ceiling, Width);
  }

  predicate NoneOver(slots: seq<Slot>, n: nat, ceiling: nat)
    requires n <= |slots|
  {
    forall k :: 0 <= k < n ==> slots[k].len <= ceiling
  }

  /** A pass from `v` and `slots` that has dealt with the first `n` slots. */
  ghost predicate PassUpTo(orig: Json, v: Json, slots: seq<Slot>, payload: Json, lengths: seq<Slot>,
                           n: nat, ceiling: nat, limit: nat)
  {
    && |lengths| == |slots|
    && PartlyHeld(orig, payload, lengths, n, Min(limit, ceiling), limit)
    && (forall k :: 0 <= k < |slots| ==>
          lengths[k].path == slots[k].path &&
              lengths[k].len <= if k < n then Min(slots[k].len, ceiling) else slots[k].len)
    && (forall k :: n <= k < |slots| ==> lengths[k] == slots[k])
    && Size(payload) + Total(slots) <= Size(v) + Total(lengths)
  }

  lemma PassStands(orig: Json, v: Json, slots: seq<Slot>, payload: Json, lengths: seq<Slot>,
                   i: nat, ceiling: nat, limit: nat)
    requires i < |slots| && PassUpTo(orig, v, slots, payload, lengths, i, ceiling, limit)
    ensures lengths[i] == slots[i] && StringAt(payload, lengths[i].path) && At(payload, lengths[i].path).Some?
  {
  }

  lemma PassKeep(orig: Json, v: Json, slots: seq<Slot>, payload: Json, lengths: seq<Slot>,
                 i: nat, ceiling: nat, limit: nat)
    requires i < |slots| && PassUpTo(orig, v, slots, payload, lengths, i, ceiling, limit)
    requires slots[i].len <= ceiling
    ensures PassUpTo(orig, v, slots, payload, lengths, i + 1, ceiling, limit)
  {
    hide PartlyHeld, Size, Total;
    HoldUntouched(orig, payload, lengths, i, limit, ceiling);
  }

  lemma PassCut(orig: Json, v: Json, slots: seq<Slot>, payload: Json, lengths: seq<Slot>,
                i: nat, ceiling: nat, limit: nat)
    requires i < |slots| && PassUpTo(orig, v, slots, payload, lengths, i, ceiling, limit)
    requires StringAt(payload, lengths[i].path)
    ensures var path := lengths[i].path;
            var t := LongestPrefix(TextAt(payload, path), ceiling, Width);
            PassUpTo(orig, v, slots, SetAt(payload, path, Str(t)), lengths[i := Slot(path, ByteLen(t))],
                     i + 1, ceiling, limit)
  {
    hide PartlyHeld, SetAt, At, StringAt, TextAt, LongestPrefix, Size, Total, ByteLen;
    HoldNext(orig, payload, lengths, i, limit, ceiling);
  }

  /** One pass: every slot over the ceiling is cut to it, the others are left alone. */
  method ShortenPass(orig: Json, v: Json, slots: seq<Slot>, ceiling: nat, ghost limit: nat)
      returns (payload: Json, lengths: seq<Slot>, shortenedAny: bool)
    requires HeldTo(orig, v, slots, limit)
    ensures HeldTo(orig, payload, lengths, Min(limit, ceiling))
    ensures PassUpTo(orig, v, slots, payload, lengths, |slots|, ceiling, limit)
    ensures NoneOver(slots, |slots|, ceiling) ==> !shortenedAny
    ensures !shortenedAny ==> NoneOver(slots, |slots|, ceiling)
  {
    payload, lengths, shortenedAny := v, slots, false;
    hide StringAt, TextAt, Size, ByteLen, Total, LongestPrefix, SetAt, At, Working;
    assert PassUpTo(orig, v, slots, payload, lengths, 0, ceiling, limit);
    hide PassUpTo;
    for i := 0 to |slots|
      invariant |lengths| == |slots|
      invariant PassUpTo(orig, v, slots, payload, lengths, i, ceiling, limit)
      invariant NoneOver(slots, i, ceiling) ==> !shortenedAny
      invariant !shortenedAny ==> NoneOver(slots, i, ceiling)
    {
      PassStands(orig, v, slots, payload, lengths, i, ceiling, limit);
      if lengths[i].len <= ceiling {
        PassKeep(orig, v, slots, payload, lengths, i, ceiling, limit);
      } else {
        var path := lengths[i].path;
        var shortened := Cut(TextAt(payload, path), ceiling);
        PassCut(orig, v, slots, payload, lengths, i, ceiling, limit);
        shortenedAny := shortenedAny || ByteLen(shortened) < lengths[i].len;
        CutIsShorter(TextAt(payload, path), ceiling);
        payload, lengths := SetAt(payload, path, Str(shortened)), lengths[i := Slot(path, ByteLen(shortened))];
      }
    }
    PassEnds(orig, v, slots, payload, lengths, ceiling, limit);
  }

  lemma PassEnds(orig: Json, v: Json, slots: seq<Slot>, payload: Json, lengths: seq<Slot>, ceiling: nat, limit: nat)
    requires PassUpTo(orig, v, slots, payload, lengths, |slots|, ceiling, limit)
    ensures HeldTo(orig, payload, lengths, Min(limit, ceiling))
  {
  }

  lemma {:induction false} TotalLens(slots: seq<Slot>)
    ensures Sum(Lens(slots)) == Total(slots)
  {
    if slots != [] {
      TotalLens(slots[1..]);
      assert Lens(slots)[1..] == Lens(slots[1..]);
    }
  }

  /** A pass leaves at most what its ceiling allows. */
  lemma {:induction false} PassTotal(before: seq<Slot>, after: seq<Slot>, ceiling: nat)
    requires |before| == |after|
    requires forall k :: 0 <= k < |before| ==> after[k].len <= Min(before[k].len, ceiling)
    ensures Total(after) <= SharedCeiling.SumMin(Lens(before), ceiling)
  {
    if before != [] {
      PassTotal(before[1..], after[1..], ceiling);
      assert Lens(before)[1..] == Lens(before[1..]);
    }
  }

  lemma {:induction false} NothingOverCeiling(slots: seq<Slot>, ceiling: nat)
    requires forall k :: 0 <= k < |slots| ==> slots[k].len <= ceiling
    ensures SharedCeiling.SumMin(Lens(slots), ceiling) == Total(slots)
  {
    if slots != [] {
      NothingOverCeiling(slots[1..], ceiling);
      assert Lens(slots)[1..] == Lens(slots[1..]);
    }
  }

  lemma {:induction false} ZeroTotal(slots: seq<Slot>, k: nat)
    requires Total(slots) == 0 && k < |slots|
    ensures slots[k].len == 0
  {
    if k > 0 {
      ZeroTotal(slots[1..], k - 1);
    }
  }

  /** With every slot empty, nothing more can be shortened. */
  lemma ExhaustedIsEmptied(orig: Json, v: Json, slots: seq<Slot>, limit: nat)
    requires WellKeyed(orig) && HeldTo(orig, v, slots, limit) && Total(slots) == 0
    ensures v == Emptied(orig)
  {
    forall k | 0 <= k < |slots|
      ensures TextAt(v, slots[k].path) == LongestPrefix(TextAt(orig, slots[k].path), 0, Width)
    {
      ZeroTotal(slots, k);
      assert TextAt(v, slots[k].path) == [];
    }
    HeldIsLimited(orig, v, slots, 0);
  }

  lemma EmptiedFloor(orig: Json, v: Json, slots: seq<Slot>, limit: nat)
    requires HeldTo(orig, v, slots, limit)
    ensures Size(Emptied(orig)) <= Size(v)
  {
    EmptiedIsSmallest(orig, v, []);
  }

  /**
   * `c` is the ceiling the allocator picks when leaves of lengths `lens` make the
   * payload `size` bytes: what it retains fits what the overflow allows, and falls
   * short of it by less than one byte per leaf it binds.
   */
  predicate FillsBudget(lens: seq<nat>, size: nat, c: nat) {
    var allowed := Max(Sum(lens) - (size - EVENT_PAYLOAD_BUDGET_BYTES), 0);
    SharedCeiling.SumMin(lens, c) <= allowed < SharedCeiling.SumMin(lens, c) + SharedCeiling.CountAtLeast(lens, c)
  }

  lemma {:induction false} BindingCeiling(lens: seq<nat>, c: nat, limit: nat)
    requires SharedCeiling.CountAtLeast(lens, c) > 0
    requires forall i :: 0 <= i < |lens| ==> lens[i] <= limit
    ensures c <= limit
  {
    if lens[0] < c {
      BindingCeiling(lens[1..], c, limit);
    }
  }

  lemma CeilingWithinLimit(orig: Json, v: Json, slots: seq<Slot>, limit: nat, size: nat, c: nat)
    requires HeldTo(orig, v, slots, limit) && FillsBudget(Lens(slots), size, c)
    ensures c <= limit
  {
    forall k | 0 <= k < |slots| ensures Lens(slots)[k] <= limit {
      HeldFacts(orig, v, slots, |slots|, limit, limit, k);
    }
    BindingCeiling(Lens(slots), c, limit);
  }

  /** The ceiling of the next pass: the allocator's, over what the slots still hold. */
  method NextCeiling(ghost orig: Json, ghost payload: Json, lengths: seq<Slot>, ghost held: nat, size: nat)
      returns (ceiling: nat)
    requires HeldTo(orig, payload, lengths, held) && size > EVENT_PAYLOAD_BUDGET_BYTES && Total(lengths) > 0
    ensures FillsBudget(Lens(lengths), size, ceiling) && ceiling <= held
    ensures SharedCeiling.SumMin(Lens(lengths), ceiling) < Total(lengths)
    ensures SharedCeiling.SumMin(Lens(lengths), ceiling)
         <= Max(Total(lengths) - (size - EVENT_PAYLOAD_BUDGET_BYTES), 0)
  {
    hide HeldTo, Total, FillsBudget, SharedCeiling.Fills, SharedCeiling.RetainsMost, SharedCeiling.SomeTieGap,
      SharedCeiling.SumMin, SharedCeiling.CountAtLeast;
    var retained := Total(lengths);
    var overflow := size - EVENT_PAYLOAD_BUDGET_BYTES;
    var allowed := Max(retained - overflow, 0);
    ceiling := SharedCeiling.Ceiling(Lens(lengths), allowed);
    TotalLens(lengths);
    AllocatorFills(lengths, size, ceiling);
    CeilingWithinLimit(orig, payload, lengths, held, size, ceiling);
  }

  /**
   * The bounded shortening loop. It decides within two iterations, so the pass
   * bound is never exhausted, and its empty-everything fallback is never taken.
   */
  method Shrink(orig: Json, v: Json, slots: seq<Slot>, ghost limit: nat)
      returns (payload: Json, withinBudget: bool, ghost held: nat, ghost passes: nat)
    requires WellKeyed(orig) && HeldTo(orig, v, slots, limit)
    ensures withinBudget <==> Size(payload) <= EVENT_PAYLOAD_BUDGET_BYTES
    ensures withinBudget <==> Size(Emptied(orig)) <= EVENT_PAYLOAD_BUDGET_BYTES
    ensures payload == Limited(orig, [], held) && held <= limit
    ensures Size(v) <= EVENT_PAYLOAD_BUDGET_BYTES ==> held == limit
    ensures withinBudget && Size(v) > EVENT_PAYLOAD_BUDGET_BYTES ==> FillsBudget(Lens(slots), Size(v), held)
    ensures passes <= 2
  {
    hide HeldTo, WellKeyed, Size, Emptied, Limited, Total, FillsBudget, SharedCeiling.SumMin;
    payload, withinBudget, held, passes := v, false, limit, 0;
    var lengths := slots;
    for pass := 0 to MAX_PASSES
      invariant passes == pass <= 1
      invariant pass == 0 ==> payload == v && lengths == slots && held == limit
      invariant HeldTo(orig, payload, lengths, held) && held <= limit
      invariant pass == 1 ==> Size(payload) <= EVENT_PAYLOAD_BUDGET_BYTES || Total(lengths) == 0
      invariant pass == 1 ==> Size(v) > EVENT_PAYLOAD_BUDGET_BYTES && FillsBudget(Lens(slots), Size(v), held)
      invariant !withinBudget
    {
      passes := pass + 1;
      var size := Size(payload);
      EmptiedFloor(orig, payload, lengths, held);
      if size <= EVENT_PAYLOAD_BUDGET_BYTES {
        withinBudget := true;
        break;
      }
      if Total(lengths) == 0 {
        ExhaustedIsEmptied(orig, payload, lengths, held);
        break;
      }
      var ceiling := NextCeiling(orig, payload, lengths, held, size);
      ghost var before := lengths;
      var shortenedAny;
      payload, lengths, shortenedAny := ShortenPass(orig, payload, lengths, ceiling, held);
      held := ceiling;
      PassTotal(before, lengths, ceiling);
      if !shortenedAny {
        NothingOverCeiling(before, ceiling);
        assert false;
      }
    }
    HeldIsLimited(orig, payload, lengths, held);
  }

  lemma AllocatorFills(slots: seq<Slot>, size: nat, c: nat)
    requires size > EVENT_PAYLOAD_BUDGET_BYTES && Total(slots) > 0
    requires var allowed := Max(Total(slots) - (size - EVENT_PAYLOAD_BUDGET_BYTES), 0);
             && SharedCeiling.SumMin(Lens(slots), c) <= allowed
             && allowed - SharedCeiling.SumMin(Lens(slots), c) < SharedCeiling.CountAtLeast(Lens(slots), c)
    ensures FillsBudget(Lens(slots), size, c)
  {
    TotalLens(slots);
  }

  // ---- Serving a payload ----

  lemma HeldLens(orig: Json, v: Json, slots: seq<Slot>, limit: nat)
    requires WellKeyed(orig) && HeldTo(orig, v, slots, limit)
    requires var start := SlotsOf(Collect(orig, []));
             |slots| == |start| && forall k :: 0 <= k < |slots| ==> slots[k].path == start[k].path
    ensures Lens(slots) == ReducedLens(Collect(orig, []), limit)
  {
    hide WellKeyed, HeldTo, At, LongestPrefix, ByteLen, Eligible, Collect;
    forall k | 0 <= k < |slots| ensures Lens(slots)[k] == ReducedLens(Collect(orig, []), limit)[k] {
      TargetStands(orig, k);
      HeldSlot(orig, v, slots, limit, k);
    }
  }

  lemma HeldSlot(orig: Json, v: Json, slots: seq<Slot>, limit: nat, k: nat)
    requires HeldTo(orig, v, slots, limit) && k < |slots|
    ensures StringAt(orig, slots[k].path)
    ensures slots[k].len == ByteLen(LongestPrefix(TextAt(orig, slots[k].path), limit, Width))
  {
    HeldFacts(orig, v, slots, |slots|, limit, limit, k);
  }

  /** Every string but the attachments is as in the original. */
  ghost predicate Intact(orig: Json, v: Json) {
    forall p :: StringAt(orig, p) && !IsAttachment(p) ==> StringAt(v, p) && TextAt(v, p) == TextAt(orig, p)
  }

  lemma OthersIntact(orig: Json, v: Json, leaves: seq<Leaf>)
    requires EmptiedUpTo(orig, v, leaves, |leaves|)
    ensures Intact(orig, v)
  {
    hide At, IsAttachment, Served;
    forall p | StringAt(orig, p) && !IsAttachment(p) ensures StringAt(v, p) && TextAt(v, p) == TextAt(orig, p) {
      assert TextOk(orig, v, leaves, |leaves|, p);
    }
  }

  /** Before any cut, every slot is held to the sum of their lengths. */
  lemma InitiallyHeld(orig: Json, v: Json, slots: seq<Slot>)
    requires Working(orig, v, slots)
    requires Intact(orig, v)
    ensures HeldTo(orig, v, slots, Total(slots))
  {
    forall k | 0 <= k < |slots|
      ensures TextAt(v, slots[k].path) == LongestPrefix(TextAt(orig, slots[k].path), Total(slots), Width)
    {
      SlotWithinTotal(slots, k);
      LongestPrefixWhole(TextAt(orig, slots[k].path), Total(slots), Width);
    }
  }

  lemma {:induction false} SlotWithinTotal(slots: seq<Slot>, k: nat)
    requires k < |slots|
    ensures slots[k].len <= Total(slots)
  {
    if k > 0 {
      SlotWithinTotal(slots[1..], k - 1);
    }
  }

  /** Leaves already within the cap look the same under any larger limit. */
  lemma HeldUnderCap(orig: Json, v: Json, slots: seq<Slot>, limit: nat, cap: nat)
    requires HeldTo(orig, v, slots, Min(limit, cap))
    requires forall k :: 0 <= k < |slots| ==> ByteLen(TextAt(orig, slots[k].path)) <= limit
    ensures HeldTo(orig, v, slots, cap)
  {
    forall k | 0 <= k < |slots|
      ensures TextAt(v, slots[k].path) == LongestPrefix(TextAt(orig, slots[k].path), cap, Width)
    {
      LongestPrefixWhole(TextAt(orig, slots[k].path), limit, Width);
      LongestPrefixTwice(TextAt(orig, slots[k].path), limit, cap, Width);
    }
  }

  /** Attachments emptied, then every reducible leaf held to the per-leaf cap. */
  method Cap(original: Json) returns (payload: Json, lengths: seq<Slot>, omitted: seq<string>)
    requires WellKeyed(original)
    ensures HeldTo(original, payload, lengths, EVENT_STRING_LEAF_MAX_BYTES)
    ensures payload == Limited(original, [], EVENT_STRING_LEAF_MAX_BYTES)
    ensures Lens(lengths) == ReducedLens(Collect(original, []), EVENT_STRING_LEAF_MAX_BYTES)
    ensures omitted == OmittedPaths(Collect(original, []))
  {
    var leaves := Collect(original, []);
    payload, omitted := EmptyAttachments(original, leaves);
    ghost var slots := SlotsOf(leaves);
    SelectedSlots(original, payload);
    OthersIntact(original, payload, leaves);
    InitiallyHeld(original, payload, slots);
    SlotsMeasureOriginal(original, payload, slots);
    hide Working, HeldTo, WellKeyed, Collect, At, SlotsOf, EmptiedUpTo, IsAttachment, Total, Limited;
    lengths := SlotsOf(leaves);
    var shortenedAny;
    payload, lengths, shortenedAny :=
      ShortenPass(original, payload, lengths, EVENT_STRING_LEAF_MAX_BYTES, Total(slots));
    HeldUnderCap(original, payload, lengths, Total(slots), EVENT_STRING_LEAF_MAX_BYTES);
    HeldLens(original, payload, lengths, EVENT_STRING_LEAF_MAX_BYTES);
    HeldIsLimited(original, payload, lengths, EVENT_STRING_LEAF_MAX_BYTES);
  }

  lemma SlotsMeasureOriginal(orig: Json, v: Json, slots: seq<Slot>)
    requires Working(orig, v, slots)
    requires Intact(orig, v)
    ensures forall k :: 0 <= k < |slots| ==>
              StringAt(orig, slots[k].path) && ByteLen(TextAt(orig, slots[k].path)) <= Total(slots)
  {
    forall k | 0 <= k < |slots|
      ensures StringAt(orig, slots[k].path) && ByteLen(TextAt(orig, slots[k].path)) <= Total(slots)
    {
      SlotWithinTotal(slots, k);
    }
  }

  /** The per-leaf cap if the capped payload fits, else the allocator's pick for it. */
  predicate ChosenCeiling(original: Json, ceiling: nat) {
    var capped := Limited(original, [], EVENT_STRING_LEAF_MAX_BYTES);
    var lens := ReducedLens(Collect(original, []), EVENT_STRING_LEAF_MAX_BYTES);
    if Size(capped) <= EVENT_PAYLOAD_BUDGET_BYTES
    then ceiling == EVENT_STRING_LEAF_MAX_BYTES
    else ceiling <= EVENT_STRING_LEAF_MAX_BYTES && FillsBudget(lens, Size(capped), ceiling)
  }

  /**
   * Shorten `original` toward the serving budget. If emptying every reducible leaf
   * would not fit, the original is served unchanged. Otherwise the result fits: it
   * is the original with attachments emptied and reducible leaves held to one
   * shared ceiling, which is the per-leaf cap if that fits and else what the
   * allocator picks for the capped payload.
   */
  method Apply(original: Json) returns (r: Outcome, ghost ceiling: nat, ghost passes: nat)
    requires WellKeyed(original)
    ensures Size(Emptied(original)) > EVENT_PAYLOAD_BUDGET_BYTES ==>
              r.payload == original && r.omittedPaths == []
    ensures Size(Emptied(original)) <= EVENT_PAYLOAD_BUDGET_BYTES ==>
              && Size(r.payload) <= EVENT_PAYLOAD_BUDGET_BYTES
              && r.payload == Limited(original, [], ceiling)
              && r.omittedPaths == OmittedPaths(Collect(original, []))
              && ChosenCeiling(original, ceiling)
    ensures r.finalSize == Size(r.payload)
    ensures r.changed <==> r.payload != original
    ensures passes <= 2
  {
    hide HeldTo, WellKeyed, Size, Emptied, Limited, Collect, FillsBudget, ReducedLens, OmittedPaths;
    var payload, lengths, omitted := Cap(original);
    var withinBudget;
    payload, withinBudget, ceiling, passes := Shrink(original, payload, lengths, EVENT_STRING_LEAF_MAX_BYTES);
    if !withinBudget {
      r := Outcome(original, [], false, Size(original));
      return;
    }
    r := Outcome(payload, omitted, payload != original, Size(payload));
  }

  // ---- What limiting preserves ----

  /** Structure, keys and non-string values survive; strings become prefixes; protected strings are intact. */
  lemma {:induction false} LimitedIsServed(orig: Json, path: Path, limit: nat)
    ensures Served(orig, Limited(orig, path, limit), path)
    decreases orig
  {
    if orig.Str? {
      LongestPrefixCorrect(orig.s, limit, Width);
    } else if orig.Arr? || orig.Obj? {
      LimitedShell(orig, path, limit);
      forall j | 0 <= j < |Kids(orig)|
        ensures Served(Kids(orig)[j], Kids(Limited(orig, path, limit))[j], path + [SegAt(orig, j)])
      {
        LimitedIsServed(Kids(orig)[j], path + [SegAt(orig, j)], limit);
      }
    }
  }

  lemma LimitedStep(orig: Json, path: Path, limit: nat, seg: Seg)
    requires Locate(orig, seg).Some?
    ensures Locate(Limited(orig, path, limit), seg) == Locate(orig, seg)
    ensures var j := Locate(orig, seg).value;
            Kids(Limited(orig, path, limit))[j] == Limited(Kids(orig)[j], path + [seg], limit)
  {
    LimitedShell(orig, path, limit);
    LocateSameShell(orig, Limited(orig, path, limit), seg);
  }

  /** Every string of a limited payload, at its own path. */
  lemma {:induction false} LimitedAt(orig: Json, path: Path, limit: nat, rel: Path)
    requires StringAt(orig, rel)
    ensures StringAt(Limited(orig, path, limit), rel)
    ensures TextAt(Limited(orig, path, limit), rel) == Reduced(path + rel, TextAt(orig, rel), limit)
    decreases |rel|
  {
    if rel == [] {
      assert path + rel == path;
    } else {
      hide Reduced, Limited, StringAt, TextAt, Locate, Kids;
      PathSplits(path, rel);
      StringStep(orig, rel);
      LimitedStep(orig, path, limit, rel[0]);
      LimitedAt(Kids(orig)[Locate(orig, rel[0]).value], path + [rel[0]], limit, rel[1..]);
      StringUnstep(Limited(orig, path, limit), rel);
    }
  }

  lemma PathSplits(path: Path, rel: Path)
    requires rel != []
    ensures path + [rel[0]] + rel[1..] == path + rel
  {
  }

  /** A smaller ceiling never serves a larger payload. */
  lemma {:induction false} LimitedMonotone(orig: Json, path: Path, a: nat, b: nat)
    requires a <= b
    ensures Size(Limited(orig, path, a)) <= Size(Limited(orig, path, b))
    decreases orig, |Kids(orig)| + 1
  {
    if orig.Str? {
      LongestPrefixTwice(orig.s, b, a, Width);
      LongestPrefixCorrect(LongestPrefix(orig.s, b, Width), a, Width);
      CutSavesEscaped(Reduced(path, orig.s, a), Reduced(path, orig.s, b));
      StrSize(Reduced(path, orig.s, a));
      StrSize(Reduced(path, orig.s, b));
    } else if orig.Arr? || orig.Obj? {
      LimitedShell(orig, path, a);
      LimitedShell(orig, path, b);
      LimitedKidsMonotone(orig, path, a, b, 0);
      SameShellSize(Limited(orig, path, a), Limited(orig, path, b));
    }
  }

  lemma {:induction false} LimitedKidsMonotone(orig: Json, path: Path, a: nat, b: nat, j: nat)
    requires (orig.Arr? || orig.Obj?) && a <= b && j <= |Kids(orig)|
    ensures SizeSum(Kids(Limited(orig, path, a))[j..]) <= SizeSum(Kids(Limited(orig, path, b))[j..])
    decreases orig, |Kids(orig)| - j
  {
    LimitedShell(orig, path, a);
    LimitedShell(orig, path, b);
    if j < |Kids(orig)| {
      LimitedMonotone(Kids(orig)[j], path + [SegAt(orig, j)], a, b);
      LimitedKidsMonotone(orig, path, a, b, j + 1);
      assert Kids(Limited(orig, path, a))[j..][1..] == Kids(Limited(orig, path, a))[j + 1..];
      assert Kids(Limited(orig, path, b))[j..][1..] == Kids(Limited(orig, path, b))[j + 1..];
    }
  }
}
