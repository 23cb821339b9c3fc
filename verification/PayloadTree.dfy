/** Paths into a JSON value: collecting string leaves, reading and replacing them. */
module PayloadTree {
  import opened Prelude
  import opened Text
  import opened Json
  import opened JsonParser

  datatype Seg = Key(key: string) | Index(index: nat)

  type Path = seq<Seg>

  datatype Leaf = Leaf(path: Path, text: string)

  // ---- One level of a value ----

  function Values(fields: seq<Field>): (r: seq<Json>)
    ensures |r| == |fields|
    ensures forall j :: 0 <= j < |fields| ==> r[j] == fields[j].value
  {
    seq(|fields|, j requires 0 <= j < |fields| => fields[j].value)
  }

  /** The immediate children of a container, in order. */
  function Kids(v: Json): (r: seq<Json>)
    ensures forall j :: 0 <= j < |r| ==> r[j] < v
  {
    match v
    case Arr(items) => items
    case Obj(fields) => Values(fields)
    case _ => []
  }

  /** The path segment that leads to child `j`. */
  function SegAt(v: Json, j: nat): Seg
    requires j < |Kids(v)|
  {
    if v.Arr? then Index(j) else Key(v.fields[j].key)
  }

  function FieldIndex(fields: seq<Field>, key: string): (r: Option<nat>)
    ensures r.Some? ==> r.value < |fields| && fields[r.value].key == key
    ensures r.None? ==> forall j :: 0 <= j < |fields| ==> fields[j].key != key
  {
    if fields == [] then None
    else if fields[0].key == key then Some(0)
    else
      var rest := FieldIndex(fields[1..], key);
      if rest.None? then None else Some(rest.value + 1)
  }

  /** The child a segment selects, if the value has one. */
  function Locate(v: Json, seg: Seg): (r: Option<nat>)
    ensures r.Some? ==> r.value < |Kids(v)| && SegAt(v, r.value) == seg
  {
    match seg
    case Index(i) => if v.Arr? && i < |v.items| then Some(i) else None
    case Key(k) => if v.Obj? then FieldIndex(v.fields, k) else None
  }

  function WithKid(v: Json, j: nat, w: Json): (r: Json)
    requires j < |Kids(v)|
    ensures Kids(r) == Kids(v)[j := w]
    ensures forall i :: 0 <= i < |Kids(v)| ==> SegAt(r, i) == SegAt(v, i)
  {
    if v.Arr? then Arr(v.items[j := w]) else Obj(v.fields[j := Field(v.fields[j].key, w)])
  }

  /** No object anywhere in the value repeats a key. */
  predicate WellKeyed(v: Json)
    decreases v
  {
    && (v.Obj? ==> KeysDistinct(v.fields))
    && (forall j :: 0 <= j < |Kids(v)| ==> WellKeyed(Kids(v)[j]))
  }

  /** A value whose objects list their keys in order repeats no key. */
  lemma {:induction false} KeyOrderSuffices(v: Json)
    requires WellFormed(v)
    ensures WellKeyed(v)
    decreases v
  {
    if v.Obj? {
      AscendingKeysDistinct(v.fields);
    }
    forall j | 0 <= j < |Kids(v)| ensures WellKeyed(Kids(v)[j]) {
      KeyOrderSuffices(Kids(v)[j]);
    }
  }

  lemma LocateSeg(v: Json, j: nat)
    requires j < |Kids(v)|
    requires v.Obj? ==> KeysDistinct(v.fields)
    ensures Locate(v, SegAt(v, j)) == Some(j)
  {
  }

  // ---- Reading and writing along a path ----

  /** The value a path leads to. */
  function At(v: Json, path: Path): Option<Json>
    decreases |path|
  {
    if path == [] then Some(v) else
    var j := Locate(v, path[0]);
    if j.None? then None else At(Kids(v)[j.value], path[1..])
  }

  /** The value with what stands at `path` replaced. */
  function SetAt(v: Json, path: Path, w: Json): Json
    requires At(v, path).Some?
    decreases |path|
  {
    if path == [] then w else
    var j := Locate(v, path[0]).value;
    WithKid(v, j, SetAt(Kids(v)[j], path[1..], w))
  }

  predicate StringAt(v: Json, path: Path) {
    var r := At(v, path);
    r.Some? && r.value.Str?
  }

  function TextAt(v: Json, path: Path): string
    requires StringAt(v, path)
  {
    At(v, path).value.s
  }

  /** A string below a container is a string below one of its children. */
  lemma StringStep(v: Json, path: Path)
    requires path != [] && StringAt(v, path)
    ensures Locate(v, path[0]).Some?
    ensures var kid := Kids(v)[Locate(v, path[0]).value];
            StringAt(kid, path[1..]) && TextAt(kid, path[1..]) == TextAt(v, path)
  {
  }

  lemma SetAtStep(v: Json, path: Path, t: string)
    requires path != [] && StringAt(v, path)
    ensures Locate(v, path[0]).Some? && At(v, path).Some?
    ensures var j := Locate(v, path[0]).value;
            && StringAt(Kids(v)[j], path[1..]) && At(Kids(v)[j], path[1..]).Some?
            && SetAt(v, path, Str(t)) == WithKid(v, j, SetAt(Kids(v)[j], path[1..], Str(t)))
  {
  }

  lemma StringUnstep(v: Json, path: Path)
    requires path != [] && Locate(v, path[0]).Some?
    requires StringAt(Kids(v)[Locate(v, path[0]).value], path[1..])
    ensures StringAt(v, path) && TextAt(v, path) == TextAt(Kids(v)[Locate(v, path[0]).value], path[1..])
  {
  }

  // ---- Collecting string leaves ----

  /** Every string leaf with its full path, in document order. */
  function Collect(v: Json, path: Path): seq<Leaf>
    decreases v, 0
  {
    if v.Str? then [Leaf(path, v.s)] else CollectFrom(v, 0, path)
  }

  function CollectFrom(v: Json, j: nat, path: Path): seq<Leaf>
    requires j <= |Kids(v)| && !v.Str?
    decreases v, 0, |Kids(v)| - j
  {
    if j == |Kids(v)| then []
    else Collect(Kids(v)[j], path + [SegAt(v, j)]) + CollectFrom(v, j + 1, path)
  }

  /** Every collected leaf names a string of the value. */
  lemma {:induction false} CollectSound(v: Json, path: Path, leaf: Leaf)
    requires WellKeyed(v) && leaf in Collect(v, path)
    ensures path <= leaf.path
    ensures At(v, leaf.path[|path|..]) == Some(Str(leaf.text))
    decreases v, 0
  {
    if v.Str? {
      assert leaf.path[|path|..] == [];
    } else {
      CollectFromSound(v, 0, path, leaf);
    }
  }

  lemma {:induction false} CollectFromSound(v: Json, j: nat, path: Path, leaf: Leaf)
    requires WellKeyed(v) && j <= |Kids(v)| && !v.Str? && leaf in CollectFrom(v, j, path)
    ensures path <= leaf.path && |path| < |leaf.path|
    ensures At(v, leaf.path[|path|..]) == Some(Str(leaf.text))
    ensures exists i :: j <= i < |Kids(v)| && leaf.path[|path|] == SegAt(v, i)
    decreases v, 0, |Kids(v)| - j
  {
    var sub := path + [SegAt(v, j)];
    if leaf in Collect(Kids(v)[j], sub) {
      CollectSound(Kids(v)[j], sub, leaf);
      LocateSeg(v, j);
      assert leaf.path[|path|] == sub[|path|];
      assert leaf.path[|path|..][1..] == leaf.path[|sub|..];
    } else {
      CollectFromSound(v, j + 1, path, leaf);
    }
  }

  /** Every string of the value is collected under its path. */
  lemma {:induction false} CollectComplete(v: Json, path: Path, rel: Path)
    requires StringAt(v, rel)
    ensures Leaf(path + rel, TextAt(v, rel)) in Collect(v, path)
    decreases |rel|
  {
    if rel == [] {
      assert path + rel == path;
    } else {
      var j := Locate(v, rel[0]).value;
      CollectComplete(Kids(v)[j], path + [SegAt(v, j)], rel[1..]);
      assert path + [SegAt(v, j)] + rel[1..] == path + rel;
      CollectFromContains(v, 0, j, path, Leaf(path + rel, TextAt(v, rel)));
    }
  }

  lemma {:induction false} CollectFromContains(v: Json, i: nat, j: nat, path: Path, leaf: Leaf)
    requires i <= j < |Kids(v)| && !v.Str?
    requires leaf in Collect(Kids(v)[j], path + [SegAt(v, j)])
    ensures leaf in CollectFrom(v, i, path)
    decreases j - i
  {
    if i < j {
      CollectFromContains(v, i + 1, j, path, leaf);
    }
  }

  /** Collecting from the root yields exactly the strings of the value, with their paths. */
  lemma CollectExact(v: Json, p: Path, text: string)
    requires WellKeyed(v)
    ensures Leaf(p, text) in Collect(v, []) <==> At(v, p) == Some(Str(text))
  {
    var root: Path := [];
    assert root + p == p && p[|root|..] == p;
    if Leaf(p, text) in Collect(v, []) {
      CollectSound(v, root, Leaf(p, text));
    }
    if At(v, p) == Some(Str(text)) {
      CollectComplete(v, root, p);
    }
  }

  predicate PathsDistinct(leaves: seq<Leaf>) {
    forall i, j :: 0 <= i < j < |leaves| ==> leaves[i].path != leaves[j].path
  }

  /** No path is collected twice. */
  lemma {:induction false} CollectDistinct(v: Json, path: Path)
    requires WellKeyed(v)
    ensures PathsDistinct(Collect(v, path))
    decreases v, 0
  {
    if !v.Str? {
      CollectFromDistinct(v, 0, path);
    }
  }

  lemma {:induction false} CollectFromDistinct(v: Json, j: nat, path: Path)
    requires WellKeyed(v) && j <= |Kids(v)| && !v.Str?
    ensures PathsDistinct(CollectFrom(v, j, path))
    decreases v, 0, |Kids(v)| - j
  {
    if j < |Kids(v)| {
      var sub := path + [SegAt(v, j)];
      var first, rest := Collect(Kids(v)[j], sub), CollectFrom(v, j + 1, path);
      CollectDistinct(Kids(v)[j], sub);
      CollectFromDistinct(v, j + 1, path);
      forall a, b | a in first && b in rest ensures a.path != b.path {
        CollectSound(Kids(v)[j], sub, a);
        CollectFromSound(v, j + 1, path, b);
        assert a.path[|path|] == sub[|path|];
      }
    }
  }

  // ---- What one write changes ----

  /** A write to one string leaf leaves every other string leaf alone. */
  lemma {:induction false} SetAtOther(v: Json, p: Path, q: Path, t: string)
    requires StringAt(v, p) && StringAt(v, q)
    ensures StringAt(SetAt(v, p, Str(t)), q)
    ensures TextAt(SetAt(v, p, Str(t)), q) == if p == q then t else TextAt(v, q)
    decreases |p|
  {
    if p == [] || q == [] {
      assert v.Str? && p == [] && q == [];
    } else {
      var j, i := Locate(v, p[0]).value, Locate(v, q[0]).value;
      var w := SetAt(Kids(v)[j], p[1..], Str(t));
      var r := WithKid(v, j, w);
      LocateWithKid(v, j, w, q[0]);
      assert At(r, q) == At(Kids(r)[i], q[1..]);
      if i == j {
        SetAtOther(Kids(v)[j], p[1..], q[1..], t);
        assert p[0] == q[0];
        assert p == [p[0]] + p[1..] && q == [q[0]] + q[1..];
      } else {
        assert Kids(r)[i] == Kids(v)[i];
        assert p[0] != q[0];
      }
    }
  }

  lemma LocateWithKid(v: Json, j: nat, w: Json, seg: Seg)
    requires j < |Kids(v)|
    ensures Locate(WithKid(v, j, w), seg) == Locate(v, seg)
  {
    if v.Obj? && seg.Key? {
      FieldIndexSameKeys(v.fields, WithKid(v, j, w).fields, seg.key);
    }
  }

  lemma {:induction false} FieldIndexSameKeys(a: seq<Field>, b: seq<Field>, key: string)
    requires |a| == |b| && forall i :: 0 <= i < |a| ==> a[i].key == b[i].key
    ensures FieldIndex(a, key) == FieldIndex(b, key)
  {
    if a != [] {
      FieldIndexSameKeys(a[1..], b[1..], key);
    }
  }

  // ---- Sizes ----

  function SizeSum(kids: seq<Json>): nat {
    if kids == [] then 0 else Size(kids[0]) + SizeSum(kids[1..])
  }

  function KeysSize(fields: seq<Field>): nat {
    if fields == [] then 0 else 3 + EscapedLen(fields[0].key) + KeysSize(fields[1..])
  }

  /** Bytes of a container that are not bytes of its children. */
  function Shell(v: Json): nat
    requires v.Arr? || v.Obj?
  {
    2 + Max(|Kids(v)| - 1, 0) + if v.Obj? then KeysSize(v.fields) else 0
  }

  lemma {:induction false} ItemsSize(items: seq<Json>)
    ensures ByteLen(SerializeItems(items)) == Max(|items| - 1, 0) + SizeSum(items)
  {
    if |items| == 1 {
      assert items[1..] == [];
    } else if |items| > 1 {
      ItemsSize(items[1..]);
      WeighAppend(Serialize(items[0]) + [','], SerializeItems(items[1..]), Width);
      WeighAppend(Serialize(items[0]), [','], Width);
      ByteLenOfAscii([',']);
    }
  }

  lemma FieldSize(f: Field)
    ensures ByteLen(SerializeField(f)) == 3 + EscapedLen(f.key) + Size(f.value)
  {
    EscapedLenExact(f.key);
    WeighAppend(Quote(f.key) + [':'], Serialize(f.value), Width);
    WeighAppend(Quote(f.key), [':'], Width);
    ByteLenOfAscii([':']);
  }

  lemma {:induction false} FieldsSize(fields: seq<Field>)
    ensures ByteLen(SerializeFields(fields))
         == Max(|fields| - 1, 0) + KeysSize(fields) + SizeSum(Values(fields))
  {
    if fields != [] {
      FieldSize(fields[0]);
      assert Values(fields)[1..] == Values(fields[1..]);
      if |fields| == 1 {
        assert fields[1..] == [];
      } else {
        FieldsSize(fields[1..]);
        WeighAppend(SerializeField(fields[0]) + [','], SerializeFields(fields[1..]), Width);
        WeighAppend(SerializeField(fields[0]), [','], Width);
        ByteLenOfAscii([',']);
      }
    }
  }

  /** A container's size splits into its shell and its children. */
  lemma ContainerSize(v: Json)
    requires v.Arr? || v.Obj?
    ensures Size(v) == Shell(v) + SizeSum(Kids(v))
  {
    if v.Arr? {
      ItemsSize(v.items);
      Bracketed('[', SerializeItems(v.items), ']');
    } else {
      FieldsSize(v.fields);
      Bracketed('{', SerializeFields(v.fields), '}');
    }
  }

  lemma {:induction false} SizeSumUpdate(kids: seq<Json>, j: nat, w: Json)
    requires j < |kids|
    ensures SizeSum(kids[j := w]) + Size(kids[j]) == SizeSum(kids) + Size(w)
  {
    if j == 0 {
      assert kids[j := w][1..] == kids[1..];
    } else {
      SizeSumUpdate(kids[1..], j - 1, w);
      assert kids[j := w][1..] == kids[1..][j - 1 := w];
    }
  }

  lemma {:induction false} KeysSizeSame(a: seq<Field>, b: seq<Field>)
    requires |a| == |b| && forall i :: 0 <= i < |a| ==> a[i].key == b[i].key
    ensures KeysSize(a) == KeysSize(b)
  {
    if a != [] {
      KeysSizeSame(a[1..], b[1..]);
    }
  }

  lemma StrSize(s: string)
    ensures Size(Str(s)) == 2 + EscapedLen(s)
  {
    EscapedLenExact(s);
  }

  /** Replacing one string changes the size by the change in its escaped length. */
  lemma {:induction false} SetAtSize(v: Json, p: Path, t: string)
    requires StringAt(v, p)
    ensures Size(SetAt(v, p, Str(t))) + EscapedLen(TextAt(v, p)) == Size(v) + EscapedLen(t)
    decreases |p|
  {
    if p == [] {
      StrSize(v.s);
      StrSize(t);
    } else {
      var j := Locate(v, p[0]).value;
      var w := SetAt(Kids(v)[j], p[1..], Str(t));
      SetAtSize(Kids(v)[j], p[1..], t);
      var r := WithKid(v, j, w);
      ContainerSize(v);
      ContainerSize(r);
      SizeSumUpdate(Kids(v), j, w);
      if v.Obj? {
        KeysSizeSame(v.fields, r.fields);
      }
    }
  }
}
