/**
 * `_extendObject(orig, ...sources)`: a deep merge of JSON-like values, used
 * to lay the user's configuration over the defaults. The source mutates
 * `orig` in place and returns it; the model computes the merged value.
 */
module JsonMerge {
  import opened Wrappers
  import opened Text

  datatype Json =
    | Null
    | Bool(b: bool)
    | Num(n: real)
    | Str(s: string)
    | Arr(items: seq<Json>)
    | Obj(fields: map<string, Json>)

  /** `typeof v === "object"`: arrays, objects, and also `null`. */
  predicate IsObjectType(v: Json) {
    v.Null? || v.Arr? || v.Obj?
  }

  /** `typeof v === "object" && v !== null`. */
  predicate IsObject(v: Json) {
    v.Arr? || v.Obj?
  }

  function Get(m: map<string, Json>, k: string): Option<Json> {
    if k in m then Some(m[k]) else None
  }

  /**
   * One property: when the current value is of object type (null included)
   * the source's value is merged into it; anything else is overwritten.
   */
  function MergeValue(cur: Option<Json>, v: Json): Json
    decreases v, 2
  {
    if cur.Some? && IsObjectType(cur.value) then Merge(cur.value, v) else v
  }

  /** `_extendObject(orig, src)` with a single source. */
  function Merge(orig: Json, src: Json): Json
    decreases src, 1
  {
    if !IsObject(orig) || !IsObject(src) then orig
    else match orig
      case Obj(m) =>
        (match src
         case Obj(n) => Obj(MergeFields(m, n, src))
         case Arr(a) => Obj(MergeIndexed(m, a, src, 0)))
      case Arr(b) =>
        (match src
         case Arr(a) => Arr(MergeItems(b, a, src, 0))
         case Obj(_) => orig)
  }

  /** An object source: each own property, in any order (they are independent). */
  function MergeFields(m: map<string, Json>, n: map<string, Json>, src: Json): map<string, Json>
    requires src == Obj(n)
    decreases src, 0
  {
    map k | k in m.Keys + n.Keys :: if k in n then MergeValue(Get(m, k), n[k]) else m[k]
  }

  /** An array source into an object: its indices become the keys "0", "1", ... */
  function MergeIndexed(m: map<string, Json>, a: seq<Json>, src: Json, i: nat): map<string, Json>
    requires src == Arr(a) && i <= |a|
    decreases src, 0, |a| - i
  {
    if i == |a| then m
    else
      var k := NatToString(i);
      MergeIndexed(m[k := MergeValue(Get(m, k), a[i])], a, src, i + 1)
  }

  /** An array source into an array: element by element, appending past the end. */
  function MergeItems(b: seq<Json>, a: seq<Json>, src: Json, i: nat): seq<Json>
    requires src == Arr(a) && i <= |b|
    decreases src, 0, |a| - i
  {
    if i >= |a| then b
    else if i < |b| then MergeItems(b[i := MergeValue(Some(b[i]), a[i])], a, src, i + 1)
    else MergeItems(b + [a[i]], a, src, i + 1)
  }

  /** The sources from `i` on, stopping at the first one that is not an object. */
  function ExtendFrom(orig: Json, sources: seq<Json>, i: nat): Json
    decreases |sources| - i
  {
    if i >= |sources| || !IsObject(sources[i]) then orig
    else ExtendFrom(Merge(orig, sources[i]), sources, i + 1)
  }

  /** `_extendObject(orig, ...sources)`. */
  function Extend(orig: Json, sources: seq<Json>): Json {
    if !IsObject(orig) then orig else ExtendFrom(orig, sources, 0)
  }

  // ------------------------------------------------ the in-place algorithm

  /** `_extendObject(orig, ...objs)`: the loop over the sources. */
  method ExtendObject(orig: Json, objs: seq<Json>) returns (r: Json)
    ensures r == Extend(orig, objs)
  {
    r := orig;
    if !IsObject(orig) {
      return;
    }
    for i := 0 to |objs|
      invariant ExtendFrom(r, objs, i) == Extend(orig, objs)
    {
      if !IsObject(objs[i]) {
        return;
      }
      r := MergeInto(r, objs[i]);
    }
  }

  /** The body of the loop over the sources: every own property of `src` assigned or merged into `orig`. */
  method MergeInto(orig: Json, src: Json) returns (r: Json)
    ensures r == Merge(orig, src)
    decreases src
  {
    r := orig;
    if !IsObject(orig) || !IsObject(src) {
      return;
    }
    match orig
    case Obj(m) =>
      match src {
        case Obj(n) =>
          var fields := m;
          var todo := n.Keys;
          while todo != {}
            invariant todo <= n.Keys
            invariant fields == Partial(m, n, n.Keys - todo)
            decreases todo
          {
            var k :| k in todo;
            var v := n[k];
            if k in fields && IsObjectType(fields[k]) {
              v := MergeInto(fields[k], n[k]);
            }
            fields := fields[k := v];
            todo := todo - {k};
          }
          r := Obj(fields);
        case Arr(a) =>
          var fields := m;
          for i := 0 to |a|
            invariant MergeIndexed(fields, a, src, i) == MergeIndexed(m, a, src, 0)
          {
            var k := NatToString(i);
            var v := a[i];
            if k in fields && IsObjectType(fields[k]) {
              v := MergeInto(fields[k], a[i]);
            }
            fields := fields[k := v];
          }
          r := Obj(fields);
      }
    case Arr(b) =>
      match src {
        case Arr(a) =>
          var items := b;
          for i := 0 to |a|
            invariant i <= |items|
            invariant MergeItems(items, a, src, i) == MergeItems(b, a, src, 0)
          {
            if i < |items| {
              var v := a[i];
              if IsObjectType(items[i]) {
                v := MergeInto(items[i], a[i]);
              }
              items := items[i := v];
            } else {
              items := items + [a[i]];
            }
          }
          r := Arr(items);
        case Obj(_) =>
      }
  }

  /** The object being merged into once the properties in `done` have been handled. */
  ghost function Partial(m: map<string, Json>, n: map<string, Json>, done: set<string>): map<string, Json>
    requires done <= n.Keys
  {
    map k | k in m.Keys + done :: if k in done then MergeValue(Get(m, k), n[k]) else m[k]
  }

  // ------------------------------------------------ properties

  /** Merging never changes what kind of value the target is; a non-object target is returned as is. */
  lemma MergeKeepsKind(orig: Json, src: Json)
    ensures Merge(orig, src).Obj? == orig.Obj? && Merge(orig, src).Arr? == orig.Arr?
    ensures !IsObject(orig) ==> Merge(orig, src) == orig
    ensures IsObjectType(Merge(orig, src)) == IsObjectType(orig)
  {
  }

  /**
   * Property by property, for an object merged with an object: the keys are
   * those of both; a key the source lacks keeps its value; a key whose value
   * is not of object type (or is missing) takes the source's value; a `null`
   * stays `null`; and an object or array is merged into, keeping its kind,
   * even when the source's value is a scalar.
   */
  lemma ObjectMerge(m: map<string, Json>, n: map<string, Json>)
    ensures Merge(Obj(m), Obj(n)).Obj?
    ensures var f := Merge(Obj(m), Obj(n)).fields;
      && f.Keys == m.Keys + n.Keys
      && (forall k :: k in m && k !in n ==> f[k] == m[k])
      && (forall k :: k in n && (k !in m || !IsObjectType(m[k])) ==> f[k] == n[k])
      && (forall k :: k in n && k in m && m[k] == Null ==> f[k] == Null)
      && (forall k :: k in n && k in m && IsObject(m[k]) ==>
            f[k] == Merge(m[k], n[k]) && f[k].Obj? == m[k].Obj? && f[k].Arr? == m[k].Arr?)
  {
    var f := Merge(Obj(m), Obj(n)).fields;
    assert f == MergeFields(m, n, Obj(n));
    forall k | k in n ensures f[k] == MergeValue(Get(m, k), n[k]) { }
    forall k | k in n && k in m && IsObjectType(m[k])
      ensures f[k] == Merge(m[k], n[k]) && f[k].Obj? == m[k].Obj? && f[k].Arr? == m[k].Arr? && (m[k] == Null ==> f[k] == Null)
    {
      MergeKeepsKind(m[k], n[k]);
    }
  }

  /** An array merged into an array: index by index, with the longer length. */
  lemma {:induction false} MergeItemsSpec(b: seq<Json>, a: seq<Json>, src: Json, i: nat)
    requires src == Arr(a) && i <= |b|
    ensures var c := MergeItems(b, a, src, i);
      && |c| == (if |a| > |b| then |a| else |b|)
      && forall j :: 0 <= j < |c| ==>
           c[j] == (if i <= j < |a| then MergeValue(if j < |b| then Some(b[j]) else None, a[j]) else b[j])
    decreases |a| - i
  {
    if i < |a| {
      if i < |b| {
        MergeItemsSpec(b[i := MergeValue(Some(b[i]), a[i])], a, src, i + 1);
      } else {
        MergeItemsSpec(b + [a[i]], a, src, i + 1);
      }
    }
  }

  /** The keys an array source contributes from index `i` on. */
  ghost function IndexKeys(i: nat, n: nat): set<string> {
    set j | i <= j < n :: NatToString(j)
  }

  lemma IndexKeysSplit(i: nat, n: nat)
    requires i < n
    ensures IndexKeys(i, n) == {NatToString(i)} + IndexKeys(i + 1, n)
    ensures NatToString(i) !in IndexKeys(i + 1, n)
  {
    forall j | i < j < n ensures NatToString(j) != NatToString(i) {
      if NatToString(j) == NatToString(i) { NatToStringInjective(j, i); }
    }
  }

  lemma {:induction false} MergeIndexedKeys(m: map<string, Json>, a: seq<Json>, src: Json, i: nat)
    requires src == Arr(a) && i <= |a|
    ensures MergeIndexed(m, a, src, i).Keys == m.Keys + IndexKeys(i, |a|)
    decreases |a| - i
  {
    if i < |a| {
      var k := NatToString(i);
      MergeIndexedKeys(m[k := MergeValue(Get(m, k), a[i])], a, src, i + 1);
      IndexKeysSplit(i, |a|);
    } else {
      assert IndexKeys(i, |a|) == {};
    }
  }

  lemma {:induction false} MergeIndexedKeeps(m: map<string, Json>, a: seq<Json>, src: Json, i: nat, k: string)
    requires src == Arr(a) && i <= |a|
    requires k in m && k !in IndexKeys(i, |a|)
    ensures k in MergeIndexed(m, a, src, i) && MergeIndexed(m, a, src, i)[k] == m[k]
    decreases |a| - i
  {
    if i < |a| {
      var k' := NatToString(i);
      IndexKeysSplit(i, |a|);
      MergeIndexedKeeps(m[k' := MergeValue(Get(m, k'), a[i])], a, src, i + 1, k);
    }
  }

  lemma {:induction false} MergeIndexedValue(m: map<string, Json>, a: seq<Json>, src: Json, i: nat, j: nat)
    requires src == Arr(a) && i <= j < |a|
    ensures NatToString(j) in MergeIndexed(m, a, src, i)
    ensures MergeIndexed(m, a, src, i)[NatToString(j)] == MergeValue(Get(m, NatToString(j)), a[j])
    decreases |a| - i
  {
    var k := NatToString(i);
    var m' := m[k := MergeValue(Get(m, k), a[i])];
    IndexKeysSplit(i, |a|);
    if j == i {
      MergeIndexedKeeps(m', a, src, i + 1, k);
    } else {
      assert NatToString(j) in IndexKeys(i + 1, |a|);
      MergeIndexedValue(m', a, src, i + 1, j);
      assert Get(m', NatToString(j)) == Get(m, NatToString(j));
    }
  }

  /** An array merged into an object: property `"j"` gets element `j`, merged or assigned; the rest is kept. */
  lemma MergeIndexedSpec(m: map<string, Json>, a: seq<Json>, src: Json, i: nat)
    requires src == Arr(a) && i <= |a|
    ensures var r := MergeIndexed(m, a, src, i);
      && r.Keys == m.Keys + IndexKeys(i, |a|)
      && (forall j :: i <= j < |a| ==> r[NatToString(j)] == MergeValue(Get(m, NatToString(j)), a[j]))
      && (forall k :: k in m && k !in IndexKeys(i, |a|) ==> r[k] == m[k])
  {
    MergeIndexedKeys(m, a, src, i);
    forall j | i <= j < |a| ensures MergeIndexed(m, a, src, i)[NatToString(j)] == MergeValue(Get(m, NatToString(j)), a[j]) {
      MergeIndexedValue(m, a, src, i, j);
    }
    forall k | k in m && k !in IndexKeys(i, |a|) ensures MergeIndexed(m, a, src, i)[k] == m[k] {
      MergeIndexedKeeps(m, a, src, i, k);
    }
  }

  /** Merging a value into itself changes nothing. */
  lemma {:induction false} SelfMerge(x: Json)
    ensures Merge(x, x) == x
    decreases x, 1
  {
    match x
    case Obj(m) =>
      var f := MergeFields(m, m, x);
      forall k | k in m ensures f[k] == m[k] {
        SelfMergeValue(m[k]);
      }
    case Arr(a) =>
      MergeItemsSpec(a, a, x, 0);
      var c := MergeItems(a, a, x, 0);
      forall j | 0 <= j < |a| ensures c[j] == a[j] {
        SelfMergeValue(a[j]);
      }
    case _ =>
  }

  lemma {:induction false} SelfMergeValue(v: Json)
    ensures MergeValue(Some(v), v) == v
    decreases v, 2
  {
    if IsObjectType(v) {
      SelfMerge(v);
    }
  }

  /** Merging the same source a second time changes nothing more. */
  lemma {:induction false} MergeIdempotent(orig: Json, src: Json)
    ensures Merge(Merge(orig, src), src) == Merge(orig, src)
    decreases src, 1
  {
    if IsObject(orig) && IsObject(src) {
      match orig
      case Obj(m) =>
        match src {
          case Obj(n) => FieldsIdempotent(m, n, src);
          case Arr(a) => IndexedIdempotent(m, a, src);
        }
      case Arr(b) =>
        match src {
          case Arr(a) => ItemsIdempotent(b, a, src);
          case Obj(_) =>
        }
    }
  }

  lemma FieldsIdempotent(m: map<string, Json>, n: map<string, Json>, src: Json)
    requires src == Obj(n)
    ensures MergeFields(MergeFields(m, n, src), n, src) == MergeFields(m, n, src)
    decreases src, 0
  {
    var f := MergeFields(m, n, src);
    var g := MergeFields(f, n, src);
    forall k | k in n ensures g[k] == f[k] {
      MergeValueIdempotent(Get(m, k), n[k]);
    }
  }

  lemma IndexedIdempotent(m: map<string, Json>, a: seq<Json>, src: Json)
    requires src == Arr(a)
    ensures MergeIndexed(MergeIndexed(m, a, src, 0), a, src, 0) == MergeIndexed(m, a, src, 0)
    decreases src, 0
  {
    var f := MergeIndexed(m, a, src, 0);
    var g := MergeIndexed(f, a, src, 0);
    MergeIndexedKeys(m, a, src, 0);
    MergeIndexedKeys(f, a, src, 0);
    assert g.Keys == f.Keys;
    forall k | k in f ensures g[k] == f[k] {
      if k in IndexKeys(0, |a|) {
        var j :| 0 <= j < |a| && NatToString(j) == k;
        MergeIndexedValue(m, a, src, 0, j);
        MergeIndexedValue(f, a, src, 0, j);
        MergeValueIdempotent(Get(m, k), a[j]);
      } else {
        MergeIndexedKeeps(f, a, src, 0, k);
      }
    }
  }

  lemma ItemsIdempotent(b: seq<Json>, a: seq<Json>, src: Json)
    requires src == Arr(a)
    ensures MergeItems(MergeItems(b, a, src, 0), a, src, 0) == MergeItems(b, a, src, 0)
    decreases src, 0
  {
    MergeItemsSpec(b, a, src, 0);
    var c := MergeItems(b, a, src, 0);
    MergeItemsSpec(c, a, src, 0);
    var d := MergeItems(c, a, src, 0);
    forall j | 0 <= j < |c| ensures d[j] == c[j] {
      if j < |a| {
        MergeValueIdempotent(if j < |b| then Some(b[j]) else None, a[j]);
      }
    }
  }

  lemma {:induction false} MergeValueIdempotent(cur: Option<Json>, v: Json)
    ensures MergeValue(Some(MergeValue(cur, v)), v) == MergeValue(cur, v)
    decreases v, 2
  {
    if cur.Some? && IsObjectType(cur.value) {
      MergeKeepsKind(cur.value, v);
      MergeIdempotent(cur.value, v);
    } else {
      SelfMergeValue(v);
    }
  }

  /** `ExtendFrom` never looks past the first source that is not an object. */
  lemma {:induction false} ExtendFromPrefix(x: Json, sources: seq<Json>, j: nat, i: nat)
    requires i <= j < |sources| && !IsObject(sources[j])
    ensures ExtendFrom(x, sources, i) == ExtendFrom(x, sources[..j], i)
    decreases j - i
  {
    if i < j && IsObject(sources[i]) {
      ExtendFromPrefix(Merge(x, sources[i]), sources, j, i + 1);
    }
  }

  /** Extending stops at the first source that is not an object: what follows it is ignored. */
  lemma StopsAtFirstNonObject(orig: Json, sources: seq<Json>, j: nat)
    requires j < |sources| && !IsObject(sources[j])
    ensures Extend(orig, sources) == Extend(orig, sources[..j])
  {
    if IsObject(orig) {
      ExtendFromPrefix(orig, sources, j, 0);
    }
  }

  /** A property no source mentions keeps its value, however many sources there are. */
  lemma {:induction false} UntouchedKeyKept(m: map<string, Json>, sources: seq<Json>, k: string, i: nat)
    requires k in m
    requires forall s :: s in sources && s.Obj? ==> k !in s.fields
    requires forall s :: s in sources && s.Arr? ==> forall j :: 0 <= j < |s.items| ==> k != NatToString(j)
    ensures ExtendFrom(Obj(m), sources, i).Obj?
    ensures k in ExtendFrom(Obj(m), sources, i).fields && ExtendFrom(Obj(m), sources, i).fields[k] == m[k]
    decreases |sources| - i
  {
    if i < |sources| && IsObject(sources[i]) {
      var src := sources[i];
      var next := Merge(Obj(m), src);
      match src
      case Obj(n) =>
        ObjectMerge(m, n);
        UntouchedKeyKept(next.fields, sources, k, i + 1);
      case Arr(a) =>
        MergeIndexedSpec(m, a, src, 0);
        assert k !in IndexKeys(0, |a|);
        UntouchedKeyKept(next.fields, sources, k, i + 1);
    }
  }
}
