/** JSON values as JSON.parse gives them, and their canonical form (scripts/rulesets-check.ts). */
module Json {

  /** A number is known by how it prints. Fields are in the order the object lists them. */
  datatype Json =
    | Null
    | Bool(b: bool)
    | Num(text: string)
    | Str(s: string)
    | Arr(items: seq<Json>)
    | Obj(fields: seq<Field>)

  datatype Field = Field(key: string, value: Json)

  predicate DistinctKeys(fs: seq<Field>) {
    forall i, j | 0 <= i < j < |fs| :: fs[i].key != fs[j].key
  }

  /** No object has a key twice, at any depth. */
  predicate Parsed(a: Json) {
    match a
    case Arr(items) => forall i | 0 <= i < |items| :: Parsed(items[i])
    case Obj(fs) => DistinctKeys(fs) && forall i | 0 <= i < |fs| :: Parsed(fs[i].value)
    case Num(text) => |text| > 0 && forall i | 0 <= i < |text| :: NumberChar(text[i])
    case _ => true
  }

  predicate NumberChar(c: char) {
    '0' <= c <= '9' || c == '-' || c == '+' || c == '.' || c == 'e'
  }

  /** Equal but for the order of keys, at every depth. */
  ghost predicate Same(a: Json, b: Json)
    decreases a
  {
    match a
    case Arr(items) =>
      b.Arr? && |b.items| == |items| && forall i | 0 <= i < |items| :: Same(items[i], b.items[i])
    case Obj(fs) =>
      && b.Obj?
      && SameKeys(fs, b.fields)
      && forall i, j | 0 <= i < |fs| && 0 <= j < |b.fields| && fs[i].key == b.fields[j].key ::
           Same(fs[i].value, b.fields[j].value)
    case _ => a == b
  }

  ghost predicate HasKey(fs: seq<Field>, key: string) {
    exists i :: 0 <= i < |fs| && fs[i].key == key
  }

  ghost predicate SameKeys(fs: seq<Field>, gs: seq<Field>) {
    forall key :: HasKey(fs, key) <==> HasKey(gs, key)
  }

  // ----- the order an object lists its keys in -----

  /** By character: the first that differs decides. */
  predicate Before(a: string, b: string) {
    b != [] && (a == [] || a[0] < b[0] || (a[0] == b[0] && Before(a[1..], b[1..])))
  }

  /** A key an object lists by number, before all others: a numeral below 4294967295. */
  predicate IsIndex(a: string) {
    && 1 <= |a| <= 10
    && (forall i | 0 <= i < |a| :: '0' <= a[i] <= '9')
    && (|a| == 1 || a[0] != '0')
    && (|a| == 10 ==> Before(a, "4294967295"))
  }

  /** An object built from sorted entries lists its numerals by size, then the other keys as sorted. */
  predicate KeyBefore(a: string, b: string) {
    if IsIndex(a) && IsIndex(b) then |a| < |b| || (|a| == |b| && Before(a, b))
    else IsIndex(a) || (!IsIndex(b) && Before(a, b))
  }

  lemma {:induction false} BeforeTotal(a: string, b: string)
    ensures a == b || Before(a, b) || Before(b, a)
    ensures !(Before(a, b) && Before(b, a)) && !Before(a, a)
  {
    if a != [] && b != [] && a[0] == b[0] {
      BeforeTotal(a[1..], b[1..]);
      assert a == [a[0]] + a[1..] && b == [b[0]] + b[1..];
    }
    if a != [] {
      NotBeforeItself(a);
    }
  }

  lemma {:induction false} NotBeforeItself(a: string)
    ensures !Before(a, a)
  {
    if a != [] {
      NotBeforeItself(a[1..]);
    }
  }

  lemma {:induction false} BeforeTransitive(a: string, b: string, c: string)
    requires Before(a, b) && Before(b, c)
    ensures Before(a, c)
  {
    if a != [] && a[0] == b[0] == c[0] {
      BeforeTransitive(a[1..], b[1..], c[1..]);
    }
  }

  lemma {:induction false} KeyTotal(a: string, b: string)
    ensures a == b || KeyBefore(a, b) || KeyBefore(b, a)
    ensures !(KeyBefore(a, b) && KeyBefore(b, a))
  {
    BeforeTotal(a, b);
  }

  lemma {:induction false} KeyTransitive(a: string, b: string, c: string)
    requires KeyBefore(a, b) && KeyBefore(b, c)
    ensures KeyBefore(a, c)
  {
    if Before(a, b) && Before(b, c) {
      BeforeTransitive(a, b, c);
    }
  }

  // ----- canonical form -----

  function Insert(f: Field, sorted: seq<Field>): seq<Field> {
    if sorted == [] || KeyBefore(f.key, sorted[0].key) then [f] + sorted
    else [sorted[0]] + Insert(f, sorted[1..])
  }

  /** Object keys in one order at every level. */
  function Canonical(a: Json): Json
    decreases a
  {
    match a
    case Arr(items) => Arr(CanonicalItems(items))
    case Obj(fs) => Obj(CanonicalFields(fs))
    case _ => a
  }

  function CanonicalItems(items: seq<Json>): seq<Json>
    decreases items
  {
    if items == [] then [] else [Canonical(items[0])] + CanonicalItems(items[1..])
  }

  function CanonicalFields(fs: seq<Field>): seq<Field>
    decreases fs
  {
    if fs == [] then [] else Insert(Field(fs[0].key, Canonical(fs[0].value)), CanonicalFields(fs[1..]))
  }

  ghost predicate Sorted(fs: seq<Field>) {
    forall i, j | 0 <= i < j < |fs| :: KeyBefore(fs[i].key, fs[j].key)
  }

  lemma {:induction false} InsertMembers(f: Field, sorted: seq<Field>)
    ensures forall g :: g in Insert(f, sorted) <==> g == f || g in sorted
  {
    if sorted != [] && !KeyBefore(f.key, sorted[0].key) {
      InsertMembers(f, sorted[1..]);
      assert forall g :: g in sorted <==> g == sorted[0] || g in sorted[1..];
    }
  }

  lemma {:induction false} InsertSorted(f: Field, sorted: seq<Field>)
    requires Sorted(sorted) && forall g | g in sorted :: g.key != f.key
    ensures Sorted(Insert(f, sorted))
  {
    if sorted != [] {
      KeyTotal(f.key, sorted[0].key);
      assert forall g | g in sorted[1..] :: g in sorted && KeyBefore(sorted[0].key, g.key);
      if KeyBefore(f.key, sorted[0].key) {
        forall g | g in sorted[1..]
          ensures KeyBefore(f.key, g.key)
        {
          KeyTransitive(f.key, sorted[0].key, g.key);
        }
        SortedFirst(f, sorted);
      } else {
        assert sorted[0] in sorted;
        InsertSorted(f, sorted[1..]);
        InsertMembers(f, sorted[1..]);
        SortedFirst(sorted[0], Insert(f, sorted[1..]));
      }
    }
  }

  lemma {:induction false} SortedFirst(f: Field, rest: seq<Field>)
    requires Sorted(rest) && forall g | g in rest :: KeyBefore(f.key, g.key)
    ensures Sorted([f] + rest)
  {
    assert forall i | 0 <= i < |rest| :: rest[i] in rest;
  }

  /** The canonical fields: the same keys, each with its canonical value. */
  lemma {:induction false} CanonicalMembers(fs: seq<Field>, f: Field)
    ensures f in CanonicalFields(fs) <==>
            exists i :: 0 <= i < |fs| && fs[i].key == f.key && Canonical(fs[i].value) == f.value
  {
    if fs != [] {
      CanonicalMembers(fs[1..], f);
      InsertMembers(Field(fs[0].key, Canonical(fs[0].value)), CanonicalFields(fs[1..]));
      if f in CanonicalFields(fs[1..]) {
        var i :| 0 <= i < |fs[1..]| && fs[1..][i].key == f.key && Canonical(fs[1..][i].value) == f.value;
        assert fs[i + 1].key == f.key;
      }
      if i :| 0 <= i < |fs| && fs[i].key == f.key && Canonical(fs[i].value) == f.value {
        if i > 0 {
          assert fs[1..][i - 1] == fs[i];
        }
      }
    }
  }

  lemma {:induction false} CanonicalSorted(fs: seq<Field>)
    requires DistinctKeys(fs)
    ensures Sorted(CanonicalFields(fs))
  {
    if fs != [] {
      CanonicalSorted(fs[1..]);
      forall g | g in CanonicalFields(fs[1..])
        ensures g.key != fs[0].key
      {
        CanonicalMembers(fs[1..], g);
      }
      InsertSorted(Field(fs[0].key, Canonical(fs[0].value)), CanonicalFields(fs[1..]));
    }
  }

  /** Two sorted lists with the same fields are the same list. */
  lemma {:induction false} SortedOnce(fs: seq<Field>, gs: seq<Field>)
    requires Sorted(fs) && Sorted(gs) && forall f :: f in fs <==> f in gs
    ensures fs == gs
  {
    if fs == [] {
      FirstIn(gs);
    } else {
      assert fs[0] in gs;
      assert gs[0] in fs;
      KeyTotal(fs[0].key, gs[0].key);
      assert fs[0] == gs[0];
      OnlyFirst(fs);
      OnlyFirst(gs);
      SortedOnce(fs[1..], gs[1..]);
      assert fs == [fs[0]] + fs[1..] && gs == [gs[0]] + gs[1..];
    }
  }

  lemma FirstIn(gs: seq<Field>)
    ensures gs != [] ==> gs[0] in gs
  {
  }

  lemma {:induction false} OnlyFirst(fs: seq<Field>)
    requires Sorted(fs) && fs != []
    ensures forall f :: f in fs[1..] <==> f in fs && f != fs[0]
  {
    forall f | f in fs[1..]
      ensures f in fs && f != fs[0]
    {
      KeyTotal(fs[0].key, f.key);
    }
  }

  lemma {:induction false} ItemsIndex(items: seq<Json>)
    ensures |CanonicalItems(items)| == |items|
    ensures forall i | 0 <= i < |items| :: CanonicalItems(items)[i] == Canonical(items[i])
  {
    if items != [] {
      ItemsIndex(items[1..]);
    }
  }

  // ----- canonical forms are equal exactly when the values are, but for key order -----

  lemma {:induction false} CanonicalIff(a: Json, b: Json)
    requires Parsed(a) && Parsed(b)
    ensures Canonical(a) == Canonical(b) <==> Same(a, b)
    decreases a
  {
    if a.Arr? && b.Arr? {
      ItemsIndex(a.items);
      ItemsIndex(b.items);
      if |a.items| == |b.items| {
        forall i | 0 <= i < |a.items|
          ensures Canonical(a.items[i]) == Canonical(b.items[i]) <==> Same(a.items[i], b.items[i])
        {
          CanonicalIff(a.items[i], b.items[i]);
        }
      }
    } else if a.Obj? && b.Obj? {
      forall i, j | 0 <= i < |a.fields| && 0 <= j < |b.fields|
        ensures Canonical(a.fields[i].value) == Canonical(b.fields[j].value) <==>
                Same(a.fields[i].value, b.fields[j].value)
      {
        CanonicalIff(a.fields[i].value, b.fields[j].value);
      }
      if Canonical(a) == Canonical(b) {
        FieldsGive(a.fields, b.fields);
      }
      if Same(a, b) {
        FieldsTake(a.fields, b.fields);
      }
    }
  }

  lemma {:induction false} FieldsGive(fs: seq<Field>, gs: seq<Field>)
    requires DistinctKeys(fs) && DistinctKeys(gs) && CanonicalFields(fs) == CanonicalFields(gs)
    ensures SameKeys(fs, gs)
    ensures forall i, j | 0 <= i < |fs| && 0 <= j < |gs| && fs[i].key == gs[j].key ::
              Canonical(fs[i].value) == Canonical(gs[j].value)
  {
    forall i | 0 <= i < |fs|
      ensures exists j :: 0 <= j < |gs| && gs[j].key == fs[i].key && Canonical(gs[j].value) == Canonical(fs[i].value)
    {
      var f := Field(fs[i].key, Canonical(fs[i].value));
      CanonicalMembers(fs, f);
      CanonicalMembers(gs, f);
    }
    forall j | 0 <= j < |gs|
      ensures HasKey(fs, gs[j].key)
    {
      var g := Field(gs[j].key, Canonical(gs[j].value));
      CanonicalMembers(gs, g);
      CanonicalMembers(fs, g);
    }
  }

  lemma {:induction false} FieldsTake(fs: seq<Field>, gs: seq<Field>)
    requires DistinctKeys(fs) && DistinctKeys(gs) && SameKeys(fs, gs)
    requires forall i, j | 0 <= i < |fs| && 0 <= j < |gs| && fs[i].key == gs[j].key ::
               Canonical(fs[i].value) == Canonical(gs[j].value)
    ensures CanonicalFields(fs) == CanonicalFields(gs)
  {
    forall f
      ensures f in CanonicalFields(fs) <==> f in CanonicalFields(gs)
    {
      CanonicalMembers(fs, f);
      CanonicalMembers(gs, f);
      if i :| 0 <= i < |fs| && fs[i].key == f.key && Canonical(fs[i].value) == f.value {
        assert HasKey(fs, f.key) && HasKey(gs, f.key);
      }
      if j :| 0 <= j < |gs| && gs[j].key == f.key && Canonical(gs[j].value) == f.value {
        assert HasKey(gs, f.key) && HasKey(fs, f.key);
      }
    }
    CanonicalSorted(fs);
    CanonicalSorted(gs);
    SortedOnce(CanonicalFields(fs), CanonicalFields(gs));
  }
}
