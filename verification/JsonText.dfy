/** JSON.stringify, and why two values print the same only if they are the same. */
module JsonText {
  import opened Common
  import opened Json

  // ----- strings -----

  /** The letter of a two-character escape. */
  function Short(c: char): Option<char> {
    if c == '"' then Some('"')
    else if c == '\\' then Some('\\')
    else if c as int == 8 then Some('b')
    else if c as int == 9 then Some('t')
    else if c as int == 10 then Some('n')
    else if c as int == 12 then Some('f')
    else if c as int == 13 then Some('r')
    else None
  }

  function Hex(d: int): char
    requires 0 <= d < 16
  {
    if d < 10 then (48 + d) as char else (87 + d) as char
  }

  function Escape(c: char): string {
    if Short(c).Some? then ['\\', Short(c).value]
    else if c as int < 32 then ['\\', 'u', '0', '0', Hex(c as int / 16), Hex(c as int % 16)]
    else [c]
  }

  /** The rest of a quoted string. */
  function Quoted(s: string): string {
    if s == [] then ['"'] else Escape(s[0]) + Quoted(s[1..])
  }

  lemma {:induction false} EscapeInjective(c: char, d: char, x: string, y: string)
    requires Escape(c) + x == Escape(d) + y
    ensures c == d && x == y
  {
    var p, q := Escape(c) + x, Escape(d) + y;
    assert p[0] == Escape(c)[0] && q[0] == Escape(d)[0];
    if p[0] == '\\' {
      assert p[1] == Escape(c)[1] && q[1] == Escape(d)[1];
      if p[1] == 'u' {
        assert p[4] == Escape(c)[4] && q[4] == Escape(d)[4];
        assert p[5] == Escape(c)[5] && q[5] == Escape(d)[5];
      }
    }
    assert c == d;
    assert x == p[|Escape(c)|..] && y == q[|Escape(d)|..];
  }

  lemma {:induction false} QuotedFirst(s: string, x: string)
    ensures Quoted(s) + x != [] && (s == [] <==> (Quoted(s) + x)[0] == '"')
  {
  }

  lemma {:induction false} QuotedStep(s: string, x: string)
    requires s != []
    ensures Quoted(s) + x == Escape(s[0]) + (Quoted(s[1..]) + x)
  {
  }

  lemma {:induction false} QuotedInjective(s: string, t: string, x: string, y: string)
    requires Quoted(s) + x == Quoted(t) + y
    ensures s == t && x == y
  {
    QuotedFirst(s, x);
    QuotedFirst(t, y);
    if s == [] {
      assert x == (Quoted(s) + x)[1..] && y == (Quoted(t) + y)[1..];
    } else {
      QuotedStep(s, x);
      QuotedStep(t, y);
      EscapeInjective(s[0], t[0], Quoted(s[1..]) + x, Quoted(t[1..]) + y);
      QuotedInjective(s[1..], t[1..], x, y);
      assert s == [s[0]] + s[1..] && t == [t[0]] + t[1..];
    }
  }

  /** A key as an object prints it. */
  function KeyText(key: string): string {
    ['"'] + Quoted(key) + [':']
  }

  lemma {:induction false} KeyInjective(k: string, l: string, x: string, y: string)
    requires KeyText(k) + x == KeyText(l) + y
    ensures k == l && x == y
  {
    assert KeyText(k) + x == ['"'] + Quoted(k) + ([':'] + x);
    assert KeyText(l) + y == ['"'] + Quoted(l) + ([':'] + y);
    Shift(['"'], Quoted(k), Quoted(l), [':'] + x, [':'] + y);
    QuotedInjective(k, l, [':'] + x, [':'] + y);
    assert x == ([':'] + x)[1..] && y == ([':'] + y)[1..];
  }

  lemma {:induction false} Shift(c: string, p: string, q: string, x: string, y: string)
    requires c + p + x == c + q + y
    ensures p + x == q + y
  {
    assert p + x == (c + p + x)[|c|..] && q + y == (c + q + y)[|c|..];
  }

  // ----- values -----

  function Print(a: Json): string
    decreases a
  {
    match a
    case Null => "null"
    case Bool(b) => if b then "true" else "false"
    case Num(text) => text
    case Str(s) => ['"'] + Quoted(s)
    case Arr(items) => ['['] + PrintItems(items, true)
    case Obj(fs) => ['{'] + PrintFields(fs, true)
  }

  function Comma(first: bool): string {
    if first then [] else [',']
  }

  /** The rest of an array. */
  function PrintItems(items: seq<Json>, first: bool): string
    decreases items
  {
    if items == [] then [']'] else Comma(first) + Print(items[0]) + PrintItems(items[1..], false)
  }

  /** The rest of an object. */
  function PrintFields(fs: seq<Field>, first: bool): string
    decreases fs
  {
    if fs == [] then ['}']
    else Comma(first) + (KeyText(fs[0].key) + Print(fs[0].value)) + PrintFields(fs[1..], false)
  }

  /** What may follow a value: nothing, or a character that no number holds. */
  predicate Ends(x: string) {
    x == [] || x[0] == ',' || x[0] == ']' || x[0] == '}'
  }

  /** The first character tells what kind of value it is. */
  lemma {:induction false} FirstChar(a: Json)
    requires Parsed(a)
    ensures var s := Print(a);
            && s != []
            && (a.Null? <==> s[0] == 'n') && (a.Bool? <==> s[0] == 't' || s[0] == 'f')
            && (a.Num? <==> NumberChar(s[0])) && (a.Str? <==> s[0] == '"')
            && (a.Arr? <==> s[0] == '[') && (a.Obj? <==> s[0] == '{')
  {
  }

  lemma {:induction false} NumberEnds(m: string, n: string, x: string, y: string)
    requires (forall i | 0 <= i < |m| :: NumberChar(m[i])) && (forall i | 0 <= i < |n| :: NumberChar(n[i]))
    requires Ends(x) && Ends(y) && m + x == n + y
    ensures m == n && x == y
  {
    if m == [] {
      assert m + x == x && n + y == y;
    } else {
      assert (m + x)[0] == m[0] && (n + y)[0] == n[0];
      assert (m + x)[1..] == m[1..] + x && (n + y)[1..] == n[1..] + y;
      NumberEnds(m[1..], n[1..], x, y);
      assert m == [m[0]] + m[1..] && n == [n[0]] + n[1..];
    }
  }

  /** Two values print the same only if they are the same, whatever follows them. */
  lemma {:induction false} PrintInjective(a: Json, b: Json, x: string, y: string)
    requires Parsed(a) && Parsed(b) && Ends(x) && Ends(y) && Print(a) + x == Print(b) + y
    ensures a == b && x == y
    decreases a
  {
    FirstChar(a);
    FirstChar(b);
    assert Print(a)[0] == (Print(a) + x)[0] && Print(b)[0] == (Print(b) + y)[0];
    match a {
      case Null =>
        assert x == (Print(a) + x)[4..] && y == (Print(b) + y)[4..];
      case Bool(_) =>
        assert x == (Print(a) + x)[|Print(a)|..] && y == (Print(b) + y)[|Print(b)|..];
      case Num(text) =>
        NumberEnds(text, b.text, x, y);
      case Str(s) =>
        Shift(['"'], Quoted(s), Quoted(b.s), x, y);
        QuotedInjective(s, b.s, x, y);
      case Arr(items) =>
        Shift(['['], PrintItems(items, true), PrintItems(b.items, true), x, y);
        ItemsInjective(items, b.items, true, x, y);
      case Obj(fs) =>
        Shift(['{'], PrintFields(fs, true), PrintFields(b.fields, true), x, y);
        FieldsInjective(fs, b.fields, true, x, y);
    }
  }

  lemma {:induction false} ItemsFirst(items: seq<Json>, first: bool)
    requires forall i | 0 <= i < |items| :: Parsed(items[i])
    ensures PrintItems(items, first) != [] && (items == [] <==> PrintItems(items, first)[0] == ']')
  {
    if items != [] {
      FirstChar(items[0]);
    }
  }

  lemma {:induction false} ItemsStep(items: seq<Json>, first: bool, x: string)
    requires items != []
    ensures PrintItems(items, first) + x == Comma(first) + Print(items[0]) + (PrintItems(items[1..], false) + x)
  {
  }

  lemma {:induction false} ItemsInjective(items: seq<Json>, others: seq<Json>, first: bool, x: string, y: string)
    requires forall i | 0 <= i < |items| :: Parsed(items[i])
    requires forall i | 0 <= i < |others| :: Parsed(others[i])
    requires PrintItems(items, first) + x == PrintItems(others, first) + y
    ensures items == others && x == y
    decreases items
  {
    ItemsFirst(items, first);
    ItemsFirst(others, first);
    assert PrintItems(items, first)[0] == (PrintItems(items, first) + x)[0];
    assert PrintItems(others, first)[0] == (PrintItems(others, first) + y)[0];
    if items == [] {
      assert x == (PrintItems(items, first) + x)[1..] && y == (PrintItems(others, first) + y)[1..];
    } else {
      var r, s := PrintItems(items[1..], false) + x, PrintItems(others[1..], false) + y;
      ItemsStep(items, first, x);
      ItemsStep(others, first, y);
      Shift(Comma(first), Print(items[0]), Print(others[0]), r, s);
      PrintInjective(items[0], others[0], r, s);
      ItemsInjective(items[1..], others[1..], false, x, y);
      assert items == [items[0]] + items[1..] && others == [others[0]] + others[1..];
    }
  }

  /** One field's text, then what follows. */
  lemma {:induction false} FieldInjective(f: Field, g: Field, x: string, y: string)
    requires Parsed(f.value) && Parsed(g.value) && Ends(x) && Ends(y)
    requires KeyText(f.key) + Print(f.value) + x == KeyText(g.key) + Print(g.value) + y
    ensures f == g && x == y
    decreases f, 0
  {
    var p, q := Print(f.value) + x, Print(g.value) + y;
    assert KeyText(f.key) + Print(f.value) + x == KeyText(f.key) + p;
    assert KeyText(g.key) + Print(g.value) + y == KeyText(g.key) + q;
    KeyInjective(f.key, g.key, p, q);
    PrintInjective(f.value, g.value, x, y);
  }

  lemma {:induction false} FieldsStep(fs: seq<Field>, first: bool, x: string)
    requires fs != []
    ensures PrintFields(fs, first) + x ==
            Comma(first) + (KeyText(fs[0].key) + Print(fs[0].value)) + (PrintFields(fs[1..], false) + x)
  {
  }

  lemma {:induction false} FieldsInjective(fs: seq<Field>, gs: seq<Field>, first: bool, x: string, y: string)
    requires forall i | 0 <= i < |fs| :: Parsed(fs[i].value)
    requires forall i | 0 <= i < |gs| :: Parsed(gs[i].value)
    requires PrintFields(fs, first) + x == PrintFields(gs, first) + y
    ensures fs == gs && x == y
    decreases fs
  {
    assert PrintFields(fs, first)[0] == (PrintFields(fs, first) + x)[0];
    assert PrintFields(gs, first)[0] == (PrintFields(gs, first) + y)[0];
    if fs == [] {
      assert x == (PrintFields(fs, first) + x)[1..] && y == (PrintFields(gs, first) + y)[1..];
    } else {
      var r, s := PrintFields(fs[1..], false) + x, PrintFields(gs[1..], false) + y;
      FieldsStep(fs, first, x);
      FieldsStep(gs, first, y);
      Shift(Comma(first), KeyText(fs[0].key) + Print(fs[0].value), KeyText(gs[0].key) + Print(gs[0].value), r, s);
      FieldInjective(fs[0], gs[0], r, s);
      FieldsInjective(fs[1..], gs[1..], false, x, y);
      assert fs == [fs[0]] + fs[1..] && gs == [gs[0]] + gs[1..];
    }
  }
}
