/** The rulesets drift check (scripts/rulesets-check.ts): what it is silent about, and when. */
module Rulesets {
  import opened Common
  import opened Json
  import opened JsonText

  const FIELDS: seq<string> := ["name", "target", "enforcement", "bypass_actors", "conditions", "rules"]

  function Get(fs: seq<Field>, key: string): Option<Json> {
    if fs == [] then None else if fs[0].key == key then Some(fs[0].value) else Get(fs[1..], key)
  }

  /** A parsed ruleset: an object with a name. */
  datatype Ruleset = Ruleset(fields: seq<Field>) {
    predicate Valid() {
      Parsed(Obj(fields)) && Get(fields, "name").Some? && Get(fields, "name").value.Str?
    }

    function Name(): string
      requires Valid()
    {
      Get(fields, "name").value.s
    }

    predicate Hides() {
      Get(fields, "bypass_actors").None? || !Get(fields, "bypass_actors").value.Arr?
    }
  }

  // ----- the six fields compared -----

  /** Of the named fields, those the ruleset has. */
  function Choose(fs: seq<Field>, names: seq<string>): seq<Field> {
    if names == [] then []
    else (if Get(fs, names[0]).Some? then [Field(names[0], Get(fs, names[0]).value)] else []) + Choose(fs, names[1..])
  }

  function Defining(r: Ruleset): string {
    Print(Canonical(Obj(Choose(r.fields, FIELDS))))
  }

  /** A field as it prints; None when the ruleset does not have it. */
  function FieldText(r: Ruleset, name: string): Option<string> {
    if Get(r.fields, name).None? then None else Some(Print(Canonical(Get(r.fields, name).value)))
  }

  function ChangedOf(a: Ruleset, b: Ruleset, names: seq<string>): seq<string> {
    if names == [] then []
    else (if FieldText(a, names[0]) != FieldText(b, names[0]) then [names[0]] else []) + ChangedOf(a, b, names[1..])
  }

  function Changed(a: Ruleset, b: Ruleset): seq<string> {
    ChangedOf(a, b, FIELDS)
  }

  /** The same ruleset: each of those fields is missing on both sides, or equal but for key order. */
  ghost predicate SameField(a: Ruleset, b: Ruleset, name: string) {
    var x, y := Get(a.fields, name), Get(b.fields, name);
    (x.None? && y.None?) || (x.Some? && y.Some? && Same(x.value, y.value))
  }

  ghost predicate SameRuleset(a: Ruleset, b: Ruleset) {
    forall name | name in FIELDS :: SameField(a, b, name)
  }

  lemma {:induction false} GetParsed(fs: seq<Field>, key: string)
    requires forall i | 0 <= i < |fs| :: Parsed(fs[i].value)
    ensures Get(fs, key).Some? ==> Parsed(Get(fs, key).value)
  {
    if fs != [] {
      GetParsed(fs[1..], key);
    }
  }

  lemma {:induction false} ChooseMembers(fs: seq<Field>, names: seq<string>)
    ensures forall f :: f in Choose(fs, names) <==> f.key in names && Get(fs, f.key) == Some(f.value)
  {
    if names != [] {
      ChooseMembers(fs, names[1..]);
      assert forall n :: n in names <==> n == names[0] || n in names[1..];
    }
  }

  lemma {:induction false} ChooseDistinct(fs: seq<Field>, names: seq<string>)
    requires forall i, j | 0 <= i < j < |names| :: names[i] != names[j]
    ensures DistinctKeys(Choose(fs, names))
  {
    if names != [] {
      ChooseDistinct(fs, names[1..]);
      ChooseMembers(fs, names[1..]);
      var rest := Choose(fs, names[1..]);
      assert forall i | 0 <= i < |rest| :: rest[i] in rest && rest[i].key in names[1..] && rest[i].key != names[0];
    }
  }

  lemma {:induction false} ChooseParsed(r: Ruleset)
    requires r.Valid()
    ensures Parsed(Obj(Choose(r.fields, FIELDS)))
  {
    var chosen := Choose(r.fields, FIELDS);
    ChooseMembers(r.fields, FIELDS);
    ChooseDistinct(r.fields, FIELDS);
    forall i | 0 <= i < |chosen|
      ensures Parsed(chosen[i].value)
    {
      assert chosen[i] in chosen;
      GetParsed(r.fields, chosen[i].key);
    }
  }

  lemma {:induction false} CanonicalParsed(a: Json)
    requires Parsed(a)
    ensures Parsed(Canonical(a))
    decreases a
  {
    match a
    case Arr(items) =>
      ItemsIndex(items);
      forall i | 0 <= i < |items|
        ensures Parsed(CanonicalItems(items)[i])
      {
        CanonicalParsed(items[i]);
      }
    case Obj(fs) =>
      forall i | 0 <= i < |fs|
        ensures Parsed(Canonical(fs[i].value))
      {
        CanonicalParsed(fs[i].value);
      }
      FieldsParsed(fs);
    case _ =>
  }

  lemma {:induction false} FieldsParsed(fs: seq<Field>)
    requires DistinctKeys(fs) && forall i | 0 <= i < |fs| :: Parsed(Canonical(fs[i].value))
    ensures Parsed(Obj(CanonicalFields(fs)))
  {
    var gs := CanonicalFields(fs);
    CanonicalSorted(fs);
    forall i | 0 <= i < |gs|
      ensures Parsed(gs[i].value)
    {
      CanonicalMembers(fs, gs[i]);
    }
    forall i, j | 0 <= i < j < |gs|
      ensures gs[i].key != gs[j].key
    {
      KeyTotal(gs[i].key, gs[j].key);
    }
  }

  /** Two values print the same in canonical form exactly when they are equal but for key order. */
  lemma {:induction false} PrintsSameIff(a: Json, b: Json)
    requires Parsed(a) && Parsed(b)
    ensures Print(Canonical(a)) == Print(Canonical(b)) <==> Same(a, b)
  {
    CanonicalIff(a, b);
    if Print(Canonical(a)) == Print(Canonical(b)) {
      CanonicalParsed(a);
      CanonicalParsed(b);
      PrintInjective(Canonical(a), Canonical(b), [], []);
    }
  }

  lemma {:induction false} ChosenSame(a: Ruleset, b: Ruleset)
    ensures Same(Obj(Choose(a.fields, FIELDS)), Obj(Choose(b.fields, FIELDS))) ==> SameRuleset(a, b)
  {
    var fs, gs := Choose(a.fields, FIELDS), Choose(b.fields, FIELDS);
    ChooseMembers(a.fields, FIELDS);
    ChooseMembers(b.fields, FIELDS);
    if Same(Obj(fs), Obj(gs)) {
      forall name | name in FIELDS
        ensures SameField(a, b, name)
      {
        var x, y := Get(a.fields, name), Get(b.fields, name);
        HasChosen(a, name);
        HasChosen(b, name);
        if x.Some? && y.Some? {
          assert Field(name, x.value) in fs && Field(name, y.value) in gs;
        }
      }
    }
  }

  lemma {:induction false} HasChosen(r: Ruleset, name: string)
    requires name in FIELDS
    ensures HasKey(Choose(r.fields, FIELDS), name) <==> Get(r.fields, name).Some?
  {
    var fs := Choose(r.fields, FIELDS);
    ChooseMembers(r.fields, FIELDS);
    if i :| 0 <= i < |fs| && fs[i].key == name {
      assert fs[i] in fs;
    }
    if Get(r.fields, name).Some? {
      assert Field(name, Get(r.fields, name).value) in fs;
    }
  }

  lemma {:induction false} SameChosen(a: Ruleset, b: Ruleset)
    requires SameRuleset(a, b)
    ensures Same(Obj(Choose(a.fields, FIELDS)), Obj(Choose(b.fields, FIELDS)))
  {
    var fs, gs := Choose(a.fields, FIELDS), Choose(b.fields, FIELDS);
    ChooseMembers(a.fields, FIELDS);
    ChooseMembers(b.fields, FIELDS);
    forall key
      ensures HasKey(fs, key) <==> HasKey(gs, key)
    {
      if key in FIELDS {
        HasChosen(a, key);
        HasChosen(b, key);
        assert SameField(a, b, key);
      } else {
        assert forall i | 0 <= i < |fs| :: fs[i] in fs;
        assert forall i | 0 <= i < |gs| :: gs[i] in gs;
      }
    }
    forall i, j | 0 <= i < |fs| && 0 <= j < |gs| && fs[i].key == gs[j].key
      ensures Same(fs[i].value, gs[j].value)
    {
      assert fs[i] in fs && gs[j] in gs;
      assert SameField(a, b, fs[i].key);
    }
  }

  /** The text compared is equal exactly when the rulesets are the same. */
  lemma {:induction false} DefiningIff(a: Ruleset, b: Ruleset)
    requires a.Valid() && b.Valid()
    ensures Defining(a) == Defining(b) <==> SameRuleset(a, b)
  {
    ChooseParsed(a);
    ChooseParsed(b);
    PrintsSameIff(Obj(Choose(a.fields, FIELDS)), Obj(Choose(b.fields, FIELDS)));
    ChosenSame(a, b);
    if SameRuleset(a, b) {
      SameChosen(a, b);
    }
  }

  lemma {:induction false} ChangedMembers(a: Ruleset, b: Ruleset, names: seq<string>)
    ensures forall n :: n in ChangedOf(a, b, names) <==> n in names && FieldText(a, n) != FieldText(b, n)
  {
    if names != [] {
      ChangedMembers(a, b, names[1..]);
      assert forall n :: n in names <==> n == names[0] || n in names[1..];
    }
  }

  /** The fields named are those that differ; so when the text differs, at least one is named. */
  lemma {:induction false} ChangedIff(a: Ruleset, b: Ruleset)
    requires a.Valid() && b.Valid()
    ensures forall name :: name in Changed(a, b) <==> name in FIELDS && !SameField(a, b, name)
    ensures Changed(a, b) == [] <==> Defining(a) == Defining(b)
  {
    ChangedMembers(a, b, FIELDS);
    forall name | name in FIELDS
      ensures FieldText(a, name) == FieldText(b, name) <==> SameField(a, b, name)
    {
      GetParsed(a.fields, name);
      GetParsed(b.fields, name);
      if Get(a.fields, name).Some? && Get(b.fields, name).Some? {
        PrintsSameIff(Get(a.fields, name).value, Get(b.fields, name).value);
      }
    }
    DefiningIff(a, b);
    EmptyIff(Changed(a, b));
  }

  lemma EmptyIff<T>(s: seq<T>)
    ensures s == [] <==> forall x :: x !in s
  {
    if s != [] {
      assert s[0] in s;
    }
  }

  // ----- the check -----

  datatype Problem =
    | Hidden(name: string)
    | TwoFiles(name: string)
    | TwoLive(name: string)
    | NotLive(name: string)
    | Differs(name: string, fields: seq<string>)
    | NoFile(name: string)

  function Names(rs: seq<Ruleset>): (names: seq<string>)
    requires forall r | r in rs :: r.Valid()
    ensures |names| == |rs| && forall i | 0 <= i < |rs| :: names[i] == rs[i].Name()
  {
    if rs == [] then [] else [rs[0].Name()] + Names(rs[1..])
  }

  /** Of the rest, the names already seen, each once, after those found. */
  function Repeated(seen: seq<string>, rest: seq<string>, found: seq<string>): seq<string>
    decreases rest
  {
    if rest == [] then found
    else
      Repeated(seen + [rest[0]], rest[1..],
               if rest[0] in seen && rest[0] !in found then found + [rest[0]] else found)
  }

  function Duplicates(names: seq<string>): seq<string> {
    Repeated([], names, [])
  }

  function HiddenIn(live: seq<Ruleset>): seq<Problem>
    requires forall r | r in live :: r.Valid()
  {
    if live == [] then []
    else (if live[0].Hides() then [Hidden(live[0].Name())] else []) + HiddenIn(live[1..])
  }

  function TwiceIn(names: seq<string>, files: bool): seq<Problem> {
    if names == [] then []
    else [if files then TwoFiles(names[0]) else TwoLive(names[0])] + TwiceIn(names[1..], files)
  }

  /** The last ruleset of a name, as a map built in order keeps it. */
  function ByName(live: seq<Ruleset>, name: string): Option<Ruleset>
    requires forall r | r in live :: r.Valid()
  {
    if live == [] then None
    else
      var later := ByName(live[1..], name);
      if later.Some? then later else if live[0].Name() == name then Some(live[0]) else None
  }

  /** What is wrong with one file's ruleset, if anything. */
  function FileProblem(file: Ruleset, live: seq<Ruleset>): seq<Problem>
    requires file.Valid() && forall r | r in live :: r.Valid()
  {
    var current := ByName(live, file.Name());
    if current.None? then [NotLive(file.Name())]
    else if Defining(file) == Defining(current.value) then []
    else [Differs(file.Name(), Changed(file, current.value))]
  }

  function FileProblems(files: seq<Ruleset>, live: seq<Ruleset>): seq<Problem>
    requires forall r | r in files :: r.Valid()
    requires forall r | r in live :: r.Valid()
  {
    if files == [] then [] else FileProblem(files[0], live) + FileProblems(files[1..], live)
  }

  function Strays(live: seq<Ruleset>, names: seq<string>): seq<Problem>
    requires forall r | r in live :: r.Valid()
  {
    if live == [] then []
    else (if live[0].Name() in names then [] else [NoFile(live[0].Name())]) + Strays(live[1..], names)
  }

  function Drift(files: seq<Ruleset>, live: seq<Ruleset>): seq<Problem>
    requires forall r | r in files :: r.Valid()
    requires forall r | r in live :: r.Valid()
  {
    var hidden := HiddenIn(live);
    if hidden != [] then hidden
    else
      var twice := TwiceIn(Duplicates(Names(files)), true) + TwiceIn(Duplicates(Names(live)), false);
      if twice != [] then twice else FileProblems(files, live) + Strays(live, Names(files))
  }

  // ----- silence -----

  ghost predicate Twice(names: seq<string>, n: string) {
    exists i, j :: 0 <= i < j < |names| && names[i] == names[j] == n
  }

  lemma {:induction false} RepeatedMembers(seen: seq<string>, rest: seq<string>, found: seq<string>)
    requires forall n :: n in found <==> Twice(seen, n)
    ensures forall n :: n in Repeated(seen, rest, found) <==> Twice(seen + rest, n)
    decreases rest
  {
    if rest == [] {
      assert seen + rest == seen;
    } else {
      var more := if rest[0] in seen && rest[0] !in found then found + [rest[0]] else found;
      forall n
        ensures n in more <==> Twice(seen + [rest[0]], n)
      {
        TwiceMore(seen, rest[0], n);
      }
      RepeatedMembers(seen + [rest[0]], rest[1..], more);
      assert seen + [rest[0]] + rest[1..] == seen + rest;
    }
  }

  lemma {:induction false} TwiceMore(seen: seq<string>, next: string, n: string)
    ensures Twice(seen + [next], n) <==> Twice(seen, n) || (n == next && next in seen)
  {
    var more := seen + [next];
    if i, j :| 0 <= i < j < |more| && more[i] == more[j] == n {
      assert seen[i] == n;
      if j < |seen| {
        assert seen[j] == n;
      }
    }
    if i, j :| 0 <= i < j < |seen| && seen[i] == seen[j] == n {
      assert more[i] == more[j] == n;
    }
    if n == next && next in seen {
      var i :| 0 <= i < |seen| && seen[i] == next;
      assert more[i] == more[|seen|] == n;
    }
  }

  /** The duplicates listed are exactly the names held more than once. */
  lemma {:induction false} DuplicatesExact(names: seq<string>)
    ensures forall n :: n in Duplicates(names) <==> Twice(names, n)
  {
    RepeatedMembers([], names, []);
    assert [] + names == names;
  }

  ghost predicate Distinct(names: seq<string>) {
    forall i, j | 0 <= i < j < |names| :: names[i] != names[j]
  }

  lemma {:induction false} RepeatedOnce(seen: seq<string>, rest: seq<string>, found: seq<string>)
    requires Distinct(found)
    ensures Distinct(Repeated(seen, rest, found))
    decreases rest
  {
    if rest != [] {
      RepeatedOnce(seen + [rest[0]], rest[1..],
                   if rest[0] in seen && rest[0] !in found then found + [rest[0]] else found);
    }
  }

  /** Each is listed once, however often it is held. */
  lemma {:induction false} DuplicatesOnce(names: seq<string>)
    ensures Distinct(Duplicates(names))
  {
    RepeatedOnce([], names, []);
  }

  ghost predicate UniqueNames(rs: seq<Ruleset>)
    requires forall r | r in rs :: r.Valid()
  {
    forall i, j | 0 <= i < j < |rs| :: rs[i].Name() != rs[j].Name()
  }

  lemma {:induction false} UniqueNotTwice(rs: seq<Ruleset>, n: string)
    requires forall r | r in rs :: r.Valid()
    ensures Twice(Names(rs), n) ==> !UniqueNames(rs)
  {
    if Twice(Names(rs), n) {
      var i, j :| 0 <= i < j < |Names(rs)| && Names(rs)[i] == Names(rs)[j] == n;
      assert rs[i].Name() == rs[j].Name();
    }
  }

  lemma {:induction false} NotUniqueTwice(rs: seq<Ruleset>)
    requires forall r | r in rs :: r.Valid()
    ensures !UniqueNames(rs) ==> exists n :: Twice(Names(rs), n)
  {
    if !UniqueNames(rs) {
      var i, j :| 0 <= i < j < |rs| && rs[i].Name() == rs[j].Name();
      assert Twice(Names(rs), Names(rs)[i]);
    }
  }

  lemma {:induction false} UniqueIff(rs: seq<Ruleset>)
    requires forall r | r in rs :: r.Valid()
    ensures Duplicates(Names(rs)) == [] <==> UniqueNames(rs)
  {
    DuplicatesExact(Names(rs));
    EmptyIff(Duplicates(Names(rs)));
    forall n
      ensures Twice(Names(rs), n) ==> !UniqueNames(rs)
    {
      UniqueNotTwice(rs, n);
    }
    NotUniqueTwice(rs);
  }

  lemma {:induction false} HiddenIff(live: seq<Ruleset>)
    requires forall r | r in live :: r.Valid()
    ensures HiddenIn(live) == [] <==> forall r | r in live :: !r.Hides()
  {
    if live != [] {
      HiddenIff(live[1..]);
      assert forall r :: r in live <==> r == live[0] || r in live[1..];
    }
  }

  lemma {:induction false} ByNameIs(live: seq<Ruleset>, name: string)
    requires forall r | r in live :: r.Valid()
    ensures var found := ByName(live, name);
            if found.Some? then found.value in live && found.value.Name() == name
            else forall r | r in live :: r.Name() != name
  {
    if live != [] {
      ByNameIs(live[1..], name);
      assert forall r :: r in live <==> r == live[0] || r in live[1..];
    }
  }

  /** A file's ruleset is live, the same. */
  ghost predicate Matched(f: Ruleset, live: seq<Ruleset>)
    requires f.Valid() && forall r | r in live :: r.Valid()
  {
    ByName(live, f.Name()).Some? && SameRuleset(f, ByName(live, f.Name()).value)
  }

  lemma {:induction false} FileIff(f: Ruleset, live: seq<Ruleset>)
    requires f.Valid() && forall r | r in live :: r.Valid()
    ensures FileProblem(f, live) == [] <==> Matched(f, live)
  {
    var current := ByName(live, f.Name());
    ByNameIs(live, f.Name());
    if current.Some? {
      DefiningIff(f, current.value);
    }
  }

  lemma {:induction false} FilesIff(files: seq<Ruleset>, live: seq<Ruleset>)
    requires forall r | r in files :: r.Valid()
    requires forall r | r in live :: r.Valid()
    ensures FileProblems(files, live) == [] <==> forall f | f in files :: Matched(f, live)
  {
    if files != [] {
      FileIff(files[0], live);
      FilesIff(files[1..], live);
      FirstOrLater(files);
    }
  }

  lemma FirstOrLater(rs: seq<Ruleset>)
    requires rs != []
    ensures forall r :: r in rs <==> r == rs[0] || r in rs[1..]
  {
  }

  lemma {:induction false} StraysIff(live: seq<Ruleset>, names: seq<string>)
    requires forall r | r in live :: r.Valid()
    ensures Strays(live, names) == [] <==> forall r | r in live :: r.Name() in names
  {
    if live != [] {
      StraysIff(live[1..], names);
      assert forall r :: r in live <==> r == live[0] || r in live[1..];
    }
  }

  ghost predicate Named(rs: seq<Ruleset>, n: string)
    requires forall r | r in rs :: r.Valid()
  {
    exists r :: r in rs && r.Name() == n
  }

  ghost predicate Agree(files: seq<Ruleset>, live: seq<Ruleset>)
    requires forall r | r in files :: r.Valid()
    requires forall r | r in live :: r.Valid()
  {
    && UniqueNames(files) && UniqueNames(live)
    && (forall n :: Named(files, n) <==> Named(live, n))
    && forall f, r | f in files && r in live && f.Name() == r.Name() :: SameRuleset(f, r)
  }

  lemma {:induction false} OfOneName(rs: seq<Ruleset>, a: Ruleset, b: Ruleset)
    requires forall r | r in rs :: r.Valid()
    requires UniqueNames(rs) && a in rs && b in rs && a.Name() == b.Name()
    ensures a == b
  {
  }

  lemma {:induction false} NamesHold(rs: seq<Ruleset>, n: string)
    requires forall r | r in rs :: r.Valid()
    ensures n in Names(rs) <==> Named(rs, n)
  {
    if n in Names(rs) {
      var i :| 0 <= i < |rs| && Names(rs)[i] == n;
      assert rs[i] in rs;
    }
    if r :| r in rs && r.Name() == n {
      var i :| 0 <= i < |rs| && rs[i] == r;
      assert Names(rs)[i] == n;
    }
  }

  /** The check is silent exactly when nothing is hidden and the sides agree: the same unique names and rulesets. */
  lemma {:induction false} DriftEmptyIff(files: seq<Ruleset>, live: seq<Ruleset>)
    requires forall r | r in files :: r.Valid()
    requires forall r | r in live :: r.Valid()
    ensures Drift(files, live) == [] <==> (forall r | r in live :: !r.Hides()) && Agree(files, live)
  {
    HiddenIff(live);
    UniqueIff(files);
    UniqueIff(live);
    if UniqueNames(files) && UniqueNames(live) {
      FilesIff(files, live);
      StraysIff(live, Names(files));
      AgreeIff(files, live);
    }
  }

  lemma {:induction false} MatchedIff(f: Ruleset, live: seq<Ruleset>)
    requires f.Valid() && forall r | r in live :: r.Valid()
    requires UniqueNames(live)
    ensures Matched(f, live) <==>
            Named(live, f.Name()) && forall r | r in live && r.Name() == f.Name() :: SameRuleset(f, r)
  {
    ByNameIs(live, f.Name());
    var found := ByName(live, f.Name());
    if found.Some? {
      forall r | r in live && r.Name() == f.Name()
        ensures r == found.value
      {
        OfOneName(live, r, found.value);
      }
    }
  }

  lemma {:induction false} AgreeIff(files: seq<Ruleset>, live: seq<Ruleset>)
    requires forall r | r in files :: r.Valid()
    requires forall r | r in live :: r.Valid()
    requires UniqueNames(files) && UniqueNames(live)
    ensures Agree(files, live) <==>
            (forall f | f in files :: Matched(f, live)) && (forall r | r in live :: r.Name() in Names(files))
  {
    forall f | f in files
      ensures Matched(f, live) <==>
              Named(live, f.Name()) && forall r | r in live && r.Name() == f.Name() :: SameRuleset(f, r)
    {
      MatchedIff(f, live);
    }
    forall r | r in live
      ensures r.Name() in Names(files) <==> Named(files, r.Name())
    {
      NamesHold(files, r.Name());
    }
  }

  lemma {:induction false} SameFlips(a: Ruleset, b: Ruleset)
    requires a.Valid() && b.Valid() && SameRuleset(a, b)
    ensures SameRuleset(b, a)
  {
    DefiningIff(a, b);
    DefiningIff(b, a);
  }

  lemma {:induction false} AgreeFlips(files: seq<Ruleset>, live: seq<Ruleset>)
    requires forall r | r in files :: r.Valid()
    requires forall r | r in live :: r.Valid()
    requires Agree(files, live)
    ensures Agree(live, files)
  {
    forall r, f | r in live && f in files && r.Name() == f.Name()
      ensures SameRuleset(r, f)
    {
      SameFlips(f, r);
    }
  }

  /** When neither side hides anything, it does not matter which side is called the files. */
  lemma {:induction false} DriftSymmetric(files: seq<Ruleset>, live: seq<Ruleset>)
    requires forall r | r in files :: r.Valid() && !r.Hides()
    requires forall r | r in live :: r.Valid() && !r.Hides()
    ensures Drift(files, live) == [] <==> Drift(live, files) == []
  {
    DriftEmptyIff(files, live);
    DriftEmptyIff(live, files);
    if Agree(files, live) {
      AgreeFlips(files, live);
    }
    if Agree(live, files) {
      AgreeFlips(live, files);
    }
  }
}
