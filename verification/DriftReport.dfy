/** What the drift check reports. */
module DriftReport {
  import opened Common
  import opened Rulesets

  // ----- what is reported -----

  lemma {:induction false} TwiceNames(names: seq<string>, files: bool)
    ensures NamesOf(TwiceIn(names, files)) == names
  {
    if names != [] {
      TwiceNames(names[1..], files);
      assert TwiceIn(names, files)[1..] == TwiceIn(names[1..], files);
    }
  }

  lemma {:induction false} HiddenMembers(live: seq<Ruleset>)
    requires forall r | r in live :: r.Valid()
    ensures forall p :: p in HiddenIn(live) <==> exists r :: r in live && r.Hides() && p == Hidden(r.Name())
  {
    if live != [] {
      HiddenMembers(live[1..]);
      FirstOrLater(live);
    }
  }

  /** When something is hidden, exactly the rulesets that hide it are named, and nothing is compared. */
  lemma {:induction false} HiddenReported(files: seq<Ruleset>, live: seq<Ruleset>)
    requires (forall r | r in files :: r.Valid()) && forall r | r in live :: r.Valid()
    requires exists r :: r in live && r.Hides()
    ensures forall p :: p in Drift(files, live) <==> exists r :: r in live && r.Hides() && p == Hidden(r.Name())
  {
    HiddenMembers(live);
    HiddenIff(live);
  }

  lemma {:induction false} TwiceMembers(names: seq<string>, files: bool)
    ensures forall p :: p in TwiceIn(names, files) <==>
              exists n :: n in names && p == if files then TwoFiles(n) else TwoLive(n)
  {
    if names != [] {
      TwiceMembers(names[1..], files);
      assert forall n :: n in names <==> n == names[0] || n in names[1..];
    }
  }

  /** When a name is held twice on a side, exactly those names are reported, by side, and nothing is compared. */
  lemma {:induction false} TwiceReported(files: seq<Ruleset>, live: seq<Ruleset>)
    requires (forall r | r in files :: r.Valid()) && forall r | r in live :: r.Valid() && !r.Hides()
    requires !UniqueNames(files) || !UniqueNames(live)
    ensures forall p :: p in Drift(files, live) <==>
              || (p.TwoFiles? && Twice(Names(files), p.name))
              || (p.TwoLive? && Twice(Names(live), p.name))
    ensures exists ofFiles: seq<Problem>, ofLive: seq<Problem> ::
              && Drift(files, live) == ofFiles + ofLive
              && (forall p | p in ofFiles :: p.TwoFiles?) && (forall p | p in ofLive :: p.TwoLive?)
              && Distinct(NamesOf(ofFiles)) && Distinct(NamesOf(ofLive))
  {
    HiddenIff(live);
    UniqueIff(files);
    UniqueIff(live);
    TwiceMembers(Duplicates(Names(files)), true);
    TwiceMembers(Duplicates(Names(live)), false);
    DuplicatesExact(Names(files));
    DuplicatesExact(Names(live));
    var a, b := TwiceIn(Duplicates(Names(files)), true), TwiceIn(Duplicates(Names(live)), false);
    TwiceNames(Duplicates(Names(files)), true);
    TwiceNames(Duplicates(Names(live)), false);
    DuplicatesOnce(Names(files));
    DuplicatesOnce(Names(live));
    NotEmpty(Duplicates(Names(files)), true);
    NotEmpty(Duplicates(Names(live)), false);
    assert a + b != [];
    assert Drift(files, live) == a + b;
  }

  lemma NotEmpty(names: seq<string>, files: bool)
    ensures TwiceIn(names, files) == [] <==> names == []
  {
  }

  /** What is wrong between a file's ruleset and the live one of its name. */
  ghost predicate WrongFor(f: Ruleset, live: seq<Ruleset>, p: Problem)
    requires f.Valid() && forall r | r in live :: r.Valid()
  {
    || (p == NotLive(f.Name()) && !Named(live, f.Name()))
    || (p.Differs? && p.name == f.Name() &&
        exists r :: r in live && r.Name() == f.Name() && !SameRuleset(f, r) && IsChange(f, r, p.fields))
  }

  /** The differing fields, in the order of the six. */
  ghost predicate IsChange(f: Ruleset, r: Ruleset, fields: seq<string>) {
    (forall n :: n in fields <==> n in FIELDS && !SameField(f, r, n)) && fields == Changed(f, r)
  }

  lemma {:induction false} FileReported(f: Ruleset, live: seq<Ruleset>)
    requires f.Valid() && (forall r | r in live :: r.Valid()) && UniqueNames(live)
    ensures forall p :: p in FileProblem(f, live) <==> WrongFor(f, live, p)
  {
    var current := ByName(live, f.Name());
    ByNameIs(live, f.Name());
    forall r | r in live && r.Name() == f.Name()
      ensures current == Some(r)
    {
      OfOneName(live, r, current.value);
    }
    if current.Some? {
      DefiningIff(f, current.value);
      ChangedIff(f, current.value);
    }
  }

  lemma {:induction false} FilesReported(files: seq<Ruleset>, live: seq<Ruleset>)
    requires (forall r | r in files :: r.Valid()) && (forall r | r in live :: r.Valid()) && UniqueNames(live)
    ensures forall p :: p in FileProblems(files, live) <==> exists f :: f in files && WrongFor(f, live, p)
  {
    if files != [] {
      FileReported(files[0], live);
      FilesReported(files[1..], live);
      FirstOrLater(files);
    }
  }

  lemma {:induction false} StraysReported(live: seq<Ruleset>, names: seq<string>)
    requires forall r | r in live :: r.Valid()
    ensures forall p :: p in Strays(live, names) <==>
              exists r :: r in live && r.Name() !in names && p == NoFile(r.Name())
  {
    if live != [] {
      StraysReported(live[1..], names);
      FirstOrLater(live);
    }
  }

  /**
   * With nothing hidden and names unique, the problems reported are exactly these: each file's ruleset that is not
   * live, each that differs, with the differing fields, and each live ruleset without a file.
   */
  lemma {:induction false} DriftReported(files: seq<Ruleset>, live: seq<Ruleset>)
    requires (forall r | r in files :: r.Valid()) && forall r | r in live :: r.Valid() && !r.Hides()
    requires UniqueNames(files) && UniqueNames(live)
    ensures forall p :: p in Drift(files, live) <==>
              || (exists f :: f in files && WrongFor(f, live, p))
              || (p.NoFile? && Named(live, p.name) && !Named(files, p.name))
  {
    HiddenIff(live);
    UniqueIff(files);
    UniqueIff(live);
    FilesReported(files, live);
    StraysReported(live, Names(files));
    forall n
      ensures n in Names(files) <==> Named(files, n)
    {
      NamesHold(files, n);
    }
    assert Drift(files, live) == FileProblems(files, live) + Strays(live, Names(files));
  }

  // ----- in which order -----

  ghost predicate Precedes(names: seq<string>, x: string, y: string) {
    exists a, b :: 0 <= a < b < |names| && names[a] == x && names[b] == y
  }

  /** The one list's items come in the order of the other. */
  ghost predicate InOrderOf(xs: seq<string>, names: seq<string>) {
    forall i, j | 0 <= i < j < |xs| :: Precedes(names, xs[i], xs[j])
  }

  lemma {:induction false} PrecedesLater(names: seq<string>, n: string, x: string, y: string)
    requires Precedes(names, x, y)
    ensures Precedes([n] + names, x, y)
  {
    var a, b :| 0 <= a < b < |names| && names[a] == x && names[b] == y;
    assert ([n] + names)[a + 1] == x && ([n] + names)[b + 1] == y;
  }

  lemma {:induction false} OrderSkips(xs: seq<string>, n: string, names: seq<string>)
    requires InOrderOf(xs, names)
    ensures InOrderOf(xs, [n] + names)
  {
    forall i, j | 0 <= i < j < |xs|
      ensures Precedes([n] + names, xs[i], xs[j])
    {
      PrecedesLater(names, n, xs[i], xs[j]);
    }
  }

  lemma {:induction false} OrderTakes(xs: seq<string>, n: string, names: seq<string>)
    requires InOrderOf(xs, names) && forall x | x in xs :: x in names
    ensures InOrderOf([n] + xs, [n] + names)
  {
    forall i, j | 0 <= i < j < |[n] + xs|
      ensures Precedes([n] + names, ([n] + xs)[i], ([n] + xs)[j])
    {
      if i == 0 {
        FirstPrecedes(n, names, xs[j - 1]);
      } else {
        PrecedesLater(names, n, xs[i - 1], xs[j - 1]);
      }
    }
  }

  lemma {:induction false} FirstPrecedes(n: string, names: seq<string>, y: string)
    requires y in names
    ensures Precedes([n] + names, n, y)
  {
    var b :| 0 <= b < |names| && names[b] == y;
    assert ([n] + names)[0] == n && ([n] + names)[b + 1] == y;
  }

  /** The differing fields are named in the order of the six. */
  lemma {:induction false} ChangedInOrder(a: Ruleset, b: Ruleset, names: seq<string>)
    ensures InOrderOf(ChangedOf(a, b, names), names)
  {
    if names != [] {
      ChangedInOrder(a, b, names[1..]);
      ChangedMembers(a, b, names[1..]);
      var xs := ChangedOf(a, b, names[1..]);
      assert [names[0]] + names[1..] == names;
      if FieldText(a, names[0]) != FieldText(b, names[0]) {
        OrderTakes(xs, names[0], names[1..]);
      } else {
        OrderSkips(xs, names[0], names[1..]);
        assert ChangedOf(a, b, names) == xs;
      }
    }
  }

  function NamesOf(ps: seq<Problem>): seq<string> {
    if ps == [] then [] else [ps[0].name] + NamesOf(ps[1..])
  }

  /** Files' problems are reported in the files' order. */
  lemma {:induction false} FilesInOrder(files: seq<Ruleset>, live: seq<Ruleset>)
    requires (forall r | r in files :: r.Valid()) && forall r | r in live :: r.Valid()
    ensures InOrderOf(NamesOf(FileProblems(files, live)), Names(files))
    ensures forall n | n in NamesOf(FileProblems(files, live)) :: n in Names(files)
    ensures forall p | p in FileProblems(files, live) :: !p.NoFile?
  {
    if files != [] {
      FilesInOrder(files[1..], live);
      var rest := FileProblems(files[1..], live);
      var first := FileProblem(files[0], live);
      assert Names(files) == [files[0].Name()] + Names(files[1..]);
      if first == [] {
        assert FileProblems(files, live) == rest;
        OrderSkips(NamesOf(rest), files[0].Name(), Names(files[1..]));
      } else {
        assert FileProblems(files, live) == [first[0]] + rest;
        assert ([first[0]] + rest)[1..] == rest;
        OrderTakes(NamesOf(rest), files[0].Name(), Names(files[1..]));
      }
    }
  }

  lemma {:induction false} StraysInOrder(live: seq<Ruleset>, names: seq<string>)
    requires forall r | r in live :: r.Valid()
    ensures InOrderOf(NamesOf(Strays(live, names)), Names(live))
    ensures forall n | n in NamesOf(Strays(live, names)) :: n in Names(live)
    ensures forall p | p in Strays(live, names) :: p.NoFile?
  {
    if live != [] {
      StraysInOrder(live[1..], names);
      var rest := Strays(live[1..], names);
      assert Names(live) == [live[0].Name()] + Names(live[1..]);
      if live[0].Name() in names {
        assert Strays(live, names) == rest;
        OrderSkips(NamesOf(rest), live[0].Name(), Names(live[1..]));
      } else {
        assert ([NoFile(live[0].Name())] + rest)[1..] == rest;
        OrderTakes(NamesOf(rest), live[0].Name(), Names(live[1..]));
      }
    }
  }

  /** The report is of the files in their order, then of the strays in theirs. */
  lemma {:induction false} DriftInOrder(files: seq<Ruleset>, live: seq<Ruleset>)
    requires (forall r | r in files :: r.Valid()) && forall r | r in live :: r.Valid() && !r.Hides()
    requires UniqueNames(files) && UniqueNames(live)
    ensures exists ofFiles: seq<Problem>, strays: seq<Problem> ::
              && Drift(files, live) == ofFiles + strays
              && (forall p | p in ofFiles :: !p.NoFile?) && (forall p | p in strays :: p.NoFile?)
              && InOrderOf(NamesOf(ofFiles), Names(files)) && InOrderOf(NamesOf(strays), Names(live))
  {
    HiddenIff(live);
    UniqueIff(files);
    UniqueIff(live);
    FilesInOrder(files, live);
    StraysInOrder(live, Names(files));
    assert Drift(files, live) == FileProblems(files, live) + Strays(live, Names(files));
  }
}
