/** The visitor's address in a header (src/lib/client-ip.ts). */
module ClientIp {
  import opened Common
  import opened Texts
  import opened HexDigits
  import opened Ipv6Key

  // ----- hops -----

  predicate IsSpace(c: char) {
    var n := c as int;
    || 9 <= n <= 13 || n == 32 || n == 0xA0 || n == 0x1680 || 0x2000 <= n <= 0x200A || n == 0x2028 || n == 0x2029
    || n == 0x202F || n == 0x205F || n == 0x3000 || n == 0xFEFF
  }

  function TrimStart(s: string): string {
    if s != [] && IsSpace(s[0]) then TrimStart(s[1..]) else s
  }

  function TrimEnd(s: string): string {
    if s == [] then []
    else
      var rest := TrimEnd(s[1..]);
      if rest == [] && IsSpace(s[0]) then [] else [s[0]] + rest
  }

  function Trimmed(parts: seq<string>): seq<string> {
    if parts == [] then []
    else
      var hop := TrimEnd(TrimStart(parts[0]));
      (if hop == [] then [] else [hop]) + Trimmed(parts[1..])
  }

  function Hops(header: string): seq<string> {
    Trimmed(Split(header, ','))
  }

  // ----- the walk -----

  /** An IPv4 visitor may be written as IPv6. `isIP` tells 4, 6, or 0 for neither. */
  function Unmap(hop: string, isIP: string -> int): string {
    var lower := Lower(hop);
    if "::ffff:" <= lower && isIP(lower[7..]) == 4 then lower[7..] else lower
  }

  /** What the walk does at a hop: go on past a trusted proxy, or stop. */
  datatype Verdict = Pass | Stop(answer: Option<string>)

  function Judge(hop: string, isIP: string -> int, trusted: string -> bool): Verdict {
    var ip := Unmap(hop, isIP);
    if isIP(ip) == 0 then Stop(None)
    else if trusted(ip) then Pass
    else Stop(Some(if isIP(ip) == 6 then Prefix64(ip) else ip))
  }

  function Verdicts(hops: seq<string>, isIP: string -> int, trusted: string -> bool): seq<Verdict> {
    if hops == [] then [] else [Judge(hops[0], isIP, trusted)] + Verdicts(hops[1..], isIP, trusted)
  }

  /** The walk over the first n hops, from the n-th back. */
  function Walk(vs: seq<Verdict>, n: nat): Option<string>
    requires n <= |vs|
  {
    if n == 0 then None else if vs[n - 1].Stop? then vs[n - 1].answer else Walk(vs, n - 1)
  }

  function Judged(header: string, isIP: string -> int, trusted: string -> bool): seq<Verdict> {
    Verdicts(Hops(header), isIP, trusted)
  }

  function ClientIp(header: string, isIP: string -> int, trusted: string -> bool): Option<string> {
    var vs := Judged(header, isIP, trusted);
    Walk(vs, |vs|)
  }

  lemma {:induction false} VerdictsIndex(hops: seq<string>, isIP: string -> int, trusted: string -> bool)
    ensures |Verdicts(hops, isIP, trusted)| == |hops|
    ensures forall i | 0 <= i < |hops| :: Verdicts(hops, isIP, trusted)[i] == Judge(hops[i], isIP, trusted)
  {
    if hops != [] {
      VerdictsIndex(hops[1..], isIP, trusted);
    }
  }

  /** A missing or empty header has no address. */
  method FromForwardedFor(header: Option<string>, isIP: string -> int, trusted: string -> bool)
    returns (answer: Option<string>)
    ensures answer == if header.None? then None else ClientIp(header.value, isIP, trusted)
  {
    if header.None? || header.value == [] {
      return None;
    }
    var hops := Hops(header.value);
    ghost var vs := Verdicts(hops, isIP, trusted);
    ghost var walked := ClientIp(header.value, isIP, trusted);
    VerdictsIndex(hops, isIP, trusted);
    assert walked == Walk(vs, |hops|);
    var i := |hops| - 1;
    while i >= 0
      invariant -1 <= i < |hops|
      invariant Walk(vs, i + 1) == walked
    {
      var ip := Unmap(hops[i], isIP);
      var version := isIP(ip);
      assert vs[i] == Judge(hops[i], isIP, trusted);
      if version == 0 { return None; }
      if !trusted(ip) {
        return Some(if version == 6 then Prefix64(ip) else ip);
      }
      i := i - 1;
    }
    answer := None;
  }

  // ----- what the sender can and cannot change -----

  predicate Stops(vs: seq<Verdict>) {
    exists i :: 0 <= i < |vs| && vs[i].Stop?
  }

  /** The answer is the rightmost hop's that is not a trusted proxy. */
  lemma {:induction false} WalkRightmost(vs: seq<Verdict>, n: nat, k: nat)
    requires k < n <= |vs| && vs[k].Stop?
    requires forall i | k < i < n :: vs[i].Pass?
    ensures Walk(vs, n) == vs[k].answer
    decreases n
  {
    if k < n - 1 {
      WalkRightmost(vs, n - 1, k);
    }
  }

  lemma {:induction false} WalkPasses(a: seq<Verdict>, b: seq<Verdict>, n: nat)
    requires n <= |b| && forall i | n <= i < |b| :: b[i].Pass?
    ensures Walk(a + b, |a| + |b|) == Walk(a + b, |a| + n)
    decreases |b| - n
  {
    if n < |b| {
      WalkPasses(a, b, n + 1);
      assert (a + b)[|a| + n] == b[n];
    }
  }

  lemma {:induction false} WalkPrefix(a: seq<Verdict>, b: seq<Verdict>, n: nat)
    requires n <= |a|
    ensures Walk(a + b, n) == Walk(a, n)
    decreases n
  {
    if n > 0 {
      WalkPrefix(a, b, n - 1);
    }
  }

  lemma {:induction false} WalkStops(a: seq<Verdict>, b: seq<Verdict>, n: nat, i: nat)
    requires i < n <= |b| && b[i].Stop?
    ensures Walk(a + b, |a| + n) == Walk(b, n)
    decreases n
  {
    assert (a + b)[|a| + n - 1] == b[n - 1];
    if i < n - 1 {
      WalkStops(a, b, n - 1, i);
    }
  }

  lemma {:induction false} WalkConcat(a: seq<Verdict>, b: seq<Verdict>)
    ensures Walk(a + b, |a| + |b|) == if Stops(b) then Walk(b, |b|) else Walk(a, |a|)
  {
    if i :| 0 <= i < |b| && b[i].Stop? {
      WalkStops(a, b, |b|, i);
    } else {
      WalkPasses(a, b, 0);
      WalkPrefix(a, b, |a|);
    }
  }

  lemma {:induction false} TrimmedConcat(a: seq<string>, b: seq<string>)
    ensures Trimmed(a + b) == Trimmed(a) + Trimmed(b)
  {
    if a == [] {
      assert a + b == b;
    } else {
      assert (a + b)[1..] == a[1..] + b;
      TrimmedConcat(a[1..], b);
    }
  }

  lemma {:induction false} VerdictsConcat(a: seq<string>, b: seq<string>, isIP: string -> int, trusted: string -> bool)
    ensures Verdicts(a + b, isIP, trusted) == Verdicts(a, isIP, trusted) + Verdicts(b, isIP, trusted)
  {
    if a == [] {
      assert a + b == b;
    } else {
      assert (a + b)[1..] == a[1..] + b;
      VerdictsConcat(a[1..], b, isIP, trusted);
    }
  }

  lemma {:induction false} JudgedConcat(a: string, b: string, isIP: string -> int, trusted: string -> bool)
    ensures Judged(a + [','] + b, isIP, trusted) == Judged(a, isIP, trusted) + Judged(b, isIP, trusted)
  {
    HopsConcat(a, b);
    VerdictsConcat(Hops(a), Hops(b), isIP, trusted);
  }

  /** Hops put before a header are heard only when the header itself holds nothing but trusted proxies. */
  lemma {:induction false} HopsBefore(before: string, header: string, isIP: string -> int, trusted: string -> bool)
    ensures ClientIp(before + [','] + header, isIP, trusted) ==
            if Stops(Judged(header, isIP, trusted)) then ClientIp(header, isIP, trusted)
            else ClientIp(before, isIP, trusted)
  {
    JudgedConcat(before, header, isIP, trusted);
    WalkConcat(Judged(before, isIP, trusted), Judged(header, isIP, trusted));
  }

  /** Text put in front of a header runs into its first part; a later part that stops the walk makes it harmless. */
  lemma {:induction false} TextBefore(text: string, first: string, rest: string,
                                      isIP: string -> int, trusted: string -> bool)
    ensures ClientIp(text + first + [','] + rest, isIP, trusted) ==
            if Stops(Judged(rest, isIP, trusted)) then ClientIp(first + [','] + rest, isIP, trusted)
            else ClientIp(text + first, isIP, trusted)
  {
    HopsBefore(text + first, rest, isIP, trusted);
    HopsBefore(first, rest, isIP, trusted);
  }

  ghost predicate NoTextMatters(header: string, isIP: string -> int, trusted: string -> bool) {
    forall text :: ClientIp(text + header, isIP, trusted) == ClientIp(header, isIP, trusted)
  }

  /** Of a header whose first part this text spoils, no text matters exactly when a later part stops the walk. */
  lemma {:induction false} SpoiledIff(first: string, rest: string, bad: string,
                                      isIP: string -> int, trusted: string -> bool)
    requires ClientIp(first, isIP, trusted).Some? && ClientIp(bad + first, isIP, trusted).None?
    ensures NoTextMatters(first + [','] + rest, isIP, trusted) <==> Stops(Judged(rest, isIP, trusted))
  {
    var header := first + [','] + rest;
    forall text
      ensures text + header == text + first + [','] + rest
    {
    }
    if Stops(Judged(rest, isIP, trusted)) {
      forall text
        ensures ClientIp(text + header, isIP, trusted) == ClientIp(header, isIP, trusted)
      {
        TextBefore(text, first, rest, isIP, trusted);
      }
    } else {
      TextBefore(bad, first, rest, isIP, trusted);
      HopsBefore(first, rest, isIP, trusted);
      assert ClientIp(bad + header, isIP, trusted) != ClientIp(header, isIP, trusted);
    }
  }

  /** Every address begins with a hexadecimal digit or a colon. */
  ghost predicate AddressesBegin(isIP: string -> int) {
    forall s :: isIP(s) != 0 ==> s != [] && (HexChar(s[0]) || s[0] == ':')
  }

  lemma {:induction false} LetterStays(s: string)
    ensures TrimStart("x" + s) == "x" + s
    ensures TrimEnd("x" + s) != [] && TrimEnd("x" + s)[0] == 'x'
  {
    assert ("x" + s)[1..] == s;
  }

  /** An "x" in front spoils any lone part. */
  lemma {:induction false} LetterSpoils(first: string, isIP: string -> int, trusted: string -> bool)
    requires AddressesBegin(isIP) && ',' !in first
    ensures ClientIp("x" + first, isIP, trusted) == None
  {
    var part := "x" + first;
    var hop := TrimEnd(part);
    SplitOne(part, ',');
    LetterStays(first);
    LowerIndex(hop);
    PrefixFirst("::ffff:", Lower(hop));
    assert Unmap(hop, isIP) == Lower(hop) && isIP(Lower(hop)) == 0;
    assert Trimmed([part]) == [hop] + Trimmed([part][1..]) && Trimmed([]) == [];
    VerdictsIndex([hop], isIP, trusted);
    var vs := Judged(part, isIP, trusted);
    assert vs[0] == Stop(None);
    WalkRightmost(vs, 1, 0);
  }

  /**
   * A header whose first part gives an answer: no text in front of the whole header matters exactly when a later part
   * stops the walk.
   */
  lemma {:induction false} NoTextMattersIff(first: string, rest: string, isIP: string -> int, trusted: string -> bool)
    requires AddressesBegin(isIP) && ',' !in first && ClientIp(first, isIP, trusted).Some?
    ensures NoTextMatters(first + [','] + rest, isIP, trusted) <==> Stops(Judged(rest, isIP, trusted))
  {
    LetterSpoils(first, isIP, trusted);
    SpoiledIff(first, rest, "x", isIP, trusted);
  }

  lemma {:induction false} LoneAddress(text: string, isIP: string -> int, trusted: string -> bool)
    requires NumeralText(text) && text != [] && isIP(text) != 6 && !trusted(text)
    ensures ClientIp(text, isIP, trusted) == if isIP(text) == 0 then None else Some(text)
  {
    var vs := Judged(text, isIP, trusted);
    assert [] + text == text;
    OneHop([], text);
    LowerNumerals(text);
    PrefixFirst("::ffff:", text);
    VerdictsIndex([text], isIP, trusted);
    assert vs[0] == Judge(text, isIP, trusted);
    WalkRightmost(vs, 1, 0);
  }

  /** A header of one IPv4 address: digits in front of it that make it none leave no answer. */
  lemma {:induction false} DigitsSpoil(digits: string, v4: string, isIP: string -> int, trusted: string -> bool)
    requires NumeralText(digits) && NumeralText(v4) && v4 != []
    requires isIP(v4) == 4 && isIP(digits + v4) == 0 && !trusted(v4) && !trusted(digits + v4)
    ensures ClientIp(v4, isIP, trusted) == Some(v4) && ClientIp(digits + v4, isIP, trusted) == None
    ensures !NoTextMatters(v4 + [','] + [], isIP, trusted)
  {
    LoneAddress(v4, isIP, trusted);
    LoneAddress(digits + v4, isIP, trusted);
    NoHops(isIP, trusted);
    SpoiledIff(v4, [], digits, isIP, trusted);
  }

  /** As with this address, when it is the only one there is. */
  lemma {:induction false} OneDigitSpoils()
    ensures var isIP, trusted := (ip: string) => if ip == "9.9.9.9" then 4 else 0, (ip: string) => false;
            ClientIp("9.9.9.9", isIP, trusted) == Some("9.9.9.9") && ClientIp("1" + "9.9.9.9", isIP, trusted) == None
  {
    var isIP, trusted := (ip: string) => if ip == "9.9.9.9" then 4 else 0, (ip: string) => false;
    DigitsSpoil("1", "9.9.9.9", isIP, trusted);
  }

  lemma {:induction false} NoHops(isIP: string -> int, trusted: string -> bool)
    ensures !Stops(Judged("", isIP, trusted))
  {
    HopsOfNone();
  }

  /** A dotted address in its IPv6-mapped form is judged as the plain one. */
  lemma {:induction false} MappedSame(mapped: string, v4: string, isIP: string -> int, trusted: string -> bool)
    requires Lower(mapped) == "::ffff:" && NumeralText(v4) && isIP(v4) == 4
    ensures Judge(mapped + v4, isIP, trusted) == Judge(v4, isIP, trusted)
  {
    LowerConcat(mapped, v4);
    LowerNumerals(v4);
    var lower := Lower(mapped + v4);
    assert lower[7..] == v4;
    PrefixFirst("::ffff:", v4);
  }

  lemma PrefixFirst(p: string, s: string)
    requires p != []
    ensures p <= s ==> s != [] && s[0] == p[0]
  {
  }

  // ----- IPv6 visitors -----

  predicate AddressText(s: string) {
    forall i | 0 <= i < |s| :: HexChar(s[i]) || s[i] == ':' || s[i] == '.'
  }

  lemma {:induction false} JoinText(parts: seq<string>)
    requires forall p | p in parts :: AddressText(p)
    ensures AddressText(Join(parts, ':'))
  {
    if parts != [] {
      assert parts[0] in parts;
      JoinText(parts[1..]);
    }
  }

  lemma {:induction false} PiecesText(ps: seq<Piece>)
    requires forall i | 0 <= i < |ps| :: PieceOk(ps[i])
    ensures forall p | p in PieceTexts(ps) :: AddressText(p)
  {
    SameCount(ps);
    forall p | p in PieceTexts(ps)
      ensures AddressText(p)
    {
      var i :| 0 <= i < |ps| && PieceTexts(ps)[i] == p;
      if ps[i].Dotted? {
        DottedText(ps[i]);
      }
    }
  }

  lemma {:induction false} RenderText(t: Address)
    requires Valid(t)
    ensures AddressText(Render(t)) && Render(t) != []
  {
    match t
    case Full(ps) =>
      PiecesText(ps);
      JoinText(PieceTexts(ps));
      SameCount(ps);
      PieceParts(ps);
      JoinNoPair(PieceTexts(ps));
    case Short(left, right) =>
      PiecesText(left);
      PiecesText(right);
      JoinText(PieceTexts(left));
      JoinText(PieceTexts(right));
  }

  lemma {:induction false} NothingToTrim(s: string)
    requires AddressText(s)
    ensures TrimStart(s) == s && TrimEnd(s) == s
  {
    if s != [] {
      NothingToTrim(s[1..]);
      assert s == [s[0]] + s[1..];
    }
  }

  predicate Spaces(s: string) {
    forall i | 0 <= i < |s| :: IsSpace(s[i])
  }

  lemma {:induction false} SpacesGo(pad: string, s: string)
    requires Spaces(pad)
    ensures TrimStart(pad + s) == TrimStart(s)
  {
    if pad == [] {
      assert pad + s == s;
    } else {
      assert (pad + s)[1..] == pad[1..] + s;
      SpacesGo(pad[1..], s);
    }
  }

  lemma {:induction false} OneHop(pad: string, s: string)
    requires Spaces(pad) && AddressText(s) && s != []
    ensures Hops(pad + s) == [s]
  {
    SplitOne(pad + s, ',');
    SpacesGo(pad, s);
    NothingToTrim(s);
    assert Trimmed([]) == [];
    assert Trimmed([pad + s]) == [s] + Trimmed([pad + s][1..]);
  }

  // ----- a header, part by part -----

  /** What stands between two commas: an address with spaces around it, or nothing. */
  datatype Part = Blank(pad: string) | Hop(before: string, text: string, after: string)

  predicate PartFits(p: Part) {
    match p
    case Blank(pad) => Spaces(pad)
    case Hop(before, text, after) =>
      && Spaces(before) && Spaces(after)
      && text != [] && ',' !in text && !IsSpace(text[0]) && !IsSpace(text[|text| - 1])
  }

  predicate AllFit(parts: seq<Part>) {
    forall p | p in parts :: PartFits(p)
  }

  function PartText(p: Part): string {
    match p
    case Blank(pad) => pad
    case Hop(before, text, after) => before + text + after
  }

  /** The header those parts make. */
  function HeaderOf(parts: seq<Part>): string {
    if parts == [] then []
    else if |parts| == 1 then PartText(parts[0])
    else PartText(parts[0]) + [','] + HeaderOf(parts[1..])
  }

  function HopTexts(parts: seq<Part>): seq<string> {
    if parts == [] then [] else (if parts[0].Hop? then [parts[0].text] else []) + HopTexts(parts[1..])
  }

  lemma {:induction false} SpacesEnd(s: string, after: string)
    requires Spaces(after) && (s == [] || !IsSpace(s[|s| - 1]))
    ensures TrimEnd(s + after) == s
  {
    if s == [] {
      assert s + after == after;
      if after != [] {
        SpacesEnd([], after[1..]);
        assert [] + after[1..] == after[1..];
      }
    } else {
      SpacesEnd(s[1..], after);
      assert (s + after)[1..] == s[1..] + after;
      assert s == [s[0]] + s[1..];
    }
  }

  lemma {:induction false} NoComma(p: Part)
    requires PartFits(p)
    ensures ',' !in PartText(p)
  {
  }

  lemma {:induction false} PartHops(p: Part)
    requires PartFits(p)
    ensures Hops(PartText(p)) == HopTexts([p])
  {
    var s := PartText(p);
    NoComma(p);
    SplitOne(s, ',');
    assert [s][1..] == [] && [p][1..] == [] && Trimmed([]) == [];
    match p
    case Blank(pad) =>
      SpacesGo(pad, []);
      assert pad + [] == pad;
    case Hop(before, text, after) =>
      assert before + text + after == before + (text + after);
      SpacesGo(before, text + after);
      SpacesEnd(text, after);
      assert TrimStart(text + after) == text + after;
  }

  lemma {:induction false} HopsConcat(a: string, b: string)
    ensures Hops(a + [','] + b) == Hops(a) + Hops(b)
  {
    SplitAt(a, ',', b);
    TrimmedConcat(Split(a, ','), Split(b, ','));
  }

  lemma {:induction false} HopsOfNone()
    ensures Hops("") == []
  {
    SplitOne("", ',');
    assert Trimmed([""]) == Trimmed([""][1..]);
  }

  lemma HopTextsFirst(parts: seq<Part>)
    requires parts != []
    ensures HopTexts(parts) == HopTexts([parts[0]]) + HopTexts(parts[1..])
  {
    assert [parts[0]][1..] == [];
  }

  /** The addresses of a header are those of its parts, without the spaces around them. */
  lemma {:induction false} HopsAre(parts: seq<Part>)
    requires AllFit(parts)
    ensures Hops(HeaderOf(parts)) == HopTexts(parts)
  {
    if parts == [] {
      HopsOfNone();
    } else {
      assert parts[0] in parts;
      PartHops(parts[0]);
      HopTextsFirst(parts);
      if |parts| > 1 {
        HopsAre(parts[1..]);
        HopsConcat(PartText(parts[0]), HeaderOf(parts[1..]));
      }
    }
  }

  // ----- past the trusted proxies -----

  predicate IsProxy(hop: string, isIP: string -> int, trusted: string -> bool) {
    isIP(Unmap(hop, isIP)) != 0 && trusted(Unmap(hop, isIP))
  }

  /** Nothing but trusted proxies, and blanks. */
  predicate AllProxies(parts: seq<Part>, isIP: string -> int, trusted: string -> bool) {
    AllFit(parts) && forall p | p in parts && p.Hop? :: IsProxy(p.text, isIP, trusted)
  }

  lemma {:induction false} ProxiesPass(parts: seq<Part>, isIP: string -> int, trusted: string -> bool)
    requires AllProxies(parts, isIP, trusted)
    ensures !Stops(Verdicts(HopTexts(parts), isIP, trusted))
  {
    if parts != [] {
      assert parts[0] in parts && forall p | p in parts[1..] :: p in parts;
      ProxiesPass(parts[1..], isIP, trusted);
      var first := if parts[0].Hop? then [parts[0].text] else [];
      VerdictsConcat(first, HopTexts(parts[1..]), isIP, trusted);
      VerdictsIndex(first, isIP, trusted);
      NeitherStops(Verdicts(first, isIP, trusted), Verdicts(HopTexts(parts[1..]), isIP, trusted));
    }
  }

  lemma {:induction false} NeitherStops(a: seq<Verdict>, b: seq<Verdict>)
    requires !Stops(a) && !Stops(b)
    ensures !Stops(a + b)
  {
    forall i | 0 <= i < |a + b|
      ensures !(a + b)[i].Stop?
    {
      assert (a + b)[i] == if i < |a| then a[i] else b[i - |a|];
    }
  }

  /** A header of trusted proxies only has no answer. */
  lemma {:induction false} OnlyProxies(via: seq<Part>, isIP: string -> int, trusted: string -> bool)
    requires AllProxies(via, isIP, trusted)
    ensures ClientIp(HeaderOf(via), isIP, trusted) == None
  {
    var vs := Judged(HeaderOf(via), isIP, trusted);
    HopsAre(via);
    ProxiesPass(via, isIP, trusted);
    NoAnswer(vs, |vs|);
  }

  lemma {:induction false} NoAnswer(vs: seq<Verdict>, n: nat)
    requires n <= |vs| && !Stops(vs)
    ensures Walk(vs, n) == None
    decreases n
  {
    if n > 0 {
      assert !vs[n - 1].Stop?;
      NoAnswer(vs, n - 1);
    }
  }

  /** What is known of a visitor by an address that is no trusted proxy's: nothing of a bad one, of IPv6 the /64. */
  function KeyOf(hop: string, isIP: string -> int): Option<string> {
    var ip := Unmap(hop, isIP);
    if isIP(ip) == 0 then None else if isIP(ip) == 6 then Some(Prefix64(ip)) else Some(ip)
  }

  /**
   * Whatever the sender wrote in front, the answer is the last address before the trusted proxies: none for one that is
   * no address, its /64 for IPv6, and itself for IPv4.
   */
  lemma {:induction false} LastBeforeProxies(sent: string, visitor: Part, via: seq<Part>, isIP: string -> int,
                                             trusted: string -> bool)
    requires visitor.Hop? && PartFits(visitor) && !IsProxy(visitor.text, isIP, trusted)
    requires AllProxies(via, isIP, trusted)
    ensures ClientIp(sent + [','] + PartText(visitor) + [','] + HeaderOf(via), isIP, trusted) ==
            KeyOf(visitor.text, isIP)
    ensures ClientIp(PartText(visitor) + [','] + HeaderOf(via), isIP, trusted) == KeyOf(visitor.text, isIP)
    ensures ClientIp(PartText(visitor), isIP, trusted) == KeyOf(visitor.text, isIP)
  {
    var text := PartText(visitor);
    PartHops(visitor);
    assert [visitor][1..] == [] && HopTexts([visitor]) == [visitor.text];
    var vs := Judged(text, isIP, trusted);
    VerdictsIndex([visitor.text], isIP, trusted);
    assert vs[0] == Judge(visitor.text, isIP, trusted) == Stop(KeyOf(visitor.text, isIP));
    WalkRightmost(vs, 1, 0);
    HopsAre(via);
    ProxiesPass(via, isIP, trusted);
    HopsBefore(sent, text, isIP, trusted);
    HopsBefore(sent + [','] + text, HeaderOf(via), isIP, trusted);
    HopsBefore(text, HeaderOf(via), isIP, trusted);
  }

  // ----- two visitors -----

  /** A visitor whose address is a plain IPv6 text, after whatever the visitor sent and before trusted proxies. */
  predicate Visitor(t: Address, pad: string, via: seq<Part>, isIP: string -> int, trusted: string -> bool) {
    && Valid(t) && Spaces(pad)
    && isIP(Unmap(Render(t), isIP)) == 6 && !trusted(Unmap(Render(t), isIP))
    && AllProxies(via, isIP, trusted)
  }

  lemma {:induction false} VisitorKey(sent: string, pad: string, t: Address, via: seq<Part>,
                                      isIP: string -> int, trusted: string -> bool)
    requires Visitor(t, pad, via, isIP, trusted)
    ensures ClientIp(sent + [','] + (pad + Render(t)) + [','] + HeaderOf(via), isIP, trusted) ==
            Some(Prefix64(Unmap(Render(t), isIP)))
  {
    var text := Render(t);
    RenderText(t);
    assert forall i | 0 <= i < |text| :: !IsSpace(text[i]) && text[i] != ',';
    LastBeforeProxies(sent, Hop(pad, text, []), via, isIP, trusted);
    assert PartText(Hop(pad, text, [])) == pad + text;
  }

  /**
   * Two visitors get the same key exactly when the first 64 bits of their addresses are equal: whatever they sent
   * before, however their addresses are written, and whichever trusted proxies come after.
   */
  lemma {:induction false} VisitorsSameIff(sentS: string, padS: string, s: Address, viaS: seq<Part>,
                                           sentT: string, padT: string, t: Address, viaT: seq<Part>,
                                           isIP: string -> int, trusted: string -> bool)
    requires Visitor(s, padS, viaS, isIP, trusted) && Visitor(t, padT, viaT, isIP, trusted)
    ensures |Value(s)| == |Value(t)| == 8
    ensures ClientIp(sentS + [','] + (padS + Render(s)) + [','] + HeaderOf(viaS), isIP, trusted) ==
            ClientIp(sentT + [','] + (padT + Render(t)) + [','] + HeaderOf(viaT), isIP, trusted) <==>
            Value(s)[..4] == Value(t)[..4]
  {
    VisitorKey(sentS, padS, s, viaS, isIP, trusted);
    VisitorKey(sentT, padT, t, viaT, isIP, trusted);
    Prefix64Iff(s, t);
  }
}
