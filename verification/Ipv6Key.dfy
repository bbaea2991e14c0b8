/**
 * The /64 key of an IPv6 address (src/lib/client-ip.ts), over the text forms of section 2.2 of RFC 4291.
 *
 * From pieces to text and back, in lower case, and then the first four groups.
 */
module Ipv6Key {
  import opened Common
  import opened Texts
  import opened HexDigits

  // ----- the key, from text -----

  predicate PairAt(s: string) {
    |s| >= 2 && s[0] == ':' && s[1] == ':'
  }

  /** The text before the first "::". */
  function Head(s: string): string {
    if s == [] || PairAt(s) then [] else [s[0]] + Head(s[1..])
  }

  /** The text after it, if there is one. */
  function AfterPair(s: string): Option<string> {
    if s == [] then None else if PairAt(s) then Some(s[2..]) else AfterPair(s[1..])
  }

  function Groups(s: string): seq<string> {
    if s == [] then [] else Split(s, ':')
  }

  /** A dotted part fills two groups. */
  function Width(groups: seq<string>): int {
    if groups == [] then 0 else (if '.' in groups[0] then 2 else 1) + Width(groups[1..])
  }

  function Zeros(n: int): seq<string> {
    if n <= 0 then [] else [['0']] + Zeros(n - 1)
  }

  function AllGroups(ip: string): seq<string> {
    var left := Groups(Head(ip));
    if AfterPair(ip).None? then left
    else
      var right := Groups(Head(AfterPair(ip).value));
      left + Zeros(8 - Width(left) - Width(right)) + right
  }

  function StripAll(groups: seq<string>): seq<string> {
    if groups == [] then [] else [Strip(groups[0])] + StripAll(groups[1..])
  }

  function Take4(groups: seq<string>): seq<string> {
    if |groups| <= 4 then groups else groups[..4]
  }

  function Prefix64(ip: string): string {
    Join(StripAll(Take4(AllGroups(ip))), ':') + "::/64"
  }

  // ----- addresses, and how they are written -----

  function Decimal(n: nat): string {
    if n < 10 then [(48 + n) as char] else Decimal(n / 10) + [(48 + n % 10) as char]
  }

  /** A group of one to four hexadecimal digits, in either case, or four octets that fill two groups. */
  datatype Piece = Hex(digits: string) | Dotted(a: nat, b: nat, c: nat, d: nat)

  predicate PieceOk(p: Piece) {
    match p
    case Hex(digits) => 1 <= |digits| <= 4 && HexText(digits)
    case Dotted(a, b, c, d) => a < 256 && b < 256 && c < 256 && d < 256
  }

  /** The eight groups written out, or some left out around a "::". */
  datatype Address = Full(pieces: seq<Piece>) | Short(left: seq<Piece>, right: seq<Piece>)

  function Groups16(ps: seq<Piece>): int {
    if ps == [] then 0 else (if ps[0].Dotted? then 2 else 1) + Groups16(ps[1..])
  }

  /** Pieces are well-formed, and only the last may be dotted. */
  predicate PiecesOk(ps: seq<Piece>) {
    forall i | 0 <= i < |ps| :: PieceOk(ps[i]) && (i < |ps| - 1 ==> ps[i].Hex?)
  }

  predicate Valid(t: Address) {
    match t
    case Full(ps) => PiecesOk(ps) && Groups16(ps) == 8
    case Short(left, right) =>
      && PiecesOk(left) && PiecesOk(right)
      && (forall i | 0 <= i < |left| :: left[i].Hex?)
      && Groups16(left) + Groups16(right) <= 7
  }

  function PieceText(p: Piece): string {
    match p
    case Hex(digits) => digits
    case Dotted(a, b, c, d) => Decimal(a) + ['.'] + Decimal(b) + ['.'] + Decimal(c) + ['.'] + Decimal(d)
  }

  function PieceTexts(ps: seq<Piece>): seq<string> {
    if ps == [] then [] else [PieceText(ps[0])] + PieceTexts(ps[1..])
  }

  function Render(t: Address): string {
    match t
    case Full(ps) => Join(PieceTexts(ps), ':')
    case Short(left, right) => Join(PieceTexts(left), ':') + "::" + Join(PieceTexts(right), ':')
  }

  function PieceValues(p: Piece): seq<int>
    requires PieceOk(p)
  {
    match p
    case Hex(digits) => [HexValue(digits)]
    case Dotted(a, b, c, d) => [a * 256 + b, c * 256 + d]
  }

  function Values(ps: seq<Piece>): seq<int>
    requires forall i | 0 <= i < |ps| :: PieceOk(ps[i])
  {
    if ps == [] then []
    else
      assert PieceOk(ps[0]);
      PieceValues(ps[0]) + Values(ps[1..])
  }

  function ZeroValues(n: int): seq<int> {
    if n <= 0 then [] else [0] + ZeroValues(n - 1)
  }

  /** The eight 16-bit groups an address stands for. */
  function Value(t: Address): seq<int>
    requires Valid(t)
  {
    match t
    case Full(ps) => Values(ps)
    case Short(left, right) =>
      Values(left) + ZeroValues(8 - Groups16(left) - Groups16(right)) + Values(right)
  }

  // ----- lower case -----

  function LowerPiece(p: Piece): Piece {
    if p.Hex? then Hex(Lower(p.digits)) else p
  }

  function LowerPieces(ps: seq<Piece>): seq<Piece> {
    if ps == [] then [] else [LowerPiece(ps[0])] + LowerPieces(ps[1..])
  }

  function LowerAddress(t: Address): Address {
    match t
    case Full(ps) => Full(LowerPieces(ps))
    case Short(left, right) => Short(LowerPieces(left), LowerPieces(right))
  }

  predicate NumeralText(s: string) {
    forall i | 0 <= i < |s| :: '0' <= s[i] <= '9' || s[i] == '.'
  }

  lemma {:induction false} DecimalText(n: nat)
    ensures Decimal(n) != [] && NumeralText(Decimal(n))
  {
    if n >= 10 {
      DecimalText(n / 10);
    }
  }

  lemma {:induction false} DottedText(p: Piece)
    requires p.Dotted?
    ensures NumeralText(PieceText(p)) && '.' in PieceText(p)
  {
    DecimalText(p.a);
    DecimalText(p.b);
    DecimalText(p.c);
    DecimalText(p.d);
    assert PieceText(p)[|Decimal(p.a)|] == '.';
  }

  lemma {:induction false} LowerNumerals(s: string)
    requires NumeralText(s)
    ensures Lower(s) == s
  {
    LowerIndex(s);
  }

  lemma {:induction false} LowerPieceText(p: Piece)
    requires PieceOk(p)
    ensures PieceOk(LowerPiece(p)) && PieceText(LowerPiece(p)) == Lower(PieceText(p))
  {
    if p.Hex? {
      LowerHex(p.digits);
    } else {
      DottedText(p);
      LowerNumerals(PieceText(p));
    }
  }

  lemma {:induction false} LowerPieceValues(p: Piece)
    requires PieceOk(p)
    ensures PieceOk(LowerPiece(p)) && PieceValues(LowerPiece(p)) == PieceValues(p)
  {
    if p.Hex? {
      LowerHex(p.digits);
    }
  }

  lemma {:induction false} LowerPiecesIndex(ps: seq<Piece>)
    ensures |LowerPieces(ps)| == |ps| && forall i | 0 <= i < |ps| :: LowerPieces(ps)[i] == LowerPiece(ps[i])
    ensures Groups16(LowerPieces(ps)) == Groups16(ps)
  {
    if ps != [] {
      LowerPiecesIndex(ps[1..]);
      assert LowerPieces(ps)[1..] == LowerPieces(ps[1..]);
    }
  }

  lemma {:induction false} LowerPiecesOk(ps: seq<Piece>)
    requires forall i | 0 <= i < |ps| :: PieceOk(ps[i])
    ensures forall i | 0 <= i < |LowerPieces(ps)| :: PieceOk(LowerPieces(ps)[i])
  {
    LowerPiecesIndex(ps);
    forall i | 0 <= i < |ps|
      ensures PieceOk(LowerPieces(ps)[i])
    {
      LowerPieceValues(ps[i]);
    }
  }

  lemma {:induction false} LowerValues(ps: seq<Piece>)
    requires forall i | 0 <= i < |ps| :: PieceOk(ps[i])
    requires forall i | 0 <= i < |LowerPieces(ps)| :: PieceOk(LowerPieces(ps)[i])
    ensures Values(LowerPieces(ps)) == Values(ps)
  {
    if ps != [] {
      LowerPiecesOk(ps[1..]);
      LowerValues(ps[1..]);
      LowerPieceValues(ps[0]);
      assert LowerPieces(ps)[1..] == LowerPieces(ps[1..]);
    }
  }

  /** Lower-casing the text is lower-casing the pieces; they stand for the same groups. */
  lemma {:induction false} LowerAll(ps: seq<Piece>)
    requires forall i | 0 <= i < |ps| :: PieceOk(ps[i])
    ensures |LowerPieces(ps)| == |ps| && forall i | 0 <= i < |ps| :: LowerPieces(ps)[i] == LowerPiece(ps[i])
    ensures forall i | 0 <= i < |ps| :: PieceOk(LowerPieces(ps)[i])
    ensures Values(LowerPieces(ps)) == Values(ps) && Groups16(LowerPieces(ps)) == Groups16(ps)
  {
    LowerPiecesIndex(ps);
    LowerPiecesOk(ps);
    LowerValues(ps);
  }

  lemma {:induction false} LowerJoined(ps: seq<Piece>)
    requires forall i | 0 <= i < |ps| :: PieceOk(ps[i])
    ensures Join(PieceTexts(LowerPieces(ps)), ':') == Lower(Join(PieceTexts(ps), ':'))
  {
    if ps != [] {
      LowerJoined(ps[1..]);
      LowerPieceText(ps[0]);
      var rest := Join(PieceTexts(ps[1..]), ':');
      assert PieceTexts(ps)[1..] == PieceTexts(ps[1..]);
      assert PieceTexts(LowerPieces(ps))[1..] == PieceTexts(LowerPieces(ps[1..])) by {
        assert LowerPieces(ps)[1..] == LowerPieces(ps[1..]);
      }
      SameCount(ps[1..]);
      SameCount(LowerPieces(ps[1..]));
      LowerAll(ps[1..]);
      if |ps| > 1 {
        LowerConcat(PieceText(ps[0]) + [':'], rest);
        LowerConcat(PieceText(ps[0]), [':']);
        assert Lower([':']) == [':'];
      }
    }
  }

  lemma {:induction false} SameCount(ps: seq<Piece>)
    ensures |PieceTexts(ps)| == |ps| && forall i | 0 <= i < |ps| :: PieceTexts(ps)[i] == PieceText(ps[i])
  {
    if ps != [] {
      SameCount(ps[1..]);
    }
  }

  lemma {:induction false} LowerValid(t: Address)
    requires Valid(t)
    ensures Valid(LowerAddress(t)) && Value(LowerAddress(t)) == Value(t)
  {
    match t
    case Full(ps) => LowerAll(ps);
    case Short(left, right) =>
      LowerAll(left);
      LowerAll(right);
  }

  lemma {:induction false} LowerRender(t: Address)
    requires Valid(t)
    ensures Render(LowerAddress(t)) == Lower(Render(t))
  {
    match t
    case Full(ps) => LowerJoined(ps);
    case Short(left, right) =>
      LowerJoined(left);
      LowerJoined(right);
      LowerConcat(Join(PieceTexts(left), ':') + "::", Join(PieceTexts(right), ':'));
      LowerConcat(Join(PieceTexts(left), ':'), "::");
      LowerIndex("::");
      assert Lower("::") == "::";
  }

  // ----- text back to groups -----

  predicate NoPair(s: string) {
    forall i | 0 <= i < |s| - 1 :: !(s[i] == ':' && s[i + 1] == ':')
  }

  lemma {:induction false} HeadOf(a: string, b: string)
    requires NoPair(a) && (a == [] || a[|a| - 1] != ':')
    ensures Head(a + "::" + b) == a && AfterPair(a + "::" + b) == Some(b)
  {
    var s := a + "::" + b;
    if a == [] {
      assert s == "::" + b;
      assert s[2..] == b;
    } else {
      assert s[1..] == a[1..] + "::" + b;
      assert !PairAt(s) by {
        assert s[0] == a[0];
        if |a| >= 2 { assert s[1] == a[1]; }
      }
      HeadOf(a[1..], b);
      assert a == [a[0]] + a[1..];
    }
  }

  lemma {:induction false} HeadAll(a: string)
    requires NoPair(a)
    ensures Head(a) == a && AfterPair(a) == None
  {
    if a != [] {
      HeadAll(a[1..]);
      assert a == [a[0]] + a[1..];
    }
  }

  predicate PartOk(p: string) {
    p != [] && ':' !in p
  }

  lemma {:induction false} PiecePart(p: Piece)
    requires PieceOk(p)
    ensures PartOk(PieceText(p)) && ('.' in PieceText(p) <==> p.Dotted?)
  {
    if p.Dotted? {
      DottedText(p);
    }
  }

  lemma {:induction false} JoinNoPair(parts: seq<string>)
    requires forall p | p in parts :: PartOk(p)
    ensures var s := Join(parts, ':');
            && NoPair(s)
            && (parts == [] <==> s == [])
            && (s != [] ==> s[0] != ':' && s[|s| - 1] != ':')
  {
    if |parts| == 1 {
      assert PartOk(parts[0]);
    } else if |parts| > 1 {
      var rest := Join(parts[1..], ':');
      assert PartOk(parts[0]) && parts[1] in parts && parts[1..][0] == parts[1];
      JoinNoPair(parts[1..]);
    }
  }

  lemma {:induction false} PieceParts(ps: seq<Piece>)
    requires forall i | 0 <= i < |ps| :: PieceOk(ps[i])
    ensures forall p | p in PieceTexts(ps) :: PartOk(p)
  {
    SameCount(ps);
    forall p | p in PieceTexts(ps)
      ensures PartOk(p)
    {
      var i :| 0 <= i < |ps| && PieceTexts(ps)[i] == p;
      PiecePart(ps[i]);
    }
  }

  lemma {:induction false} GroupsBack(ps: seq<Piece>)
    requires forall i | 0 <= i < |ps| :: PieceOk(ps[i])
    ensures Groups(Join(PieceTexts(ps), ':')) == PieceTexts(ps)
  {
    SameCount(ps);
    PieceParts(ps);
    JoinNoPair(PieceTexts(ps));
    if ps != [] {
      SplitJoin(PieceTexts(ps), ':');
    }
  }

  lemma {:induction false} WidthIs(ps: seq<Piece>)
    requires forall i | 0 <= i < |ps| :: PieceOk(ps[i])
    ensures Width(PieceTexts(ps)) == Groups16(ps)
  {
    if ps != [] {
      PiecePart(ps[0]);
      WidthIs(ps[1..]);
    }
  }

  /** The groups as texts, the left-out ones as "0". */
  function GroupTexts(t: Address): seq<string> {
    match t
    case Full(ps) => PieceTexts(ps)
    case Short(left, right) =>
      PieceTexts(left) + Zeros(8 - Groups16(left) - Groups16(right)) + PieceTexts(right)
  }

  lemma {:induction false} ShortParts(left: seq<Piece>, right: seq<Piece>)
    requires forall i | 0 <= i < |left| :: PieceOk(left[i])
    requires forall i | 0 <= i < |right| :: PieceOk(right[i])
    ensures var l, r := Join(PieceTexts(left), ':'), Join(PieceTexts(right), ':');
            && Head(l + "::" + r) == l && AfterPair(l + "::" + r) == Some(r) && Head(r) == r
  {
    PieceParts(left);
    PieceParts(right);
    JoinNoPair(PieceTexts(left));
    JoinNoPair(PieceTexts(right));
    HeadOf(Join(PieceTexts(left), ':'), Join(PieceTexts(right), ':'));
    HeadAll(Join(PieceTexts(right), ':'));
  }

  /** What is read back from the text is what was written. */
  lemma {:induction false} ReadBack(t: Address)
    requires Valid(t)
    ensures AllGroups(Render(t)) == GroupTexts(t)
  {
    match t
    case Full(ps) =>
      PieceParts(ps);
      JoinNoPair(PieceTexts(ps));
      HeadAll(Render(t));
      GroupsBack(ps);
    case Short(left, right) =>
      ShortParts(left, right);
      GroupsBack(left);
      GroupsBack(right);
      WidthIs(left);
      WidthIs(right);
  }

  // ----- the first four groups -----

  ghost predicate StandsFor(text: string, value: int) {
    1 <= |text| <= 4 && LowerText(text) && ':' !in text && HexValue(text) == value
  }

  /** The first k texts stand for the first k values. */
  ghost predicate Stand(texts: seq<string>, values: seq<int>, k: int) {
    && k <= |texts| && k <= |values|
    && forall i | 0 <= i < k :: StandsFor(texts[i], values[i])
  }

  predicate LowerPieceOk(p: Piece) {
    PieceOk(p) && (p.Hex? ==> LowerText(p.digits))
  }

  lemma {:induction false} PieceStands(ps: seq<Piece>)
    requires forall i | 0 <= i < |ps| :: PieceOk(ps[i])
    requires forall i | 0 <= i < |ps| - 1 :: ps[i].Hex?
    ensures |PieceTexts(ps)| == |ps| && |Values(ps)| == Groups16(ps)
    ensures Groups16(ps) == |ps| + (if ps != [] && ps[|ps| - 1].Dotted? then 1 else 0)
    ensures forall i | 0 <= i < |ps| && ps[i].Hex? ::
              PieceTexts(ps)[i] == ps[i].digits && Values(ps)[i] == HexValue(ps[i].digits)
  {
    if ps != [] {
      PieceStands(ps[1..]);
    }
  }

  lemma {:induction false} ZerosIndex(n: int)
    ensures |Zeros(n)| == |ZeroValues(n)| == if n <= 0 then 0 else n
    ensures forall i | 0 <= i < |Zeros(n)| :: Zeros(n)[i] == ['0'] && ZeroValues(n)[i] == 0
  {
    if n > 0 {
      ZerosIndex(n - 1);
    }
  }

  predicate LowerAddressOk(t: Address) {
    match t
    case Full(ps) => forall i | 0 <= i < |ps| :: LowerPieceOk(ps[i])
    case Short(left, right) =>
      (forall i | 0 <= i < |left| :: LowerPieceOk(left[i])) && (forall i | 0 <= i < |right| :: LowerPieceOk(right[i]))
  }

  /** How many pieces come before a dotted one. */
  function HexCount(ps: seq<Piece>): int {
    if ps != [] && ps[|ps| - 1].Dotted? then |ps| - 1 else |ps|
  }

  lemma {:induction false} PiecesStand(ps: seq<Piece>)
    requires PiecesOk(ps) && forall i | 0 <= i < |ps| :: LowerPieceOk(ps[i])
    ensures |PieceTexts(ps)| == |ps| && |Values(ps)| == Groups16(ps) <= HexCount(ps) + 2
    ensures HexCount(ps) == |ps| ==> |Values(ps)| == |ps|
    ensures Stand(PieceTexts(ps), Values(ps), HexCount(ps))
  {
    PieceStands(ps);
    forall i | 0 <= i < HexCount(ps)
      ensures StandsFor(PieceTexts(ps)[i], Values(ps)[i])
    {
      assert LowerPieceOk(ps[i]) && ps[i].Hex?;
    }
  }

  lemma {:induction false} ZerosStand(n: nat)
    ensures |Zeros(n)| == |ZeroValues(n)| == n && Stand(Zeros(n), ZeroValues(n), n)
  {
    ZerosIndex(n);
  }

  lemma {:induction false} LeftStands(left: seq<Piece>)
    requires PiecesOk(left) && forall i | 0 <= i < |left| :: LowerPieceOk(left[i]) && left[i].Hex?
    ensures |PieceTexts(left)| == |Values(left)| == |left| == Groups16(left)
    ensures Stand(PieceTexts(left), Values(left), |left|)
  {
    PiecesStand(left);
  }

  lemma {:induction false} ShortStands(left: seq<Piece>, right: seq<Piece>, n: nat)
    requires PiecesOk(left) && forall i | 0 <= i < |left| :: LowerPieceOk(left[i]) && left[i].Hex?
    requires PiecesOk(right) && forall i | 0 <= i < |right| :: LowerPieceOk(right[i])
    requires Groups16(left) + n + Groups16(right) == 8
    ensures Stand(PieceTexts(left) + Zeros(n) + PieceTexts(right), Values(left) + ZeroValues(n) + Values(right), 4)
  {
    LeftStands(left);
    PiecesStand(right);
    ZerosStand(n);
  }

  lemma {:induction false} LoweredOk(t: Address)
    requires Valid(t)
    ensures LowerAddressOk(LowerAddress(t))
  {
    match t
    case Full(ps) => LoweredPieces(ps);
    case Short(left, right) =>
      LoweredPieces(left);
      LoweredPieces(right);
  }

  lemma {:induction false} LoweredPieces(ps: seq<Piece>)
    requires forall i | 0 <= i < |ps| :: PieceOk(ps[i])
    ensures forall i | 0 <= i < |LowerPieces(ps)| :: LowerPieceOk(LowerPieces(ps)[i])
  {
    LowerAll(ps);
    forall i | 0 <= i < |ps|
      ensures LowerPieceOk(LowerPieces(ps)[i])
    {
      if ps[i].Hex? {
        LowerHex(ps[i].digits);
        LowerIndex(ps[i].digits);
      }
    }
  }

  lemma {:induction false} StripFour(texts: seq<string>)
    requires |texts| == 4
    ensures StripAll(texts) == [Strip(texts[0]), Strip(texts[1]), Strip(texts[2]), Strip(texts[3])]
  {
    var one, two, three := texts[1..], texts[2..], texts[3..];
    assert one[1..] == two && two[1..] == three && three[1..] == [];
    assert StripAll(three) == [Strip(texts[3])];
    assert StripAll(two) == [Strip(texts[2])] + StripAll(three);
    assert StripAll(one) == [Strip(texts[1])] + StripAll(two);
  }

  /** The key, in terms of the first four group texts. */
  lemma {:induction false} KeysIff(x: seq<string>, xs: seq<int>, y: seq<string>, ys: seq<int>)
    requires Stand(x, xs, 4) && Stand(y, ys, 4)
    ensures Join(StripAll(Take4(x)), ':') == Join(StripAll(Take4(y)), ':') <==> xs[..4] == ys[..4]
  {
    StripFour(x[..4]);
    StripFour(y[..4]);
    assert Take4(x) == x[..4] && Take4(y) == y[..4];
    forall i | 0 <= i < 4
      ensures Strip(x[i]) == Strip(y[i]) <==> xs[i] == ys[i]
      ensures ':' !in Strip(x[i]) && ':' !in Strip(y[i])
    {
      StripIff(x[i], y[i]);
      StripKeepsPart(x[i]);
      StripKeepsPart(y[i]);
    }
    var p, q := StripAll(x[..4]), StripAll(y[..4]);
    if Join(p, ':') == Join(q, ':') {
      JoinInjective(p, q, ':');
      assert forall i | 0 <= i < 4 :: p[i] == q[i];
    }
    if xs[..4] == ys[..4] {
      assert forall i | 0 <= i < 4 :: xs[..4][i] == ys[..4][i];
    }
  }

  lemma SuffixInjective(a: string, b: string, end: string)
    ensures a + end == b + end <==> a == b
  {
    if a + end == b + end {
      assert a == (a + end)[..|a|] && b == (b + end)[..|b|];
    }
  }

  /** However two addresses are written, in either case: one key exactly when their first 64 bits are equal. */
  lemma {:induction false} Prefix64Iff(s: Address, t: Address)
    requires Valid(s) && Valid(t)
    ensures |Value(s)| == |Value(t)| == 8
    ensures Prefix64(Lower(Render(s))) == Prefix64(Lower(Render(t))) <==> Value(s)[..4] == Value(t)[..4]
  {
    EightGroups(s);
    EightGroups(t);
    LowerKey(s);
    LowerKey(t);
    var a, b := LowerAddress(s), LowerAddress(t);
    KeysIff(GroupTexts(a), Value(s), GroupTexts(b), Value(t));
    SuffixInjective(Join(StripAll(Take4(GroupTexts(a))), ':'), Join(StripAll(Take4(GroupTexts(b))), ':'), "::/64");
  }

  lemma {:induction false} LowerKey(t: Address)
    requires Valid(t)
    ensures var low := LowerAddress(t);
            && Valid(low) && Stand(GroupTexts(low), Value(t), 4)
            && Prefix64(Lower(Render(t))) == Join(StripAll(Take4(GroupTexts(low))), ':') + "::/64"
  {
    LowerValid(t);
    LowerRender(t);
    LoweredOk(t);
    ReadBack(LowerAddress(t));
    match LowerAddress(t)
    case Full(ps) => PiecesStand(ps);
    case Short(left, right) => ShortStands(left, right, 8 - Groups16(left) - Groups16(right));
  }

  lemma {:induction false} EightGroups(t: Address)
    requires Valid(t)
    ensures |Value(t)| == 8
  {
    match t
    case Full(ps) => ValuesCount(ps);
    case Short(left, right) =>
      ValuesCount(left);
      ValuesCount(right);
      ZerosIndex(8 - Groups16(left) - Groups16(right));
  }

  lemma {:induction false} ValuesCount(ps: seq<Piece>)
    requires forall i | 0 <= i < |ps| :: PieceOk(ps[i])
    ensures |Values(ps)| == Groups16(ps)
  {
    if ps != [] {
      ValuesCount(ps[1..]);
    }
  }

  // ----- the key is itself an address -----

  /** A group in its shortest lower-case form. */
  predicate Shortest(p: Piece) {
    p.Hex? && LowerText(p.digits) && 1 <= |p.digits| <= 4 && (|p.digits| == 1 || p.digits[0] != '0')
  }

  lemma {:induction false} FourPieces(x: seq<string>, xs: seq<int>) returns (ps: seq<Piece>)
    requires Stand(x, xs, 4)
    ensures |ps| == 4 && (forall i | 0 <= i < 4 :: Shortest(ps[i]) && PieceOk(ps[i]))
    ensures PieceTexts(ps) == StripAll(Take4(x)) && Values(ps) == xs[..4]
  {
    forall i | 0 <= i < 4
      ensures StandsFor(x[i], xs[i])
      ensures Shortest(Hex(Strip(x[i]))) && HexText(Strip(x[i])) && HexValue(Strip(x[i])) == xs[i]
    {
      assert StandsFor(x[i], xs[i]);
      StripKeeps(x[i]);
    }
    assert Take4(x) == x[..4];
    StripFour(x[..4]);
    ps := [Hex(Strip(x[0])), Hex(Strip(x[1])), Hex(Strip(x[2])), Hex(Strip(x[3]))];
    PieceStands(ps);
  }

  /**
   * The key is the address of the /64, in its shortest lower-case form, and the length of the prefix: the same first
   * four groups, and zeros.
   */
  lemma {:induction false} KeyIsPrefix(t: Address) returns (ps: seq<Piece>)
    requires Valid(t)
    ensures |ps| == 4 && (forall i | 0 <= i < 4 :: Shortest(ps[i])) && Valid(Short(ps, []))
    ensures |Value(t)| == 8 && Value(Short(ps, [])) == Value(t)[..4] + [0, 0, 0, 0]
    ensures Prefix64(Lower(Render(t))) == Render(Short(ps, [])) + "/64"
  {
    LowerKey(t);
    EightGroups(t);
    ps := FourPieces(GroupTexts(LowerAddress(t)), Value(t));
    FourGroups(ps);
    assert PieceTexts([]) == [] && Join([], ':') == [];
    assert "::" + "/64" == "::/64";
    assert Render(Short(ps, [])) == Join(PieceTexts(ps), ':') + "::" + [];
  }

  lemma {:induction false} FourGroups(ps: seq<Piece>)
    requires |ps| == 4 && forall i | 0 <= i < 4 :: Shortest(ps[i]) && PieceOk(ps[i])
    ensures Valid(Short(ps, [])) && Value(Short(ps, [])) == Values(ps) + [0, 0, 0, 0]
  {
    PieceStands(ps);
    PieceStands([]);
    ZerosIndex(4);
    assert ZeroValues(4) == [0, 0, 0, 0];
    assert Values(ps) + [0, 0, 0, 0] + [] == Values(ps) + [0, 0, 0, 0];
  }
}
