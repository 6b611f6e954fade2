/** Escaping values for Markdown reports (internal/report/markdown.go).  Bytes and code
    points are integers. */
module Markdown {

  type Byte = b: int | 0 <= b < 0x100

  /** A decoded rune, or a byte that is not part of valid UTF-8. */
  datatype Unit = Rune(code: int) | Invalid(byte: int)

  const REPLACEMENT := 0xFFFD
  const BACKSLASH := 0x5C

  // ----- Decoding UTF-8 -----

  predicate Follows(b: int) {
    0x80 <= b <= 0xBF
  }

  predicate TwoBytes(s: seq<Byte>) {
    |s| >= 2 && 0xC2 <= s[0] <= 0xDF && Follows(s[1])
  }

  predicate ThreeBytes(s: seq<Byte>) {
    && |s| >= 3 && 0xE0 <= s[0] <= 0xEF && Follows(s[1]) && Follows(s[2])
    && (s[0] == 0xE0 ==> s[1] >= 0xA0) && (s[0] == 0xED ==> s[1] <= 0x9F)
  }

  predicate FourBytes(s: seq<Byte>) {
    && |s| >= 4 && 0xF0 <= s[0] <= 0xF4 && Follows(s[1]) && Follows(s[2]) && Follows(s[3])
    && (s[0] == 0xF0 ==> s[1] >= 0x90) && (s[0] == 0xF4 ==> s[1] <= 0x8F)
  }

  /** The bits a continuation byte carries. */
  function Tail(s: seq<Byte>, i: nat): (low: int)
    requires i < |s|
  {
    var b: int := s[i]; b - 0x80
  }

  /** The first unit of s. */
  function DecodeUnit(s: seq<Byte>): Unit
    requires s != []
  {
    var lead: int := s[0];
    if lead < 0x80 then Rune(lead)
    else if TwoBytes(s) then Rune((lead - 0xC0) * 0x40 + Tail(s, 1))
    else if ThreeBytes(s) then Rune((lead - 0xE0) * 0x1000 + Tail(s, 1) * 0x40 + Tail(s, 2))
    else if FourBytes(s) then
      Rune((lead - 0xF0) * 0x40000 + Tail(s, 1) * 0x1000 + Tail(s, 2) * 0x40 + Tail(s, 3))
    else Invalid(lead)
  }

  /** How many bytes the first unit of s takes. */
  function UnitSize(s: seq<Byte>): (n: nat)
    requires s != []
    ensures 1 <= n <= |s|
  {
    if s[0] < 0x80 then 1
    else if TwoBytes(s) then 2
    else if ThreeBytes(s) then 3
    else if FourBytes(s) then 4
    else 1
  }

  function Decode(s: seq<Byte>): seq<Unit> {
    if s == [] then [] else [DecodeUnit(s)] + Decode(s[UnitSize(s)..])
  }

  /** What decoding can produce: scalar values, and bytes above ASCII. */
  predicate Decoded(u: Unit) {
    match u
    case Rune(code) => 0 <= code < 0xD800 || 0xE000 <= code < 0x110000
    case Invalid(byte) => 0x80 <= byte < 0x100
  }

  function EncodeUnit(u: Unit): seq<int> {
    match u
    case Invalid(byte) => [byte]
    case Rune(r) =>
      if r < 0x80 then [r]
      else if r < 0x800 then [0xC0 + r / 0x40, 0x80 + r % 0x40]
      else if r < 0x10000 then [0xE0 + r / 0x1000, 0x80 + r / 0x40 % 0x40, 0x80 + r % 0x40]
      else [0xF0 + r / 0x40000, 0x80 + r / 0x1000 % 0x40, 0x80 + r / 0x40 % 0x40, 0x80 + r % 0x40]
  }

  function Encode(units: seq<Unit>): seq<int> {
    if units == [] then [] else EncodeUnit(units[0]) + Encode(units[1..])
  }

  lemma Digits(high: int, low: int)
    requires 0 <= high && 0 <= low < 0x40
    ensures (high * 0x40 + low) / 0x40 == high && (high * 0x40 + low) % 0x40 == low
  {
  }

  lemma Pair(a: int, b: int)
    requires 2 <= a < 0x20 && 0 <= b < 0x40
    ensures EncodeUnit(Rune(a * 0x40 + b)) == [0xC0 + a, 0x80 + b]
    ensures 0x80 <= a * 0x40 + b < 0x800
  {
    Digits(a, b);
  }

  lemma Triple(a: int, b: int, c: int)
    requires 0 <= a < 0x10 && 0 <= b < 0x40 && 0 <= c < 0x40 && a * 0x40 + b >= 0x20
    ensures EncodeUnit(Rune(a * 0x1000 + b * 0x40 + c)) == [0xE0 + a, 0x80 + b, 0x80 + c]
    ensures 0x800 <= a * 0x1000 + b * 0x40 + c < 0x10000
  {
    var high := a * 0x40 + b;
    var r := high * 0x40 + c;
    Digits(a, b);
    Digits(high, c);
    assert r / 0x1000 == a;
  }

  lemma Quadruple(a: int, b: int, c: int, d: int)
    requires 0 <= a < 8 && 0 <= b < 0x40 && 0 <= c < 0x40 && 0 <= d < 0x40 && a * 0x40 + b >= 0x10
    ensures EncodeUnit(Rune(a * 0x40000 + b * 0x1000 + c * 0x40 + d)) == [0xF0 + a, 0x80 + b, 0x80 + c, 0x80 + d]
    ensures 0x10000 <= a * 0x40000 + b * 0x1000 + c * 0x40 + d
  {
    var top := a * 0x40 + b;
    var high := top * 0x40 + c;
    var r := high * 0x40 + d;
    Digits(a, b);
    Digits(top, c);
    Digits(high, d);
    assert r / 0x40000 == a;
    assert r / 0x1000 == top;
  }

  lemma TwoIsExact(s: seq<Byte>)
    requires TwoBytes(s)
    ensures Decoded(DecodeUnit(s)) && EncodeUnit(DecodeUnit(s)) == s[..2]
  {
    var lead: int := s[0];
    Pair(lead - 0xC0, Tail(s, 1));
  }

  lemma ThreeIsExact(s: seq<Byte>)
    requires ThreeBytes(s)
    ensures Decoded(DecodeUnit(s)) && EncodeUnit(DecodeUnit(s)) == s[..3]
  {
    var lead: int := s[0];
    Triple(lead - 0xE0, Tail(s, 1), Tail(s, 2));
  }

  lemma FourIsExact(s: seq<Byte>)
    requires FourBytes(s)
    ensures Decoded(DecodeUnit(s)) && EncodeUnit(DecodeUnit(s)) == s[..4]
  {
    var lead: int := s[0];
    Quadruple(lead - 0xF0, Tail(s, 1), Tail(s, 2), Tail(s, 3));
  }

  lemma DecodeUnitIsExact(s: seq<Byte>)
    requires s != []
    ensures Decoded(DecodeUnit(s))
    ensures EncodeUnit(DecodeUnit(s)) == s[..UnitSize(s)]
  {
    if s[0] >= 0x80 {
      if TwoBytes(s) {
        TwoIsExact(s);
      } else if ThreeBytes(s) {
        ThreeIsExact(s);
      } else if FourBytes(s) {
        FourIsExact(s);
      }
    }
  }

  /** Decoding loses nothing, not even malformed bytes. */
  lemma {:induction false} DecodeIsExact(s: seq<Byte>)
    ensures Encode(Decode(s)) == s
    ensures AllDecoded(Decode(s))
  {
    if s != [] {
      DecodeUnitIsExact(s);
      DecodeIsExact(s[UnitSize(s)..]);
      EncodeCons(DecodeUnit(s), Decode(s[UnitSize(s)..]));
      Halves(s, UnitSize(s));
    }
  }

  lemma EncodeCons(u: Unit, units: seq<Unit>)
    ensures Encode([u] + units) == EncodeUnit(u) + Encode(units)
    ensures AllDecoded(units) && Decoded(u) ==> AllDecoded([u] + units)
  {
    assert ([u] + units)[1..] == units;
  }

  lemma Halves(s: seq<Byte>, n: nat)
    requires n <= |s|
    ensures s[..n] + s[n..] == s
  {
  }

  // ----- Character classes -----

  /** Unicode tables.  Only what their users rely on is pinned down. */
  datatype Tables = Tables(shown: int -> bool, letter: int -> bool, digit: int -> bool, space: int -> bool)

  ghost predicate Sane(t: Tables) {
    && (forall r :: 0x20 <= r < 0x7F ==> t.shown(r))
    && (forall r :: r < 0x20 || r == 0x7F ==> !t.shown(r))
    && !t.shown(0x85) && !t.shown(0x2028) && !t.shown(0x2029)
  }

  /** What is further known of letters, digits and white space. */
  ghost predicate Classes(t: Tables) {
    && (forall r :: t.letter(r) || t.digit(r) ==> t.shown(r) && r != REPLACEMENT && (r < 0x80 ==> Alphanumeric(r)))
    && (forall r :: Alphanumeric(r) ==> t.letter(r) || t.digit(r))
    && (forall r :: '0' as int <= r <= '9' as int ==> t.digit(r))
    && t.space(0x20) && (forall r :: 0x20 < r < 0x7F ==> !t.space(r))
  }

  /** ASCII letters and digits. */
  predicate Alphanumeric(r: int) {
    '0' as int <= r <= '9' as int || 'A' as int <= r <= 'Z' as int || 'a' as int <= r <= 'z' as int
  }

  function Code(u: Unit): int {
    if u.Rune? then u.code else REPLACEMENT
  }

  predicate Is(u: Unit, c: char) {
    Code(u) == c as int
  }

  predicate Word(t: Tables, u: Unit) {
    t.letter(Code(u)) || t.digit(Code(u))
  }

  predicate Scheme(t: Tables, u: Unit) {
    Word(t, u) || Is(u, '+') || Is(u, '-') || Is(u, '.')
  }

  predicate Delimiter(r: int) {
    r in {'\\' as int, '`' as int, '*' as int, '[' as int, ']' as int, '<' as int, '>' as int,
          '&' as int, '~' as int, '@' as int, '#' as int, '|' as int}
  }

  predicate IntraWordUnderscore(t: Tables, units: seq<Unit>, i: nat)
    requires i < |units|
  {
    i > 0 && i + 1 < |units| && Word(t, units[i - 1]) && Word(t, units[i + 1])
  }

  /** The blanks at the start of a line, no more than four. */
  function Indent(units: seq<Unit>, i: nat): (n: nat)
    requires i < |units|
    ensures n <= i && n <= 4
  {
    if i == 0 || !Is(units[0], ' ') then 0
    else if i == 1 || !Is(units[1], ' ') then 1
    else if i == 2 || !Is(units[2], ' ') then 2
    else if i == 3 || !Is(units[3], ' ') then 3
    else 4
  }

  /** A bullet or an ordinal that would open a list item. */
  predicate ListDelimiter(t: Tables, units: seq<Unit>, i: nat)
    requires i < |units|
  {
    && i + 1 < |units| && t.space(Code(units[i + 1]))
    && var start := Indent(units, i);
       if start == i then Is(units[i], '-') || Is(units[i], '+')
       else
         && start <= 3 && i - start <= 9 && (Is(units[i], '.') || Is(units[i], ')'))
         && forall k :: start <= k < i ==> t.digit(Code(units[k]))
  }

  /** Where the scheme that ends before i begins. */
  function SchemeStart(t: Tables, units: seq<Unit>, i: nat): (start: nat)
    requires 0 < i <= |units|
    ensures start < i
  {
    if i == 1 || !Scheme(t, units[i - 2]) then i - 1 else SchemeStart(t, units, i - 1)
  }

  predicate IsW(u: Unit) {
    Is(u, 'w') || Is(u, 'W')
  }

  predicate AutolinkDelimiter(t: Tables, units: seq<Unit>, i: nat)
    requires i < |units|
  {
    if Is(units[i], ':') && i > 0 && i + 2 < |units| && Is(units[i + 1], '/') && Is(units[i + 2], '/')
    then t.letter(Code(units[SchemeStart(t, units, i)]))
    else
      && Is(units[i], '.') && i >= 3
      && IsW(units[i - 3]) && IsW(units[i - 2]) && IsW(units[i - 1])
      && (i == 3 || !Word(t, units[i - 4]))
  }

  /** Runes that open Markdown syntax where they stand. */
  predicate Opens(t: Tables, units: seq<Unit>, i: nat)
    requires i < |units|
  {
    || Delimiter(Code(units[i]))
    || (Is(units[i], '_') && !IntraWordUnderscore(t, units, i))
    || ListDelimiter(t, units, i)
    || AutolinkDelimiter(t, units, i)
  }

  // ----- Escapes -----

  function HexDigit(d: int): int
    requires 0 <= d < 16
  {
    if d < 10 then '0' as int + d else 'a' as int + d - 10
  }

  function HexValue(c: int): int {
    if '0' as int <= c <= '9' as int then c - '0' as int else c - 'a' as int + 10
  }

  function Hex(v: int, n: nat): (s: seq<int>)
    ensures |s| == n
    decreases n
  {
    if n == 0 then [] else Hex(v / 16, n - 1) + [HexDigit(v % 16)]
  }

  function FromHex(s: seq<int>): int {
    if s == [] then 0 else FromHex(s[..|s| - 1]) * 16 + HexValue(s[|s| - 1])
  }

  function Power16(n: nat): (p: nat)
    ensures p > 0
  {
    if n == 0 then 1 else 16 * Power16(n - 1)
  }

  lemma {:induction false} HexRoundTrip(v: int, n: nat)
    requires 0 <= v < Power16(n)
    ensures FromHex(Hex(v, n)) == v
  {
    if n > 0 {
      HexRoundTrip(v / 16, n - 1);
      assert Hex(v, n)[..n - 1] == Hex(v / 16, n - 1);
    }
  }

  /** The control characters with a letter of their own. */
  function ControlLetter(r: int): int {
    if r == 7 then 'a' as int else if r == 8 then 'b' as int else if r == 12 then 'f' as int
    else if r == 10 then 'n' as int else if r == 13 then 'r' as int else if r == 9 then 't' as int
    else if r == 11 then 'v' as int else 0
  }

  function LetterControl(c: int): int {
    if c == 'a' as int then 7 else if c == 'b' as int then 8 else if c == 'f' as int then 12
    else if c == 'n' as int then 10 else if c == 'r' as int then 13 else if c == 't' as int then 9
    else if c == 'v' as int then 11 else -1
  }

  function HexEscape(v: int): seq<int> {
    [BACKSLASH, 'x' as int] + Hex(v, 2)
  }

  /** How Go spells a rune it does not print. */
  function Quoted(r: int): seq<int> {
    if ControlLetter(r) != 0 then [BACKSLASH, ControlLetter(r)]
    else if r < 0x20 || r == 0x7F then HexEscape(r)
    else if r < 0x10000 then [BACKSLASH, 'u' as int] + Hex(r, 4)
    else [BACKSLASH, 'U' as int] + Hex(r, 8)
  }

  /** Four blanks at the start would open a code block. */
  predicate Indented(units: seq<Unit>) {
    |units| >= 4 && Is(units[0], ' ') && Is(units[1], ' ') && Is(units[2], ' ') && Is(units[3], ' ')
  }

  /** What the unit at i is written as. */
  function Piece(t: Tables, units: seq<Unit>, i: nat): seq<int>
    requires i < |units|
  {
    match units[i]
    case Invalid(byte) => HexEscape(byte)
    case Rune(r) =>
      if !t.shown(r) then Quoted(r)
      else if r == '$' as int || (i == 0 && Indented(units)) then HexEscape(r)
      else if Opens(t, units, i) then [BACKSLASH, r]
      else [r]
  }

  function EscapeFrom(t: Tables, units: seq<Unit>, i: nat): seq<int>
    requires i <= |units|
    decreases |units| - i
  {
    if i == |units| then [] else Piece(t, units, i) + EscapeFrom(t, units, i + 1)
  }

  lemma EscapeStep(t: Tables, units: seq<Unit>, i: nat)
    requires i < |units|
    ensures EscapeFrom(t, units, i) == Piece(t, units, i) + EscapeFrom(t, units, i + 1)
  {
  }

  function Escape(t: Tables, value: seq<Byte>): seq<int> {
    EscapeFrom(t, Decode(value), 0)
  }

  // ----- Undoing the escapes -----

  /** How many runes the first escape of s takes. */
  function EscapeSize(s: seq<int>): (n: nat)
    requires s != []
    ensures 1 <= n <= |s|
  {
    if s[0] != BACKSLASH || |s| == 1 then 1
    else if s[1] == 'x' as int && |s| >= 4 then 4
    else if s[1] == 'u' as int && |s| >= 6 then 6
    else if s[1] == 'U' as int && |s| >= 10 then 10
    else 2
  }

  function FirstUnit(s: seq<int>): Unit
    requires s != []
  {
    var n := EscapeSize(s);
    if n == 1 then Rune(s[0])
    else if n == 4 then
      var v := FromHex(s[2..4]);
      if v >= 0x80 then Invalid(v) else Rune(v)
    else if n == 6 then Rune(FromHex(s[2..6]))
    else if n == 10 then Rune(FromHex(s[2..10]))
    else if LetterControl(s[1]) >= 0 then Rune(LetterControl(s[1]))
    else Rune(s[1])
  }

  function UnescapeUnits(s: seq<int>): seq<Unit> {
    if s == [] then [] else [FirstUnit(s)] + UnescapeUnits(s[EscapeSize(s)..])
  }

  function Unescape(s: seq<int>): seq<int> {
    Encode(UnescapeUnits(s))
  }

  lemma HexEscapeReads(v: int, rest: seq<int>)
    requires 0 <= v < 0x100
    ensures EscapeSize(HexEscape(v) + rest) == 4
    ensures FirstUnit(HexEscape(v) + rest) == if v >= 0x80 then Invalid(v) else Rune(v)
    ensures (HexEscape(v) + rest)[4..] == rest
  {
    assert Power16(2) == 16 * Power16(1) == 0x100;
    HexRoundTrip(v, 2);
    assert (HexEscape(v) + rest)[2..4] == Hex(v, 2);
  }

  lemma UnicodeReads(letter: int, v: int, n: nat, rest: seq<int>)
    requires || (letter == 'u' as int && n == 4 && 0 <= v < 0x10000)
             || (letter == 'U' as int && n == 8 && 0 <= v < 0x110000)
    ensures var s := [BACKSLASH, letter] + Hex(v, n) + rest;
            EscapeSize(s) == n + 2 && FirstUnit(s) == Rune(v) && s[n + 2..] == rest
  {
    var s := [BACKSLASH, letter] + Hex(v, n) + rest;
    assert Power16(4) == 0x10000 && Power16(8) == 0x100000000 by {
      Powers();
    }
    HexRoundTrip(v, n);
    assert s[2..n + 2] == Hex(v, n);
  }

  lemma Powers()
    ensures Power16(4) == 0x10000 && Power16(8) == 0x100000000
  {
    assert Power16(2) == 16 * Power16(1) == 0x100;
    assert Power16(4) == 16 * Power16(3) == 16 * (16 * Power16(2));
    assert Power16(6) == 16 * Power16(5) == 16 * (16 * Power16(4));
    assert Power16(8) == 16 * Power16(7) == 16 * (16 * Power16(6));
  }

  // ----- Nothing is lost -----

  /** s begins with the escape of u, followed by rest. */
  ghost predicate Reads(s: seq<int>, u: Unit, rest: seq<int>) {
    s != [] && FirstUnit(s) == u && s[EscapeSize(s)..] == rest
  }

  lemma QuotedReads(t: Tables, r: int, rest: seq<int>)
    requires Sane(t) && Decoded(Rune(r)) && !t.shown(r)
    ensures Reads(Quoted(r) + rest, Rune(r), rest)
  {
    if ControlLetter(r) != 0 {
      assert (Quoted(r) + rest)[2..] == rest;
    } else if r < 0x20 || r == 0x7F {
      HexEscapeReads(r, rest);
    } else if r < 0x10000 {
      UnicodeReads('u' as int, r, 4, rest);
    } else {
      UnicodeReads('U' as int, r, 8, rest);
    }
  }

  lemma OpenersAreNoLetters(t: Tables, units: seq<Unit>, i: nat)
    requires i < |units| && units[i].Rune? && Opens(t, units, i)
    ensures var r := units[i].code;
            && r != 'x' as int && r != 'u' as int && r != 'U' as int && LetterControl(r) == -1
  {
  }

  lemma PieceReads(t: Tables, units: seq<Unit>, i: nat, rest: seq<int>)
    requires Sane(t) && i < |units| && Decoded(units[i])
    ensures Reads(Piece(t, units, i) + rest, units[i], rest)
  {
    var s := Piece(t, units, i) + rest;
    match units[i]
    case Invalid(byte) => HexEscapeReads(byte, rest);
    case Rune(r) =>
      if !t.shown(r) {
        QuotedReads(t, r, rest);
      } else if r == '$' as int || (i == 0 && Indented(units)) {
        HexEscapeReads(r, rest);
      } else if Opens(t, units, i) {
        OpenersAreNoLetters(t, units, i);
        assert s[2..] == rest;
      } else {
        assert s[1..] == rest;
      }
  }

  lemma UnescapeStep(s: seq<int>, u: Unit, rest: seq<int>)
    requires Reads(s, u, rest)
    ensures UnescapeUnits(s) == [u] + UnescapeUnits(rest)
  {
  }

  ghost predicate AllDecoded(units: seq<Unit>) {
    forall k :: 0 <= k < |units| ==> Decoded(units[k])
  }

  lemma EscapeReadsOne(t: Tables, units: seq<Unit>, i: nat)
    requires Sane(t) && i < |units| && Decoded(units[i])
    ensures UnescapeUnits(EscapeFrom(t, units, i)) == [units[i]] + UnescapeUnits(EscapeFrom(t, units, i + 1))
  {
    var rest := EscapeFrom(t, units, i + 1);
    PieceReads(t, units, i, rest);
    UnescapeStep(Piece(t, units, i) + rest, units[i], rest);
  }

  lemma {:induction false} EscapeReadsBack(t: Tables, units: seq<Unit>, i: nat)
    requires Sane(t) && i <= |units| && AllDecoded(units)
    ensures UnescapeUnits(EscapeFrom(t, units, i)) == units[i..]
    decreases |units| - i
  {
    if i < |units| {
      EscapeReadsOne(t, units, i);
      EscapeReadsBack(t, units, i + 1);
      FromHere(units, i);
    }
  }

  lemma FromHere(units: seq<Unit>, i: nat)
    requires i < |units|
    ensures units[i..] == [units[i]] + units[i + 1..]
  {
  }

  /** Unescaping recovers every value, malformed bytes included. */
  lemma EscapeIsReversible(t: Tables, value: seq<Byte>)
    requires Sane(t)
    ensures Unescape(Escape(t, value)) == value
  {
    DecodeIsExact(value);
    EscapeReadsBack(t, Decode(value), 0);
    assert Decode(value)[0..] == Decode(value);
  }

  /** Different values never render alike. */
  lemma EscapeIsInjective(t: Tables, a: seq<Byte>, b: seq<Byte>)
    requires Sane(t) && Escape(t, a) == Escape(t, b)
    ensures a == b
  {
    EscapeIsReversible(t, a);
    EscapeIsReversible(t, b);
  }

  // ----- Nothing dangerous gets out -----

  /** c may stand in a report line: it is printable and no dollar sign. */
  predicate Harmless(t: Tables, c: int) {
    t.shown(c) && c != '$' as int
  }

  ghost predicate AllHarmless(t: Tables, s: seq<int>) {
    forall i :: 0 <= i < |s| ==> Harmless(t, s[i])
  }

  lemma {:induction false} HexIsHarmless(t: Tables, v: int, n: nat)
    requires Sane(t)
    ensures AllHarmless(t, Hex(v, n))
    decreases n
  {
    if n > 0 {
      HexIsHarmless(t, v / 16, n - 1);
    }
  }

  lemma HarmlessAppend(t: Tables, a: seq<int>, b: seq<int>)
    requires AllHarmless(t, a) && AllHarmless(t, b)
    ensures AllHarmless(t, a + b)
  {
  }

  lemma QuotedIsHarmless(t: Tables, r: int)
    requires Sane(t)
    ensures AllHarmless(t, Quoted(r)) && AllHarmless(t, HexEscape(r))
  {
    HexIsHarmless(t, r, 2);
    HexIsHarmless(t, r, 4);
    HexIsHarmless(t, r, 8);
    HarmlessAppend(t, [BACKSLASH, 'x' as int], Hex(r, 2));
    HarmlessAppend(t, [BACKSLASH, 'u' as int], Hex(r, 4));
    HarmlessAppend(t, [BACKSLASH, 'U' as int], Hex(r, 8));
  }

  lemma PieceIsHarmless(t: Tables, units: seq<Unit>, i: nat)
    requires Sane(t) && i < |units|
    ensures AllHarmless(t, Piece(t, units, i))
  {
    match units[i]
    case Invalid(byte) => QuotedIsHarmless(t, byte);
    case Rune(r) => QuotedIsHarmless(t, r);
  }

  lemma {:induction false} EscapeIsHarmlessFrom(t: Tables, units: seq<Unit>, i: nat)
    requires Sane(t) && i <= |units|
    ensures AllHarmless(t, EscapeFrom(t, units, i))
    decreases |units| - i
  {
    if i < |units| {
      PieceIsHarmless(t, units, i);
      EscapeIsHarmlessFrom(t, units, i + 1);
      HarmlessAppend(t, Piece(t, units, i), EscapeFrom(t, units, i + 1));
    }
  }

  predicate Blank(c: int) {
    c == 0x20
  }

  /** Only a blank is written as a bare blank. */
  lemma BlankPiece(t: Tables, units: seq<Unit>, i: nat)
    requires Sane(t) && i < |units|
    ensures |Piece(t, units, i)| >= 1
    ensures Blank(Piece(t, units, i)[0]) ==> Is(units[i], ' ') && |Piece(t, units, i)| == 1
    ensures Blank(Piece(t, units, i)[0]) && i == 0 ==> !Indented(units)
  {
  }

  ghost predicate StartsBlank(s: seq<int>, n: nat) {
    n <= |s| && forall k :: 0 <= k < n ==> Blank(s[k])
  }

  ghost predicate BlankUnits(units: seq<Unit>, i: nat, n: nat) {
    i + n <= |units| && forall k :: i <= k < i + n ==> Is(units[k], ' ')
  }

  lemma StartsBlankTail(piece: seq<int>, rest: seq<int>, n: nat)
    requires |piece| == 1 && n > 0 && StartsBlank(piece + rest, n)
    ensures StartsBlank(rest, n - 1)
  {
    assert forall k :: 0 <= k < n - 1 ==> rest[k] == (piece + rest)[k + 1];
  }

  /** How many blanks an escaped value starts with it had itself. */
  lemma {:induction false} LeadingBlanks(t: Tables, units: seq<Unit>, i: nat, n: nat)
    requires Sane(t) && i <= |units| && StartsBlank(EscapeFrom(t, units, i), n)
    ensures BlankUnits(units, i, n)
    decreases |units| - i
  {
    if i < |units| && n > 0 {
      var piece, rest := Piece(t, units, i), EscapeFrom(t, units, i + 1);
      BlankPiece(t, units, i);
      assert EscapeFrom(t, units, i) == piece + rest;
      assert (piece + rest)[0] == piece[0];
      assert Blank((piece + rest)[0]);
      StartsBlankTail(piece, rest, n);
      LeadingBlanks(t, units, i + 1, n - 1);
      ConsBlank(units, i, n);
    }
  }

  lemma ConsBlank(units: seq<Unit>, i: nat, n: nat)
    requires n > 0 && i < |units| && Is(units[i], ' ') && BlankUnits(units, i + 1, n - 1)
    ensures BlankUnits(units, i, n)
  {
  }

  /** An escaped value has no line break, no unprintable rune and no dollar sign, and
      never begins like an indented code block. */
  lemma EscapeIsHarmless(t: Tables, value: seq<Byte>)
    requires Sane(t)
    ensures AllHarmless(t, Escape(t, value))
    ensures !StartsBlank(Escape(t, value), 4)
  {
    var units, out := Decode(value), Escape(t, value);
    EscapeIsHarmlessFrom(t, units, 0);
    if StartsBlank(out, 4) {
      LeadingBlanks(t, units, 0, 4);
      FirstBlankIsEscaped(t, units);
    }
  }

  lemma FirstBlankIsEscaped(t: Tables, units: seq<Unit>)
    requires Sane(t) && BlankUnits(units, 0, 4)
    ensures EscapeFrom(t, units, 0) != [] && !Blank(EscapeFrom(t, units, 0)[0])
  {
    BlankPiece(t, units, 0);
    assert EscapeFrom(t, units, 0)[0] == Piece(t, units, 0)[0];
  }

  // ----- Nothing opens Markdown syntax -----

  /** ASCII punctuation, which a backslash makes literal (section 2.4 of the CommonMark specification). */
  predicate Punctuation(c: int) {
    0x21 <= c < 0x7F && !Alphanumeric(c)
  }

  predicate BackslashEscape(s: seq<int>) {
    |s| >= 2 && s[0] == BACKSLASH && Punctuation(s[1])
  }

  predicate WordRune(t: Tables, c: int) {
    t.letter(c) || t.digit(c)
  }

  /** c is one of these characters. */
  predicate OneOf(c: int, these: string) {
    exists k :: 0 <= k < |these| && c == these[k] as int
  }

  /** The first rune of s opens nothing: a backslash is followed by a letter, none of the characters
      that open inline syntax is live, and an underscore stands between word runes. */
  predicate Quiet(t: Tables, before: int, s: seq<int>)
    requires s != []
  {
    if s[0] == BACKSLASH then |s| >= 2
    else
      && !OneOf(s[0], "\\`*[]<>&~@#|") && s[0] != '$' as int
      && (s[0] == '_' as int ==> WordRune(t, before) && |s| >= 2 && WordRune(t, s[1]))
  }

  /** As Markdown reads s after the rune before, nothing in it opens inline syntax. */
  predicate Tame(t: Tables, before: int, s: seq<int>)
    decreases |s|
  {
    s == []
    || if BackslashEscape(s) then Tame(t, s[1], s[2..]) else Quiet(t, before, s) && Tame(t, s[0], s[1..])
  }

  /** Letters and digits open nothing. */
  lemma {:induction false} LettersAreTame(t: Tables, before: int, word: seq<int>, rest: seq<int>)
    requires forall k :: 0 <= k < |word| ==> Alphanumeric(word[k])
    requires Tame(t, if word == [] then before else word[|word| - 1], rest)
    ensures Tame(t, before, word + rest)
    decreases |word|
  {
    var s := word + rest;
    if word == [] {
      assert s == rest;
    } else {
      assert s[1..] == word[1..] + rest;
      LettersAreTame(t, word[0], word[1..], rest);
    }
  }

  lemma {:induction false} HexIsAlphanumeric(v: int, n: nat)
    ensures forall k :: 0 <= k < n ==> Alphanumeric(Hex(v, n)[k])
    decreases n
  {
    if n > 0 {
      HexIsAlphanumeric(v / 16, n - 1);
    }
  }

  /** A backslash and letters. */
  ghost predicate Spelled(piece: seq<int>) {
    |piece| >= 2 && piece[0] == BACKSLASH && forall k :: 1 <= k < |piece| ==> Alphanumeric(piece[k])
  }

  lemma SpellingsAreSpelled(r: int)
    ensures Spelled(Quoted(r)) && Spelled(HexEscape(r))
  {
    HexIsAlphanumeric(r, 2);
    HexIsAlphanumeric(r, 4);
    HexIsAlphanumeric(r, 8);
  }

  lemma SpelledIsTame(t: Tables, before: int, piece: seq<int>, rest: seq<int>)
    requires Spelled(piece) && Tame(t, piece[|piece| - 1], rest)
    ensures Tame(t, before, piece + rest)
  {
    var s := piece + rest;
    assert s[1..] == piece[1..] + rest;
    assert s[1] == piece[1];
    LettersAreTame(t, BACKSLASH, piece[1..], rest);
  }

  /** The unit at i is written as itself. */
  predicate Bare(t: Tables, units: seq<Unit>, i: nat)
    requires i < |units|
  {
    && units[i].Rune? && t.shown(units[i].code) && units[i].code != '$' as int
    && !(i == 0 && Indented(units)) && !Opens(t, units, i)
  }

  /** A piece is a bare rune, a backslash escape, or spelled out. */
  lemma PieceKinds(t: Tables, units: seq<Unit>, i: nat)
    requires Sane(t) && Classes(t) && i < |units|
    ensures var piece := Piece(t, units, i);
            if Bare(t, units, i) then piece == [Code(units[i])] && piece[0] != BACKSLASH
            else
              && !Word(t, units[i])
              && (Spelled(piece) || (BackslashEscape(piece) && piece == [BACKSLASH, Code(units[i])]))
  {
    match units[i]
    case Invalid(byte) => SpellingsAreSpelled(byte);
    case Rune(r) => SpellingsAreSpelled(r);
  }

  /** What before says about the unit that precedes i. */
  ghost predicate Precedes(t: Tables, units: seq<Unit>, i: nat, before: int) {
    0 < i <= |units| && Word(t, units[i - 1]) ==> before == Code(units[i - 1])
  }

  lemma BareIsQuiet(t: Tables, units: seq<Unit>, i: nat, before: int)
    requires Sane(t) && Classes(t) && i < |units| && Bare(t, units, i) && Precedes(t, units, i, before)
    ensures EscapeFrom(t, units, i)[0] == Code(units[i]) && EscapeFrom(t, units, i)[1..] == EscapeFrom(t, units, i + 1)
    ensures Quiet(t, before, EscapeFrom(t, units, i))
  {
    PieceKinds(t, units, i);
    EscapeStep(t, units, i);
    if Is(units[i], '_') {
      WordIsFirst(t, units, i + 1);
    }
  }

  lemma WordIsFirst(t: Tables, units: seq<Unit>, i: nat)
    requires Sane(t) && Classes(t) && i < |units| && Word(t, units[i])
    ensures EscapeFrom(t, units, i) != [] && EscapeFrom(t, units, i)[0] == Code(units[i])
  {
    PieceKinds(t, units, i);
    EscapeStep(t, units, i);
  }

  lemma {:induction false} EscapeIsTameFrom(t: Tables, units: seq<Unit>, i: nat, before: int)
    requires Sane(t) && Classes(t) && i <= |units| && Precedes(t, units, i, before)
    ensures Tame(t, before, EscapeFrom(t, units, i))
    decreases |units| - i
  {
    if i < |units| {
      var piece, rest := Piece(t, units, i), EscapeFrom(t, units, i + 1);
      PieceKinds(t, units, i);
      var last := piece[|piece| - 1];
      EscapeIsTameFrom(t, units, i + 1, last);
      if Bare(t, units, i) {
        BareIsQuiet(t, units, i, before);
      } else if Spelled(piece) {
        SpelledIsTame(t, before, piece, rest);
      } else {
        assert (piece + rest)[2..] == rest;
      }
    }
  }

  /** As Markdown reads an escaped value, nothing in it opens inline syntax. */
  lemma EscapeOpensNoInline(t: Tables, value: seq<Byte>)
    requires Sane(t) && Classes(t)
    ensures Tame(t, -1, Escape(t, value))
  {
    EscapeIsTameFrom(t, Decode(value), 0, -1);
  }

  // ----- Values that are written as they are -----

  function Codes(units: seq<Unit>): (r: seq<int>)
    ensures |r| == |units|
    ensures forall k :: 0 <= k < |r| ==> r[k] == Code(units[k])
  {
    seq(|units|, k requires 0 <= k < |units| => Code(units[k]))
  }

  /** The unit at i is printable and opens nothing where it stands. */
  predicate Ordinary(t: Tables, units: seq<Unit>, i: nat)
    requires i < |units|
  {
    var c := Code(units[i]);
    && units[i].Rune? && t.shown(c) && !OneOf(c, "\\`*[]<>&~@#|$") && (i == 0 ==> c != ' ' as int)
    && (c == '_' as int ==> 0 < i < |units| - 1 && WordRune(t, Code(units[i - 1])) && WordRune(t, Code(units[i + 1])))
    && (OneOf(c, "-+.)") && i + 1 < |units| ==> !t.space(Code(units[i + 1])))
    && (c == ':' as int && i + 1 < |units| ==> Code(units[i + 1]) != '/' as int)
    && (c == '.' as int && i >= 3 ==> !OneOf(Code(units[i - 1]), "wW"))
  }

  /** A value without anything that could open syntax is written as it is. */
  lemma OrdinaryValuesStay(t: Tables, value: seq<Byte>)
    requires forall i :: 0 <= i < |Decode(value)| ==> Ordinary(t, Decode(value), i)
    ensures Escape(t, value) == Codes(Decode(value))
  {
    OrdinaryFrom(t, Decode(value), 0);
    assert Codes(Decode(value))[0..] == Codes(Decode(value));
  }

  lemma {:induction false} OrdinaryFrom(t: Tables, units: seq<Unit>, i: nat)
    requires i <= |units| && forall k :: 0 <= k < |units| ==> Ordinary(t, units, k)
    ensures EscapeFrom(t, units, i) == Codes(units)[i..]
    decreases |units| - i
  {
    if i < |units| {
      OrdinaryFrom(t, units, i + 1);
      EscapeStep(t, units, i);
      OrdinaryIsBare(t, units, i);
      CodesStep(units, i);
    }
  }

  lemma CodesStep(units: seq<Unit>, i: nat)
    requires i < |units|
    ensures Codes(units)[i..] == [Code(units[i])] + Codes(units)[i + 1..]
  {
  }

  lemma OrdinaryIsBare(t: Tables, units: seq<Unit>, i: nat)
    requires i < |units| && Ordinary(t, units, i)
    ensures Piece(t, units, i) == [Code(units[i])]
  {
    var c := Code(units[i]);
    assert !Delimiter(c) by {
      SameCharacters(c);
    }
    assert c != '$' as int by {
      assert "\\`*[]<>&~@#|$"[12] == '$';
    }
    assert Is(units[i], '-') || Is(units[i], '+') || Is(units[i], '.') || Is(units[i], ')') ==> OneOf(c, "-+.)") by {
      var these := "-+.)";
      assert these[0] == '-' && these[1] == '+' && these[2] == '.' && these[3] == ')';
    }
    assert i > 0 && IsW(units[i - 1]) ==> OneOf(Code(units[i - 1]), "wW") by {
      var these := "wW";
      assert these[0] == 'w' && these[1] == 'W';
    }
  }

  lemma SameCharacters(c: int)
    ensures Delimiter(c) <==> OneOf(c, "\\`*[]<>&~@#|")
    ensures Delimiter(c) ==> OneOf(c, "\\`*[]<>&~@#|$")
  {
    var these, more := "\\`*[]<>&~@#|", "\\`*[]<>&~@#|$";
    if Delimiter(c) {
      var k := if c == '\\' as int then 0 else if c == '`' as int then 1 else if c == '*' as int then 2
               else if c == '[' as int then 3 else if c == ']' as int then 4 else if c == '<' as int then 5
               else if c == '>' as int then 6 else if c == '&' as int then 7 else if c == '~' as int then 8
               else if c == '@' as int then 9 else if c == '#' as int then 10 else 11;
      assert these[k] as int == c && more[k] as int == c;
    }
  }

  /** A unit as it is written: bare, or behind a backslash. */
  datatype Written = Written(piece: seq<int>, code: int, bare: bool)

  ghost predicate Plausible(w: Written) {
    if w.bare then w.piece == [w.code] && w.code != BACKSLASH
    else Spelled(w.piece) || w.piece == [BACKSLASH, w.code]
  }

  ghost predicate AllPlausible(ws: seq<Written>) {
    forall k :: 0 <= k < |ws| ==> Plausible(ws[k])
  }

  function Flat(ws: seq<Written>, i: nat): seq<int>
    requires i <= |ws|
    decreases |ws| - i
  {
    if i == |ws| then [] else ws[i].piece + Flat(ws, i + 1)
  }

  function WrittenAs(t: Tables, units: seq<Unit>): (ws: seq<Written>)
    ensures |ws| == |units|
    ensures forall k :: 0 <= k < |ws| ==> ws[k] == Written(Piece(t, units, k), Code(units[k]), Bare(t, units, k))
  {
    seq(|units|, k requires 0 <= k < |units| => Written(Piece(t, units, k), Code(units[k]), Bare(t, units, k)))
  }

  lemma {:induction false} FlatFrom(t: Tables, units: seq<Unit>, i: nat)
    requires i <= |units|
    ensures Flat(WrittenAs(t, units), i) == EscapeFrom(t, units, i)
    decreases |units| - i
  {
    if i < |units| {
      FlatFrom(t, units, i + 1);
      EscapeStep(t, units, i);
      FlatStep(WrittenAs(t, units), i, Written(Piece(t, units, i), Code(units[i]), Bare(t, units, i)));
    }
  }

  lemma FlatStep(ws: seq<Written>, i: nat, w: Written)
    requires i < |ws| && ws[i] == w
    ensures Flat(ws, i) == w.piece + Flat(ws, i + 1)
  {
  }

  /** An escaped value is the concatenation of what its units are written as. */
  lemma EscapeIsFlat(t: Tables, units: seq<Unit>)
    requires Sane(t) && Classes(t)
    ensures EscapeFrom(t, units, 0) == Flat(WrittenAs(t, units), 0) && AllPlausible(WrittenAs(t, units))
  {
    FlatFrom(t, units, 0);
    forall k | 0 <= k < |units| ensures Plausible(WrittenAs(t, units)[k]) {
      PieceKinds(t, units, k);
    }
  }

  ghost predicate Clear(s: seq<int>, m: nat) {
    m <= |s| && forall k :: 0 <= k < m ==> s[k] != BACKSLASH
  }

  /** The first m runes of out are bare units, from i on. */
  ghost predicate Copies(ws: seq<Written>, i: nat, out: seq<int>, m: nat) {
    && m <= |out| && i + m <= |ws|
    && forall k :: i <= k < i + m ==> ws[k].bare && ws[k].code == out[k - i]
  }

  /** Up to m runes without a backslash are the units themselves. */
  lemma {:induction false} BarePrefix(ws: seq<Written>, i: nat, out: seq<int>, m: nat)
    requires AllPlausible(ws) && i <= |ws| && out == Flat(ws, i) && Clear(out, m)
    ensures Copies(ws, i, out, m) && (m == |out| ==> i + m == |ws|)
    decreases m
  {
    if m == 0 {
      assert i < |ws| ==> Plausible(ws[i]);
    } else {
      assert Plausible(ws[i]);
      assert out[0] == ws[i].piece[0];
      assert out[1..] == Flat(ws, i + 1);
      BarePrefix(ws, i + 1, out[1..], m - 1);
    }
  }

  lemma {:induction false} BareFrom(ws: seq<Written>, i: nat, out: seq<int>)
    requires AllPlausible(ws) && i <= |ws| && out == Flat(ws, i) && forall k :: 0 <= k < |ws| ==> ws[k].bare
    ensures |out| == |ws| - i && Copies(ws, i, out, |out|)
    decreases |ws| - i
  {
    if i < |ws| {
      assert Plausible(ws[i]);
      assert out == [ws[i].code] + Flat(ws, i + 1);
      assert out[1..] == Flat(ws, i + 1);
      BareFrom(ws, i + 1, out[1..]);
    }
  }

  ghost predicate AllBare(t: Tables, units: seq<Unit>) {
    forall k :: 0 <= k < |units| ==> Bare(t, units, k)
  }

  /** Units that are all bare are written as they are. */
  lemma BareStays(t: Tables, units: seq<Unit>)
    requires Sane(t) && Classes(t) && AllBare(t, units)
    ensures EscapeFrom(t, units, 0) == Codes(units)
  {
    EscapeIsFlat(t, units);
    BareFrom(WrittenAs(t, units), 0, EscapeFrom(t, units, 0));
  }

  /** What is written without a backslash are the units themselves. */
  lemma ClearStays(t: Tables, units: seq<Unit>, m: nat)
    requires Sane(t) && Classes(t) && Clear(EscapeFrom(t, units, 0), m)
    ensures m <= |units| && Codes(units)[..m] == EscapeFrom(t, units, 0)[..m]
    ensures forall k :: 0 <= k < m ==> Bare(t, units, k)
    ensures m == |EscapeFrom(t, units, 0)| ==> AllBare(t, units) && Codes(units) == EscapeFrom(t, units, 0)
  {
    EscapeIsFlat(t, units);
    BarePrefix(WrittenAs(t, units), 0, EscapeFrom(t, units, 0), m);
  }

  // ----- The two loops -----

  method DecodeRunes(value: seq<Byte>) returns (units: seq<Unit>)
    ensures units == Decode(value)
  {
    units := [];
    var rest := value;
    while rest != []
      invariant units + Decode(rest) == Decode(value)
      decreases |rest|
    {
      assert Decode(rest) == [DecodeUnit(rest)] + Decode(rest[UnitSize(rest)..]);
      units := units + [DecodeUnit(rest)];
      rest := rest[UnitSize(rest)..];
    }
  }

  /** Writes one unit. */
  method WriteUnit(t: Tables, units: seq<Unit>, i: nat) returns (piece: seq<int>)
    requires i < |units|
    ensures piece == Piece(t, units, i)
  {
    if units[i].Invalid? {
      return HexEscape(units[i].byte);
    }
    var r := units[i].code;
    if !t.shown(r) {
      return Quoted(r);
    }
    if r == '$' as int {
      return HexEscape('$' as int);
    }
    if i == 0 && Indented(units) {
      return HexEscape(' ' as int);
    }
    piece := [];
    if Opens(t, units, i) {
      piece := piece + [BACKSLASH];
    }
    piece := piece + [r];
  }

  /** Writes every unit of a value in its harmless form. */
  method EscapeValue(t: Tables, value: seq<Byte>) returns (escaped: seq<int>)
    requires Sane(t)
    ensures escaped == Escape(t, value)
    ensures Unescape(escaped) == value && AllHarmless(t, escaped)
  {
    var units := DecodeRunes(value);
    escaped := [];
    for i := 0 to |units|
      invariant escaped + EscapeFrom(t, units, i) == Escape(t, value)
    {
      var piece := WriteUnit(t, units, i);
      Associate(escaped, piece, EscapeFrom(t, units, i + 1));
      escaped := escaped + piece;
    }
    EscapeIsReversible(t, value);
    EscapeIsHarmless(t, value);
  }

  lemma Associate<T>(a: seq<T>, b: seq<T>, c: seq<T>)
    ensures a + (b + c) == a + b + c
  {
  }
}
