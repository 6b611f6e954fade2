/** What the tokens of the fixture splitter are, told by the bytes that spell them
    (internal/fixture/sql.go). */
module SqlTokens {
  import opened Options
  import opened SqlSplit

  predicate Starts(s: string, mark: string) {
    |mark| <= |s| && s[..|mark|] == mark
  }

  // ----- Quotes -----

  /** What stands inside quotes: bytes, bytes behind a backslash, and doubled quotes. */
  datatype Piece = Plain(byte: char) | Escape(byte: char) | Double

  /** Behind a backtick a backslash is a plain byte. */
  predicate Fits(quote: char, p: Piece) {
    match p
    case Plain(c) => c != quote && (c == '\\' ==> quote == '`')
    case Escape(_) => quote != '`'
    case Double => true
  }

  predicate AllFit(quote: char, ps: seq<Piece>) {
    forall i :: 0 <= i < |ps| ==> Fits(quote, ps[i])
  }

  function Spell(quote: char, p: Piece): string {
    match p
    case Plain(c) => [c]
    case Escape(c) => ['\\', c]
    case Double => [quote, quote]
  }

  function SpellAll(quote: char, ps: seq<Piece>): string {
    if ps == [] then "" else Spell(quote, ps[0]) + SpellAll(quote, ps[1..])
  }

  /** s is the pieces between two quotes. */
  predicate Quotes(s: string, ps: seq<Piece>) {
    s != "" && s[0] in "'\"`" && AllFit(s[0], ps) && s == [s[0]] + SpellAll(s[0], ps) + [s[0]]
  }

  lemma {:induction false} TailReads(quote: char, ps: seq<Piece>, w: string)
    requires IsQuote(quote) && AllFit(quote, ps) && (w == "" || w[0] != quote)
    ensures QuoteTail(SpellAll(quote, ps) + [quote] + w, quote) == Some(|SpellAll(quote, ps)| + 1)
  {
    var s := SpellAll(quote, ps) + [quote] + w;
    if ps == [] {
      assert s == [quote] + w;
      assert QuoteUnit(s, quote) == 0;
    } else {
      var first, rest := Spell(quote, ps[0]), SpellAll(quote, ps[1..]);
      assert s == first + (rest + [quote] + w);
      assert Fits(quote, ps[0]);
      assert QuoteUnit(s, quote) == |first|;
      assert s[|first|..] == rest + [quote] + w;
      TailReads(quote, ps[1..], w);
    }
  }

  lemma {:induction false} TailSpelled(quote: char, s: string) returns (ps: seq<Piece>)
    requires IsQuote(quote) && QuoteTail(s, quote).Some?
    ensures AllFit(quote, ps)
    ensures var n := QuoteTail(s, quote).value;
            s[..n] == SpellAll(quote, ps) + [quote] && (n < |s| ==> s[n] != quote)
  {
    var n := QuoteUnit(s, quote);
    QuoteTailStep(s, quote);
    if n == 0 {
      ps := [];
      assert s[..1] == [quote];
    } else {
      var p := PieceOf(quote, s);
      var rest := TailSpelled(quote, s[n..]);
      ps := [p] + rest;
      SpellFirst(quote, p, rest);
      TakeOn(s, n, QuoteTail(s[n..], quote).value);
    }
  }

  lemma SpellFirst(quote: char, p: Piece, rest: seq<Piece>)
    ensures SpellAll(quote, [p] + rest) + [quote] == Spell(quote, p) + (SpellAll(quote, rest) + [quote])
  {
    assert ([p] + rest)[1..] == rest;
  }

  lemma TakeOn(s: string, n: nat, m: nat)
    requires n + m <= |s|
    ensures s[..n + m] == s[..n] + s[n..][..m]
  {
  }

  lemma LoneBackslash(s: string, quote: char)
    requires |s| == 1 && s[0] == '\\' && IsQuote(quote) && quote != '`'
    ensures QuoteTail(s, quote) == None
  {
    QuoteTailStep(s, quote);
    assert s[1..] == "" && QuoteTail("", quote) == None;
  }

  lemma PieceOf(quote: char, s: string) returns (p: Piece)
    requires IsQuote(quote) && QuoteTail(s, quote).Some? && QuoteUnit(s, quote) > 0
    ensures Fits(quote, p) && Spell(quote, p) == s[..QuoteUnit(s, quote)]
  {
    if s[0] == '\\' && quote != '`' {
      if |s| == 1 {
        LoneBackslash(s, quote);
        assert false;
      }
      p := Escape(s[1]);
    } else if s[0] == quote {
      p := Double;
    } else {
      p := Plain(s[0]);
    }
  }

  /** A quoted token is pieces between two quotes that no further quote follows. */
  lemma QuotedIsSpelled(s: string, n: nat)
    requires s != ""
    ensures Next(s) == Token(Quoted, n) <==>
            n <= |s| && (exists ps :: Quotes(s[..n], ps)) && (n < |s| ==> s[n] != s[0])
  {
    if Next(s) == Token(Quoted, n) {
      var ps := QuotedPieces(s);
    }
    if n <= |s| && (exists ps :: Quotes(s[..n], ps)) && (n < |s| ==> s[n] != s[0]) {
      var ps :| Quotes(s[..n], ps);
      PiecesQuoted(s, n, ps);
    }
  }

  lemma QuotedPieces(s: string) returns (ps: seq<Piece>)
    requires s != "" && Next(s).Token? && Next(s).kind == Quoted
    ensures var n := Next(s).length; Quotes(s[..n], ps) && (n < |s| ==> s[n] != s[0])
  {
    var q, n := s[0], Next(s).length;
    ps := TailSpelled(q, s[1..]);
    TakeOn(s, 1, n - 1);
    Associate([q], SpellAll(q, ps), [q]);
    assert s[..1] == [q] && s[..n] == [q] + (SpellAll(q, ps) + [q]);
    assert n < |s| ==> s[n] == s[1..][n - 1];
  }

  lemma PiecesQuoted(s: string, n: nat, ps: seq<Piece>)
    requires n <= |s| && Quotes(s[..n], ps) && (n < |s| ==> s[n] != s[0])
    ensures Next(s) == Token(Quoted, n)
  {
    var q := s[0];
    assert s[..n][0] == q;
    TailReads(q, ps, s[n..]);
    Cut(s, n);
    Associate([q], SpellAll(q, ps) + [q], s[n..]);
    Associate([q], SpellAll(q, ps), [q]);
    assert s == [q] + (SpellAll(q, ps) + [q] + s[n..]);
    assert s[1..] == SpellAll(q, ps) + [q] + s[n..];
  }

  /** Puts a backslash before every backslash and quote. */
  function Backslashed(quote: char, text: string): string {
    if text == "" then ""
    else (if text[0] == quote || text[0] == '\\' then ['\\', text[0]] else [text[0]])
         + Backslashed(quote, text[1..])
  }

  /** Doubles every quote, and every backslash but behind a backtick. */
  function Doubled(quote: char, text: string): string {
    if text == "" then ""
    else (if text[0] == quote || (text[0] == '\\' && quote != '`') then [text[0], text[0]] else [text[0]])
         + Doubled(quote, text[1..])
  }

  lemma {:induction false} BackslashedPieces(quote: char, text: string) returns (ps: seq<Piece>)
    requires quote == '\'' || quote == '"'
    ensures AllFit(quote, ps) && SpellAll(quote, ps) == Backslashed(quote, text)
  {
    if text == "" {
      ps := [];
    } else {
      var rest := BackslashedPieces(quote, text[1..]);
      ps := [if text[0] == quote || text[0] == '\\' then Escape(text[0]) else Plain(text[0])] + rest;
      assert ps[1..] == rest;
    }
  }

  lemma {:induction false} DoubledPieces(quote: char, text: string) returns (ps: seq<Piece>)
    requires quote in "'\"`"
    ensures AllFit(quote, ps) && SpellAll(quote, ps) == Doubled(quote, text)
  {
    if text == "" {
      ps := [];
    } else {
      var rest := DoubledPieces(quote, text[1..]);
      var p := if text[0] == quote then Double
               else if text[0] == '\\' && quote != '`' then Escape('\\') else Plain(text[0]);
      ps := [p] + rest;
      assert ps[1..] == rest;
    }
  }

  lemma LiteralIsOneToken(quote: char, ps: seq<Piece>, w: string)
    requires quote in "'\"`" && AllFit(quote, ps) && (w == "" || w[0] != quote)
    ensures var s := [quote] + SpellAll(quote, ps) + [quote];
            Next(s + w) == Token(Quoted, |s|) && Statements(s) == Ok([s])
  {
    var s := [quote] + SpellAll(quote, ps) + [quote];
    assert Quotes(s, ps);
    assert (s + w)[..|s|] == s;
    QuotedIsSpelled(s + w, |s|);
    assert s[..|s|] == s;
    QuotedIsSpelled(s, |s|);
    QuotedStands(s);
  }

  /** A quoted token alone is one statement. */
  lemma QuotedStands(s: string)
    requires s != "" && Next(s) == Token(Quoted, |s|) && IsQuote(s[0]) && IsQuote(s[|s| - 1])
    ensures Statements(s) == Ok([s])
  {
    assert s[|s|..] == "" && "" + s == s;
    assert Runs(s[|s|..], 0);
    SplitRun(s, "", false);
    QuotesStay(s);
  }

  /** No white space is cut off a text that begins and ends with quotes. */
  lemma QuotesStay(s: string)
    requires s != "" && IsQuote(s[0]) && IsQuote(s[|s| - 1])
    ensures Trim(s) == s
  {
    forall k | 1 <= k <= |s| ensures !IsSpaceRune(s[..k]) && !IsSpaceRune(s[|s| - k..]) {
      assert s[..k][0] == s[0] && s[|s| - k..][k - 1] == s[|s| - 1];
      NoSpace(s[..k]);
      NoSpace(s[|s| - k..]);
    }
    assert SpaceSuffix(s) == 0;
  }

  lemma NoSpace(s: string)
    requires s != "" && (IsQuote(s[0]) || IsQuote(s[|s| - 1]))
    ensures !IsSpaceRune(s)
  {
  }

  /** Any text in single or double quotes, with a backslash before every backslash and quote,
      is one quoted token, and alone one statement. */
  lemma BackslashedTextIsOneToken(quote: char, text: string, w: string)
    requires quote == '\'' || quote == '"'
    requires w == "" || w[0] != quote
    ensures var s := [quote] + Backslashed(quote, text) + [quote];
            Next(s + w) == Token(Quoted, |s|) && Statements(s) == Ok([s])
  {
    var ps := BackslashedPieces(quote, text);
    LiteralIsOneToken(quote, ps, w);
  }

  /** So is any text in any quotes with its quotes and backslashes doubled. */
  lemma DoubledTextIsOneToken(quote: char, text: string, w: string)
    requires quote in "'\"`" && (w == "" || w[0] != quote)
    ensures var s := [quote] + Doubled(quote, text) + [quote];
            Next(s + w) == Token(Quoted, |s|) && Statements(s) == Ok([s])
  {
    var ps := DoubledPieces(quote, text);
    LiteralIsOneToken(quote, ps, w);
  }

  /** A backslash never hides the closing backtick: the first backtick closes the name. */
  lemma NoBackslashHidesBacktick(name: string, w: string)
    requires '`' !in name && (w == "" || w[0] != '`')
    ensures Next("`" + name + "`" + w) == Token(Quoted, |name| + 2)
  {
    var ps := DoubledPieces('`', name);
    DoubledPlain(name);
    LiteralIsOneToken('`', ps, w);
  }

  lemma {:induction false} DoubledPlain(name: string)
    requires '`' !in name
    ensures Doubled('`', name) == name
  {
    if name != "" {
      DoubledPlain(name[1..]);
    }
  }

  // ----- Comments -----

  /** Where a line comment begins, and how long its mark is. */
  function LineMark(s: string): (n: nat) {
    if Starts(s, "#") then 1
    else if Starts(s, "--") && (|s| == 2 || s[2] <= ' ') then 2
    else 0
  }

  /** The first line end from position from on is the last of the n bytes, or there is none. */
  predicate LineEndsAt(s: string, from: nat, n: nat) {
    && from <= n <= |s|
    && (forall i :: from <= i < n - 1 ==> s[i] !in "\n\r")
    && (n < |s| ==> n > from && s[n - 1] in "\n\r")
  }

  /** The first closing mark behind the opening one is the last of the n bytes. */
  predicate BlockEndsAt(s: string, n: nat) {
    4 <= n <= |s| && Closes(s, n - 2) && forall i :: 2 <= i < n - 2 ==> !Closes(s, i)
  }

  predicate Closes(s: string, i: nat) {
    i + 1 < |s| && s[i] == '*' && s[i + 1] == '/'
  }

  lemma {:induction false} LineTailMeans(s: string, from: nat, n: nat)
    requires from <= |s|
    ensures from + LineTail(s[from..]) == n <==> LineEndsAt(s, from, n)
    decreases |s| - from
  {
    if from < |s| {
      assert s[from..][1..] == s[from + 1..];
      LineTailMeans(s, from + 1, n);
      if EndsLine(s[from]) {
        assert LineTail(s[from..]) == 1;
        assert LineEndsAt(s, from, n) ==> n <= from + 1;
      } else {
        assert LineEndsAt(s, from, n) ==> n > from;
        assert LineEndsAt(s, from, n) <==> LineEndsAt(s, from + 1, n);
      }
    }
  }

  lemma BlockTailMeans(s: string, n: nat)
    requires Starts(s, "/*")
    ensures BlockTail(s[2..]) == Some(n) <==> BlockEndsAt(s, n + 2)
  {
    var rest := s[2..];
    BlockTailIsFirst(rest);
    forall i | 2 <= i < |s| ensures Closes(s, i) <==> Closes(rest, i - 2) {
    }
    if BlockTail(rest) == Some(n) {
      assert Closes(rest, n - 2);
    }
    if BlockEndsAt(s, n + 2) {
      assert Closes(rest, n - 2);
      var m := BlockTail(rest).value;
      assert Closes(rest, m - 2);
      assert Closes(s, m);
    }
  }

  // ----- All tokens -----

  /** The bytes of s begin with a token of n bytes of this kind. */
  ghost predicate Spelled(s: string, kind: Kind, n: nat) {
    s != "" && 0 < n <= |s| &&
    match kind
    case Semicolon => s[0] == ';' && n == 1
    case Quoted => (exists ps :: Quotes(s[..n], ps)) && (n < |s| ==> s[n] != s[0])
    case LineComment => LineMark(s) > 0 && LineEndsAt(s, LineMark(s), n)
    case BlockComment(executable) =>
      Starts(s, "/*") && BlockEndsAt(s, n) && executable == Starts(s, "/*!")
    case Word => s[0] > ' ' && n == 1 && s[0] !in ";'\"`" && LineMark(s) == 0 && !Starts(s, "/*")
    case Blank => s[0] <= ' ' && n == 1
  }

  lemma Firsts(s: string)
    requires s != ""
    ensures (Starts(s, "#") <==> s[0] == '#') && (Starts(s, "--") <==> |s| > 1 && s[0] == '-' && s[1] == '-')
    ensures Starts(s, "/*") <==> |s| > 1 && s[0] == '/' && s[1] == '*'
    ensures Starts(s, "/*!") <==> |s| > 2 && s[0] == '/' && s[1] == '*' && s[2] == '!'
    ensures IsQuote(s[0]) <==> s[0] in "'\"`"
  {
    assert s[..1] == [s[0]];
    assert |s| > 1 ==> s[..2] == [s[0], s[1]];
    assert |s| > 2 ==> s[..3] == [s[0], s[1], s[2]];
  }

  lemma OnlyQuotesQuote(s: string, n: nat, ps: seq<Piece>)
    requires n <= |s| && Quotes(s[..n], ps)
    ensures IsQuote(s[0])
  {
    assert s[..n][0] == s[0];
  }

  /** The scanner takes a token of this kind and length exactly when the bytes spell it. */
  lemma TokensAreSpelled(s: string, kind: Kind, n: nat)
    requires s != ""
    ensures Next(s) == Token(kind, n) <==> Spelled(s, kind, n)
  {
    Firsts(s);
    QuotedIsSpelled(s, n);
    forall ps | n <= |s| && Quotes(s[..n], ps) ensures IsQuote(s[0]) {
      OnlyQuotesQuote(s, n, ps);
    }
    if LineMark(s) > 0 {
      LineTailMeans(s, LineMark(s), n);
    } else if Starts(s, "/*") && n >= 2 {
      BlockTailMeans(s, n - 2);
    }
  }

  /** It fails exactly on an opening mark that no token begins with, and names the mark. */
  lemma OtherwiseUnterminated(s: string, fault: Fault)
    requires s != ""
    ensures Next(s) == Unterminated(fault) <==>
            && !(exists kind, n :: Spelled(s, kind, n))
            && match fault
               case UnterminatedSingle => s[0] == '\''
               case UnterminatedDouble => s[0] == '"'
               case UnterminatedBacktick => s[0] == '`'
               case UnterminatedBlock => Starts(s, "/*")
  {
    Firsts(s);
    forall kind, n | Spelled(s, kind, n) ensures Next(s) == Token(kind, n) {
      TokensAreSpelled(s, kind, n);
    }
    if Next(s).Token? {
      TokensAreSpelled(s, Next(s).kind, Next(s).length);
    }
  }

  /** A token can be executed exactly when it is quoted, an executable comment, or a byte above
      the blank that begins nothing else. */
  lemma ExecutableTokens(s: string)
    requires s != "" && Next(s).Token?
    ensures Executable(Next(s).kind) <==>
            s[0] in "'\"`" || Starts(s, "/*!") ||
            (s[0] > ' ' && s[0] != ';' && LineMark(s) == 0 && !Starts(s, "/*"))
  {
    Firsts(s);
  }

  // ----- White space -----

  /** The code points of white space. */
  predicate IsSpace(c: nat) {
    || 0x9 <= c <= 0xD || c == 0x20 || c == 0x85 || c == 0xA0 || c == 0x1680
    || 0x2000 <= c <= 0x200A || c == 0x2028 || c == 0x2029 || c == 0x202F || c == 0x205F || c == 0x3000
  }

  /** UTF-8, section 3 of RFC 3629, for code points below U+10000. */
  function Utf8(c: nat): string
    requires c < 0xD800
  {
    if c < 0x80 then [c as char]
    else if c < 0x800 then [(0xC0 + c / 0x40) as char, (0x80 + c % 0x40) as char]
    else [(0xE0 + c / 0x1000) as char, (0x80 + c / 0x40 % 0x40) as char, (0x80 + c % 0x40) as char]
  }

  /** The bytes of white space are the encodings of its code points. */
  lemma SpaceRunes(s: string)
    ensures IsSpaceRune(s) <==> exists c :: IsSpace(c) && s == Utf8(c)
  {
    if IsSpaceRune(s) {
      var c := RuneOf(s);
    }
    forall c | IsSpace(c) && s == Utf8(c) ensures IsSpaceRune(s) {
      SpaceEncoded(c);
    }
  }

  lemma RuneOf(s: string) returns (c: nat)
    requires IsSpaceRune(s)
    ensures IsSpace(c) && s == Utf8(c)
  {
    if |s| == 1 {
      c := s[0] as int;
    } else if |s| == 2 {
      c := s[1] as int;
    } else {
      c := (s[0] as int - 0xE0) * 0x1000 + (s[1] as int - 0x80) * 0x40 + (s[2] as int - 0x80);
    }
  }

  lemma SpaceEncoded(c: nat)
    requires IsSpace(c)
    ensures IsSpaceRune(Utf8(c))
  {
  }

  predicate AllSpace(cs: seq<nat>) {
    forall i :: 0 <= i < |cs| ==> IsSpace(cs[i])
  }

  function Encoded(cs: seq<nat>): string
    requires AllSpace(cs)
  {
    if cs == [] then "" else Utf8(cs[0]) + Encoded(cs[1..])
  }

  lemma {:induction false} EncodedLast(cs: seq<nat>, c: nat)
    requires AllSpace(cs) && IsSpace(c)
    ensures Encoded(cs + [c]) == Encoded(cs) + Utf8(c)
  {
    if cs == [] {
      assert cs + [c] == [c] && [c][1..] == [];
    } else {
      assert (cs + [c])[1..] == cs[1..] + [c];
      EncodedLast(cs[1..], c);
      Associate(Utf8(cs[0]), Encoded(cs[1..]), Utf8(c));
    }
  }

  lemma {:induction false} LeadingRunes(s: string) returns (cs: seq<nat>)
    ensures AllSpace(cs) && s == Encoded(cs) + TrimLeft(s)
  {
    var n := SpacePrefix(s);
    if n == 0 {
      cs := [];
    } else {
      var c := RuneOf(s[..n]);
      var rest := LeadingRunes(s[n..]);
      cs := [c] + rest;
      assert cs[1..] == rest;
      Cut(s, n);
      Associate(Utf8(c), Encoded(rest), TrimLeft(s));
    }
  }

  lemma {:induction false} ClosingRunes(s: string) returns (cs: seq<nat>)
    ensures AllSpace(cs) && s == TrimRight(s) + Encoded(cs)
  {
    var n := SpaceSuffix(s);
    if n == 0 {
      cs := [];
    } else {
      var k := |s| - n;
      var c := RuneOf(s[k..]);
      var rest := ClosingRunes(s[..k]);
      cs := rest + [c];
      EncodedBehind(s[..k], TrimRight(s[..k]), rest, c);
      Cut(s, k);
    }
  }

  lemma EncodedBehind(s: string, t: string, cs: seq<nat>, c: nat)
    requires AllSpace(cs) && IsSpace(c) && s == t + Encoded(cs)
    ensures s + Utf8(c) == t + Encoded(cs + [c])
  {
    EncodedLast(cs, c);
    Associate(t, Encoded(cs), Utf8(c));
  }

  predicate Ends(s: string, rune: string) {
    |rune| <= |s| && s[|s| - |rune|..] == rune
  }

  /** Trimming takes white-space runes off both ends until neither end is one. */
  lemma TrimTakesSpace(s: string) returns (lead: seq<nat>, trail: seq<nat>)
    ensures AllSpace(lead) && AllSpace(trail) && s == Encoded(lead) + Trim(s) + Encoded(trail)
    ensures forall c :: IsSpace(c) ==> !Starts(Trim(s), Utf8(c)) && !Ends(Trim(s), Utf8(c))
  {
    lead := LeadingRunes(s);
    trail := ClosingRunes(TrimLeft(s));
    Associate(Encoded(lead), Trim(s), Encoded(trail));
    var before := TrimLeftParts(s);
    var behind := TrimRightParts(TrimLeft(s));
    PrefixStaysSolid(Trim(s), behind);
    forall c | IsSpace(c) ensures !Starts(Trim(s), Utf8(c)) && !Ends(Trim(s), Utf8(c)) {
      SolidEnds(Trim(s), c);
    }
  }

  lemma SolidEnds(t: string, c: nat)
    requires SpacePrefix(t) == 0 && SpaceSuffix(t) == 0 && IsSpace(c)
    ensures !Starts(t, Utf8(c)) && !Ends(t, Utf8(c))
  {
    SpaceEncoded(c);
    var n := |Utf8(c)|;
    if n <= |t| {
      assert !IsSpaceRune(t[..n]);
      assert n == 1 || n == 2 || n == 3;
      assert !IsSpaceRune(t[|t| - n..]);
    }
  }
}
