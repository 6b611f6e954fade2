/** Splitting a fixture file into SQL statements (internal/fixture/sql.go).  Text is a
    string of bytes, each written as the character with that code. */
module SqlSplit {
  import opened Options

  datatype Fault = UnterminatedSingle | UnterminatedDouble | UnterminatedBacktick | UnterminatedBlock

  datatype Result = Ok(statements: seq<string>) | Err(fault: Fault)

  // ----- Trimming -----

  /** The bytes of the white-space rune that begins or ends text, if any. */
  predicate IsSpaceRune(s: string) {
    || (|s| == 1 && ('\t' <= s[0] <= '\r' || s[0] == ' '))
    || (|s| == 2 && s[0] == '\U{C2}' && (s[1] == '\U{85}' || s[1] == '\U{A0}'))
    || (|s| == 3 && s[0] == '\U{E1}' && s[1] == '\U{9A}' && s[2] == '\U{80}')
    || (|s| == 3 && s[0] == '\U{E2}' && s[1] == '\U{80}'
        && ('\U{80}' <= s[2] <= '\U{8A}' || s[2] == '\U{A8}' || s[2] == '\U{A9}' || s[2] == '\U{AF}'))
    || (|s| == 3 && s[0] == '\U{E2}' && s[1] == '\U{81}' && s[2] == '\U{9F}')
    || (|s| == 3 && s[0] == '\U{E3}' && s[1] == '\U{80}' && s[2] == '\U{80}')
  }

  function SpacePrefix(s: string): (n: nat)
    ensures n <= |s|
    ensures n > 0 ==> IsSpaceRune(s[..n])
    ensures n == 0 ==> forall k :: 1 <= k <= 3 && k <= |s| ==> !IsSpaceRune(s[..k])
  {
    if |s| >= 1 && IsSpaceRune(s[..1]) then 1
    else if |s| >= 2 && IsSpaceRune(s[..2]) then 2
    else if |s| >= 3 && IsSpaceRune(s[..3]) then 3
    else 0
  }

  function SpaceSuffix(s: string): (n: nat)
    ensures n <= |s|
    ensures n > 0 ==> IsSpaceRune(s[|s| - n..])
  {
    if |s| >= 1 && IsSpaceRune(s[|s| - 1..]) then 1
    else if |s| >= 2 && IsSpaceRune(s[|s| - 2..]) then 2
    else if |s| >= 3 && IsSpaceRune(s[|s| - 3..]) then 3
    else 0
  }

  function TrimLeft(s: string): (r: string)
    ensures |r| <= |s|
  {
    var n := SpacePrefix(s);
    if n == 0 then s else TrimLeft(s[n..])
  }

  function TrimRight(s: string): (r: string)
    ensures |r| <= |s|
  {
    var n := SpaceSuffix(s);
    if n == 0 then s else TrimRight(s[..|s| - n])
  }

  function Trim(s: string): string {
    TrimRight(TrimLeft(s))
  }

  /** Bytes that mean nothing to the scanner: controls, blanks and non-ASCII bytes. */
  predicate Inert(s: string) {
    forall i :: 0 <= i < |s| ==> s[i] <= ' ' || s[i] >= '\U{80}'
  }

  lemma SpaceIsInert(s: string)
    requires IsSpaceRune(s)
    ensures Inert(s)
  {
  }

  lemma InertAppend(a: string, b: string)
    requires Inert(a) && Inert(b)
    ensures Inert(a + b)
  {
  }

  lemma Cut(s: string, k: nat)
    requires k <= |s|
    ensures s[..k] + s[k..] == s
  {
  }

  lemma Associate(a: string, b: string, c: string)
    ensures a + b + c == a + (b + c)
  {
  }

  lemma {:induction false} TrimLeftParts(s: string) returns (lead: string)
    ensures s == lead + TrimLeft(s) && Inert(lead)
    ensures SpacePrefix(TrimLeft(s)) == 0
  {
    var n := SpacePrefix(s);
    if n == 0 {
      lead := "";
    } else {
      var rest := TrimLeftParts(s[n..]);
      lead := s[..n] + rest;
      SpaceIsInert(s[..n]);
      InertAppend(s[..n], rest);
      Cut(s, n);
      Associate(s[..n], rest, TrimLeft(s));
    }
  }

  lemma {:induction false} TrimRightParts(s: string) returns (trail: string)
    ensures s == TrimRight(s) + trail && Inert(trail)
    ensures SpaceSuffix(TrimRight(s)) == 0
  {
    var n := SpaceSuffix(s);
    if n == 0 {
      trail := "";
    } else {
      var k := |s| - n;
      var rest := TrimRightParts(s[..k]);
      trail := rest + s[k..];
      SpaceIsInert(s[k..]);
      InertAppend(rest, s[k..]);
      Cut(s, k);
      Associate(TrimRight(s), rest, s[k..]);
    }
  }

  lemma PrefixStaysSolid(s: string, t: string)
    requires SpacePrefix(s + t) == 0
    ensures SpacePrefix(s) == 0
  {
    forall k | 1 <= k <= 3 && k <= |s| ensures !IsSpaceRune(s[..k]) {
      assert s[..k] == (s + t)[..k];
    }
  }

  /** Trimming cuts inert bytes off both ends and does nothing twice. */
  lemma TrimParts(s: string) returns (lead: string, trail: string)
    ensures s == lead + (Trim(s) + trail) && Inert(lead) && Inert(trail)
    ensures |lead| == |s| - |TrimLeft(s)| && Trim(Trim(s)) == Trim(s)
  {
    lead := TrimLeftParts(s);
    trail := TrimRightParts(TrimLeft(s));
    PrefixStaysSolid(Trim(s), trail);
  }

  // ----- Tokens -----

  datatype Kind = Semicolon | Word | Blank | Quoted | LineComment | BlockComment(executable: bool)

  predicate Executable(kind: Kind) {
    kind.Word? || kind.Quoted? || (kind.BlockComment? && kind.executable)
  }

  datatype Lexed = Token(kind: Kind, length: nat) | Unterminated(fault: Fault)

  predicate IsQuote(c: char) {
    c == '\'' || c == '"' || c == '`'
  }

  function QuoteFault(quote: char): Fault {
    if quote == '\'' then UnterminatedSingle else if quote == '"' then UnterminatedDouble else UnterminatedBacktick
  }

  /** How many bytes one unit inside quotes takes: an escape, a doubled quote, or a byte.
      Nothing for the closing quote.  Backticks know no escapes. */
  function QuoteUnit(s: string, quote: char): (n: nat)
    requires s != ""
    ensures n <= 2 && n <= |s|
  {
    if s[0] == '\\' && quote != '`' && |s| > 1 then 2
    else if s[0] != quote then 1
    else if |s| > 1 && s[1] == quote then 2
    else 0
  }

  function Plus(n: nat, r: Option<nat>): Option<nat> {
    if r.Some? then Some(n + r.value) else None
  }

  /** The bytes up to and including the closing quote. */
  function QuoteTail(s: string, quote: char): (r: Option<nat>)
    ensures r.Some? ==> 1 <= r.value <= |s|
  {
    if s == "" then None
    else
      var n := QuoteUnit(s, quote);
      if n == 0 then Some(1) else Plus(n, QuoteTail(s[n..], quote))
  }

  predicate EndsLine(c: char) {
    c == '\n' || c == '\r'
  }

  /** The bytes through the end of the line. */
  function LineTail(s: string): (n: nat)
    ensures n <= |s|
  {
    if s == "" then 0 else if EndsLine(s[0]) then 1 else 1 + LineTail(s[1..])
  }

  /** The bytes through the closing mark of a block comment. */
  function BlockTail(s: string): (r: Option<nat>)
    ensures r.Some? ==> 2 <= r.value <= |s|
  {
    if |s| < 2 then None
    else if s[0] == '*' && s[1] == '/' then Some(2)
    else Plus(1, BlockTail(s[1..]))
  }

  predicate DashComment(s: string) {
    |s| >= 2 && s[0] == '-' && s[1] == '-' && (|s| == 2 || s[2] <= ' ')
  }

  function Next(s: string): (r: Lexed)
    requires s != ""
    ensures r.Token? ==> 1 <= r.length <= |s|
  {
    var c := s[0];
    if c == ';' then Token(Semicolon, 1)
    else if IsQuote(c) then
      var tail := QuoteTail(s[1..], c);
      if tail.Some? then Token(Quoted, 1 + tail.value) else Unterminated(QuoteFault(c))
    else if c == '#' then Token(LineComment, 1 + LineTail(s[1..]))
    else if DashComment(s) then Token(LineComment, 2 + LineTail(s[2..]))
    else if c == '/' && |s| > 1 && s[1] == '*' then
      var tail := BlockTail(s[2..]);
      if tail.Some? then Token(BlockComment(|s| > 2 && s[2] == '!'), 2 + tail.value)
      else Unterminated(UnterminatedBlock)
    else Token(if c > ' ' then Word else Blank, 1)
  }

  // ----- Statements -----

  function Emit(text: string, live: bool): seq<string> {
    if live && Trim(text) != "" then [Trim(text)] else []
  }

  function Before(statements: seq<string>, r: Result): Result {
    if r.Ok? then Ok(statements + r.statements) else r
  }

  /** The statements of s, when text has been read of the current one and live says
      whether it has an executable token yet. */
  function Split(s: string, text: string, live: bool): Result
    decreases |s|
  {
    if s == "" then Ok(Emit(text, live))
    else
      match Next(s)
      case Unterminated(fault) => Err(fault)
      case Token(kind, n) =>
        if kind == Semicolon then Before(Emit(text, live), Split(s[1..], "", false))
        else Split(s[n..], text + s[..n], live || Executable(kind))
  }

  function Statements(source: string): Result {
    Split(source, "", false)
  }

  // ----- What a token covers -----

  /** A block comment ends at the first closing mark. */
  lemma {:induction false} BlockTailIsFirst(s: string)
    ensures BlockTail(s).Some? ==> s[BlockTail(s).value - 2] == '*' && s[BlockTail(s).value - 1] == '/'
    ensures forall i :: 0 <= i < |s| - 1 && s[i] == '*' && s[i + 1] == '/' ==>
              BlockTail(s).Some? && BlockTail(s).value <= i + 2
  {
    if |s| >= 2 && !(s[0] == '*' && s[1] == '/') {
      var rest := s[1..];
      BlockTailIsFirst(rest);
      forall i | 0 <= i < |s| - 1 && s[i] == '*' && s[i + 1] == '/'
        ensures BlockTail(s).Some? && BlockTail(s).value <= i + 2
      {
        assert rest[i - 1] == s[i] && rest[i] == s[i + 1];
      }
    }
  }

  lemma {:induction false} QuoteTailEnds(s: string, quote: char)
    ensures QuoteTail(s, quote).Some? ==> s[QuoteTail(s, quote).value - 1] == quote
  {
    if s != "" && QuoteUnit(s, quote) > 0 {
      QuoteTailEnds(s[QuoteUnit(s, quote)..], quote);
    }
  }

  // ----- Tokens do not depend on what follows them -----

  lemma Shift(x: string, w: string, n: nat)
    requires n <= |x|
    ensures (x + w)[n..] == x[n..] + w && (x + w)[..n] == x[..n]
  {
  }

  lemma QuoteUnitExtends(x: string, w: string, quote: char)
    requires IsQuote(quote) && QuoteTail(x, quote).Some? && (w == "" || w[0] != quote)
    ensures QuoteUnit(x + w, quote) == QuoteUnit(x, quote)
  {
    if |x| == 1 {
      assert x[1..] == "";
      assert QuoteTail("", quote) == None;
      assert x[0] == quote;
    }
  }

  lemma QuoteTailStep(s: string, quote: char)
    requires s != ""
    ensures var n := QuoteUnit(s, quote);
            QuoteTail(s, quote) == if n == 0 then Some(1) else Plus(n, QuoteTail(s[n..], quote))
  {
  }

  lemma {:induction false} QuoteTailExtends(x: string, w: string, quote: char)
    requires IsQuote(quote) && QuoteTail(x, quote).Some? && (w == "" || w[0] != quote)
    ensures QuoteTail(x + w, quote) == QuoteTail(x, quote)
  {
    var n := QuoteUnit(x, quote);
    QuoteUnitExtends(x, w, quote);
    QuoteTailStep(x, quote);
    QuoteTailStep(x + w, quote);
    if n > 0 {
      Shift(x, w, n);
      QuoteTailExtends(x[n..], w, quote);
    }
  }

  lemma {:induction false} QuoteTailShrinks(x: string, w: string, quote: char)
    requires QuoteTail(x + w, quote).Some? && QuoteTail(x + w, quote).value <= |x|
    ensures QuoteTail(x, quote) == QuoteTail(x + w, quote)
  {
    var n := QuoteUnit(x + w, quote);
    if n > 0 {
      Shift(x, w, n);
      QuoteTailShrinks(x[n..], w, quote);
    }
  }

  lemma {:induction false} BlockTailExtends(x: string, w: string)
    requires BlockTail(x).Some?
    ensures BlockTail(x + w) == BlockTail(x)
  {
    if !(x[0] == '*' && x[1] == '/') {
      Shift(x, w, 1);
      BlockTailExtends(x[1..], w);
    }
  }

  lemma {:induction false} BlockTailShrinks(x: string, w: string)
    requires BlockTail(x + w).Some? && BlockTail(x + w).value <= |x|
    ensures BlockTail(x) == BlockTail(x + w)
  {
    if !(x[0] == '*' && x[1] == '/') {
      Shift(x, w, 1);
      BlockTailShrinks(x[1..], w);
    }
  }

  predicate LineClosed(s: string) {
    LineTail(s) > 0 && EndsLine(s[LineTail(s) - 1])
  }

  lemma {:induction false} LineTailAppend(x: string, w: string)
    ensures LineClosed(x) ==> LineTail(x + w) == LineTail(x)
    ensures !LineClosed(x) ==> LineTail(x) == |x| && LineTail(x + w) == |x| + LineTail(w)
  {
    if x == "" {
      assert x + w == w;
    } else if !EndsLine(x[0]) {
      Shift(x, w, 1);
      LineTailAppend(x[1..], w);
    }
  }

  /** The scan of s ends between tokens and outside line comments. */
  predicate Rests(s: string) {
    s == "" ||
    match Next(s)
    case Unterminated(_) => false
    case Token(kind, n) => (kind == LineComment ==> EndsLine(s[n - 1])) && Rests(s[n..])
  }

  lemma NextExtends(x: string, w: string)
    requires x != "" && Next(x).Token? && (w == "" || w[0] == ';')
    requires Next(x).kind == LineComment ==> EndsLine(x[Next(x).length - 1])
    ensures Next(x + w) == Next(x)
  {
    var c := x[0];
    Shift(x, w, 1);
    if IsQuote(c) {
      QuoteTailExtends(x[1..], w, c);
    } else if c == '#' || DashComment(x) {
      LineExtends(x, w);
    } else if c == '/' && |x| > 1 && x[1] == '*' {
      Shift(x, w, 2);
      BlockTailExtends(x[2..], w);
    }
  }

  lemma LineExtends(x: string, w: string)
    requires x != "" && (x[0] == '#' || DashComment(x)) && Next(x).Token? && EndsLine(x[Next(x).length - 1])
    ensures Next(x + w) == Next(x)
  {
    Shift(x, w, 1);
    if x[0] == '#' {
      LineTailAppend(x[1..], w);
    } else {
      Shift(x, w, 2);
      LineTailAppend(x[2..], w);
      assert |x| > 2 && DashComment(x + w);
    }
  }

  function Joined(a: Result, b: Result): Result {
    if a.Err? then a else if b.Err? then b else Ok(a.statements + b.statements)
  }

  lemma {:induction false} JoinFrom(a: string, b: string, text: string, live: bool)
    requires Rests(a)
    ensures Split(a + ";" + b, text, live) == Joined(Split(a, text, live), Statements(b))
    decreases |a|
  {
    var all := a + ";" + b;
    if a == "" {
      assert all == ";" + b && all[1..] == b;
    } else {
      var n, kind := Next(a).length, Next(a).kind;
      assert all == a + (";" + b);
      NextExtends(a, ";" + b);
      if kind == Semicolon {
        assert all[1..] == a[1..] + ";" + b;
        JoinFrom(a[1..], b, "", false);
        BeforeJoined(Emit(text, live), Split(a[1..], "", false), Statements(b));
      } else {
        Shift(a, ";" + b, n);
        assert all[n..] == a[n..] + ";" + b;
        JoinFrom(a[n..], b, text + a[..n], live || Executable(kind));
      }
    }
  }

  lemma BeforeJoined(s: seq<string>, a: Result, b: Result)
    ensures Before(s, Joined(a, b)) == Joined(Before(s, a), b)
  {
    if a.Ok? && b.Ok? {
      assert s + (a.statements + b.statements) == s + a.statements + b.statements;
    }
  }

  /** Two sources joined by a semicolon split independently, if the first ends at rest. */
  lemma JoinedSourcesSplitApart(a: string, b: string)
    requires Rests(a)
    ensures Statements(a).Ok?
    ensures Statements(a + ";" + b) == Joined(Statements(a), Statements(b))
  {
    JoinFrom(a, b, "", false);
    RestsIsOk(a, "", false);
  }

  lemma {:induction false} RestsIsOk(s: string, text: string, live: bool)
    requires Rests(s)
    ensures Split(s, text, live).Ok?
    decreases |s|
  {
    if s != "" {
      var n, kind := Next(s).length, Next(s).kind;
      if kind == Semicolon {
        RestsIsOk(s[1..], "", false);
      } else {
        RestsIsOk(s[n..], text + s[..n], live || Executable(kind));
      }
    }
  }

  // ----- When splitting fails -----

  /** k is a token boundary of s. */
  predicate Boundary(s: string, k: nat) {
    k == 0 ||
    (s != "" && Next(s).Token? && Next(s).length <= k && Boundary(s[Next(s).length..], k - Next(s).length))
  }

  ghost predicate FailsAt(s: string, k: nat, fault: Fault) {
    k < |s| && Boundary(s, k) && Next(s[k..]) == Unterminated(fault)
  }

  lemma FailsLater(s: string, k: nat, fault: Fault)
    requires s != "" && Next(s).Token?
    ensures FailsAt(s[Next(s).length..], k, fault) ==> FailsAt(s, Next(s).length + k, fault)
    ensures FailsAt(s, k, fault) ==>
              k >= Next(s).length && FailsAt(s[Next(s).length..], k - Next(s).length, fault)
  {
    var n := Next(s).length;
    if n + k <= |s| {
      assert s[n..][k..] == s[n + k..];
    }
    if FailsAt(s, k, fault) {
      assert s[0..] == s;
      assert k > 0;
      assert s[n..][k - n..] == s[k..];
    }
  }

  lemma {:induction false} FailureFrom(s: string, text: string, live: bool, fault: Fault)
    ensures Split(s, text, live) == Err(fault) <==> Fails(s, fault)
    decreases |s|
  {
    if s == "" {
    } else if Next(s).Unterminated? {
      assert s[0..] == s;
      if Next(s).fault == fault {
        assert FailsAt(s, 0, fault);
      }
    } else {
      var rest := s[Next(s).length..];
      if Next(s).kind == Semicolon {
        FailureFrom(rest, "", false, fault);
      } else {
        FailureFrom(rest, text + s[..Next(s).length], live || Executable(Next(s).kind), fault);
      }
      FailureShifts(s, fault);
    }
  }

  ghost predicate Fails(s: string, fault: Fault) {
    exists k :: FailsAt(s, k, fault)
  }

  lemma FailureShifts(s: string, fault: Fault)
    requires s != "" && Next(s).Token?
    ensures Fails(s, fault) <==> Fails(s[Next(s).length..], fault)
  {
    if Fails(s, fault) {
      FailsBehind(s, fault);
    }
    if Fails(s[Next(s).length..], fault) {
      FailsAhead(s, fault);
    }
  }

  lemma FailsBehind(s: string, fault: Fault)
    requires s != "" && Next(s).Token? && Fails(s, fault)
    ensures Fails(s[Next(s).length..], fault)
  {
    var k :| FailsAt(s, k, fault);
    FailsLater(s, k, fault);
  }

  lemma FailsAhead(s: string, fault: Fault)
    requires s != "" && Next(s).Token? && Fails(s[Next(s).length..], fault)
    ensures Fails(s, fault)
  {
    var k :| FailsAt(s[Next(s).length..], k, fault);
    FailsLater(s, k, fault);
  }

  /** Splitting fails exactly when a token begins with a quote or block comment that
      never closes. */
  lemma FailsExactlyOnUnterminated(source: string, fault: Fault)
    ensures Statements(source) == Err(fault) <==> Fails(source, fault)
  {
    FailureFrom(source, "", false, fault);
  }

  // ----- Splitting a statement again -----

  /** The first n bytes of s are whole tokens, none a semicolon. */
  predicate Runs(s: string, n: nat) {
    n == 0 ||
    (s != "" && Next(s).Token? && Next(s).kind != Semicolon && Next(s).length <= n
     && Runs(s[Next(s).length..], n - Next(s).length))
  }

  /** Some token of s can be executed. */
  predicate Live(s: string)
    requires Runs(s, |s|)
  {
    s != "" && (Executable(Next(s).kind) || Live(s[Next(s).length..]))
  }

  lemma {:induction false} InertRuns(lead: string, rest: string, k: nat)
    requires Inert(lead) && Runs(lead + rest, |lead| + k)
    ensures Runs(rest, k)
  {
    if lead == "" {
      assert lead + rest == rest;
    } else {
      Shift(lead, rest, 1);
      InertRuns(lead[1..], rest, k);
    }
  }

  /** A token that fits in t is also the token t begins with on its own, except that
      two dashes at the end of t become a comment. */
  lemma NextShrinks(t: string, w: string)
    requires t != "" && Next(t + w).Token? && Next(t + w).length <= |t|
    requires w == "" || w[0] == ';' || Inert(w[..1])
    requires DashComment(t) == DashComment(t + w)
    ensures Next(t) == Next(t + w)
  {
    var c := t[0];
    Shift(t, w, 1);
    if IsQuote(c) {
      QuoteTailShrinks(t[1..], w, c);
    } else if c == '#' {
      LineTailAppend(t[1..], w);
    } else if DashComment(t) {
      Shift(t, w, 2);
      LineTailAppend(t[2..], w);
    } else if c == '/' && |t + w| > 1 && (t + w)[1] == '*' {
      assert |t| > 1;
      Shift(t, w, 2);
      BlockTailShrinks(t[2..], w);
    }
  }

  /** A token that ends in the inert bytes behind t is a line comment. */
  lemma NextStraddles(t: string, w: string, j: nat)
    requires t != "" && j <= |w| && Inert(w[..j])
    requires Next(t + w).Token? && |t| < Next(t + w).length <= |t| + j
    ensures Next(t) == Token(LineComment, |t|) && Next(t + w).kind == LineComment
  {
    var c, s := t[0], t + w;
    Shift(t, w, 1);
    var last := w[Next(s).length - 1 - |t|];
    assert last == w[..j][Next(s).length - 1 - |t|] == s[Next(s).length - 1];
    if IsQuote(c) {
      QuoteTailEnds(s[1..], c);
      assert false;
    } else if c == '#' {
      LineTailAppend(t[1..], w);
    } else if DashComment(s) {
      assert |t| > 1 by { assert w[..j][0] == w[0]; }
      Shift(t, w, 2);
      LineTailAppend(t[2..], w);
    } else if c == '/' && |s| > 1 && s[1] == '*' {
      BlockTailIsFirst(s[2..]);
      assert false;
    }
  }

  /** Only two dashes at the end of t turn from words into a comment. */
  lemma DashesTurn(t: string, w: string)
    requires t != "" && (w == "" || w[0] == ';' || Inert(w[..1]))
    requires DashComment(t) != DashComment(t + w)
    ensures |t| == 2 && Runs(t, |t|)
  {
    assert w != "" ==> w[0] == w[..1][0];
    assert t + w == t || (t + w)[|t|] == w[0];
    assert LineTail(t[2..]) == 0 && Next(t) == Token(LineComment, 2);
    assert Runs(t[2..], 0);
  }

  /** Tokens that cover t and some inert bytes behind it leave t a run of whole tokens. */
  lemma {:induction false} RunsAlone(t: string, w: string, j: nat)
    requires j <= |w| && Inert(w[..j]) && (j < |w| ==> w[j] == ';')
    requires Runs(t + w, |t| + j)
    ensures Runs(t, |t|)
  {
    if t != "" {
      var n := Next(t + w).length;
      assert w != "" && j > 0 ==> w[..1] == w[..j][..1];
      if DashComment(t) != DashComment(t + w) {
        DashesTurn(t, w);
      } else if n <= |t| {
        NextShrinks(t, w);
        Shift(t, w, n);
        RunsAlone(t[n..], w, j);
      } else {
        NextStraddles(t, w, j);
        assert Runs(t[|t|..], 0);
      }
    }
  }

  lemma {:induction false} SplitRun(s: string, text: string, live: bool)
    requires Runs(s, |s|)
    ensures Split(s, text, live) == Ok(Emit(text + s, live || Live(s)))
    decreases |s|
  {
    if s == "" {
      assert text + s == text;
    } else {
      var n := Next(s).length;
      SplitRun(s[n..], text + s[..n], live || Executable(Next(s).kind));
      assert text + s[..n] + s[n..] == text + s;
    }
  }

  lemma {:induction false} RunsOn(s: string, a: nat, b: nat)
    requires a <= |s| && Runs(s, a) && Runs(s[a..], b)
    ensures Runs(s, a + b)
  {
    if a == 0 {
      assert s[0..] == s;
    } else {
      var n := Next(s).length;
      assert s[a..] == s[n..][a - n..];
      RunsOn(s[n..], a - n, b);
    }
  }

  /** Reading one more token keeps the text of a statement a run of whole tokens. */
  lemma RunAdvances(text: string, s: string)
    requires Runs(text + s, |text|) && s != "" && Next(s).Token? && Next(s).kind != Semicolon
    ensures var n := Next(s).length; Runs(text + s[..n] + s[n..], |text + s[..n]|)
  {
    var n := Next(s).length;
    assert (text + s)[|text|..] == s;
    assert Runs(s, n) by { assert Runs(s[n..], 0); }
    RunsOn(text + s, |text|, n);
    Cut(s, n);
    Associate(text, s[..n], s[n..]);
  }

  // ----- Chunks -----

  /** What lies between two semicolons, and the source from there on. */
  datatype Chunk = Chunk(text: string, rest: string)

  /** The chunks of s, when text has been read of the first one. */
  function ChunksFrom(s: string, text: string): seq<Chunk>
    decreases |s|
  {
    if s == "" then [Chunk(text, "")]
    else
      match Next(s)
      case Unterminated(_) => [Chunk(text + s, "")]
      case Token(kind, n) =>
        if kind == Semicolon then [Chunk(text, s)] + ChunksFrom(s[1..], "") else ChunksFrom(s[n..], text + s[..n])
  }

  function Chunks(source: string): seq<Chunk> {
    ChunksFrom(source, "")
  }

  function Rejoin(chunks: seq<Chunk>): string {
    if chunks == [] then "" else if |chunks| == 1 then chunks[0].text else chunks[0].text + ";" + Rejoin(chunks[1..])
  }

  /** Nothing but semicolons lies between the chunks. */
  lemma {:induction false} ChunksRejoin(s: string, text: string)
    ensures ChunksFrom(s, text) != [] && Rejoin(ChunksFrom(s, text)) == text + s
    decreases |s|
  {
    if s == "" {
      assert text + s == text;
    } else if Next(s).Token? {
      var n := Next(s).length;
      if Next(s).kind == Semicolon {
        ChunksRejoin(s[1..], "");
        RejoinOne(Chunk(text, s), ChunksFrom(s[1..], ""));
        SemicolonFirst(text, s);
      } else {
        ChunksRejoin(s[n..], text + s[..n]);
        ReadOn(text, s, n);
      }
    }
  }

  lemma RejoinOne(c: Chunk, chunks: seq<Chunk>)
    requires chunks != []
    ensures Rejoin([c] + chunks) == c.text + ";" + Rejoin(chunks)
  {
    assert ([c] + chunks)[1..] == chunks;
  }

  lemma SemicolonFirst(text: string, s: string)
    requires s != "" && s[0] == ';'
    ensures text + ";" + ("" + s[1..]) == text + s
  {
  }

  lemma ReadOn(text: string, s: string, n: nat)
    requires n <= |s|
    ensures text + s[..n] + s[n..] == text + s
  {
  }

  /** A token that can be executed begins at k. */
  predicate ExecutableAt(s: string, k: nat) {
    k < |s| && Boundary(s, k) && Next(s[k..]).Token? && Executable(Next(s[k..]).kind)
  }

  ghost predicate AnyExecutable(s: string, from: nat, to: nat) {
    exists k :: from <= k < to && ExecutableAt(s, k)
  }

  /** The chunk is a run of whole tokens, none a semicolon, and ends at a semicolon or with the source. */
  predicate Whole(c: Chunk) {
    Runs(c.text + c.rest, |c.text|) && (c.rest == "" || c.rest[0] == ';')
  }

  /** Where the trimmed text begins in the chunk. */
  function Lead(c: Chunk): (n: nat)
    ensures n + |Trim(c.text)| <= |c.text|
  {
    |c.text| - |TrimLeft(c.text)|
  }

  /** How much of t counts when w follows: all of it but two closing dashes that begin a token. */
  function Solid(t: string, w: string): (n: nat)
    ensures n <= |t|
  {
    if Dashed(t, w) then |t| - 2 else |t|
  }

  predicate Dashed(t: string, w: string) {
    |t| >= 2 && DashesAt(t + w, |t| - 2)
  }

  /** Two dashes are at k, where a token begins. */
  predicate DashesAt(s: string, k: nat) {
    k + 2 <= |s| && s[k] == '-' && s[k + 1] == '-' && Boundary(s, k)
  }

  /** Where the trimmed text ends in the chunk. */
  function End(c: Chunk): (n: nat)
    ensures n <= |c.text|
  {
    Lead(c) + |Trim(c.text)|
  }

  /** Trimming cuts the byte at k off. */
  predicate CutAway(c: Chunk, k: nat) {
    k < Lead(c) || End(c) <= k
  }

  /** The byte at k is one of two dashes that begin a token and end the trimmed text. */
  predicate ClosingDash(c: Chunk, k: nat) {
    EndsDashed(c) && End(c) - 2 <= k < End(c)
  }

  predicate EndsDashed(c: Chunk) {
    |Trim(c.text)| >= 2 && DashesAt(c.text + c.rest, End(c) - 2)
  }

  /** Some token of the chunk that can be executed is neither cut away nor a closing dash. */
  ghost predicate Lasts(c: Chunk) {
    exists k :: 0 <= k < |c.text| && ExecutableAt(c.text + c.rest, k) && !CutAway(c, k) && !ClosingDash(c, k)
  }

  /** The trimmed text of a chunk splits into itself if it lasts, and into nothing otherwise. */
  ghost predicate Resplits(c: Chunk) {
    Statements(Trim(c.text)) == Ok(if Lasts(c) then [Trim(c.text)] else [])
  }

  /** One statement for each chunk that has a token to execute and is not blank. */
  ghost function Emitted(chunks: seq<Chunk>): seq<string> {
    if chunks == [] then []
    else
      Emit(chunks[0].text, AnyExecutable(chunks[0].text + chunks[0].rest, 0, |chunks[0].text|)) + Emitted(chunks[1..])
  }

  lemma ExecutableShifts(s: string, k: nat)
    requires s != "" && Next(s).Token?
    ensures k >= Next(s).length ==> (ExecutableAt(s, k) <==> ExecutableAt(s[Next(s).length..], k - Next(s).length))
    ensures 0 < k < Next(s).length ==> !ExecutableAt(s, k)
    ensures ExecutableAt(s, 0) <==> Executable(Next(s).kind)
  {
    var n := Next(s).length;
    assert s[0..] == s;
    if n <= k < |s| {
      assert s[n..][k - n..] == s[k..];
    }
  }

  /** Executable tokens behind the first one are those of what follows it. */
  lemma AnyShifts(s: string, from: nat, to: nat)
    requires s != "" && Next(s).Token?
    ensures AnyExecutable(s, Next(s).length + from, Next(s).length + to)
            <==> AnyExecutable(s[Next(s).length..], from, to)
  {
    if AnyExecutable(s, Next(s).length + from, Next(s).length + to) {
      AnyBehind(s, from, to);
    }
    if AnyExecutable(s[Next(s).length..], from, to) {
      AnyAhead(s, from, to);
    }
  }

  lemma AnyBehind(s: string, from: nat, to: nat)
    requires s != "" && Next(s).Token? && AnyExecutable(s, Next(s).length + from, Next(s).length + to)
    ensures AnyExecutable(s[Next(s).length..], from, to)
  {
    var k :| Next(s).length + from <= k < Next(s).length + to && ExecutableAt(s, k);
    ExecutableShifts(s, k);
    assert from <= k - Next(s).length < to;
  }

  lemma AnyAhead(s: string, from: nat, to: nat)
    requires s != "" && Next(s).Token? && AnyExecutable(s[Next(s).length..], from, to)
    ensures AnyExecutable(s, Next(s).length + from, Next(s).length + to)
  {
    var k :| from <= k < to && ExecutableAt(s[Next(s).length..], k);
    ExecutableShifts(s, Next(s).length + k);
  }

  lemma AnyFirst(s: string, to: nat)
    requires s != "" && Next(s).Token? && to > 0
    ensures AnyExecutable(s, 0, to) <==> Executable(Next(s).kind) || AnyExecutable(s, Next(s).length, to)
  {
    ExecutableShifts(s, 0);
    if AnyExecutable(s, 0, to) && !Executable(Next(s).kind) {
      var k :| 0 <= k < to && ExecutableAt(s, k);
      ExecutableShifts(s, k);
      assert Next(s).length <= k < to && ExecutableAt(s, k);
    }
    if AnyExecutable(s, Next(s).length, to) {
      var k :| Next(s).length <= k < to && ExecutableAt(s, k);
      assert 0 <= k < to && ExecutableAt(s, k);
    }
  }

  /** One more token after a run. */
  lemma {:induction false} AnyNext(s: string, a: nat)
    requires a < |s| && Runs(s, a) && Next(s[a..]).Token?
    ensures var n := Next(s[a..]).length;
            AnyExecutable(s, 0, a + n) <==> AnyExecutable(s, 0, a) || Executable(Next(s[a..]).kind)
  {
    var m := Next(s[a..]).length;
    if a == 0 {
      assert s[0..] == s;
      AnyFirst(s, m);
    } else {
      var n := Next(s).length;
      assert s[n..][a - n..] == s[a..];
      AnyNext(s[n..], a - n);
      AnyFirst(s, a + m);
      AnyFirst(s, a);
      AnyShifts(s, 0, a - n);
      AnyShifts(s, 0, a - n + m);
    }
  }

  /** Bytes that mean nothing to the scanner shift what follows them. */
  lemma {:induction false} InertShifts(lead: string, rest: string, from: nat, to: nat)
    requires Inert(lead)
    ensures AnyExecutable(lead + rest, |lead| + from, |lead| + to) <==> AnyExecutable(rest, from, to)
  {
    if lead == "" {
      assert lead + rest == rest;
    } else {
      Shift(lead, rest, 1);
      InertShifts(lead[1..], rest, from, to);
      AnyShifts(lead + rest, |lead| - 1 + from, |lead| - 1 + to);
    }
  }

  lemma BoundaryShifts(s: string, k: nat)
    requires s != "" && Next(s).Token?
    ensures Boundary(s, Next(s).length + k) <==> Boundary(s[Next(s).length..], k)
    ensures 0 < k < Next(s).length ==> !Boundary(s, k)
  {
  }

  /** The solid part of t, after its first token. */
  lemma SolidShifts(t: string, w: string)
    requires t != "" && Next(t + w).Token? && Next(t + w).length <= |t|
    requires |t| > 2 || !DashComment(t)
    ensures var n := Next(t + w).length; Solid(t, w) == n + Solid(t[n..], w)
  {
    DashedShifts(t, w, Next(t + w).length);
  }

  lemma DashedShifts(t: string, w: string, n: nat)
    requires t != "" && Next(t + w).Token? && Next(t + w).length == n <= |t|
    requires |t| > 2 || !DashComment(t)
    ensures Dashed(t, w) <==> Dashed(t[n..], w)
  {
    Shift(t, w, n);
    if |t| - 2 >= n {
      DashesShift(t + w, |t| - 2 - n);
    } else if |t| > 2 {
      BoundaryShifts(t + w, |t| - 2);
    }
  }

  lemma DashesShift(s: string, k: nat)
    requires s != "" && Next(s).Token?
    ensures DashesAt(s, Next(s).length + k) <==> DashesAt(s[Next(s).length..], k)
  {
    BoundaryShifts(s, k);
  }

  lemma SolidIsSome(t: string, w: string)
    requires t != "" && (|t| > 2 || !DashComment(t))
    ensures Solid(t, w) > 0
  {
  }

  /** A run of tokens that covers t and inert bytes behind it: t alone holds an executable token
      exactly if one of them begins in its solid part. */
  lemma {:induction false} LiveAlone(t: string, w: string, j: nat)
    requires j <= |w| && Inert(w[..j]) && (j < |w| ==> w[j] == ';')
    requires Runs(t + w, |t| + j)
    ensures Runs(t, |t|)
    ensures Live(t) <==> AnyExecutable(t + w, 0, Solid(t, w))
  {
    RunsAlone(t, w, j);
    if t != "" {
      if |t| == 2 && DashComment(t) {
        OnlyDashes(t, w);
      } else {
        DashesStay(t, w, j);
        if Next(t + w).length <= |t| {
          LiveAlone(t[Next(t + w).length..], w, j) by {
            Shift(t, w, Next(t + w).length);
          }
          NextShrinks(t, w);
          LiveStep(t, w);
        } else {
          NextStraddles(t, w, j);
          LiveStraddles(t, w);
        }
      }
    }
  }

  lemma LiveStraddles(t: string, w: string)
    requires t != "" && Next(t + w).Token? && Next(t + w).length > |t| && Next(t + w).kind == LineComment
    requires Next(t) == Token(LineComment, |t|)
    ensures Runs(t, |t|) && !Live(t) && !AnyExecutable(t + w, 0, Solid(t, w))
  {
    assert Runs(t[|t|..], 0);
    if Solid(t, w) > 0 { AnyFirst(t + w, Solid(t, w)); }
  }

  lemma OnlyDashes(t: string, w: string)
    requires |t| == 2 && DashComment(t)
    ensures Runs(t, |t|) && !Live(t) && Solid(t, w) == 0
  {
    assert LineTail(t[2..]) == 0 && Next(t) == Token(LineComment, 2);
    assert Runs(t[2..], 0);
  }

  lemma DashesStay(t: string, w: string, j: nat)
    requires t != "" && j <= |w| && Inert(w[..j]) && (j < |w| ==> w[j] == ';')
    requires !(|t| == 2 && DashComment(t))
    ensures DashComment(t) == DashComment(t + w)
    ensures w == "" || w[0] == ';' || Inert(w[..1])
  {
    assert w != "" && j > 0 ==> w[..1] == w[..j][..1];
    if DashComment(t) != DashComment(t + w) { DashesTurn(t, w); }
  }

  lemma LiveStep(t: string, w: string)
    requires t != "" && Next(t + w).Token? && Next(t + w).length <= |t|
    requires |t| > 2 || !DashComment(t)
    requires Next(t) == Next(t + w) && Runs(t, |t|)
    requires Live(t[Next(t).length..])
             <==> AnyExecutable(t[Next(t).length..] + w, 0, Solid(t[Next(t).length..], w))
    ensures Live(t) <==> AnyExecutable(t + w, 0, Solid(t, w))
  {
    var n := Next(t + w).length;
    Shift(t, w, n);
    SolidShifts(t, w);
    SolidIsSome(t, w);
    AnyFirst(t + w, Solid(t, w));
    AnyShifts(t + w, 0, Solid(t[n..], w));
  }

  /** What the trimmed text of a chunk splits into. */
  lemma ChunkResplits(c: Chunk)
    requires Whole(c)
    ensures Resplits(c)
  {
    ChunkLive(c);
    TrimmedSplits(Trim(c.text));
  }

  lemma TrimmedSplits(t: string)
    requires Runs(t, |t|) && Trim(t) == t
    ensures Statements(t) == Ok(if Live(t) then [t] else [])
  {
    SplitRun(t, "", false);
    assert "" + t == t;
  }

  lemma ChunkLive(c: Chunk)
    requires Whole(c)
    ensures Runs(Trim(c.text), |Trim(c.text)|) && Trim(Trim(c.text)) == Trim(c.text)
    ensures Live(Trim(c.text)) <==> Lasts(c)
  {
    var lead, trail := TrimParts(c.text);
    var t, w := Trim(c.text), trail + c.rest;
    ChunkParts(lead, t, trail, c.rest);
    TrimmedLive(lead, t, trail, c.rest);
    TrimmedDashes(c, lead, t, trail);
    if Lasts(c) {
      var k :| 0 <= k < |c.text| && ExecutableAt(c.text + c.rest, k) && !CutAway(c, k) && !ClosingDash(c, k);
      assert |lead| <= k < |lead| + Solid(t, w);
    }
    if AnyExecutable(c.text + c.rest, |lead|, |lead| + Solid(t, w)) {
      var k :| |lead| <= k < |lead| + Solid(t, w) && ExecutableAt(c.text + c.rest, k);
      assert !CutAway(c, k) && !ClosingDash(c, k);
    }
  }

  lemma TrimmedDashes(c: Chunk, lead: string, t: string, trail: string)
    requires c.text == lead + (t + trail) && |lead| == Lead(c) && t == Trim(c.text) && Inert(lead)
    ensures EndsDashed(c) <==> Dashed(t, trail + c.rest)
  {
    if |t| >= 2 {
      ChunkParts(lead, t, trail, c.rest);
      InertDashes(lead, t + (trail + c.rest), |t| - 2);
    }
  }

  lemma InertDashes(lead: string, rest: string, k: nat)
    requires Inert(lead)
    ensures DashesAt(lead + rest, |lead| + k) <==> DashesAt(rest, k)
  {
    InertBoundary(lead, rest, k);
  }

  lemma {:induction false} InertBoundary(lead: string, rest: string, k: nat)
    requires Inert(lead)
    ensures Boundary(lead + rest, |lead| + k) <==> Boundary(rest, k)
  {
    if lead == "" {
      assert lead + rest == rest;
    } else {
      InertStep(lead, rest);
      InertBoundary(lead[1..], rest, k);
      BoundaryShifts(lead + rest, |lead| - 1 + k);
    }
  }

  lemma InertStep(lead: string, rest: string)
    requires lead != "" && Inert(lead)
    ensures Next(lead + rest).Token? && Next(lead + rest).length == 1
    ensures Inert(lead[1..]) && (lead + rest)[1..] == lead[1..] + rest
  {
    Shift(lead, rest, 1);
  }

  /** The tokens that trimming takes are bytes above the ASCII range, parts of white-space runes. */
  lemma CutTokensAreWide(c: Chunk, k: nat)
    requires k < |c.text| && ExecutableAt(c.text + c.rest, k) && CutAway(c, k)
    ensures c.text[k] >= '\U{80}'
  {
    var lead, trail := TrimParts(c.text);
    CutByteIsInert(lead, Trim(c.text), trail, k);
    InertToken((c.text + c.rest)[k..]);
  }

  lemma CutByteIsInert(lead: string, t: string, trail: string, k: nat)
    requires Inert(lead) && Inert(trail) && k < |lead + (t + trail)| && (k < |lead| || |lead| + |t| <= k)
    ensures Inert([(lead + (t + trail))[k]])
  {
    assert (lead + (t + trail))[k] == if k < |lead| then lead[k] else trail[k - |lead| - |t|];
  }

  lemma InertToken(s: string)
    requires s != "" && Inert([s[0]]) && Next(s).Token? && Executable(Next(s).kind)
    ensures s[0] >= '\U{80}'
  {
    assert [s[0]][0] == s[0];
  }

  lemma ChunkParts(lead: string, t: string, trail: string, rest: string)
    ensures lead + (t + trail) + rest == lead + (t + (trail + rest))
    ensures (lead + (t + trail) + rest)[|lead| + |t|..] == trail + rest
    ensures (trail + rest)[..|trail|] == trail
  {
  }

  lemma TrimmedLive(lead: string, t: string, trail: string, rest: string)
    requires Inert(lead) && Inert(trail) && (rest == "" || rest[0] == ';')
    requires Runs(lead + (t + trail) + rest, |lead + (t + trail)|)
    ensures Runs(t, |t|)
    ensures Live(t) <==> AnyExecutable(lead + (t + trail) + rest, |lead|, |lead| + Solid(t, trail + rest))
  {
    var w := trail + rest;
    ChunkParts(lead, t, trail, rest);
    InertRuns(lead, t + w, |t| + |trail|);
    LiveAlone(t, w, |trail|);
    InertShifts(lead, t + w, 0, Solid(t, w));
  }

  /** The statements are those of the chunks, and every chunk is whole. */
  lemma {:induction false} SplitChunks(s: string, text: string, live: bool)
    requires Runs(text + s, |text|) && live == AnyExecutable(text + s, 0, |text|)
    requires Split(s, text, live).Ok?
    ensures Split(s, text, live).statements == Emitted(ChunksFrom(s, text))
    ensures forall c :: c in ChunksFrom(s, text) ==> Whole(c)
    decreases |s|
  {
    if s == "" {
      assert Emit(text, live) + [] == Emit(text, live);
    } else {
      var n := Next(s).length;
      if Next(s).kind == Semicolon {
        ChunkEnds(s, text, live);
        SplitChunks(s[1..], "", false);
        EmittedOne(Chunk(text, s), ChunksFrom(s[1..], ""));
      } else {
        ChunkGrows(text, s, live);
        SplitChunks(s[n..], text + s[..n], live || Executable(Next(s).kind));
      }
    }
  }

  lemma ChunkEnds(s: string, text: string, live: bool)
    requires s != "" && s[0] == ';' && Split(s, text, live).Ok?
    ensures Split(s[1..], "", false).Ok?
    ensures Split(s, text, live).statements == Emit(text, live) + Split(s[1..], "", false).statements
    ensures ChunksFrom(s, text) == [Chunk(text, s)] + ChunksFrom(s[1..], "")
  {
  }

  lemma EmittedOne(c: Chunk, chunks: seq<Chunk>)
    ensures Emitted([c] + chunks) == Emit(c.text, AnyExecutable(c.text + c.rest, 0, |c.text|)) + Emitted(chunks)
  {
    assert ([c] + chunks)[1..] == chunks;
  }

  lemma ChunkGrows(text: string, s: string, live: bool)
    requires Runs(text + s, |text|) && live == AnyExecutable(text + s, 0, |text|)
    requires s != "" && Next(s).Token? && Next(s).kind != Semicolon
    ensures var n, more := Next(s).length, live || Executable(Next(s).kind);
            && Runs(text + s[..n] + s[n..], |text + s[..n]|)
            && more == AnyExecutable(text + s[..n] + s[n..], 0, |text + s[..n]|)
  {
    RunAdvances(text, s);
    assert (text + s)[|text|..] == s;
    AnyNext(text + s, |text|);
    ReadOn(text, s, Next(s).length);
  }

  /** The source falls into chunks with semicolons between them, and into one statement for each
      chunk that has a token to execute.  Every statement splits again without error: into
      itself, or into nothing exactly when trimming or closing dashes took all such tokens. */
  lemma StatementsResplit(source: string)
    requires Statements(source).Ok?
    ensures Rejoin(Chunks(source)) == source
    ensures Statements(source).statements == Emitted(Chunks(source))
    ensures forall c :: c in Chunks(source) ==> Whole(c) && Resplits(c)
  {
    assert "" + source == source;
    ChunksRejoin(source, "");
    SplitChunks(source, "", false);
    forall c | c in Chunks(source) ensures Whole(c) && Resplits(c) {
      ChunkResplits(c);
    }
  }

  /** Two dashes before a semicolon are no comment, but alone they are one. */
  lemma DashesVanish(dashes: string)
    requires |dashes| == 2 && dashes[0] == dashes[1] == '-'
    ensures Statements(dashes + ";") == Ok([dashes]) && Statements(dashes) == Ok([])
  {
    var s := dashes + ";";
    var first, second, last := s[..1], s[1..][..1], s[1..][1..];
    assert Next(s) == Token(Word, 1) && Next(s[1..]) == Token(Word, 1);
    assert Split(s, "", false) == Split(s[1..], "" + first, true);
    assert Split(s[1..], "" + first, true) == Split(last, "" + first + second, true);
    assert "" + first + second == dashes;
    LastSemicolon(last, dashes);
    DashesAlone(dashes);
  }

  /** A no-break space is executable, but trimmed: this comment vanishes as well. */
  lemma SpaceVanishes(space: string, hash: string)
    requires space == ['\U{C2}', '\U{A0}'] && hash == ['#']
    ensures Statements(space + hash) == Ok([hash]) && Statements(hash) == Ok([])
  {
    var s := space + hash;
    assert Next(s) == Token(Word, 1) && Next(s[1..]) == Token(Word, 1);
    assert s[1..][1..] == hash;
    assert Split(s, "", false) == Split(s[1..], "" + s[..1], true);
    assert Split(s[1..], "" + s[..1], true) == Split(hash, "" + s[..1] + s[1..][..1], true);
    assert "" + s[..1] + s[1..][..1] == space;
    HashAlone(hash, space, true);
    HashAlone(hash, "", false);
    SpacedHash(space, hash);
  }

  lemma HashAlone(hash: string, text: string, live: bool)
    requires hash == ['#']
    ensures Split(hash, text, live) == Ok(Emit(text + hash, live))
  {
    assert LineTail(hash[1..]) == 0 && Next(hash) == Token(LineComment, 1);
    assert Runs(hash[1..], 0);
    SplitRun(hash, text, live);
  }

  lemma SpacedHash(space: string, hash: string)
    requires space == ['\U{C2}', '\U{A0}'] && hash == ['#']
    ensures Trim(space + hash) == hash
  {
    var s := space + hash;
    assert s[..1] == ['\U{C2}'] && s[..2] == space && s[2..] == hash;
    assert SpacePrefix(s) == 2 && SpacePrefix(hash) == 0 && SpaceSuffix(hash) == 0;
    assert TrimLeft(s) == TrimLeft(hash) == hash;
    assert TrimRight(hash) == hash;
  }

  lemma LastSemicolon(s: string, text: string)
    requires |s| == 1 && s[0] == ';'
    ensures Split(s, text, true) == Ok(Emit(text, true))
  {
    assert s[1..] == "";
    assert Emit(text, true) + [] == Emit(text, true);
  }

  lemma DashesAlone(dashes: string)
    requires |dashes| == 2 && dashes[0] == dashes[1] == '-'
    ensures Statements(dashes) == Ok([]) && Trim(dashes) == dashes
  {
    assert Next(dashes) == Token(LineComment, 2) by {
      assert LineTail(dashes[2..]) == 0;
    }
    assert Runs(dashes[2..], 0);
    SplitRun(dashes, "", false);
    DashesTrimmed(dashes);
  }

  lemma DashesTrimmed(dashes: string)
    requires |dashes| == 2 && dashes[0] == dashes[1] == '-'
    ensures Trim(dashes) == dashes
  {
    assert dashes[..1][0] == '-' && dashes[1..][0] == '-';
    assert SpacePrefix(dashes) == 0 && SpaceSuffix(dashes) == 0;
    assert TrimLeft(dashes) == dashes;
  }

  // ----- The byte scanner -----

  datatype State = Normal | InQuote(quote: char) | InLineComment | InBlockComment

  /** The bytes a scanner in this state still takes before it is back to normal. */
  function Pending(state: State, rest: string): Option<nat> {
    match state
    case Normal => Some(0)
    case InQuote(quote) => QuoteTail(rest, quote)
    case InLineComment => Some(LineTail(rest))
    case InBlockComment => BlockTail(rest)
  }

  lemma PendingFits(state: State, rest: string)
    ensures Pending(state, rest).Some? ==> Pending(state, rest).value <= |rest|
  {
  }

  function StateFault(state: State): Fault {
    if state.InQuote? then QuoteFault(state.quote) else UnterminatedBlock
  }

  /** What the statements will be when the scanner goes on from here. */
  function Onward(state: State, rest: string, text: string, live: bool): Result {
    PendingFits(state, rest);
    var pending := Pending(state, rest);
    if pending.Some? then Split(rest[pending.value..], text + rest[..pending.value], live)
    else Err(StateFault(state))
  }

  lemma NormalOnward(s: string, text: string, live: bool)
    ensures Onward(Normal, s, text, live) == Split(s, text, live)
  {
    assert s[0..] == s && text + s[..0] == text;
  }

  lemma ReadTwice(text: string, s: string, n: nat, m: nat)
    requires n + m <= |s|
    ensures s[n..][m..] == s[n + m..]
    ensures text + s[..n] + s[n..][..m] == text + s[..n + m]
  {
  }

  /** Reading n bytes that belong to the pending ones. */
  lemma ReadPending(state: State, s: string, n: nat, state': State, text: string, live: bool)
    requires n <= |s| && Pending(state, s) == Plus(n, Pending(state', s[n..]))
    requires StateFault(state) == StateFault(state') || Pending(state', s[n..]).Some?
    ensures Onward(state, s, text, live) == Onward(state', s[n..], text + s[..n], live)
  {
    PendingFits(state', s[n..]);
    if Pending(state', s[n..]).Some? {
      var m := Pending(state', s[n..]).value;
      OnwardFrom(state, s, text, live, n + m);
      OnwardFrom(state', s[n..], text + s[..n], live, m);
      ReadTwice(text, s, n, m);
    }
  }

  lemma OnwardFrom(state: State, s: string, text: string, live: bool, n: nat)
    requires Pending(state, s) == Some(n) && n <= |s|
    ensures Onward(state, s, text, live) == Split(s[n..], text + s[..n], live)
  {
  }

  lemma BeforeTwice(a: seq<string>, b: seq<string>, r: Result)
    ensures Before(a, Before(b, r)) == Before(a + b, r)
  {
    if r.Ok? {
      assert a + (b + r.statements) == a + b + r.statements;
    }
  }

  /** Consumes the byte at the front of s inside quotes, with its partner if it has one. */
  method ConsumeQuotedByte(s: string, quote: char) returns (n: nat, state: State)
    requires s != ""
    ensures n == (if QuoteUnit(s, quote) == 0 then 1 else QuoteUnit(s, quote))
    ensures state == if QuoteUnit(s, quote) == 0 then Normal else InQuote(quote)
  {
    var current := s[0];
    if quote != '`' && current == '\\' && |s| > 1 {
      return 2, InQuote(quote);
    }
    if current != quote {
      return 1, InQuote(quote);
    }
    if |s| > 1 && s[1] == quote {
      return 2, InQuote(quote);
    }
    return 1, Normal;
  }

  /** The state that the token at the front of s begins with, and the kind it will have. */
  datatype Entry = Entry(length: nat, state: State, kind: Kind)

  ghost predicate Enters(s: string, e: Entry)
    requires s != ""
  {
    && 1 <= e.length <= |s| && e.kind != Semicolon
    && (PendingFits(e.state, s[e.length..]);
        var pending := Pending(e.state, s[e.length..]);
        Next(s) == if pending.Some? then Token(e.kind, e.length + pending.value) else Unterminated(StateFault(e.state)))
  }

  lemma QuoteEnters(s: string)
    requires s != "" && IsQuote(s[0])
    ensures Enters(s, Entry(1, InQuote(s[0]), Quoted))
  {
  }

  lemma LineEnters(s: string)
    requires s != "" && (s[0] == '#' || DashComment(s))
    ensures Enters(s, Entry(if s[0] == '#' then 1 else 2, InLineComment, LineComment))
  {
  }

  lemma BlockEnters(s: string)
    requires |s| > 1 && s[0] == '/' && s[1] == '*'
    ensures Enters(s, Entry(2, InBlockComment, BlockComment(|s| > 2 && s[2] == '!')))
  {
  }

  lemma ByteEnters(s: string)
    requires s != "" && !IsQuote(s[0]) && s[0] != '#' && s[0] != ';' && !DashComment(s)
    requires !(|s| > 1 && s[0] == '/' && s[1] == '*')
    ensures Enters(s, Entry(1, Normal, if s[0] > ' ' then Word else Blank))
  {
  }

  /** Entering a token by its first bytes. */
  lemma EnterToken(s: string, n: nat, state: State, kind: Kind, text: string, live: bool)
    requires s != "" && Enters(s, Entry(n, state, kind))
    ensures Split(s, text, live) == Onward(state, s[n..], text + s[..n], live || Executable(kind))
  {
    PendingFits(state, s[n..]);
    if Pending(state, s[n..]).Some? {
      EnterWhole(s, n, state, kind, text, live, Pending(state, s[n..]).value);
    } else {
      EnterOpen(s, n, state, text, live || Executable(kind), text, live);
    }
  }

  lemma EnterWhole(s: string, n: nat, state: State, kind: Kind, text: string, live: bool, m: nat)
    requires s != "" && n + m <= |s| && kind != Semicolon
    requires Pending(state, s[n..]) == Some(m) && Next(s) == Token(kind, n + m)
    ensures Split(s, text, live) == Onward(state, s[n..], text + s[..n], live || Executable(kind))
  {
    var r := Split(s[n + m..], text + s[..n + m], live || Executable(kind));
    assert Split(s, text, live) == r by {
      SplitFrom(s, text, live, kind, n + m);
    }
    assert Onward(state, s[n..], text + s[..n], live || Executable(kind)) == r by {
      OnwardBehind(state, s, n, m, text, live || Executable(kind));
    }
  }

  lemma OnwardBehind(state: State, s: string, n: nat, m: nat, text: string, live: bool)
    requires n + m <= |s| && Pending(state, s[n..]) == Some(m)
    ensures Onward(state, s[n..], text + s[..n], live) == Split(s[n + m..], text + s[..n + m], live)
  {
    OnwardFrom(state, s[n..], text + s[..n], live, m);
    ReadTwice(text, s, n, m);
  }

  lemma EnterOpen(s: string, n: nat, state: State, more: string, lively: bool, text: string, live: bool)
    requires s != "" && n <= |s| && Pending(state, s[n..]) == None && Next(s) == Unterminated(StateFault(state))
    ensures Split(s, text, live) == Onward(state, s[n..], more + s[..n], lively)
  {
  }

  lemma SplitFrom(s: string, text: string, live: bool, kind: Kind, n: nat)
    requires s != "" && Next(s) == Token(kind, n) && kind != Semicolon
    ensures n <= |s| && Split(s, text, live) == Split(s[n..], text + s[..n], live || Executable(kind))
  {
  }

  /** Consumes the byte at the front of s outside quotes and comments, semicolons aside. */
  method ConsumeNormalByte(s: string, ghost text: string, live: bool) returns (n: nat, state: State, live': bool)
    requires s != "" && s[0] != ';'
    ensures 1 <= n <= |s|
    ensures Split(s, text, live) == Onward(state, s[n..], text + s[..n], live')
  {
    ghost var kind;
    n, state, live', kind := ReadNormalByte(s, live);
    EnterToken(s, n, state, kind, text, live);
  }

  method ReadNormalByte(s: string, live: bool) returns (n: nat, state: State, live': bool, ghost kind: Kind)
    requires s != "" && s[0] != ';'
    ensures Enters(s, Entry(n, state, kind)) && (live' <==> live || Executable(kind))
  {
    var current := s[0];
    n, state, live', kind := 1, Normal, live, Word;
    if IsQuote(current) {
      state, live', kind := InQuote(current), true, Quoted;
      QuoteEnters(s);
    } else if current == '#' {
      state, kind := InLineComment, LineComment;
      LineEnters(s);
    } else if current == '-' {
      if DashComment(s) {
        n, state, kind := 2, InLineComment, LineComment;
        LineEnters(s);
      } else {
        live' := true;
        ByteEnters(s);
      }
    } else if current == '/' {
      if |s| > 1 && s[1] == '*' {
        n, state := 2, InBlockComment;
        kind := BlockComment(|s| > 2 && s[2] == '!');
        BlockEnters(s);
        if |s| > 2 && s[2] == '!' {
          live' := true;
        }
      } else {
        live' := true;
        ByteEnters(s);
      }
    } else if current > ' ' {
      live' := true;
      ByteEnters(s);
    } else {
      kind := Blank;
      ByteEnters(s);
    }
  }

  /** Consumes what the scanner reads next inside a quote or a comment. */
  method ConsumePendingByte(s: string, state: State, ghost text: string, ghost live: bool)
    returns (n: nat, state': State)
    requires s != "" && state != Normal
    ensures 1 <= n <= |s|
    ensures Onward(state, s, text, live) == Onward(state', s[n..], text + s[..n], live)
  {
    match state {
      case InQuote(quote) =>
        n, state' := ConsumeQuotedByte(s, quote);
        QuoteTailStep(s, quote);
      case InLineComment =>
        n, state' := 1, if EndsLine(s[0]) then Normal else InLineComment;
      case InBlockComment =>
        if s[0] == '*' && |s| > 1 && s[1] == '/' {
          n, state' := 2, Normal;
        } else {
          n, state' := 1, InBlockComment;
        }
    }
    ReadPending(state, s, n, state', text, live);
  }

  lemma CutStatement(statements: seq<string>, s: string, text: string, live: bool)
    requires s != "" && s[0] == ';'
    ensures Before(statements, Onward(Normal, s, text, live))
         == Before(statements + Emit(text, live), Onward(Normal, s[1..], "", false))
  {
    NormalOnward(s, text, live);
    NormalOnward(s[1..], "", false);
    BeforeTwice(statements, Emit(text, live), Split(s[1..], "", false));
  }

  lemma EndOfSource(state: State, text: string, live: bool)
    ensures Onward(state, "", text, live) ==
            if state.InQuote? || state == InBlockComment then Err(StateFault(state)) else Ok(Emit(text, live))
  {
    assert text + "" == text;
  }

  lemma StartOfSource(source: string)
    ensures Before([], Onward(Normal, source, "", false)) == Statements(source)
  {
    NormalOnward(source, "", false);
    if Statements(source).Ok? {
      assert [] + Statements(source).statements == Statements(source).statements;
    }
  }

  lemma Later(s: string, i: nat, n: nat)
    requires i + n <= |s|
    ensures s[i..][n..] == s[i + n..]
  {
  }

  /** Consumes the next byte outside a semicolon, with those that belong to it. */
  method Consume(s: string, state: State, ghost text: string, live: bool) returns (n: nat, state': State, live': bool)
    requires s != "" && (state == Normal ==> s[0] != ';')
    ensures 1 <= n <= |s|
    ensures Onward(state, s, text, live) == Onward(state', s[n..], text + s[..n], live')
  {
    if state == Normal {
      NormalOnward(s, text, live);
      n, state', live' := ConsumeNormalByte(s, text, live);
    } else {
      n, state' := ConsumePendingByte(s, state, text, live);
      live' := live;
    }
  }

  /** What a scan holds between two bytes. */
  datatype Scan = Scan(statements: seq<string>, statement: string, state: State, live: bool)

  /** What the statements will be when this scan goes on over rest. */
  function Outcome(scan: Scan, rest: string): Result {
    Before(scan.statements, Onward(scan.state, rest, scan.statement, scan.live))
  }

  /** Handles the next byte, with those that belong to it. */
  method Step(s: string, scan: Scan) returns (n: nat, next: Scan)
    requires s != ""
    ensures 1 <= n <= |s|
    ensures Outcome(scan, s) == Outcome(next, s[n..])
  {
    if scan.state == Normal && s[0] == ';' {
      CutStatement(scan.statements, s, scan.statement, scan.live);
      n, next := 1, Scan(scan.statements + Emit(scan.statement, scan.live), "", Normal, false);
    } else {
      var state, live;
      n, state, live := Consume(s, scan.state, scan.statement, scan.live);
      next := Scan(scan.statements, scan.statement + s[..n], state, live);
    }
  }

  /** One pass over the bytes computes the statements. */
  method SplitStatements(source: string) returns (r: Result)
    ensures r == Statements(source)
  {
    var scan := Scan([], "", Normal, false);
    var i := 0;
    StartOfSource(source);
    assert source[0..] == source;
    while i < |source|
      invariant i <= |source|
      invariant Outcome(scan, source[i..]) == Statements(source)
    {
      var n;
      n, scan := Step(source[i..], scan);
      Later(source, i, n);
      i := i + n;
    }
    assert source[i..] == "";
    EndOfScan(scan);
    if scan.state.InQuote? || scan.state == InBlockComment {
      return Err(StateFault(scan.state));
    }
    r := Ok(scan.statements + Emit(scan.statement, scan.live));
  }

  lemma EndOfScan(scan: Scan)
    ensures Outcome(scan, "") ==
            if scan.state.InQuote? || scan.state == InBlockComment then Err(StateFault(scan.state))
            else Ok(scan.statements + Emit(scan.statement, scan.live))
  {
    EndOfSource(scan.state, scan.statement, scan.live);
  }
}
