/** Which escaped values open block syntax when they stand on a line of their own
    (internal/report/markdown.go; sections 4 and 5 of the CommonMark specification). */
module MarkdownBlocks {
  import opened Markdown

  // ----- Block syntax -----

  /** s begins with n blanks and then something else, not so far in as to be code. */
  predicate Lead(s: seq<int>, n: nat) {
    n <= 3 && n < |s| && !Blank(s[n]) && forall k :: 0 <= k < n ==> Blank(s[k])
  }

  /** A heading, a quote, an HTML block, a fence or a link definition. */
  predicate Opener(s: seq<int>, n: nat) {
    && Lead(s, n)
    && s[n] in {'#' as int, '>' as int, '<' as int, '`' as int, '~' as int, '[' as int}
  }

  predicate Digit(c: int) {
    '0' as int <= c <= '9' as int
  }

  /** A bullet, or d digits and a dot or parenthesis. */
  predicate Marker(s: seq<int>, n: nat, d: nat) {
    && Lead(s, n) && n + d < |s| && d <= 9
    && (if d == 0 then s[n] in {'-' as int, '+' as int, '*' as int}
        else s[n + d] in {'.' as int, ')' as int} && forall k :: n <= k < n + d ==> Digit(s[k]))
  }

  /** A list item: a marker at the end of the line or before a blank. */
  predicate Item(s: seq<int>, n: nat, d: nat) {
    Marker(s, n, d) && (n + d + 1 == |s| || Blank(s[n + d + 1]))
  }

  function Count(s: seq<int>, c: int): nat {
    if s == [] then 0 else Count(s[..|s| - 1], c) + if s[|s| - 1] == c then 1 else 0
  }

  /** A thematic break: at least three of the same mark, and blanks. */
  predicate Rule(s: seq<int>, n: nat) {
    && Lead(s, n) && s[n] in {'-' as int, '*' as int, '_' as int}
    && (forall k :: n <= k < |s| ==> Blank(s[k]) || s[k] == s[n])
    && Count(s, s[n]) >= 3
  }

  /** The underline of a heading: the same mark up to m, then blanks. */
  predicate Underline(s: seq<int>, n: nat, m: nat) {
    && Lead(s, n) && n < m <= |s| && s[n] in {'=' as int, '-' as int}
    && (forall k :: n <= k < m ==> s[k] == s[n])
    && (forall k :: m <= k < |s| ==> Blank(s[k]))
  }

  ghost predicate BlockSyntax(s: seq<int>) {
    || StartsBlank(s, 4)
    || (exists n :: Opener(s, n))
    || (exists n, d :: Item(s, n, d))
    || (exists n :: Rule(s, n))
    || (exists n, m :: Underline(s, n, m))
  }

  // ----- The values that keep it -----

  /** A list marker and nothing behind it. */
  predicate LoneMarker(s: seq<int>, n: nat, d: nat) {
    Marker(s, n, d) && n + d + 1 == |s| && s[n + d] != '*' as int
  }

  /** A thematic break of dashes, the first two together. */
  predicate DashRule(s: seq<int>, n: nat) {
    Rule(s, n) && s[n] == '-' as int && s[n + 1..] != [] && s[n + 1] == '-' as int
  }

  /** An underline, but not a single dash with blanks behind it. */
  predicate PlainUnderline(s: seq<int>, n: nat, m: nat) {
    Underline(s, n, m) && !(s[n] == '-' as int && m == n + 1 && m < |s|)
  }

  ghost predicate Survives(s: seq<int>) {
    || (exists n, d :: LoneMarker(s, n, d))
    || (exists n :: DashRule(s, n))
    || (exists n, m :: PlainUnderline(s, n, m))
  }

  // ----- They are written as they are -----

  /** The runes that survivors consist of. */
  predicate Simple(c: int) {
    Blank(c) || Digit(c) || c in {'-' as int, '+' as int, '=' as int, '.' as int, ')' as int}
  }

  ghost predicate AllSimple(s: seq<int>) {
    forall k :: 0 <= k < |s| ==> Simple(s[k])
  }

  lemma SimpleIsBare(t: Tables, units: seq<Unit>, n: nat, k: nat)
    requires Sane(t) && Classes(t) && k < |units| && AllSimple(Codes(units)) && Lead(Codes(units), n)
    requires !ListDelimiter(t, units, k)
    ensures Bare(t, units, k)
  {
    var s := Codes(units);
    assert Simple(s[k]);
    assert Code(units[n]) == s[n];
    if Is(units[k], '.') && k >= 3 {
      assert Simple(s[k - 1]) && s[k - 1] == Code(units[k - 1]);
    }
  }

  lemma IndentIs(units: seq<Unit>, n: nat, i: nat)
    requires Lead(Codes(units), n) && n <= i < |units|
    ensures Indent(units, i) == n
  {
    var s := Codes(units);
    assert forall k :: 0 <= k <= n ==> s[k] == Code(units[k]);
  }

  /** A bullet is escaped exactly before a blank; nothing else that survives is. */
  lemma SimpleStays(t: Tables, units: seq<Unit>, n: nat)
    requires Sane(t) && Classes(t) && AllSimple(Codes(units)) && Lead(Codes(units), n)
    requires forall k :: 0 <= k < |units| ==> !ListDelimiter(t, units, k)
    ensures AllBare(t, units) && EscapeFrom(t, units, 0) == Codes(units)
  {
    forall k | 0 <= k < |units| ensures Bare(t, units, k) {
      SimpleIsBare(t, units, n, k);
    }
    BareStays(t, units);
  }

  lemma LoneMarkerStays(t: Tables, units: seq<Unit>, n: nat, d: nat)
    requires Sane(t) && Classes(t) && LoneMarker(Codes(units), n, d)
    ensures EscapeFrom(t, units, 0) == Codes(units)
  {
    var s := Codes(units);
    forall k | 0 <= k < |units| ensures Simple(s[k]) && !ListDelimiter(t, units, k) {
      assert s[k] == Code(units[k]);
      assert k < n || n <= k < n + d || k == n + d;
    }
    SimpleStays(t, units, n);
  }

  /** Behind the first rune of a line of one mark and blanks no marker stands. */
  lemma NoMarkerBehind(t: Tables, units: seq<Unit>, n: nat, k: nat)
    requires Classes(t) && Lead(Codes(units), n) && k < |units|
    requires Blank(Codes(units)[k]) || Codes(units)[k] in {'-' as int, '=' as int}
    requires Codes(units)[n] == '-' as int ==> n + 1 == |units| || !Blank(Codes(units)[n + 1])
    requires n + 1 < |units| ==> Simple(Codes(units)[n + 1])
    requires Codes(units)[n] in {'-' as int, '=' as int}
    ensures !ListDelimiter(t, units, k)
  {
    var s := Codes(units);
    assert s[k] == Code(units[k]) && s[n] == Code(units[n]);
    if k >= n {
      IndentIs(units, n, k);
    }
    if n + 1 < |units| {
      assert s[n + 1] == Code(units[n + 1]);
    }
  }

  lemma DashRuleStays(t: Tables, units: seq<Unit>, n: nat)
    requires Sane(t) && Classes(t) && DashRule(Codes(units), n)
    ensures EscapeFrom(t, units, 0) == Codes(units)
  {
    var s := Codes(units);
    forall k | 0 <= k < |units| ensures Simple(s[k]) && !ListDelimiter(t, units, k) {
      NoMarkerBehind(t, units, n, k);
    }
    SimpleStays(t, units, n);
  }

  lemma PlainUnderlineStays(t: Tables, units: seq<Unit>, n: nat, m: nat)
    requires Sane(t) && Classes(t) && PlainUnderline(Codes(units), n, m)
    ensures EscapeFrom(t, units, 0) == Codes(units)
  {
    var s := Codes(units);
    forall k | 0 <= k < |units| ensures Simple(s[k]) && !ListDelimiter(t, units, k) {
      assert k < n || n <= k < m || m <= k;
      NoMarkerBehind(t, units, n, k);
    }
    SimpleStays(t, units, n);
  }

  // ----- Nothing else opens block syntax -----

  lemma MarkerIsClear(s: seq<int>, n: nat, d: nat)
    requires Marker(s, n, d)
    ensures Clear(s, n + d + 1)
    ensures n + d + 1 < |s| && Blank(s[n + d + 1]) ==> Clear(s, n + d + 2)
  {
    forall k | 0 <= k < n + d + 1 ensures s[k] != BACKSLASH {
      assert k < n || n <= k < n + d || k == n + d;
    }
  }

  /** A marker before a blank is escaped. */
  lemma MarkerOpens(t: Tables, units: seq<Unit>, n: nat, d: nat)
    requires Classes(t) && Marker(Codes(units), n, d)
    ensures n + d + 1 < |units| && Blank(Codes(units)[n + d + 1]) ==> Opens(t, units, n + d)
  {
    var s := Codes(units);
    IndentIs(units, n, n + d);
    assert s[n + d] == Code(units[n + d]);
    assert n + d + 1 < |units| ==> s[n + d + 1] == Code(units[n + d + 1]);
    assert forall k :: n <= k < n + d ==> s[k] == Code(units[k]);
  }

  /** A marker that is written as it is does not stand before a blank. */
  lemma BareMarkerEnds(t: Tables, units: seq<Unit>, n: nat, d: nat)
    requires Classes(t) && Marker(Codes(units), n, d) && Bare(t, units, n + d)
    ensures n + d + 1 < |units| ==> !Blank(Codes(units)[n + d + 1])
    ensures Codes(units)[n + d] != '*' as int
  {
    MarkerOpens(t, units, n, d);
    assert Codes(units)[n + d] == Code(units[n + d]);
  }

  lemma MarkerTransfers(s: seq<int>, s': seq<int>, n: nat, d: nat, m: nat)
    requires Marker(s, n, d) && n + d + 1 <= m <= |s| && m <= |s'| && s'[..m] == s[..m]
    ensures Marker(s', n, d)
    ensures n + d + 1 < m ==> s'[n + d + 1] == s[n + d + 1]
  {
    assert forall k :: 0 <= k < m ==> s'[k] == s'[..m][k] == s[k];
  }

  /** A list item gets through exactly as a lone marker. */
  lemma ItemsThatStay(t: Tables, value: seq<Byte>, n: nat, d: nat)
    requires Sane(t) && Classes(t)
    ensures Item(Escape(t, value), n, d) <==> LoneMarker(Codes(Decode(value)), n, d)
  {
    var units, out := Decode(value), Escape(t, value);
    if Item(out, n, d) {
      ItemIsLone(t, units, n, d);
    }
    if LoneMarker(Codes(units), n, d) {
      LoneMarkerStays(t, units, n, d);
    }
  }

  lemma ItemIsLone(t: Tables, units: seq<Unit>, n: nat, d: nat)
    requires Sane(t) && Classes(t) && Item(EscapeFrom(t, units, 0), n, d)
    ensures LoneMarker(Codes(units), n, d)
  {
    var out := EscapeFrom(t, units, 0);
    var m := if n + d + 1 < |out| then n + d + 2 else n + d + 1;
    MarkerIsClear(out, n, d);
    ClearStays(t, units, m);
    MarkerTransfers(out, Codes(units), n, d, m);
    BareMarkerEnds(t, units, n, d);
  }

  /** A thematic break gets through exactly if it begins with two dashes. */
  lemma RulesThatStay(t: Tables, value: seq<Byte>, n: nat)
    requires Sane(t) && Classes(t)
    ensures Rule(Escape(t, value), n) <==> DashRule(Codes(Decode(value)), n)
  {
    var units, out := Decode(value), Escape(t, value);
    if Rule(out, n) {
      ClearStays(t, units, |out|);
      RuleIsDashed(t, units, n);
    }
    if DashRule(Codes(units), n) {
      DashRuleStays(t, units, n);
    }
  }

  lemma RuleIsDashed(t: Tables, units: seq<Unit>, n: nat)
    requires Sane(t) && Classes(t) && AllBare(t, units) && Rule(Codes(units), n)
    ensures DashRule(Codes(units), n)
  {
    var s := Codes(units);
    FewMarks(s, s[n], n);
    assert Bare(t, units, n) && s[n] == Code(units[n]);
    assert n > 0 ==> s[n - 1] == Code(units[n - 1]);
    if s[n] != '_' as int {
      BareMarkerEnds(t, units, n, 0);
    }
  }

  /** Marks are counted from the first one on. */
  lemma {:induction false} FewMarks(s: seq<int>, c: int, n: nat)
    requires forall k :: 0 <= k < n && k < |s| ==> s[k] != c
    ensures Count(s, c) <= if |s| <= n then 0 else |s| - n
  {
    if s != [] {
      FewMarks(s[..|s| - 1], c, n);
    }
  }

  /** A heading's underline gets through unless it is a single dash with blanks behind it. */
  lemma UnderlinesThatStay(t: Tables, value: seq<Byte>, n: nat, m: nat)
    requires Sane(t) && Classes(t)
    ensures Underline(Escape(t, value), n, m) <==> PlainUnderline(Codes(Decode(value)), n, m)
  {
    var units, out := Decode(value), Escape(t, value);
    if Underline(out, n, m) {
      forall k | 0 <= k < |out| ensures out[k] != BACKSLASH {
        assert k < n || n <= k < m || m <= k;
      }
      ClearStays(t, units, |out|);
      UnderlineIsPlain(t, units, n, m);
    }
    if PlainUnderline(Codes(units), n, m) {
      PlainUnderlineStays(t, units, n, m);
    }
  }

  lemma UnderlineIsPlain(t: Tables, units: seq<Unit>, n: nat, m: nat)
    requires Sane(t) && Classes(t) && AllBare(t, units) && Underline(Codes(units), n, m)
    ensures PlainUnderline(Codes(units), n, m)
  {
    if Codes(units)[n] == '-' as int {
      assert Bare(t, units, n);
      BareMarkerEnds(t, units, n, 0);
    }
  }

  /** No escaped value begins with any other block. */
  lemma NoOpener(t: Tables, value: seq<Byte>, n: nat)
    requires Sane(t) && Classes(t)
    ensures !Opener(Escape(t, value), n)
  {
    var units, out := Decode(value), Escape(t, value);
    if Opener(out, n) {
      OpenerIsClear(out, n);
      ClearStays(t, units, n + 1);
      assert Bare(t, units, n);
      OpenerIsDelimiter(t, units, out, n);
    }
  }

  lemma OpenerIsClear(s: seq<int>, n: nat)
    requires Opener(s, n)
    ensures Clear(s, n + 1) && Delimiter(s[n])
  {
  }

  lemma OpenerIsDelimiter(t: Tables, units: seq<Unit>, out: seq<int>, n: nat)
    requires Opener(out, n) && n < |units| && Codes(units)[..n + 1] == out[..n + 1]
    ensures Opens(t, units, n)
  {
    assert Codes(units)[n] == Codes(units)[..n + 1][n] == out[..n + 1][n] == out[n];
  }

  /** An escaped value opens block syntax exactly when the value is a lone list marker, a
      thematic break that begins with two dashes, or a heading's underline other than a
      single dash with blanks behind it; and then it is written as it is. */
  lemma BlockSyntaxThatStays(t: Tables, value: seq<Byte>)
    requires Sane(t) && Classes(t)
    ensures BlockSyntax(Escape(t, value)) <==> Survives(Codes(Decode(value)))
    ensures BlockSyntax(Escape(t, value)) ==> Escape(t, value) == Codes(Decode(value))
  {
    var out, s := Escape(t, value), Codes(Decode(value));
    EscapeIsHarmless(t, value);
    forall n ensures !Opener(out, n) { NoOpener(t, value, n); }
    forall n, d ensures Item(out, n, d) <==> LoneMarker(s, n, d) { ItemsThatStay(t, value, n, d); }
    forall n ensures Rule(out, n) <==> DashRule(s, n) { RulesThatStay(t, value, n); }
    forall n, m ensures Underline(out, n, m) <==> PlainUnderline(s, n, m) { UnderlinesThatStay(t, value, n, m); }
    SurvivorsStay(t, Decode(value));
  }

  lemma SurvivorsStay(t: Tables, units: seq<Unit>)
    requires Sane(t) && Classes(t)
    ensures Survives(Codes(units)) ==> EscapeFrom(t, units, 0) == Codes(units)
  {
    var s := Codes(units);
    if n, d :| LoneMarker(s, n, d) {
      LoneMarkerStays(t, units, n, d);
    } else if n :| DashRule(s, n) {
      DashRuleStays(t, units, n);
    } else if n, m :| PlainUnderline(s, n, m) {
      PlainUnderlineStays(t, units, n, m);
    }
  }

  // ----- One value of each kind -----

  lemma {:induction false} AsciiCodes(value: seq<Byte>)
    requires forall k :: 0 <= k < |value| ==> value[k] < 0x80
    ensures Codes(Decode(value)) == value
  {
    if value != [] {
      AsciiCodes(value[1..]);
      assert Decode(value) == [DecodeUnit(value)] + Decode(value[1..]);
      assert value == [value[0]] + value[1..];
      assert forall k :: 0 < k < |value| ==> Codes(Decode(value))[k] == Codes(Decode(value[1..]))[k - 1];
    }
  }

  /** A dash and an ordinal stay list items. */
  lemma LoneMarkersStay(t: Tables, dash: seq<Byte>, ordinal: seq<Byte>)
    requires Sane(t) && Classes(t) && dash == [0x2D] && ordinal == [0x31, 0x2E]
    ensures Escape(t, dash) == dash && Item(Escape(t, dash), 0, 0)
    ensures Escape(t, ordinal) == ordinal && Item(Escape(t, ordinal), 0, 1)
  {
    AsciiCodes(dash);
    AsciiCodes(ordinal);
    LoneMarkerStays(t, Decode(dash), 0, 0);
    LoneMarkerStays(t, Decode(ordinal), 0, 1);
  }

  /** Three dashes stay a thematic break. */
  lemma ThreeDashesStay(t: Tables, dashes: seq<Byte>)
    requires Sane(t) && Classes(t) && dashes == [0x2D, 0x2D, 0x2D]
    ensures Escape(t, dashes) == dashes && Rule(Escape(t, dashes), 0)
  {
    AsciiCodes(dashes);
    CountThree(dashes, 0x2D);
    DashRuleStays(t, Decode(dashes), 0);
  }

  lemma CountThree(s: seq<int>, c: int)
    requires s == [c, c, c]
    ensures Count(s, c) == 3
  {
    assert s[..2] == [c, c] && s[..2][..1] == [c] && s[..2][..1][..0] == [];
    assert Count(s[..2][..1], c) == Count([], c) + 1 == 1;
    assert Count(s[..2], c) == Count(s[..2][..1], c) + 1;
  }

  /** Two equals signs stay an underline. */
  lemma EqualsSignsStay(t: Tables, equals: seq<Byte>)
    requires Sane(t) && Classes(t) && equals == [0x3D, 0x3D]
    ensures Escape(t, equals) == equals && Underline(Escape(t, equals), 0, 2)
  {
    AsciiCodes(equals);
    PlainUnderlineStays(t, Decode(equals), 0, 2);
  }
}
