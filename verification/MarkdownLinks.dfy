/** Links that Markdown would make without delimiters (internal/report/markdown.go): a scheme
    before "://" and a host that begins with "www." are broken by a backslash. */
module MarkdownLinks {
  import opened Markdown

  predicate SchemeRune(t: Tables, c: int) {
    WordRune(t, c) || c in {'+' as int, '-' as int, '.' as int}
  }

  /** A scheme of n runes that begins with a letter is at p, with a live colon behind it; it is
      as long as it can be, and not the rest of a spelled-out escape. */
  predicate SchemeLink(t: Tables, s: seq<int>, p: nat, n: nat) {
    && 0 < n && p + n + 2 < |s|
    && s[p + n] == ':' as int && s[p + n + 1] == '/' as int && s[p + n + 2] == '/' as int
    && t.letter(s[p]) && (forall j :: p <= j < p + n ==> SchemeRune(t, s[j]))
    && (p > 0 ==> !SchemeRune(t, s[p - 1]) && s[p - 1] != BACKSLASH)
  }

  predicate W(c: int) {
    c == 'w' as int || c == 'W' as int
  }

  /** A free-standing www is at p, with a live dot behind it. */
  predicate HostLink(t: Tables, s: seq<int>, p: nat) {
    && p + 3 < |s| && W(s[p]) && W(s[p + 1]) && W(s[p + 2]) && s[p + 3] == '.' as int
    && (p > 0 ==> !WordRune(t, s[p - 1]) && s[p - 1] != BACKSLASH)
  }

  /** What stands behind a rune that is no letter, digit or backslash begins with a unit of its
      own, and that rune is the unit before it. */
  lemma {:induction false} Aligned(ws: seq<Written>, i: nat, out: seq<int>, p: nat) returns (u: nat)
    requires AllPlausible(ws) && i <= |ws| && out == Flat(ws, i) && p < |out|
    requires p > 0 ==> out[p - 1] != BACKSLASH && !Alphanumeric(out[p - 1])
    ensures i <= u < |ws| && out[p..] == Flat(ws, u)
    ensures if p == 0 then u == i else u > i && ws[u - 1].code == out[p - 1]
    decreases p
  {
    if p == 0 {
      u := i;
    } else {
      var n := |ws[i].piece|;
      WholePiece(ws[i], out, p);
      assert out[n..] == Flat(ws, i + 1);
      if p == n {
        u := i + 1;
      } else {
        u := Aligned(ws, i + 1, out[n..], p - n);
        assert out[p..] == out[n..][p - n..];
      }
    }
  }

  /** The first unit is written within the first p runes, and fills them only with itself. */
  lemma WholePiece(w: Written, out: seq<int>, p: nat)
    requires Plausible(w) && w.piece <= out && 0 < p < |out|
    requires out[p - 1] != BACKSLASH && !Alphanumeric(out[p - 1])
    ensures 0 < |w.piece| <= p && (p == |w.piece| ==> w.code == out[p - 1])
  {
    assert forall k :: 0 <= k < |w.piece| ==> out[k] == w.piece[k];
  }

  lemma {:induction false} SchemeStartIs(t: Tables, units: seq<Unit>, u: nat, i: nat)
    requires u < i <= |units| && forall j :: u <= j < i ==> Scheme(t, units[j])
    requires u > 0 ==> !Scheme(t, units[u - 1])
    ensures SchemeStart(t, units, i) == u
    decreases i
  {
    if i > u + 1 {
      SchemeStartIs(t, units, u, i - 1);
    }
  }

  /** s is what the units from u on are written as. */
  predicate Spells(units: seq<Unit>, u: nat, s: seq<int>) {
    u + |s| <= |units| && Codes(units)[u..u + |s|] == s
  }

  lemma SpellsAt(units: seq<Unit>, u: nat, s: seq<int>, j: nat)
    requires Spells(units, u, s) && j < |s|
    ensures Code(units[u + j]) == s[j]
  {
    assert Codes(units)[u..u + |s|][j] == Codes(units)[u + j];
  }

  lemma SchemeColonOpens(t: Tables, units: seq<Unit>, s: seq<int>, u: nat, n: nat)
    requires Spells(units, u, s) && SchemeLink(t, s, 0, n) && (u > 0 ==> !Scheme(t, units[u - 1]))
    ensures Opens(t, units, u + n)
  {
    SchemeBegins(t, units, s, u, n);
    SpellsAt(units, u, s, n);
    SpellsAt(units, u, s, n + 1);
    SpellsAt(units, u, s, n + 2);
    assert AutolinkDelimiter(t, units, u + n);
  }

  lemma SchemeBegins(t: Tables, units: seq<Unit>, s: seq<int>, u: nat, n: nat)
    requires Spells(units, u, s) && SchemeLink(t, s, 0, n) && (u > 0 ==> !Scheme(t, units[u - 1]))
    ensures SchemeStart(t, units, u + n) == u && t.letter(Code(units[u]))
  {
    forall j | u <= j < u + n ensures Scheme(t, units[j]) {
      SpellsAt(units, u, s, j - u);
    }
    SchemeStartIs(t, units, u, u + n);
    SpellsAt(units, u, s, 0);
  }

  /** ws says what a unit is, and whether it is bare. */
  predicate Described(t: Tables, units: seq<Unit>, ws: seq<Written>, k: nat) {
    k < |ws| == |units| && ws[k].code == Code(units[k]) && (ws[k].bare ==> Bare(t, units, k))
  }

  ghost predicate Describes(t: Tables, units: seq<Unit>, ws: seq<Written>) {
    |ws| == |units| && forall k :: 0 <= k < |ws| ==> Described(t, units, ws, k)
  }

  /** The m units from u on are bare, and s is what they and the rune before them are. */
  ghost predicate Stands(ws: seq<Written>, u: nat, s: seq<int>, p: nat, m: nat) {
    && p + m <= |s| && Copies(ws, u, s[p..], m)
    && (u > 0 ==> p > 0 && ws[u - 1].code == s[p - 1])
  }

  /** Runes without a backslash that stand behind a boundary are units. */
  lemma Behind(ws: seq<Written>, out: seq<int>, p: nat, m: nat) returns (u: nat)
    requires AllPlausible(ws) && out == Flat(ws, 0) && 0 < m && p + m <= |out| && Clear(out[p..], m)
    requires p > 0 ==> out[p - 1] != BACKSLASH && !Alphanumeric(out[p - 1])
    ensures Stands(ws, u, out, p, m)
  {
    u := Aligned(ws, 0, out, p);
    BarePrefix(ws, u, out[p..], m);
  }

  lemma StandsSpelled(t: Tables, units: seq<Unit>, ws: seq<Written>, u: nat, out: seq<int>, p: nat, m: nat)
    requires Describes(t, units, ws) && Stands(ws, u, out, p, m)
    ensures Spells(units, u, out[p..p + m])
    ensures u > 0 ==> p > 0 && Code(units[u - 1]) == out[p - 1]
  {
    forall k | u <= k < u + m ensures Codes(units)[k] == out[p..p + m][k - u] {
      assert Described(t, units, ws, k);
      assert out[p..][k - u] == out[p..p + m][k - u];
    }
    assert u > 0 ==> Described(t, units, ws, u - 1);
  }

  lemma NoSchemeLink(t: Tables, units: seq<Unit>, ws: seq<Written>, out: seq<int>, p: nat, n: nat)
    requires Classes(t) && out == Flat(ws, 0) && AllPlausible(ws) && Describes(t, units, ws)
    ensures !SchemeLink(t, out, p, n)
  {
    if SchemeLink(t, out, p, n) {
      SchemeIsClear(t, out, p, n);
      var u := Behind(ws, out, p, n + 3);
      StandsSpelled(t, units, ws, u, out, p, n + 3);
      SchemeIsBroken(t, units, ws, out, u, p, n);
    }
  }

  lemma SchemeIsBroken(t: Tables, units: seq<Unit>, ws: seq<Written>, out: seq<int>, u: nat, p: nat, n: nat)
    requires SchemeLink(t, out, p, n) && Describes(t, units, ws) && Spells(units, u, out[p..p + (n + 3)])
    requires u > 0 ==> p > 0 && Code(units[u - 1]) == out[p - 1]
    ensures !ws[u + n].bare
  {
    SchemeMoves(t, out, p, n);
    SchemeColonOpens(t, units, out[p..p + (n + 3)], u, n);
    assert Described(t, units, ws, u + n);
  }

  lemma SchemeIsClear(t: Tables, s: seq<int>, p: nat, n: nat)
    requires Classes(t) && SchemeLink(t, s, p, n)
    ensures Clear(s[p..], n + 3)
    ensures p > 0 ==> s[p - 1] != BACKSLASH && !Alphanumeric(s[p - 1])
  {
    forall j | 0 <= j < n + 3 ensures s[p..][j] != BACKSLASH {
      assert s[p..][j] == s[p + j];
      assert j < n || j == n || j == n + 1 || j == n + 2;
    }
  }

  lemma SchemeMoves(t: Tables, s: seq<int>, p: nat, n: nat)
    requires SchemeLink(t, s, p, n)
    ensures SchemeLink(t, s[p..p + (n + 3)], 0, n)
  {
  }

  lemma NoHostLink(t: Tables, units: seq<Unit>, ws: seq<Written>, out: seq<int>, p: nat)
    requires Classes(t) && out == Flat(ws, 0) && AllPlausible(ws) && Describes(t, units, ws)
    ensures !HostLink(t, out, p)
  {
    if HostLink(t, out, p) {
      HostIsClear(t, out, p);
      var u := Behind(ws, out, p, 4);
      StandsSpelled(t, units, ws, u, out, p, 4);
      HostIsBroken(t, units, ws, out[p..p + 4], u);
    }
  }

  lemma HostIsBroken(t: Tables, units: seq<Unit>, ws: seq<Written>, s: seq<int>, u: nat)
    requires |s| == 4 && Spells(units, u, s) && HostLink(t, s, 0) && (u > 0 ==> !Word(t, units[u - 1]))
    requires Describes(t, units, ws)
    ensures !ws[u + 3].bare
  {
    HostDotOpens(t, units, s, u);
    assert Described(t, units, ws, u + 3);
  }

  lemma HostIsClear(t: Tables, s: seq<int>, p: nat)
    requires Classes(t) && HostLink(t, s, p)
    ensures Clear(s[p..], 4) && HostLink(t, s[p..p + 4], 0)
    ensures p > 0 ==> !Alphanumeric(s[p - 1])
  {
  }

  lemma HostDotOpens(t: Tables, units: seq<Unit>, s: seq<int>, u: nat)
    requires |s| == 4 && Spells(units, u, s) && HostLink(t, s, 0) && (u > 0 ==> !Word(t, units[u - 1]))
    ensures Opens(t, units, u + 3)
  {
    SpellsAt(units, u, s, 0);
    SpellsAt(units, u, s, 1);
    SpellsAt(units, u, s, 2);
    SpellsAt(units, u, s, 3);
    assert AutolinkDelimiter(t, units, u + 3);
  }

  /** In an escaped value no scheme that begins with a letter stands before "://", and no
      free-standing www before a dot. */
  lemma NoLinkForms(t: Tables, value: seq<Byte>)
    requires Sane(t) && Classes(t)
    ensures forall p, n :: !SchemeLink(t, Escape(t, value), p, n)
    ensures forall p :: !HostLink(t, Escape(t, value), p)
  {
    var units, out := Decode(value), Escape(t, value);
    EscapeIsFlat(t, units);
    assert forall k :: 0 <= k < |units| ==> Described(t, units, WrittenAs(t, units), k);
    forall p, n ensures !SchemeLink(t, out, p, n) {
      NoSchemeLink(t, units, WrittenAs(t, units), out, p, n);
    }
    forall p ensures !HostLink(t, out, p) {
      NoHostLink(t, units, WrittenAs(t, units), out, p);
    }
  }
}
