/** Oracle evaluations and their order-free fingerprint (internal/oracle/evaluation.go). */
module Evaluations {
  import opened CanonicalOrder
  import Scenarios

  /** A database value; Other is any type the evidence format does not carry. */
  datatype Value =
    | Null
    | Bool(b: bool)
    | Int64(i: int)
    | Uint64(n: nat)
    | Float64(r: real)
    | NonFinite
    | Text(s: string)
    | Other

  datatype Row = NilRow | Row(cells: map<string, Value>)

  datatype Violation = Violation(oracle: string, kind: string, rows: seq<Row>)

  /** No violations is an explicit pass. */
  datatype OracleResult = OracleResult(oracle: string, violations: seq<Violation>)

  /** Results in declaration order, with their canonical fingerprint. */
  datatype Evaluation = Evaluation(results: seq<OracleResult>, fingerprint: string)

  datatype Fault =
    | NoResults
    | BadOracleId
    | DuplicateOracle
    | ForeignViolation
    | UnknownKind
    | BadRow
    | NoFingerprint
    | FingerprintMismatch

  datatype Result<+T> = Ok(value: T) | Err(fault: Fault)

  const ASSERTION := "assertion"

  /** Text and byte encodings.  JSON and SHA-256 are uninterpreted. */
  datatype Codec = Codec(
    utf8: string -> bool,
    row: Row -> string,
    rows: seq<string> -> string,
    digest: seq<EncodedResult> -> string)

  /** Row lists and canonical documents encode injectively.  Rows need not:
      values of different types may have the same JSON. */
  ghost predicate Faithful(codec: Codec) {
    && (forall a, b :: codec.rows(a) == codec.rows(b) ==> a == b)
    && (forall a, b :: codec.digest(a) == codec.digest(b) ==> a == b)
  }

  // ----- Well-formed results -----

  predicate ValidOracleId(id: string) {
    && id != "" && ('a' <= id[0] <= 'z' || '0' <= id[0] <= '9')
    && forall i :: 0 <= i < |id| ==> 'a' <= id[i] <= 'z' || '0' <= id[i] <= '9' || id[i] == '-'
  }

  predicate ValidValue(codec: Codec, v: Value) {
    !v.NonFinite? && !v.Other? && (v.Text? ==> codec.utf8(v.s))
  }

  predicate ValidRow(codec: Codec, row: Row) {
    && row.Row?
    && forall k :: k in row.cells ==>
         !Scenarios.Blank(k) && codec.utf8(k) && ValidValue(codec, row.cells[k])
  }

  ghost predicate ValidRows(codec: Codec, rows: seq<Row>) {
    forall i :: 0 <= i < |rows| ==> ValidRow(codec, rows[i])
  }

  ghost predicate ValidViolation(codec: Codec, v: Violation, oracle: string) {
    v.oracle == oracle && v.kind == ASSERTION && ValidRows(codec, v.rows)
  }

  ghost predicate ValidViolations(codec: Codec, vs: seq<Violation>, oracle: string) {
    forall i :: 0 <= i < |vs| ==> ValidViolation(codec, vs[i], oracle)
  }

  ghost predicate ValidResult(codec: Codec, r: OracleResult) {
    ValidOracleId(r.oracle) && ValidViolations(codec, r.violations, r.oracle)
  }

  ghost predicate ValidResults(codec: Codec, results: seq<OracleResult>) {
    && results != []
    && (forall i :: 0 <= i < |results| ==> ValidResult(codec, results[i]))
    && forall i, j :: 0 <= i < j < |results| ==> results[i].oracle != results[j].oracle
  }

  // ----- The canonical document -----

  datatype EncodedViolation = EncodedViolation(oracle: string, kind: string, rows: seq<string>)
  datatype EncodedResult = EncodedResult(oracle: string, violations: seq<EncodedViolation>)

  function RowKey(codec: Codec, row: Row): Key {
    Key(codec.row(row), "")
  }

  function KeyRows(codec: Codec, rows: seq<Row>): (r: seq<Keyed<Row>>)
    ensures |r| == |rows|
    ensures forall i :: 0 <= i < |r| ==> r[i] == Keyed(rows[i], RowKey(codec, rows[i]))
  {
    seq(|rows|, i requires 0 <= i < |rows| => Keyed(rows[i], RowKey(codec, rows[i])))
  }

  function SortedRows(codec: Codec, rows: seq<Row>): (r: seq<Row>)
    ensures |r| == |rows|
  {
    Values(Sort(KeyRows(codec, rows)))
  }

  function EncodeRows(codec: Codec, rows: seq<Row>): (r: seq<string>)
    ensures |r| == |rows|
    ensures forall i :: 0 <= i < |r| ==> r[i] == codec.row(rows[i])
  {
    seq(|rows|, i requires 0 <= i < |rows| => codec.row(rows[i]))
  }

  /** Row order removed from each violation. */
  function RowsSorted(codec: Codec, vs: seq<Violation>): (r: seq<Violation>)
    ensures |r| == |vs|
    ensures forall i :: 0 <= i < |r| ==> r[i] == vs[i].(rows := SortedRows(codec, vs[i].rows))
  {
    seq(|vs|, i requires 0 <= i < |vs| => vs[i].(rows := SortedRows(codec, vs[i].rows)))
  }

  function ViolationKey(codec: Codec, v: Violation): Key {
    Key(v.kind, codec.rows(EncodeRows(codec, v.rows)))
  }

  function KeyViolations(codec: Codec, vs: seq<Violation>): (r: seq<Keyed<Violation>>)
    ensures |r| == |vs|
    ensures forall i :: 0 <= i < |r| ==> r[i] == Keyed(vs[i], ViolationKey(codec, vs[i]))
  {
    seq(|vs|, i requires 0 <= i < |vs| => Keyed(vs[i], ViolationKey(codec, vs[i])))
  }

  function SortedViolations(codec: Codec, vs: seq<Violation>): (r: seq<Violation>)
    ensures |r| == |vs|
  {
    Values(Sort(KeyViolations(codec, RowsSorted(codec, vs))))
  }

  /** Row and violation order removed from each result. */
  function ViolationsSorted(codec: Codec, results: seq<OracleResult>): (r: seq<OracleResult>)
    ensures |r| == |results|
    ensures forall i :: 0 <= i < |r| ==>
      r[i] == results[i].(violations := SortedViolations(codec, results[i].violations))
  {
    seq(|results|, i requires 0 <= i < |results| =>
      results[i].(violations := SortedViolations(codec, results[i].violations)))
  }

  function KeyResults(results: seq<OracleResult>): (r: seq<Keyed<OracleResult>>)
    ensures |r| == |results|
    ensures forall i :: 0 <= i < |r| ==> r[i] == Keyed(results[i], Key(results[i].oracle, ""))
  {
    seq(|results|, i requires 0 <= i < |results| => Keyed(results[i], Key(results[i].oracle, "")))
  }

  /** Results by oracle, violations by kind and rows, rows by encoding. */
  function Canonical(codec: Codec, results: seq<OracleResult>): seq<OracleResult> {
    Values(Sort(KeyResults(ViolationsSorted(codec, results))))
  }

  function EncodeViolation(codec: Codec, v: Violation): EncodedViolation {
    EncodedViolation(v.oracle, v.kind, EncodeRows(codec, v.rows))
  }

  function EncodeViolations(codec: Codec, vs: seq<Violation>): (r: seq<EncodedViolation>)
    ensures |r| == |vs|
    ensures forall i :: 0 <= i < |r| ==> r[i] == EncodeViolation(codec, vs[i])
  {
    seq(|vs|, i requires 0 <= i < |vs| => EncodeViolation(codec, vs[i]))
  }

  function EncodeResult(codec: Codec, r: OracleResult): EncodedResult {
    EncodedResult(r.oracle, EncodeViolations(codec, r.violations))
  }

  function EncodeResults(codec: Codec, results: seq<OracleResult>): (r: seq<EncodedResult>)
    ensures |r| == |results|
    ensures forall i :: 0 <= i < |r| ==> r[i] == EncodeResult(codec, results[i])
  {
    seq(|results|, i requires 0 <= i < |results| => EncodeResult(codec, results[i]))
  }

  function Fingerprint(codec: Codec, results: seq<OracleResult>): string {
    codec.digest(EncodeResults(codec, Canonical(codec, results)))
  }

  // ----- What an evaluation says, order aside -----

  datatype ViolationMeaning = ViolationMeaning(oracle: string, kind: string, rows: multiset<string>)
  datatype ResultMeaning = ResultMeaning(oracle: string, violations: multiset<ViolationMeaning>)

  function MeanViolation(codec: Codec, v: Violation): ViolationMeaning {
    ViolationMeaning(v.oracle, v.kind, multiset(EncodeRows(codec, v.rows)))
  }

  function MeanViolations(codec: Codec, vs: seq<Violation>): (r: seq<ViolationMeaning>)
    ensures |r| == |vs|
    ensures forall i :: 0 <= i < |r| ==> r[i] == MeanViolation(codec, vs[i])
  {
    seq(|vs|, i requires 0 <= i < |vs| => MeanViolation(codec, vs[i]))
  }

  function MeanResult(codec: Codec, r: OracleResult): ResultMeaning {
    ResultMeaning(r.oracle, multiset(MeanViolations(codec, r.violations)))
  }

  function MeanResults(codec: Codec, results: seq<OracleResult>): (r: seq<ResultMeaning>)
    ensures |r| == |results|
    ensures forall i :: 0 <= i < |r| ==> r[i] == MeanResult(codec, results[i])
  {
    seq(|results|, i requires 0 <= i < |results| => MeanResult(codec, results[i]))
  }

  /** a and b agree up to the order of results, of violations within a result,
      and of rows within a violation. */
  ghost predicate SameEvidence(codec: Codec, a: seq<OracleResult>, b: seq<OracleResult>) {
    multiset(MeanResults(codec, a)) == multiset(MeanResults(codec, b))
  }

  // ----- Rows -----

  /** Row encodings as a self-keyed list. */
  function KeyEncodings(rows: seq<string>): (r: seq<Keyed<string>>)
    ensures |r| == |rows|
    ensures forall i :: 0 <= i < |r| ==> r[i] == Keyed(rows[i], Key(rows[i], ""))
  {
    seq(|rows|, i requires 0 <= i < |rows| => Keyed(rows[i], Key(rows[i], "")))
  }

  lemma SortedEncodings(codec: Codec, rows: seq<Row>)
    ensures EncodeRows(codec, SortedRows(codec, rows)) == Values(Sort(KeyEncodings(EncodeRows(codec, rows))))
  {
    var keyed := KeyRows(codec, rows);
    SortSeesOnlyKeys(codec.row, keyed);
    assert Lift(codec.row, keyed) == KeyEncodings(EncodeRows(codec, rows));
    assert EncodeRows(codec, Values(Sort(keyed))) == Values(Lift(codec.row, Sort(keyed)));
  }

  lemma ValuesPermute<T(!new)>(s: seq<Keyed<T>>)
    ensures multiset(Values(Sort(s))) == multiset(Values(s))
  {
    SortOrders(s);
    var t := Sort(s);
    assert Paired(t, Values(t), s, Values(s));
    Transfer(t, Values(t), s, Values(s));
  }

  lemma SortingIsUnique<T(!new)>(a: seq<Keyed<T>>, b: seq<Keyed<T>>)
    requires multiset(a) == multiset(b) && KeysIdentify(a)
    ensures Sort(a) == Sort(b)
  {
    SortOrders(a);
    SortOrders(b);
    PermutedKeysIdentify(a, Sort(a));
    OrderIsUnique(Sort(a), Sort(b));
  }

  lemma PermutedKeysIdentify<T>(a: seq<Keyed<T>>, b: seq<Keyed<T>>)
    requires multiset(a) == multiset(b) && KeysIdentify(a)
    ensures KeysIdentify(b)
  {
    forall i, j | 0 <= i < |b| && 0 <= j < |b| && b[i].key == b[j].key ensures b[i] == b[j] {
      assert b[i] in multiset(a) && b[j] in multiset(a);
      assert b[i] in a && b[j] in a;
    }
  }

  /** Sorting two keyed lists gives the same values exactly when they are the same
      up to order, provided keys identify values. */
  lemma SortedValuesAgree<T(!new)>(a: seq<Keyed<T>>, b: seq<Keyed<T>>)
    requires KeysIdentify(a)
    requires Paired(Values(a), a, Values(b), b)
    ensures Values(Sort(a)) == Values(Sort(b)) <==> multiset(Values(a)) == multiset(Values(b))
  {
    ValuesPermute(a);
    ValuesPermute(b);
    if multiset(Values(a)) == multiset(Values(b)) {
      Transfer(Values(a), a, Values(b), b);
      SortingIsUnique(a, b);
    }
  }

  /** Whatever a sort does with rows that encode alike, the encodings come out the same. */
  lemma TiesDoNotMatter(codec: Codec, rows: seq<Row>, sorted: seq<Row>)
    requires multiset(sorted) == multiset(rows)
    requires Ordered(KeyRows(codec, sorted))
    ensures EncodeRows(codec, sorted) == EncodeRows(codec, SortedRows(codec, rows))
  {
    var e := EncodeRows(codec, sorted);
    EncodingsPermute(codec, sorted, rows);
    SortedEncodings(codec, rows);
    var k, k' := KeyEncodings(e), KeyEncodings(EncodeRows(codec, rows));
    assert Paired(e, k, EncodeRows(codec, rows), k');
    Transfer(e, k, EncodeRows(codec, rows), k');
    SortOrders(k');
    assert Ordered(k) by {
      assert forall i :: 0 <= i < |k| ==> k[i].key == KeyRows(codec, sorted)[i].key;
    }
    OrderIsUnique(k, Sort(k'));
    assert Values(k) == e;
  }

  lemma EncodingsPermute(codec: Codec, a: seq<Row>, b: seq<Row>)
    requires multiset(a) == multiset(b)
    ensures multiset(EncodeRows(codec, a)) == multiset(EncodeRows(codec, b))
  {
    assert Paired(a, EncodeRows(codec, a), b, EncodeRows(codec, b));
    Transfer(a, EncodeRows(codec, a), b, EncodeRows(codec, b));
  }

  /** Sorted rows encode alike exactly when the rows are the same up to order. */
  lemma SameRows(codec: Codec, a: seq<Row>, b: seq<Row>)
    ensures EncodeRows(codec, SortedRows(codec, a)) == EncodeRows(codec, SortedRows(codec, b))
            <==> multiset(EncodeRows(codec, a)) == multiset(EncodeRows(codec, b))
  {
    SortedEncodings(codec, a);
    SortedEncodings(codec, b);
    var x, y := EncodeRows(codec, a), EncodeRows(codec, b);
    var kx, ky := KeyEncodings(x), KeyEncodings(y);
    assert Values(kx) == x && Values(ky) == y;
    SortedValuesAgree(kx, ky);
  }

  // ----- Violations -----

  /** A violation as it stands in the canonical document. */
  function SealViolation(codec: Codec, v: Violation): EncodedViolation {
    EncodeViolation(codec, v.(rows := SortedRows(codec, v.rows)))
  }

  function SealViolations(codec: Codec, vs: seq<Violation>): (r: seq<EncodedViolation>)
    ensures |r| == |vs|
    ensures forall i :: 0 <= i < |r| ==> r[i] == SealViolation(codec, vs[i])
  {
    seq(|vs|, i requires 0 <= i < |vs| => SealViolation(codec, vs[i]))
  }

  function KeySealed(codec: Codec, vs: seq<EncodedViolation>): (r: seq<Keyed<EncodedViolation>>)
    ensures |r| == |vs|
    ensures forall i :: 0 <= i < |r| ==> r[i] == Keyed(vs[i], Key(vs[i].kind, codec.rows(vs[i].rows)))
  {
    seq(|vs|, i requires 0 <= i < |vs| => Keyed(vs[i], Key(vs[i].kind, codec.rows(vs[i].rows))))
  }

  lemma SealedViolations(codec: Codec, vs: seq<Violation>)
    ensures EncodeViolations(codec, SortedViolations(codec, vs))
         == Values(Sort(KeySealed(codec, SealViolations(codec, vs))))
  {
    var keyed := KeyViolations(codec, RowsSorted(codec, vs));
    var encode := v => EncodeViolation(codec, v);
    SortSeesOnlyKeys(encode, keyed);
    assert Lift(encode, keyed) == KeySealed(codec, SealViolations(codec, vs));
    assert EncodeViolations(codec, Values(Sort(keyed))) == Values(Lift(encode, Sort(keyed)));
  }

  /** The canonical violations of one oracle agree exactly when the violations are
      the same up to order. */
  lemma SameViolations(codec: Codec, a: seq<Violation>, b: seq<Violation>, oracle: string)
    requires Faithful(codec)
    requires ValidViolations(codec, a, oracle) && ValidViolations(codec, b, oracle)
    ensures EncodeViolations(codec, SortedViolations(codec, a))
            == EncodeViolations(codec, SortedViolations(codec, b))
            <==> multiset(MeanViolations(codec, a)) == multiset(MeanViolations(codec, b))
  {
    SealedViolations(codec, a);
    SealedViolations(codec, b);
    var x, y := SealViolations(codec, a), SealViolations(codec, b);
    SealsCarryMeaning(codec, a, b);
    var kx, ky := KeySealed(codec, x), KeySealed(codec, y);
    assert Values(kx) == x && Values(ky) == y;
    SealKeysIdentify(codec, a, oracle);
    SortedValuesAgree(kx, ky);
  }

  lemma SealKeysIdentify(codec: Codec, vs: seq<Violation>, oracle: string)
    requires Faithful(codec) && ValidViolations(codec, vs, oracle)
    ensures KeysIdentify(KeySealed(codec, SealViolations(codec, vs)))
  {
    var x := SealViolations(codec, vs);
    forall i, j | 0 <= i < |x| && 0 <= j < |x| && codec.rows(x[i].rows) == codec.rows(x[j].rows)
      ensures x[i] == x[j]
    {
      assert ValidViolation(codec, vs[i], oracle) && ValidViolation(codec, vs[j], oracle);
    }
  }

  lemma SealsCarryMeaning(codec: Codec, a: seq<Violation>, b: seq<Violation>)
    ensures multiset(SealViolations(codec, a)) == multiset(SealViolations(codec, b))
            <==> multiset(MeanViolations(codec, a)) == multiset(MeanViolations(codec, b))
  {
    var x, y := SealViolations(codec, a), SealViolations(codec, b);
    var m, n := MeanViolations(codec, a), MeanViolations(codec, b);
    forall i, j | 0 <= i < |a| && 0 <= j < |b| ensures x[i] == y[j] <==> m[i] == n[j] {
      SameRows(codec, a[i].rows, b[j].rows);
    }
    if multiset(x) == multiset(y) {
      assert Paired(x, m, y, n);
      Transfer(x, m, y, n);
    }
    if multiset(m) == multiset(n) {
      assert Paired(m, x, n, y);
      Transfer(m, x, n, y);
    }
  }

  // ----- Results -----

  function SealResult(codec: Codec, r: OracleResult): EncodedResult {
    EncodedResult(r.oracle, EncodeViolations(codec, SortedViolations(codec, r.violations)))
  }

  function SealResults(codec: Codec, results: seq<OracleResult>): (r: seq<EncodedResult>)
    ensures |r| == |results|
    ensures forall i :: 0 <= i < |r| ==> r[i] == SealResult(codec, results[i])
  {
    seq(|results|, i requires 0 <= i < |results| => SealResult(codec, results[i]))
  }

  function KeySealedResults(results: seq<EncodedResult>): (r: seq<Keyed<EncodedResult>>)
    ensures |r| == |results|
    ensures forall i :: 0 <= i < |r| ==> r[i] == Keyed(results[i], Key(results[i].oracle, ""))
  {
    seq(|results|, i requires 0 <= i < |results| => Keyed(results[i], Key(results[i].oracle, "")))
  }

  lemma SealedResults(codec: Codec, results: seq<OracleResult>)
    ensures EncodeResults(codec, Canonical(codec, results))
         == Values(Sort(KeySealedResults(SealResults(codec, results))))
  {
    var keyed := KeyResults(ViolationsSorted(codec, results));
    var encode := r => EncodeResult(codec, r);
    SortSeesOnlyKeys(encode, keyed);
    assert Lift(encode, keyed) == KeySealedResults(SealResults(codec, results));
    assert EncodeResults(codec, Values(Sort(keyed))) == Values(Lift(encode, Sort(keyed)));
  }

  lemma ResultSealsCarryMeaning(codec: Codec, a: seq<OracleResult>, b: seq<OracleResult>)
    requires Faithful(codec) && ValidResults(codec, a) && ValidResults(codec, b)
    ensures multiset(SealResults(codec, a)) == multiset(SealResults(codec, b))
            <==> SameEvidence(codec, a, b)
  {
    var x, y := SealResults(codec, a), SealResults(codec, b);
    var m, n := MeanResults(codec, a), MeanResults(codec, b);
    forall i, j | 0 <= i < |a| && 0 <= j < |b| ensures x[i] == y[j] <==> m[i] == n[j] {
      if a[i].oracle == b[j].oracle {
        SameViolations(codec, a[i].violations, b[j].violations, a[i].oracle);
      }
    }
    if multiset(x) == multiset(y) {
      assert Paired(x, m, y, n);
      Transfer(x, m, y, n);
    }
    if multiset(m) == multiset(n) {
      assert Paired(m, x, n, y);
      Transfer(m, x, n, y);
    }
  }

  lemma ResultKeysIdentify(codec: Codec, results: seq<OracleResult>)
    requires ValidResults(codec, results)
    ensures KeysIdentify(KeySealedResults(SealResults(codec, results)))
  {
    forall i, j | 0 <= i < |results| && 0 <= j < |results| && results[i].oracle == results[j].oracle
      ensures i == j
    {
    }
  }

  lemma SameDocuments(codec: Codec, a: seq<EncodedResult>, b: seq<EncodedResult>)
    requires KeysIdentify(KeySealedResults(a))
    ensures Values(Sort(KeySealedResults(a))) == Values(Sort(KeySealedResults(b)))
            <==> multiset(a) == multiset(b)
  {
    var ka, kb := KeySealedResults(a), KeySealedResults(b);
    assert Values(ka) == a && Values(kb) == b;
    SortedValuesAgree(ka, kb);
  }

  /** Two valid evaluations have the same fingerprint exactly when they carry the
      same evidence up to order. */
  lemma FingerprintsIdentifyEvidence(codec: Codec, a: seq<OracleResult>, b: seq<OracleResult>)
    requires Faithful(codec) && ValidResults(codec, a) && ValidResults(codec, b)
    ensures Fingerprint(codec, a) == Fingerprint(codec, b) <==> SameEvidence(codec, a, b)
  {
    SealedResults(codec, a);
    SealedResults(codec, b);
    ResultSealsCarryMeaning(codec, a, b);
    ResultKeysIdentify(codec, a);
    SameDocuments(codec, SealResults(codec, a), SealResults(codec, b));
  }

  // ----- Validation and cloning -----

  method CloneRows(codec: Codec, rows: seq<Row>) returns (r: Result<seq<Row>>)
    ensures r.Ok? <==> ValidRows(codec, rows)
    ensures r.Ok? ==> r.value == rows
  {
    var cloned: seq<Row> := [];
    for i := 0 to |rows|
      invariant cloned == rows[..i]
      invariant ValidRows(codec, rows[..i])
    {
      if !ValidRow(codec, rows[i]) {
        return Err(BadRow);
      }
      cloned := cloned + [rows[i]];
    }
    assert rows[..|rows|] == rows;
    r := Ok(cloned);
  }

  method NormalizeViolation(codec: Codec, v: Violation, oracle: string) returns (r: Result<Violation>)
    ensures r.Ok? <==> ValidViolation(codec, v, oracle)
    ensures r.Ok? ==> r.value == v
  {
    if v.oracle != oracle {
      return Err(ForeignViolation);
    }
    if v.kind != ASSERTION {
      return Err(UnknownKind);
    }
    var rows := CloneRows(codec, v.rows);
    match rows
    case Err(fault) => r := Err(fault);
    case Ok(cloned) => r := Ok(Violation(v.oracle, v.kind, cloned));
  }

  method NormalizeOracleResult(codec: Codec, result: OracleResult) returns (r: Result<OracleResult>)
    ensures r.Ok? <==> ValidResult(codec, result)
    ensures r.Ok? ==> r.value == result
  {
    if !ValidOracleId(result.oracle) {
      return Err(BadOracleId);
    }
    var cloned: seq<Violation> := [];
    for i := 0 to |result.violations|
      invariant cloned == result.violations[..i]
      invariant ValidViolations(codec, result.violations[..i], result.oracle)
    {
      var next := NormalizeViolation(codec, result.violations[i], result.oracle);
      if next.Err? {
        return Err(next.fault);
      }
      cloned := cloned + [next.value];
    }
    assert result.violations[..|result.violations|] == result.violations;
    r := Ok(OracleResult(result.oracle, cloned));
  }

  /** Accepts exactly the valid result lists and keeps their declaration order. */
  method NormalizeResults(codec: Codec, results: seq<OracleResult>) returns (r: Result<seq<OracleResult>>)
    ensures r.Ok? <==> ValidResults(codec, results)
    ensures r.Ok? ==> r.value == results
  {
    if |results| == 0 {
      return Err(NoResults);
    }
    var normalized: seq<OracleResult>, seen: set<string> := [], {};
    for i := 0 to |results|
      invariant normalized == results[..i]
      invariant forall j :: 0 <= j < i ==> ValidResult(codec, results[j])
      invariant forall j :: 0 <= j < i ==> results[j].oracle in seen
      invariant forall id :: id in seen ==> exists j :: 0 <= j < i && results[j].oracle == id
      invariant forall j, k :: 0 <= j < k < i ==> results[j].oracle != results[k].oracle
    {
      var next := NormalizeOracleResult(codec, results[i]);
      if next.Err? {
        return Err(next.fault);
      }
      if next.value.oracle in seen {
        return Err(DuplicateOracle);
      }
      seen := seen + {next.value.oracle};
      normalized := normalized + [next.value];
    }
    r := Ok(normalized);
  }

  // ----- Canonical sorting -----

  method SortCanonicalRows(codec: Codec, rows: array<Row>)
    modifies rows
    ensures rows[..] == SortedRows(codec, old(rows[..]))
  {
    var keyed := new Keyed<Row>[rows.Length](i requires 0 <= i < rows.Length reads rows =>
      Keyed(rows[i], RowKey(codec, rows[i])));
    assert keyed[..] == KeyRows(codec, rows[..]);
    SortStable(keyed);
    for i := 0 to rows.Length
      invariant rows[..i] == Values(keyed[..])[..i]
      invariant keyed[..] == Sort(KeyRows(codec, old(rows[..])))
    {
      rows[i] := keyed[i].value;
    }
    assert rows[..] == rows[..rows.Length];
  }

  method SortCanonicalViolations(codec: Codec, violations: array<Violation>)
    modifies violations
    ensures violations[..] == Values(Sort(KeyViolations(codec, old(violations[..]))))
  {
    var keyed := new Keyed<Violation>[violations.Length](i requires 0 <= i < violations.Length reads violations =>
      Keyed(violations[i], ViolationKey(codec, violations[i])));
    assert keyed[..] == KeyViolations(codec, violations[..]);
    SortStable(keyed);
    for i := 0 to violations.Length
      invariant violations[..i] == Values(keyed[..])[..i]
      invariant keyed[..] == Sort(KeyViolations(codec, old(violations[..])))
    {
      violations[i] := keyed[i].value;
    }
    assert violations[..] == violations[..violations.Length];
  }

  /** Sorts one result's rows, then its violations. */
  method SortResult(codec: Codec, result: OracleResult) returns (r: OracleResult)
    ensures r == result.(violations := SortedViolations(codec, result.violations))
  {
    var vs := result.violations;
    var violations := new Violation[|vs|](i requires 0 <= i < |vs| => vs[i]);
    for i := 0 to |vs|
      invariant violations[..i] == RowsSorted(codec, vs)[..i]
      invariant violations[i..] == vs[i..]
    {
      var rows := new Row[|vs[i].rows|](k requires 0 <= k < |vs[i].rows| => vs[i].rows[k]);
      assert rows[..] == vs[i].rows && violations[i] == vs[i];
      SortCanonicalRows(codec, rows);
      violations[i] := violations[i].(rows := rows[..]);
    }
    assert violations[..] == violations[..|vs|] == RowsSorted(codec, vs);
    SortCanonicalViolations(codec, violations);
    r := result.(violations := violations[..]);
  }

  /** Fingerprints a sorted copy, leaving the declaration order alone. */
  method FingerprintResults(codec: Codec, results: seq<OracleResult>) returns (r: Result<string>)
    ensures r.Ok? <==> ValidResults(codec, results)
    ensures r.Ok? ==> r.value == Fingerprint(codec, results)
  {
    var normalized := NormalizeResults(codec, results);
    if normalized.Err? {
      return Err(normalized.fault);
    }
    var sorted: seq<OracleResult> := [];
    for i := 0 to |results|
      invariant sorted == ViolationsSorted(codec, results)[..i]
    {
      var result := SortResult(codec, normalized.value[i]);
      sorted := sorted + [result];
    }
    assert sorted == ViolationsSorted(codec, results);
    var keyed := new Keyed<OracleResult>[|sorted|](i requires 0 <= i < |sorted| => KeyResults(sorted)[i]);
    assert keyed[..] == KeyResults(sorted);
    SortStable(keyed);
    r := Ok(codec.digest(EncodeResults(codec, Values(keyed[..]))));
  }

  // ----- Evaluations -----

  /** A validated evaluation whose fingerprint is its own. */
  ghost predicate ValidEvaluation(codec: Codec, value: Evaluation) {
    ValidResults(codec, value.results) && value.fingerprint == Fingerprint(codec, value.results)
  }

  method NewEvaluation(codec: Codec, results: seq<OracleResult>) returns (r: Result<Evaluation>)
    ensures r.Ok? <==> ValidResults(codec, results)
    ensures r.Ok? ==> r.value.results == results && ValidEvaluation(codec, r.value)
  {
    var normalized := NormalizeResults(codec, results);
    if normalized.Err? {
      return Err(normalized.fault);
    }
    var fingerprint := FingerprintResults(codec, normalized.value);
    match fingerprint
    case Err(fault) => r := Err(fault);
    case Ok(text) => r := Ok(Evaluation(normalized.value, text));
  }

  method ValidateEvaluation(codec: Codec, value: Evaluation) returns (r: Result<Evaluation>)
    ensures r.Ok? <==> value.fingerprint != "" && ValidEvaluation(codec, value)
    ensures r.Ok? ==> r.value == value
  {
    if value.fingerprint == "" {
      return Err(NoFingerprint);
    }
    var normalized := NormalizeResults(codec, value.results);
    if normalized.Err? {
      return Err(normalized.fault);
    }
    var fingerprint := FingerprintResults(codec, normalized.value);
    match fingerprint
    case Err(fault) => r := Err(fault);
    case Ok(text) =>
      if text != value.fingerprint {
        return Err(FingerprintMismatch);
      }
      r := Ok(Evaluation(normalized.value, text));
  }
}
