/**
  The row normaliser of the upload component: every decoded spreadsheet row
  becomes a case-study record by looking each field up under its
  human-readable header and then its snake_case alias, and records without a
  compound code are dropped.
 */
module RowNormalizer {
  import opened Seqs
  import opened JsValues

  /** A decoded row: column header to cell. A header the row lacks maps to nothing. */
  type RawRow = map<string, Cell>

  /**
    One case-study record. The fields hold whatever cell the lookup chose:
    a truthy number stays a number, there is no conversion to string.
   */
  datatype CaseStudy = CaseStudy(
    primaryCompoundCode: Cell,
    workPackageCode: Cell,
    studyCode: Cell,
    csrPublishedActual: Cell)

  datatype Field = PrimaryCompoundCode | WorkPackageCode | StudyCode | CsrPublishedActual

  /** The value a record holds in a field. */
  function FieldOf(r: CaseStudy, f: Field): Cell {
    match f
    case PrimaryCompoundCode => r.primaryCompoundCode
    case WorkPackageCode => r.workPackageCode
    case StudyCode => r.studyCode
    case CsrPublishedActual => r.csrPublishedActual
  }

  /** The header tried first for a field. */
  function Title(f: Field): string {
    match f
    case PrimaryCompoundCode => "Primary Compound Code"
    case WorkPackageCode => "Work Package Code"
    case StudyCode => "Study Code"
    case CsrPublishedActual => "CSR Published Actual"
  }

  /** The header tried second for a field. */
  function Alias(f: Field): string {
    match f
    case PrimaryCompoundCode => "primary_compound_code"
    case WorkPackageCode => "work_package_code"
    case StudyCode => "study_code"
    case CsrPublishedActual => "csr_published_actual"
  }

  /** `row[header]`: the cell under exactly that header, `undefined` when there is none. */
  function Lookup(row: RawRow, header: string): Cell {
    if header in row then row[header] else Missing
  }

  /**
    `row[Title] || row[Alias] || ''`: the title cell when it is truthy, else
    the alias cell when that is truthy, else the empty string.
   */
  function Resolve(row: RawRow, f: Field): (c: Cell)
    ensures Truthy(c) <==> Truthy(Lookup(row, Title(f))) || Truthy(Lookup(row, Alias(f)))
    ensures Truthy(Lookup(row, Title(f))) ==> c == Lookup(row, Title(f))
    ensures !Truthy(Lookup(row, Title(f))) && Truthy(Lookup(row, Alias(f))) ==> c == Lookup(row, Alias(f))
    ensures !Truthy(c) ==> c == EmptyString
  {
    Or(Or(Lookup(row, Title(f)), Lookup(row, Alias(f))), EmptyString)
  }

  /**
    The record one row maps to, before filtering: every field is resolved
    from its two headers, so the record has a compound code exactly when the
    row does, and a field none of whose header cells is truthy holds `''`.
   */
  function ToCaseStudy(row: RawRow): (r: CaseStudy)
    ensures forall f: Field :: FieldOf(r, f) == Resolve(row, f)
    ensures Truthy(r.primaryCompoundCode) <==> RowHasCode(row)
    ensures !Truthy(r.workPackageCode) ==> r.workPackageCode == EmptyString
    ensures !Truthy(r.studyCode) ==> r.studyCode == EmptyString
    ensures !Truthy(r.csrPublishedActual) ==> r.csrPublishedActual == EmptyString
  {
    CaseStudy(
      Resolve(row, PrimaryCompoundCode),
      Resolve(row, WorkPackageCode),
      Resolve(row, StudyCode),
      Resolve(row, CsrPublishedActual))
  }

  /** The filter test `item => item.primaryCompoundCode`. */
  predicate HasCompoundCode(r: CaseStudy) {
    Truthy(r.primaryCompoundCode)
  }

  /** A row supplies a compound code under one of the two accepted headers. */
  predicate RowHasCode(row: RawRow) {
    Truthy(Lookup(row, Title(PrimaryCompoundCode))) || Truthy(Lookup(row, Alias(PrimaryCompoundCode)))
  }

  /** `rows.map(...)`: one record per row, at the same position. */
  function MapRows(rows: seq<RawRow>): (r: seq<CaseStudy>)
    ensures |r| == |rows| && forall i :: 0 <= i < |rows| ==> r[i] == ToCaseStudy(rows[i])
  {
    seq(|rows|, i requires 0 <= i < |rows| => ToCaseStudy(rows[i]))
  }

  /** `rows.map(...).filter(item => item.primaryCompoundCode)`. */
  function Normalize(rows: seq<RawRow>): (out: seq<CaseStudy>)
    ensures |out| <= |rows|
    ensures forall r :: r in out ==> Truthy(r.primaryCompoundCode)
  {
    Filter(MapRows(rows), HasCompoundCode)
  }

  /** The positions of the rows that survive the filter. */
  function KeptRows(rows: seq<RawRow>): seq<nat> {
    KeptPositions(MapRows(rows), HasCompoundCode)
  }

  /**
    The output is the order-preserving subsequence of the mapped rows taken at
    exactly the positions of the rows that have a compound code.
   */
  lemma NormalizeSelectsCodedRows(rows: seq<RawRow>)
    ensures SelectedAt(Normalize(rows), MapRows(rows), KeptRows(rows))
    ensures forall i :: 0 <= i < |rows| ==> (i in KeptRows(rows) <==> RowHasCode(rows[i]))
  {
    FilterSelects(MapRows(rows), HasCompoundCode);
  }

  /** Nothing is dropped exactly when every row has a compound code under one of its two headers. */
  lemma NormalizeKeepsAllIff(rows: seq<RawRow>)
    ensures |Normalize(rows)| == |rows| <==> forall i :: 0 <= i < |rows| ==> RowHasCode(rows[i])
    ensures (forall i :: 0 <= i < |rows| ==> RowHasCode(rows[i])) ==> Normalize(rows) == MapRows(rows)
  {
    var mapped := MapRows(rows);
    FilterKeepsAll(mapped, HasCompoundCode);
    assert forall i :: 0 <= i < |rows| ==> (HasCompoundCode(mapped[i]) <==> RowHasCode(rows[i]));
  }

  /** Normalising no rows gives no records. */
  lemma NormalizeEmpty()
    ensures Normalize([]) == []
  {
  }

  /** A column under any other header, such as a different capitalisation, changes no field. */
  lemma OtherHeadersIgnored(row: RawRow, header: string, v: Cell)
    requires forall f: Field :: header != Title(f) && header != Alias(f)
    ensures ToCaseStudy(row[header := v]) == ToCaseStudy(row)
  {
    forall f: Field ensures Resolve(row[header := v], f) == Resolve(row, f) {
      assert Lookup(row[header := v], Title(f)) == Lookup(row, Title(f));
      assert Lookup(row[header := v], Alias(f)) == Lookup(row, Alias(f));
    }
  }

  /** Only the compound-code headers decide whether a row is kept; optional columns never drop it. */
  lemma OptionalFieldsNeverDrop(row: RawRow, header: string, v: Cell)
    requires header != Title(PrimaryCompoundCode) && header != Alias(PrimaryCompoundCode)
    ensures RowHasCode(row[header := v]) == RowHasCode(row)
    ensures Normalize([row[header := v]]) == [] <==> Normalize([row]) == []
  {
    assert Lookup(row[header := v], Title(PrimaryCompoundCode)) == Lookup(row, Title(PrimaryCompoundCode));
    assert Lookup(row[header := v], Alias(PrimaryCompoundCode)) == Lookup(row, Alias(PrimaryCompoundCode));
    NormalizeKeepsAllIff([row[header := v]]);
    NormalizeKeepsAllIff([row]);
  }

  /** A row with a code but none of the optional columns is kept, with `''` in the optional fields. */
  lemma MissingOptionalFieldsDefault(code: string)
    requires code != ""
    ensures Normalize([map[Title(PrimaryCompoundCode) := Str(code)]])
         == [CaseStudy(Str(code), EmptyString, EmptyString, EmptyString)]
  {
    var row := map[Title(PrimaryCompoundCode) := Str(code)];
    NormalizeKeepsAllIff([row]);
  }

  /** A falsy cell under the title header loses to the alias: `0` then `"CPD-9"` gives `"CPD-9"`. */
  lemma FalsyTitleFallsThrough()
    ensures var row := map["Primary Compound Code" := Num(0), "primary_compound_code" := Str("CPD-9")];
      Resolve(row, PrimaryCompoundCode) == Str("CPD-9")
  {
  }

  /** A truthy number is kept as a number, not converted to a string. */
  lemma NumberCodePassesThrough(n: int)
    requires n != 0
    ensures Resolve(map["Primary Compound Code" := Num(n)], PrimaryCompoundCode) == Num(n)
  {
  }

  /** A row whose title cell is empty and which has no alias column is dropped, whatever its study code. */
  lemma EmptyCodeRowDropped(study: string)
    ensures Normalize([map["Primary Compound Code" := Str(""), "Study Code" := Str(study)]]) == []
  {
  }
}
