/** The nightly import: validation, transformation with a team cache, batch upsert, and the
    all-or-nothing run record (domain/ingestion.py, adapters/persistence/import_runs.py,
    sales_data.py, teams.py, staging.py). Parsing is an abstract partial function. */
module Import {
  import opened Prelude
  import Strings

  type Raw = map<string, Option<string>>   // a CSV row; None is an absent value

  datatype Decimal = Finite(value: real) | NonFinite

  datatype Parsers = Parsers(date: string -> Option<int>, decimal: string -> Option<Decimal>, integer: string -> Option<int>)

  // The number parsers reject the empty string.
  ghost predicate Sound(p: Parsers) {
    p.decimal("").None? && p.integer("").None?
  }

  datatype Kind = SalesRows | BrandRows | DoctorRows

  datatype Reason = Missing(field: string) | Malformed(field: string) | NotFinite(field: string) | Negative(field: string)
                  | NotPositive(field: string) | TooLarge(field: string) | UnexpectedColumns(columns: set<string>)

  const MAX_INTEGER := 2147483647

  const DOCTOR_COLUMNS: set<string> := {"external_doctor_id", "name", "territory", "priority"}

  function Columns(kind: Kind): set<string> {
    match kind
    case SalesRows => {"date", "team", "sales_amount", "achievement_pct", "growth_pct"}
    case BrandRows => {"external_brand_id", "brand_name", "sales", "rank", "growth_pct"}
    case DoctorRows => DOCTOR_COLUMNS
  }

  // Staging keeps exactly the known columns.
  function Staged(kind: Kind, row: Raw): Raw {
    map c | c in Columns(kind) :: if c in row then row[c] else None
  }

  // row.get(field) or ""
  function Field(row: Raw, field: string): string {
    if field in row && row[field].Some? then row[field].value else ""
  }

  /* ---------- validation ---------- */

  function CheckDecimal(p: Parsers, row: Raw, field: string, nonNegative: bool): Option<Reason> {
    match p.decimal(Field(row, field))
    case None => Some(Malformed(field))
    case Some(NonFinite) => Some(NotFinite(field))
    case Some(Finite(v)) => if nonNegative && v < 0.0 then Some(Negative(field)) else None
  }

  function CheckPositive(p: Parsers, row: Raw, field: string): Option<Reason> {
    match p.integer(Field(row, field))
    case None => Some(Malformed(field))
    case Some(n) => if n <= 0 then Some(NotPositive(field)) else if n > MAX_INTEGER then Some(TooLarge(field)) else None
  }

  function CheckPresent(row: Raw, field: string): Option<Reason> {
    if Field(row, field) == "" then Some(Missing(field)) else None
  }

  function CheckDate(p: Parsers, row: Raw): Option<Reason> {
    if Field(row, "date") == "" then Some(Missing("date"))
    else if p.date(Field(row, "date")).None? then Some(Malformed("date"))
    else None
  }

  function CheckTeam(row: Raw): Option<Reason> {
    if Strings.Strip(Field(row, "team")) == "" then Some(Missing("team")) else None
  }

  // The first reason found is the one reported.
  function Or(first: Option<Reason>, later: Option<Reason>): Option<Reason> {
    if first.Some? then first else later
  }

  function ReasonAgainst(p: Parsers, kind: Kind, row: Raw): Option<Reason> {
    match kind
    case SalesRows =>
      Or(CheckDate(p, row), Or(CheckTeam(row), Or(CheckDecimal(p, row, "sales_amount", true),
         Or(CheckDecimal(p, row, "achievement_pct", false), CheckDecimal(p, row, "growth_pct", false)))))
    case BrandRows =>
      Or(CheckPresent(row, "external_brand_id"), Or(CheckPresent(row, "brand_name"),
         Or(CheckDecimal(p, row, "sales", true), Or(CheckPositive(p, row, "rank"), CheckDecimal(p, row, "growth_pct", false)))))
    case DoctorRows =>
      Or(CheckPresent(row, "external_doctor_id"), Or(CheckPresent(row, "name"),
         Or(CheckPresent(row, "territory"), CheckPositive(p, row, "priority"))))
  }

  // One entity type's verdict on a staged row. Unexpected doctor columns are looked for in the
  // row as the importer returned it, since staging keeps the known ones only.
  function Verdict(p: Parsers, kind: Kind): (Raw, Raw) -> Option<Reason> {
    (staged: Raw, original: Raw) =>
      Or(ReasonAgainst(p, kind, staged),
         if kind.DoctorRows? && !(original.Keys <= DOCTOR_COLUMNS) then Some(UnexpectedColumns(original.Keys - DOCTOR_COLUMNS)) else None)
  }

  function StagedRows(kind: Kind, originals: seq<Raw>): (r: seq<Raw>)
    ensures |r| == |originals|
  {
    seq(|originals|, i requires 0 <= i < |originals| => Staged(kind, originals[i]))
  }

  // The staged rows a verdict finds nothing against.
  function Accepted(verdict: (Raw, Raw) -> Option<Reason>, staged: seq<Raw>, originals: seq<Raw>): seq<Raw>
    requires |staged| == |originals|
  {
    if staged == [] then []
    else
      var n := |staged| - 1;
      Accepted(verdict, staged[..n], originals[..n]) + (if verdict(staged[n], originals[n]).None? then [staged[n]] else [])
  }

  function ValidRows(p: Parsers, kind: Kind, originals: seq<Raw>): seq<Raw> {
    Accepted(Verdict(p, kind), StagedRows(kind, originals), originals)
  }

  // Keeps the accepted rows and counts the others.
  method ValidateStaged(verdict: (Raw, Raw) -> Option<Reason>, staged: seq<Raw>, originals: seq<Raw>)
    returns (valid: seq<Raw>, rejected: nat)
    requires |staged| == |originals|
    ensures valid == Accepted(verdict, staged, originals)
    ensures |valid| + rejected == |originals|
  {
    valid, rejected := [], 0;
    for i := 0 to |staged|
      invariant valid == Accepted(verdict, staged[..i], originals[..i])
      invariant |valid| + rejected == i
    {
      assert staged[..i + 1][..i] == staged[..i] && originals[..i + 1][..i] == originals[..i];
      if verdict(staged[i], originals[i]).None? {
        valid := valid + [staged[i]];
      } else {
        rejected := rejected + 1;
      }
    }
    assert staged[..|staged|] == staged && originals[..|staged|] == originals;
  }

  /* ---------- transformation ---------- */

  datatype Teams = Teams(byName: map<string, Id>, next: Id)   // active teams; next: the next fresh id

  function GetOrCreate(t: Teams, name: string): (Teams, Id) {
    var n := Strings.Strip(name);
    if n in t.byName then (t, t.byName[n]) else (Teams(t.byName[n := t.next], t.next + 1), t.next)
  }

  datatype SalesKey = SalesKey(date: int, team: Id)

  datatype Sales = Sales(amount: real, achievement: real, growth: real)

  datatype Brand = Brand(name: string, sales: real, rank: int, growth: real)

  datatype Doctor = Doctor(name: string, territory: string, priority: int)

  // Decimal(_require(row, field)) and friends; None is an exception.
  function Number(p: Parsers, row: Raw, field: string): Option<real> {
    if field !in row || row[field].None? then None
    else match p.decimal(row[field].value) case Some(Finite(v)) => Some(v) case _ => None
  }

  function Whole(p: Parsers, row: Raw, field: string): Option<int> {
    if field !in row || row[field].None? then None else p.integer(row[field].value)
  }

  function SalesOf(p: Parsers, row: Raw): Option<Sales> {
    var a, b, c := Number(p, row, "sales_amount"), Number(p, row, "achievement_pct"), Number(p, row, "growth_pct");
    if a.Some? && b.Some? && c.Some? then Some(Sales(a.value, b.value, c.value)) else None
  }

  function DateOf(p: Parsers, row: Raw): Option<int> {
    if "date" !in row || row["date"].None? then None else p.date(row["date"].value)
  }

  function BrandOf(p: Parsers, row: Raw): Option<(string, Brand)> {
    var sales, rank, growth := Number(p, row, "sales"), Whole(p, row, "rank"), Number(p, row, "growth_pct");
    if "external_brand_id" in row && row["external_brand_id"].Some? && "brand_name" in row && row["brand_name"].Some?
       && sales.Some? && rank.Some? && growth.Some?
    then Some((row["external_brand_id"].value, Brand(row["brand_name"].value, sales.value, rank.value, growth.value)))
    else None
  }

  function DoctorOf(p: Parsers, row: Raw): Option<(string, Doctor)> {
    var priority := Whole(p, row, "priority");
    if "external_doctor_id" in row && row["external_doctor_id"].Some? && "name" in row && row["name"].Some?
       && "territory" in row && row["territory"].Some? && priority.Some?
    then Some((row["external_doctor_id"].value, Doctor(row["name"].value, row["territory"].value, priority.value)))
    else None
  }

  // Every exception-free conversion a row of this kind needs.
  predicate Convertible(p: Parsers, kind: Kind, row: Raw) {
    match kind
    case SalesRows => "team" in row && row["team"].Some? && DateOf(p, row).Some? && SalesOf(p, row).Some?
    case BrandRows => BrandOf(p, row).Some?
    case DoctorRows => DoctorOf(p, row).Some?
  }

  lemma DecimalChecked(p: Parsers, row: Raw, field: string, nonNegative: bool)
    requires Sound(p) && CheckDecimal(p, row, field, nonNegative).None?
    ensures Number(p, row, field).Some?
  {}

  lemma PositiveChecked(p: Parsers, row: Raw, field: string)
    requires Sound(p) && CheckPositive(p, row, field).None?
    ensures Whole(p, row, field).Some?
  {}

  /** A row that passes validation never makes the transformation raise. */
  lemma ValidatedConverts(p: Parsers, kind: Kind, row: Raw)
    requires Sound(p) && ReasonAgainst(p, kind, row).None?
    ensures Convertible(p, kind, row)
  {
    match kind
    case SalesRows =>
      DecimalChecked(p, row, "sales_amount", true);
      DecimalChecked(p, row, "achievement_pct", false);
      DecimalChecked(p, row, "growth_pct", false);
      assert Strings.Strip("") == "";
    case BrandRows =>
      DecimalChecked(p, row, "sales", true);
      PositiveChecked(p, row, "rank");
      DecimalChecked(p, row, "growth_pct", false);
    case DoctorRows =>
      PositiveChecked(p, row, "priority");
  }

  predicate AllConvertible(p: Parsers, kind: Kind, rows: seq<Raw>) {
    forall i :: 0 <= i < |rows| ==> Convertible(p, kind, rows[i])
  }

  lemma {:induction false} AcceptedAll(verdict: (Raw, Raw) -> Option<Reason>, good: Raw -> bool, staged: seq<Raw>, originals: seq<Raw>)
    requires |staged| == |originals|
    requires forall row, original :: verdict(row, original).None? ==> good(row)
    ensures |Accepted(verdict, staged, originals)| <= |originals|
    ensures forall k :: 0 <= k < |Accepted(verdict, staged, originals)| ==> good(Accepted(verdict, staged, originals)[k])
  {
    if staged != [] { AcceptedAll(verdict, good, staged[..|staged| - 1], originals[..|staged| - 1]); }
  }

  lemma AcceptedConverts(p: Parsers, kind: Kind, row: Raw, original: Raw)
    requires Sound(p) && Verdict(p, kind)(row, original).None?
    ensures Convertible(p, kind, row)
  {
    ValidatedConverts(p, kind, row);
  }

  lemma ValidRowsConvert(p: Parsers, kind: Kind, originals: seq<Raw>)
    requires Sound(p)
    ensures AllConvertible(p, kind, ValidRows(p, kind, originals)) && |ValidRows(p, kind, originals)| <= |originals|
  {
    var verdict := Verdict(p, kind);
    var good := (row: Raw) => Convertible(p, kind, row);
    forall row, original | verdict(row, original).None? ensures good(row) {
      AcceptedConverts(p, kind, row, original);
    }
    AcceptedAll(verdict, good, StagedRows(kind, originals), originals);
  }

  // The transformation of the sales rows: team ids through a per-batch cache.
  datatype Transformed = Transformed(teams: Teams, cache: map<string, Id>, rows: seq<(SalesKey, Sales)>)

  function TransformSales(p: Parsers, teams: Teams, rows: seq<Raw>): Transformed
    requires AllConvertible(p, SalesRows, rows)
  {
    if rows == [] then Transformed(teams, map[], [])
    else
      var t, row := TransformSales(p, teams, rows[..|rows| - 1]), rows[|rows| - 1];
      var name := Strings.Strip(row["team"].value);
      var (teams', cache) := if name in t.cache then (t.teams, t.cache)
                             else (GetOrCreate(t.teams, name).0, t.cache[name := GetOrCreate(t.teams, name).1]);
      Transformed(teams', cache, t.rows + [(SalesKey(DateOf(p, row).value, cache[name]), SalesOf(p, row).value)])
  }

  /* ---------- upsert ---------- */

  // {key: row for row in rows}: the last row per key.
  function KeepLast<K, V>(rows: seq<(K, V)>): map<K, V> {
    if rows == [] then map[] else KeepLast(rows[..|rows| - 1])[rows[|rows| - 1].0 := rows[|rows| - 1].1]
  }

  // INSERT ... ON CONFLICT DO UPDATE, as the table from key to payload.
  function UpsertMany<K, V>(table: map<K, V>, rows: seq<(K, V)>): map<K, V> {
    table + KeepLast(rows)
  }

  function UpsertSingly<K, V>(table: map<K, V>, rows: seq<(K, V)>): map<K, V> {
    if rows == [] then table else UpsertSingly(table, rows[..|rows| - 1])[rows[|rows| - 1].0 := rows[|rows| - 1].1]
  }

  lemma {:induction false} BatchUpsertIsSingly<K, V>(table: map<K, V>, rows: seq<(K, V)>)
    ensures UpsertMany(table, rows) == UpsertSingly(table, rows)
  {
    if rows != [] {
      var front, last := rows[..|rows| - 1], rows[|rows| - 1];
      BatchUpsertIsSingly(table, front);
      assert table + KeepLast(front)[last.0 := last.1] == (table + KeepLast(front))[last.0 := last.1];
    } else {
      assert table + map[] == table;
    }
  }

  lemma UpsertTwice<K, V>(table: map<K, V>, rows: seq<(K, V)>)
    ensures UpsertMany(UpsertMany(table, rows), rows) == UpsertMany(table, rows)
  {}

  function Brands(p: Parsers, rows: seq<Raw>): seq<(string, Brand)>
    requires AllConvertible(p, BrandRows, rows)
  {
    seq(|rows|, i requires 0 <= i < |rows| => BrandOf(p, rows[i]).value)
  }

  function Doctors(p: Parsers, rows: seq<Raw>): seq<(string, Doctor)>
    requires AllConvertible(p, DoctorRows, rows)
  {
    seq(|rows|, i requires 0 <= i < |rows| => DoctorOf(p, rows[i]).value)
  }

  /* ---------- batch import refines one-by-one import ---------- */

  datatype Data = Data(teams: Teams, sales: map<SalesKey, Sales>, brands: map<string, Brand>, doctors: map<string, Doctor>)

  datatype Batch = Batch(sales: seq<Raw>, brands: seq<Raw>, doctors: seq<Raw>)

  function ImportBatch(p: Parsers, d: Data, b: Batch): Data
    requires AllConvertible(p, SalesRows, b.sales) && AllConvertible(p, BrandRows, b.brands) && AllConvertible(p, DoctorRows, b.doctors)
  {
    var t := TransformSales(p, d.teams, b.sales);
    Data(t.teams, UpsertMany(d.sales, t.rows), UpsertMany(d.brands, Brands(p, b.brands)), UpsertMany(d.doctors, Doctors(p, b.doctors)))
  }

  // One row at a time, each looking its team up afresh.
  function ImportSalesSingly(p: Parsers, teams: Teams, sales: map<SalesKey, Sales>, rows: seq<Raw>): (Teams, map<SalesKey, Sales>)
    requires AllConvertible(p, SalesRows, rows)
  {
    if rows == [] then (teams, sales)
    else
      var (teams', sales'), row := ImportSalesSingly(p, teams, sales, rows[..|rows| - 1]), rows[|rows| - 1];
      var (teams'', team) := GetOrCreate(teams', row["team"].value);
      (teams'', sales'[SalesKey(DateOf(p, row).value, team) := SalesOf(p, row).value])
  }

  function ImportSingly(p: Parsers, d: Data, b: Batch): Data
    requires AllConvertible(p, SalesRows, b.sales) && AllConvertible(p, BrandRows, b.brands) && AllConvertible(p, DoctorRows, b.doctors)
  {
    var (teams, sales) := ImportSalesSingly(p, d.teams, d.sales, b.sales);
    Data(teams, sales, UpsertSingly(d.brands, Brands(p, b.brands)), UpsertSingly(d.doctors, Doctors(p, b.doctors)))
  }

  // Every cached id is the one a lookup would give.
  ghost predicate CacheOk(t: Transformed) {
    forall n :: n in t.cache ==> Strings.Strip(n) == n && n in t.teams.byName && t.cache[n] == t.teams.byName[n]
  }

  ghost predicate Extends(teams: Teams, later: Teams) {
    forall n :: n in teams.byName ==> n in later.byName && later.byName[n] == teams.byName[n]
  }

  lemma {:induction false} CacheIsLookup(p: Parsers, teams: Teams, rows: seq<Raw>)
    requires AllConvertible(p, SalesRows, rows)
    ensures CacheOk(TransformSales(p, teams, rows)) && |TransformSales(p, teams, rows).rows| == |rows|
  {
    if rows != [] {
      CacheIsLookup(p, teams, rows[..|rows| - 1]);
      Strings.StripTwice(rows[|rows| - 1]["team"].value);
    }
  }

  lemma {:induction false} TeamsGrow(p: Parsers, teams: Teams, rows: seq<Raw>)
    requires AllConvertible(p, SalesRows, rows)
    ensures Extends(teams, TransformSales(p, teams, rows).teams)
  {
    if rows != [] { TeamsGrow(p, teams, rows[..|rows| - 1]); }
  }

  // One row's effect: its team is looked up in the cache or the table, and created if need be.
  lemma RowTeamKnown(t: Transformed, raw: string)
    requires CacheOk(t)
    ensures var name := Strings.Strip(raw);
            var teams := if name in t.cache then t.teams else GetOrCreate(t.teams, name).0;
            var team := if name in t.cache then t.cache[name] else GetOrCreate(t.teams, name).1;
            Strings.Strip(name) == name && Extends(t.teams, teams) && name in teams.byName && teams.byName[name] == team
  {
    Strings.StripTwice(raw);
  }

  // The last row's team ends up in the table, under the id its sales row carries.
  lemma LastTeamKnown(p: Parsers, teams: Teams, rows: seq<Raw>)
    requires AllConvertible(p, SalesRows, rows) && rows != []
    ensures var front, last := TransformSales(p, teams, rows[..|rows| - 1]), rows[|rows| - 1];
            var t, name := TransformSales(p, teams, rows), Strings.Strip(last["team"].value);
            && Strings.Strip(name) == name && name in t.teams.byName
            && Extends(front.teams, t.teams)
            && t.rows == front.rows + [(SalesKey(DateOf(p, last).value, t.teams.byName[name]), SalesOf(p, last).value)]
  {
    CacheIsLookup(p, teams, rows[..|rows| - 1]);
    RowTeamKnown(TransformSales(p, teams, rows[..|rows| - 1]), rows[|rows| - 1]["team"].value);
  }

  lemma {:induction false} SalesBatchIsSingly(p: Parsers, teams: Teams, sales: map<SalesKey, Sales>, rows: seq<Raw>)
    requires AllConvertible(p, SalesRows, rows)
    ensures var t := TransformSales(p, teams, rows);
            ImportSalesSingly(p, teams, sales, rows) == (t.teams, UpsertSingly(sales, t.rows))
  {
    if rows != [] {
      var front := rows[..|rows| - 1];
      SalesBatchIsSingly(p, teams, sales, front);
      CacheIsLookup(p, teams, front);
      LastTeamKnown(p, teams, rows);
      var t := TransformSales(p, teams, rows);
      assert t.rows[..|t.rows| - 1] == TransformSales(p, teams, front).rows;
    }
  }

  /** Importing a validated batch, with cached team lookups and keep-last deduplication, leaves
      exactly the tables that importing its rows one by one in order would. */
  lemma BatchIsOneByOne(p: Parsers, d: Data, b: Batch)
    requires AllConvertible(p, SalesRows, b.sales) && AllConvertible(p, BrandRows, b.brands) && AllConvertible(p, DoctorRows, b.doctors)
    ensures ImportBatch(p, d, b) == ImportSingly(p, d, b)
  {
    SalesBatchIsSingly(p, d.teams, d.sales, b.sales);
    BatchUpsertIsSingly(d.sales, TransformSales(p, d.teams, b.sales).rows);
    BatchUpsertIsSingly(d.brands, Brands(p, b.brands));
    BatchUpsertIsSingly(d.doctors, Doctors(p, b.doctors));
  }

  // With all names known, transforming creates nothing and reads the same ids.
  lemma {:induction false} TransformAgain(p: Parsers, teams: Teams, later: Teams, rows: seq<Raw>)
    requires AllConvertible(p, SalesRows, rows)
    requires Extends(TransformSales(p, teams, rows).teams, later)
    ensures TransformSales(p, later, rows).teams == later && TransformSales(p, later, rows).rows == TransformSales(p, teams, rows).rows
  {
    if rows != [] {
      var front := rows[..|rows| - 1];
      LastTeamKnown(p, teams, rows);
      TransformAgain(p, teams, later, front);
      CacheIsLookup(p, later, front);
      LastTeamKnown(p, later, rows);
    }
  }

  /** Importing the same batch twice equals importing it once. */
  lemma ImportTwice(p: Parsers, d: Data, b: Batch)
    requires AllConvertible(p, SalesRows, b.sales) && AllConvertible(p, BrandRows, b.brands) && AllConvertible(p, DoctorRows, b.doctors)
    ensures ImportBatch(p, ImportBatch(p, d, b), b) == ImportBatch(p, d, b)
  {
    var t := TransformSales(p, d.teams, b.sales);
    TransformAgain(p, d.teams, t.teams, b.sales);
    UpsertTwice(d.sales, t.rows);
    UpsertTwice(d.brands, Brands(p, b.brands));
    UpsertTwice(d.doctors, Doctors(p, b.doctors));
  }

  /* ---------- which rows are valid and what they store, field by field ---------- */

  ghost predicate Present(row: Raw, field: string) {
    field in row && row[field].Some? && row[field].value != ""
  }

  ghost predicate GoodDecimal(p: Parsers, row: Raw, field: string) {
    field in row && row[field].Some? && p.decimal(row[field].value).Some? && p.decimal(row[field].value).value.Finite?
  }

  ghost predicate GoodAmount(p: Parsers, row: Raw, field: string) {
    GoodDecimal(p, row, field) && 0.0 <= p.decimal(row[field].value).value.value
  }

  ghost predicate GoodInteger(p: Parsers, row: Raw, field: string) {
    field in row && row[field].Some? && p.integer(row[field].value).Some? && 1 <= p.integer(row[field].value).value <= 2147483647
  }

  ghost predicate ValidSales(p: Parsers, row: Raw) {
    && Present(row, "date") && p.date(row["date"].value).Some?
    && "team" in row && row["team"].Some? && Strings.Strip(row["team"].value) != ""
    && GoodAmount(p, row, "sales_amount") && GoodDecimal(p, row, "achievement_pct") && GoodDecimal(p, row, "growth_pct")
  }

  ghost predicate ValidBrand(p: Parsers, row: Raw) {
    && Present(row, "external_brand_id") && Present(row, "brand_name")
    && GoodAmount(p, row, "sales") && GoodInteger(p, row, "rank") && GoodDecimal(p, row, "growth_pct")
  }

  ghost predicate ValidDoctor(p: Parsers, row: Raw) {
    && Present(row, "external_doctor_id") && Present(row, "name") && Present(row, "territory") && GoodInteger(p, row, "priority")
    && row.Keys <= {"external_doctor_id", "name", "territory", "priority"}
  }

  ghost predicate ValidRow(p: Parsers, kind: Kind, row: Raw) {
    match kind
    case SalesRows => ValidSales(p, row)
    case BrandRows => ValidBrand(p, row)
    case DoctorRows => ValidDoctor(p, row)
  }

  lemma FieldMeaning(p: Parsers, row: Raw, field: string)
    requires Sound(p)
    ensures CheckDecimal(p, row, field, false).None? <==> GoodDecimal(p, row, field)
    ensures CheckDecimal(p, row, field, true).None? <==> GoodAmount(p, row, field)
    ensures CheckPositive(p, row, field).None? <==> GoodInteger(p, row, field)
    ensures CheckPresent(row, field).None? <==> Present(row, field)
  {}

  // Staging keeps what the importer returned for every known column.
  lemma StagedField(kind: Kind, row: Raw, field: string)
    requires field in Columns(kind)
    ensures field in Staged(kind, row) && (field in row ==> Staged(kind, row)[field] == row[field]) && (field !in row ==> Staged(kind, row)[field] == None)
  {}

  lemma StagedGood(p: Parsers, kind: Kind, row: Raw, field: string)
    requires field in Columns(kind)
    ensures GoodDecimal(p, Staged(kind, row), field) <==> GoodDecimal(p, row, field)
    ensures GoodAmount(p, Staged(kind, row), field) <==> GoodAmount(p, row, field)
    ensures GoodInteger(p, Staged(kind, row), field) <==> GoodInteger(p, row, field)
    ensures Present(Staged(kind, row), field) <==> Present(row, field)
  {
    StagedField(kind, row, field);
  }

  lemma VerdictMeaning(p: Parsers, kind: Kind, row: Raw)
    ensures Verdict(p, kind)(Staged(kind, row), row).None? <==>
            && ReasonAgainst(p, kind, Staged(kind, row)).None?
            && (kind.DoctorRows? ==> row.Keys <= {"external_doctor_id", "name", "territory", "priority"})
  {
    var reason := ReasonAgainst(p, kind, Staged(kind, row));
    var more := if kind.DoctorRows? && !(row.Keys <= DOCTOR_COLUMNS) then Some(UnexpectedColumns(row.Keys - DOCTOR_COLUMNS)) else None;
    assert Verdict(p, kind)(Staged(kind, row), row) == Or(reason, more);
  }

  lemma SalesVerdict(p: Parsers, row: Raw)
    requires Sound(p)
    ensures ReasonAgainst(p, SalesRows, Staged(SalesRows, row)).None? <==> ValidSales(p, row)
  {
    var staged := Staged(SalesRows, row);
    StagedGood(p, SalesRows, row, "sales_amount");
    StagedGood(p, SalesRows, row, "achievement_pct");
    StagedGood(p, SalesRows, row, "growth_pct");
    StagedField(SalesRows, row, "date");
    StagedField(SalesRows, row, "team");
    FieldMeaning(p, staged, "sales_amount");
    FieldMeaning(p, staged, "achievement_pct");
    FieldMeaning(p, staged, "growth_pct");
    assert Strings.Strip("") == "";
    assert CheckDate(p, staged).None? <==> Present(row, "date") && p.date(row["date"].value).Some?;
    assert CheckTeam(staged).None? <==> "team" in row && row["team"].Some? && Strings.Strip(row["team"].value) != "";
  }

  lemma BrandVerdict(p: Parsers, row: Raw)
    requires Sound(p)
    ensures ReasonAgainst(p, BrandRows, Staged(BrandRows, row)).None? <==> ValidBrand(p, row)
  {
    var staged := Staged(BrandRows, row);
    StagedGood(p, BrandRows, row, "external_brand_id");
    StagedGood(p, BrandRows, row, "brand_name");
    StagedGood(p, BrandRows, row, "sales");
    StagedGood(p, BrandRows, row, "rank");
    StagedGood(p, BrandRows, row, "growth_pct");
    FieldMeaning(p, staged, "external_brand_id");
    FieldMeaning(p, staged, "brand_name");
    FieldMeaning(p, staged, "sales");
    FieldMeaning(p, staged, "rank");
    FieldMeaning(p, staged, "growth_pct");
  }

  lemma DoctorVerdict(p: Parsers, row: Raw)
    requires Sound(p) && row.Keys <= {"external_doctor_id", "name", "territory", "priority"}
    ensures ReasonAgainst(p, DoctorRows, Staged(DoctorRows, row)).None? <==> ValidDoctor(p, row)
  {
    var staged := Staged(DoctorRows, row);
    StagedGood(p, DoctorRows, row, "external_doctor_id");
    StagedGood(p, DoctorRows, row, "name");
    StagedGood(p, DoctorRows, row, "territory");
    StagedGood(p, DoctorRows, row, "priority");
    FieldMeaning(p, staged, "external_doctor_id");
    FieldMeaning(p, staged, "name");
    FieldMeaning(p, staged, "territory");
    FieldMeaning(p, staged, "priority");
  }

  /** The validator accepts a row exactly when each of its fields, as the importer returned it,
      is what the kind of row asks for. */
  lemma ValidatorMeaning(p: Parsers, kind: Kind, row: Raw)
    requires Sound(p)
    ensures Verdict(p, kind)(Staged(kind, row), row).None? <==> ValidRow(p, kind, row)
  {
    VerdictMeaning(p, kind, row);
    match kind
    case SalesRows => SalesVerdict(p, row);
    case BrandRows => BrandVerdict(p, row);
    case DoctorRows =>
      if row.Keys <= {"external_doctor_id", "name", "territory", "priority"} { DoctorVerdict(p, row); }
  }

  lemma {:induction false} AcceptedConcat(verdict: (Raw, Raw) -> Option<Reason>, s: seq<Raw>, o: seq<Raw>, s': seq<Raw>, o': seq<Raw>)
    requires |s| == |o| && |s'| == |o'|
    ensures Accepted(verdict, s + s', o + o') == Accepted(verdict, s, o) + Accepted(verdict, s', o')
  {
    if s' == [] {
      assert s + s' == s && o + o' == o;
    } else {
      var n := |s'| - 1;
      assert (s + s')[..|s| + n] == s + s'[..n] && (o + o')[..|s| + n] == o + o'[..n];
      AcceptedConcat(verdict, s, o, s'[..n], o'[..n]);
    }
  }

  /** The valid rows are the accepted ones of those fetched, in order, cut to the known columns. */
  lemma ValidRowsMeaning(p: Parsers, kind: Kind, a: seq<Raw>, row: Raw)
    requires Sound(p)
    ensures ValidRows(p, kind, []) == []
    ensures ValidRows(p, kind, a + [row]) == ValidRows(p, kind, a) + (if ValidRow(p, kind, row) then [Staged(kind, row)] else [])
  {
    assert StagedRows(kind, a + [row]) == StagedRows(kind, a) + StagedRows(kind, [row]);
    AcceptedConcat(Verdict(p, kind), StagedRows(kind, a), a, StagedRows(kind, [row]), [row]);
    ValidatorMeaning(p, kind, row);
    assert StagedRows(kind, [row]) == [Staged(kind, row)] && [Staged(kind, row)][..0] == [] && [row][..0] == [];
  }

  // The stored figures of a sales row, a brand row and a doctor row are those it spells.
  ghost predicate SpellsSales(p: Parsers, row: Raw, s: Sales) {
    && "sales_amount" in row && row["sales_amount"].Some? && p.decimal(row["sales_amount"].value) == Some(Finite(s.amount))
    && "achievement_pct" in row && row["achievement_pct"].Some? && p.decimal(row["achievement_pct"].value) == Some(Finite(s.achievement))
    && "growth_pct" in row && row["growth_pct"].Some? && p.decimal(row["growth_pct"].value) == Some(Finite(s.growth))
  }

  ghost predicate SpellsBrand(p: Parsers, row: Raw, b: Brand) {
    && "brand_name" in row && row["brand_name"] == Some(b.name)
    && "sales" in row && row["sales"].Some? && p.decimal(row["sales"].value) == Some(Finite(b.sales))
    && "rank" in row && row["rank"].Some? && p.integer(row["rank"].value) == Some(b.rank)
    && "growth_pct" in row && row["growth_pct"].Some? && p.decimal(row["growth_pct"].value) == Some(Finite(b.growth))
  }

  ghost predicate SpellsDoctor(p: Parsers, row: Raw, d: Doctor) {
    && "name" in row && row["name"] == Some(d.name)
    && "territory" in row && row["territory"] == Some(d.territory)
    && "priority" in row && row["priority"].Some? && p.integer(row["priority"].value) == Some(d.priority)
  }

  ghost predicate SpellsKey(p: Parsers, row: Raw, date: int, team: string) {
    && "date" in row && row["date"].Some? && p.date(row["date"].value) == Some(date)
    && "team" in row && row["team"].Some? && Strings.Strip(row["team"].value) == team
  }

  ghost predicate SpellsId(row: Raw, field: string, id: string) {
    field in row && row[field] == Some(id)
  }

  // Team ids are distinct, and the next one is new.
  ghost predicate TeamsOk(t: Teams) {
    && (forall n :: n in t.byName ==> t.byName[n] < t.next)
    && (forall m, n :: m in t.byName && n in t.byName && m != n ==> t.byName[m] != t.byName[n])
  }

  // What the tables hold after importing the fetched rows one by one: for each key the figures
  // of the last valid row that spells it, for any other key what was there.
  ghost predicate HoldsSales(p: Parsers, before: Data, rows: seq<Raw>, after: Data) {
    && Extends(before.teams, after.teams) && TeamsOk(after.teams)
    && (forall i, date, team :: LastSales(p, rows, i, date, team) ==>
          && team in after.teams.byName && SalesKey(date, after.teams.byName[team]) in after.sales
          && SpellsSales(p, rows[i], after.sales[SalesKey(date, after.teams.byName[team])]))
    && (forall k :: k in after.sales && (k !in before.sales || after.sales[k] != before.sales[k]) ==>
          exists i, team :: LastSales(p, rows, i, k.date, team) && team in after.teams.byName && after.teams.byName[team] == k.team)
    && before.sales.Keys <= after.sales.Keys
    && (forall n :: n in after.teams.byName && n !in before.teams.byName ==> NamesTeam(p, rows, n))
  }

  ghost predicate NamesTeam(p: Parsers, rows: seq<Raw>, team: string) {
    exists i :: 0 <= i < |rows| && ValidSales(p, rows[i]) && Strings.Strip(rows[i]["team"].value) == team
  }

  ghost predicate LastSales(p: Parsers, rows: seq<Raw>, i: int, date: int, team: string) {
    && 0 <= i < |rows| && ValidSales(p, rows[i]) && SpellsKey(p, rows[i], date, team)
    && forall j :: i < j < |rows| && ValidSales(p, rows[j]) ==> !SpellsKey(p, rows[j], date, team)
  }

  ghost predicate LastWithId(p: Parsers, kind: Kind, rows: seq<Raw>, field: string, i: int, id: string) {
    && 0 <= i < |rows| && ValidRow(p, kind, rows[i]) && SpellsId(rows[i], field, id)
    && forall j :: i < j < |rows| && ValidRow(p, kind, rows[j]) ==> !SpellsId(rows[j], field, id)
  }

  ghost predicate HoldsBrands(p: Parsers, before: map<string, Brand>, rows: seq<Raw>, after: map<string, Brand>) {
    && (forall i, id :: LastWithId(p, BrandRows, rows, "external_brand_id", i, id) ==> id in after && SpellsBrand(p, rows[i], after[id]))
    && (forall k :: k in after && (k !in before || after[k] != before[k]) ==>
          exists i :: LastWithId(p, BrandRows, rows, "external_brand_id", i, k))
    && before.Keys <= after.Keys
  }

  ghost predicate HoldsDoctors(p: Parsers, before: map<string, Doctor>, rows: seq<Raw>, after: map<string, Doctor>) {
    && (forall i, id :: LastWithId(p, DoctorRows, rows, "external_doctor_id", i, id) ==> id in after && SpellsDoctor(p, rows[i], after[id]))
    && (forall k :: k in after && (k !in before || after[k] != before[k]) ==>
          exists i :: LastWithId(p, DoctorRows, rows, "external_doctor_id", i, k))
    && before.Keys <= after.Keys
  }

  lemma OneMoreWithId(p: Parsers, kind: Kind, front: seq<Raw>, last: Raw, field: string, i: int, id: string)
    ensures LastWithId(p, kind, front + [last], field, i, id) <==>
            (if ValidRow(p, kind, last) && SpellsId(last, field, id) then i == |front| else LastWithId(p, kind, front, field, i, id))
  {
    var all := front + [last];
    assert forall j :: 0 <= j < |front| ==> all[j] == front[j];
    assert all[|front|] == last;
  }

  lemma BrandSpelled(p: Parsers, row: Raw)
    requires Sound(p) && ValidBrand(p, row)
    ensures var staged := Staged(BrandRows, row);
            && BrandOf(p, staged).Some? && SpellsBrand(p, row, BrandOf(p, staged).value.1)
            && SpellsId(row, "external_brand_id", BrandOf(p, staged).value.0)
  {
    StagedField(BrandRows, row, "external_brand_id");
    StagedField(BrandRows, row, "brand_name");
    StagedField(BrandRows, row, "sales");
    StagedField(BrandRows, row, "rank");
    StagedField(BrandRows, row, "growth_pct");
  }

  lemma DoctorSpelled(p: Parsers, row: Raw)
    requires Sound(p) && ValidDoctor(p, row)
    ensures var staged := Staged(DoctorRows, row);
            && DoctorOf(p, staged).Some? && SpellsDoctor(p, row, DoctorOf(p, staged).value.1)
            && SpellsId(row, "external_doctor_id", DoctorOf(p, staged).value.0)
  {
    StagedField(DoctorRows, row, "external_doctor_id");
    StagedField(DoctorRows, row, "name");
    StagedField(DoctorRows, row, "territory");
    StagedField(DoctorRows, row, "priority");
  }

  lemma SalesSpelled(p: Parsers, row: Raw)
    requires Sound(p) && ValidSales(p, row)
    ensures var staged := Staged(SalesRows, row);
            && Convertible(p, SalesRows, staged) && SpellsSales(p, row, SalesOf(p, staged).value)
            && SpellsKey(p, row, DateOf(p, staged).value, Strings.Strip(staged["team"].value))
  {
    StagedField(SalesRows, row, "date");
    StagedField(SalesRows, row, "team");
    StagedField(SalesRows, row, "sales_amount");
    StagedField(SalesRows, row, "achievement_pct");
    StagedField(SalesRows, row, "growth_pct");
  }

  lemma OneMoreBrand(p: Parsers, before: map<string, Brand>, front: seq<Raw>, last: Raw, after: map<string, Brand>, id: string, b: Brand)
    requires HoldsBrands(p, before, front, after)
    requires ValidBrand(p, last) ==> SpellsId(last, "external_brand_id", id) && SpellsBrand(p, last, b)
    ensures HoldsBrands(p, before, front + [last], if ValidBrand(p, last) then after[id := b] else after)
  {
    var rows, after' := front + [last], if ValidBrand(p, last) then after[id := b] else after;
    forall i, k | LastWithId(p, BrandRows, rows, "external_brand_id", i, k) ensures k in after' && SpellsBrand(p, rows[i], after'[k]) {
      OneMoreWithId(p, BrandRows, front, last, "external_brand_id", i, k);
    }
    forall k | k in after' && (k !in before || after'[k] != before[k])
      ensures exists i :: LastWithId(p, BrandRows, rows, "external_brand_id", i, k)
    {
      if ValidBrand(p, last) && k == id {
        OneMoreWithId(p, BrandRows, front, last, "external_brand_id", |front|, k);
      } else {
        var i :| LastWithId(p, BrandRows, front, "external_brand_id", i, k);
        OneMoreWithId(p, BrandRows, front, last, "external_brand_id", i, k);
      }
    }
  }

  lemma OneMoreDoctor(p: Parsers, before: map<string, Doctor>, front: seq<Raw>, last: Raw, after: map<string, Doctor>, id: string, d: Doctor)
    requires HoldsDoctors(p, before, front, after)
    requires ValidDoctor(p, last) ==> SpellsId(last, "external_doctor_id", id) && SpellsDoctor(p, last, d)
    ensures HoldsDoctors(p, before, front + [last], if ValidDoctor(p, last) then after[id := d] else after)
  {
    var rows, after' := front + [last], if ValidDoctor(p, last) then after[id := d] else after;
    forall i, k | LastWithId(p, DoctorRows, rows, "external_doctor_id", i, k) ensures k in after' && SpellsDoctor(p, rows[i], after'[k]) {
      OneMoreWithId(p, DoctorRows, front, last, "external_doctor_id", i, k);
    }
    forall k | k in after' && (k !in before || after'[k] != before[k])
      ensures exists i :: LastWithId(p, DoctorRows, rows, "external_doctor_id", i, k)
    {
      if ValidDoctor(p, last) && k == id {
        OneMoreWithId(p, DoctorRows, front, last, "external_doctor_id", |front|, k);
      } else {
        var i :| LastWithId(p, DoctorRows, front, "external_doctor_id", i, k);
        OneMoreWithId(p, DoctorRows, front, last, "external_doctor_id", i, k);
      }
    }
  }

  lemma OneMoreBrandRow(p: Parsers, before: map<string, Brand>, valid: seq<Raw>, row: Raw)
    requires AllConvertible(p, BrandRows, valid) && Convertible(p, BrandRows, row)
    ensures var (id, b) := BrandOf(p, row).value;
            UpsertSingly(before, Brands(p, valid + [row])) == UpsertSingly(before, Brands(p, valid))[id := b]
  {
    var rows := Brands(p, valid);
    assert Brands(p, valid + [row]) == rows + [BrandOf(p, row).value];
    assert (rows + [BrandOf(p, row).value])[..|rows|] == rows;
  }

  lemma OneMoreDoctorRow(p: Parsers, before: map<string, Doctor>, valid: seq<Raw>, row: Raw)
    requires AllConvertible(p, DoctorRows, valid) && Convertible(p, DoctorRows, row)
    ensures var (id, d) := DoctorOf(p, row).value;
            UpsertSingly(before, Doctors(p, valid + [row])) == UpsertSingly(before, Doctors(p, valid))[id := d]
  {
    var rows := Doctors(p, valid);
    assert Doctors(p, valid + [row]) == rows + [DoctorOf(p, row).value];
    assert (rows + [DoctorOf(p, row).value])[..|rows|] == rows;
  }

  lemma {:induction false} BrandsHold(p: Parsers, before: map<string, Brand>, rows: seq<Raw>)
    requires Sound(p) && AllConvertible(p, BrandRows, ValidRows(p, BrandRows, rows))
    ensures HoldsBrands(p, before, rows, UpsertSingly(before, Brands(p, ValidRows(p, BrandRows, rows))))
  {
    if rows == [] {
      ValidRowsMeaning(p, BrandRows, [], map[]);
    } else {
      var front, last := rows[..|rows| - 1], rows[|rows| - 1];
      assert rows == front + [last];
      ValidRowsConvert(p, BrandRows, front);
      ValidRowsMeaning(p, BrandRows, front, last);
      BrandsHold(p, before, front);
      var valid := ValidRows(p, BrandRows, front);
      var after := UpsertSingly(before, Brands(p, valid));
      if ValidBrand(p, last) {
        BrandSpelled(p, last);
        var (id, b) := BrandOf(p, Staged(BrandRows, last)).value;
        OneMoreBrandRow(p, before, valid, Staged(BrandRows, last));
        OneMoreBrand(p, before, front, last, after, id, b);
      } else {
        assert valid + [] == valid;
        OneMoreBrand(p, before, front, last, after, "", Brand("", 0.0, 0, 0.0));
      }
    }
  }

  lemma {:induction false} DoctorsHold(p: Parsers, before: map<string, Doctor>, rows: seq<Raw>)
    requires Sound(p) && AllConvertible(p, DoctorRows, ValidRows(p, DoctorRows, rows))
    ensures HoldsDoctors(p, before, rows, UpsertSingly(before, Doctors(p, ValidRows(p, DoctorRows, rows))))
  {
    if rows == [] {
      ValidRowsMeaning(p, DoctorRows, [], map[]);
    } else {
      var front, last := rows[..|rows| - 1], rows[|rows| - 1];
      assert rows == front + [last];
      ValidRowsConvert(p, DoctorRows, front);
      ValidRowsMeaning(p, DoctorRows, front, last);
      DoctorsHold(p, before, front);
      var valid := ValidRows(p, DoctorRows, front);
      var after := UpsertSingly(before, Doctors(p, valid));
      if ValidDoctor(p, last) {
        DoctorSpelled(p, last);
        var (id, d) := DoctorOf(p, Staged(DoctorRows, last)).value;
        OneMoreDoctorRow(p, before, valid, Staged(DoctorRows, last));
        OneMoreDoctor(p, before, front, last, after, id, d);
      } else {
        assert valid + [] == valid;
        OneMoreDoctor(p, before, front, last, after, "", Doctor("", "", 0));
      }
    }
  }

  lemma OneMoreSalesKey(p: Parsers, front: seq<Raw>, last: Raw, i: int, date: int, team: string)
    ensures LastSales(p, front + [last], i, date, team) <==>
            (if ValidSales(p, last) && SpellsKey(p, last, date, team) then i == |front| else LastSales(p, front, i, date, team))
  {
    var all := front + [last];
    assert forall j :: 0 <= j < |front| ==> all[j] == front[j];
    assert all[|front|] == last;
  }

  // Looking a team up, or creating it, moves no other team.
  lemma TeamLookup(t: Teams, raw: string)
    requires TeamsOk(t)
    ensures var (t', team) := GetOrCreate(t, raw); var name := Strings.Strip(raw);
            && TeamsOk(t') && Extends(t, t') && name in t'.byName && t'.byName[name] == team
            && (forall n :: n in t'.byName && n !in t.byName ==> n == name)
  {}

  lemma NamesTeamGrows(p: Parsers, front: seq<Raw>, last: Raw, team: string)
    ensures NamesTeam(p, front, team) ==> NamesTeam(p, front + [last], team)
    ensures ValidSales(p, last) && Strings.Strip(last["team"].value) == team ==> NamesTeam(p, front + [last], team)
  {
    var rows := front + [last];
    if NamesTeam(p, front, team) {
      var i :| 0 <= i < |front| && ValidSales(p, front[i]) && Strings.Strip(front[i]["team"].value) == team;
      assert rows[i] == front[i];
    }
    if ValidSales(p, last) && Strings.Strip(last["team"].value) == team { assert rows[|front|] == last; }
  }

  lemma OneMoreSaleKeeps(p: Parsers, before: Data, front: seq<Raw>, last: Raw, after: Data, teams: Teams, date: int, team: string, s: Sales,
                         i: int, d: int, n: string)
    requires HoldsSales(p, before, front, after) && ValidSales(p, last)
    requires SpellsKey(p, last, date, team) && SpellsSales(p, last, s)
    requires TeamsOk(teams) && Extends(after.teams, teams) && team in teams.byName
    requires LastSales(p, front + [last], i, d, n)
    ensures var sales := after.sales[SalesKey(date, teams.byName[team]) := s];
            n in teams.byName && SalesKey(d, teams.byName[n]) in sales && SpellsSales(p, (front + [last])[i], sales[SalesKey(d, teams.byName[n])])
  {
    OneMoreSalesKey(p, front, last, i, d, n);
    if i < |front| { assert (front + [last])[i] == front[i]; }
  }

  lemma OneMoreSaleSource(p: Parsers, before: Data, front: seq<Raw>, last: Raw, after: Data, teams: Teams, date: int, team: string, k: SalesKey)
    requires HoldsSales(p, before, front, after) && ValidSales(p, last) && SpellsKey(p, last, date, team)
    requires Extends(after.teams, teams) && team in teams.byName
    requires k == SalesKey(date, teams.byName[team]) || (k in after.sales && (k !in before.sales || after.sales[k] != before.sales[k]))
    ensures exists i, n :: LastSales(p, front + [last], i, k.date, n) && n in teams.byName && teams.byName[n] == k.team
  {
    if k == SalesKey(date, teams.byName[team]) {
      OneMoreSalesKey(p, front, last, |front|, date, team);
    } else {
      var i, n :| LastSales(p, front, i, k.date, n) && n in after.teams.byName && after.teams.byName[n] == k.team;
      OneMoreSalesKey(p, front, last, i, k.date, n);
    }
  }

  lemma OneMoreSale(p: Parsers, before: Data, front: seq<Raw>, last: Raw, after: Data, teams: Teams, date: int, team: string, s: Sales)
    requires HoldsSales(p, before, front, after) && ValidSales(p, last)
    requires SpellsKey(p, last, date, team) && SpellsSales(p, last, s)
    requires TeamsOk(teams) && Extends(after.teams, teams) && team in teams.byName
    requires forall n :: n in teams.byName && n !in after.teams.byName ==> n == team
    ensures HoldsSales(p, before, front + [last], after.(teams := teams, sales := after.sales[SalesKey(date, teams.byName[team]) := s]))
  {
    var rows, after' := front + [last], after.(teams := teams, sales := after.sales[SalesKey(date, teams.byName[team]) := s]);
    forall i, d, n | LastSales(p, rows, i, d, n)
      ensures n in teams.byName && SalesKey(d, teams.byName[n]) in after'.sales && SpellsSales(p, rows[i], after'.sales[SalesKey(d, teams.byName[n])])
    {
      OneMoreSaleKeeps(p, before, front, last, after, teams, date, team, s, i, d, n);
    }
    forall n | n in teams.byName && n !in before.teams.byName ensures NamesTeam(p, rows, n) { NamesTeamGrows(p, front, last, n); }
    forall k | k in after'.sales && (k !in before.sales || after'.sales[k] != before.sales[k])
      ensures exists i, n :: LastSales(p, rows, i, k.date, n) && n in teams.byName && teams.byName[n] == k.team
    {
      OneMoreSaleSource(p, before, front, last, after, teams, date, team, k);
    }
  }

  lemma NoMoreSale(p: Parsers, before: Data, front: seq<Raw>, last: Raw, after: Data)
    requires HoldsSales(p, before, front, after) && !ValidSales(p, last)
    ensures HoldsSales(p, before, front + [last], after)
  {
    forall i, d, n ensures LastSales(p, front + [last], i, d, n) <==> LastSales(p, front, i, d, n) {
      OneMoreSalesKey(p, front, last, i, d, n);
    }
    forall i | 0 <= i < |front| ensures (front + [last])[i] == front[i] {}
    forall n | NamesTeam(p, front, n) ensures NamesTeam(p, front + [last], n) { NamesTeamGrows(p, front, last, n); }
  }

  lemma {:induction false} SalesHold(p: Parsers, d: Data, rows: seq<Raw>)
    requires Sound(p) && TeamsOk(d.teams) && AllConvertible(p, SalesRows, ValidRows(p, SalesRows, rows))
    ensures var (teams, sales) := ImportSalesSingly(p, d.teams, d.sales, ValidRows(p, SalesRows, rows));
            HoldsSales(p, d, rows, d.(teams := teams, sales := sales))
  {
    if rows == [] {
      ValidRowsMeaning(p, SalesRows, [], map[]);
    } else {
      var front, last := rows[..|rows| - 1], rows[|rows| - 1];
      assert rows == front + [last];
      ValidRowsConvert(p, SalesRows, front);
      ValidRowsMeaning(p, SalesRows, front, last);
      SalesHold(p, d, front);
      var valid := ValidRows(p, SalesRows, front);
      var (teams, sales) := ImportSalesSingly(p, d.teams, d.sales, valid);
      var after := d.(teams := teams, sales := sales);
      if ValidSales(p, last) {
        SalesSpelled(p, last);
        var staged := Staged(SalesRows, last);
        assert (valid + [staged])[..|valid|] == valid;
        TeamLookup(teams, staged["team"].value);
        var (teams', team) := GetOrCreate(teams, staged["team"].value);
        OneMoreSale(p, d, front, last, after, teams', DateOf(p, staged).value, Strings.Strip(staged["team"].value), SalesOf(p, staged).value);
      } else {
        assert valid + [] == valid;
        NoMoreSale(p, d, front, last, after);
      }
    }
  }

  /** What a successful import leaves, told by the fetched rows alone: for each date and team, brand
      and doctor the figures that its last valid row spells, and everything else as before. */
  lemma ImportedFigures(p: Parsers, d: Data, fetched: Batch)
    requires Sound(p) && TeamsOk(d.teams)
    ensures var d' := OneByOne(p, d, fetched);
            && HoldsSales(p, d, fetched.sales, d')
            && HoldsBrands(p, d.brands, fetched.brands, d'.brands)
            && HoldsDoctors(p, d.doctors, fetched.doctors, d'.doctors)
  {
    ValidatedIsConvertible(p, fetched);
    SalesHold(p, d, fetched.sales);
    BrandsHold(p, d.brands, fetched.brands);
    DoctorsHold(p, d.doctors, fetched.doctors);
  }

  /* ---------- one run of the pipeline ---------- */

  datatype RunStatus = Running | Succeeded(processed: nat, rejected: nat) | Failed

  // Where the environment makes the run raise, if anywhere.
  datatype Fault = NoFault | Staging | Upsert(step: nat) | Recording

  datatype Outcome = Skipped | Finished(status: RunStatus) | Crashed   // Crashed: the job's own handler logs it

  function Validated(p: Parsers, fetched: Batch): Batch {
    Batch(ValidRows(p, SalesRows, fetched.sales), ValidRows(p, BrandRows, fetched.brands), ValidRows(p, DoctorRows, fetched.doctors))
  }

  function Size(b: Batch): nat {
    |b.sales| + |b.brands| + |b.doctors|
  }

  lemma ValidatedIsConvertible(p: Parsers, fetched: Batch)
    requires Sound(p)
    ensures var b := Validated(p, fetched);
            && AllConvertible(p, SalesRows, b.sales) && AllConvertible(p, BrandRows, b.brands) && AllConvertible(p, DoctorRows, b.doctors)
            && Size(b) <= Size(fetched)
  {
    ValidRowsConvert(p, SalesRows, fetched.sales);
    ValidRowsConvert(p, BrandRows, fetched.brands);
    ValidRowsConvert(p, DoctorRows, fetched.doctors);
  }

  ghost function OneByOne(p: Parsers, d: Data, fetched: Batch): Data
    requires Sound(p)
  {
    ValidatedIsConvertible(p, fetched);
    ImportSingly(p, d, Validated(p, fetched))
  }

  // Every fetched row was either rejected or imported, as if one by one.
  ghost predicate Imported(p: Parsers, d: Data, fetched: Batch, counts: (nat, nat), d': Data)
    requires Sound(p)
  {
    && counts.0 == Size(Validated(p, fetched))
    && counts.0 + counts.1 == Size(fetched)
    && d' == OneByOne(p, d, fetched)
  }

  lemma Overwritten(runs: map<Id, RunStatus>, run: Id, first: RunStatus, second: RunStatus)
    ensures runs[run := first][run := second] == runs[run := second]
  {}

  predicate NoneRunning(runs: map<Id, RunStatus>) {
    forall r :: r in runs ==> !runs[r].Running?
  }

  method KeepLastOf<K(==), V>(rows: seq<(K, V)>) returns (byKey: map<K, V>)
    ensures byKey == KeepLast(rows)
  {
    byKey := map[];
    for i := 0 to |rows|
      invariant byKey == KeepLast(rows[..i])
    {
      assert rows[..i + 1][..|rows[..i + 1]| - 1] == rows[..i];
      byKey := byKey[rows[i].0 := rows[i].1];
    }
    assert rows[..|rows|] == rows;
  }

  class ImportService {
    const p: Parsers
    var data: Data                      // the open transaction's view
    var runs: map<Id, RunStatus>
    var savedData: Data                 // as of the last commit
    var savedRuns: map<Id, RunStatus>

    constructor (p: Parsers)
      ensures this.p == p && Clean() && savedRuns == map[]
    {
      this.p := p;
      data, runs := Data(Teams(map[], 0), map[], map[], map[]), map[];
      savedData, savedRuns := Data(Teams(map[], 0), map[], map[], map[]), map[];
    }

    ghost predicate Clean()
      reads this
    {
      data == savedData && runs == savedRuns
    }

    method Commit()
      modifies this`savedData, this`savedRuns
      ensures Clean()
    {
      savedData, savedRuns := data, runs;
    }

    method Rollback()
      modifies this`data, this`runs
      ensures Clean()
    {
      data, runs := savedData, savedRuns;
    }

    method Validate(kind: Kind, originals: seq<Raw>) returns (valid: seq<Raw>, rejected: nat)
      ensures valid == ValidRows(p, kind, originals)
      ensures |valid| + rejected == |originals|
    {
      valid, rejected := ValidateStaged(Verdict(p, kind), StagedRows(kind, originals), originals);
    }

    method GetOrCreateByName(name: string) returns (team: Id)
      modifies this`data
      ensures data == old(data).(teams := GetOrCreate(old(data).teams, name).0)
      ensures team == GetOrCreate(old(data).teams, name).1
    {
      var n := Strings.Strip(name);
      if n !in data.teams.byName {
        data := data.(teams := Teams(data.teams.byName[n := data.teams.next], data.teams.next + 1));
      }
      team := data.teams.byName[n];
    }

    method TransformSalesRows(rows: seq<Raw>) returns (out: seq<(SalesKey, Sales)>)
      requires AllConvertible(p, SalesRows, rows)
      modifies this`data
      ensures out == TransformSales(p, old(data).teams, rows).rows
      ensures data == old(data).(teams := TransformSales(p, old(data).teams, rows).teams)
    {
      out := [];
      var cache: map<string, Id> := map[];
      for i := 0 to |rows|
        invariant Transformed(data.teams, cache, out) == TransformSales(p, old(data).teams, rows[..i])
        invariant data == old(data).(teams := data.teams)
      {
        assert rows[..i + 1][..|rows[..i + 1]| - 1] == rows[..i];
        var row := rows[i];
        assert Convertible(p, SalesRows, row);
        var name := Strings.Strip(row["team"].value);
        if name !in cache {
          var team := GetOrCreateByName(name);
          cache := cache[name := team];
        }
        out := out + [(SalesKey(DateOf(p, row).value, cache[name]), SalesOf(p, row).value)];
      }
      assert rows[..|rows|] == rows;
    }

    // None: an exception left the pipeline.
    method RunPipeline(fetched: Option<Batch>, fault: Fault) returns (r: Option<(nat, nat)>)
      requires Sound(p)
      modifies this`data
      ensures r.Some? <==> fetched.Some? && !fault.Staging? && !(fault.Upsert? && fault.step < 3)
      ensures r.Some? ==> Imported(p, old(data), fetched.value, r.value, data)
    {
      if fetched.None? || fault.Staging? { return None; }
      var f := fetched.value;
      ValidatedIsConvertible(p, f);
      var sales, rejected1 := Validate(SalesRows, f.sales);
      var brands, rejected2 := Validate(BrandRows, f.brands);
      var doctors, rejected3 := Validate(DoctorRows, f.doctors);
      var out := TransformSalesRows(sales);
      if fault == Upsert(0) { return None; }
      var bySale := KeepLastOf(out);
      data := data.(sales := data.sales + bySale);
      if fault == Upsert(1) { return None; }
      var byBrand := KeepLastOf(Brands(p, brands));
      data := data.(brands := data.brands + byBrand);
      if fault == Upsert(2) { return None; }
      var byDoctor := KeepLastOf(Doctors(p, doctors));
      data := data.(doctors := data.doctors + byDoctor);
      r := Some((|out| + |brands| + |doctors|, rejected1 + rejected2 + rejected3));
      CacheIsLookup(p, old(data).teams, sales);
      assert data == ImportBatch(p, old(data), Validated(p, f));
      BatchIsOneByOne(p, old(data), Validated(p, f));
    }

    // Rolls everything back, then records the failure in its own commit.
    method MarkFailed(run: Id)
      modifies this`data, this`runs, this`savedData, this`savedRuns
      ensures Clean() && savedData == old(savedData) && savedRuns == old(savedRuns)[run := Failed]
    {
      Rollback();
      runs := runs[run := Failed];
      Commit();
    }

    method MarkSucceeded(run: Id, processed: nat, rejected: nat)
      modifies this`runs, this`savedData, this`savedRuns
      ensures Clean() && savedData == data && runs == old(runs)[run := Succeeded(processed, rejected)]
    {
      runs := runs[run := Succeeded(processed, rejected)];
      Commit();
    }

    predicate Raises(fetched: Option<Batch>, fault: Fault) {
      fetched.None? || fault.Staging? || (fault.Upsert? && fault.step < 3)
    }

    method RunLocked(run: Id, fetched: Option<Batch>, fault: Fault) returns (r: Outcome)
      requires Clean() && Sound(p)
      modifies this`data, this`runs, this`savedData, this`savedRuns
      ensures Clean()
      ensures !r.Skipped?
      ensures r.Crashed? ==> fault.Recording? && !Raises(fetched, fault) && savedData == old(savedData) && savedRuns == old(savedRuns)
      ensures r.Finished? ==> savedRuns == old(savedRuns)[run := r.status] && !r.status.Running?
      ensures r.Finished? && r.status.Failed? ==> Raises(fetched, fault) && savedData == old(savedData)
      ensures r.Finished? && r.status.Succeeded? ==>
                && !Raises(fetched, fault) && !fault.Recording?
                && Imported(p, old(savedData), fetched.value, (r.status.processed, r.status.rejected), savedData)
    {
      runs := runs[run := Running];
      var counts := RunPipeline(fetched, fault);
      if counts.None? {
        MarkFailed(run);
        r := Finished(Failed);
      } else if fault.Recording? {
        Rollback();   // the session closes without a commit
        r := Crashed;
      } else {
        MarkSucceeded(run, counts.value.0, counts.value.1);
        Overwritten(old(runs), run, Running, Succeeded(counts.value.0, counts.value.1));
        r := Finished(Succeeded(counts.value.0, counts.value.1));
      }
    }

    // SourceSystemImportService.run followed by the job's commit.
    method Run(run: Id, lockFree: bool, fetched: Option<Batch>, fault: Fault) returns (r: Outcome)
      requires Clean() && Sound(p)
      requires run !in runs   // a fresh UUID
      modifies this`data, this`runs, this`savedData, this`savedRuns
      ensures Clean()
      ensures r.Skipped? <==> !lockFree
      ensures r == Finished(Failed) <==> lockFree && Raises(fetched, fault)
      ensures r.Finished? && r.status.Succeeded? <==> lockFree && !Raises(fetched, fault) && !fault.Recording?
      ensures r.Finished? && r.status.Succeeded? ==> Imported(p, old(savedData), fetched.value, (r.status.processed, r.status.rejected), savedData)
      ensures r.Finished? && r.status.Succeeded? && TeamsOk(old(savedData).teams) ==>
                && HoldsSales(p, old(savedData), fetched.value.sales, savedData)
                && HoldsBrands(p, old(savedData).brands, fetched.value.brands, savedData.brands)
                && HoldsDoctors(p, old(savedData).doctors, fetched.value.doctors, savedData.doctors)
      ensures !(r.Finished? && r.status.Succeeded?) ==> savedData == old(savedData)
      ensures savedRuns == if r.Finished? then old(savedRuns)[run := r.status] else old(savedRuns)
      ensures r.Finished? ==> !r.status.Running?
    {
      if lockFree { r := RunLocked(run, fetched, fault); } else { r := Skipped; }
      if r.Finished? && r.status.Succeeded? && TeamsOk(old(savedData).teams) { ImportedFigures(p, old(savedData), fetched.value); }
    }

    // Any number of runs, one after another.
    method RunNights(ids: seq<Id>, locks: nat -> bool, batches: nat -> Option<Batch>, faults: nat -> Fault)
      requires Clean() && Sound(p) && Distinct(ids) && forall i :: 0 <= i < |ids| ==> ids[i] !in runs
      modifies this`data, this`runs, this`savedData, this`savedRuns
      ensures Clean()
      ensures NoneRunning(old(savedRuns)) ==> NoneRunning(savedRuns)
    {
      for k := 0 to |ids|
        invariant Clean()
        invariant forall i :: k <= i < |ids| ==> ids[i] !in runs
        invariant NoneRunning(old(savedRuns)) ==> NoneRunning(savedRuns)
      {
        var r := Run(ids[k], locks(k), batches(k), faults(k));
      }
    }
  }
}
