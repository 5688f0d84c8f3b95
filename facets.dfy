/**
 * The filter-options hook: one read of the categorical columns of every
 * row, from which each facet's option list is derived as the distinct
 * values, in the order in which they first occur.
 */
module FacetOptions {
  import opened Records

  // ---------------------------------------------------------------------
  // `[...new Set(s)]`
  // ---------------------------------------------------------------------

  predicate NoDuplicates(s: seq<string>)
  {
    forall i, j | 0 <= i < j < |s| :: s[i] != s[j]
  }

  /** Each value of `s` once, at the place of its first occurrence (a Set keeps insertion order). */
  function Distinct(s: seq<string>): (d: seq<string>)
    ensures NoDuplicates(d)
    ensures forall x :: x in d <==> x in s
  {
    if s == [] then []
    else
      var init, last := Distinct(s[..|s| - 1]), s[|s| - 1];
      assert s == s[..|s| - 1] + [last];
      if last in init then init else init + [last]
  }

  /** The position of the first occurrence of `x` in `s`. */
  function FirstIndex(s: seq<string>, x: string): (i: nat)
    requires x in s
    ensures i < |s| && s[i] == x && x !in s[..i]
  {
    if s[0] == x then 0
    else
      assert s == [s[0]] + s[1..];
      var k := FirstIndex(s[1..], x);
      assert s[..k + 1] == [s[0]] + s[1..][..k];
      1 + k
  }

  lemma FirstIndexUnique(s: seq<string>, x: string, i: nat)
    requires i < |s| && s[i] == x && x !in s[..i]
    ensures FirstIndex(s, x) == i
  {
    var k := FirstIndex(s, x);
  }

  lemma FirstIndexExtend(p: seq<string>, last: string, y: string)
    requires y in p
    ensures FirstIndex(p + [last], y) == FirstIndex(p, y)
  {
    var k := FirstIndex(p, y);
    assert (p + [last])[..k] == p[..k];
    FirstIndexUnique(p + [last], y, k);
  }

  /** The options come in the order in which their values first occur in the input. */
  lemma {:induction false} DistinctKeepsFirstOccurrenceOrder(s: seq<string>)
    ensures forall i, j | 0 <= i < j < |Distinct(s)| :: FirstIndex(s, Distinct(s)[i]) < FirstIndex(s, Distinct(s)[j])
  {
    if s != [] {
      var p, last := s[..|s| - 1], s[|s| - 1];
      assert s == p + [last];
      DistinctKeepsFirstOccurrenceOrder(p);
      var d, dp := Distinct(s), Distinct(p);
      forall y | y in p ensures FirstIndex(s, y) == FirstIndex(p, y) {
        FirstIndexExtend(p, last, y);
      }
      if last !in dp {
        assert last !in p;
        assert s[..|s| - 1] == p;
        FirstIndexUnique(s, last, |s| - 1);
        forall i | 0 <= i < |dp| ensures FirstIndex(s, d[i]) < FirstIndex(s, last) {
          assert d[i] == dp[i] && dp[i] in p;
        }
      }
    }
  }

  // ---------------------------------------------------------------------
  // The values behind each facet
  // ---------------------------------------------------------------------

  /** `data.map(item => item.<col>).filter(Boolean)`: null and "" are dropped. */
  function TruthyValues(rows: seq<CaseStudy>, col: Column): seq<string>
  {
    if rows == [] then []
    else (if Truthy(Field(rows[0], col)) then [Field(rows[0], col).value] else []) + TruthyValues(rows[1..], col)
  }

  /** Whether some row holds `v` in column `col`. */
  predicate Occurs(rows: seq<CaseStudy>, col: Column, v: string)
  {
    exists i | 0 <= i < |rows| :: Field(rows[i], col) == Some(v)
  }

  lemma {:induction false} TruthyValuesSpec(rows: seq<CaseStudy>, col: Column)
    ensures forall v :: v in TruthyValues(rows, col) <==> v != "" && Occurs(rows, col, v)
  {
    if rows != [] {
      TruthyValuesSpec(rows[1..], col);
      forall v ensures Occurs(rows, col, v) <==> Field(rows[0], col) == Some(v) || Occurs(rows[1..], col, v) {
        if Occurs(rows, col, v) {
          var i :| 0 <= i < |rows| && Field(rows[i], col) == Some(v);
          if i > 0 {
            assert Field(rows[1..][i - 1], col) == Some(v);
          }
        }
        if Occurs(rows[1..], col, v) {
          var i :| 0 <= i < |rows[1..]| && Field(rows[1..][i], col) == Some(v);
          assert Field(rows[i + 1], col) == Some(v);
        }
      }
    }
  }

  /** `item.aws_services || []`: a null array counts as empty. */
  function ServicesOf(r: CaseStudy): seq<string>
  {
    if r.awsServices.Some? then r.awsServices.value else []
  }

  /** `.flat()` of every row's services, row by row, each in its stored order. */
  function AllServices(rows: seq<CaseStudy>): seq<string>
  {
    if rows == [] then [] else ServicesOf(rows[0]) + AllServices(rows[1..])
  }

  lemma {:induction false} AllServicesSpec(rows: seq<CaseStudy>)
    ensures forall t :: t in AllServices(rows) <==> exists i | 0 <= i < |rows| :: t in ServicesOf(rows[i])
  {
    if rows != [] {
      AllServicesSpec(rows[1..]);
      forall t | t in AllServices(rows) ensures exists i | 0 <= i < |rows| :: t in ServicesOf(rows[i]) {
        if t !in ServicesOf(rows[0]) {
          assert t in AllServices(rows[1..]);
          var i :| 0 <= i < |rows[1..]| && t in ServicesOf(rows[1..][i]);
          assert rows[1..][i] == rows[i + 1];
        }
      }
      forall t | exists i | 0 <= i < |rows| :: t in ServicesOf(rows[i]) ensures t in AllServices(rows) {
        var i :| 0 <= i < |rows| && t in ServicesOf(rows[i]);
        if i > 0 {
          assert rows[1..][i - 1] == rows[i];
        }
      }
    }
  }

  // ---------------------------------------------------------------------
  // The options record
  // ---------------------------------------------------------------------

  datatype FilterOptions = FilterOptions(
    cities: seq<string>,
    industries: seq<string>,
    subIndustries: seq<string>,
    awsServices: seq<string>,
    useCases: seq<string>,
    accountSegments: seq<string>,
    availabilityOptions: seq<string>)

  /** The hook's initial state, kept when the read fails. */
  const EmptyOptions := FilterOptions([], [], [], [], [], [], [])

  /** The option list a categorical column offers. */
  function OptionsOf(o: FilterOptions, col: Column): seq<string>
  {
    match col
    case City => o.cities
    case Industry => o.industries
    case SubIndustry => o.subIndustries
    case UseCase => o.useCases
    case AccountSegment => o.accountSegments
    case Availability => o.availabilityOptions
  }

  function CategoryOptions(rows: seq<CaseStudy>, col: Column): seq<string>
  {
    Distinct(TruthyValues(rows, col))
  }

  function DeriveOptions(rows: seq<CaseStudy>): (o: FilterOptions)
    ensures forall col :: NoDuplicates(OptionsOf(o, col))
    ensures NoDuplicates(o.awsServices)
  {
    FilterOptions(
      CategoryOptions(rows, City),
      CategoryOptions(rows, Industry),
      CategoryOptions(rows, SubIndustry),
      Distinct(AllServices(rows)),
      CategoryOptions(rows, UseCase),
      CategoryOptions(rows, AccountSegment),
      CategoryOptions(rows, Availability))
  }

  /**
   * The state after the one read. A failed read is caught and leaves the
   * initial state; so does a null payload, whose `data.map` throws.
   */
  function FetchOptions(backend: Backend): FilterOptions
  {
    match backend
    case Available(table) => DeriveOptions(table)
    case NullData => EmptyOptions
    case Unavailable(_) => EmptyOptions
  }

  // ---------------------------------------------------------------------
  // What the options promise
  // ---------------------------------------------------------------------

  /**
   * A categorical facet offers exactly the distinct truthy values of its
   * column (sound and complete), each once, in first-occurrence order.
   */
  lemma CategoryOptionsSpec(rows: seq<CaseStudy>, col: Column)
    ensures OptionsOf(DeriveOptions(rows), col) == CategoryOptions(rows, col)
    ensures NoDuplicates(CategoryOptions(rows, col))
    ensures forall v :: v in CategoryOptions(rows, col) <==> v != "" && Occurs(rows, col, v)
    ensures forall i, j | 0 <= i < j < |CategoryOptions(rows, col)| ::
      FirstIndex(TruthyValues(rows, col), CategoryOptions(rows, col)[i])
        < FirstIndex(TruthyValues(rows, col), CategoryOptions(rows, col)[j])
  {
    TruthyValuesSpec(rows, col);
    DistinctKeepsFirstOccurrenceOrder(TruthyValues(rows, col));
  }

  /**
   * The hook's services list holds each token of any row once, in
   * first-occurrence order of the flattened arrays; tokens are not filtered
   * for truthiness. No panel offers this list.
   */
  lemma ServiceOptionsSpec(rows: seq<CaseStudy>)
    ensures NoDuplicates(DeriveOptions(rows).awsServices)
    ensures forall t :: t in DeriveOptions(rows).awsServices <==> exists i | 0 <= i < |rows| :: t in ServicesOf(rows[i])
    ensures forall i, j | 0 <= i < j < |DeriveOptions(rows).awsServices| ::
      FirstIndex(AllServices(rows), DeriveOptions(rows).awsServices[i])
        < FirstIndex(AllServices(rows), DeriveOptions(rows).awsServices[j])
  {
    AllServicesSpec(rows);
    DistinctKeepsFirstOccurrenceOrder(AllServices(rows));
  }

  /** A read that fails, or answers with no payload, leaves every list empty. */
  lemma FailedFetchKeepsEmpty(backend: Backend, col: Column)
    requires !backend.Available?
    ensures OptionsOf(FetchOptions(backend), col) == []
    ensures FetchOptions(backend).awsServices == []
  {
  }

  function CityRow(city: Option<string>): CaseStudy
  {
    CaseStudy(0, "h", "c", "o", None, None, None, city, None, None, None, None, "", 0)
  }

  /** Cities "Pune", "Pune" and null give the single option "Pune". */
  lemma PuneExample()
    ensures FetchOptions(Available([CityRow(Some("Pune")), CityRow(Some("Pune")), CityRow(None)])).cities == ["Pune"]
  {
    var rows := [CityRow(Some("Pune")), CityRow(Some("Pune")), CityRow(None)];
    assert rows[1..][1..][1..] == [];
    assert TruthyValues(rows, City) == ["Pune", "Pune"];
    assert ["Pune", "Pune"][..1] == ["Pune"];
  }

  /** An empty-string token still reaches the services list, unlike an empty categorical value. */
  lemma EmptyTokenIsDerived()
    ensures "" in DeriveOptions([CityRow(Some("")).(awsServices := Some([""]))]).awsServices
    ensures "" !in DeriveOptions([CityRow(Some(""))]).cities
  {
    var rows := [CityRow(Some("")).(awsServices := Some([""]))];
    ServiceOptionsSpec(rows);
    assert "" in ServicesOf(rows[0]);
    CategoryOptionsSpec([CityRow(Some(""))], City);
  }
}
