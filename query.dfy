/**
 * The case-study query hook: the filter state becomes a chain of query
 * clauses, the datastore keeps the rows that satisfy every clause and
 * returns them newest first, and the hook records the rows or the error.
 */
module CaseStudyQuery {
  import opened Records

  /**
   * One link of the query chain:
   *  - SearchAny: `or(heading.ilike.%t%, content.ilike.%t%, client_name.ilike.%t%)`
   *  - In: `in(column, values)`
   *  - Contains: `contains('aws_services', [token])`
   *  - Gte, Lte: `gte('mrr', b)`, `lte('mrr', b)`
   * Every query is also ordered by `created_at` descending.
   */
  datatype Clause =
    | SearchAny(text: string)
    | In(column: Column, values: seq<string>)
    | Contains(token: string)
    | Gte(bound: int)
    | Lte(bound: int)

  // ---------------------------------------------------------------------
  // Case-insensitive substring match (the meaning of `ilike '%t%'`)
  // ---------------------------------------------------------------------

  function Lower(c: char): char
  {
    if 'A' <= c <= 'Z' then (c as int + 32) as char else c
  }

  function LowerStr(s: string): (r: string)
    ensures |r| == |s|
  {
    seq(|s|, i requires 0 <= i < |s| => Lower(s[i]))
  }

  /** Whether `needle` occurs as a contiguous piece of `hay`. */
  predicate IsSubstring(needle: string, hay: string)
    decreases |hay|
  {
    if |needle| > |hay| then false
    else if hay[..|needle|] == needle then true
    else |hay| > 0 && IsSubstring(needle, hay[1..])
  }

  /** `IsSubstring` holds exactly when some offset of `hay` starts a copy of `needle`. */
  lemma {:induction false} IsSubstringAt(needle: string, hay: string, k: nat)
    requires k + |needle| <= |hay| && hay[k..k + |needle|] == needle
    ensures IsSubstring(needle, hay)
    decreases k
  {
    if k > 0 && hay[..|needle|] != needle {
      assert hay[1..][k - 1..k - 1 + |needle|] == hay[k..k + |needle|];
      IsSubstringAt(needle, hay[1..], k - 1);
    }
  }

  lemma {:induction false} IsSubstringWitness(needle: string, hay: string) returns (k: nat)
    requires IsSubstring(needle, hay)
    ensures k + |needle| <= |hay| && hay[k..k + |needle|] == needle
    decreases |hay|
  {
    if hay[..|needle|] == needle {
      k := 0;
    } else {
      var k' := IsSubstringWitness(needle, hay[1..]);
      assert hay[1..][k'..k' + |needle|] == hay[k' + 1..k' + 1 + |needle|];
      k := k' + 1;
    }
  }

  predicate ContainsCI(hay: string, needle: string)
  {
    IsSubstring(LowerStr(needle), LowerStr(hay))
  }

  // ---------------------------------------------------------------------
  // Meaning of one clause, and of a chain of clauses
  // ---------------------------------------------------------------------

  /**
   * Whether a row satisfies a clause. A null column fails `in`, `contains`,
   * `gte` and `lte` alike: the store compares null to nothing.
   */
  predicate Matches(r: CaseStudy, c: Clause)
  {
    match c
    case SearchAny(t) => ContainsCI(r.heading, t) || ContainsCI(r.content, t) || ContainsCI(r.clientName, t)
    case In(col, vs) => Field(r, col).Some? && Field(r, col).value in vs
    case Contains(t) => HasService(r, t)
    case Gte(b) => r.mrr.Some? && r.mrr.value >= b
    case Lte(b) => r.mrr.Some? && r.mrr.value <= b
  }

  /** Chained filters combine conjunctively. */
  predicate MatchesAll(r: CaseStudy, q: seq<Clause>)
  {
    forall c | c in q :: Matches(r, c)
  }

  // ---------------------------------------------------------------------
  // The clause chain a filter state produces
  // ---------------------------------------------------------------------

  function SearchClauses(f: FilterState): seq<Clause>
  {
    if f.search != "" then [SearchAny(f.search)] else []
  }

  function InClauses(f: FilterState, col: Column): seq<Clause>
  {
    if |Selection(f, col)| > 0 then [In(col, Selection(f, col))] else []
  }

  /** One `contains` per selected service, in selection order. */
  function ContainsClauses(ts: seq<string>): seq<Clause>
  {
    if ts == [] then [] else ContainsClauses(ts[..|ts| - 1]) + [Contains(ts[|ts| - 1])]
  }

  function RangeClauses(m: MrrRange): seq<Clause>
  {
    (if m.lo > MrrMin then [Gte(m.lo)] else []) + (if m.hi < MrrMax then [Lte(m.hi)] else [])
  }

  /** The chain, in the order the hook appends the clauses. */
  function Clauses(f: FilterState): seq<Clause>
  {
    SearchClauses(f)
    + InClauses(f, City) + InClauses(f, Industry) + InClauses(f, SubIndustry)
    + InClauses(f, UseCase) + InClauses(f, AccountSegment) + InClauses(f, Availability)
    + ContainsClauses(f.awsServices)
    + RangeClauses(f.mrrRange)
  }

  // ---------------------------------------------------------------------
  // The intended meaning of a filter state, field by field
  // ---------------------------------------------------------------------

  predicate SearchOk(f: FilterState, r: CaseStudy)
  {
    f.search == "" || ContainsCI(r.heading, f.search) || ContainsCI(r.content, f.search)
    || ContainsCI(r.clientName, f.search)
  }

  /** An empty selection does not restrict; otherwise the row's value must be selected. */
  predicate SelectionOk(f: FilterState, r: CaseStudy, col: Column)
  {
    |Selection(f, col)| == 0 || (Field(r, col).Some? && Field(r, col).value in Selection(f, col))
  }

  /** Every selected service is among the row's services (subset, not intersection). */
  predicate ServicesOk(f: FilterState, r: CaseStudy)
  {
    forall t | t in f.awsServices :: HasService(r, t)
  }

  /** A null services array contains nothing. */
  predicate HasService(r: CaseStudy, t: string)
  {
    r.awsServices.Some? && t in r.awsServices.value
  }

  /** A bound applies only away from its slider end; a row without mrr fails an active bound. */
  predicate RangeOk(m: MrrRange, r: CaseStudy)
  {
    && (m.lo > MrrMin ==> r.mrr.Some? && r.mrr.value >= m.lo)
    && (m.hi < MrrMax ==> r.mrr.Some? && r.mrr.value <= m.hi)
  }

  predicate Admits(f: FilterState, r: CaseStudy)
  {
    && SearchOk(f, r)
    && SelectionOk(f, r, City) && SelectionOk(f, r, Industry) && SelectionOk(f, r, SubIndustry)
    && SelectionOk(f, r, UseCase) && SelectionOk(f, r, AccountSegment) && SelectionOk(f, r, Availability)
    && ServicesOk(f, r)
    && RangeOk(f.mrrRange, r)
  }

  /** Every field at its neutral value: the initial state, whatever the search box says aside. */
  predicate Neutral(f: FilterState)
  {
    && f.search == ""
    && f.city == [] && f.industry == [] && f.subIndustry == []
    && f.useCase == [] && f.accountSegment == [] && f.availability == []
    && f.awsServices == []
    && f.mrrRange.lo <= MrrMin && f.mrrRange.hi >= MrrMax
  }

  lemma MatchesAllConcat(r: CaseStudy, a: seq<Clause>, b: seq<Clause>)
    ensures MatchesAll(r, a + b) <==> MatchesAll(r, a) && MatchesAll(r, b)
  {
    assert forall c :: c in a + b <==> c in a || c in b;
  }

  lemma MatchesOne(r: CaseStudy, c: Clause)
    ensures MatchesAll(r, [c]) <==> Matches(r, c)
  {
    assert c in [c];
  }

  lemma {:induction false} ContainsClausesMeaning(r: CaseStudy, ts: seq<string>)
    ensures MatchesAll(r, ContainsClauses(ts)) <==> forall t | t in ts :: HasService(r, t)
  {
    if ts != [] {
      var init, last := ts[..|ts| - 1], ts[|ts| - 1];
      ContainsClausesMeaning(r, init);
      MatchesAllConcat(r, ContainsClauses(init), [Contains(last)]);
      MatchesOne(r, Contains(last));
      assert ts == init + [last];
      assert (forall t | t in ts :: HasService(r, t))
          <==> (forall t | t in init :: HasService(r, t)) && HasService(r, last);
    }
  }

  lemma ContainsClausesSnoc(ts: seq<string>, t: string)
    ensures ContainsClauses(ts + [t]) == ContainsClauses(ts) + [Contains(t)]
  {
    assert (ts + [t])[..|ts|] == ts;
  }

  lemma {:induction false} ContainsClausesLength(ts: seq<string>)
    ensures |ContainsClauses(ts)| == |ts|
  {
    if ts != [] {
      ContainsClausesLength(ts[..|ts| - 1]);
    }
  }

  lemma InClausesMeaning(f: FilterState, r: CaseStudy, col: Column)
    ensures MatchesAll(r, InClauses(f, col)) <==> SelectionOk(f, r, col)
  {
    if |Selection(f, col)| > 0 {
      MatchesOne(r, In(col, Selection(f, col)));
    }
  }

  lemma RangeClausesMeaning(m: MrrRange, r: CaseStudy)
    ensures MatchesAll(r, RangeClauses(m)) <==> RangeOk(m, r)
  {
    var lo := if m.lo > MrrMin then [Gte(m.lo)] else [];
    var hi := if m.hi < MrrMax then [Lte(m.hi)] else [];
    MatchesAllConcat(r, lo, hi);
    MatchesOne(r, Gte(m.lo));
    MatchesOne(r, Lte(m.hi));
  }

  /** The clause chain means exactly the field-by-field reading of the filter state. */
  lemma ClausesAdmit(f: FilterState, r: CaseStudy)
    ensures MatchesAll(r, Clauses(f)) <==> Admits(f, r)
  {
    var s := SearchClauses(f);
    var c1, c2, c3 := InClauses(f, City), InClauses(f, Industry), InClauses(f, SubIndustry);
    var c4, c5, c6 := InClauses(f, UseCase), InClauses(f, AccountSegment), InClauses(f, Availability);
    var cs, rg := ContainsClauses(f.awsServices), RangeClauses(f.mrrRange);
    MatchesAllConcat(r, s + c1 + c2 + c3 + c4 + c5 + c6 + cs, rg);
    MatchesAllConcat(r, s + c1 + c2 + c3 + c4 + c5 + c6, cs);
    MatchesAllConcat(r, s + c1 + c2 + c3 + c4 + c5, c6);
    MatchesAllConcat(r, s + c1 + c2 + c3 + c4, c5);
    MatchesAllConcat(r, s + c1 + c2 + c3, c4);
    MatchesAllConcat(r, s + c1 + c2, c3);
    MatchesAllConcat(r, s + c1, c2);
    MatchesAllConcat(r, s, c1);
    if f.search != "" {
      MatchesOne(r, SearchAny(f.search));
    }
    InClausesMeaning(f, r, City);
    InClausesMeaning(f, r, Industry);
    InClausesMeaning(f, r, SubIndustry);
    InClausesMeaning(f, r, UseCase);
    InClausesMeaning(f, r, AccountSegment);
    InClausesMeaning(f, r, Availability);
    ContainsClausesMeaning(r, f.awsServices);
    RangeClausesMeaning(f.mrrRange, r);
  }

  /** No clause at all exactly when every field is neutral. */
  lemma NeutralIffNoClauses(f: FilterState)
    ensures Clauses(f) == [] <==> Neutral(f)
  {
    ContainsClausesLength(f.awsServices);
  }

  /** `ts.forEach(t => query = query.contains('aws_services', [t]))` */
  method AppendContains(q0: seq<Clause>, ts: seq<string>) returns (q: seq<Clause>)
    ensures q == q0 + ContainsClauses(ts)
  {
    q := q0;
    var i := 0;
    while i < |ts|
      invariant 0 <= i <= |ts|
      invariant q == q0 + ContainsClauses(ts[..i])
    {
      assert ts[..i + 1] == ts[..i] + [ts[i]];
      ContainsClausesSnoc(ts[..i], ts[i]);
      q := q + [Contains(ts[i])];
      i := i + 1;
    }
    assert ts[..i] == ts;
  }

  lemma ChainMeaning(f: FilterState)
    ensures forall r :: MatchesAll(r, Clauses(f)) <==> Admits(f, r)
    ensures Clauses(f) == [] <==> Neutral(f)
  {
    forall r ensures MatchesAll(r, Clauses(f)) <==> Admits(f, r) {
      ClausesAdmit(f, r);
    }
    NeutralIffNoClauses(f);
  }

  // ---------------------------------------------------------------------
  // Building the chain: the `let query = ...` sequence of reassignments
  // ---------------------------------------------------------------------

  /** `if (filters.<col>?.length > 0) query = query.in('<column>', filters.<col>)` */
  method ApplyIn(q0: seq<Clause>, f: FilterState, col: Column) returns (q: seq<Clause>)
    ensures q == q0 + InClauses(f, col)
  {
    q := q0;
    if |Selection(f, col)| > 0 {
      q := q + [In(col, Selection(f, col))];
    }
  }

  /** The bounds of the MRR slider, each only away from its end of the slider. */
  method ApplyRange(q0: seq<Clause>, m: MrrRange) returns (q: seq<Clause>)
    ensures q == q0 + RangeClauses(m)
  {
    q := q0;
    if m.lo > MrrMin {
      q := q + [Gte(m.lo)];
    }
    if m.hi < MrrMax {
      q := q + [Lte(m.hi)];
    }
  }

  method BuildQuery(f: FilterState) returns (q: seq<Clause>)
    ensures q == Clauses(f)
    ensures forall r :: MatchesAll(r, q) <==> Admits(f, r)
    ensures q == [] <==> Neutral(f)
  {
    q := [];
    if f.search != "" {
      q := q + [SearchAny(f.search)];
    }
    assert q == SearchClauses(f);
    q := ApplyIn(q, f, City);
    q := ApplyIn(q, f, Industry);
    q := ApplyIn(q, f, SubIndustry);
    q := ApplyIn(q, f, UseCase);
    q := ApplyIn(q, f, AccountSegment);
    q := ApplyIn(q, f, Availability);
    ghost var categorical := q;
    if |f.awsServices| > 0 {
      q := AppendContains(q, f.awsServices);
    } else {
      assert q == categorical + ContainsClauses(f.awsServices);
    }
    q := ApplyRange(q, f.mrrRange);
    ChainMeaning(f);
  }

  // ---------------------------------------------------------------------
  // Executing a chain: keep the matching rows, newest first
  // ---------------------------------------------------------------------

  /** The matching rows, in table order, each with its multiplicity. */
  function Select(rows: seq<CaseStudy>, q: seq<Clause>): (s: seq<CaseStudy>)
    ensures forall r :: multiset(s)[r] == if MatchesAll(r, q) then multiset(rows)[r] else 0
  {
    if rows == [] then []
    else
      assert rows == [rows[0]] + rows[1..];
      (if MatchesAll(rows[0], q) then [rows[0]] else []) + Select(rows[1..], q)
  }

  predicate NewestFirst(s: seq<CaseStudy>)
  {
    forall i, j | 0 <= i < j < |s| :: s[i].createdAt >= s[j].createdAt
  }

  function Insert(r: CaseStudy, s: seq<CaseStudy>): (t: seq<CaseStudy>)
    ensures multiset(t) == multiset(s) + multiset{r}
    ensures |t| == |s| + 1 && (t[0] == r || (s != [] && t[0] == s[0]))
  {
    if s == [] || s[0].createdAt <= r.createdAt then [r] + s
    else
      assert s == [s[0]] + s[1..];
      [s[0]] + Insert(r, s[1..])
  }

  /** Inserting into a newest-first list keeps it newest first. */
  lemma {:induction false} InsertKeepsNewestFirst(r: CaseStudy, s: seq<CaseStudy>)
    requires NewestFirst(s)
    ensures NewestFirst(Insert(r, s))
  {
    if s == [] || s[0].createdAt <= r.createdAt {
      PrependNewest(r, s);
    } else {
      assert NewestFirst(s[1..]);
      InsertKeepsNewestFirst(r, s[1..]);
      PrependNewest(s[0], Insert(r, s[1..]));
    }
  }

  /** A row at least as new as the head of a newest-first list can go in front of it. */
  lemma PrependNewest(x: CaseStudy, t: seq<CaseStudy>)
    requires NewestFirst(t)
    requires t == [] || t[0].createdAt <= x.createdAt
    ensures NewestFirst([x] + t)
  {
    forall i, j | 0 <= i < j < |t| + 1 ensures ([x] + t)[i].createdAt >= ([x] + t)[j].createdAt {
      if i == 0 && j > 1 {
        assert t[0].createdAt >= t[j - 1].createdAt;
      }
    }
  }

  /** `order('created_at', { ascending: false })`, as an insertion sort. */
  function SortNewestFirst(s: seq<CaseStudy>): (t: seq<CaseStudy>)
    ensures multiset(t) == multiset(s)
    ensures NewestFirst(t)
  {
    if s == [] then []
    else
      assert s == [s[0]] + s[1..];
      InsertKeepsNewestFirst(s[0], SortNewestFirst(s[1..]));
      Insert(s[0], SortNewestFirst(s[1..]))
  }

  function Execute(rows: seq<CaseStudy>, q: seq<Clause>): seq<CaseStudy>
  {
    SortNewestFirst(Select(rows, q))
  }

  /** What the home page lists for a filter state, given the whole collection. */
  function Result(rows: seq<CaseStudy>, f: FilterState): (s: seq<CaseStudy>)
    ensures NewestFirst(s)
    ensures multiset(s) <= multiset(rows)
  {
    Execute(rows, Clauses(f))
  }

  /**
   * The listing holds every admitted row (with its multiplicity) and nothing
   * else, newest first.
   */
  lemma ResultSpec(rows: seq<CaseStudy>, f: FilterState)
    ensures NewestFirst(Result(rows, f))
    ensures forall r :: multiset(Result(rows, f))[r] == if Admits(f, r) then multiset(rows)[r] else 0
  {
    forall r ensures multiset(Result(rows, f))[r] == if Admits(f, r) then multiset(rows)[r] else 0 {
      ResultCount(rows, f, r);
    }
  }

  /** One row's side of `ResultSpec`: how many copies of it are listed. */
  lemma ResultCount(rows: seq<CaseStudy>, f: FilterState, r: CaseStudy)
    ensures multiset(Result(rows, f))[r] == if Admits(f, r) then multiset(rows)[r] else 0
  {
    ClausesAdmit(f, r);
  }

  /** Neutral filters list the whole collection, newest first. */
  lemma NeutralListsAll(rows: seq<CaseStudy>, f: FilterState)
    requires Neutral(f)
    ensures Clauses(f) == []
    ensures multiset(Result(rows, f)) == multiset(rows)
    ensures NewestFirst(Result(rows, f))
  {
    NeutralIffNoClauses(f);
    ResultSpec(rows, f);
    assert forall r :: Admits(f, r) by {
      forall r ensures Admits(f, r) {
        ClausesAdmit(f, r);
      }
    }
  }

  // ---------------------------------------------------------------------
  // Each filter on its own
  // ---------------------------------------------------------------------

  /** A row is listed exactly when it is stored and passes every filter. */
  lemma ResultMember(rows: seq<CaseStudy>, f: FilterState, r: CaseStudy)
    ensures r in Result(rows, f) <==> r in rows && Admits(f, r)
  {
    ClausesAdmit(f, r);
    assert r in Result(rows, f) <==> multiset(Result(rows, f))[r] > 0;
  }

  /** With every other filter at its initial value, only the search decides. */
  lemma SearchOnlyAdmits(f: FilterState, r: CaseStudy)
    requires f == InitialFilters.(search := f.search)
    ensures Admits(f, r) <==> SearchOk(f, r)
  {
  }

  lemma SearchAlone(rows: seq<CaseStudy>, t: string, r: CaseStudy)
    requires t != ""
    ensures r in Result(rows, InitialFilters.(search := t))
        <==> r in rows && (ContainsCI(r.heading, t) || ContainsCI(r.content, t) || ContainsCI(r.clientName, t))
  {
    var f := InitialFilters.(search := t);
    ResultMember(rows, f, r);
    SearchOnlyAdmits(f, r);
    assert SearchOk(f, r) <==> ContainsCI(r.heading, t) || ContainsCI(r.content, t) || ContainsCI(r.clientName, t);
  }

  lemma SelectionOnlyAdmits(f: FilterState, col: Column, r: CaseStudy)
    requires f == WithSelection(InitialFilters, col, Selection(f, col))
    ensures Admits(f, r) <==> SelectionOk(f, r, col)
  {
  }

  lemma ServicesOnlyAdmits(f: FilterState, r: CaseStudy)
    requires f == InitialFilters.(awsServices := f.awsServices)
    ensures Admits(f, r) <==> ServicesOk(f, r)
  {
  }

  lemma RangeOnlyAdmits(f: FilterState, r: CaseStudy)
    requires f == InitialFilters.(mrrRange := f.mrrRange)
    ensures Admits(f, r) <==> RangeOk(f.mrrRange, r)
  {
  }

  lemma SelectionAlone(rows: seq<CaseStudy>, col: Column, sel: seq<string>, r: CaseStudy)
    ensures r in Result(rows, WithSelection(InitialFilters, col, sel))
        <==> r in rows && (sel == [] || (Field(r, col).Some? && Field(r, col).value in sel))
  {
    var f := WithSelection(InitialFilters, col, sel);
    ResultMember(rows, f, r);
    SelectionOnlyAdmits(f, col, r);
  }

  lemma ServicesAlone(rows: seq<CaseStudy>, ts: seq<string>, r: CaseStudy)
    ensures r in Result(rows, InitialFilters.(awsServices := ts))
        <==> r in rows && (ts == [] || (r.awsServices.Some? && forall t | t in ts :: t in r.awsServices.value))
  {
    var f := InitialFilters.(awsServices := ts);
    ResultMember(rows, f, r);
    ServicesOnlyAdmits(f, r);
    if ts != [] {
      assert ts[0] in ts;
    }
  }

  lemma RangeAlone(rows: seq<CaseStudy>, lo: int, hi: int, r: CaseStudy)
    ensures r in Result(rows, InitialFilters.(mrrRange := MrrRange(lo, hi)))
        <==> && r in rows
             && (lo > 0 ==> r.mrr.Some? && r.mrr.value >= lo)
             && (hi < 1000 ==> r.mrr.Some? && r.mrr.value <= hi)
  {
    var f := InitialFilters.(mrrRange := MrrRange(lo, hi));
    ResultMember(rows, f, r);
    RangeOnlyAdmits(f, r);
  }

  // ---------------------------------------------------------------------
  // Monotonicity
  // ---------------------------------------------------------------------

  /** A selection at least as strict: unrestricted before, or a non-empty subset of it now. */
  predicate NarrowerSelection(before: seq<string>, after: seq<string>)
  {
    before == [] || (after != [] && forall v | v in after :: v in before)
  }

  /**
   * `after` restricts at least as much as `before` in every field: search
   * newly set or extended to a text containing the old one (ignoring case),
   * each selection narrowed, services added, bounds
   * raised or lowered towards each other.
   */
  predicate Narrower(before: FilterState, after: FilterState)
  {
    && (before.search == "" || IsSubstring(LowerStr(before.search), LowerStr(after.search)))
    && NarrowerSelection(before.city, after.city)
    && NarrowerSelection(before.industry, after.industry)
    && NarrowerSelection(before.subIndustry, after.subIndustry)
    && NarrowerSelection(before.useCase, after.useCase)
    && NarrowerSelection(before.accountSegment, after.accountSegment)
    && NarrowerSelection(before.availability, after.availability)
    && (forall t | t in before.awsServices :: t in after.awsServices)
    && (before.mrrRange.lo > MrrMin ==> after.mrrRange.lo >= before.mrrRange.lo)
    && (before.mrrRange.hi < MrrMax ==> after.mrrRange.hi <= before.mrrRange.hi)
  }

  lemma NarrowerAdmitsLess(before: FilterState, after: FilterState, r: CaseStudy)
    requires Narrower(before, after)
    requires Admits(after, r)
    ensures Admits(before, r)
  {
    SearchNarrower(before.search, after.search, r);
  }

  /** A piece of a piece of a text is a piece of that text. */
  lemma IsSubstringTransitive(a: string, b: string, c: string)
    requires IsSubstring(a, b) && IsSubstring(b, c)
    ensures IsSubstring(a, c)
  {
    var i := IsSubstringWitness(a, b);
    var j := IsSubstringWitness(b, c);
    forall k | 0 <= k < |a| ensures c[j + i..j + i + |a|][k] == a[k] {
      assert c[j..j + |b|][i + k] == b[i..i + |a|][k];
    }
    assert c[j + i..j + i + |a|] == a;
    IsSubstringAt(a, c, j + i);
  }

  /** A row found by a search text is found by any piece of it. */
  lemma SearchNarrower(before: string, after: string, r: CaseStudy)
    requires before == "" || IsSubstring(LowerStr(before), LowerStr(after))
    requires after == "" || ContainsCI(r.heading, after) || ContainsCI(r.content, after) || ContainsCI(r.clientName, after)
    ensures before == "" || ContainsCI(r.heading, before) || ContainsCI(r.content, before) || ContainsCI(r.clientName, before)
  {
    if before != "" {
      if after == "" {
        assert false;
      } else if ContainsCI(r.heading, after) {
        IsSubstringTransitive(LowerStr(before), LowerStr(after), LowerStr(r.heading));
      } else if ContainsCI(r.content, after) {
        IsSubstringTransitive(LowerStr(before), LowerStr(after), LowerStr(r.content));
      } else {
        IsSubstringTransitive(LowerStr(before), LowerStr(after), LowerStr(r.clientName));
      }
    }
  }

  /** Typing one more letter into the search box is a narrowing. */
  lemma LongerSearchIsNarrower(f: FilterState, c: char)
    ensures Narrower(f, f.(search := f.search + [c]))
  {
    if f.search != "" {
      var t := f.search + [c];
      assert LowerStr(t)[0..|f.search|] == LowerStr(f.search);
      IsSubstringAt(LowerStr(f.search), LowerStr(t), 0);
    }
  }

  /** Tightening the filters never adds a row to the listing. */
  lemma NarrowerListsLess(rows: seq<CaseStudy>, before: FilterState, after: FilterState)
    requires Narrower(before, after)
    ensures multiset(Result(rows, after)) <= multiset(Result(rows, before))
  {
    forall r ensures multiset(Result(rows, after))[r] <= multiset(Result(rows, before))[r] {
      ResultCount(rows, before, r);
      ResultCount(rows, after, r);
      if Admits(after, r) {
        NarrowerAdmitsLess(before, after, r);
      }
    }
  }

  // ---------------------------------------------------------------------
  // Worked cases
  // ---------------------------------------------------------------------

  function Sample(mrr: Option<int>, heading: string, clientName: string, services: Option<seq<string>>): CaseStudy
  {
    CaseStudy(1, heading, clientName, "owner", mrr, None, None, None, None, None, None, services, "", 0)
  }

  /** With `[200, 1000]`: 150 is out, a missing mrr is out, 500 is in. */
  lemma LowerBoundExample()
    ensures !Admits(InitialFilters.(mrrRange := MrrRange(200, 1000)), Sample(Some(150), "h", "c", None))
    ensures !Admits(InitialFilters.(mrrRange := MrrRange(200, 1000)), Sample(None, "h", "c", None))
    ensures Admits(InitialFilters.(mrrRange := MrrRange(200, 1000)), Sample(Some(500), "h", "c", None))
  {
  }

  /** "alpha" finds "Alpha Bank Migration" in the heading, and "Alpha" in a client name alone. */
  lemma SearchExample()
    ensures Admits(InitialFilters.(search := "alpha"), Sample(None, "Alpha Bank Migration", "Someone", None))
    ensures Admits(InitialFilters.(search := "alpha"), Sample(None, "Cloud Move", "Alpha Corp", None))
  {
    var h := LowerStr("Alpha Bank Migration");
    assert h[..5] == "alpha";
    var c := LowerStr("Alpha Corp");
    assert c[..5] == "alpha";
    assert LowerStr("alpha") == "alpha";
  }

  /** Selecting two services keeps only rows that have both, not rows with either. */
  lemma ServicesAreConjunctive()
    ensures !Admits(InitialFilters.(awsServices := ["EC2", "RDS"]), Sample(None, "h", "c", Some(["EC2"])))
    ensures Admits(InitialFilters.(awsServices := ["EC2", "RDS"]), Sample(None, "h", "c", Some(["RDS", "S3", "EC2"])))
  {
    assert "RDS" in ["EC2", "RDS"];
  }

  // ---------------------------------------------------------------------
  // The hook's state and one fetch
  // ---------------------------------------------------------------------

  datatype HookState = HookState(caseStudies: seq<CaseStudy>, loading: bool, error: Option<string>)

  /** The hook's state before any fetch: no rows, loading, no error. */
  const InitialHookState := HookState([], true, None)

  /** The state one fetch leaves behind, given the store's answer. */
  function Settle(st: HookState, f: FilterState, backend: Backend): HookState
  {
    match backend
    case Available(table) => st.(caseStudies := Result(table, f), loading := false)
    case NullData => st.(caseStudies := [], loading := false)
    case Unavailable(message) => st.(loading := false, error := Some(message))
  }

  /**
   * One fetch, as one atomic step: build the chain, let the store answer it,
   * record the rows or the error, stop loading. A successful answer does not
   * reset an error recorded by an earlier failed fetch.
   */
  method FetchCaseStudies(st: HookState, f: FilterState, backend: Backend) returns (next: HookState)
    ensures next == Settle(st, f, backend)
    ensures !next.loading
    ensures backend.Available? ==> next.caseStudies == Result(backend.table, f) && next.error == st.error
    ensures backend.NullData? ==> next.caseStudies == [] && next.error == st.error
    ensures backend.Unavailable? ==> next.caseStudies == st.caseStudies && next.error == Some(backend.message)
  {
    next := st.(loading := true);
    var q := BuildQuery(f);
    match backend {
      case Available(table) =>
        next := next.(caseStudies := Execute(table, q));
      case NullData =>
        next := next.(caseStudies := []);
      case Unavailable(message) =>
        next := next.(error := Some(message));
    }
    next := next.(loading := false);
  }

  /** The first fetch: the listing, or no rows and the store's message. */
  lemma FirstFetch(f: FilterState, backend: Backend)
    ensures !Settle(InitialHookState, f, backend).loading
    ensures backend.Available? ==> Settle(InitialHookState, f, backend) == HookState(Result(backend.table, f), false, None)
    ensures !backend.Available? ==> Settle(InitialHookState, f, backend).caseStudies == []
    ensures Settle(InitialHookState, f, backend).error.Some? <==> backend.Unavailable?
  {
  }

  /** After a failed fetch, a later successful one lists the rows but still reports the old error. */
  lemma ErrorOutlivesRecovery(f: FilterState, message: string, table: seq<CaseStudy>)
    ensures Settle(Settle(InitialHookState, f, Unavailable(message)), f, Available(table))
      == HookState(Result(table, f), false, Some(message))
  {
  }
}
