/**
 * The filter panel: the checkbox lists for the six categorical facets, the
 * updaters their checkboxes apply to the home page's filter state, the mrr
 * slider and the "Clear All" button.
 */
module FilterPanel {
  import opened Records
  import opened FacetOptions
  import opened CaseStudyQuery

  // ---------------------------------------------------------------------
  // Which options a facet offers
  // ---------------------------------------------------------------------

  const Migration := "Migration"
  const NewProductDevelopment := "New Product Development"
  const Sap := "SAP"
  const AiMl := "AI-ML"
  const GenAi := "GenAI"
  const VMware := "VMware"
  const Scale := "Scale"
  const Focus := "Focus"
  const Deep := "Deep"
  const Startups := "Startups"
  const Public := "Public"
  const NonReferenceable := "Non-Referenceable"

  /** The static lists the three newer facets fall back on. */
  const DefaultUseCases := [Migration, NewProductDevelopment, Sap, AiMl, GenAi, VMware]
  const DefaultAccountSegments := [Scale, Focus, Deep, Startups]
  const DefaultAvailability := [Public, NonReferenceable]

  /** Use case, account segment and availability have a static fallback; the other three do not. */
  predicate HasFallback(col: Column)
  {
    col == UseCase || col == AccountSegment || col == Availability
  }

  /** The fallback list of a facet; empty for a facet without one. */
  function Defaults(col: Column): seq<string>
  {
    match col
    case UseCase => DefaultUseCases
    case AccountSegment => DefaultAccountSegments
    case Availability => DefaultAvailability
    case _ => []
  }

  /** The checkbox labels a facet shows, in order. */
  function ShownOptions(o: FilterOptions, col: Column): (shown: seq<string>)
    ensures HasFallback(col) ==> |shown| > 0
    ensures forall v | v in shown :: v in OptionsOf(o, col) || v in Defaults(col)
  {
    if HasFallback(col) && |OptionsOf(o, col)| == 0 then Defaults(col) else OptionsOf(o, col)
  }

  /**
   * A derived list is shown whenever it is non-empty; an empty one is
   * replaced by the static list for the three facets that have one, and
   * leaves the other three without any checkbox.
   */
  lemma ShownOptionsSpec(o: FilterOptions, col: Column)
    ensures |OptionsOf(o, col)| > 0 ==> ShownOptions(o, col) == OptionsOf(o, col)
    ensures !HasFallback(col) ==> ShownOptions(o, col) == OptionsOf(o, col)
    ensures HasFallback(col) && |OptionsOf(o, col)| == 0 ==> ShownOptions(o, col) == Defaults(col)
    ensures |ShownOptions(o, col)| > 0 <==> HasFallback(col) || |OptionsOf(o, col)| > 0
  {
  }

  /** When the options cannot be read, only the three facets with a fallback offer anything. */
  lemma FailedFetchShowsDefaults(backend: Backend, col: Column)
    requires !backend.Available?
    ensures ShownOptions(FetchOptions(backend), col) == Defaults(col)
    ensures |ShownOptions(FetchOptions(backend), col)| > 0 <==> HasFallback(col)
  {
    FailedFetchKeepsEmpty(backend, col);
  }

  /** A derived value that is also a default is offered once, not twice: the lists are not merged. */
  lemma DerivedReplacesDefaults(rows: seq<CaseStudy>)
    requires Occurs(rows, UseCase, Sap)
    ensures ShownOptions(DeriveOptions(rows), UseCase) == CategoryOptions(rows, UseCase)
    ensures Sap in ShownOptions(DeriveOptions(rows), UseCase)
  {
    CategoryOptionsSpec(rows, UseCase);
  }

  // ---------------------------------------------------------------------
  // Checkboxes
  // ---------------------------------------------------------------------

  /** `filters.<col>.includes(v)`: the checked state of a checkbox. */
  predicate IsChecked(f: FilterState, col: Column, v: string)
  {
    v in Selection(f, col)
  }

  /** `s.filter(x => x !== v)` */
  function RemoveAll(s: seq<string>, v: string): (r: seq<string>)
    ensures |r| <= |s|
  {
    if s == [] then [] else (if s[0] == v then [] else [s[0]]) + RemoveAll(s[1..], v)
  }

  /** Every occurrence of `v` goes; every other value keeps its number of occurrences. */
  lemma {:induction false} RemoveAllCounts(s: seq<string>, v: string)
    ensures multiset(RemoveAll(s, v)) == multiset(s)[v := 0]
  {
    if s != [] {
      RemoveAllCounts(s[1..], v);
      assert s == [s[0]] + s[1..];
    }
  }

  lemma {:induction false} RemoveAllAppend(s: seq<string>, t: seq<string>, v: string)
    ensures RemoveAll(s + t, v) == RemoveAll(s, v) + RemoveAll(t, v)
  {
    if s == [] {
      assert s + t == t;
    } else {
      assert (s + t)[0] == s[0] && (s + t)[1..] == s[1..] + t;
      RemoveAllAppend(s[1..], t, v);
      var h := if s[0] == v then [] else [s[0]];
      assert RemoveAll(s + t, v) == h + RemoveAll(s[1..] + t, v);
      assert RemoveAll(s, v) == h + RemoveAll(s[1..], v);
    }
  }

  /** Removing a value that is not there changes nothing. */
  lemma {:induction false} RemoveAllAbsent(s: seq<string>, v: string)
    requires v !in s
    ensures RemoveAll(s, v) == s
  {
    if s != [] {
      assert s[0] != v;
      RemoveAllAbsent(s[1..], v);
    }
  }

  /** The values left keep their relative order: each is taken from `s` at a later place than the one before. */
  lemma {:induction false} RemoveAllKeepsOrder(s: seq<string>, v: string) returns (idx: seq<nat>)
    ensures IsEmbedding(idx, RemoveAll(s, v), s)
  {
    if s == [] {
      idx := [];
    } else {
      var rest := RemoveAllKeepsOrder(s[1..], v);
      var shifted := ShiftEmbedding(rest, RemoveAll(s[1..], v), s);
      if s[0] == v {
        idx := shifted;
      } else {
        idx := [0] + shifted;
        ConsEmbedding(shifted, RemoveAll(s[1..], v), s);
      }
    }
  }

  /** An embedding into the tail of `s` is one into `s`, one place further on. */
  lemma ShiftEmbedding(idx: seq<nat>, r: seq<string>, s: seq<string>) returns (shifted: seq<nat>)
    requires s != [] && IsEmbedding(idx, r, s[1..])
    ensures IsEmbedding(shifted, r, s)
    ensures forall k | 0 <= k < |shifted| :: shifted[k] > 0
  {
    shifted := seq(|idx|, k requires 0 <= k < |idx| => idx[k] + 1);
    forall k | 0 <= k < |idx| ensures shifted[k] < |s| && s[shifted[k]] == r[k] {
      assert s[1..][idx[k]] == r[k];
    }
  }

  /** The head of `s` can lead an embedding that avoids place 0. */
  lemma ConsEmbedding(idx: seq<nat>, r: seq<string>, s: seq<string>)
    requires s != [] && IsEmbedding(idx, r, s)
    requires forall k | 0 <= k < |idx| :: idx[k] > 0
    ensures IsEmbedding([0] + idx, [s[0]] + r, s)
  {
  }

  /** `idx` lists strictly increasing places in `s` holding the elements of `r` in turn. */
  predicate IsEmbedding(idx: seq<nat>, r: seq<string>, s: seq<string>)
  {
    && |idx| == |r|
    && (forall k | 0 <= k < |idx| :: idx[k] < |s| && s[idx[k]] == r[k])
    && (forall k, l | 0 <= k < l < |idx| :: idx[k] < idx[l])
  }

  /** Checking a box: `{ ...prev, [col]: [...prev[col], v] }`. */
  function Check(f: FilterState, col: Column, v: string): (g: FilterState)
    ensures Selection(g, col) == Selection(f, col) + [v]
    ensures IsChecked(g, col, v)
    ensures forall other: Column :: other != col ==> Selection(g, other) == Selection(f, other)
    ensures g.search == f.search && g.awsServices == f.awsServices && g.mrrRange == f.mrrRange
  {
    WithSelection(f, col, Selection(f, col) + [v])
  }

  /** Unchecking a box: `{ ...prev, [col]: prev[col].filter(x => x !== v) }`. */
  function Uncheck(f: FilterState, col: Column, v: string): (g: FilterState)
    ensures !IsChecked(g, col, v)
    ensures multiset(Selection(g, col)) == multiset(Selection(f, col))[v := 0]
    ensures forall other: Column :: other != col ==> Selection(g, other) == Selection(f, other)
    ensures g.search == f.search && g.awsServices == f.awsServices && g.mrrRange == f.mrrRange
  {
    RemoveAllCounts(Selection(f, col), v);
    assert multiset(RemoveAll(Selection(f, col), v))[v] == 0;
    WithSelection(f, col, RemoveAll(Selection(f, col), v))
  }

  /** A checkbox's `onChange`, given the box's new checked state. */
  function Toggle(f: FilterState, col: Column, v: string, checked: bool): (g: FilterState)
    ensures IsChecked(g, col, v) <==> checked
  {
    if checked then Check(f, col, v) else Uncheck(f, col, v)
  }

  /** A record equal to `f` in every field is `f`. */
  lemma SameSelections(f: FilterState, g: FilterState)
    requires forall col: Column :: Selection(g, col) == Selection(f, col)
    requires g.search == f.search && g.awsServices == f.awsServices && g.mrrRange == f.mrrRange
    ensures g == f
  {
    assert Selection(g, City) == Selection(f, City) && Selection(g, Industry) == Selection(f, Industry);
    assert Selection(g, SubIndustry) == Selection(f, SubIndustry) && Selection(g, UseCase) == Selection(f, UseCase);
    assert Selection(g, AccountSegment) == Selection(f, AccountSegment);
    assert Selection(g, Availability) == Selection(f, Availability);
  }

  /** Checking an unchecked box and unchecking it again restores the filter state. */
  lemma UncheckUndoesCheck(f: FilterState, col: Column, v: string)
    requires !IsChecked(f, col, v)
    ensures Uncheck(Check(f, col, v), col, v) == f
  {
    var s := Selection(f, col);
    RemoveAllAppend(s, [v], v);
    RemoveAllAbsent(s, v);
    assert RemoveAll([v], v) == [];
    SameSelections(f, Uncheck(Check(f, col, v), col, v));
  }

  /** Checking an already selected value twice and unchecking once leaves it unselected. */
  lemma UncheckRemovesDuplicates(f: FilterState, col: Column, v: string)
    ensures !IsChecked(Uncheck(Check(Check(f, col, v), col, v), col, v), col, v)
    ensures IsChecked(f, col, v) ==> Uncheck(Check(f, col, v), col, v) != f
  {
  }

  /** Unchecking keeps the other selected values in the order they were checked. */
  lemma UncheckKeepsOrder(f: FilterState, col: Column, v: string) returns (idx: seq<nat>)
    ensures IsEmbedding(idx, Selection(Uncheck(f, col, v), col), Selection(f, col))
  {
    idx := RemoveAllKeepsOrder(Selection(f, col), v);
  }

  /** Checking the first box of a facet restricts the listing; any further box widens it again. */
  lemma CheckNarrowsOrWidens(rows: seq<CaseStudy>, f: FilterState, col: Column, v: string)
    ensures Selection(f, col) == [] ==> multiset(Result(rows, Check(f, col, v))) <= multiset(Result(rows, f))
    ensures Selection(f, col) != [] ==> multiset(Result(rows, f)) <= multiset(Result(rows, Check(f, col, v)))
  {
    var g := Check(f, col, v);
    if Selection(f, col) == [] {
      assert Narrower(f, g);
      NarrowerListsLess(rows, f, g);
    } else {
      assert Narrower(g, f);
      NarrowerListsLess(rows, g, f);
    }
  }

  // ---------------------------------------------------------------------
  // Slider and "Clear All"
  // ---------------------------------------------------------------------

  /** The slider's `onChange`: `{ ...prev, mrrRange: newValue }`. */
  function SetMrrRange(f: FilterState, r: MrrRange): (g: FilterState)
    ensures g.mrrRange == r
    ensures forall col: Column :: Selection(g, col) == Selection(f, col)
    ensures g.search == f.search && g.awsServices == f.awsServices
  {
    f.(mrrRange := r)
  }

  /** A pair the slider can produce: ordered, between its ends. */
  predicate InSliderBounds(r: MrrRange)
  {
    MrrMin <= r.lo <= r.hi <= MrrMax
  }

  /** `handleClearFilters`: every selection emptied, the slider reset, the search kept. */
  function ClearFilters(f: FilterState): (g: FilterState)
    ensures forall col: Column :: Selection(g, col) == []
    ensures g.awsServices == [] && g.mrrRange == MrrRange(MrrMin, MrrMax)
    ensures g.search == f.search
  {
    f.(city := [], industry := [], subIndustry := [], awsServices := [],
       mrrRange := MrrRange(MrrMin, MrrMax), useCase := [], accountSegment := [], availability := [])
  }

  /** Clearing gives the home page's initial state with the search text carried over. */
  lemma ClearFiltersSpec(f: FilterState)
    ensures ClearFilters(f) == InitialFilters.(search := f.search)
    ensures forall col: Column :: Selection(ClearFilters(f), col) == []
    ensures ClearFilters(f).awsServices == [] && ClearFilters(f).search == f.search
    ensures InSliderBounds(ClearFilters(f).mrrRange)
    ensures ClearFilters(ClearFilters(f)) == ClearFilters(f)
  {
  }

  /** After clearing, only the search text restricts the listing. */
  lemma ClearedListing(rows: seq<CaseStudy>, f: FilterState, r: CaseStudy)
    ensures r in Result(rows, ClearFilters(f)) <==> r in rows && SearchOk(f, r)
  {
    var g := ClearFilters(f);
    ResultMember(rows, g, r);
    SearchOnlyAdmits(g, r);
  }

  /** Clearing with an empty search box lists the whole collection. */
  lemma ClearedListsAll(rows: seq<CaseStudy>, f: FilterState)
    requires f.search == ""
    ensures multiset(Result(rows, ClearFilters(f))) == multiset(rows)
  {
    NeutralListsAll(rows, ClearFilters(f));
  }

  /** What the user can do on the panel: tick or untick a box, move the slider, press "Clear All". */
  datatype PanelAction = CheckBox(col: Column, v: string, checked: bool) | Slide(range: MrrRange) | ClearAll

  function Apply(f: FilterState, a: PanelAction): FilterState
  {
    match a
    case CheckBox(col, v, checked) => Toggle(f, col, v, checked)
    case Slide(range) => SetMrrRange(f, range)
    case ClearAll => ClearFilters(f)
  }

  /** The filter state after a series of panel actions, in order. */
  function Run(f: FilterState, actions: seq<PanelAction>): FilterState
    decreases |actions|
  {
    if actions == [] then f else Run(Apply(f, actions[0]), actions[1..])
  }

  /** The slider only ever produces ordered pairs between its ends. */
  predicate FromSlider(actions: seq<PanelAction>)
  {
    forall i | 0 <= i < |actions| :: actions[i].Slide? ==> InSliderBounds(actions[i].range)
  }

  /**
   * Whatever the user does on the panel, the mrr pair stays ordered and
   * between 0 and 1000, and the search text is never touched.
   */
  lemma {:induction false} PanelKeepsSliderBounds(f: FilterState, actions: seq<PanelAction>)
    requires InSliderBounds(f.mrrRange)
    requires FromSlider(actions)
    ensures InSliderBounds(Run(f, actions).mrrRange)
    ensures Run(f, actions).search == f.search
    decreases |actions|
  {
    if actions != [] {
      var g := Apply(f, actions[0]);
      assert InSliderBounds(g.mrrRange) && g.search == f.search by {
        match actions[0]
        case CheckBox(col, v, checked) =>
        case Slide(range) => assert actions[0].Slide?;
        case ClearAll => ClearFiltersSpec(f);
      }
      assert FromSlider(actions[1..]) by {
        forall i | 0 <= i < |actions[1..]| ensures actions[1..][i].Slide? ==> InSliderBounds(actions[1..][i].range) {
          assert actions[1..][i] == actions[i + 1];
        }
      }
      PanelKeepsSliderBounds(g, actions[1..]);
    }
  }
}
