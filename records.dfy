/**
 * The shapes shared by the whole front end: a row of the `case_studies`
 * collection, the filter state held by the home page, and the answer the
 * hosted datastore gives to a read.
 */
module Records {

  datatype Option<+T> = None | Some(value: T)

  /** JavaScript truthiness of a nullable string column: null and "" are falsy. */
  predicate Truthy(s: Option<string>)
  {
    s.Some? && s.value != ""
  }

  /**
   * One row of `case_studies`. The nullable text columns are `Option`s; the
   * creation timestamp is an integer standing for the ISO instant (its order
   * is what `order('created_at')` uses); `mrr` is in thousands.
   */
  datatype CaseStudy = CaseStudy(
    id: int,
    heading: string,
    clientName: string,
    accountOwner: string,
    mrr: Option<int>,
    industry: Option<string>,
    subIndustry: Option<string>,
    city: Option<string>,
    useCase: Option<string>,
    accountSegment: Option<string>,
    availability: Option<string>,
    awsServices: Option<seq<string>>,
    content: string,
    createdAt: int)

  /** The six categorical columns that are filtered with `in` and offered as facets. */
  datatype Column = City | Industry | SubIndustry | UseCase | AccountSegment | Availability

  /** The value of a categorical column of a row. */
  function Field(r: CaseStudy, col: Column): Option<string>
  {
    match col
    case City => r.city
    case Industry => r.industry
    case SubIndustry => r.subIndustry
    case UseCase => r.useCase
    case AccountSegment => r.accountSegment
    case Availability => r.availability
  }

  /** The slider's `[lo, hi]` pair; 0 and 1000 are its ends. */
  datatype MrrRange = MrrRange(lo: int, hi: int)

  const MrrMin := 0
  const MrrMax := 1000

  /** The home page's filter state. */
  datatype FilterState = FilterState(
    search: string,
    city: seq<string>,
    industry: seq<string>,
    subIndustry: seq<string>,
    awsServices: seq<string>,
    mrrRange: MrrRange,
    useCase: seq<string>,
    accountSegment: seq<string>,
    availability: seq<string>)

  /** The selection held for a categorical column. */
  function Selection(f: FilterState, col: Column): seq<string>
  {
    match col
    case City => f.city
    case Industry => f.industry
    case SubIndustry => f.subIndustry
    case UseCase => f.useCase
    case AccountSegment => f.accountSegment
    case Availability => f.availability
  }

  /** `{ ...f, [col]: sel }`: the filter state with one selection replaced. */
  function WithSelection(f: FilterState, col: Column, sel: seq<string>): (g: FilterState)
    ensures Selection(g, col) == sel
    ensures forall other: Column :: other != col ==> Selection(g, other) == Selection(f, other)
    ensures g.search == f.search && g.awsServices == f.awsServices && g.mrrRange == f.mrrRange
  {
    match col
    case City => f.(city := sel)
    case Industry => f.(industry := sel)
    case SubIndustry => f.(subIndustry := sel)
    case UseCase => f.(useCase := sel)
    case AccountSegment => f.(accountSegment := sel)
    case Availability => f.(availability := sel)
  }

  /** The filter state the home page starts with. */
  const InitialFilters := FilterState("", [], [], [], [], MrrRange(MrrMin, MrrMax), [], [], [])

  /**
   * What the hosted datastore answers to a read: the rows of the collection,
   * a successful answer with a null payload, or an error carrying a message.
   */
  datatype Backend = Available(table: seq<CaseStudy>) | NullData | Unavailable(message: string)
}
