/** The gallery's filter panel: the chosen product area, author and recency,
    and the list they leave. The recency cut-off date is worked out from the
    clock by calendar arithmetic; here it is a parameter. */
module UseFilter {
  import opened Results
  import opened Seqs
  import opened GalleryData

  datatype Recency = Week | Month | Quarter | Year

  /** The filter state; an absent key is `None`. */
  datatype Filters = Filters(productArea: Option<string>, author: Option<string>, recency: Option<Recency>)

  const NoFilters: Filters := Filters(None, None, None)

  /** One `updateFilter(key, value)` call. */
  datatype FilterUpdate =
    | SetProductArea(area: Option<string>)
    | SetAuthor(name: Option<string>)
    | SetRecency(period: Option<Recency>)

  /** What the active filters ask of one prototype: a set product area or
      author must be equal, and a set recency needs an update no earlier than
      the cut-off. Unset and empty filters ask nothing. */
  predicate Passes(filters: Filters, cutoff: int, p: Prototype) {
    && (Truthy(filters.productArea) ==> p.productArea == filters.productArea.value)
    && (Truthy(filters.author) ==> p.author.name == filters.author.value)
    && (filters.recency.Some? ==> p.lastUpdated >= cutoff)
  }

  /** One step of the chain: filter when the step is active, else pass the list on. */
  function Narrow(list: seq<Prototype>, active: bool, keep: Prototype -> bool): seq<Prototype> {
    if active then Filter(list, keep) else list
  }

  lemma NarrowIsFilter(list: seq<Prototype>, active: bool, keep: Prototype -> bool, test: Prototype -> bool)
    requires forall p :: test(p) == (!active || keep(p))
    ensures Narrow(list, active, keep) == Filter(list, test)
  {
    if active {
      FilterAgree(list, keep, test);
    } else {
      FilterKeepsAll(list, test);
    }
  }

  /** Three steps in a row are one filter by the conjunction of the tests. */
  lemma ThreeSteps(list: seq<Prototype>,
                   a1: bool, k1: Prototype -> bool, a2: bool, k2: Prototype -> bool, a3: bool, k3: Prototype -> bool,
                   all: Prototype -> bool)
    requires forall p :: all(p) == ((!a1 || k1(p)) && (!a2 || k2(p)) && (!a3 || k3(p)))
    ensures Narrow(Narrow(Narrow(list, a1, k1), a2, k2), a3, k3) == Filter(list, all)
  {
    var t1 := (p: Prototype) => !a1 || k1(p);
    var t2 := (p: Prototype) => !a2 || k2(p);
    var t3 := (p: Prototype) => !a3 || k3(p);
    var t12 := (p: Prototype) => t1(p) && t2(p);
    NarrowIsFilter(list, a1, k1, t1);
    NarrowIsFilter(Filter(list, t1), a2, k2, t2);
    FilterFilter(list, t1, t2, t12);
    NarrowIsFilter(Filter(list, t12), a3, k3, t3);
    FilterFilter(list, t12, t3, all);
  }

  /** `filteredPrototypes`: the product-area, author and recency filters applied
      in turn, each only when set. */
  function FilteredPrototypes(prototypes: seq<Prototype>, filters: Filters, cutoff: int): (r: seq<Prototype>)
    ensures r == Filter(prototypes, (p: Prototype) => Passes(filters, cutoff, p))
    ensures IsSubsequence(r, prototypes)
    ensures forall p :: p in r <==> p in prototypes && Passes(filters, cutoff, p)
  {
    var inArea := (p: Prototype) => filters.productArea == Some(p.productArea);
    var byAuthor := (p: Prototype) => filters.author == Some(p.author.name);
    var recent := (p: Prototype) => p.lastUpdated >= cutoff;
    var all := (p: Prototype) => Passes(filters, cutoff, p);
    ThreeSteps(prototypes, Truthy(filters.productArea), inArea, Truthy(filters.author), byAuthor,
               filters.recency.Some?, recent, all);
    FilterIsSubsequence(prototypes, all);
    FilterMembers(prototypes, all);
    var r1 := Narrow(prototypes, Truthy(filters.productArea), inArea);
    var r2 := Narrow(r1, Truthy(filters.author), byAuthor);
    Narrow(r2, filters.recency.Some?, recent)
  }

  /** Without active filters, and with empty strings as filters, the list is
      shown unchanged. */
  lemma InactiveFiltersShowAll(prototypes: seq<Prototype>, cutoff: int)
    ensures FilteredPrototypes(prototypes, NoFilters, cutoff) == prototypes
    ensures FilteredPrototypes(prototypes, Filters(Some(""), Some(""), None), cutoff) == prototypes
  {
    FilterKeepsAll(prototypes, (p: Prototype) => Passes(NoFilters, cutoff, p));
    FilterKeepsAll(prototypes, (p: Prototype) => Passes(Filters(Some(""), Some(""), None), cutoff, p));
  }

  /** The product-area filter alone gives what the sample data's own lookup by
      product area gives. */
  lemma AreaFilterIsLookup(prototypes: seq<Prototype>, area: string, cutoff: int)
    requires area != ""
    ensures FilteredPrototypes(prototypes, Filters(Some(area), None, None), cutoff) == ByProductArea(prototypes, area)
  {
    FilterAgree(prototypes, (p: Prototype) => Passes(Filters(Some(area), None, None), cutoff, p),
                (p: Prototype) => p.productArea == area);
  }

  /** `updateFilter`: the one key replaced, the others kept. */
  function UpdateFilter(filters: Filters, update: FilterUpdate): (r: Filters)
    ensures update.SetProductArea? ==> r.productArea == update.area && r.author == filters.author && r.recency == filters.recency
    ensures update.SetAuthor? ==> r.author == update.name && r.productArea == filters.productArea && r.recency == filters.recency
    ensures update.SetRecency? ==> r.recency == update.period && r.productArea == filters.productArea && r.author == filters.author
  {
    match update
    case SetProductArea(area) => filters.(productArea := area)
    case SetAuthor(name) => filters.(author := name)
    case SetRecency(period) => filters.(recency := period)
  }

  /** Which key an update writes. */
  function Key(update: FilterUpdate): nat {
    match update
    case SetProductArea(_) => 0
    case SetAuthor(_) => 1
    case SetRecency(_) => 2
  }

  /** The same update twice is the update once, and updates of different keys
      commute. */
  lemma UpdatesCompose(filters: Filters, u: FilterUpdate, v: FilterUpdate)
    ensures UpdateFilter(UpdateFilter(filters, u), u) == UpdateFilter(filters, u)
    ensures Key(u) != Key(v) ==>
      UpdateFilter(UpdateFilter(filters, u), v) == UpdateFilter(UpdateFilter(filters, v), u)
  {
  }

  /** `clearFilters`: back to no filters, whatever was set. */
  function ClearFilters(): (r: Filters)
    ensures r.productArea.None? && r.author.None? && r.recency.None?
  {
    NoFilters
  }
}
