/** The visibility-filter slice: a single enum value, replaced on FILTER_SET. */
module FilterReducer {
  import opened Types

  /** The slice's value before any action has been reduced. */
  const InitialFilter: Filter := ShowAll

  /** FILTER_SET: the new filter wins whatever the current one is. */
  function ApplySetFilter(current: Filter, filter: Filter): (r: Filter)
    ensures r == filter
  {
    filter
  }

  /** The filter slice reducer: FILTER_SET replaces the value, every other action keeps it. */
  function Reduce(f: Filter, a: Action): (r: Filter)
    ensures a.FilterSet? ==> r == a.filter
    ensures !a.FilterSet? ==> r == f
  {
    match a
    case FilterSet(filter) => ApplySetFilter(f, filter)
    case _ => f
  }

  /** Setting the same filter twice is the same as setting it once. */
  lemma SetFilterIdempotent(f: Filter, g: Filter)
    ensures Reduce(Reduce(f, FilterSet(g)), FilterSet(g)) == Reduce(f, FilterSet(g))
  {
  }

  /** The outcome of FILTER_SET does not depend on the filter it replaces. */
  lemma SetFilterForgetsPrevious(f: Filter, f': Filter, g: Filter)
    ensures Reduce(f, FilterSet(g)) == Reduce(f', FilterSet(g)) == g
  {
  }
}
