/** The `filter` query of the list request (todo-api/src/dto/todo-filter.dto.ts). */
module FilterDto {

  import opened Wrappers
  import opened Json

  /** A validated filter is one of exactly three values. */
  datatype Filter = All | Active | Completed

  function FilterName(f: Filter): string {
    match f
    case All => "all"
    case Active => "active"
    case Completed => "completed"
  }

  /** The properties of a list query that fail validation. */
  function FilterErrors(query: Body): (r: set<string>)
    ensures r <= query.Keys
    ensures r == {} <==>
      (forall k :: k in query ==> k == "filter")
      && ("filter" in query ==> query["filter"].Str? && query["filter"].s in {"all", "active", "completed"})
  {
    Extraneous(query, {"filter"})
    + (if "filter" in query
          && !(query["filter"].Str? && query["filter"].s in {"all", "active", "completed"})
       then {"filter"} else {})
  }

  /**
    Validates a list query and applies the default: the query is accepted exactly when it has
    no property but `filter` and `filter`, when present, is one of the three names; an absent
    filter becomes `All`.
   */
  function ParseFilter(query: Body): (r: Result<Filter, ValidationError>)
    ensures r.Success? <==> FilterErrors(query) == {}
    ensures r.Failure? ==> r.error.fields != {} && r.error.fields <= query.Keys
    ensures r.Success? && "filter" !in query ==> r.value == All
    ensures r.Success? && "filter" in query ==> query["filter"] == Str(FilterName(r.value))
  {
    var errors := FilterErrors(query);
    if errors != {} then Failure(Invalid(errors))
    else if "filter" !in query then Success(All)
    else
      var s := query["filter"].s;
      Success(if s == "active" then Active else if s == "completed" then Completed else All)
  }

  /** A query naming a filter reads back as that filter, and the empty query reads as `All`. */
  lemma FilterRoundTrip(f: Filter)
    ensures ParseFilter(map["filter" := Str(FilterName(f))]) == Success(f)
    ensures ParseFilter(map[]) == Success(All)
  {
    var q := map["filter" := Str(FilterName(f))];
    assert Extraneous(q, {"filter"}) == {};
    assert Extraneous(map[], {"filter"}) == {};
  }
}
