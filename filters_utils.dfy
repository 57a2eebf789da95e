/** The pure helpers of the front end's filter utilities (filtersUtils.tsx): which keys take a
    single value, finding a filter by key and operator, adding an `entity_type` filter to a group,
    the emptiness test of a group, and how a filter value is turned into a label. Translation
    (`t`) and date formatting (`nsdt`) stay symbolic: a label records which of them is applied to what. */
module FiltersUtils {
  import opened Js

  datatype Filter = Filter(key: string, values: seq<string>, operator: string, mode: string)

  datatype FilterGroup = FilterGroup(mode: string, filters: seq<Filter>, filterGroups: seq<FilterGroup>)

  const DIRECT_FILTERS: seq<string> := [
    "is_read", "channel_types", "pattern_type", "sightedBy", "container_type", "toSightingId",
    "x_opencti_negative", "fromId", "toId", "elementId", "note_types", "context", "trigger_type",
    "instance_trigger", "containers"]

  /** Keys whose values are dates; they take a `gt` (start) or `lt` (end) operator. */
  const DATE_FILTERS: seq<string> := [
    "published", "created", "created_at", "modified", "valid_from", "start_time", "stop_time"]

  /** Keys that hold a single value; the list names `x_opencti_base_score_lte` twice. */
  const UNIQ_FILTERS: seq<string> := [
    "revoked", "x_opencti_detection", "x_opencti_base_score_gt", "x_opencti_base_score_lte",
    "x_opencti_base_score_lte", "confidence_gt", "confidence_lte", "likelihood_gt", "likelihood_lte",
    "x_opencti_negative", "x_opencti_score_gt", "x_opencti_score_lte", "toSightingId", "basedOn"]

  const VOCABULARY_FILTERS_WITH_TRANSLATION: seq<string> := [
    "x_opencti_detection", "revoked", "is_read", "x_opencti_reliability", "source_reliability",
    "indicator_types", "incident_type", "report_types", "channel_types", "event_types", "context",
    "note_types"]

  const ENTITY_TYPES_FILTERS: seq<string> := [
    "entity_type", "entity_types", "fromTypes", "toTypes", "relationship_types", "container_type"]

  /** The single-valued keys as a set, written out independently of the two lists above. */
  const SINGLE_VALUED_KEYS: set<string> := {
    "revoked", "x_opencti_detection", "x_opencti_base_score_gt", "x_opencti_base_score_lte",
    "confidence_gt", "confidence_lte", "likelihood_gt", "likelihood_lte", "x_opencti_negative",
    "x_opencti_score_gt", "x_opencti_score_lte", "toSightingId", "basedOn",
    "published", "created", "created_at", "modified", "valid_from", "start_time", "stop_time"}

  /** `isUniqFilter`: the key is in the single-valued list or the date list; together they name
      exactly the twenty single-valued keys, the duplicate changing nothing. */
  function IsUniqFilter(key: string): (r: bool)
    ensures r <==> key in SINGLE_VALUED_KEYS
  {
    key in UNIQ_FILTERS || key in DATE_FILTERS
  }

  // ---------------------------------------------------------------------------
  // Finding a filter by key

  /** Whether `filter` is what a search for `key` and the optional `operator` looks for:
      the key must be equal, and the operator too unless it is absent or empty. */
  predicate Matches(filter: Filter, key: string, operator: Option<string>)
  {
    filter.key == key && (Present(operator) ==> filter.operator == operator.value)
  }

  /** The position of the first matching filter. */
  function FirstMatch(filters: seq<Filter>, key: string, operator: Option<string>): (r: Option<nat>)
    ensures r.None? <==> forall i :: 0 <= i < |filters| ==> !Matches(filters[i], key, operator)
    ensures r.Some? ==> r.value < |filters| && Matches(filters[r.value], key, operator)
    ensures r.Some? ==> forall i :: 0 <= i < r.value ==> !Matches(filters[i], key, operator)
  {
    if filters == [] then None
    else if Matches(filters[0], key, operator) then Some(0)
    else match FirstMatch(filters[1..], key, operator)
      case None => None
      case Some(i) => Some(i + 1)
  }

  /** `findFilterIndexFromKey`: scans the filters in order and returns the first index that matches. */
  method FindFilterIndexFromKey(filters: seq<Filter>, key: string, operator: Option<string>) returns (r: Option<nat>)
    ensures r == FirstMatch(filters, key, operator)
    ensures r.Some? ==> r.value < |filters| && filters[r.value].key == key
  {
    var i := 0;
    while i < |filters|
      invariant 0 <= i <= |filters|
      invariant forall j :: 0 <= j < i ==> !Matches(filters[j], key, operator)
    {
      var filter := filters[i];
      if filter.key == key {
        if Present(operator) && filter.operator == operator.value {
          return Some(i);
        }
        if !Present(operator) {
          return Some(i);
        }
      }
      i := i + 1;
    }
    return None;
  }

  /** `findFilterFromKey`: the same scan, returning the filter itself. */
  method FindFilterFromKey(filters: seq<Filter>, key: string, operator: Option<string>) returns (r: Option<Filter>)
    ensures r.None? <==> FirstMatch(filters, key, operator).None?
    ensures r.Some? ==> r.value == filters[FirstMatch(filters, key, operator).value]
  {
    var i := 0;
    while i < |filters|
      invariant 0 <= i <= |filters|
      invariant forall j :: 0 <= j < i ==> !Matches(filters[j], key, operator)
    {
      var filter := filters[i];
      if filter.key == key {
        if Present(operator) && filter.operator == operator.value {
          return Some(filter);
        }
        if !Present(operator) {
          return Some(filter);
        }
      }
      i := i + 1;
    }
    return None;
  }

  /** An absent or empty operator finds the first filter with the key, whatever its operator. */
  lemma {:induction false} AbsentOperatorMatchesAny(filters: seq<Filter>, key: string, operator: Option<string>)
    requires !Present(operator)
    ensures FirstMatch(filters, key, operator) == FirstMatch(filters, key, None)
    ensures FirstMatch(filters, key, operator).None? <==> forall i :: 0 <= i < |filters| ==> filters[i].key != key
  {
    if filters != [] {
      AbsentOperatorMatchesAny(filters[1..], key, operator);
    }
  }

  /** A given operator only narrows the search: what it finds lies at or after the key-only match. */
  lemma OperatorNarrowsSearch(filters: seq<Filter>, key: string, operator: Option<string>)
    ensures FirstMatch(filters, key, operator).Some? ==>
              FirstMatch(filters, key, None).Some? &&
              FirstMatch(filters, key, None).value <= FirstMatch(filters, key, operator).value
  {
  }

  // ---------------------------------------------------------------------------
  // Adding an entity type filter to a group

  /** The `type` argument: one type name or an array of them. */
  datatype TypeArg = OneType(name: string) | TypeList(names: seq<string>)

  function TypeValues(t: TypeArg): seq<string>
  {
    match t
    case OneType(name) => [name]
    case TypeList(names) => names
  }

  /** `filtersWithEntityType`: an undefined group stays undefined; otherwise the group gets one
      more filter, on `entity_type` with operator `eq` and mode `or`, holding the given types. */
  function FiltersWithEntityType(filters: Option<FilterGroup>, t: TypeArg): (r: Option<FilterGroup>)
    ensures r.None? <==> filters.None?
    ensures r.Some? ==> r.value.mode == filters.value.mode && r.value.filterGroups == filters.value.filterGroups
    ensures r.Some? ==> |r.value.filters| == |filters.value.filters| + 1
                        && r.value.filters[..|filters.value.filters|] == filters.value.filters
    ensures r.Some? ==> var added := r.value.filters[|filters.value.filters|];
                        added.key == "entity_type" && added.operator == "eq" && added.mode == "or"
                        && (t.OneType? ==> added.values == [t.name])
                        && (t.TypeList? ==> added.values == t.names)
  {
    match filters
    case None => None
    case Some(group) =>
      Some(FilterGroup(group.mode, group.filters + [Filter("entity_type", TypeValues(t), "eq", "or")], group.filterGroups))
  }

  /** `isFilterGroupNotEmpty` */
  predicate IsFilterGroupNotEmpty(group: FilterGroup)
  {
    |group.filters| > 0 || |group.filterGroups| > 0
  }

  /** A group is empty only when it has neither filters nor nested groups. */
  lemma EmptyGroupHasNothing(group: FilterGroup)
    ensures !IsFilterGroupNotEmpty(group) <==> group.filters == [] && group.filterGroups == []
  {
  }

  /** A group that went through `filtersWithEntityType` is never empty, and searching it for an
      `entity_type` filter with operator `eq` finds one: the added one or an earlier one. */
  lemma EntityTypeGroupNotEmpty(filters: Option<FilterGroup>, t: TypeArg)
    requires filters.Some?
    ensures IsFilterGroupNotEmpty(FiltersWithEntityType(filters, t).value)
    ensures FirstMatch(FiltersWithEntityType(filters, t).value.filters, "entity_type", Some("eq")).Some?
  {
    var fs := FiltersWithEntityType(filters, t).value.filters;
    assert Matches(fs[|fs| - 1], "entity_type", Some("eq"));
  }

  // ---------------------------------------------------------------------------
  // The label of a filter value

  /** What `filterValue` returns: a value shown as is, the translation of a value, or a formatted date. */
  datatype Label = Shown(v: JsString) | Translated(arg: JsString) | DateFormatted(arg: JsString)

  /** `id.toString()[0] === id.toString()[0].toUpperCase()` */
  predicate StartsUpperCase(id: string)
    requires |id| > 0
  {
    id[0] == UpperCase(id[0])
  }

  /** `filterValue(filterKey, id, value)`. */
  function FilterValue(filterKey: string, id: JsString, value: JsString): (r: Label)
    ensures Truthy(value) || value.Null? ==> r == Shown(value)
    ensures r.DateFormatted? ==> filterKey in DATE_FILTERS && r.arg == id
  {
    if Truthy(value) || value.Null? then Shown(value)
    else if filterKey in VOCABULARY_FILTERS_WITH_TRANSLATION then Translated(id)
    else if filterKey == "basedOn" then Translated(Str(if id == Str("EXISTS") then "Yes" else "No"))
    else if filterKey == "x_opencti_negative" then Translated(Str(if Truthy(id) then "False positive" else "Malicious"))
    else if Truthy(id) && filterKey in ENTITY_TYPES_FILTERS then
      if id.s == "all" then Translated(Str("entity_All"))
      else Translated(Str(if StartsUpperCase(id.s) then "entity_" + id.s else "relationship_" + id.s))
    else if filterKey in DATE_FILTERS then DateFormatted(id)
    else Shown(id)
  }

  /** A resolved value (a non-empty string) or a deleted entity (`null`) wins over every key. */
  lemma ResolvedValueWins(filterKey: string, otherKey: string, id: JsString, otherId: JsString, value: JsString)
    requires Truthy(value) || value.Null?
    ensures FilterValue(filterKey, id, value) == FilterValue(otherKey, otherId, value) == Shown(value)
  {
  }

  /** Without a resolved value, `basedOn` reads Yes exactly for the id `EXISTS`, and No otherwise. */
  lemma BasedOnLabel(id: JsString, value: JsString)
    requires !Truthy(value) && !value.Null?
    ensures FilterValue("basedOn", id, value) == Translated(Str("Yes")) <==> id == Str("EXISTS")
    ensures FilterValue("basedOn", id, value) == Translated(Str("Yes"))
            || FilterValue("basedOn", id, value) == Translated(Str("No"))
  {
  }

  /** Without a resolved value, a key that no list names is shown as its id. */
  lemma UnlistedKeyShowsId(filterKey: string, id: JsString, value: JsString)
    requires !Truthy(value) && !value.Null?
    requires filterKey !in VOCABULARY_FILTERS_WITH_TRANSLATION && filterKey !in ENTITY_TYPES_FILTERS
    requires filterKey !in DATE_FILTERS && filterKey != "basedOn" && filterKey != "x_opencti_negative"
    ensures FilterValue(filterKey, id, value) == Shown(id)
  {
  }

  /** Without a resolved value, a date key is formatted as a date, and a vocabulary key translated. */
  lemma DateAndVocabularyLabels(filterKey: string, id: JsString, value: JsString)
    requires !Truthy(value) && !value.Null?
    ensures filterKey in DATE_FILTERS ==> FilterValue(filterKey, id, value) == DateFormatted(id)
    ensures filterKey in VOCABULARY_FILTERS_WITH_TRANSLATION ==> FilterValue(filterKey, id, value) == Translated(id)
  {
  }

  /** Without a resolved value, an entity-type key with a non-empty id: `all` reads entity_All, an id
      that starts with a character equal to its own upper case reads entity_<id>, any other relationship_<id>. */
  lemma EntityTypeLabel(filterKey: string, id: string, value: JsString)
    requires !Truthy(value) && !value.Null?
    requires filterKey in ENTITY_TYPES_FILTERS && id != ""
    ensures id == "all" ==> FilterValue(filterKey, Str(id), value) == Translated(Str("entity_All"))
    ensures id != "all" && !('a' <= id[0] <= 'z') ==>
              FilterValue(filterKey, Str(id), value) == Translated(Str("entity_" + id))
    ensures id != "all" && 'a' <= id[0] <= 'z' ==>
              FilterValue(filterKey, Str(id), value) == Translated(Str("relationship_" + id))
  {
    assert filterKey !in VOCABULARY_FILTERS_WITH_TRANSLATION;
    assert filterKey != "basedOn" && filterKey != "x_opencti_negative";
  }

  /** An entity-type key with an absent or empty id is not translated: it falls through to the id itself. */
  lemma EntityTypeWithoutId(filterKey: string, id: JsString, value: JsString)
    requires !Truthy(value) && !value.Null?
    requires filterKey in ENTITY_TYPES_FILTERS && !Truthy(id)
    ensures FilterValue(filterKey, id, value) == Shown(id)
  {
    assert filterKey !in VOCABULARY_FILTERS_WITH_TRANSLATION;
    assert filterKey != "basedOn" && filterKey != "x_opencti_negative";
    assert filterKey !in DATE_FILTERS;
  }
}
