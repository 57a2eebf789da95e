/** The list of filter entries the filter panel offers (FiltersElement.tsx, `displayedFilters`):
    the available keys, without the direct filters unless asked for, each date key split into a
    start (`gt`) and an end (`lt`) entry. */
module FiltersElement {
  import opened Js
  import opened FiltersUtils

  /** One offered entry: a key and, for date keys, the comparison operator. */
  datatype Entry = Entry(key: string, operator: Option<string>)

  /** The filter step: a key stays unless it is a direct filter and direct filters are not wanted. */
  predicate Kept(key: string, noDirectFilters: bool)
  {
    noDirectFilters || key !in DIRECT_FILTERS
  }

  /** The entries of one key after the filter and map steps. */
  function Block(key: string, noDirectFilters: bool): (r: seq<Entry>)
    ensures Kept(key, noDirectFilters) && key in DATE_FILTERS ==> r == [Entry(key, Some("gt")), Entry(key, Some("lt"))]
    ensures Kept(key, noDirectFilters) && key !in DATE_FILTERS ==> r == [Entry(key, None)]
    ensures !Kept(key, noDirectFilters) ==> r == []
  {
    if !Kept(key, noDirectFilters) then []
    else if key in DATE_FILTERS then [Entry(key, Some("gt")), Entry(key, Some("lt"))]
    else [Entry(key, None)]
  }

  /** `availableFilterKeys.filter(...).map(...).flat()` */
  function DisplayedFilters(keys: seq<string>, noDirectFilters: bool): seq<Entry>
  {
    if keys == [] then []
    else Block(keys[0], noDirectFilters) + DisplayedFilters(keys[1..], noDirectFilters)
  }

  /** How many entries the kept keys give: one per non-date key, two per date key. */
  function EntryCount(keys: seq<string>, noDirectFilters: bool): nat
  {
    if keys == [] then 0
    else (if !Kept(keys[0], noDirectFilters) then 0 else if keys[0] in DATE_FILTERS then 2 else 1)
         + EntryCount(keys[1..], noDirectFilters)
  }

  lemma {:induction false} DisplayedFiltersAppend(a: seq<string>, b: seq<string>, noDirectFilters: bool)
    ensures DisplayedFilters(a + b, noDirectFilters) == DisplayedFilters(a, noDirectFilters) + DisplayedFilters(b, noDirectFilters)
  {
    if a == [] {
      assert a + b == b;
    } else {
      assert (a + b)[0] == a[0] && (a + b)[1..] == a[1..] + b;
      DisplayedFiltersAppend(a[1..], b, noDirectFilters);
    }
  }

  /** The entries of each key sit together, between those of the keys before and after it: a kept
      date key gives its `gt` entry immediately followed by its `lt` entry, any other kept key one
      entry without operator, and a dropped key nothing. */
  lemma DisplayedFiltersSplit(before: seq<string>, key: string, after: seq<string>, noDirectFilters: bool)
    ensures DisplayedFilters(before + [key] + after, noDirectFilters)
            == DisplayedFilters(before, noDirectFilters) + Block(key, noDirectFilters) + DisplayedFilters(after, noDirectFilters)
  {
    DisplayedFiltersAppend(before + [key], after, noDirectFilters);
    DisplayedFiltersAppend(before, [key], noDirectFilters);
    assert DisplayedFilters([key], noDirectFilters) == Block(key, noDirectFilters) + [];
  }

  /** Output length is the number of kept non-date keys plus twice the number of kept date keys. */
  lemma {:induction false} DisplayedFiltersLength(keys: seq<string>, noDirectFilters: bool)
    ensures |DisplayedFilters(keys, noDirectFilters)| == EntryCount(keys, noDirectFilters)
  {
    if keys != [] {
      DisplayedFiltersLength(keys[1..], noDirectFilters);
    }
  }

  /** Every entry comes from a kept key of the input, and a date key's entries carry `gt` or `lt`
      while every other entry carries no operator. */
  lemma {:induction false} DisplayedFiltersEntries(keys: seq<string>, noDirectFilters: bool, e: Entry)
    requires e in DisplayedFilters(keys, noDirectFilters)
    ensures e.key in keys && Kept(e.key, noDirectFilters)
    ensures e.key in DATE_FILTERS ==> e.operator == Some("gt") || e.operator == Some("lt")
    ensures e.key !in DATE_FILTERS ==> e.operator == None
  {
    if e !in Block(keys[0], noDirectFilters) {
      DisplayedFiltersEntries(keys[1..], noDirectFilters, e);
    }
  }

  /** A key of the input is offered exactly when it is kept; in particular a direct filter is
      offered exactly when direct filters are asked for. */
  lemma DisplayedFiltersKeys(keys: seq<string>, noDirectFilters: bool, key: string)
    requires key in keys
    ensures (exists e :: e in DisplayedFilters(keys, noDirectFilters) && e.key == key) <==> Kept(key, noDirectFilters)
    ensures key in DIRECT_FILTERS ==>
              ((exists e :: e in DisplayedFilters(keys, noDirectFilters) && e.key == key) <==> noDirectFilters)
  {
    var i :| 0 <= i < |keys| && keys[i] == key;
    assert keys == keys[..i] + [key] + keys[i + 1..];
    DisplayedFiltersSplit(keys[..i], key, keys[i + 1..], noDirectFilters);
    if Kept(key, noDirectFilters) {
      var e := Block(key, noDirectFilters)[0];
      assert e in DisplayedFilters(keys, noDirectFilters);
    }
    if exists e :: e in DisplayedFilters(keys, noDirectFilters) && e.key == key {
      var e :| e in DisplayedFilters(keys, noDirectFilters) && e.key == key;
      DisplayedFiltersEntries(keys, noDirectFilters, e);
    }
  }
}
