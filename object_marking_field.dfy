/** The marking picker of the edition forms (ObjectMarkingField.tsx): the order in which the allowed
    marking definitions are offered, the detection of a change that puts two ranks of the same
    marking type side by side, and the confirmation dialog that holds such a change pending. */
module ObjectMarkingField {
  import opened Js

  /** A marking definition as the picker sees it: its id, its type (TLP, PAP, statement, ...) and its rank. */
  datatype Marking = Marking(id: string, definitionType: string, order: int)

  // ---------------------------------------------------------------------------
  // Ordering of the options

  /** The order the options should follow: by type, then by rank within a type. */
  predicate RankLe(a: Marking, b: Marking)
  {
    if a.definitionType == b.definitionType then a.order <= b.order else StrLess(a.definitionType, b.definitionType)
  }

  /** The comparator passed to `.sort`, as written: it answers -1 when `a` goes strictly first and 1
      otherwise, so two markings of the same type and rank (or a marking and itself) give 1 both ways. */
  function CompareAsWritten(a: Marking, b: Marking): (r: int)
    ensures r == -1 || r == 1
    ensures r == -1 <==> RankLe(a, b) && !RankLe(b, a)
  {
    if a.definitionType == b.definitionType then (if a.order < b.order then -1 else 1)
    else if StrLess(a.definitionType, b.definitionType) then StrLessAsymmetric(a.definitionType, b.definitionType); -1
    else StrLessTotal(a.definitionType, b.definitionType); 1
  }

  /** A consistent comparator must answer 0 for a marking and itself and opposite signs for a swapped
      pair; the written one answers 1 for a marking against itself and 1 both ways for two equal ranks. */
  lemma CompareAsWrittenIsInconsistent()
    ensures var m := Marking("tlp-green", "TLP", 2);
            var n := Marking("tlp-green-copy", "TLP", 2);
            CompareAsWritten(m, m) == 1 && CompareAsWritten(m, n) == 1 && CompareAsWritten(n, m) == 1
  {
  }

  /** The comparator with ties answering 0. */
  function Compare(a: Marking, b: Marking): (r: int)
    ensures -1 <= r <= 1
    ensures r <= 0 <==> RankLe(a, b)
    ensures r == 0 <==> a.definitionType == b.definitionType && a.order == b.order
  {
    if a.definitionType == b.definitionType then (if a.order < b.order then -1 else if a.order == b.order then 0 else 1)
    else (StrLessTotal(a.definitionType, b.definitionType);
          if StrLess(a.definitionType, b.definitionType) then -1 else 1)
  }

  /** The corrected comparator is consistent: zero on itself, antisymmetric and transitive. */
  lemma CompareIsConsistent(a: Marking, b: Marking, c: Marking)
    ensures Compare(a, a) == 0
    ensures Compare(a, b) == -Compare(b, a)
    ensures Compare(a, b) <= 0 && Compare(b, c) <= 0 ==> Compare(a, c) <= 0
  {
    if a.definitionType != b.definitionType {
      StrLessTotal(a.definitionType, b.definitionType);
    }
    if a.definitionType != b.definitionType && StrLess(a.definitionType, b.definitionType) {
      StrLessAsymmetric(a.definitionType, b.definitionType);
    }
    if a.definitionType != b.definitionType && StrLess(b.definitionType, a.definitionType) {
      StrLessAsymmetric(b.definitionType, a.definitionType);
    }
    if Compare(a, b) <= 0 && Compare(b, c) <= 0 {
      RankLeTransitive(a, b, c);
    }
  }

  lemma RankLeTransitive(a: Marking, b: Marking, c: Marking)
    requires RankLe(a, b) && RankLe(b, c)
    ensures RankLe(a, c)
  {
    if a.definitionType != b.definitionType && b.definitionType != c.definitionType {
      StrLessTransitive(a.definitionType, b.definitionType, c.definitionType);
      if a.definitionType == c.definitionType {
        StrLessAsymmetric(a.definitionType, b.definitionType);
      }
    }
  }

  predicate Sorted(s: seq<Marking>)
  {
    forall i, j :: 0 <= i < j < |s| ==> RankLe(s[i], s[j])
  }

  predicate AdjacentSorted(s: seq<Marking>)
  {
    forall k :: 0 < k < |s| ==> RankLe(s[k - 1], s[k])
  }

  lemma {:induction false} AdjacentToSorted(s: seq<Marking>)
    requires AdjacentSorted(s)
    ensures Sorted(s)
  {
    if |s| > 1 {
      AdjacentToSorted(s[..|s| - 1]);
      forall i | 0 <= i < |s| - 1
        ensures RankLe(s[i], s[|s| - 1])
      {
        if i < |s| - 2 {
          assert s[..|s| - 1][i] == s[i] && s[..|s| - 1][|s| - 2] == s[|s| - 2];
          RankLeTransitive(s[i], s[|s| - 2], s[|s| - 1]);
        }
      }
      assert forall i, j :: 0 <= i < j < |s| - 1 ==> s[..|s| - 1][i] == s[i] && s[..|s| - 1][j] == s[j];
    }
  }

  /** `allowedMarkingDefinitions.sort(...)`, with the corrected comparator: the options are reordered
      in place into type-then-rank order, as a permutation of what was there. */
  method SortOptions(a: array<Marking>)
    modifies a
    ensures Sorted(a[..])
    ensures multiset(a[..]) == multiset(old(a[..]))
  {
    var i := 0;
    while i < a.Length
      invariant 0 <= i <= a.Length
      invariant AdjacentSorted(a[..i])
      invariant multiset(a[..]) == multiset(old(a[..]))
    {
      SinkLast(a, i);
      i := i + 1;
    }
    assert a[..a.Length] == a[..];
    AdjacentToSorted(a[..]);
  }

  /** One insertion step: `a[i]` is swapped down past every option that should follow it. */
  method SinkLast(a: array<Marking>, i: nat)
    requires i < a.Length && AdjacentSorted(a[..i])
    modifies a
    ensures AdjacentSorted(a[..i + 1])
    ensures multiset(a[..]) == multiset(old(a[..]))
  {
    var j := i;
    while j > 0 && Compare(a[j - 1], a[j]) > 0
      invariant 0 <= j <= i < a.Length
      invariant SinkingAt(a[..], i, j)
      invariant multiset(a[..]) == multiset(old(a[..]))
    {
      ghost var before := a[..];
      a[j - 1], a[j] := a[j], a[j - 1];
      assert a[..] == Swapped(before, j);
      SinkStep(before, i, j);
      j := j - 1;
    }
    assert forall k :: 0 <= k < i + 1 ==> a[..i + 1][k] == a[k];
  }

  /** While `s[j]` sinks from position `i`: every adjacent pair up to `i` is in order except the one
      ending at `j`, and the neighbours of `j` are in order with each other. */
  predicate SinkingAt(s: seq<Marking>, i: nat, j: nat)
    requires j <= i < |s|
  {
    (forall k :: 0 < k <= i && k != j ==> RankLe(s[k - 1], s[k]))
    && (0 < j < i ==> RankLe(s[j - 1], s[j + 1]))
  }

  function Swapped(s: seq<Marking>, j: nat): (r: seq<Marking>)
    requires 0 < j < |s|
    ensures |r| == |s| && multiset(r) == multiset(s)
  {
    s[j - 1 := s[j]][j := s[j - 1]]
  }

  lemma SinkStep(s: seq<Marking>, i: nat, j: nat)
    requires 0 < j <= i < |s| && SinkingAt(s, i, j) && Compare(s[j - 1], s[j]) > 0
    ensures SinkingAt(Swapped(s, j), i, j - 1)
  {
    CompareIsConsistent(s[j - 1], s[j], s[j]);
  }

  // ---------------------------------------------------------------------------
  // Rank conflicts

  /** Some value of the change has the type of `m` and another rank. */
  predicate HasRival(values: seq<Marking>, m: Marking)
  {
    exists i :: 0 <= i < |values| && values[i].definitionType == m.definitionType && values[i].order != m.order
  }

  /** `candidates.filter(m => values.find(...))` */
  function Rivalled(values: seq<Marking>, candidates: seq<Marking>): seq<Marking>
  {
    if candidates == [] then []
    else (if HasRival(values, candidates[0]) then [candidates[0]] else []) + Rivalled(values, candidates[1..])
  }

  /** `valueAdded`: the values that share their type with a value of another rank. */
  function ValueAdded(values: seq<Marking>): seq<Marking>
  {
    Rivalled(values, values)
  }

  lemma {:induction false} RivalledMembership(values: seq<Marking>, candidates: seq<Marking>, m: Marking)
    ensures m in Rivalled(values, candidates) <==> m in candidates && HasRival(values, m)
  {
    if candidates != [] {
      RivalledMembership(values, candidates[1..], m);
      assert candidates == [candidates[0]] + candidates[1..];
    }
  }

  /** A value is in `valueAdded` exactly when another value has its type and a different rank. */
  lemma ValueAddedMembership(values: seq<Marking>, m: Marking)
    ensures m in ValueAdded(values) <==> m in values && HasRival(values, m)
  {
    RivalledMembership(values, values, m);
  }

  /** A conflict always involves two values, so `valueAdded` never holds exactly one. */
  lemma ValueAddedNeverSingle(values: seq<Marking>)
    ensures |ValueAdded(values)| != 1
  {
    if |ValueAdded(values)| == 1 {
      var m := ValueAdded(values)[0];
      ValueAddedMembership(values, m);
      var i :| 0 <= i < |values| && values[i].definitionType == m.definitionType && values[i].order != m.order;
      var rival := values[i];
      var j :| 0 <= j < |values| && values[j] == m;
      assert HasRival(values, rival) by {
        assert values[j].definitionType == rival.definitionType && values[j].order != rival.order;
      }
      ValueAddedMembership(values, rival);
      assert false;
    }
  }

  // ---------------------------------------------------------------------------
  // The pending change and its confirmation dialog

  /** A call the picker makes to its form: `onChange` or `setFieldValue`, with the field name and the
      values (absent when the pending cell was empty). */
  datatype Callback =
    | OnChange(field: string, values: Option<seq<Marking>>)
    | SetFieldValue(field: string, values: Option<seq<Marking>>)

  /** The `newMarking` state cell and the calls made so far; the dialog is open while a change is pending. */
  datatype FieldState = FieldState(pending: Option<seq<Marking>>, calls: seq<Callback>)

  /** `handleOnChange`: a change with a rank conflict is held for confirmation, any other goes to `onChange`. */
  function OnChangeStep(name: string, st: FieldState, values: seq<Marking>): FieldState
  {
    if |ValueAdded(values)| > 0 then st.(pending := Some(values))
    else st.(calls := st.calls + [OnChange(name, Some(values))])
  }

  /** `handleCancellation`: the last pending value is popped, the rest handed to `setFieldValue` when the
      form gave one, and the pending cell cleared. */
  function CancelStep(name: string, hasSetFieldValue: bool, st: FieldState): FieldState
  {
    var popped := if st.pending.Some? && |st.pending.value| > 0
                  then Some(st.pending.value[..|st.pending.value| - 1]) else st.pending;
    FieldState(None, st.calls + (if hasSetFieldValue then [SetFieldValue(name, popped)] else []))
  }

  /** `submitUpdate`: the pending values go to `onChange`, then the cell is cleared. */
  function SubmitStep(name: string, st: FieldState): FieldState
  {
    FieldState(None, st.calls + [OnChange(name, st.pending)])
  }

  /** `handleClose` */
  function CloseStep(st: FieldState): FieldState
  {
    st.(pending := None)
  }

  /** Without a conflict the change reaches `onChange` unchanged and nothing is held; with one, the change
      is held whole and `onChange` is not called. */
  lemma OnChangeRoutes(name: string, st: FieldState, values: seq<Marking>)
    ensures (forall i :: 0 <= i < |values| ==> !HasRival(values, values[i])) ==>
              OnChangeStep(name, st, values) == FieldState(st.pending, st.calls + [OnChange(name, Some(values))])
    ensures (exists i :: 0 <= i < |values| && HasRival(values, values[i])) ==>
              OnChangeStep(name, st, values) == FieldState(Some(values), st.calls)
  {
    if forall i :: 0 <= i < |values| ==> !HasRival(values, values[i]) {
      if |ValueAdded(values)| > 0 {
        ValueAddedMembership(values, ValueAdded(values)[0]);
      }
    } else {
      var i :| 0 <= i < |values| && HasRival(values, values[i]);
      ValueAddedMembership(values, values[i]);
    }
  }

  /** A held change that is confirmed reaches `onChange` whole, exactly once, and the dialog closes. */
  lemma ConfirmDeliversHeldChange(name: string, st: FieldState, values: seq<Marking>)
    requires |ValueAdded(values)| > 0
    ensures SubmitStep(name, OnChangeStep(name, st, values)) == FieldState(None, st.calls + [OnChange(name, Some(values))])
  {
  }

  /** A held change that is cancelled never reaches `onChange`: the form gets the change without its last
      value (the one just picked), and the dialog closes. */
  lemma CancelDropsLastValue(name: string, hasSetFieldValue: bool, st: FieldState, values: seq<Marking>)
    requires |ValueAdded(values)| > 0
    ensures |values| >= 2
    ensures CancelStep(name, hasSetFieldValue, OnChangeStep(name, st, values))
            == FieldState(None, st.calls + (if hasSetFieldValue then [SetFieldValue(name, Some(values[..|values| - 1]))] else []))
  {
    ValueAddedMembership(values, ValueAdded(values)[0]);
    ValueAddedNeverSingle(values);
    RivalledLength(values, values);
  }

  lemma {:induction false} RivalledLength(values: seq<Marking>, candidates: seq<Marking>)
    ensures |Rivalled(values, candidates)| <= |candidates|
  {
    if candidates != [] {
      RivalledLength(values, candidates[1..]);
    }
  }

  /** Closing the dialog discards a held change without any call. */
  lemma CloseDiscards(name: string, st: FieldState, values: seq<Marking>)
    requires |ValueAdded(values)| > 0
    ensures CloseStep(OnChangeStep(name, st, values)) == FieldState(None, st.calls)
  {
  }

  /** The picker component: its `newMarking` cell, and a record of the calls it made to the form. */
  class MarkingField {
    const name: string
    const hasSetFieldValue: bool
    var pending: Option<seq<Marking>>
    ghost var calls: seq<Callback>

    ghost function State(): FieldState
      reads this
    {
      FieldState(pending, calls)
    }

    /** Whether the confirmation dialog is open (`!!newMarking`: any array, even an empty one, is truthy). */
    predicate DialogOpen()
      reads this
    {
      pending.Some?
    }

    constructor (name: string, hasSetFieldValue: bool)
      ensures this.name == name && this.hasSetFieldValue == hasSetFieldValue
      ensures State() == FieldState(None, [])
    {
      this.name := name;
      this.hasSetFieldValue := hasSetFieldValue;
      pending := None;
      calls := [];
    }

    /** `handleOnChange(n, values)`; the name it forwards is the field's own, never `n`. */
    method HandleOnChange(n: string, values: seq<Marking>)
      modifies this
      ensures State() == OnChangeStep(name, old(State()), values)
      ensures DialogOpen() <==> |ValueAdded(values)| > 0 || old(DialogOpen())
    {
      var valueAdded := ValueAdded(values);
      if |valueAdded| > 0 {
        pending := Some(values);
      } else {
        calls := calls + [OnChange(name, Some(values))];
      }
    }

    method HandleCancellation()
      modifies this
      ensures State() == CancelStep(name, hasSetFieldValue, old(State()))
      ensures !DialogOpen()
    {
      var popped := pending;
      if popped.Some? && |popped.value| > 0 {
        popped := Some(popped.value[..|popped.value| - 1]);
      }
      if hasSetFieldValue {
        calls := calls + [SetFieldValue(name, popped)];
      }
      pending := None;
    }

    method SubmitUpdate()
      modifies this
      ensures State() == SubmitStep(name, old(State()))
      ensures !DialogOpen()
    {
      calls := calls + [OnChange(name, pending)];
      HandleClose();
    }

    method HandleClose()
      modifies this
      ensures State() == CloseStep(old(State()))
      ensures !DialogOpen()
    {
      pending := None;
    }
  }
}
