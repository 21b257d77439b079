/**
 * The filter panel: a set of selected categories, toggled one checkbox at a
 * time, and the radio group choosing the aggregation mode. A JavaScript Set
 * iterates in insertion order, so the selection is a duplicate-free sequence
 * in that order: a deletion removes the element in place and an addition
 * appends it.
 */
module FilterPanel {
  import opened Types
  import opened SeqUtils

  /** `set.delete(x)` on the insertion-ordered selection. */
  function Remove(s: seq<string>, x: string): (r: seq<string>)
    ensures forall c :: c in r <==> c in s && c != x
    ensures NoDuplicates(s) ==> NoDuplicates(r)
  {
    if s == [] then []
    else
      var rest := Remove(s[1..], x);
      assert forall c :: c in s <==> c == s[0] || c in s[1..] by {
        assert s == [s[0]] + s[1..];
      }
      assert NoDuplicates(s) ==> NoDuplicates(s[1..]) && s[0] !in s[1..] by {
        if NoDuplicates(s) {
          forall i | 0 <= i < |s[1..]|
            ensures s[1..][i] != s[0]
          {
            assert s[1..][i] == s[i + 1];
          }
        }
      }
      if s[0] == x then rest else [s[0]] + rest
  }

  /** Removing an element that is absent changes nothing. */
  lemma {:induction false} RemoveAbsent(s: seq<string>, x: string)
    requires x !in s
    ensures Remove(s, x) == s
  {
    if s != [] {
      RemoveAbsent(s[1..], x);
      assert s == [s[0]] + s[1..];
    }
  }

  /** Removing the last element of a sequence in which it occurs only there gives back the rest. */
  lemma {:induction false} RemoveAppended(s: seq<string>, x: string)
    requires x !in s
    ensures Remove(s + [x], x) == s
  {
    if s == [] {
      assert Remove([x], x) == Remove([], x);
    } else {
      RemoveAppended(s[1..], x);
      assert (s + [x])[1..] == s[1..] + [x];
      assert s == [s[0]] + s[1..];
    }
  }

  /** The selection after `handleCategoryToggle(cat)`: deleted when present, appended when absent. */
  function Toggled(selected: seq<string>, cat: string): seq<string>
  {
    if cat in selected then Remove(selected, cat) else selected + [cat]
  }

  /** A toggle flips the membership of `cat` and of no other category, and keeps the selection free of duplicates. */
  lemma ToggledMembership(selected: seq<string>, cat: string)
    ensures cat in Toggled(selected, cat) <==> cat !in selected
    ensures forall c :: c != cat ==> (c in Toggled(selected, cat) <==> c in selected)
    ensures NoDuplicates(selected) ==> NoDuplicates(Toggled(selected, cat))
  {
  }

  /**
   * Toggling the same category twice restores the selected set; it restores
   * the sequence exactly when `cat` was not selected, and otherwise moves
   * `cat` to the end of the iteration order.
   */
  lemma ToggleTwice(selected: seq<string>, cat: string)
    requires NoDuplicates(selected)
    ensures forall c :: c in Toggled(Toggled(selected, cat), cat) <==> c in selected
    ensures cat !in selected ==> Toggled(Toggled(selected, cat), cat) == selected
    ensures cat in selected ==> Toggled(Toggled(selected, cat), cat) == Remove(selected, cat) + [cat]
  {
    ToggledMembership(selected, cat);
    ToggledMembership(Toggled(selected, cat), cat);
    if cat !in selected {
      RemoveAppended(selected, cat);
    }
  }

  /** The radio options, in display order. */
  const AggregationOptions: seq<TimeAggregation> := [Raw, OneMinute, FiveMinutes, OneHour]

  /** Every aggregation mode is offered, each exactly once. */
  lemma AggregationOptionsComplete(mode: TimeAggregation)
    ensures mode in AggregationOptions
    ensures NoDuplicates(AggregationOptions)
  {
  }

  class Panel {
    var selected: seq<string>

    ghost predicate Valid()
      reads this
    {
      NoDuplicates(selected)
    }

    /** The panel's first render: every category it is given starts selected. */
    constructor (categories: seq<string>)
      ensures Valid()
      ensures selected == Distinct(categories)
      ensures forall c :: c in selected <==> c in categories
    {
      selected := Distinct(categories);
    }

    /** `selectedCategories.has(cat)`: whether the box for `cat` is ticked. */
    predicate Checked(cat: string)
      reads this
    {
      cat in selected
    }

    /**
     * `handleCategoryToggle(cat)`: a copy of the selection with `cat`
     * flipped replaces the selection and is emitted as an array.
     */
    method Toggle(cat: string) returns (emitted: seq<string>)
      requires Valid()
      modifies this
      ensures Valid()
      ensures selected == Toggled(old(selected), cat) && emitted == selected
      ensures Checked(cat) <==> !old(Checked(cat))
      ensures forall c :: c != cat ==> (c in emitted <==> c in old(selected))
    {
      ToggledMembership(selected, cat);
      var newSelected := selected;
      if cat in newSelected {
        newSelected := Remove(newSelected, cat);
      } else {
        newSelected := newSelected + [cat];
      }
      selected := newSelected;
      emitted := newSelected;
    }

    /** A radio button: choosing a mode emits exactly that mode. */
    method ChooseAggregation(i: nat) returns (emitted: TimeAggregation)
      requires i < |AggregationOptions|
      ensures emitted == AggregationOptions[i]
      ensures forall j :: 0 <= j < |AggregationOptions| && j != i ==> emitted != AggregationOptions[j]
    {
      emitted := AggregationOptions[i];
    }
  }
}
