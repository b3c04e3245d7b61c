/**
 The plain JavaScript objects `workTimeMap`, `projectWorkTimeMap` and
 `employeeMap` of the statistics controller: dictionaries from a label to the
 hours accumulated under it, updated in place.
 */
module Totals {
  import opened JsSemantics
  import opened Series

  class HoursMap {
    /** The current value of each own property. */
    var sums: map<string, int>
    /** The own properties in the order they were created. */
    var created: seq<string>

    /** The labels and amounts added so far, in the order they were added. */
    ghost var keys: seq<string>
    ghost var amounts: seq<int>

    /**
     The dictionary holds the total of each label added so far, and its
     properties were created in first-seen order.
     */
    ghost predicate Valid()
      reads this
    {
      |keys| == |amounts| && sums == TotalsOf(keys, amounts) && created == FirstOccurrences(keys)
    }

    /** `{}` */
    constructor ()
      ensures Valid()
      ensures keys == [] && amounts == []
      ensures sums == map[] && created == []
    {
      sums := map[];
      created := [];
      keys := [];
      amounts := [];
    }

    /** The value `m[key] || 0`: what a missing property contributes. */
    function ValueOr0(key: string): int
      reads this
    {
      if key in sums then sums[key] else 0
    }

    /**
     `if (!m[key]) { m[key] = 0; } m[key] = m[key] + amount;`. The test is for a
     falsy value: a missing property, or one whose value is 0. Only a missing
     property is created, so an existing one keeps its place in `created`.
     */
    method Add(key: string, amount: int)
      requires Valid()
      modifies this
      ensures Valid()
      ensures keys == old(keys) + [key] && amounts == old(amounts) + [amount]
      ensures sums == old(sums)[key := old(ValueOr0(key)) + amount]
      ensures created == old(created) + (if key in old(sums) then [] else [key])
    {
      TotalsOfSnoc(keys, amounts, key, amount);
      FirstOccurrencesSnoc(keys, key);
      if !(key in sums && sums[key] != 0) {
        if key !in sums {
          created := created + [key];
        }
        sums := sums[key := 0];
      }
      sums := sums[key := sums[key] + amount];
      keys := keys + [key];
      amounts := amounts + [amount];
    }

    /** `_.keys(m)`: each property once, in `Object.keys` order; these are the labels of the series. */
    function Keys(): (ks: seq<string>)
      reads this
      requires Valid()
      ensures NoDuplicates(ks)
      ensures forall k :: k in ks <==> k in sums
      ensures ks == SeriesOf(keys, amounts).labels
    {
      var ks := OwnKeys(created);
      FirstOccurrencesDistinct(keys);
      NoDuplicatesPermutation(created, ks);
      assert forall k :: k in ks <==> k in multiset(created);
      ks
    }

    /** `_.each(labels, function (label) { values.push(m[label]); })` */
    method ValuesOf(labels: seq<string>) returns (values: seq<int>)
      requires forall l :: l in labels ==> l in sums
      ensures |values| == |labels|
      ensures forall i :: 0 <= i < |labels| ==> values[i] == sums[labels[i]]
    {
      values := [];
      var i := 0;
      while i < |labels|
        invariant 0 <= i <= |labels|
        invariant |values| == i
        invariant forall j :: 0 <= j < i ==> values[j] == sums[labels[j]]
      {
        values := values + [sums[labels[i]]];
        i := i + 1;
      }
    }
  }
}
