/**
 What one statistics series is meant to be, independently of how the
 controller builds it: given the label each booking maps to (`keys`) and each
 booking's work time (`amounts`), the labels are the distinct keys in
 `Object.keys` order and each label's value is the sum of the amounts of the
 bookings carrying that label.
 */
module Series {
  import opened JsSemantics

  /** A label/data pair as the controller returns it for projects and employees. */
  datatype Series = Series(labels: seq<string>, data: seq<int>)

  function Sum(xs: seq<int>): int {
    if |xs| == 0 then 0 else Sum(xs[..|xs| - 1]) + xs[|xs| - 1]
  }

  lemma SumSnoc(xs: seq<int>, x: int)
    ensures Sum(xs + [x]) == Sum(xs) + x
  {
    assert (xs + [x])[..|xs|] == xs;
  }

  lemma {:induction false} SumAppend(xs: seq<int>, ys: seq<int>)
    ensures Sum(xs + ys) == Sum(xs) + Sum(ys)
    decreases |ys|
  {
    if |ys| == 0 {
      assert xs + ys == xs;
    } else {
      var init := ys[..|ys| - 1];
      assert xs + ys == (xs + init) + [ys[|ys| - 1]];
      SumSnoc(xs + init, ys[|ys| - 1]);
      SumAppend(xs, init);
    }
  }

  /** The sum of `amounts[i]` over the positions `i` whose key is `target`. */
  function SumWhere(keys: seq<string>, amounts: seq<int>, target: string): int
    requires |keys| == |amounts|
  {
    if |keys| == 0 then 0
    else
      var n := |keys| - 1;
      SumWhere(keys[..n], amounts[..n], target) + (if keys[n] == target then amounts[n] else 0)
  }

  lemma SumWhereSnoc(keys: seq<string>, amounts: seq<int>, k: string, a: int, target: string)
    requires |keys| == |amounts|
    ensures SumWhere(keys + [k], amounts + [a], target)
         == SumWhere(keys, amounts, target) + (if k == target then a else 0)
  {
    assert (keys + [k])[..|keys|] == keys;
    assert (amounts + [a])[..|amounts|] == amounts;
  }

  /** A label no booking carries has total 0. */
  lemma {:induction false} SumWhereAbsent(keys: seq<string>, amounts: seq<int>, target: string)
    requires |keys| == |amounts| && target !in keys
    ensures SumWhere(keys, amounts, target) == 0
  {
    if |keys| > 0 {
      var n := |keys| - 1;
      assert keys == keys[..n] + [keys[n]];
      SumWhereAbsent(keys[..n], amounts[..n], target);
    }
  }

  /** The distinct keys, each where it first occurs. */
  function FirstOccurrences(keys: seq<string>): seq<string> {
    if |keys| == 0 then []
    else
      var n := |keys| - 1;
      var init := FirstOccurrences(keys[..n]);
      if keys[n] in keys[..n] then init else init + [keys[n]]
  }

  /** Each key is listed exactly once. */
  lemma {:induction false} FirstOccurrencesDistinct(keys: seq<string>)
    ensures NoDuplicates(FirstOccurrences(keys))
    ensures forall k :: k in FirstOccurrences(keys) <==> k in keys
  {
    if |keys| > 0 {
      var n := |keys| - 1;
      assert keys == keys[..n] + [keys[n]];
      FirstOccurrencesDistinct(keys[..n]);
    }
  }

  lemma FirstOccurrencesSnoc(keys: seq<string>, k: string)
    ensures FirstOccurrences(keys + [k]) == FirstOccurrences(keys) + (if k in keys then [] else [k])
  {
    assert (keys + [k])[..|keys|] == keys;
  }

  /** The position where `k` first occurs in `keys`. */
  function FirstIndex(keys: seq<string>, k: string): (i: nat)
    requires k in keys
    ensures i < |keys| && keys[i] == k
    ensures forall j :: 0 <= j < i ==> keys[j] != k
  {
    if keys[0] == k then 0 else 1 + FirstIndex(keys[1..], k)
  }

  lemma FirstIndexSnoc(keys: seq<string>, x: string, k: string)
    requires k in keys + [x]
    ensures FirstIndex(keys + [x], k) == if k in keys then FirstIndex(keys, k) else |keys|
  {
    var s := keys + [x];
    var i := FirstIndex(s, k);
    if k in keys {
      var j := FirstIndex(keys, k);
      assert s[j] == k;
    } else {
      assert forall j :: 0 <= j < |keys| ==> s[j] != k;
    }
  }

  /** The distinct keys are listed in the order in which each first occurs. */
  lemma {:induction false} FirstOccurrencesOrdered(keys: seq<string>)
    ensures forall i, j :: 0 <= i < j < |FirstOccurrences(keys)| ==>
      && FirstOccurrences(keys)[i] in keys && FirstOccurrences(keys)[j] in keys
      && FirstIndex(keys, FirstOccurrences(keys)[i]) < FirstIndex(keys, FirstOccurrences(keys)[j])
  {
    if |keys| > 0 {
      var n := |keys| - 1;
      var init, x := keys[..n], keys[n];
      assert keys == init + [x];
      FirstOccurrencesOrdered(init);
      FirstOccurrencesSnoc(init, x);
      FirstOccurrencesDistinct(init);
      FirstOccurrencesDistinct(keys);
      var fo, fi := FirstOccurrences(keys), FirstOccurrences(init);
      forall i, j | 0 <= i < j < |fo|
        ensures fo[i] in keys && fo[j] in keys && FirstIndex(keys, fo[i]) < FirstIndex(keys, fo[j])
      {
        FirstIndexSnoc(init, x, fo[i]);
        FirstIndexSnoc(init, x, fo[j]);
        assert fo[i] == fi[i];
        if j < |fi| {
          assert fo[j] == fi[j];
        } else {
          assert fo[j] == x && x !in init;
          assert fo[i] in init;
        }
      }
      assert forall i, j :: 0 <= i < j < |fo| ==> fo[i] in keys && fo[j] in keys && FirstIndex(keys, fo[i]) < FirstIndex(keys, fo[j]);
    } else {
      assert FirstOccurrences(keys) == [];
    }
  }

  /** The totals map: each key that occurs, with the sum of its amounts. */
  function TotalsOf(keys: seq<string>, amounts: seq<int>): map<string, int>
    requires |keys| == |amounts|
  {
    map l | l in keys :: SumWhere(keys, amounts, l)
  }

  /** Appending one booking adds its amount to its key's total, creating the key at 0 if new. */
  lemma TotalsOfSnoc(keys: seq<string>, amounts: seq<int>, k: string, a: int)
    requires |keys| == |amounts|
    ensures TotalsOf(keys + [k], amounts + [a])
         == TotalsOf(keys, amounts)[k := (if k in TotalsOf(keys, amounts) then TotalsOf(keys, amounts)[k] else 0) + a]
  {
    var before, after := TotalsOf(keys, amounts), TotalsOf(keys + [k], amounts + [a]);
    var expected := before[k := (if k in before then before[k] else 0) + a];
    forall l | l in after ensures l in expected && after[l] == expected[l] {
      SumWhereSnoc(keys, amounts, k, a, l);
      if l == k && k !in keys {
        SumWhereAbsent(keys, amounts, k);
      }
    }
    forall l | l in expected ensures l in after {
      if l != k {
        assert l in keys;
      }
    }
  }

  /** The value of each label, in the order of `labels`. */
  function TotalsAt(labels: seq<string>, keys: seq<string>, amounts: seq<int>): (r: seq<int>)
    requires |keys| == |amounts|
    ensures |r| == |labels|
    ensures forall i :: 0 <= i < |labels| ==> r[i] == SumWhere(keys, amounts, labels[i])
  {
    if |labels| == 0 then []
    else
      var n := |labels| - 1;
      TotalsAt(labels[..n], keys, amounts) + [SumWhere(keys, amounts, labels[n])]
  }

  /** The series the source means to produce for the given keys and amounts. */
  function SeriesOf(keys: seq<string>, amounts: seq<int>): (s: Series)
    requires |keys| == |amounts|
    ensures |s.labels| == |s.data|
    ensures NoDuplicates(s.labels)
    ensures forall l :: l in s.labels <==> l in keys
  {
    var fo := FirstOccurrences(keys);
    FirstOccurrencesDistinct(keys);
    var labels := OwnKeys(fo);
    NoDuplicatesPermutation(fo, labels);
    assert forall l :: l in labels <==> l in multiset(fo);
    Series(labels, TotalsAt(labels, keys, amounts))
  }

  /** The value at each position is the total of the label at that position. */
  lemma SeriesValues(keys: seq<string>, amounts: seq<int>)
    requires |keys| == |amounts|
    ensures var s := SeriesOf(keys, amounts);
      forall i :: 0 <= i < |s.labels| ==> s.labels[i] in keys && s.data[i] == SumWhere(keys, amounts, s.labels[i])
  {
    var s := SeriesOf(keys, amounts);
    assert forall i :: 0 <= i < |s.labels| ==> s.labels[i] in s.labels;
  }

  lemma {:induction false} TotalsAtAppend(l1: seq<string>, l2: seq<string>, keys: seq<string>, amounts: seq<int>)
    requires |keys| == |amounts|
    ensures Sum(TotalsAt(l1 + l2, keys, amounts)) == Sum(TotalsAt(l1, keys, amounts)) + Sum(TotalsAt(l2, keys, amounts))
  {
    var t1, t2, t := TotalsAt(l1, keys, amounts), TotalsAt(l2, keys, amounts), TotalsAt(l1 + l2, keys, amounts);
    forall i | 0 <= i < |t| ensures t[i] == (t1 + t2)[i] {
      if i < |l1| {
        assert (l1 + l2)[i] == l1[i];
      } else {
        assert (l1 + l2)[i] == l2[i - |l1|];
      }
    }
    assert t == t1 + t2;
    SumAppend(t1, t2);
  }

  /** Taking the label at position `j` out of `labels` lowers the sum of the totals by that label's total. */
  lemma {:induction false} TotalsSumRemove(labels: seq<string>, j: nat, keys: seq<string>, amounts: seq<int>)
    requires |keys| == |amounts| && j < |labels|
    ensures Sum(TotalsAt(labels, keys, amounts))
         == Sum(TotalsAt(labels[..j] + labels[j + 1..], keys, amounts)) + SumWhere(keys, amounts, labels[j])
  {
    var before, after := labels[..j], labels[j + 1..];
    assert labels == before + [labels[j]] + after;
    var single := TotalsAt([labels[j]], keys, amounts);
    assert single == [SumWhere(keys, amounts, labels[j])];
    SumSnoc([], single[0]);
    TotalsAtAppend(before + [labels[j]], after, keys, amounts);
    TotalsAtAppend(before, [labels[j]], keys, amounts);
    TotalsAtAppend(before, after, keys, amounts);
  }

  lemma {:induction false} MultisetRemove(s: seq<string>, j: nat)
    requires j < |s|
    ensures multiset(s[..j] + s[j + 1..]) == multiset(s) - multiset{s[j]}
  {
    assert s == s[..j] + [s[j]] + s[j + 1..];
  }

  /** Summing the totals does not depend on the order of the labels. */
  lemma {:induction false} TotalsSumPermutation(l1: seq<string>, l2: seq<string>, keys: seq<string>, amounts: seq<int>)
    requires |keys| == |amounts| && multiset(l1) == multiset(l2)
    ensures Sum(TotalsAt(l1, keys, amounts)) == Sum(TotalsAt(l2, keys, amounts))
    decreases |l1|
  {
    if |l1| == 0 {
      assert |l2| == |multiset(l2)| == 0;
    } else {
      var n := |l1| - 1;
      var x := l1[n];
      assert x in multiset(l2);
      var j :| 0 <= j < |l2| && l2[j] == x;
      MultisetRemove(l1, n);
      MultisetRemove(l2, j);
      assert l1[..n] + l1[n + 1..] == l1[..n];
      TotalsSumPermutation(l1[..n], l2[..j] + l2[j + 1..], keys, amounts);
      TotalsSumRemove(l1, n, keys, amounts);
      TotalsSumRemove(l2, j, keys, amounts);
    }
  }

  /** Adding a booking with key `k` raises the sum of the totals of duplicate-free `labels` by its amount exactly when `k` is one of them. */
  lemma {:induction false} TotalsSumSnoc(labels: seq<string>, keys: seq<string>, amounts: seq<int>, k: string, a: int)
    requires |keys| == |amounts| && NoDuplicates(labels)
    ensures Sum(TotalsAt(labels, keys + [k], amounts + [a]))
         == Sum(TotalsAt(labels, keys, amounts)) + (if k in labels then a else 0)
  {
    if |labels| > 0 {
      var n := |labels| - 1;
      var init := labels[..n];
      assert labels == init + [labels[n]];
      assert k in labels <==> k in init || k == labels[n];
      assert labels[n] !in init;
      TotalsSumSnoc(init, keys, amounts, k, a);
      TotalsAtAppend(init, [labels[n]], keys + [k], amounts + [a]);
      TotalsAtAppend(init, [labels[n]], keys, amounts);
      SumWhereSnoc(keys, amounts, k, a, labels[n]);
    }
  }

  /** The totals of the distinct keys add up to the sum of all amounts. */
  lemma {:induction false} FirstOccurrencesConserve(keys: seq<string>, amounts: seq<int>)
    requires |keys| == |amounts|
    ensures Sum(TotalsAt(FirstOccurrences(keys), keys, amounts)) == Sum(amounts)
  {
    if |keys| > 0 {
      var n := |keys| - 1;
      var k, a := keys[n], amounts[n];
      assert keys == keys[..n] + [k] && amounts == amounts[..n] + [a];
      var fo := FirstOccurrences(keys[..n]);
      FirstOccurrencesDistinct(keys[..n]);
      FirstOccurrencesConserve(keys[..n], amounts[..n]);
      FirstOccurrencesSnoc(keys[..n], k);
      SumSnoc(amounts[..n], a);
      TotalsSumSnoc(fo, keys[..n], amounts[..n], k, a);
      if k !in keys[..n] {
        TotalsAtAppend(fo, [k], keys, amounts);
        SumWhereSnoc(keys[..n], amounts[..n], k, a, k);
        SumWhereAbsent(keys[..n], amounts[..n], k);
      }
    }
  }

  /** Conservation: the values of a series add up to the sum of all amounts. */
  lemma SeriesConserves(keys: seq<string>, amounts: seq<int>)
    requires |keys| == |amounts|
    ensures Sum(SeriesOf(keys, amounts).data) == Sum(amounts)
  {
    var fo := FirstOccurrences(keys);
    FirstOccurrencesConserve(keys, amounts);
    TotalsSumPermutation(OwnKeys(fo), fo, keys, amounts);
  }

  /** When no key is an array index, the labels are the distinct keys in first-seen order. */
  lemma SeriesInFirstSeenOrder(keys: seq<string>, amounts: seq<int>)
    requires |keys| == |amounts|
    requires forall i :: 0 <= i < |keys| ==> !IsArrayIndex(keys[i])
    ensures SeriesOf(keys, amounts).labels == FirstOccurrences(keys)
  {
    var fo := FirstOccurrences(keys);
    FirstOccurrencesDistinct(keys);
    forall i | 0 <= i < |fo| ensures !IsArrayIndex(fo[i]) {
      assert fo[i] in keys;
    }
  }
}
