/**
 The pieces of JavaScript semantics the statistics aggregation depends on:
 truncating integer division and remainder (moment's duration components),
 the decimal rendering of a non-negative integer, and the order in which
 `Object.keys` (and so underscore's `_.keys`) lists the own properties of an
 ordinary object: array-index keys first in ascending numeric order, then all
 other keys in the order they were created.
 */
module JsSemantics {

  // ---------------------------------------------------------------------------
  // Truncating arithmetic

  /** Integer division rounding toward zero, as `Math.trunc(a / b)` or moment's absFloor. */
  function TruncDiv(a: int, b: int): int
    requires b > 0
  {
    if a >= 0 then a / b else -((-a) / b)
  }

  /** Rounding toward zero: the quotient agrees with floor division on non-negative numbers and is odd in `a`. */
  lemma TruncDivTowardZero(a: int, b: int)
    requires b > 0
    ensures a >= 0 ==> TruncDiv(a, b) == a / b
    ensures TruncDiv(-a, b) == -TruncDiv(a, b)
  {
  }

  /** JavaScript's `%`: the remainder of truncating division, with the sign of the dividend. */
  function TruncRem(a: int, b: int): (r: int)
    requires b > 0
    ensures a >= 0 ==> 0 <= r < b && r == a % b
    ensures a < 0 ==> -b < r <= 0 && r == -((-a) % b)
  {
    if a >= 0 then a % b else -((-a) % b)
  }

  /** Truncating quotient and remainder recompose the dividend, as in JavaScript. */
  lemma TruncDivRem(a: int, b: int)
    requires b > 0
    ensures TruncDiv(a, b) * b + TruncRem(a, b) == a
  {
    if a < 0 {
      var q := (-a) / b;
      assert q * b + (-a) % b == -a;
      assert TruncDiv(a, b) * b == -(q * b) by {
        TruncDivTowardZero(-a, b);
      }
    }
  }

  // ---------------------------------------------------------------------------
  // Decimal numerals

  predicate IsDigit(c: char) {
    '0' <= c <= '9'
  }

  predicate AllDigits(s: string) {
    forall i :: 0 <= i < |s| ==> IsDigit(s[i])
  }

  function DigitChar(d: nat): (c: char)
    requires d < 10
    ensures IsDigit(c) && c as int - '0' as int == d
  {
    ('0' as int + d) as char
  }

  /** The number a string of decimal digits denotes. */
  function DecimalValue(s: string): nat
    requires AllDigits(s)
  {
    if |s| == 0 then 0
    else DecimalValue(s[..|s| - 1]) * 10 + (s[|s| - 1] as int - '0' as int)
  }

  /** `String(n)` for a non-negative integer: its shortest decimal numeral. */
  function NumberToString(n: nat): (s: string)
    ensures |s| >= 1 && AllDigits(s)
    ensures s[0] == '0' <==> n == 0
    ensures n == 0 ==> s == "0"
  {
    if n < 10 then [DigitChar(n)] else NumberToString(n / 10) + [DigitChar(n % 10)]
  }

  /** Reading back the numeral `String(n)` gives `n`. */
  lemma {:induction false} NumberToStringRoundTrip(n: nat)
    ensures DecimalValue(NumberToString(n)) == n
  {
    var s := NumberToString(n);
    if n >= 10 {
      var init := NumberToString(n / 10);
      assert s[..|s| - 1] == init;
      NumberToStringRoundTrip(n / 10);
    }
  }

  /** Pads a numeral with leading zeros up to `width` characters (moment's zeroFill). */
  function ZeroFill(s: string, width: nat): string
    decreases width - |s|
  {
    if |s| < width then ZeroFill("0" + s, width) else s
  }

  /** The padded numeral has at least `width` characters: zeros, then the original numeral. */
  lemma {:induction false} ZeroFillPads(s: string, width: nat)
    ensures |ZeroFill(s, width)| == if |s| < width then width else |s|
    ensures ZeroFill(s, width)[|ZeroFill(s, width)| - |s|..] == s
    ensures forall i :: 0 <= i < |ZeroFill(s, width)| - |s| ==> ZeroFill(s, width)[i] == '0'
    decreases width - |s|
  {
    if |s| < width {
      var r := ZeroFill("0" + s, width);
      ZeroFillPads("0" + s, width);
      assert r[|r| - |s| - 1..] == "0" + s;
      assert r[|r| - |s|..] == ("0" + s)[1..];
    }
  }

  /** A leading zero does not change the number a numeral denotes. */
  lemma {:induction false} LeadingZeroValue(s: string)
    requires AllDigits(s)
    ensures AllDigits("0" + s) && DecimalValue("0" + s) == DecimalValue(s)
    decreases |s|
  {
    if |s| > 0 {
      var t := "0" + s;
      assert t[..|t| - 1] == "0" + s[..|s| - 1];
      LeadingZeroValue(s[..|s| - 1]);
    }
  }

  /** Padding a numeral with zeros keeps it a numeral of the same number. */
  lemma {:induction false} ZeroFillValue(s: string, width: nat)
    requires AllDigits(s)
    ensures AllDigits(ZeroFill(s, width)) && DecimalValue(ZeroFill(s, width)) == DecimalValue(s)
    decreases width - |s|
  {
    if |s| < width {
      LeadingZeroValue(s);
      ZeroFillValue("0" + s, width);
    }
  }

  /** Distinct numbers have distinct numerals. */
  lemma NumberToStringInjective(m: nat, n: nat)
    requires NumberToString(m) == NumberToString(n)
    ensures m == n
  {
    NumberToStringRoundTrip(m);
    NumberToStringRoundTrip(n);
  }

  /**
   A string that is a numeral, a separator that is not a digit, then anything,
   splits in one way only: the separator is the first non-digit.
   */
  lemma SplitAtSeparator(a: string, b: string, c: string, d: string, sep: char)
    requires AllDigits(a) && AllDigits(c) && !IsDigit(sep)
    requires a + [sep] + b == c + [sep] + d
    ensures a == c && b == d
  {
    var t, u := a + [sep] + b, c + [sep] + d;
    assert forall i :: 0 <= i < |a| ==> IsDigit(t[i]);
    assert forall i :: 0 <= i < |c| ==> IsDigit(u[i]);
    assert t[|a|] == sep && u[|c|] == sep;
    assert a == t[..|a|] == c;
    assert b == t[|a| + 1..] == d;
  }

  /** Two numerals and a rest, joined by the same non-digit separator, split in one way only. */
  lemma SplitFields(a: string, b: string, c: string, d: string, e: string, f: string, sep: char)
    requires AllDigits(a) && AllDigits(b) && AllDigits(d) && AllDigits(e) && !IsDigit(sep)
    requires a + [sep] + b + [sep] + c == d + [sep] + e + [sep] + f
    ensures a == d && b == e && c == f
  {
    assert a + [sep] + b + [sep] + c == a + [sep] + (b + [sep] + c);
    assert d + [sep] + e + [sep] + f == d + [sep] + (e + [sep] + f);
    SplitAtSeparator(a, b + [sep] + c, d, e + [sep] + f, sep);
    SplitAtSeparator(b, c, e, f, sep);
  }

  // ---------------------------------------------------------------------------
  // Property keys of ordinary objects

  /** The largest array index, 2^32 - 2. */
  const MaxArrayIndex: nat := 0xFFFF_FFFE

  /** A canonical numeral: digits only, and no leading zero unless it is "0". */
  predicate IsCanonicalNumeral(s: string) {
    |s| >= 1 && AllDigits(s) && (s[0] == '0' ==> |s| == 1)
  }

  /** An array index in the sense of ECMAScript: the canonical numeral of an integer in [0, 2^32 - 2]. */
  predicate IsArrayIndex(s: string) {
    IsCanonicalNumeral(s) && DecimalValue(s) <= MaxArrayIndex
  }

  /** A key with a character that is not a digit is never an array index. */
  lemma NonDigitIsNotArrayIndex(s: string, i: nat)
    requires i < |s| && !IsDigit(s[i])
    ensures !IsArrayIndex(s)
  {
  }

  /** The numeral of n is an array index exactly when n is at most 2^32 - 2. */
  lemma NumberToStringIsArrayIndex(n: nat)
    ensures IsArrayIndex(NumberToString(n)) <==> n <= MaxArrayIndex
  {
    NumberToStringRoundTrip(n);
  }

  predicate NoDuplicates<T(==)>(s: seq<T>) {
    forall i, j :: 0 <= i < j < |s| ==> s[i] != s[j]
  }

  ghost predicate AllArrayIndices(s: seq<string>) {
    forall i :: 0 <= i < |s| ==> IsArrayIndex(s[i])
  }

  ghost predicate AscendingByIndex(s: seq<string>)
    requires AllArrayIndices(s)
  {
    forall i, j :: 0 <= i < j < |s| ==> DecimalValue(s[i]) <= DecimalValue(s[j])
  }

  /** The array-index keys of `s`, in the order of `s`. */
  function IndexKeys(s: seq<string>): (r: seq<string>)
    ensures AllArrayIndices(r)
    ensures (forall i :: 0 <= i < |s| ==> !IsArrayIndex(s[i])) ==> r == []
  {
    if |s| == 0 then []
    else (if IsArrayIndex(s[0]) then [s[0]] else []) + IndexKeys(s[1..])
  }

  /** The keys of `s` that are not array indices, in the order of `s`. */
  function NamedKeys(s: seq<string>): (r: seq<string>)
    ensures forall i :: 0 <= i < |r| ==> !IsArrayIndex(r[i])
    ensures (forall i :: 0 <= i < |s| ==> !IsArrayIndex(s[i])) ==> r == s
  {
    if |s| == 0 then []
    else (if IsArrayIndex(s[0]) then [] else [s[0]]) + NamedKeys(s[1..])
  }

  /** Every key is either an array index or a named key, and keeps its multiplicity. */
  lemma {:induction false} IndexAndNamedKeysPartition(s: seq<string>)
    ensures multiset(IndexKeys(s)) + multiset(NamedKeys(s)) == multiset(s)
  {
    if |s| > 0 {
      assert s == [s[0]] + s[1..];
      IndexAndNamedKeysPartition(s[1..]);
    }
  }

  /** Inserts an array index before the first array index of `s` that is not numerically smaller. */
  function InsertByIndex(x: string, s: seq<string>): (r: seq<string>)
    requires IsArrayIndex(x) && AllArrayIndices(s)
    ensures AllArrayIndices(r)
    ensures multiset(r) == multiset(s) + multiset{x}
  {
    if |s| == 0 then [x]
    else if DecimalValue(x) <= DecimalValue(s[0]) then [x] + s
    else
      assert s == [s[0]] + s[1..];
      [s[0]] + InsertByIndex(x, s[1..])
  }

  /** Inserting a key no smaller than `lo` into keys no smaller than `lo` gives keys no smaller than `lo`. */
  lemma {:induction false} InsertByIndexBound(x: string, s: seq<string>, lo: nat)
    requires IsArrayIndex(x) && AllArrayIndices(s)
    requires lo <= DecimalValue(x) && forall k :: 0 <= k < |s| ==> lo <= DecimalValue(s[k])
    ensures forall k :: 0 <= k < |InsertByIndex(x, s)| ==> lo <= DecimalValue(InsertByIndex(x, s)[k])
  {
    if |s| > 0 && DecimalValue(x) > DecimalValue(s[0]) {
      InsertByIndexBound(x, s[1..], lo);
    }
  }

  /** Inserting into an ascending list keeps it ascending. */
  lemma {:induction false} InsertByIndexAscending(x: string, s: seq<string>)
    requires IsArrayIndex(x) && AllArrayIndices(s) && AscendingByIndex(s)
    ensures AscendingByIndex(InsertByIndex(x, s))
  {
    if |s| > 0 && DecimalValue(x) > DecimalValue(s[0]) {
      var rest := InsertByIndex(x, s[1..]);
      InsertByIndexAscending(x, s[1..]);
      InsertByIndexBound(x, s[1..], DecimalValue(s[0]));
      var r := InsertByIndex(x, s);
      assert r == [s[0]] + rest;
      forall i, j | 0 <= i < j < |r| ensures DecimalValue(r[i]) <= DecimalValue(r[j]) {
        assert r[j] == rest[j - 1];
        if i > 0 {
          assert r[i] == rest[i - 1];
        }
      }
    }
  }

  /** The array indices of `s`, in ascending numeric order. */
  function SortByIndex(s: seq<string>): (r: seq<string>)
    requires AllArrayIndices(s)
    ensures AllArrayIndices(r)
    ensures multiset(r) == multiset(s)
  {
    if |s| == 0 then []
    else
      assert s == s[..|s| - 1] + [s[|s| - 1]];
      InsertByIndex(s[|s| - 1], SortByIndex(s[..|s| - 1]))
  }

  lemma {:induction false} SortByIndexAscending(s: seq<string>)
    requires AllArrayIndices(s)
    ensures AscendingByIndex(SortByIndex(s))
  {
    if |s| > 0 {
      SortByIndexAscending(s[..|s| - 1]);
      InsertByIndexAscending(s[|s| - 1], SortByIndex(s[..|s| - 1]));
    }
  }

  /**
   `Object.keys` of an ordinary object whose own properties were created in the
   order `created`: array-index keys in ascending numeric order, then the other
   keys in creation order.
   */
  function OwnKeys(created: seq<string>): (ks: seq<string>)
    ensures multiset(ks) == multiset(created)
    ensures (forall i :: 0 <= i < |created| ==> !IsArrayIndex(created[i])) ==> ks == created
  {
    IndexAndNamedKeysPartition(created);
    SortByIndex(IndexKeys(created)) + NamedKeys(created)
  }

  lemma {:induction false} NamedKeysAppend(a: seq<string>, b: seq<string>)
    ensures NamedKeys(a + b) == NamedKeys(a) + NamedKeys(b)
  {
    if |a| > 0 {
      var ab := a + b;
      assert ab[0] == a[0] && ab[1..] == a[1..] + b;
      NamedKeysAppend(a[1..], b);
      var head := if IsArrayIndex(a[0]) then [] else [a[0]];
      calc {
        NamedKeys(ab);
        head + NamedKeys(a[1..] + b);
        head + (NamedKeys(a[1..]) + NamedKeys(b));
        (head + NamedKeys(a[1..])) + NamedKeys(b);
        NamedKeys(a) + NamedKeys(b);
      }
    } else {
      assert a + b == b;
    }
  }

  lemma {:induction false} NamedKeysOfIndices(s: seq<string>)
    requires AllArrayIndices(s)
    ensures NamedKeys(s) == []
  {
    if |s| > 0 {
      NamedKeysOfIndices(s[1..]);
    }
  }

  /**
   The order `Object.keys` promises: every array index comes before every other
   key, array indices ascend, and the other keys keep their creation order.
   */
  lemma OwnKeysOrder(created: seq<string>)
    ensures forall i, j :: 0 <= i < j < |OwnKeys(created)| && IsArrayIndex(OwnKeys(created)[j]) ==>
      IsArrayIndex(OwnKeys(created)[i]) && DecimalValue(OwnKeys(created)[i]) <= DecimalValue(OwnKeys(created)[j])
    ensures NamedKeys(OwnKeys(created)) == NamedKeys(created)
  {
    var sorted := SortByIndex(IndexKeys(created));
    SortByIndexAscending(IndexKeys(created));
    var named := NamedKeys(created);
    var ks := OwnKeys(created);
    assert ks == sorted + named;
    forall i, j | 0 <= i < j < |ks| && IsArrayIndex(ks[j])
      ensures IsArrayIndex(ks[i]) && DecimalValue(ks[i]) <= DecimalValue(ks[j])
    {
      if j >= |sorted| {
        assert false;
      }
      assert ks[i] == sorted[i] && ks[j] == sorted[j];
    }
    NamedKeysAppend(sorted, named);
    NamedKeysOfIndices(sorted);
    assert NamedKeys(named) == named;
  }

  // ---------------------------------------------------------------------------
  // Duplicates and permutations

  lemma {:induction false} NoDuplicatesCount<T>(s: seq<T>, x: T)
    requires NoDuplicates(s)
    ensures multiset(s)[x] <= 1
  {
    if |s| > 0 {
      assert s == [s[0]] + s[1..];
      NoDuplicatesCount(s[1..], x);
      if x == s[0] {
        assert x !in s[1..];
      }
    }
  }

  /** A rearrangement of a list without duplicates has no duplicates. */
  lemma NoDuplicatesPermutation<T>(s: seq<T>, t: seq<T>)
    requires NoDuplicates(s) && multiset(s) == multiset(t)
    ensures NoDuplicates(t)
  {
    forall i, j | 0 <= i < j < |t| ensures t[i] != t[j] {
      if t[i] == t[j] {
        var x := t[i];
        assert t == t[..j] + t[j..];
        assert x in t[..j] && x in t[j..];
        assert multiset(t)[x] == multiset(t[..j])[x] + multiset(t[j..])[x];
        NoDuplicatesCount(s, x);
        assert false;
      }
    }
  }
}
