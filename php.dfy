/** PHP values and the PHP built-ins the plugin leans on: truthiness,
    strict `in_array`, `array_unique` and `array_diff`. */
module Php {

  /** A PHP value as the plugin sees it. An array is an ordered list of
      key/value pairs. Floats and objects are not modelled. */
  datatype Value =
    | Null
    | Bool(b: bool)
    | Int(i: int)
    | Str(s: string)
    | Arr(items: seq<(Value, Value)>)

  /** Conversion to boolean, as in `if ($x = ...)`: null, false, 0, the empty
      string, the string "0" and the empty array are falsy, and every other
      value is truthy. */
  predicate Truthy(v: Value) {
    match v
    case Null => false
    case Bool(b) => b
    case Int(i) => i != 0
    case Str(s) => s != "" && s != "0"
    case Arr(items) => |items| > 0
  }

  /** The falsy values are exactly the six listed; every other value is truthy. */
  lemma FalsyValues(v: Value)
    ensures Truthy(v) <==> v !in {Null, Bool(false), Int(0), Str(""), Str("0"), Arr([])}
  {
  }

  /** `$a === $b`: the same type and the same value; two arrays are identical
      when they hold the same key/value pairs in the same order, which is
      structural equality in this representation. */
  predicate Identical(a: Value, b: Value) {
    a == b
  }

  /** `in_array($needle, $haystack, true)`. */
  predicate InArrayStrict(needle: Value, haystack: seq<Value>) {
    exists i :: 0 <= i < |haystack| && Identical(haystack[i], needle)
  }

  /** A string is never strictly equal to an array. */
  lemma StringNotInArrayOfArrays(s: string, haystack: seq<Value>)
    requires forall i :: 0 <= i < |haystack| ==> haystack[i].Arr?
    ensures !InArrayStrict(Str(s), haystack)
  {
  }

  predicate NoDuplicates(s: seq<string>) {
    forall i, j :: 0 <= i < j < |s| ==> s[i] != s[j]
  }

  /** The position of the first occurrence of `x` in `s`. */
  function FirstIndex(s: seq<string>, x: string): (i: nat)
    requires x in s
    ensures i < |s| && s[i] == x && x !in s[..i]
  {
    if s[0] == x then 0
    else
      var j := FirstIndex(s[1..], x);
      assert s[..j + 1] == [s[0]] + s[1..][..j];
      1 + j
  }

  lemma FirstIndexIsUnique(s: seq<string>, x: string, i: nat)
    requires i < |s| && s[i] == x && x !in s[..i]
    ensures FirstIndex(s, x) == i
  {
    var k := FirstIndex(s, x);
    assert forall j :: 0 <= j < i ==> s[..i][j] == s[j];
    assert forall j :: 0 <= j < k ==> s[..k][j] == s[j];
  }

  lemma FirstIndexOfPrefix(p: seq<string>, y: string, x: string)
    requires x in p
    ensures FirstIndex(p + [y], x) == FirstIndex(p, x)
  {
    var k := FirstIndex(p, x);
    assert (p + [y])[..k] == p[..k];
    FirstIndexIsUnique(p + [y], x, k);
  }

  /** `array_unique` on a list of strings: every value once, at its first
      occurrence. (PHP keeps the surviving values' original keys, so the
      result may have gaps in its indices; only its values are modelled.) */
  function ArrayUnique(s: seq<string>): (r: seq<string>)
    ensures forall x :: x in r <==> x in s
    ensures NoDuplicates(r)
    ensures |r| <= |s|
    decreases |s|
  {
    if |s| == 0 then []
    else
      var init := s[..|s| - 1];
      var last := s[|s| - 1];
      assert s == init + [last];
      var d := ArrayUnique(init);
      if last in d then d else d + [last]
  }

  /** The values of `r`, all taken from `s`, come in the order of their first
      occurrences in `s`. */
  predicate InFirstOccurrenceOrder(s: seq<string>, r: seq<string>)
    requires forall x :: x in r ==> x in s
  {
    forall i, j :: 0 <= i < j < |r| ==> FirstIndex(s, r[i]) < FirstIndex(s, r[j])
  }

  /** `array_unique` keeps the values in the order of their first occurrences. */
  lemma {:induction false} ArrayUniqueKeepsFirstOccurrenceOrder(s: seq<string>)
    ensures InFirstOccurrenceOrder(s, ArrayUnique(s))
    decreases |s|
  {
    if |s| > 0 {
      var init := s[..|s| - 1];
      var last := s[|s| - 1];
      assert s == init + [last];
      ArrayUniqueKeepsFirstOccurrenceOrder(init);
      var d := ArrayUnique(init);
      var r := ArrayUnique(s);
      forall x | x in init
        ensures FirstIndex(s, x) == FirstIndex(init, x) < |init|
      {
        FirstIndexOfPrefix(init, last, x);
      }
      if last !in d {
        assert last !in init;
        FirstIndexIsUnique(s, last, |init|);
        assert r == d + [last];
        forall i, j | 0 <= i < j < |r|
          ensures FirstIndex(s, r[i]) < FirstIndex(s, r[j])
        {
          assert r[i] == d[i] && r[i] in init;
          if j < |d| {
            assert r[j] == d[j] && r[j] in init;
            assert FirstIndex(init, d[i]) < FirstIndex(init, d[j]);
          } else {
            assert r[j] == last;
          }
        }
      } else {
        assert r == d;
        forall i, j | 0 <= i < j < |r|
          ensures FirstIndex(s, r[i]) < FirstIndex(s, r[j])
        {
          assert r[i] in init && r[j] in init;
          assert FirstIndex(init, d[i]) < FirstIndex(init, d[j]);
        }
      }
    }
  }

  /** `array_diff($a, $b)`: the values of `$a` that occur nowhere in `$b`,
      in the order of `$a` (values are compared as strings). `array_diff($a,
      $b, $c)` is `ArrayDiff(a, b + c)`. PHP keeps the surviving values'
      original keys; only the values are modelled. */
  function ArrayDiff(a: seq<string>, b: seq<string>): (r: seq<string>)
    ensures forall x :: x in r <==> x in a && x !in b
    ensures forall x :: multiset(r)[x] == if x in b then 0 else multiset(a)[x]
    decreases |a|
  {
    if |a| == 0 then []
    else
      assert a == [a[0]] + a[1..];
      var rest := ArrayDiff(a[1..], b);
      if a[0] in b then rest else [a[0]] + rest
  }
}
