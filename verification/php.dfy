/**
 * The pieces of PHP value semantics that the logger relies on: ordered
 * associative arrays with string keys, `empty()`, `implode` and the decimal
 * rendering of integers. Both the aggregator and the file sink build on them.
 */
module Php {

  datatype Option<+T> = None | Some(value: T)

  /**
   * A PHP value as the text serialiser sees it: a scalar, held as its string
   * conversion (`true` is "1", `false` and `null` are ""), or an ordered array.
   */
  datatype Value = Scalar(s: string) | Arr(items: seq<(string, Value)>)

  /** An associative array of PHP values, such as custom metadata or a log record. */
  type Fields = seq<(string, Value)>

  /** PHP's `empty()` on a string: the empty string and "0" are falsy. */
  predicate FalsyString(s: string) {
    s == "" || s == "0"
  }

  /** PHP's `empty()` on a value. */
  predicate Empty(v: Value) {
    match v
    case Scalar(s) => FalsyString(s)
    case Arr(items) => items == []
  }

  /** The keys of an ordered array, in iteration order. */
  function Keys<V>(a: seq<(string, V)>): (ks: seq<string>)
    ensures |ks| == |a|
    ensures forall i :: 0 <= i < |a| ==> ks[i] == a[i].0
  {
    if a == [] then [] else [a[0].0] + Keys(a[1..])
  }

  /** No key occurs twice: the shape of every real PHP array. */
  predicate Distinct<V>(a: seq<(string, V)>) {
    forall i, j :: 0 <= i < j < |a| ==> a[i].0 != a[j].0
  }

  /** `$a[$k]`, with `None` for a missing key. */
  function Get<V>(a: seq<(string, V)>, k: string): (r: Option<V>)
    ensures r.Some? <==> k in Keys(a)
  {
    if a == [] then None
    else if a[0].0 == k then Some(a[0].1)
    else Get(a[1..], k)
  }

  /** `$a[$k] = $v`: an existing key keeps its position, a new key goes last. */
  function Set<V>(a: seq<(string, V)>, k: string, v: V): (r: seq<(string, V)>)
    ensures Get(r, k) == Some(v)
    ensures forall j :: j != k ==> Get(r, j) == Get(a, j)
    ensures k in Keys(a) ==> Keys(r) == Keys(a)
    ensures k !in Keys(a) ==> r == a + [(k, v)]
    ensures Distinct(a) ==> Distinct(r)
  {
    if a == [] then [(k, v)]
    else if a[0].0 == k then
      var r := [(k, v)] + a[1..];
      assert Keys(a) == [k] + Keys(a[1..]) && Keys(r) == [k] + Keys(a[1..]);
      assert r[1..] == a[1..];
      assert Distinct(a) ==> Distinct(r) by {
        if Distinct(a) {
          DistinctTail(a);
          DistinctHead(a);
          DistinctCons((k, v), a[1..]);
        }
      }
      r
    else
      var rest := Set(a[1..], k, v);
      var r := [a[0]] + rest;
      assert Keys(a) == [a[0].0] + Keys(a[1..]) && Keys(r) == [a[0].0] + Keys(rest);
      assert r[1..] == rest;
      assert k !in Keys(a[1..]) ==> r == a + [(k, v)] by {
        if k !in Keys(a[1..]) {
          assert [a[0]] + (a[1..] + [(k, v)]) == a + [(k, v)];
        }
      }
      assert Distinct(a) ==> Distinct(r) by {
        if Distinct(a) {
          DistinctTail(a);
          DistinctHead(a);
          assert Get(rest, a[0].0) == Get(a[1..], a[0].0);
          DistinctCons(a[0], rest);
        }
      }
      r
  }

  /** `unset($a[$k])`: every other entry keeps its value and order. */
  function Remove<V>(a: seq<(string, V)>, k: string): (r: seq<(string, V)>)
    ensures Get(r, k) == None
    ensures forall j :: j != k ==> Get(r, j) == Get(a, j)
    ensures Distinct(a) ==> Distinct(r)
    ensures k !in Keys(a) ==> r == a
    ensures |r| <= |a|
  {
    if a == [] then []
    else if a[0].0 == k then Remove(a[1..], k)
    else
      var rest := Remove(a[1..], k);
      assert Keys(a) == [a[0].0] + Keys(a[1..]);
      RemoveStep(a, k, rest);
      [a[0]] + rest
  }

  lemma RemoveStep<V>(a: seq<(string, V)>, k: string, rest: seq<(string, V)>)
    requires a != [] && a[0].0 != k
    requires Distinct(a[1..]) ==> Distinct(rest)
    requires forall j :: j != k ==> Get(rest, j) == Get(a[1..], j)
    ensures Distinct(a) ==> Distinct([a[0]] + rest)
  {
    if Distinct(a) {
      DistinctTail(a);
      assert Get(rest, a[0].0) == None by { DistinctHead(a); }
      DistinctCons(a[0], rest);
    }
  }

  /**
   * The array union `$a + $b`: every entry of `$a` stays where it is, and a key
   * of `$b` is added at the end only when `$a` lacks it.
   */
  function Union<V>(a: seq<(string, V)>, b: seq<(string, V)>): (r: seq<(string, V)>)
    ensures a <= r
    ensures forall k :: Get(r, k) == (if k in Keys(a) then Get(a, k) else Get(b, k))
    ensures Distinct(a) ==> Distinct(r)
    decreases |b|
  {
    if b == [] then a
    else if b[0].0 in Keys(a) then Union(a, b[1..])
    else
      GetAppend(a, b[0]);
      DistinctAppend(a, b[0]);
      Union(a + [b[0]], b[1..])
  }

  /**
   * `array_merge($a, $b)` for string keys: a key of `$b` overwrites the value
   * in `$a` (keeping its place) or is appended.
   */
  function Merge<V>(a: seq<(string, V)>, b: seq<(string, V)>): (r: seq<(string, V)>)
    requires Distinct(b)
    ensures forall k :: Get(r, k) == (if k in Keys(b) then Get(b, k) else Get(a, k))
    ensures Distinct(a) ==> Distinct(r)
    decreases |b|
  {
    if b == [] then a
    else
      var a' := Set(a, b[0].0, b[0].1);
      DistinctTail(b);
      DistinctHead(b);
      var r := Merge(a', b[1..]);
      forall k ensures Get(r, k) == (if k in Keys(b) then Get(b, k) else Get(a, k)) {
        assert Keys(b) == [b[0].0] + Keys(b[1..]);
        if k !in Keys(b[1..]) && k != b[0].0 {
          assert Get(r, k) == Get(a', k);
        }
      }
      r
  }

  lemma DistinctTail<V>(a: seq<(string, V)>)
    requires Distinct(a) && a != []
    ensures Distinct(a[1..])
  {
    forall i, j | 0 <= i < j < |a[1..]| ensures a[1..][i].0 != a[1..][j].0 {
      assert a[1..][i] == a[i + 1] && a[1..][j] == a[j + 1];
    }
  }

  lemma DistinctHead<V>(a: seq<(string, V)>)
    requires Distinct(a) && a != []
    ensures a[0].0 !in Keys(a[1..])
  {
    forall j | 0 <= j < |a| - 1 ensures Keys(a[1..])[j] != a[0].0 {
      assert a[1..][j] == a[j + 1];
    }
  }

  lemma DistinctCons<V>(x: (string, V), r: seq<(string, V)>)
    requires Distinct(r) && x.0 !in Keys(r)
    ensures Distinct([x] + r)
  {
    var s := [x] + r;
    forall i, j | 0 <= i < j < |s| ensures s[i].0 != s[j].0 {
      if i == 0 {
        assert s[j] == r[j - 1] && Keys(r)[j - 1] == r[j - 1].0;
      } else {
        assert s[i] == r[i - 1] && s[j] == r[j - 1];
      }
    }
  }

  lemma DistinctAppend<V>(a: seq<(string, V)>, x: (string, V))
    requires x.0 !in Keys(a)
    ensures Distinct(a) ==> Distinct(a + [x])
  {
    var s := a + [x];
    forall i, j | 0 <= i < j < |s| && Distinct(a) ensures s[i].0 != s[j].0 {
      if j == |a| {
        assert s[i] == a[i] && Keys(a)[i] == a[i].0;
      } else {
        assert s[i] == a[i] && s[j] == a[j];
      }
    }
  }

  lemma GetAppend<V>(a: seq<(string, V)>, x: (string, V))
    ensures forall k :: (Get(a + [x], k)
      == if k in Keys(a) then Get(a, k) else if k == x.0 then Some(x.1) else None)
  {
    if a != [] {
      assert (a + [x])[1..] == a[1..] + [x];
      GetAppend(a[1..], x);
    }
  }

  /** Unsetting a key that was just appended gives the array back. */
  lemma {:induction false} RemoveLast<V>(a: seq<(string, V)>, k: string, v: V)
    requires k !in Keys(a)
    ensures Remove(a + [(k, v)], k) == a
    decreases |a|
  {
    if a == [] {
      assert Remove([(k, v)], k) == Remove([], k);
    } else {
      assert Keys(a) == [a[0].0] + Keys(a[1..]);
      assert (a + [(k, v)])[1..] == a[1..] + [(k, v)];
      RemoveLast(a[1..], k, v);
      assert [a[0]] + a[1..] == a;
    }
  }

  /** The entry at index `i` is what `$a[$k]` finds when no earlier entry has its key. */
  lemma {:induction false} GetIndex<V>(a: seq<(string, V)>, i: nat)
    requires i < |a|
    requires forall j :: 0 <= j < i ==> a[j].0 != a[i].0
    ensures Get(a, a[i].0) == Some(a[i].1)
    decreases i
  {
    if i > 0 {
      assert a[1..][i - 1] == a[i];
      forall j | 0 <= j < i - 1 ensures a[1..][j].0 != a[1..][i - 1].0 {
        assert a[1..][j] == a[j + 1];
      }
      GetIndex(a[1..], i - 1);
    }
  }

  /** `implode($sep, $parts)`. */
  function Join(parts: seq<string>, sep: string): (r: string)
    ensures parts == [] ==> r == ""
    ensures |parts| == 1 ==> r == parts[0]
  {
    if parts == [] then ""
    else if |parts| == 1 then parts[0]
    else parts[0] + sep + Join(parts[1..], sep)
  }

  /** Two arrays with the same keys in the same order find a key at the same index. */
  lemma {:induction false} GetSameKeys<V, W>(a: seq<(string, V)>, b: seq<(string, W)>, k: string)
    requires Keys(a) == Keys(b) && k in Keys(a)
    ensures exists i :: 0 <= i < |a| && Get(a, k) == Some(a[i].1) && Get(b, k) == Some(b[i].1)
    decreases |a|
  {
    assert a[0].0 == Keys(a)[0] == Keys(b)[0] == b[0].0;
    if a[0].0 == k {
      assert Get(a, k) == Some(a[0].1) && Get(b, k) == Some(b[0].1);
    } else {
      assert Keys(a) == [a[0].0] + Keys(a[1..]) && Keys(b) == [b[0].0] + Keys(b[1..]);
      GetSameKeys(a[1..], b[1..], k);
      var i :| 0 <= i < |a[1..]| && Get(a[1..], k) == Some(a[1..][i].1) && Get(b[1..], k) == Some(b[1..][i].1);
      assert a[1..][i] == a[i + 1] && b[1..][i] == b[i + 1];
    }
  }

  lemma KeysConcat<V>(a: seq<(string, V)>, b: seq<(string, V)>)
    ensures Keys(a + b) == Keys(a) + Keys(b)
  {
    assert forall i :: 0 <= i < |a + b| ==> Keys(a + b)[i] == (a + b)[i].0;
  }

  /** Concatenation regroups freely. */
  lemma Assoc<T>(a: seq<T>, b: seq<T>, c: seq<T>)
    ensures (a + b) + c == a + (b + c)
  {
  }

  /** The value of a decimal digit; any other character counts as 0. */
  function DigitValue(c: char): nat {
    if '0' <= c <= '9' then c as int - '0' as int else 0
  }

  /** The number a string of decimal digits denotes, read left to right. */
  function DecimalValue(s: string): nat {
    if s == [] then 0 else DecimalValue(s[..|s| - 1]) * 10 + DigitValue(s[|s| - 1])
  }

  /**
   * The decimal digits of a natural number, as PHP prints an integer: digits
   * only, no leading zero, and they read back as the number.
   */
  function NatToString(n: nat): (r: string)
    ensures |r| >= 1
    ensures forall i :: 0 <= i < |r| ==> '0' <= r[i] <= '9'
    ensures r[0] != '0' || r == "0"
    ensures DecimalValue(r) == n
  {
    if n < 10 then
      var r := [Digit(n)];
      assert r[..0] == [];
      r
    else
      var front := NatToString(n / 10);
      var r := front + [Digit(n % 10)];
      assert r[..|r| - 1] == front;
      assert front[..0] == [] && (|front| == 1 ==> DecimalValue(front) == DigitValue(front[0]));
      r
  }

  /** Different numbers print differently. */
  lemma NatToStringInjective(a: nat, b: nat)
    requires NatToString(a) == NatToString(b)
    ensures a == b
  {
  }

  function Digit(d: nat): (c: char)
    requires d < 10
    ensures '0' <= c <= '9'
    ensures DigitValue(c) == d
  {
    ('0' as int + d) as char
  }
}
