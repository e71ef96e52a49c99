/**
 Raw keys and the order both store drivers sort them by: integers before text,
 text character by character (crates/prose-store/src/lib.rs:289-294).
 */
module StoreKeys {
  type i64 = x: int | -0x8000_0000_0000_0000 <= x < 0x8000_0000_0000_0000

  datatype RawKey = Integer(value: i64) | Text(text: string)

  predicate TextLess(a: string, b: string) {
    b != [] && (a == [] || a[0] < b[0] || (a[0] == b[0] && TextLess(a[1..], b[1..])))
  }

  predicate Less(a: RawKey, b: RawKey) {
    match (a, b)
    case (Integer(x), Integer(y)) => x < y
    case (Integer(_), Text(_)) => true
    case (Text(_), Integer(_)) => false
    case (Text(x), Text(y)) => TextLess(x, y)
  }

  predicate AtMost(a: RawKey, b: RawKey) { a == b || Less(a, b) }

  const LEAST := Integer(-0x8000_0000_0000_0000)

  /** A key above `k`; there is no greatest key. */
  function Above(k: RawKey): RawKey { if k.Text? then Text(k.text + ['a']) else Text("") }

  lemma {:induction false} TextOrderIsTotal(a: string, b: string)
    ensures !(TextLess(a, b) && TextLess(b, a)) && !TextLess(a, a)
    ensures TextLess(a, b) || a == b || TextLess(b, a)
  {
    if a != [] {
      TextOrderIsTotal(a[1..], if b == [] then [] else b[1..]);
      assert b != [] && a[0] == b[0] && a[1..] == b[1..] ==> a == [a[0]] + a[1..] == b;
    }
  }

  /** The first position at which `b` goes on after `a`, or in which it has the larger character. */
  ghost predicate Smaller(a: string, b: string, k: nat) {
    && k <= |a| && k < |b| && (forall i :: 0 <= i < k ==> a[i] == b[i])
    && (k == |a| || a[k] < b[k])
  }

  /** Text is ordered by the first character that differs, a prefix being smaller. */
  lemma {:induction false} TextOrderByFirstDifference(a: string, b: string)
    ensures TextLess(a, b) <==> exists k: nat :: Smaller(a, b, k)
  {
    if a != [] && b != [] && a[0] == b[0] {
      TextOrderByFirstDifference(a[1..], b[1..]);
      if k: nat :| Smaller(a, b, k) { SmallerInRest(a, b, k); }
      if k: nat :| Smaller(a[1..], b[1..], k) { SmallerWithHead(a, b, k); }
    } else if TextLess(a, b) {
      assert Smaller(a, b, 0);
    }
  }

  lemma SmallerInRest(a: string, b: string, k: nat)
    requires a != [] && b != [] && a[0] == b[0] && Smaller(a, b, k)
    ensures k > 0 && Smaller(a[1..], b[1..], k - 1)
  {
  }

  lemma SmallerWithHead(a: string, b: string, k: nat)
    requires a != [] && b != [] && a[0] == b[0] && Smaller(a[1..], b[1..], k)
    ensures Smaller(a, b, k + 1)
  {
    forall i | 0 <= i < k + 1 ensures a[i] == b[i] { if i > 0 { assert a[1..][i - 1] == b[1..][i - 1]; } }
  }

  lemma {:induction false} TextOrderIsTransitive(a: string, b: string, c: string)
    requires TextLess(a, b) && TextLess(b, c)
    ensures TextLess(a, c)
  {
    if a != [] && a[0] == b[0] == c[0] {
      TextOrderIsTransitive(a[1..], b[1..], c[1..]);
    }
  }

  lemma {:induction false} LongerTextIsAbove(t: string, c: char)
    ensures TextLess(t, t + [c])
  {
    if t != [] {
      LongerTextIsAbove(t[1..], c);
      assert (t + [c])[1..] == t[1..] + [c];
    }
  }

  /** `Less` is a strict total order. */
  lemma OrderIsTotal(a: RawKey, b: RawKey)
    ensures !(Less(a, b) && Less(b, a)) && !Less(a, a)
    ensures Less(a, b) || a == b || Less(b, a)
  {
    if a.Text? { TextOrderIsTotal(a.text, if b.Text? then b.text else []); }
  }

  lemma OrderIsTransitive(a: RawKey, b: RawKey, c: RawKey)
    requires Less(a, b) && Less(b, c)
    ensures Less(a, c)
  {
    if a.Text? { TextOrderIsTransitive(a.text, b.text, c.text); }
  }

  lemma AboveIsAbove(k: RawKey)
    ensures Less(k, Above(k))
  {
    if k.Text? { LongerTextIsAbove(k.text, 'a'); }
  }

  lemma LeastIsLeast(k: RawKey)
    ensures !Less(k, LEAST) && AtMost(LEAST, k)
  {
  }

  // ---- Tuples of keys ----

  type KeyTuple = seq<RawKey>

  function FirstDiff(a: KeyTuple, b: KeyTuple): (k: nat)
    ensures k <= |a| && k <= |b| && forall i :: 0 <= i < k ==> a[i] == b[i]
    ensures k < |a| && k < |b| ==> a[k] != b[k]
  {
    if a != [] && b != [] && a[0] == b[0] then
      var k := FirstDiff(a[1..], b[1..]);
      assert forall i :: 0 < i < k + 1 ==> a[i] == a[1..][i - 1] && b[i] == b[1..][i - 1];
      k + 1
    else 0
  }

  /** How IndexedDB compares array keys: by their first difference, a prefix being smaller. */
  predicate LexLess(a: KeyTuple, b: KeyTuple) {
    var k := FirstDiff(a, b);
    k < |b| && (k == |a| || Less(a[k], b[k]))
  }

  predicate LexAtMost(a: KeyTuple, b: KeyTuple) { a == b || LexLess(a, b) }

  /** Tuples of one length are ordered by the first column they differ in. */
  lemma LexByFirstDifference(a: KeyTuple, b: KeyTuple, k: nat)
    requires |a| == |b| && k < |a| && (forall i :: 0 <= i < k ==> a[i] == b[i]) && a[k] != b[k]
    ensures FirstDiff(a, b) == k && (LexLess(a, b) <==> Less(a[k], b[k]))
  {
  }

  lemma LexSame(a: KeyTuple)
    ensures FirstDiff(a, a) == |a| && !LexLess(a, a)
  {
  }
}
