/** Facts about strings needed to read a rendered version back. */
module Text {

  /** The number of occurrences of `c` in `s`. */
  function Count(s: string, c: char): (k: nat)
    ensures k <= |s|
    ensures k == 0 <==> c !in s
  {
    if s == [] then 0 else Count(s[1..], c) + (if s[0] == c then 1 else 0)
  }

  lemma {:induction false} CountConcat(a: string, b: string, c: char)
    ensures Count(a + b, c) == Count(a, c) + Count(b, c)
  {
    if a == [] {
      assert a + b == b;
    } else {
      assert (a + b)[1..] == a[1..] + b;
      CountConcat(a[1..], b, c);
    }
  }

  /** No character of `s` is in `stop`. */
  predicate Avoids(s: string, stop: set<char>) {
    forall i :: 0 <= i < |s| ==> s[i] !in stop
  }

  /** `t` is empty or opens with a character of `stop`. */
  predicate StartsIn(t: string, stop: set<char>) {
    t == [] || t[0] in stop
  }

  /** The index of the first character of `s` in `stop`, or `|s|` if there is none. */
  function FirstIn(s: string, stop: set<char>): (k: nat)
    ensures k <= |s|
    ensures Avoids(s[..k], stop)
    ensures k < |s| ==> s[k] in stop
  {
    if s == [] || s[0] in stop then 0 else 1 + FirstIn(s[1..], stop)
  }

  lemma {:induction false} FirstInAfter(x: string, t: string, stop: set<char>)
    requires Avoids(x, stop) && StartsIn(t, stop)
    ensures FirstIn(x + t, stop) == |x|
  {
    if x == [] {
      assert x + t == t;
    } else {
      assert (x + t)[1..] == x[1..] + t;
      FirstInAfter(x[1..], t, stop);
    }
  }
}
