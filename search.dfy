/** `Array.prototype.find`: the first element, in order, that satisfies a predicate. */
module Search {

  import opened Wrappers

  /** Index `i` holds the first element of `s` that satisfies `p`. */
  ghost predicate FirstMatchAt<T>(s: seq<T>, p: T -> bool, i: int) {
    0 <= i < |s| && p(s[i]) && forall j :: 0 <= j < i ==> !p(s[j])
  }

  /** A linear scan from the front; `None` (JavaScript's `undefined`) on a miss. */
  function FindFirst<T>(s: seq<T>, p: T -> bool): (r: Option<T>)
    ensures r.None? <==> forall i :: 0 <= i < |s| ==> !p(s[i])
    ensures r.Some? ==> exists i :: FirstMatchAt(s, p, i) && s[i] == r.value
    decreases |s|
  {
    if |s| == 0 then None
    else if p(s[0]) then
      assert FirstMatchAt(s, p, 0);
      Some(s[0])
    else
      assert forall i :: FirstMatchAt(s[1..], p, i) ==> FirstMatchAt(s, p, i + 1);
      FindFirst(s[1..], p)
  }

  /** The first match is unique: when `i` is the first match, the scan returns `s[i]`. */
  lemma FindFirstAt<T>(s: seq<T>, p: T -> bool, i: int)
    requires FirstMatchAt(s, p, i)
    ensures FindFirst(s, p) == Some(s[i])
  {
    var r := FindFirst(s, p);
    assert p(s[i]);
    assert r.Some?;
    var k :| FirstMatchAt(s, p, k) && s[k] == r.value;
    assert k == i;
  }

  /** Predicates that agree on every element of `s` find the same element. */
  lemma {:induction false} FindFirstCongruent<T>(s: seq<T>, p: T -> bool, q: T -> bool)
    requires forall x :: x in s ==> p(x) == q(x)
    ensures FindFirst(s, p) == FindFirst(s, q)
    decreases |s|
  {
    if |s| > 0 {
      assert s[0] in s;
      assert forall x :: x in s[1..] ==> x in s;
      FindFirstCongruent(s[1..], p, q);
    }
  }
}
