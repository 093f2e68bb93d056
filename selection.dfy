/**
 * Python's min(xs, key=f) and max(xs, key=f) scan left to right and replace the
 * running choice only on a strict improvement, so they return the FIRST element
 * with the least (greatest) key.
 */
module Selection {

  /** Position of the first element with the least key. */
  function ArgMinBy<T>(s: seq<T>, key: T -> int): (k: nat)
    requires |s| > 0
    ensures k < |s|
    ensures forall j :: 0 <= j < |s| ==> key(s[k]) <= key(s[j])
    ensures forall j :: 0 <= j < k ==> key(s[k]) < key(s[j])
    decreases |s|
  {
    if |s| == 1 then 0
    else
      var k := ArgMinBy(s[..|s| - 1], key);
      if key(s[|s| - 1]) < key(s[k]) then |s| - 1 else k
  }

  /** Position of the first element with the greatest key. */
  function ArgMaxBy<T>(s: seq<T>, key: T -> int): (k: nat)
    requires |s| > 0
    ensures k < |s|
    ensures forall j :: 0 <= j < |s| ==> key(s[j]) <= key(s[k])
    ensures forall j :: 0 <= j < k ==> key(s[j]) < key(s[k])
    decreases |s|
  {
    if |s| == 1 then 0
    else
      var k := ArgMaxBy(s[..|s| - 1], key);
      if key(s[|s| - 1]) > key(s[k]) then |s| - 1 else k
  }

  /** The first-least position is the only one that is least and beaten strictly by all before it. */
  lemma ArgMinUnique<T>(s: seq<T>, key: T -> int, k: nat)
    requires k < |s|
    requires forall j :: 0 <= j < |s| ==> key(s[k]) <= key(s[j])
    requires forall j :: 0 <= j < k ==> key(s[k]) < key(s[j])
    ensures ArgMinBy(s, key) == k
  {
  }

  lemma ArgMaxUnique<T>(s: seq<T>, key: T -> int, k: nat)
    requires k < |s|
    requires forall j :: 0 <= j < |s| ==> key(s[j]) <= key(s[k])
    requires forall j :: 0 <= j < k ==> key(s[j]) < key(s[k])
    ensures ArgMaxBy(s, key) == k
  {
  }
}
