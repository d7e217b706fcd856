/** Ascending sequences without repetition, and the one that lists a set. */
module Sorted {

  predicate Ascending(s: seq<nat>) {
    forall i, j :: 0 <= i < j < |s| ==> s[i] < s[j]
  }

  function Elements(s: seq<nat>): set<nat> {
    set h | h in s
  }

  lemma AscendingUnique(a: seq<nat>, b: seq<nat>)
    requires Ascending(a) && Ascending(b) && Elements(a) == Elements(b)
    ensures a == b
    decreases |a|
  {
    assert a != [] ==> a[0] in Elements(a);
    assert b != [] ==> b[0] in Elements(b);
    if a != [] && b != [] {
      forall h ensures h in Elements(a[1..]) <==> h in Elements(b[1..]) {
        assert h in Elements(a) <==> h in a[1..] || h == a[0];
        assert h in Elements(b) <==> h in b[1..] || h == b[0];
      }
      AscendingUnique(a[1..], b[1..]);
      assert a == [a[0]] + a[1..] && b == [b[0]] + b[1..];
    }
  }

  function AscendingOf(hs: set<nat>): (r: seq<nat>)
    ensures Ascending(r) && Elements(r) == hs
  {
    if hs == {} then []
    else
      var m := MaxOf(hs);
      var low := AscendingOf(hs - {m});
      assert forall h :: h in low ==> h in hs - {m} by {
        forall h | h in low ensures h in hs - {m} { assert h in Elements(low); }
      }
      assert Elements(low + [m]) == Elements(low) + {m};
      low + [m]
  }

  function MaxOf(hs: set<nat>): (m: nat)
    requires hs != {}
    ensures m in hs && forall h :: h in hs ==> h <= m
  {
    MaxExists(hs);
    var m :| m in hs && forall h :: h in hs ==> h <= m;
    m
  }

  lemma MaxExists(hs: set<nat>)
    requires hs != {}
    ensures exists m :: m in hs && forall h :: h in hs ==> h <= m
  {
    var m :| m in hs;
    if hs != {m} {
      MaxExists(hs - {m});
      var k :| k in hs - {m} && forall h :: h in hs - {m} ==> h <= k;
      var best := if k < m then m else k;
      assert best in hs;
      forall h | h in hs ensures h <= best { assert h == m || h in hs - {m}; }
    }
  }
}
