/** The produced-but-unsettled heights, kept as a sorted vector. */
module PendingStore {

  import opened Sorted

  /** The slot of `h`: everything before it is smaller, everything from it on is not. */
  method Slot(s: seq<nat>, h: nat) returns (pos: nat)
    requires Ascending(s)
    ensures pos <= |s|
    ensures forall i :: 0 <= i < pos ==> s[i] < h
    ensures forall i :: pos <= i < |s| ==> h <= s[i]
  {
    var lo, hi := 0, |s|;
    while lo < hi
      invariant 0 <= lo <= hi <= |s|
      invariant forall i :: 0 <= i < lo ==> s[i] < h
      invariant forall i :: hi <= i < |s| ==> h <= s[i]
    {
      var mid := (lo + hi) / 2;
      if s[mid] < h { lo := mid + 1; } else { hi := mid; }
    }
    return lo;
  }

  class PendingStore {
    var heights: seq<nat>

    ghost predicate Valid()
      reads this
    {
      Ascending(heights)
    }

    constructor ()
      ensures Valid() && heights == []
    {
      heights := [];
    }

    /** Idempotent. */
    method Mark(h: nat)
      requires Valid()
      modifies this
      ensures Valid() && Elements(heights) == Elements(old(heights)) + {h}
    {
      var pos := Slot(heights, h);
      if pos == |heights| || heights[pos] != h {
        ghost var was := heights;
        heights := heights[..pos] + [h] + heights[pos..];
        assert was == was[..pos] + was[pos..];
      } else {
        assert heights[pos] in heights;
      }
    }

    /** Idempotent. */
    method Clear(h: nat)
      requires Valid()
      modifies this
      ensures Valid() && Elements(heights) == Elements(old(heights)) - {h}
    {
      var pos := Slot(heights, h);
      if pos < |heights| && heights[pos] == h {
        ghost var was := heights;
        heights := heights[..pos] + heights[pos + 1..];
        assert was == was[..pos] + [h] + was[pos + 1..];
      } else {
        assert h !in heights;
      }
    }

    method Pending() returns (r: seq<nat>)
      requires Valid()
      ensures r == AscendingOf(Elements(heights))
    {
      AscendingUnique(heights, AscendingOf(Elements(heights)));
      return heights;
    }
  }
}
