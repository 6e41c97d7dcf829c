/** Ordering and containment of dotted-decimal OID strings: oidFollowsOid and
    oidInSubtree. */
module Oid {
  import opened SnmpTypes

  // ---------------------------------------------------------------------
  // Reading the numeric components of an OID string
  // ---------------------------------------------------------------------

  /** Accumulates the decimal component starting at i (with n read so far)
      up to the next '.' or the end; the second result is the index just
      after the '.' that ended it, or |s|. Each character counts as its code
      minus 48, so a non-digit is not rejected, as in the source. */
  function ScanNumber(s: string, i: nat, n: int): (r: (int, nat))
    requires i <= |s|
    ensures i < |s| ==> i < r.1 <= |s|
    ensures i == |s| ==> r == (n, i)
    decreases |s| - i
  {
    if i == |s| then (n, i)
    else if s[i] == '.' then (n, i + 1)
    else ScanNumber(s, i + 1, n * 10 + (s[i] as int - 48))
  }

  /** The components getNumber yields from index i on, in order. A trailing
      '.' does not start an empty component; "" has no components. */
  function Components(s: string, i: nat := 0): (r: seq<int>)
    requires i <= |s|
    ensures i < |s| <==> |r| > 0
    decreases |s| - i
  {
    if i == |s| then []
    else
      var (n, j) := ScanNumber(s, i, 0);
      [n] + Components(s, j)
  }

  /** The ordering oidFollowsOid decides, on component sequences: walk both
      from the left; a larger component in `next` answers true, a smaller one
      false, and running out of either sequence answers true. */
  function Follows(oid: seq<int>, next: seq<int>): bool
  {
    if |oid| == 0 || |next| == 0 then true
    else if next[0] > oid[0] then true
    else if next[0] < oid[0] then false
    else Follows(oid[1..], next[1..])
  }

  /** getNumber: reads one component of s from cursor idx, or None when the
      cursor is already at the end. */
  method GetNumber(s: string, idx: nat) returns (num: Option<int>, idx': nat)
    requires idx <= |s|
    ensures idx == |s| ==> num == None && idx' == idx
    ensures idx < |s| ==> num == Some(ScanNumber(s, idx, 0).0) && idx' == ScanNumber(s, idx, 0).1
  {
    idx' := idx;
    if idx' >= |s| {
      return None, idx';
    }
    var n := 0;
    while idx' < |s|
      invariant idx < idx' <= |s| || (idx' == idx && n == 0)
      invariant ScanNumber(s, idx', n) == ScanNumber(s, idx, 0)
      decreases |s| - idx'
    {
      var c := s[idx'];
      idx' := idx' + 1;
      if c == '.' {
        return Some(n), idx';
      }
      n := (if n != 0 then n * 10 else n) + (c as int - 48);
    }
    return Some(n), idx';
  }

  /** oidFollowsOid: true when nextString is not numerically smaller than
      oidString at the first component where they differ (in particular when
      they are equal or one is a prefix of the other). */
  method OidFollowsOid(oidString: string, nextString: string) returns (r: bool)
    ensures r == Follows(Components(oidString), Components(nextString))
  {
    var oidIdx: nat, nextIdx: nat := 0, 0;
    while true
      invariant oidIdx <= |oidString| && nextIdx <= |nextString|
      invariant Follows(Components(oidString, oidIdx), Components(nextString, nextIdx))
             == Follows(Components(oidString), Components(nextString))
      decreases |oidString| - oidIdx
    {
      var oidNumber, oidIdx' := GetNumber(oidString, oidIdx);
      var nextNumber, nextIdx' := GetNumber(nextString, nextIdx);
      if oidNumber.Some? {
        if nextNumber.Some? {
          if nextNumber.value > oidNumber.value {
            return true;
          } else if nextNumber.value < oidNumber.value {
            return false;
          }
        } else {
          return true;
        }
      } else {
        return true;
      }
      oidIdx, nextIdx := oidIdx', nextIdx';
    }
  }

  // ---------------------------------------------------------------------
  // Properties of the ordering
  // ---------------------------------------------------------------------

  /** At some position both have, the sequences agree before it and next is
      smaller there. */
  ghost predicate SmallerAtFirstDifference(oid: seq<int>, next: seq<int>)
  {
    exists k :: 0 <= k < |oid| && k < |next| && oid[..k] == next[..k] && next[k] < oid[k]
  }

  /** Follows is false exactly when next is smaller at the first position
      where the two differ. */
  lemma {:induction false} FollowsIff(oid: seq<int>, next: seq<int>)
    ensures !Follows(oid, next) <==> SmallerAtFirstDifference(oid, next)
    decreases |oid|
  {
    if |oid| == 0 || |next| == 0 {
    } else if next[0] > oid[0] {
    } else if next[0] < oid[0] {
      assert oid[..0] == next[..0];
    } else {
      FollowsIff(oid[1..], next[1..]);
      if SmallerAtFirstDifference(oid[1..], next[1..]) {
        var k :| 0 <= k < |oid[1..]| && k < |next[1..]| && oid[1..][..k] == next[1..][..k] && next[1..][k] < oid[1..][k];
        assert oid[..k + 1] == [oid[0]] + oid[1..][..k];
        assert next[..k + 1] == [next[0]] + next[1..][..k];
      }
      if SmallerAtFirstDifference(oid, next) {
        var k :| 0 <= k < |oid| && k < |next| && oid[..k] == next[..k] && next[k] < oid[k];
        assert k > 0;
        assert oid[1..][..k - 1] == oid[..k][1..];
        assert next[1..][..k - 1] == next[..k][1..];
      }
    }
  }

  /** Every OID follows itself. */
  lemma {:induction false} FollowsReflexive(oid: seq<int>)
    ensures Follows(oid, oid)
    decreases |oid|
  {
    if |oid| > 0 {
      FollowsReflexive(oid[1..]);
    }
  }

  /** An OID follows every prefix of itself and every extension of itself. */
  lemma {:induction false} FollowsPrefixes(oid: seq<int>, next: seq<int>)
    requires next <= oid || oid <= next
    ensures Follows(oid, next)
    decreases |oid|
  {
    if |oid| > 0 && |next| > 0 {
      assert oid[0] == next[0];
      FollowsPrefixes(oid[1..], next[1..]);
    }
  }

  /** Of any two OIDs, at least one follows the other. */
  lemma {:induction false} FollowsTotal(a: seq<int>, b: seq<int>)
    ensures Follows(a, b) || Follows(b, a)
    decreases |a|
  {
    if |a| > 0 && |b| > 0 && a[0] == b[0] {
      FollowsTotal(a[1..], b[1..]);
    }
  }

  /** Both directions hold only when one sequence is a prefix of the other. */
  lemma {:induction false} FollowsBothWays(a: seq<int>, b: seq<int>)
    requires Follows(a, b) && Follows(b, a)
    ensures a <= b || b <= a
    decreases |a|
  {
    if |a| > 0 && |b| > 0 {
      FollowsBothWays(a[1..], b[1..]);
    }
  }

  /** Components are compared as numbers, not as text: "1.10" follows "1.9",
      and "1.9" does not follow "1.10". */
  lemma NumericNotTextual()
    ensures Components("1.9") == [1, 9] && Components("1.10") == [1, 10]
    ensures Follows(Components("1.9"), Components("1.10"))
    ensures !Follows(Components("1.10"), Components("1.9"))
  {
    assert ScanNumber("1.9", 0, 0) == (1, 2);
    assert ScanNumber("1.9", 2, 0) == (9, 3);
    assert Components("1.9", 3) == [];
    assert ScanNumber("1.10", 0, 0) == (1, 2);
    assert ScanNumber("1.10", 3, 1) == (10, 4);
    assert ScanNumber("1.10", 2, 0) == (10, 4);
    assert Components("1.10", 4) == [];
  }

  // ---------------------------------------------------------------------
  // Subtree containment
  // ---------------------------------------------------------------------

  /** String.prototype.split(".") : always at least one part, "" gives [""]. */
  function Split(s: string): (r: seq<string>)
    ensures |r| >= 1
  {
    if |s| == 0 then [""]
    else
      var rest := Split(s[1..]);
      if s[0] == '.' then [""] + rest
      else [[s[0]] + rest[0]] + rest[1..]
  }

  /** Array.prototype.join("."), the inverse of Split. */
  function Join(parts: seq<string>): string
    requires |parts| >= 1
  {
    if |parts| == 1 then parts[0] else parts[0] + "." + Join(parts[1..])
  }

  /** oidInSubtree: false when the root has more parts than the candidate,
      otherwise true iff every part of the root equals, as a string, the
      part of the candidate at the same position. */
  function OidInSubtree(oidString: string, nextString: string): (r: bool)
  {
    var oid := Split(oidString);
    var next := Split(nextString);
    if |oid| > |next| then false
    else forall i :: 0 <= i < |oid| ==> next[i] == oid[i]
  }

  lemma {:induction false} SplitAppend(a: string, b: string)
    ensures Split(a + "." + b) == Split(a) + Split(b)
    decreases |a|
  {
    if |a| == 0 {
      assert a + "." + b == "." + b;
      assert ("." + b)[1..] == b;
    } else {
      assert (a + "." + b)[1..] == a[1..] + "." + b;
      SplitAppend(a[1..], b);
    }
  }

  lemma {:induction false} JoinSplit(s: string)
    ensures Join(Split(s)) == s
    decreases |s|
  {
    if |s| > 0 {
      JoinSplit(s[1..]);
      var rest := Split(s[1..]);
      if s[0] != '.' && |rest| > 1 {
        assert Split(s)[1..] == rest[1..];
      }
    }
  }

  lemma {:induction false} JoinAppend(a: seq<string>, b: seq<string>)
    requires |a| >= 1 && |b| >= 1
    ensures Join(a + b) == Join(a) + "." + Join(b)
    decreases |a|
  {
    if |a| > 1 {
      assert (a + b)[1..] == a[1..] + b;
      JoinAppend(a[1..], b);
    } else {
      assert (a + b)[1..] == b;
    }
  }

  /** Containment on strings: the candidate is the root itself or starts
      with the root followed by a '.'. */
  lemma OidInSubtreeIff(oidString: string, nextString: string)
    ensures OidInSubtree(oidString, nextString)
        <==> nextString == oidString || oidString + "." <= nextString
  {
    var oid, next := Split(oidString), Split(nextString);
    if OidInSubtree(oidString, nextString) {
      JoinSplit(oidString);
      JoinSplit(nextString);
      assert next == oid + next[|oid|..];
      if |oid| < |next| {
        JoinAppend(oid, next[|oid|..]);
      } else {
        assert next == oid;
      }
    }
    if oidString + "." <= nextString {
      var b := nextString[|oidString| + 1..];
      assert nextString == oidString + "." + b;
      SplitAppend(oidString, b);
    }
  }

  /** A string lies in its own subtree, and in no subtree whose root has
      more parts than it has. */
  lemma OidInSubtreeBounds(oidString: string, nextString: string)
    ensures OidInSubtree(oidString, oidString)
    ensures |Split(oidString)| > |Split(nextString)| ==> !OidInSubtree(oidString, nextString)
  {
  }
}
