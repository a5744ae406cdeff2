/** The list of tracked account IDs handed to rule setup (stream.go:109-113):
    the keys of the ID-to-channels map, collected in the map's unspecified
    iteration order and then sorted with `sort.Strings`. */
module SortedIDs {

  /** Go's `<` on strings: bytewise lexicographic, a proper prefix first. */
  predicate Less(a: string, b: string)
    ensures Less(a, b) ==> a != b
    ensures |a| < |b| && a == b[..|a|] ==> Less(a, b)
    decreases |a|
  {
    if |a| == 0 then |b| > 0
    else if |b| == 0 then false
    else if a[0] != b[0] then a[0] < b[0]
    else Less(a[1..], b[1..])
  }

  lemma {:induction false} LessIrreflexive(a: string)
    ensures !Less(a, a)
    decreases |a|
  {
    if |a| > 0 { LessIrreflexive(a[1..]); }
  }

  lemma {:induction false} LessTransitive(a: string, b: string, c: string)
    requires Less(a, b) && Less(b, c)
    ensures Less(a, c)
    decreases |a|
  {
    if |a| > 0 && a[0] == b[0] && b[0] == c[0] {
      LessTransitive(a[1..], b[1..], c[1..]);
    }
  }

  lemma {:induction false} LessTotal(a: string, b: string)
    requires a != b
    ensures Less(a, b) || Less(b, a)
    decreases |a|
  {
    if |a| > 0 && |b| > 0 && a[0] == b[0] {
      assert a == [a[0]] + a[1..] && b == [b[0]] + b[1..];
      LessTotal(a[1..], b[1..]);
    }
  }

  lemma LessAsymmetric(a: string, b: string)
    requires Less(a, b)
    ensures !Less(b, a)
  {
    if Less(b, a) {
      LessTransitive(a, b, a);
      LessIrreflexive(a);
    }
  }

  /** Ascending with no repeats. */
  ghost predicate StrictlySorted(s: seq<string>)
  {
    forall i, j :: 0 <= i < j < |s| ==> Less(s[i], s[j])
  }

  ghost predicate Distinct(s: seq<string>)
  {
    forall i, j :: 0 <= i < j < |s| ==> s[i] != s[j]
  }

  /** Inserts `x` at its place in an ascending sequence. */
  function Insert(s: seq<string>, x: string): seq<string>
    decreases |s|
  {
    if |s| == 0 then [x]
    else if Less(x, s[0]) then [x] + s
    else [s[0]] + Insert(s[1..], x)
  }

  lemma {:induction false} InsertSorted(s: seq<string>, x: string)
    requires StrictlySorted(s) && x !in s
    ensures StrictlySorted(Insert(s, x))
    ensures forall y :: y in Insert(s, x) <==> y in s || y == x
    ensures |Insert(s, x)| == |s| + 1
    decreases |s|
  {
    if |s| > 0 && !Less(x, s[0]) {
      assert x != s[0];
      LessTotal(x, s[0]);
      InsertSorted(s[1..], x);
      var t := Insert(s, x);
      assert t == [s[0]] + Insert(s[1..], x);
      forall i, j | 0 <= i < j < |t| ensures Less(t[i], t[j]) {
        if i == 0 {
          assert t[j] in s[1..] || t[j] == x;
          if t[j] != x {
            var k :| 0 <= k < |s[1..]| && s[1..][k] == t[j];
            assert s[k + 1] == t[j];
          }
        }
      }
    } else if |s| > 0 {
      var t := [x] + s;
      forall i, j | 0 <= i < j < |t| ensures Less(t[i], t[j]) {
        if i == 0 && j > 1 {
          LessTransitive(x, s[0], s[j - 1]);
        }
      }
    }
  }

  /** The collection loop and `sort.Strings` of stream.go:109-113. */
  method SortedKeys(idToChannels: map<string, seq<string>>) returns (ids: seq<string>)
    ensures StrictlySorted(ids)
    ensures forall k :: k in ids <==> k in idToChannels
    ensures |ids| == |idToChannels|
  {
    var twIDs: seq<string> := [];
    var rest := idToChannels.Keys;
    while rest != {}
      invariant rest <= idToChannels.Keys
      invariant forall k :: k in twIDs <==> k in idToChannels && k !in rest
      invariant Distinct(twIDs)
      invariant |twIDs| + |rest| == |idToChannels.Keys|
      decreases rest
    {
      var id :| id in rest;
      twIDs := twIDs + [id];
      rest := rest - {id};
    }
    ids := [];
    for i := 0 to |twIDs|
      invariant StrictlySorted(ids)
      invariant forall k :: k in ids <==> k in twIDs[..i]
      invariant |ids| == i
    {
      assert twIDs[i] !in twIDs[..i];
      InsertSorted(ids, twIDs[i]);
      ids := Insert(ids, twIDs[i]);
      assert twIDs[..i + 1] == twIDs[..i] + [twIDs[i]];
    }
    assert twIDs[..|twIDs|] == twIDs;
  }

  lemma HeadIsElement(s: seq<string>)
    ensures |s| > 0 ==> s[0] in s
  {
  }

  /** An ascending sequence without repeats is determined by its elements,
      so the result does not depend on the map's iteration order. */
  lemma {:induction false} SortedUnique(a: seq<string>, b: seq<string>)
    requires StrictlySorted(a) && StrictlySorted(b)
    requires forall x :: x in a <==> x in b
    ensures a == b
    decreases |a|
  {
    if |a| == 0 {
      HeadIsElement(b);
    } else {
      assert a[0] in b;
      assert |b| > 0;
      if a[0] != b[0] {
        var j :| 0 <= j < |b| && b[j] == a[0];
        assert b[0] in a;
        var i :| 0 <= i < |a| && a[i] == b[0];
        assert Less(b[0], a[0]);
        assert Less(a[0], b[0]);
        LessAsymmetric(a[0], b[0]);
      }
      forall x ensures x in a[1..] <==> x in b[1..] {
        if x in a[1..] {
          var k :| 0 <= k < |a[1..]| && a[1..][k] == x;
          assert Less(a[0], a[k + 1]);
          LessIrreflexive(x);
          assert x in b && x != b[0];
        }
        if x in b[1..] {
          var k :| 0 <= k < |b[1..]| && b[1..][k] == x;
          assert Less(b[0], b[k + 1]);
          LessIrreflexive(x);
          assert x in a && x != a[0];
        }
      }
      SortedUnique(a[1..], b[1..]);
      assert a == [a[0]] + a[1..] && b == [b[0]] + b[1..];
    }
  }
}
