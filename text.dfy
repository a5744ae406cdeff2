/** String helpers with the meaning of Go's `strings` package.
    A Go string is a byte sequence; here each char stands for one byte,
    so `|s|` is Go's `len(s)`. */
module Text {

  /** `strings.Join(parts, sep)`: the parts with `sep` between neighbours;
      `Join([], sep)` is the empty string. */
  function Join(parts: seq<string>, sep: string): (r: string)
    ensures |parts| > 0 ==> |r| >= |parts[0]| && r[..|parts[0]|] == parts[0]
    decreases |parts|
  {
    if |parts| == 0 then ""
    else if |parts| == 1 then parts[0]
    else parts[0] + sep + Join(parts[1..], sep)
  }

  /** The total length of the parts. */
  function SumLen(parts: seq<string>): nat
    decreases |parts|
  {
    if |parts| == 0 then 0 else |parts[0]| + SumLen(parts[1..])
  }

  lemma {:induction false} SumLenSnoc(parts: seq<string>, s: string)
    ensures SumLen(parts + [s]) == SumLen(parts) + |s|
    decreases |parts|
  {
    if |parts| == 0 {
      assert parts + [s] == [s];
    } else {
      assert (parts + [s])[1..] == parts[1..] + [s];
      SumLenSnoc(parts[1..], s);
    }
  }

  /** Appending one more part adds one separator and the part. */
  lemma {:induction false} JoinSnoc(parts: seq<string>, s: string, sep: string)
    requires |parts| > 0
    ensures Join(parts + [s], sep) == Join(parts, sep) + sep + s
    decreases |parts|
  {
    if |parts| == 1 {
      assert parts + [s] == [parts[0], s];
      assert [parts[0], s][1..] == [s];
    } else {
      assert (parts + [s])[1..] == parts[1..] + [s];
      JoinSnoc(parts[1..], s, sep);
    }
  }

  /** A join of n parts holds n - 1 separators. */
  lemma {:induction false} JoinLength(parts: seq<string>, sep: string)
    requires |parts| > 0
    ensures |Join(parts, sep)| == SumLen(parts) + |sep| * (|parts| - 1)
    ensures |Join(parts, sep)| >= |parts[0]|
    decreases |parts|
  {
    if |parts| > 1 {
      JoinLength(parts[1..], sep);
      calc {
        |sep| * (|parts| - 1);
        |sep| * ((|parts| - 2) + 1);
        |sep| * (|parts| - 2) + |sep|;
      }
    }
  }

  /** Splits `s` at every occurrence of `sep`, scanning left to right,
      as Go's `strings.Split` does for a non-empty separator. */
  function Split(s: string, sep: string): (pieces: seq<string>)
    requires |sep| > 0
    ensures |pieces| > 0
    decreases |s|
  {
    if |s| < |sep| then [s]
    else if s[..|sep|] == sep then [""] + Split(s[|sep|..], sep)
    else
      var rest := Split(s[1..], sep);
      [[s[0]] + rest[0]] + rest[1..]
  }

  /** A string without the separator's first character is not split. */
  lemma {:induction false} SplitPlain(c: string, sep: string)
    requires |sep| > 0 && sep[0] !in c
    ensures Split(c, sep) == [c]
    decreases |c|
  {
    if |c| >= |sep| {
      assert c[..|sep|][0] == c[0] != sep[0];
      assert sep[0] !in c[1..] by {
        forall i | 0 <= i < |c[1..]| ensures c[1..][i] != sep[0] {
          assert c[1..][i] == c[i + 1];
        }
      }
      SplitPlain(c[1..], sep);
      assert [c[0]] + c[1..] == c;
    }
  }

  /** The first separator after a plain piece cuts there. */
  lemma {:induction false} SplitCons(c: string, t: string, sep: string)
    requires |sep| > 0 && sep[0] !in c
    ensures Split(c + sep + t, sep) == [c] + Split(t, sep)
    decreases |c|
  {
    var s := c + sep + t;
    if |c| == 0 {
      assert s == sep + t;
      assert s[..|sep|] == sep;
      assert s[|sep|..] == t;
    } else {
      assert s[..|sep|][0] == c[0] != sep[0];
      assert sep[0] !in c[1..] by {
        forall i | 0 <= i < |c[1..]| ensures c[1..][i] != sep[0] {
          assert c[1..][i] == c[i + 1];
        }
      }
      assert s[1..] == c[1..] + sep + t;
      SplitCons(c[1..], t, sep);
      assert [c[0]] + c[1..] == c;
    }
  }

  /** Splitting undoes joining when no part holds the separator's first character. */
  lemma {:induction false} SplitJoin(parts: seq<string>, sep: string)
    requires |sep| > 0 && |parts| > 0
    requires forall i :: 0 <= i < |parts| ==> sep[0] !in parts[i]
    ensures Split(Join(parts, sep), sep) == parts
    decreases |parts|
  {
    if |parts| == 1 {
      SplitPlain(parts[0], sep);
    } else {
      SplitCons(parts[0], Join(parts[1..], sep), sep);
      SplitJoin(parts[1..], sep);
      assert [parts[0]] + parts[1..] == parts;
    }
  }
}
