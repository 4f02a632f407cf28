/** Byte strings, the lexicographic order on them, and insertion sorting by that order.
    An address is identified with its XDR encoding, so two addresses are equal exactly
    when their encodings are. */
module ByteOrder {

  newtype byte = x: int | 0 <= x < 256

  type Bytes = seq<byte>

  type Address = Bytes

  datatype Ordering = Less | Equal | Greater

  function Flip(o: Ordering): Ordering {
    match o
    case Less => Greater
    case Equal => Equal
    case Greater => Less
  }

  function CompareNat(a: nat, b: nat): Ordering {
    if a < b then Less else if a > b then Greater else Equal
  }

  /** Lexicographic comparison; a proper prefix comes first. */
  function Compare(a: Bytes, b: Bytes): Ordering {
    if a == [] || b == [] then CompareNat(|a|, |b|)
    else if a[0] < b[0] then Less
    else if b[0] < a[0] then Greater
    else Compare(a[1..], b[1..])
  }

  predicate Leq(a: Bytes, b: Bytes) {
    Compare(a, b) != Greater
  }

  /** The byte-by-byte loop that scans the common prefix computes the lexicographic order. */
  method CompareBytes(left: Bytes, right: Bytes) returns (o: Ordering)
    ensures o == Compare(left, right)
  {
    var common := if |left| < |right| then |left| else |right|;
    var index := 0;
    while index < common
      invariant 0 <= index <= common
      invariant Compare(left, right) == Compare(left[index..], right[index..])
    {
      if left[index] < right[index] {
        return Less;
      } else if left[index] > right[index] {
        return Greater;
      }
      index := index + 1;
    }
    return CompareNat(|left|, |right|);
  }

  /** `a` comes before `b`: it is smaller where they first differ, or it is where `b` goes on. */
  ghost predicate Before(a: Bytes, b: Bytes) {
    || (|a| < |b| && a == b[..|a|])
    || exists k :: 0 <= k < |a| && k < |b| && a[..k] == b[..k] && a[k] < b[k]
  }

  /** The comparison says which of two different byte strings comes before the other. */
  lemma {:induction false} CompareIsLexicographic(a: Bytes, b: Bytes)
    ensures Compare(a, b) == Less <==> Before(a, b)
    ensures Compare(a, b) == Greater <==> Before(b, a)
    ensures Compare(a, b) == Equal <==> a == b
  {
    if a != [] && b != [] {
      CompareIsLexicographic(a[1..], b[1..]);
      BeforeUnfolds(a, b);
      BeforeUnfolds(b, a);
      assert a == [a[0]] + a[1..] && b == [b[0]] + b[1..];
    } else if b != [] {
      assert b[..0] == [];
    } else if a != [] {
      assert a[..0] == [];
    }
  }

  lemma BeforeUnfolds(a: Bytes, b: Bytes)
    requires a != [] && b != []
    ensures Before(a, b) <==> a[0] < b[0] || (a[0] == b[0] && Before(a[1..], b[1..]))
  {
    var c, d := a[1..], b[1..];
    if a[0] == b[0] && Before(c, d) {
      if |c| < |d| && c == d[..|c|] {
        assert b[..|a|] == [b[0]] + d[..|c|];
      } else {
        var k :| 0 <= k < |c| && k < |d| && c[..k] == d[..k] && c[k] < d[k];
        assert a[..k + 1] == [a[0]] + c[..k] && b[..k + 1] == [b[0]] + d[..k];
        assert a[k + 1] < b[k + 1];
      }
    }
    if a[0] < b[0] {
      assert a[..0] == b[..0];
    }
    if Before(a, b) {
      if |a| < |b| && a == b[..|a|] {
        assert a[0] == b[..|a|][0] && d[..|c|] == b[..|a|][1..];
      } else {
        var k :| 0 <= k < |a| && k < |b| && a[..k] == b[..k] && a[k] < b[k];
        if k > 0 {
          assert a[0] == a[..k][0] && b[0] == b[..k][0];
          assert c[..k - 1] == a[..k][1..] && d[..k - 1] == b[..k][1..];
          assert c[k - 1] < d[k - 1];
        }
      }
    }
  }

  lemma {:induction false} CompareEqual(a: Bytes, b: Bytes)
    ensures Compare(a, b) == Equal <==> a == b
  {
    if a != [] && b != [] {
      CompareEqual(a[1..], b[1..]);
      assert a == [a[0]] + a[1..] && b == [b[0]] + b[1..];
    }
  }

  lemma {:induction false} CompareFlip(a: Bytes, b: Bytes)
    ensures Compare(b, a) == Flip(Compare(a, b))
  {
    if a != [] && b != [] {
      CompareFlip(a[1..], b[1..]);
    }
  }

  lemma {:induction false} LeqTransitive(a: Bytes, b: Bytes, c: Bytes)
    requires Leq(a, b) && Leq(b, c)
    ensures Leq(a, c)
  {
    if a != [] && b != [] && c != [] && a[0] == b[0] == c[0] {
      LeqTransitive(a[1..], b[1..], c[1..]);
    }
  }

  lemma LeqAntisymmetric(a: Bytes, b: Bytes)
    requires Leq(a, b) && Leq(b, a)
    ensures a == b
  {
    CompareFlip(a, b);
    CompareEqual(a, b);
  }

  predicate Sorted(s: seq<Bytes>) {
    forall i, j :: 0 <= i < j < |s| ==> Leq(s[i], s[j])
  }

  /** Inserts `x` before the first element that is strictly greater. */
  function Insert(s: seq<Bytes>, x: Bytes): seq<Bytes> {
    if s == [] || Compare(x, s[0]) == Less then [x] + s
    else [s[0]] + Insert(s[1..], x)
  }

  /** Insertion sort, taking the elements from left to right. */
  function Sort(s: seq<Bytes>): seq<Bytes> {
    if s == [] then []
    else Insert(Sort(s[..|s| - 1]), s[|s| - 1])
  }

  lemma {:induction false} InsertPermutes(s: seq<Bytes>, x: Bytes)
    ensures multiset(Insert(s, x)) == multiset(s) + multiset{x}
  {
    if s != [] && Compare(x, s[0]) != Less {
      InsertPermutes(s[1..], x);
      assert s == [s[0]] + s[1..];
    }
  }

  lemma {:induction false} InsertKeepsSorted(s: seq<Bytes>, x: Bytes)
    requires Sorted(s)
    ensures Sorted(Insert(s, x))
  {
    if s == [] {
    } else if Compare(x, s[0]) == Less {
      forall j | 0 <= j < |s| ensures Leq(x, s[j]) {
        if j > 0 { LeqTransitive(x, s[0], s[j]); }
      }
    } else {
      CompareFlip(x, s[0]);
      var rest := Insert(s[1..], x);
      InsertKeepsSorted(s[1..], x);
      InsertPermutes(s[1..], x);
      forall j | 0 <= j < |rest| ensures Leq(s[0], rest[j]) {
        assert rest[j] in multiset(rest);
        assert rest[j] == x || rest[j] in s[1..];
        if rest[j] != x {
          var k :| 0 <= k < |s[1..]| && s[1..][k] == rest[j];
          assert s[k + 1] == rest[j];
        }
      }
    }
  }

  lemma {:induction false} SortSorts(s: seq<Bytes>)
    ensures Sorted(Sort(s)) && multiset(Sort(s)) == multiset(s) && |Sort(s)| == |s|
  {
    if s != [] {
      var n := |s| - 1;
      SortSorts(s[..n]);
      InsertKeepsSorted(Sort(s[..n]), s[n]);
      InsertPermutes(Sort(s[..n]), s[n]);
      assert s == s[..n] + [s[n]];
    }
    assert |multiset(Sort(s))| == |Sort(s)| && |multiset(s)| == |s|;
  }

  /** The head of a sorted list is below everything in it. */
  lemma HeadIsLeast(a: seq<Bytes>, x: Bytes)
    requires Sorted(a) && x in multiset(a)
    ensures a != [] && Leq(a[0], x)
  {
    var i :| 0 <= i < |a| && a[i] == x;
    CompareEqual(x, x);
  }

  lemma SameHead(a: seq<Bytes>, b: seq<Bytes>)
    requires Sorted(a) && Sorted(b) && multiset(a) == multiset(b) && a != []
    ensures b != [] && a[0] == b[0]
  {
    assert a[0] in multiset(a);
    HeadIsLeast(b, a[0]);
    assert b[0] in multiset(b);
    HeadIsLeast(a, b[0]);
    LeqAntisymmetric(a[0], b[0]);
  }

  lemma DropHead(a: seq<Bytes>)
    requires Sorted(a) && a != []
    ensures Sorted(a[1..]) && multiset(a[1..]) == multiset(a) - multiset{a[0]}
  {
    assert a == [a[0]] + a[1..];
  }

  /** A sorted list is determined by its elements. */
  lemma {:induction false} SortedUnique(a: seq<Bytes>, b: seq<Bytes>)
    requires Sorted(a) && Sorted(b) && multiset(a) == multiset(b)
    ensures a == b
  {
    if a == [] {
      assert |multiset(b)| == |b|;
    } else {
      assert b != [] && a[0] == b[0] by { SameHead(a, b); }
      assert a[1..] == b[1..] by {
        DropHead(a);
        DropHead(b);
        SortedUnique(a[1..], b[1..]);
      }
      assert a == [a[0]] + a[1..] && b == [b[0]] + b[1..];
    }
  }

  /** Sorting forgets the order of the input. */
  lemma SortCanonical(a: seq<Bytes>, b: seq<Bytes>)
    requires multiset(a) == multiset(b)
    ensures Sort(a) == Sort(b)
  {
    SortSorts(a);
    SortSorts(b);
    SortedUnique(Sort(a), Sort(b));
  }
}
