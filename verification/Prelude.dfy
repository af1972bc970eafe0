/** Types shared by every component of the relay model. */
module Prelude {

  datatype Option<+T> = None | Some(value: T)

  /** A wall-clock instant or a duration, in nanoseconds. Go's zero `time.Time`
      is modelled as `None` wherever the code tests `IsZero`. */
  type Time = int

  const SECOND: Time := 1_000_000_000
  const MINUTE: Time := 60 * SECOND
  const HOUR: Time := 60 * MINUTE

  type Byte = b: int | 0 <= b < 256

  /** Go byte slices and Go strings alike: a Go string is an immutable byte sequence. */
  type Bytes = seq<Byte>

  function Max(a: int, b: int): int { if a < b then b else a }

  function Min(a: int, b: int): int { if a < b then a else b }

  predicate Distinct<T(==)>(s: seq<T>) { forall i, j :: 0 <= i < j < |s| ==> s[i] != s[j] }

  /** A list naming each element of a set once. */
  ghost predicate Lists<T(!new)>(s: seq<T>, all: set<T>) { Distinct(s) && forall x :: x in s <==> x in all }

  lemma {:induction false} ListsSize<T(!new)>(s: seq<T>, all: set<T>)
    requires Lists(s, all)
    ensures |s| == |all|
  {
    if |s| == 0 {
      assert all == {};
    } else {
      var last := s[|s| - 1];
      var front := s[..|s| - 1];
      forall x
        ensures x in front <==> x in all - {last}
      {
        assert s == front + [last];
      }
      ListsSize(front, all - {last});
      assert last in all;
    }
  }

  lemma ListsMore<T(!new)>(s: seq<T>, all: set<T>, x: T)
    requires Lists(s, all) && x !in all
    ensures Lists(s + [x], all + {x})
  {
    forall i | 0 <= i < |s|
      ensures s[i] != x
    {
      assert s[i] in s;
    }
  }

  lemma {:induction false} SubsetSize<T>(a: set<T>, b: set<T>)
    requires a <= b
    ensures |a| <= |b|
  {
    if a != {} {
      var x :| x in a;
      SubsetSize(a - {x}, b - {x});
    }
  }
}
