/** Line-aligned truncation of list replies: `fitList` (internal/commands/handlers.go). */
module FitList {
  import opened Prelude

  const NEWLINE: Byte := 10

  /** `%d` of a natural number. */
  function Decimal(n: nat): (s: Bytes)
    ensures |s| >= 1
  {
    if n < 10 then [48 + n] else Decimal(n / 10) + [48 + n % 10]
  }

  /** One more to count costs at most one more digit. */
  lemma {:induction false} DecimalGrows(n: nat)
    ensures |Decimal(n)| <= |Decimal(n + 1)| <= |Decimal(n)| + 1
  {
    if n + 1 >= 10 {
      if (n + 1) / 10 == n / 10 {
      } else if n >= 10 {
        assert (n + 1) / 10 == n / 10 + 1;
        DecimalGrows(n / 10);
      }
    }
  }

  /** "\n  ...and " */
  const BEFORE: Bytes := [10, 32, 32, 46, 46, 46, 97, 110, 100, 32]

  /** " more (see operator log)" */
  const AFTER: Bytes :=
    [32, 109, 111, 114, 101, 32, 40, 115, 101, 101, 32, 111, 112, 101, 114, 97, 116, 111, 114, 32, 108, 111, 103, 41]

  function Footer(n: nat): Bytes { BEFORE + Decimal(n) + AFTER }

  /** The header and whole lines under it. */
  function Listing(header: Bytes, lines: seq<Bytes>): Bytes {
    if |lines| == 0 then header
    else Listing(header, lines[..|lines| - 1]) + [NEWLINE] + lines[|lines| - 1]
  }

  /** The reply that keeps the first `k` lines and counts the rest. */
  function Cut(header: Bytes, lines: seq<Bytes>, k: nat): Bytes
    requires k < |lines|
  {
    Listing(header, lines[..k]) + Footer(|lines| - k)
  }

  lemma ListingStep(header: Bytes, lines: seq<Bytes>, k: nat)
    requires k < |lines|
    ensures Listing(header, lines[..k + 1]) == Listing(header, lines[..k]) + [NEWLINE] + lines[k]
  {
    assert lines[..k + 1][..k] == lines[..k];
  }

  /** A longer cut is never a shorter reply: a line costs at least the byte that a
      shorter count may save. */
  lemma CutGrows(header: Bytes, lines: seq<Bytes>, k: nat)
    requires k + 1 < |lines|
    ensures |Cut(header, lines, k)| <= |Cut(header, lines, k + 1)|
  {
    ListingStep(header, lines, k);
    DecimalGrows(|lines| - k - 1);
  }

  lemma {:induction false} CutMonotone(header: Bytes, lines: seq<Bytes>, j: nat, k: nat)
    requires j <= k < |lines|
    ensures |Cut(header, lines, j)| <= |Cut(header, lines, k)|
  {
    if j < k {
      CutMonotone(header, lines, j, k - 1);
      CutGrows(header, lines, k - 1);
    }
  }

  /** What the reply should be: everything if it fits or there is no budget; otherwise
      the longest cut that fits; and the shortest cut if none does. */
  ghost predicate Best(header: Bytes, lines: seq<Bytes>, budget: int, reply: Bytes) {
    if budget <= 0 || |Listing(header, lines)| <= budget || |lines| == 0 then reply == Listing(header, lines)
    else exists k: nat ::
      && k < |lines| && reply == Cut(header, lines, k)
      && (|reply| <= budget || k == 0)
      && (forall j: nat :: k < j < |lines| ==> |Cut(header, lines, j)| > budget)
  }

  method FitList(header: Bytes, lines: seq<Bytes>, budget: int) returns (reply: Bytes)
    ensures Best(header, lines, budget, reply)
  {
    assert lines[..|lines|] == lines;
    var full := Join(header, lines);
    if budget <= 0 || |full| <= budget {
      return full;
    }
    var out := header;
    var kept := 0;
    while kept < |lines|
      invariant 0 <= kept <= |lines| && out == Listing(header, lines[..kept])
      invariant 0 < kept < |lines| ==> |Cut(header, lines, kept)| <= budget
      invariant kept == |lines| > 0 ==> |out| <= budget
    {
      var line := lines[kept];
      ListingStep(header, lines, kept);
      if |out| + 1 + |line| + |Footer(|lines| - kept - 1)| > budget && |lines| - kept - 1 > 0 {
        NoLonger(header, lines, budget, kept);
        return out + Footer(|lines| - kept);
      }
      if |out| + 1 + |line| > budget {
        return out + Footer(|lines| - kept);
      }
      out := out + [NEWLINE] + line;
      kept := kept + 1;
    }
    return full;
  }

  lemma NoLonger(header: Bytes, lines: seq<Bytes>, budget: int, k: nat)
    requires k + 1 < |lines| && |Cut(header, lines, k + 1)| > budget
    ensures forall j: nat :: k < j < |lines| ==> |Cut(header, lines, j)| > budget
  {
    forall j: nat | k < j < |lines|
      ensures |Cut(header, lines, j)| > budget
    {
      CutMonotone(header, lines, k + 1, j);
    }
  }

  /** `header + "\n" + strings.Join(lines, "\n")`, or the bare header. */
  method Join(header: Bytes, lines: seq<Bytes>) returns (full: Bytes)
    ensures full == Listing(header, lines)
  {
    full := header;
    for i := 0 to |lines|
      invariant full == Listing(header, lines[..i])
    {
      ListingStep(header, lines, i);
      full := full + [NEWLINE] + lines[i];
    }
    assert lines[..|lines|] == lines;
  }

  /** When the budget is exceeded: a truncated reply overruns exactly when even the
      header with the full count does. */
  lemma FitsExactly(header: Bytes, lines: seq<Bytes>, budget: int, reply: Bytes)
    requires Best(header, lines, budget, reply) && budget > 0 && |lines| > 0
    ensures |reply| <= budget <==> |Listing(header, lines)| <= budget || |Cut(header, lines, 0)| <= budget
  {
    if |Listing(header, lines)| > budget {
      var k: nat :| k < |lines| && reply == Cut(header, lines, k) && (|reply| <= budget || k == 0)
                    && (forall j: nat :: k < j < |lines| ==> |Cut(header, lines, j)| > budget);
      CutMonotone(header, lines, 0, k);
    }
  }

  /** Such an overrun: one long line under a short header, and a budget smaller than the
      footer alone. */
  lemma OverrunExample(reply: Bytes)
    requires Best([65], [seq(40, _ => 66)], 30, reply)
    ensures |reply| == 36
  {
    var line: Bytes := seq(40, _ => 66);
    assert [line][..0] == [] && [line][..1] == [line];
    assert |Footer(1)| == 35;
    assert Listing([65], [line]) == [65] + [NEWLINE] + line;
  }
}
