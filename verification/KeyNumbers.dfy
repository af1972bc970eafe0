/** What number a field key stands for, in each of the types a decoder may deliver it in
    (`keyAsInt`, internal/service/attachments.go). */
module KeyNumbers {
  import opened Prelude
  import opened Fields
  import opened FitList
  import opened Attachments

  lemma {:induction false} DecimalReads(n: nat)
    ensures AllDigits(Decimal(n))
    ensures DigitsValue(Decimal(n)) == n
  {
    if n >= 10 {
      DecimalReads(n / 10);
      var s := Decimal(n);
      assert s[..|s| - 1] == Decimal(n / 10);
    } else {
      assert Decimal(n)[..0] == [];
    }
  }

  /** A field number reads as itself in every integer width and as decimal text. */
  lemma NumberReads(n: nat, kind: IntKind)
    requires n < TWO63
    ensures KeyAsInt(IntKey(kind, n)) == KeyAsInt(TextKey(Decimal(n))) == Some(n)
  {
    DecimalReads(n);
    var s := Decimal(n);
    assert s[0] != 45 && s[0] != 43;
  }

  /** The upper half of the unsigned range wraps to negative numbers, which no list holds. */
  lemma LargeWraps(v: int, kind: IntKind)
    requires TWO63 <= v < TWO64 && (kind.Uint? || kind.Uint64?)
    ensures KeyAsInt(IntKey(kind, v)).Some? && KeyAsInt(IntKey(kind, v)).value < 0
  {
  }

  /** Text with anything but digits after an optional sign is no number, nor is any other type. */
  lemma OthersAreNone(s: Bytes, i: nat, tag: int)
    requires 0 < i < |s| && !(48 <= s[i] <= 57)
    ensures KeyAsInt(TextKey(s)).None? && KeyAsInt(OddKey(tag)).None?
  {
    assert s[1..][i - 1] == s[i];
    assert !AllDigits(s) && !AllDigits(s[1..]);
  }

  /** No forged attribution survives an accepted policy: not as a number of any width, and not
      as the text "251" or "252". */
  lemma NoForgerySurvives(f: FieldMap, p: Policy, sizes: Sizes, kind: IntKind)
    requires Accepted(p)
    ensures IntKey(kind, 251) !in Filtered(f, p, sizes) && IntKey(kind, 252) !in Filtered(f, p, sizes)
    ensures TextKey([50, 53, 49]) !in Filtered(f, p, sizes) && TextKey([50, 53, 50]) !in Filtered(f, p, sizes)
  {
    FilterDropsForgeries(f, p, sizes);
    NumberReads(251, kind);
    NumberReads(252, kind);
    Spelled();
  }

  lemma Spelled()
    ensures Decimal(251) == [50, 53, 49] && Decimal(252) == [50, 53, 50]
  {
    assert Decimal(2) == [50];
    assert Decimal(25) == [50, 53];
  }
}
