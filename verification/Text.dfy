/** The few string operations the roster and the commands rely on, on ASCII bytes. */
module Text {
  import opened Prelude

  function LowerByte(c: Byte): Byte { if 65 <= c <= 90 then c + 32 else c }

  /** `strings.ToLower`. */
  function Lower(s: Bytes): (r: Bytes)
    ensures |r| == |s| && forall i :: 0 <= i < |s| ==> r[i] == LowerByte(s[i])
  {
    seq(|s|, i requires 0 <= i < |s| => LowerByte(s[i]))
  }

  function TrimLeft(s: Bytes, cut: set<Byte>): Bytes {
    if |s| > 0 && s[0] in cut then TrimLeft(s[1..], cut) else s
  }

  function TrimRight(s: Bytes, cut: set<Byte>): Bytes {
    if |s| > 0 && s[|s| - 1] in cut then TrimRight(s[..|s| - 1], cut) else s
  }

  /** `strings.Trim`: no byte of `cut` at either end of the result. */
  function Trim(s: Bytes, cut: set<Byte>): Bytes { TrimRight(TrimLeft(s, cut), cut) }

  const SPACES: set<Byte> := {9, 10, 11, 12, 13, 32}

  /** What the roster compares: trimmed and lower-cased. */
  function Folded(query: Bytes): Bytes { Lower(Trim(query, SPACES)) }

  lemma {:induction false} TrimLeftIsTail(s: Bytes, cut: set<Byte>) returns (n: nat)
    ensures n <= |s| && TrimLeft(s, cut) == s[n..]
    ensures forall i :: 0 <= i < n ==> s[i] in cut
    ensures n < |s| ==> s[n] !in cut
  {
    if |s| > 0 && s[0] in cut {
      var m := TrimLeftIsTail(s[1..], cut);
      assert s[1..][m..] == s[m + 1..];
      assert forall i :: 1 <= i < m + 1 ==> s[i] == s[1..][i - 1];
      n := m + 1;
    } else {
      n := 0;
    }
  }

  lemma {:induction false} TrimRightIsPrefix(s: Bytes, cut: set<Byte>) returns (n: nat)
    ensures n <= |s| && TrimRight(s, cut) == s[..n]
    ensures n > 0 ==> s[n - 1] !in cut
    ensures forall i :: n <= i < |s| ==> s[i] in cut
  {
    if |s| > 0 && s[|s| - 1] in cut {
      n := TrimRightIsPrefix(s[..|s| - 1], cut);
      assert s[..|s| - 1][..n] == s[..n];
    } else {
      n := |s|;
    }
  }

  /** Trimming a string with no byte of `cut` at its ends changes nothing. */
  lemma TrimIdentity(s: Bytes, cut: set<Byte>)
    requires |s| > 0 ==> s[0] !in cut && s[|s| - 1] !in cut
    ensures Trim(s, cut) == s
  {
  }

  /** A trimmed string is a slice with clean ends. */
  lemma TrimIsSlice(s: Bytes, cut: set<Byte>) returns (a: nat, b: nat)
    ensures a <= b <= |s| && Trim(s, cut) == s[a..b]
    ensures a < b ==> s[a] !in cut && s[b - 1] !in cut
  {
    a := TrimLeftIsTail(s, cut);
    var n := TrimRightIsPrefix(s[a..], cut);
    b := a + n;
    assert s[a..][..n] == s[a..b];
  }
}
