/** Nicknames: the `/nick` pattern and `SanitizeNickname` (internal/commands/handlers.go). */
module Nickname {
  import opened Prelude
  import opened Text

  const MAX_NICK: nat := 24
  const UNDERSCORE: Byte := 95
  const HYPHEN: Byte := 45
  const EDGES: set<Byte> := {95, 45}

  predicate Alnum(c: Byte) { 65 <= c <= 90 || 97 <= c <= 122 || 48 <= c <= 57 }

  /** A character that `SanitizeNickname` copies. */
  predicate Copied(r: int) { 65 <= r <= 90 || 97 <= r <= 122 || 48 <= r <= 57 || r == HYPHEN }

  predicate NickByte(c: Byte) { Alnum(c) || c == UNDERSCORE || c == HYPHEN }

  /** `^[A-Za-z0-9_-]{1,24}$` */
  predicate MatchesNick(s: Bytes) { 1 <= |s| <= MAX_NICK && forall i :: 0 <= i < |s| ==> NickByte(s[i]) }

  predicate ValidNick(s: Bytes) { s == [] || MatchesNick(s) }

  /** A fixed point of the sanitizer: in the alphabet, no two underscores in a row,
      clean ends, at most 24 long. */
  predicate Clean(s: Bytes) {
    && |s| <= MAX_NICK
    && (forall i :: 0 <= i < |s| ==> NickByte(s[i]))
    && (forall i :: 0 <= i < |s| - 1 ==> !(s[i] == UNDERSCORE && s[i + 1] == UNDERSCORE))
    && (|s| > 0 ==> s[0] !in EDGES && s[|s| - 1] !in EDGES)
  }

  /** One rune through the loop body. */
  function Push(b: Bytes, r: int): Bytes {
    if Copied(r) then b + [r]
    else if |b| > 0 && b[|b| - 1] != UNDERSCORE then b + [UNDERSCORE]
    else b
  }

  /** The loop, which stops as soon as 24 bytes are out. */
  function Pushed(raw: seq<int>): Bytes {
    if |raw| == 0 then []
    else
      var b := Pushed(raw[..|raw| - 1]);
      if |b| >= MAX_NICK then b else Push(b, raw[|raw| - 1])
  }

  function Sanitized(raw: seq<int>): Bytes { Trim(Pushed(raw), EDGES) }

  lemma {:induction false} PushedShape(raw: seq<int>)
    ensures var b := Pushed(raw);
            && |b| <= MAX_NICK
            && (forall i :: 0 <= i < |b| ==> NickByte(b[i]))
            && (forall i :: 0 <= i < |b| - 1 ==> !(b[i] == UNDERSCORE && b[i + 1] == UNDERSCORE))
  {
    if |raw| > 0 {
      PushedShape(raw[..|raw| - 1]);
    }
  }

  /** Whatever a peer announces, the result is empty or an acceptable nickname. */
  lemma SanitizedClean(raw: seq<int>)
    ensures Clean(Sanitized(raw)) && ValidNick(Sanitized(raw))
  {
    PushedShape(raw);
    var a, b := TrimIsSlice(Pushed(raw), EDGES);
  }

  lemma {:induction false} PushedClean(s: Bytes, whole: Bytes)
    requires s <= whole && Clean(whole)
    ensures Pushed(s) == s
  {
    if |s| > 0 {
      var front := s[..|s| - 1];
      PushedClean(front, whole);
      assert s[|s| - 1] == whole[|s| - 1];
      assert s == front + [s[|s| - 1]];
    }
  }

  /** Exactly the clean strings are left alone. */
  lemma SanitizeFixes(s: Bytes)
    ensures Sanitized(s) == s <==> Clean(s)
  {
    if Clean(s) {
      PushedClean(s, s);
      TrimIdentity(s, EDGES);
    }
    SanitizedClean(s);
  }

  lemma SanitizeIdempotent(raw: seq<int>)
    ensures Sanitized(Sanitized(raw)) == Sanitized(raw)
  {
    SanitizedClean(raw);
    SanitizeFixes(Sanitized(raw));
  }

  /** The sanitizer looks at the characters it keeps only: what stands in the place of another
      does not matter. */
  lemma {:induction false} ReplacedAlike(a: seq<int>, b: seq<int>)
    requires |a| == |b| && forall i :: 0 <= i < |a| ==> if Copied(a[i]) then b[i] == a[i] else !Copied(b[i])
    ensures Sanitized(a) == Sanitized(b) && Pushed(a) == Pushed(b)
  {
    if |a| > 0 {
      ReplacedAlike(a[..|a| - 1], b[..|b| - 1]);
    }
  }

  /** Nor does how many stand there in a row. */
  lemma {:induction false} RunsCollapse(a: seq<int>, x: int, y: int, b: seq<int>)
    requires !Copied(x) && !Copied(y)
    ensures Sanitized(a + [x, y] + b) == Sanitized(a + [x] + b) && Pushed(a + [x, y] + b) == Pushed(a + [x] + b)
  {
    var long, short := a + [x, y] + b, a + [x] + b;
    if |b| == 0 {
      assert long[..|long| - 1] == short && short[..|short| - 1] == a;
    } else {
      assert long[..|long| - 1] == a + [x, y] + b[..|b| - 1];
      assert short[..|short| - 1] == a + [x] + b[..|b| - 1];
      RunsCollapse(a, x, y, b[..|b| - 1]);
    }
  }

  /** `SanitizeNickname` over the runes of an announced name. */
  method SanitizeNickname(raw: seq<int>) returns (out: Bytes)
    ensures out == Sanitized(raw)
  {
    var b: Bytes := [];
    var prevUnderscore := false;
    var i := 0;
    while i < |raw|
      invariant 0 <= i <= |raw| && |b| < MAX_NICK
      invariant b == Pushed(raw[..i])
      invariant prevUnderscore <==> |b| > 0 && b[|b| - 1] == UNDERSCORE
    {
      var r := raw[i];
      assert raw[..i + 1][..i] == raw[..i];
      if Copied(r) {
        b := b + [r];
        prevUnderscore := false;
      } else if !prevUnderscore && |b| > 0 {
        b := b + [UNDERSCORE];
        prevUnderscore := true;
      }
      i := i + 1;
      if |b| >= MAX_NICK {
        break;
      }
    }
    PushedStops(raw, i);
    out := Trim(b, EDGES);
    if |out| > MAX_NICK {
      out := out[..MAX_NICK];
    }
    SanitizedClean(raw);
  }

  lemma {:induction false} PushedStops(raw: seq<int>, i: nat)
    requires i <= |raw| && (i == |raw| || |Pushed(raw[..i])| >= MAX_NICK)
    ensures Pushed(raw) == Pushed(raw[..i])
  {
    if i < |raw| {
      assert raw[..|raw| - 1][..i] == raw[..i];
      PushedStops(raw[..|raw| - 1], i);
    } else {
      assert raw[..i] == raw;
    }
  }
}
