/** The operator's field policy and the relay's own attribution stamp
    (internal/service/attachments.go, internal/config/config.go, internal/service/rewrite.go). */
module Attachments {
  import opened Prelude
  import opened Fields
  import opened Rewrite
  import opened RewriteHeap

  datatype Policy = Policy(forward: bool, allowed: seq<int>, maxBytes: int)

  predicate IsAttribution(n: int) { n == CUSTOM_TYPE || n == CUSTOM_DATA }

  predicate Refused(n: int) { n < 0 || IsAttribution(n) }

  /** The forwarded-field part of the configuration check; `bad` is the index it reports. */
  method CheckForwarded(allowed: seq<int>) returns (bad: Option<nat>)
    ensures bad.None? ==> forall i :: 0 <= i < |allowed| ==> !Refused(allowed[i])
    ensures bad.Some? ==> bad.value < |allowed| && Refused(allowed[bad.value])
                          && forall i :: 0 <= i < bad.value ==> !Refused(allowed[i])
  {
    for i := 0 to |allowed|
      invariant forall j :: 0 <= j < i ==> !Refused(allowed[j])
    {
      if allowed[i] < 0 || allowed[i] == CUSTOM_TYPE || allowed[i] == CUSTOM_DATA {
        return Some(i);
      }
    }
    return None;
  }

  /** The policy of any configuration that loads. */
  predicate Accepted(p: Policy) { forall i :: 0 <= i < |p.allowed| ==> !Refused(p.allowed[i]) }

  /** msgpack-encoded size per field; `None` for a value that does not encode. */
  type Sizes = map<Key, Option<nat>>

  predicate Allowed(p: Policy, sizes: Sizes, k: Key) {
    KeyAsInt(k).Some? && KeyAsInt(k).value in p.allowed && k in sizes && sizes[k].Some?
  }

  predicate Oversize(p: Policy, sizes: Sizes, k: Key) {
    Allowed(p, sizes, k) && p.maxBytes > 0 && sizes[k].value > p.maxBytes
  }

  predicate Passes(p: Policy, sizes: Sizes, k: Key) { Allowed(p, sizes, k) && !Oversize(p, sizes, k) }

  ghost function Filtered(f: FieldMap, p: Policy, sizes: Sizes): FieldMap {
    if p.forward then map k | k in f && Passes(p, sizes, k) :: f[k] else map[]
  }

  function Dropped(keys: set<Key>, p: Policy, sizes: Sizes): set<Key> {
    if p.forward then set k | k in keys && Oversize(p, sizes, k) else {}
  }

  ghost function Denotes(t: Option<FieldTable>): FieldMap
    reads if t.Some? then {t.value} + Refs(t.value.m) else {}
  {
    if t.Some? then View(t.value) else map[]
  }

  /** Which fields survive: with forwarding on, those whose number is on the allow list and
      whose encoded size is known and, when there is a limit, within it. They survive as they
      are. */
  lemma SurvivesExactly(f: FieldMap, p: Policy, sizes: Sizes, k: Key)
    ensures k in Filtered(f, p, sizes) <==>
              && k in f && p.forward
              && (exists i :: 0 <= i < |p.allowed| && KeyAsInt(k) == Some(p.allowed[i]))
              && k in sizes && sizes[k].Some? && (p.maxBytes > 0 ==> sizes[k].value <= p.maxBytes)
    ensures k in Filtered(f, p, sizes) ==> Filtered(f, p, sizes)[k] == f[k]
  {
  }

  /** Which fields are noted in the text: those on the allow list that only their size keeps
      out. */
  lemma DroppedExactly(keys: set<Key>, p: Policy, sizes: Sizes, k: Key)
    ensures k in Dropped(keys, p, sizes) <==>
              && k in keys && p.forward
              && (exists i :: 0 <= i < |p.allowed| && KeyAsInt(k) == Some(p.allowed[i]))
              && k in sizes && sizes[k].Some? && 0 < p.maxBytes < sizes[k].value
  {
  }

  /** The kinds of attachment a sender is told about: file, image, audio. */
  predicate IsKind(n: int) { n == 5 || n == 6 || n == 7 }

  predicate RefusedKind(p: Policy, k: Key) {
    KeyAsInt(k).Some? && IsKind(KeyAsInt(k).value) && (p.forward ==> KeyAsInt(k).value !in p.allowed)
  }

  /** The attachments among these keys that the policy refuses, in any order. */
  method NameRefused(keys: set<Key>, p: Policy) returns (refused: seq<Key>)
    ensures Lists(refused, set k | k in keys && RefusedKind(p, k))
  {
    refused := [];
    ghost var all := set k | k in keys && RefusedKind(p, k);
    var rest := keys;
    while rest != {}
      invariant rest <= keys
      invariant Lists(refused, all - rest)
    {
      var k :| k in rest;
      if RefusedKind(p, k) {
        ListsMore(refused, all - rest, k);
        assert all - (rest - {k}) == all - rest + {k};
        refused := refused + [k];
      } else {
        assert all - (rest - {k}) == all - rest;
      }
      rest := rest - {k};
    }
    assert all - rest == all;
  }

  /** `filterAttachments`, whatever order the map is walked in. The result is nil when
      nothing survives, and otherwise a new outer map over the same inner ones; each
      oversized field is noted once, and so is each refused attachment. */
  method FilterAttachments(t: FieldTable, p: Policy, sizes: Sizes)
    returns (out: Option<FieldTable>, drops: seq<Key>, refused: seq<Key>)
    requires t.m.Keys <= sizes.Keys
    ensures out.Some? ==> fresh(out.value) && out.value.m != map[] && Refs(out.value.m) <= Refs(t.m)
    ensures Denotes(out) == Filtered(View(t), p, sizes)
    ensures Lists(drops, Dropped(t.m.Keys, p, sizes))
    ensures Lists(refused, set k | k in t.m.Keys && RefusedKind(p, k))
  {
    out, drops := None, [];
    refused := NameRefused(t.m.Keys, p);
    if !p.forward {
      return;
    }
    var keep := map[];
    var rest := t.m.Keys;
    while rest != {}
      invariant rest <= t.m.Keys
      invariant keep == map k | k in t.m && k !in rest && Passes(p, sizes, k) :: t.m[k]
      invariant Lists(drops, set k | k in t.m && k !in rest && Oversize(p, sizes, k))
    {
      var k :| k in rest;
      if Passes(p, sizes, k) {
        keep := keep[k := t.m[k]];
      } else if Oversize(p, sizes, k) {
        ListsMore(drops, (set x | x in t.m && x !in rest && Oversize(p, sizes, x)), k);
        drops := drops + [k];
      }
      rest := rest - {k};
      assert (set x | x in drops) == set x | x in t.m && x !in rest && Oversize(p, sizes, x);
    }
    if keep != map[] {
      var fresh_ := new FieldTable();
      fresh_.m := keep;
      out := Some(fresh_);
    }
  }

  predicate IsMarker(n: int) {
    n == REPLY_TO || n == REPLY_QUOTE || n == REACTION || n == COMMENT || n == CONTINUATION
  }

  /** A bubble in its own right: text, or any field that is not an annotation marker. */
  predicate Primary(content: Bytes, keys: set<Key>) {
    content != [] || exists k :: k in keys && KeyAsInt(k).Some? && !IsMarker(KeyAsInt(k).value)
  }

  /** Reactions, comments, continuations, replies and their quotes are no bubbles by themselves;
      anything else numbered is. */
  lemma PrimaryExactly(keys: set<Key>)
    ensures Primary([], keys) <==>
            exists k, n :: k in keys && KeyAsInt(k) == Some(n) && n !in {0x30, 0x31, 0x40, 0x41, 0x42}
  {
    if Primary([], keys) {
      var k :| k in keys && KeyAsInt(k).Some? && !IsMarker(KeyAsInt(k).value);
      assert KeyAsInt(k) == Some(KeyAsInt(k).value);
    }
  }

  method IsPrimaryBubble(content: Bytes, t: Option<FieldTable>) returns (yes: bool)
    ensures yes == Primary(content, if t.Some? then t.value.m.Keys else {})
  {
    if content != [] {
      return true;
    }
    var all := if t.Some? then t.value.m.Keys else {};
    var rest := all;
    while rest != {}
      invariant rest <= all
      invariant forall k :: k in all - rest ==> KeyAsInt(k).None? || IsMarker(KeyAsInt(k).value)
    {
      var k :| k in rest;
      if KeyAsInt(k).Some? && !IsMarker(KeyAsInt(k).value) {
        return true;
      }
      rest := rest - {k};
    }
    return false;
  }

  // ---- The attribution stamp -----------------------------------------------

  /** "originator-identity" */
  const ORIGINATOR_IDENTITY: Bytes :=
    [111, 114, 105, 103, 105, 110, 97, 116, 111, 114, 45, 105, 100, 101, 110, 116, 105, 116, 121]

  const TYPE_KEY: Key := IntKey(Int, CUSTOM_TYPE)
  const DATA_KEY: Key := IntKey(Int, CUSTOM_DATA)

  ghost predicate Reacts(keys: set<Key>) { Find(keys, REACTION).Some? }

  ghost function Stamped(f: FieldMap, reactor: Bytes): FieldMap {
    if reactor != [] && Reacts(f.Keys)
    then f[TYPE_KEY := Plain(Text(ORIGINATOR_IDENTITY))][DATA_KEY := Plain(Blob(reactor))]
    else f
  }

  method StampReactorIdentity(t: Option<FieldTable>, reactor: Bytes) returns (did: bool)
    requires t.Some? ==> OneKeyEach(t.value.m.Keys)
    modifies if t.Some? then {t.value} else {}
    ensures Denotes(t) == Stamped(old(Denotes(t)), reactor)
    ensures t.Some? ==> Refs(t.value.m) <= old(Refs(t.value.m))
    ensures did <==> reactor != [] && t.Some? && old(Reacts(t.value.m.Keys))
  {
    if t.None? || |reactor| == 0 {
      return false;
    }
    assert View(t.value).Keys == t.value.m.Keys;
    var k := FindKey(t.value.m.Keys, REACTION);
    if k.None? {
      return false;
    }
    t.value.m := t.value.m[TYPE_KEY := Flat(Text(ORIGINATOR_IDENTITY))];
    t.value.m := t.value.m[DATA_KEY := Flat(Blob(reactor))];
    return true;
  }

  /** Attribution that cannot be forged: such a key, in any integer width or as text,
      appears exactly on reactions, and then it names this sender. */
  ghost predicate Honest(g: FieldMap, sender: Bytes) {
    && (forall k :: k in g && KeyAsInt(k).Some? && IsAttribution(KeyAsInt(k).value) ==> k == TYPE_KEY || k == DATA_KEY)
    && (TYPE_KEY in g <==> sender != [] && Reacts(g.Keys))
    && (DATA_KEY in g <==> sender != [] && Reacts(g.Keys))
    && (DATA_KEY in g ==> g[DATA_KEY] == Plain(Blob(sender)))
    && (TYPE_KEY in g ==> g[TYPE_KEY] == Plain(Text(ORIGINATOR_IDENTITY)))
  }

  lemma FilterDropsForgeries(f: FieldMap, p: Policy, sizes: Sizes)
    requires Accepted(p)
    ensures forall k :: k in Filtered(f, p, sizes) && KeyAsInt(k).Some? ==> !IsAttribution(KeyAsInt(k).value)
    ensures Canonical(f) ==> Canonical(Filtered(f, p, sizes))
  {
  }

  lemma StampHonest(f: FieldMap, sender: Bytes)
    requires forall k :: k in f && KeyAsInt(k).Some? ==> !IsAttribution(KeyAsInt(k).value)
    ensures Honest(Stamped(f, sender), sender)
    ensures forall k :: k in f ==> k in Stamped(f, sender) && Stamped(f, sender)[k] == f[k]
    ensures forall k :: k in Stamped(f, sender) ==> k in f || k == IntKey(Int, 0xFB) || k == IntKey(Int, 0xFC)
    ensures Canonical(f) ==> Canonical(Stamped(f, sender))
  {
    var g := Stamped(f, sender);
    assert KeyAsInt(TYPE_KEY) == Some(CUSTOM_TYPE) && KeyAsInt(DATA_KEY) == Some(CUSTOM_DATA);
    if g != f {
      assert g.Keys == f.Keys + {TYPE_KEY, DATA_KEY};
      assert Find(f.Keys, REACTION).value in g.Keys;
    }
  }

  /** Per-recipient rewriting neither adds nor removes an attribution or a reaction. */
  lemma RewriteKeepsHonest(f: FieldMap, s: Sight, sender: Bytes)
    requires Honest(f, sender) && Rewritten(f, s).Some? && forall n :: n in s.dicts ==> IsDict(n)
    ensures Honest(Rewritten(f, s).value, sender)
  {
    var g := Retargeted(f, s.dicts);
    var h := Rebound(g, s.reply);
    forall k | k in f && KeyAsInt(k).Some? && KeyAsInt(k).value != REPLY_TO
      ensures k in h
      ensures !IsDict(KeyAsInt(k).value) ==> h[k] == f[k]
    {
    }
    assert KeyAsInt(TYPE_KEY) == Some(CUSTOM_TYPE) && KeyAsInt(DATA_KEY) == Some(CUSTOM_DATA);
    if Reacts(f.Keys) {
      assert Find(f.Keys, REACTION).value in h;
    }
    if Reacts(h.Keys) {
      assert Find(h.Keys, REACTION).value in f;
    }
  }
}
