/** LXMF field maps as the msgpack decoder delivers them: a Go `map[any]any`
    whose keys may be any integer width or a string, and whose values are byte
    strings, text, one level of nested dictionary, or something the relay never
    looks inside. */
module Fields {
  import opened Prelude
  import opened Hex

  datatype IntKind = Int | Int8 | Int16 | Int32 | Int64 | Uint | Uint8 | Uint16 | Uint32 | Uint64

  datatype Key =
    | IntKey(kind: IntKind, v: int)
    | TextKey(text: Bytes)
    | OddKey(tag: int)

  datatype Leaf =
    | Blob(bytes: Bytes)
    | Text(text: Bytes)
    | Odd(tag: int)

  datatype Value =
    | Plain(leaf: Leaf)
    | Table(entries: map<Key, Leaf>)

  type FieldMap = map<Key, Value>

  const TWO63: int := 0x8000_0000_0000_0000
  const TWO64: int := 0x1_0000_0000_0000_0000

  const REPLY_TO: int := 0x30
  const REPLY_QUOTE: int := 0x31
  const REACTION: int := 0x40
  const COMMENT: int := 0x41
  const CONTINUATION: int := 0x42
  const TARGET: int := 0x00
  const CUSTOM_TYPE: int := 0xFB
  const CUSTOM_DATA: int := 0xFC

  predicate AllDigits(s: Bytes) { forall i :: 0 <= i < |s| ==> 48 <= s[i] <= 57 }

  function DigitsValue(s: Bytes): nat
    requires AllDigits(s)
  {
    if s == [] then 0 else 10 * DigitsValue(s[..|s| - 1]) + (s[|s| - 1] - 48)
  }

  /** `strconv.Atoi` on a 64-bit platform. */
  function Atoi(s: Bytes): Option<int> {
    var signed := |s| > 0 && (s[0] == 45 || s[0] == 43);
    var body := if signed then s[1..] else s;
    if body == [] || !AllDigits(body) then None
    else
      var n: int := DigitsValue(body);
      var v := if signed && s[0] == 45 then -n else n;
      if -TWO63 <= v < TWO63 then Some(v) else None
  }

  /** `keyAsInt`: every integer width converts with `int(v)`, which wraps the top
      half of the unsigned 64-bit range; numeric strings count too. */
  function KeyAsInt(k: Key): Option<int> {
    match k
    case IntKey(kind, v) => Some(if (kind.Uint? || kind.Uint64?) && v >= TWO63 then v - TWO64 else v)
    case TextKey(text) => Atoi(text)
    case OddKey(_) => None
  }

  /** At most one key per integer value. */
  predicate OneKeyEach(keys: set<Key>) {
    forall a, b :: a in keys && b in keys && KeyAsInt(a).Some? && KeyAsInt(a) == KeyAsInt(b) ==> a == b
  }

  predicate Canonical(f: FieldMap) {
    && OneKeyEach(f.Keys)
    && (forall k :: k in f && f[k].Table? ==> OneKeyEach(f[k].entries.Keys))
  }

  /** The key carrying this number, if any. */
  ghost function Find(keys: set<Key>, n: int): (k: Option<Key>)
    ensures k.Some? ==> k.value in keys && KeyAsInt(k.value) == Some(n)
    ensures k.None? ==> forall x :: x in keys ==> KeyAsInt(x) != Some(n)
  {
    if exists x :: x in keys && KeyAsInt(x) == Some(n) then
      var x :| x in keys && KeyAsInt(x) == Some(n); Some(x)
    else None
  }

  lemma FindUnique(keys: set<Key>, n: int, k: Key)
    requires OneKeyEach(keys) && k in keys && KeyAsInt(k) == Some(n)
    ensures Find(keys, n) == Some(k)
  {
  }

  /** `asHashBytes`: bytes as they are; text as its bytes, except that 64 hex
      digits are a hex-encoded hash. */
  function AsHash(v: Leaf): Option<Bytes> {
    match v
    case Blob(b) => Some(b)
    case Text(t) =>
      if |t| == 64 && AllHex(t) && Decode(t).Some? then Decode(t) else Some(t)
    case Odd(_) => None
  }

  /** The hash a reaction, comment or continuation points at. */
  ghost function DictTarget(v: Value): Option<Bytes> {
    match v
    case Plain(_) => None
    case Table(m) =>
      var k := Find(m.Keys, TARGET);
      if k.None? then None else AsHash(m[k.value])
  }

  /** The three ways a client may ship a 32-byte hash all read back as that hash. */
  lemma CarriersAgree(raw: Bytes, text: Bytes)
    requires |raw| == 32 && Decode(text) == Some(raw)
    ensures AsHash(Blob(raw)) == AsHash(Text(raw)) == AsHash(Text(text)) == Some(raw)
  {
    DecodeDefined(text);
  }
}
