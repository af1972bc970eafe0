/** The roster and the banlist (internal/roster/roster.go) as values. `Roster` changes
    them in place. */
module Members {
  import opened Prelude
  import opened Hex
  import opened Text

  /** Lower-case hex of a 16-byte destination hash. */
  type Hash = Bytes

  datatype Role = RoleUser | RoleMod | RoleAdmin
  {
    function Rank(): nat { match this case RoleUser => 0 case RoleMod => 1 case RoleAdmin => 2 }

    predicate AtLeastMod() { this == RoleMod || this == RoleAdmin }
  }

  function Higher(a: Role, b: Role): Role { if b.Rank() > a.Rank() then b else a }

  /** Go's zero time. */
  const ZERO: Time := -62_135_596_800 * SECOND

  datatype User = User(
    nick: Bytes,
    joinedAt: Time,
    lastMessageAt: Time,
    lastAnnounceAt: Time,
    lastCommandAt: Time,
    paused: bool,
    textOnly: bool,
    invited: bool,
    role: Role)

  datatype State = State(users: map<Hash, User>, banned: set<Hash>)

  function NewUser(now: Time, invited: bool): User { User([], now, ZERO, ZERO, ZERO, false, false, invited, RoleUser) }

  /** `LastSeen` is the latest of the four instants. */
  function LastSeen(u: User): (t: Time)
    ensures t >= u.joinedAt && t >= u.lastMessageAt && t >= u.lastAnnounceAt && t >= u.lastCommandAt
    ensures t == u.joinedAt || t == u.lastMessageAt || t == u.lastAnnounceAt || t == u.lastCommandAt
  {
    var last := u.joinedAt;
    var last := if u.lastMessageAt > last then u.lastMessageAt else last;
    var last := if u.lastAnnounceAt > last then u.lastAnnounceAt else last;
    if u.lastCommandAt > last then u.lastCommandAt else last
  }

  /** `LastSpoke` ignores announces and commands. */
  function LastSpoke(u: User): (t: Time)
    ensures t >= u.joinedAt && t >= u.lastMessageAt && (t == u.joinedAt || t == u.lastMessageAt)
  {
    if u.lastMessageAt > u.joinedAt then u.lastMessageAt else u.joinedAt
  }

  /** `normalizeHash`: only 16-byte hashes name anybody. */
  function HashOf(raw: Bytes): Option<Hash> { if |raw| == 16 then Some(Encode(raw)) else None }

  function Known(s: State, raw: Bytes): bool { HashOf(raw).Some? && HashOf(raw).value in s.users }

  function Amend(s: State, h: Hash, u: User): State { s.(users := s.users[h := u]) }

  function AddOrUpdate(s: State, raw: Bytes, now: Time): State {
    var h := HashOf(raw);
    if h.None? then s
    else
      var u := if h.value in s.users then s.users[h.value] else NewUser(now, false);
      Amend(s, h.value, u.(lastMessageAt := now))
  }

  function AddInvited(s: State, raw: Bytes, now: Time): State {
    var h := HashOf(raw);
    if h.None? || h.value in s.users then s else Amend(s, h.value, NewUser(now, true))
  }

  function Touch(s: State, raw: Bytes, now: Time): State {
    if !Known(s, raw) then s
    else
      var h := HashOf(raw).value;
      Amend(s, h, s.users[h].(lastCommandAt := now, invited := false))
  }

  function MarkMessage(s: State, raw: Bytes, now: Time): State {
    if !Known(s, raw) then s
    else
      var h := HashOf(raw).value;
      Amend(s, h, s.users[h].(lastMessageAt := now, invited := false))
  }

  function UpdateLastAnnounce(s: State, raw: Bytes, at: Time): State {
    if !Known(s, raw) || at <= s.users[HashOf(raw).value].lastAnnounceAt then s
    else
      var h := HashOf(raw).value;
      Amend(s, h, s.users[h].(lastAnnounceAt := at, invited := false))
  }

  predicate Prunable(u: User, now: Time, idle: Time, silent: Time) {
    !u.invited && (LastSeen(u) < now - idle || (silent > 0 && LastSpoke(u) < now - silent))
  }

  function Prune(s: State, now: Time, idle: Time, silent: Time): State {
    s.(users := map h | h in s.users && !Prunable(s.users[h], now, idle, silent) :: s.users[h])
  }

  function Remove(s: State, h: Hash): State { s.(users := s.users - {h}) }

  function SetNickname(s: State, h: Hash, nick: Bytes): State {
    if h in s.users then Amend(s, h, s.users[h].(nick := nick)) else s
  }

  function SetPaused(s: State, h: Hash, on: bool): State {
    if h in s.users then Amend(s, h, s.users[h].(paused := on)) else s
  }

  function SetTextOnly(s: State, h: Hash, on: bool): State {
    if h in s.users then Amend(s, h, s.users[h].(textOnly := on)) else s
  }

  function SetRole(s: State, h: Hash, role: Role): State {
    if h in s.users then Amend(s, h, s.users[h].(role := role)) else s
  }

  function Ban(s: State, h: Hash): State { State(s.users - {h}, s.banned + {h}) }

  function Unban(s: State, h: Hash): State { s.(banned := s.banned - {h}) }

  // ---- Finding a member ----------------------------------------------------

  datatype Found = Exactly(h: Hash) | Ambiguous | NoMatch

  function Named(s: State, q: Bytes): set<Hash> { set h | h in s.users && Lower(s.users[h].nick) == q }

  function Prefixed(s: State, q: Bytes): set<Hash> { set h | h in s.users && q <= h }

  /** The answer for a set of matches. */
  ghost predicate Answers(matches: set<Hash>, f: Found) {
    match f
    case Exactly(h) => matches == {h}
    case Ambiguous => |matches| > 1
    case NoMatch => matches == {}
  }

  /** `Resolve`: nicknames first, then hash prefixes of at least four digits. */
  ghost predicate Resolves(s: State, query: Bytes, f: Found) {
    var q := Folded(query);
    if q == [] then f == NoMatch
    else if Named(s, q) != {} then Answers(Named(s, q), f)
    else if LowerHex(q) && |q| >= 4 then Answers(Prefixed(s, q), f)
    else f == NoMatch
  }

  lemma {:induction false} OneElement(m: set<Hash>, h: Hash)
    requires |m| == 1 && h in m
    ensures m == {h}
  {
    assert |m - {h}| == 0;
  }

  ghost function AnswerTo(m: set<Hash>): (f: Found)
    ensures Answers(m, f)
  {
    if m == {} then NoMatch
    else
      assert exists h :: h in m;
      var h :| h in m;
      if |m| == 1 then
        OneElement(m, h);
        Exactly(h)
      else
        Ambiguous
  }

  /** The answer to a query. */
  ghost function Resolve(s: State, query: Bytes): (f: Found)
    ensures Resolves(s, query, f)
    ensures f.Exactly? ==> f.h in s.users
  {
    var q := Folded(query);
    if q == [] then NoMatch
    else if Named(s, q) != {} then
      var f := AnswerTo(Named(s, q));
      assert f.Exactly? ==> f.h in Named(s, q);
      f
    else if LowerHex(q) && |q| >= 4 then
      var f := AnswerTo(Prefixed(s, q));
      assert f.Exactly? ==> f.h in Prefixed(s, q);
      f
    else NoMatch
  }

  lemma AnswersUnique(matches: set<Hash>, f: Found, g: Found)
    requires Answers(matches, f) && Answers(matches, g)
    ensures f == g
  {
    if f.Exactly? && g.Exactly? {
      assert f.h in matches && f.h in {g.h};
    }
  }

  /** There is one answer to every query. */
  lemma ResolvesUnique(s: State, query: Bytes, f: Found, g: Found)
    requires Resolves(s, query, f) && Resolves(s, query, g)
    ensures f == g
  {
    var q := Folded(query);
    if q != [] {
      if Named(s, q) != {} {
        AnswersUnique(Named(s, q), f, g);
      } else if LowerHex(q) && |q| >= 4 {
        AnswersUnique(Prefixed(s, q), f, g);
      }
    }
  }

  /** What the slice of matches says. */
  function Verdict(s: seq<Hash>): Found {
    if |s| == 1 then Exactly(s[0]) else if |s| > 1 then Ambiguous else NoMatch
  }

  lemma VerdictAnswers(s: seq<Hash>, all: set<Hash>)
    requires Lists(s, all)
    ensures Answers(all, Verdict(s))
  {
    ListsSize(s, all);
    if |s| == 1 {
      assert s[0] in s;
      assert forall h :: h in all ==> h == s[0];
    }
  }
}
