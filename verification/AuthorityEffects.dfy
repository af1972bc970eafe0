/** What each command does when it is allowed, as one whole new state: the other half of the
    "only by right" laws. */
module AuthorityEffects {
  import opened Prelude
  import opened Hex
  import opened Text
  import opened Members
  import opened Nickname
  import opened Authority
  import opened AuthorityRuns

  /** The roster once this sender's message has been noticed: a member is present now. */
  function Noticed(s: State, h: Hash, now: Time): State {
    if h in s.users then s.(users := s.users[h := s.users[h].(lastCommandAt := now, invited := false)]) else s
  }

  /** A sender whose messages are looked at. */
  predicate Speaks(w: World, raw: Bytes) { |raw| == 16 && Encode(raw) !in w.s.banned }

  /** The state after a command from this sender. */
  ghost function After(w: World, raw: Bytes, c: Command): State { Apply(w, Inbound(raw, Cmd(c))).s }

  lemma AfterIs(w: World, raw: Bytes, c: Command)
    requires Speaks(w, raw)
    ensures After(w, raw, c) == Dispatched(w.cfg, Noticed(w.s, Encode(raw), w.clock), raw, c, w.clock)
  {
    assert Touch(w.s, raw, w.clock) == Noticed(w.s, Encode(raw), w.clock);
  }

  /** Being noticed changes nobody's name, role or membership, so nobody's powers and nothing
      that a query finds. */
  lemma NoticedFrame(cfg: Config, s: State, h: Hash, now: Time)
    ensures var t := Noticed(s, h, now);
            && t.users.Keys == s.users.Keys && t.banned == s.banned
            && (forall x :: Effective(cfg, t, x) == Effective(cfg, s, x))
            && (forall q :: Resolve(t, q) == Resolve(s, q))
  {
    var t := Noticed(s, h, now);
    forall q
      ensures Resolve(t, q) == Resolve(s, q)
    {
      assert Named(t, Folded(q)) == Named(s, Folded(q));
      assert Prefixed(t, Folded(q)) == Prefixed(s, Folded(q));
      assert Resolves(t, q, Resolve(s, q));
      ResolvesUnique(t, q, Resolve(t, q), Resolve(s, q));
    }
  }

  // ---- Powers --------------------------------------------------------------

  /** Who is effectively what: an admin is listed as one or is a member with that role; mods
      likewise, and every admin is at least a mod. */
  lemma EffectiveExactly(cfg: Config, s: State, h: Hash)
    requires |h| == 32
    ensures Effective(cfg, s, h) == RoleAdmin <==> h in cfg.admins || (h in s.users && s.users[h].role == RoleAdmin)
    ensures Effective(cfg, s, h).AtLeastMod() <==>
            h in cfg.admins || h in cfg.mods || (h in s.users && s.users[h].role != RoleUser)
  {
  }

  /** "admin", "mod" and "user", in any mixture of cases. */
  predicate IsWord(word: Bytes, role: Role) {
    Lower(word) == match role
      case RoleAdmin => [97, 100, 109, 105, 110]
      case RoleMod => [109, 111, 100]
      case RoleUser => [117, 115, 101, 114]
  }

  /** The one thing an admin may not do: take its own runtime admin role away. */
  predicate SelfDemotion(cfg: Config, caller: Hash, h: Hash, role: Role) {
    h == caller && role != RoleAdmin && caller !in cfg.admins
  }

  /** `/usermode WORD USER` from an effective admin gives the member it names the role the word
      says, and changes nothing else. */
  lemma UserModeDoes(w: World, raw: Bytes, word: Bytes, arg: Bytes, h: Hash, role: Role)
    requires Speaks(w, raw) && Effective(w.cfg, w.s, Encode(raw)) == RoleAdmin
    requires IsWord(word, role) && Resolve(w.s, arg) == Exactly(h)
    ensures h in w.s.users
    ensures var s := Noticed(w.s, Encode(raw), w.clock);
            After(w, raw, UserMode([word, arg])) ==
            if SelfDemotion(w.cfg, Encode(raw), h, role) then s
            else s.(users := s.users[h := s.users[h].(role := role)])
  {
    AfterIs(w, raw, UserMode([word, arg]));
    NoticedFrame(w.cfg, w.s, Encode(raw), w.clock);
  }

  /** Any other word, number of arguments or caller, or a name that finds nobody, and nothing
      happens. */
  lemma UserModeElse(w: World, raw: Bytes, args: seq<Bytes>)
    requires Speaks(w, raw)
    requires || Effective(w.cfg, w.s, Encode(raw)) != RoleAdmin || |args| != 2
             || (forall role :: !IsWord(args[0], role)) || !Resolve(w.s, args[1]).Exactly?
    ensures After(w, raw, UserMode(args)) == Noticed(w.s, Encode(raw), w.clock)
  {
    AfterIs(w, raw, UserMode(args));
    NoticedFrame(w.cfg, w.s, Encode(raw), w.clock);
    if |args| == 2 {
      assert forall role :: RequestedRole(args[0]) == Some(role) ==> IsWord(args[0], role);
    }
  }

  // ---- Membership ----------------------------------------------------------

  /** Room for one more. */
  predicate Room(w: World) { w.cfg.maxMembers <= 0 || |w.s.users| < w.cfg.maxMembers }

  /** `/join` from somebody who is not a member works exactly when the group is open or lists
      them, and there is room. */
  lemma JoinExactly(w: World, raw: Bytes, name: seq<int>)
    requires Speaks(w, raw) && Encode(raw) !in w.s.users
    ensures After(w, raw, Join(name)) ==
            if (!w.cfg.locked || Listed(w.cfg, Encode(raw))) && Room(w)
            then w.s.(users := w.s.users[Encode(raw) :=
                        User(Sanitized(name), w.clock, w.clock, ZERO, ZERO, false, false, false, RoleUser)])
            else w.s
  {
    AfterIs(w, raw, Join(name));
  }

  /** `/adduser ADDRESS` from at least a mod works exactly when the address is no member's, not
      banned, and there is room. */
  lemma AddUserExactly(w: World, raw: Bytes, arg: Bytes, h: Hash, name: seq<int>)
    requires Speaks(w, raw) && Folded(arg) == h && IsHash(h)
    ensures var s := Noticed(w.s, Encode(raw), w.clock);
            After(w, raw, AddUser([arg], name)) ==
            if Effective(w.cfg, w.s, Encode(raw)).AtLeastMod() && h !in w.s.users && h !in w.s.banned && Room(w)
            then s.(users := s.users[h :=
                      User(Sanitized(name), w.clock, ZERO, ZERO, ZERO, false, false, true, RoleUser)])
            else s
  {
    AfterIs(w, raw, AddUser([arg], name));
    NoticedFrame(w.cfg, w.s, Encode(raw), w.clock);
    NormalHash(h);
    assert |Noticed(w.s, Encode(raw), w.clock).users.Keys| == |w.s.users.Keys|;
  }

  /** `/removeuser` and `/kick` take exactly the member they name off the roster. */
  lemma RemoveDoes(w: World, raw: Bytes, arg: Bytes, h: Hash, c: Command)
    requires Speaks(w, raw) && Effective(w.cfg, w.s, Encode(raw)).AtLeastMod() && Resolve(w.s, arg) == Exactly(h)
    requires c == RemoveUser([arg]) || c == Kick([arg])
    ensures var s := Noticed(w.s, Encode(raw), w.clock);
            After(w, raw, c) == State(s.users - {h}, s.banned)
  {
    AfterIs(w, raw, c);
    NoticedFrame(w.cfg, w.s, Encode(raw), w.clock);
  }

  /** `/ban` takes exactly the member it names off the roster and onto the banlist. */
  lemma BanDoes(w: World, raw: Bytes, arg: Bytes, h: Hash)
    requires Speaks(w, raw) && Effective(w.cfg, w.s, Encode(raw)).AtLeastMod() && Resolve(w.s, arg) == Exactly(h)
    ensures var s := Noticed(w.s, Encode(raw), w.clock);
            After(w, raw, BanUser([arg])) == State(s.users - {h}, s.banned + {h})
  {
    AfterIs(w, raw, BanUser([arg]));
    NoticedFrame(w.cfg, w.s, Encode(raw), w.clock);
  }

  /** `/unban` with a banned hash, in any case, lifts exactly that ban. */
  lemma UnbanDoes(w: World, raw: Bytes, arg: Bytes, h: Hash)
    requires Speaks(w, raw) && Effective(w.cfg, w.s, Encode(raw)).AtLeastMod() && Folded(arg) == h && h in w.s.banned
    ensures var s := Noticed(w.s, Encode(raw), w.clock);
            After(w, raw, UnbanUser([arg])) == State(s.users, s.banned - {h})
  {
    AfterIs(w, raw, UnbanUser([arg]));
    NoticedFrame(w.cfg, w.s, Encode(raw), w.clock);
  }

  /** None of these does anything at the hand of somebody who is less than a mod. */
  lemma PowerlessDoNothing(w: World, raw: Bytes, c: Command)
    requires Speaks(w, raw) && !Effective(w.cfg, w.s, Encode(raw)).AtLeastMod()
    requires c.AddUser? || c.RemoveUser? || c.Kick? || c.BanUser? || c.UnbanUser? || c.UserMode?
    ensures After(w, raw, c) == Noticed(w.s, Encode(raw), w.clock)
  {
    AfterIs(w, raw, c);
    NoticedFrame(w.cfg, w.s, Encode(raw), w.clock);
  }

  // ---- A member's own commands ---------------------------------------------

  /** `/leave`, `/pause`, `/resume`, `/textonly` and `/showall` from a member: the whole new
      state. */
  lemma OwnCommandsDo(w: World, raw: Bytes)
    requires Speaks(w, raw) && Encode(raw) in w.s.users
    ensures var h := Encode(raw);
            var s := Noticed(w.s, h, w.clock);
            && After(w, raw, Leave) == State(s.users - {h}, s.banned)
            && After(w, raw, Pause) == s.(users := s.users[h := s.users[h].(paused := true)])
            && After(w, raw, Resume) == s.(users := s.users[h := s.users[h].(paused := false)])
            && After(w, raw, TextOnly) == s.(users := s.users[h := s.users[h].(textOnly := true)])
            && After(w, raw, ShowAll) == s.(users := s.users[h := s.users[h].(textOnly := false)])
  {
    AfterIs(w, raw, Leave);
    AfterIs(w, raw, Pause);
    AfterIs(w, raw, Resume);
    AfterIs(w, raw, TextOnly);
    AfterIs(w, raw, ShowAll);
  }

  /** `/nick NAME` renames a member, `/nick USER NAME` from at least a mod the member it names,
      if the name matches the pattern; otherwise nothing happens. */
  lemma NickDoes(w: World, raw: Bytes, name: Bytes, arg: Bytes, h: Hash)
    requires Speaks(w, raw) && Encode(raw) in w.s.users
    requires Effective(w.cfg, w.s, Encode(raw)).AtLeastMod() && Resolve(w.s, arg) == Exactly(h)
    ensures h in w.s.users
    ensures var s := Noticed(w.s, Encode(raw), w.clock);
            var fits := 1 <= |name| <= 24 && forall i :: 0 <= i < |name| ==> NickByte(name[i]);
            && After(w, raw, Nick([name])) ==
               (if fits then s.(users := s.users[Encode(raw) := s.users[Encode(raw)].(nick := name)]) else s)
            && After(w, raw, Nick([arg, name])) ==
               (if fits then s.(users := s.users[h := s.users[h].(nick := name)]) else s)
  {
    AfterIs(w, raw, Nick([name]));
    AfterIs(w, raw, Nick([arg, name]));
    NoticedFrame(w.cfg, w.s, Encode(raw), w.clock);
  }

  // ---- Chat and announces --------------------------------------------------

  /** Chat within the limit from an active member counts as presence and as speech; over the
      limit, or while paused, as presence only; from anybody else as nothing. */
  lemma ChatDoes(w: World, raw: Bytes, over: bool)
    requires Speaks(w, raw)
    ensures var h := Encode(raw);
            var s := Noticed(w.s, h, w.clock);
            Apply(w, Inbound(raw, Chat(over))).s ==
            if h in s.users && !s.users[h].paused && !over
            then s.(users := s.users[h := s.users[h].(lastMessageAt := w.clock)])
            else s
  {
    assert Touch(w.s, raw, w.clock) == Noticed(w.s, Encode(raw), w.clock);
  }

  /** A banned sender changes nothing, whatever it sends. */
  lemma BannedDoNothing(w: World, raw: Bytes, p: Payload)
    requires |raw| == 16 && Encode(raw) in w.s.banned
    ensures Apply(w, Inbound(raw, p)).s == w.s
  {
  }

  /** An announce emitted at `t` moves a member's announce clock to `t` when that is later, and
      to now when it is dated in the future or not at all; an older one, a replay, moves
      nothing. A member without a nickname takes the announced one. Nobody else is touched. */
  lemma AnnounceDoes(w: World, raw: Bytes, emitted: Option<Time>, name: seq<int>)
    requires |raw| == 16 && Encode(raw) in w.s.users
    ensures var h := Encode(raw);
            var u := w.s.users[h];
            var at := if emitted.None? || emitted.value > w.clock then w.clock else emitted.value;
            var fresh_ := at > u.lastAnnounceAt;
            Apply(w, Announce(raw, emitted, name)).s ==
            w.s.(users := w.s.users[h := u.(
                   lastAnnounceAt := if fresh_ then at else u.lastAnnounceAt,
                   invited := u.invited && !fresh_,
                   nick := if u.nick == [] then Sanitized(name) else u.nick)])
  {
    var h := Encode(raw);
    assert w.s.users[h := w.s.users[h]] == w.s.users;
  }

  // ---- Names ---------------------------------------------------------------

  /** A nickname that one member has, in any mixture of cases, names that member; one that
      several have names nobody. */
  lemma NickResolves(s: State, query: Bytes, h: Hash)
    requires h in s.users && Folded(query) != [] && Lower(s.users[h].nick) == Folded(query)
    ensures Resolve(s, query) == Exactly(h) <==>
            forall x :: x in s.users && Lower(s.users[x].nick) == Folded(query) ==> x == h
    ensures !Resolve(s, query).NoMatch?
  {
    var q := Folded(query);
    assert h in Named(s, q);
    if forall x :: x in s.users && Lower(s.users[x].nick) == q ==> x == h {
      assert Named(s, q) == {h};
      ResolvesUnique(s, query, Resolve(s, query), Exactly(h));
    } else {
      var x :| x in s.users && Lower(s.users[x].nick) == q && x != h;
      assert x in Named(s, q);
    }
  }

  /** At least four hex digits that are nobody's nickname and begin one member's hash name that
      member. */
  lemma PrefixResolves(s: State, query: Bytes, h: Hash)
    requires h in s.users && |Folded(query)| >= 4 && LowerHex(Folded(query)) && Folded(query) <= h
    requires forall x :: x in s.users ==> Lower(s.users[x].nick) != Folded(query)
    ensures Resolve(s, query) == Exactly(h) <==> forall x :: x in s.users && Folded(query) <= x ==> x == h
    ensures !Resolve(s, query).NoMatch?
  {
    var q := Folded(query);
    assert Named(s, q) == {};
    assert h in Prefixed(s, q);
    if forall x :: x in s.users && q <= x ==> x == h {
      assert Prefixed(s, q) == {h};
      ResolvesUnique(s, query, Resolve(s, query), Exactly(h));
    } else {
      var x :| x in s.users && q <= x && x != h;
      assert x in Prefixed(s, q);
    }
  }
}
