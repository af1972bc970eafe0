/** Who gets in, who gets powers and who stays out, over every run of commands, chat,
    announces, sweeps and restarts. */
module AuthorityRuns {
  import opened Prelude
  import opened Hex
  import opened Text
  import opened Members
  import opened Nickname
  import opened Authority

  datatype World = World(cfg: Config, s: State, clock: Time)

  datatype Event =
    | Inbound(raw: Bytes, p: Payload)
    | Announce(raw: Bytes, emitted: Option<Time>, name: seq<int>)
    | Sweep(idle: Time, silent: Time)
    | Restart(cfg: Config)
    | Tick(t: Time)

  /** A listed hash as `config.Load` accepts it: 32 lower-case hex digits. */
  predicate IsHash(h: Hash) { |h| == 32 && LowerHex(h) }

  /** Why: list entries are trimmed and lower-cased before they are checked to decode to
      sixteen bytes. */
  lemma AcceptedIsHash(entry: Bytes)
    requires Decode(Folded(entry)).Some? && |Decode(Folded(entry)).value| == 16
    ensures IsHash(Folded(entry))
  {
    var h := Folded(entry);
    DecodeDefined(h);
    var t := Trim(entry, SPACES);
    forall i | 0 <= i < |h|
      ensures 48 <= h[i] <= 57 || 97 <= h[i] <= 102
    {
      assert h[i] == LowerByte(t[i]) && Nibble(h[i]) >= 0;
    }
  }

  predicate ValidConfig(cfg: Config) { forall h :: h in cfg.admins + cfg.mods ==> IsHash(h) }

  predicate Enabled(w: World, e: Event) {
    match e
    case Restart(cfg) => ValidConfig(cfg)
    case Tick(t) => w.clock <= t
    case _ => true
  }

  ghost function Apply(w: World, e: Event): World {
    match e
    case Inbound(raw, p) => w.(s := Received(w.cfg, w.s, raw, p, w.clock))
    case Announce(raw, emitted, name) => w.(s := Heard(w.s, raw, emitted, name, w.clock))
    case Sweep(idle, silent) => w.(s := Prune(w.s, w.clock, idle, silent))
    case Restart(cfg) => w.(cfg := cfg, s := Enlisted(cfg, w.s, w.clock))
    case Tick(t) => w.(clock := t)
  }

  ghost predicate Run(ws: seq<World>, es: seq<Event>) {
    && |ws| == |es| + 1
    && (forall i {:trigger es[i]} :: 0 <= i < |es| ==> Enabled(ws[i], es[i]) && ws[i + 1] == Apply(ws[i], es[i]))
  }

  lemma Step(ws: seq<World>, es: seq<Event>, i: nat)
    requires Run(ws, es) && i < |es|
    ensures Enabled(ws[i], es[i]) && ws[i + 1] == Apply(ws[i], es[i])
  {
  }

  // ---- Getting in ----------------------------------------------------------

  lemma NormalHash(h: Hash)
    requires IsHash(h)
    ensures Decode(h).Some? && |Decode(h).value| == 16 && Encode(Decode(h).value) == h
  {
    EncodeDecode(h);
  }

  /** Start-up enrolment adds exactly the listed hashes that were missing. */
  lemma {:induction false} EnrolledExactly(s: State, hs: seq<Hash>, now: Time)
    requires forall h :: h in hs ==> IsHash(h)
    ensures var t := Enrolled(s, hs, now);
            && t.banned == s.banned
            && (forall h :: h in t.users <==> h in s.users || h in hs)
            && (forall h :: h in s.users ==> t.users[h] == s.users[h])
            && (forall h :: h in t.users && h !in s.users ==> t.users[h] == NewUser(now, true))
  {
    if |hs| > 0 {
      var last := hs[|hs| - 1];
      assert last in hs;
      NormalHash(last);
      EnrolledExactly(s, hs[..|hs| - 1], now);
      assert hs == hs[..|hs| - 1] + [last];
    }
  }

  lemma TouchFrame(s: State, raw: Bytes, now: Time)
    ensures var t := Touch(s, raw, now);
            && t.users.Keys == s.users.Keys && t.banned == s.banned
            && (forall h :: h in s.users ==> t.users[h].role == s.users[h].role && t.users[h].nick == s.users[h].nick)
    ensures forall cfg, h :: Effective(cfg, Touch(s, raw, now), h) == Effective(cfg, s, h)
  {
  }

  /** Is this step one that may bring this hash into the roster? */
  ghost predicate MayAdmit(w: World, e: Event, h: Hash) {
    match e
    case Restart(cfg) => Listed(cfg, h)
    case Inbound(raw, Cmd(Join(_))) => h == Encode(raw) && h !in w.s.banned && (w.cfg.locked ==> Listed(w.cfg, h))
    case Inbound(raw, Cmd(AddUser(args, _))) =>
      && Effective(w.cfg, w.s, Encode(raw)).AtLeastMod() && h !in w.s.banned
      && |args| == 1 && Address(args[0]).Some? && h == Encode(Address(args[0]).value)
    case _ => false
  }

  lemma AdmittedByCommand(cfg: Config, s: State, raw: Bytes, c: Command, now: Time, h: Hash)
    requires h !in s.users && h in Dispatched(cfg, s, raw, c, now).users
    ensures h !in s.banned
    ensures c.Join? || c.AddUser?
    ensures c.Join? ==> h == Encode(raw) && (cfg.locked ==> Listed(cfg, h))
    ensures c.AddUser? ==> Effective(cfg, s, Encode(raw)).AtLeastMod()
                           && |c.args| == 1 && Address(c.args[0]).Some? && h == Encode(Address(c.args[0]).value)
  {
  }

  /** A hash enters the roster only by right. */
  lemma EntryByRight(w: World, e: Event, h: Hash)
    requires Enabled(w, e) && h !in w.s.users && h in Apply(w, e).s.users
    ensures MayAdmit(w, e, h)
  {
    match e
    case Inbound(raw, p) =>
      TouchFrame(w.s, raw, w.clock);
      if p.Cmd? {
        AdmittedByCommand(w.cfg, Touch(w.s, raw, w.clock), raw, p.c, w.clock, h);
      }
    case Restart(cfg) => EnrolledExactly(w.s, cfg.admins + cfg.mods, w.clock);
    case _ =>
  }

  /** Every member was there at the start or was let in, by right, at some step since
      which it has stayed. */
  lemma {:induction false} MemberByRight(ws: seq<World>, es: seq<Event>, n: nat, h: Hash) returns (i: nat)
    requires Run(ws, es) && n < |ws| && h in ws[n].s.users
    ensures i <= n && forall k :: i <= k <= n ==> h in ws[k].s.users
    ensures i == 0 || (h !in ws[i - 1].s.users && MayAdmit(ws[i - 1], es[i - 1], h))
  {
    if n == 0 {
      i := 0;
    } else if h in ws[n - 1].s.users {
      i := MemberByRight(ws, es, n - 1, h);
    } else {
      Step(ws, es, n - 1);
      EntryByRight(ws[n - 1], es[n - 1], h);
      i := n;
    }
  }

  // ---- Powers --------------------------------------------------------------

  predicate Holds(s: State, h: Hash, r: Role) { h in s.users && s.users[h].role == r }

  /** Does this step grant this role to this hash, at an admin's hand? */
  ghost predicate Grants(w: World, e: Event, h: Hash, r: Role) {
    && e.Inbound? && e.p.Cmd? && e.p.c.UserMode?
    && Effective(w.cfg, w.s, Encode(e.raw)) == RoleAdmin
    && Grant(w.cfg, Touch(w.s, e.raw, w.clock), Encode(e.raw), e.p.c.args) == Some((h, r))
  }

  lemma RaisedByCommand(cfg: Config, s: State, raw: Bytes, c: Command, now: Time, h: Hash, r: Role)
    requires r != RoleUser && !Holds(s, h, r) && Holds(Dispatched(cfg, s, raw, c, now), h, r)
    ensures c.UserMode? && Grant(cfg, s, Encode(raw), c.args) == Some((h, r))
    ensures Effective(cfg, s, Encode(raw)) == RoleAdmin
  {
    hide Resolve, Sanitized, Folded;
  }

  lemma PowerByGrant(w: World, e: Event, h: Hash, r: Role)
    requires Enabled(w, e) && r != RoleUser && !Holds(w.s, h, r) && Holds(Apply(w, e).s, h, r)
    ensures Grants(w, e, h, r)
  {
    match e
    case Inbound(raw, p) =>
      TouchFrame(w.s, raw, w.clock);
      if p.Cmd? {
        RaisedByCommand(w.cfg, Touch(w.s, raw, w.clock), raw, p.c, w.clock, h, r);
      }
    case Restart(cfg) => EnrolledExactly(w.s, cfg.admins + cfg.mods, w.clock);
    case _ =>
  }

  /** Every runtime role was held from the start or granted by somebody who was
      effectively an admin at that moment, and has been held ever since. */
  lemma {:induction false} PowerHasGrantor(ws: seq<World>, es: seq<Event>, n: nat, h: Hash, r: Role) returns (i: nat)
    requires Run(ws, es) && n < |ws| && r != RoleUser && Holds(ws[n].s, h, r)
    ensures i <= n && forall k :: i <= k <= n ==> Holds(ws[k].s, h, r)
    ensures i == 0 || (!Holds(ws[i - 1].s, h, r) && Grants(ws[i - 1], es[i - 1], h, r))
  {
    if n == 0 {
      i := 0;
    } else if Holds(ws[n - 1].s, h, r) {
      i := PowerHasGrantor(ws, es, n - 1, h, r);
    } else {
      Step(ws, es, n - 1);
      PowerByGrant(ws[n - 1], es[n - 1], h, r);
      i := n;
    }
  }

  /** `/usermode` never leaves its own caller without admin powers. */
  lemma NoSelfDemotion(w: World, raw: Bytes, args: seq<Bytes>)
    requires Effective(w.cfg, w.s, Encode(raw)) == RoleAdmin
    ensures var w' := Apply(w, Inbound(raw, Cmd(UserMode(args))));
            Effective(w'.cfg, w'.s, Encode(raw)) == RoleAdmin
  {
    TouchFrame(w.s, raw, w.clock);
  }

  // ---- What else a step may do to a member ----------------------------------

  /** Is the sender of this command somebody who may act on others, and does its argument
      name this member? */
  ghost predicate ModNames(w: World, raw: Bytes, args: seq<Bytes>, h: Hash) {
    && Effective(w.cfg, w.s, Encode(raw)).AtLeastMod()
    && |args| >= 1 && Resolve(Touch(w.s, raw, w.clock), args[0]) == Exactly(h)
  }

  /** Which steps may take this member off the roster. */
  ghost predicate MayExpel(w: World, e: Event, h: Hash)
    requires h in w.s.users
  {
    match e
    case Inbound(raw, Cmd(Leave)) => h == Encode(raw)
    case Inbound(raw, Cmd(RemoveUser(args))) => ModNames(w, raw, args, h)
    case Inbound(raw, Cmd(Kick(args))) => ModNames(w, raw, args, h)
    case Inbound(raw, Cmd(BanUser(args))) => ModNames(w, raw, args, h)
    case Sweep(idle, silent) => Prunable(w.s.users[h], w.clock, idle, silent)
    case _ => false
  }

  lemma ExitByCommand(cfg: Config, s: State, raw: Bytes, c: Command, now: Time, h: Hash)
    requires h in s.users && h !in Dispatched(cfg, s, raw, c, now).users
    ensures c.Leave? || c.RemoveUser? || c.Kick? || c.BanUser?
    ensures c.Leave? ==> h == Encode(raw)
    ensures !c.Leave? ==>
            Effective(cfg, s, Encode(raw)).AtLeastMod() && |c.args| == 1 && Resolve(s, c.args[0]) == Exactly(h)
  {
    hide Resolve, Sanitized, Folded;
  }

  /** A member leaves only by its own `/leave`, by the hand of somebody effectively at least
      mod who named it, or by a sweep whose rules it meets. */
  lemma ExitByRight(w: World, e: Event, h: Hash)
    requires Enabled(w, e) && h in w.s.users && h !in Apply(w, e).s.users
    ensures MayExpel(w, e, h)
  {
    match e
    case Inbound(raw, p) =>
      TouchFrame(w.s, raw, w.clock);
      if p.Cmd? {
        ExitByCommand(w.cfg, Touch(w.s, raw, w.clock), raw, p.c, w.clock, h);
      }
    case Restart(cfg) => EnrolledExactly(w.s, cfg.admins + cfg.mods, w.clock);
    case _ =>
  }

  /** Which steps may rename this member. */
  ghost predicate MayRename(w: World, e: Event, h: Hash)
    requires h in w.s.users
  {
    match e
    case Inbound(raw, Cmd(Nick(args))) => (|args| == 1 && h == Encode(raw)) || (|args| == 2
      && ModNames(w, raw, args, h))
    case Announce(raw, _, _) => h == Encode(raw) && w.s.users[h].nick == []
    case _ => false
  }

  lemma RenamedByCommand(cfg: Config, s: State, raw: Bytes, c: Command, now: Time, h: Hash)
    requires h in s.users && h in Dispatched(cfg, s, raw, c, now).users
    requires Dispatched(cfg, s, raw, c, now).users[h].nick != s.users[h].nick
    ensures c.Nick?
    ensures (|c.args| == 1 && h == Encode(raw)) ||
            (|c.args| == 2 && Effective(cfg, s, Encode(raw)).AtLeastMod() && Resolve(s, c.args[0]) == Exactly(h))
  {
    hide Resolve, Sanitized;
    if c.AddUser? && |c.args| == 1 && Address(c.args[0]).Some? {
      AcceptedIsHash(c.args[0]);
      NormalHash(Folded(c.args[0]));
    }
  }

  /** A nickname is changed only by its owner, by a mod who named the member, or by the
      member's own announce while it has none: announced names never overwrite. */
  lemma RenameByRight(w: World, e: Event, h: Hash)
    requires Enabled(w, e) && h in w.s.users && h in Apply(w, e).s.users
    requires Apply(w, e).s.users[h].nick != w.s.users[h].nick
    ensures MayRename(w, e, h)
  {
    match e
    case Inbound(raw, p) =>
      TouchFrame(w.s, raw, w.clock);
      if p.Cmd? {
        RenamedByCommand(w.cfg, Touch(w.s, raw, w.clock), raw, p.c, w.clock, h);
      }
    case Restart(cfg) => EnrolledExactly(w.s, cfg.admins + cfg.mods, w.clock);
    case _ =>
  }

  lemma BanlistByCommand(cfg: Config, s: State, raw: Bytes, c: Command, now: Time, h: Hash)
    requires (h in s.banned) != (h in Dispatched(cfg, s, raw, c, now).banned)
    ensures Effective(cfg, s, Encode(raw)).AtLeastMod()
    ensures h !in s.banned ==> c.BanUser? && |c.args| == 1 && Resolve(s, c.args[0]) == Exactly(h)
    ensures h in s.banned ==> c.UnbanUser? && |c.args| == 1 && Folded(c.args[0]) <= h
  {
    if h in s.banned && c.UnbanUser? {
      var q := Folded(c.args[0]);
      var f := AnswerTo(set x | x in s.banned && q <= x);
      assert f.Exactly? ==> f.h in set x | x in s.banned && q <= x;
    }
  }

  /** The banlist changes only at the hand of somebody effectively at least mod: a hash
      enters it as the member a `/ban` named, and leaves it by an `/unban` that begins it. */
  lemma BanlistByRight(w: World, e: Event, h: Hash)
    requires Enabled(w, e) && (h in w.s.banned) != (h in Apply(w, e).s.banned)
    ensures e.Inbound? && e.p.Cmd? && Effective(w.cfg, w.s, Encode(e.raw)).AtLeastMod()
    ensures h !in w.s.banned ==> e.p.c.BanUser? && ModNames(w, e.raw, e.p.c.args, h)
    ensures h in w.s.banned ==> e.p.c.UnbanUser? && |e.p.c.args| == 1 && Folded(e.p.c.args[0]) <= h
  {
    match e
    case Inbound(raw, p) =>
      TouchFrame(w.s, raw, w.clock);
      if p.Cmd? {
        BanlistByCommand(w.cfg, Touch(w.s, raw, w.clock), raw, p.c, w.clock, h);
      }
    case Restart(cfg) => EnrolledExactly(w.s, cfg.admins + cfg.mods, w.clock);
    case _ =>
  }

  // ---- The member cap -------------------------------------------------------

  /** A command brings in nobody when the group is full, and otherwise one at most. */
  lemma CapByCommand(cfg: Config, s: State, raw: Bytes, c: Command, now: Time)
    ensures var t := Dispatched(cfg, s, raw, c, now).users;
            && (Full(cfg, s) ==> t.Keys <= s.users.Keys)
            && (exists h :: t.Keys <= s.users.Keys + {h})
  {
    hide Resolve, Sanitized, Folded;
    var t := Dispatched(cfg, s, raw, c, now).users;
    var h := match c
      case AddUser(args, _) => if |args| == 1 && Address(args[0]).Some? then Encode(Address(args[0]).value) else []
      case _ => Encode(raw);
    assert t.Keys <= s.users.Keys + {h};
  }

  lemma CapStep(cfg: Config, s: State, t: map<Hash, User>)
    requires cfg.maxMembers > 0 && |s.users| <= cfg.maxMembers
    requires Full(cfg, s) ==> t.Keys <= s.users.Keys
    requires exists h :: t.Keys <= s.users.Keys + {h}
    ensures |t| <= cfg.maxMembers
  {
    var h :| t.Keys <= s.users.Keys + {h};
    if Full(cfg, s) {
      SubsetSize(t.Keys, s.users.Keys);
    } else {
      SubsetSize(t.Keys, s.users.Keys + {h});
    }
  }

  /** No command, chat, announce or sweep takes the group past its cap. */
  lemma CapKept(w: World, e: Event)
    requires Enabled(w, e) && w.cfg.maxMembers > 0 && |w.s.users| <= w.cfg.maxMembers && !e.Restart?
    ensures |Apply(w, e).s.users| <= w.cfg.maxMembers
  {
    match e
    case Inbound(raw, p) =>
      TouchFrame(w.s, raw, w.clock);
      var t := Touch(w.s, raw, w.clock);
      assert |t.users| == |w.s.users|;
      if p.Cmd? {
        CapByCommand(w.cfg, t, raw, p.c, w.clock);
        CapStep(w.cfg, t, Dispatched(w.cfg, t, raw, p.c, w.clock).users);
      } else {
        SubsetSize(Apply(w, e).s.users.Keys, w.s.users.Keys);
      }
    case Announce(raw, emitted, name) => SubsetSize(Apply(w, e).s.users.Keys, w.s.users.Keys);
    case Sweep(idle, silent) => SubsetSize(Apply(w, e).s.users.Keys, w.s.users.Keys);
    case Tick(_) =>
  }

  /** Everybody the configuration lists. */
  function Roll(cfg: Config): set<Hash> { set h | h in cfg.admins + cfg.mods }

  /** Is there room for every listed hash beside the present members? */
  predicate RoomFor(s: State, cfg: Config) { cfg.maxMembers > 0 ==> |s.users.Keys + Roll(cfg)| <= cfg.maxMembers }

  predicate UnderCap(w: World) { w.cfg.maxMembers > 0 ==> |w.s.users| <= w.cfg.maxMembers }

  lemma RestartCount(w: World, cfg: Config)
    requires Enabled(w, Restart(cfg))
    ensures Apply(w, Restart(cfg)).s.users.Keys == w.s.users.Keys + Roll(cfg)
  {
    EnrolledExactly(w.s, cfg.admins + cfg.mods, w.clock);
  }

  /** Start-up enrolment ignores the cap: a restart ends within it if and only if there is room
      for everybody listed beside the members there are. */
  lemma RestartCapExactly(w: World, cfg: Config)
    requires Enabled(w, Restart(cfg))
    ensures UnderCap(Apply(w, Restart(cfg))) <==> RoomFor(w.s, cfg)
  {
    RestartCount(w, cfg);
    var t := Apply(w, Restart(cfg)).s.users;
    assert |t| == |t.Keys|;
  }

  predicate AlwaysUnderCap(ws: seq<World>, n: nat)
    requires n < |ws|
  {
    forall m :: 0 <= m <= n ==> UnderCap(ws[m])
  }

  predicate AlwaysRoom(ws: seq<World>, es: seq<Event>, n: nat)
    requires n <= |es| < |ws|
  {
    forall i :: 0 <= i < n && es[i].Restart? ==> RoomFor(ws[i].s, es[i].cfg)
  }

  lemma CapStepExactly(w: World, e: Event)
    requires Enabled(w, e) && UnderCap(w)
    ensures UnderCap(Apply(w, e)) <==> (e.Restart? ==> RoomFor(w.s, e.cfg))
  {
    if e.Restart? {
      RestartCapExactly(w, e.cfg);
    } else if w.cfg.maxMembers > 0 {
      CapKept(w, e);
    }
  }

  /** The cap over a whole run: it holds throughout if and only if it holds at the start and
      every restart on the way finds room for everybody it lists. */
  lemma {:induction false} CapExactly(ws: seq<World>, es: seq<Event>, n: nat)
    requires |ws| == |es| + 1 && Run(ws, es) && n < |ws|
    ensures AlwaysUnderCap(ws, n) <==> UnderCap(ws[0]) && AlwaysRoom(ws, es, n)
  {
    hide Run, Apply, UnderCap, RoomFor;
    if n > 0 {
      CapExactly(ws, es, n - 1);
      assert AlwaysUnderCap(ws, n) <==> AlwaysUnderCap(ws, n - 1) && UnderCap(ws[n]);
      assert AlwaysRoom(ws, es, n) <==>
             AlwaysRoom(ws, es, n - 1) && (es[n - 1].Restart? ==> RoomFor(ws[n - 1].s, es[n - 1].cfg));
      Step(ws, es, n - 1);
      if AlwaysUnderCap(ws, n - 1) {
        CapStepExactly(ws[n - 1], es[n - 1]);
      }
    }
  }

  /** The exception is real: a full group of one passes its cap by a restart that lists
      somebody else. */
  lemma RestartOverfills(member: Hash, u: User, admin: Hash, now: Time) returns (ws: seq<World>, es: seq<Event>)
    requires IsHash(admin) && member != admin
    ensures Run(ws, es) && UnderCap(ws[0]) && !UnderCap(ws[|es|])
  {
    var cfg := Config([admin], [], true, 1);
    var w := World(cfg, State(map[member := u], {}), now);
    assert cfg.admins + cfg.mods == [admin];
    assert w.s.users.Keys == {member} && Roll(cfg) == {admin};
    assert w.s.users.Keys + Roll(cfg) == {member, admin};
    RestartCapExactly(w, cfg);
    ws, es := [w, Apply(w, Restart(cfg))], [Restart(cfg)];
  }

  // ---- Staying out ---------------------------------------------------------

  predicate Both(s: State, h: Hash) { h in s.users && h in s.banned }

  lemma BothByCommand(cfg: Config, s: State, raw: Bytes, c: Command, now: Time, h: Hash)
    requires Both(Dispatched(cfg, s, raw, c, now), h)
    ensures Both(s, h)
  {
  }

  /** Only a restart can make a banned hash a member, and only a listed one. */
  lemma BothByRestart(w: World, e: Event, h: Hash)
    requires Enabled(w, e) && !Both(w.s, h)
    ensures Both(Apply(w, e).s, h) <==> e.Restart? && Listed(e.cfg, h) && h in w.s.banned
  {
    match e
    case Inbound(raw, p) =>
      TouchFrame(w.s, raw, w.clock);
      if p.Cmd? && Both(Apply(w, e).s, h) {
        BothByCommand(w.cfg, Touch(w.s, raw, w.clock), raw, p.c, w.clock, h);
      }
    case Restart(cfg) => EnrolledExactly(w.s, cfg.admins + cfg.mods, w.clock);
    case _ =>
  }

  /** A hash that no configuration of the run lists is never both banned and a member,
      unless it was so at the start. */
  lemma {:induction false} BannedStayOut(ws: seq<World>, es: seq<Event>, n: nat, h: Hash)
    requires Run(ws, es) && n < |ws| && !Both(ws[0].s, h)
    requires forall i :: 0 <= i < n && es[i].Restart? ==> !Listed(es[i].cfg, h)
    ensures !Both(ws[n].s, h)
  {
    if n > 0 {
      BannedStayOut(ws, es, n - 1, h);
      Step(ws, es, n - 1);
      BothByRestart(ws[n - 1], es[n - 1], h);
    }
  }

  /** The exception is real: a banned config admin is a member again after a restart. */
  lemma BannedAdminReturns(h: Hash, now: Time)
    requires IsHash(h)
    ensures var cfg := Config([h], [], true, 0);
            var w := World(cfg, State(map[], {h}), now);
            Enabled(w, Restart(cfg)) && Both(Apply(w, Restart(cfg)).s, h)
  {
    var cfg := Config([h], [], true, 0);
    assert cfg.admins + cfg.mods == [h];
    BothByRestart(World(cfg, State(map[], {h}), now), Restart(cfg), h);
  }

  // ---- Names ---------------------------------------------------------------

  /** Keys are hashes and every nickname is empty or matches the pattern. */
  predicate Tidy(s: State) { forall h :: h in s.users ==> IsHash(h) && ValidNick(s.users[h].nick) }

  lemma AdoptTidy(s: State, h: Hash, name: seq<int>)
    requires Tidy(s)
    ensures Tidy(AdoptNick(s, h, name))
  {
    SanitizedClean(name);
  }

  lemma HashTidy(raw: Bytes)
    requires |raw| == 16
    ensures IsHash(Encode(raw))
  {
    EncodeLower(raw);
  }

  lemma TidyByCommand(cfg: Config, s: State, raw: Bytes, c: Command, now: Time)
    requires Tidy(s)
    ensures Tidy(Dispatched(cfg, s, raw, c, now))
  {
    hide Resolve, Sanitized, Folded;
    match c
    case Join(name) =>
      if |raw| == 16 {
        HashTidy(raw);
        AdoptTidy(AddOrUpdate(s, raw, now), Encode(raw), name);
      }
    case AddUser(args, name) =>
      if |args| == 1 && Address(args[0]).Some? {
        HashTidy(Address(args[0]).value);
        AdoptTidy(AddInvited(s, Address(args[0]).value, now), Folded(args[0]), name);
      }
    case _ =>
  }

  lemma KeepsTidy(w: World, e: Event)
    requires Enabled(w, e) && Tidy(w.s)
    ensures Tidy(Apply(w, e).s)
  {
    match e
    case Inbound(raw, p) =>
      TouchFrame(w.s, raw, w.clock);
      if p.Cmd? {
        TidyByCommand(w.cfg, Touch(w.s, raw, w.clock), raw, p.c, w.clock);
      }
    case Announce(raw, emitted, name) =>
      AdoptTidy(UpdateLastAnnounce(w.s, raw, EmissionTime(emitted, w.clock)), Encode(raw), name);
    case Restart(cfg) => EnrolledExactly(w.s, cfg.admins + cfg.mods, w.clock);
    case _ =>
  }

  lemma {:induction false} AlwaysTidy(ws: seq<World>, es: seq<Event>, n: nat)
    requires Run(ws, es) && n < |ws| && Tidy(ws[0].s)
    ensures Tidy(ws[n].s)
  {
    if n > 0 {
      AlwaysTidy(ws, es, n - 1);
      Step(ws, es, n - 1);
      KeepsTidy(ws[n - 1], es[n - 1]);
    }
  }

  /** No nickname is long enough to shadow a hash: a full-length query that names a member,
      in either case and with stray spaces, resolves to exactly that member. */
  lemma FullHashResolves(ws: seq<World>, es: seq<Event>, n: nat, query: Bytes, h: Hash)
    requires Run(ws, es) && n < |ws| && Tidy(ws[0].s)
    requires h in ws[n].s.users && Folded(query) == h
    ensures Resolve(ws[n].s, query) == Exactly(h)
  {
    AlwaysTidy(ws, es, n);
    var s := ws[n].s;
    assert Named(s, h) == {};
    forall k | k in Prefixed(s, h)
      ensures k == h
    {
      assert |k| == 32 && h <= k;
    }
    assert Prefixed(s, h) == {h};
    assert Resolves(s, query, Exactly(h));
    ResolvesUnique(s, query, Resolve(s, query), Exactly(h));
  }
}
