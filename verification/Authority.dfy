/** What each command does to the roster, and who may make it do so
    (internal/commands/handlers.go, internal/service/inbox.go, internal/service/service.go). */
module Authority {
  import opened Prelude
  import opened Hex
  import opened Text
  import opened Members
  import opened Nickname

  /** The part of the configuration that the commands read, as `normalize` leaves it. */
  datatype Config = Config(admins: seq<Hash>, mods: seq<Hash>, locked: bool, maxMembers: int)

  predicate Listed(cfg: Config, h: Hash) { h in cfg.admins || h in cfg.mods }

  function ConfigRole(cfg: Config, h: Hash): Role {
    if h in cfg.admins then RoleAdmin else if h in cfg.mods then RoleMod else RoleUser
  }

  /** The role `deriveCaller` gives a sender: the config's, raised by a member's own. */
  function Effective(cfg: Config, s: State, h: Hash): Role {
    if Member(s, h) then Higher(ConfigRole(cfg, h), s.users[h].role) else ConfigRole(cfg, h)
  }

  /** Membership as `deriveCaller` sees it: a sender without a 16-byte hash has none. */
  predicate Member(s: State, h: Hash) { |h| == 32 && h in s.users }

  /** Announced display names arrive as runes; empty means none is known. */
  datatype Command =
    | Join(announced: seq<int>)
    | Leave
    | Pause
    | Resume
    | TextOnly
    | ShowAll
    | Nick(args: seq<Bytes>)
    | UserMode(args: seq<Bytes>)
    | AddUser(args: seq<Bytes>, announced: seq<int>)
    | RemoveUser(args: seq<Bytes>)
    | Kick(args: seq<Bytes>)
    | BanUser(args: seq<Bytes>)
    | UnbanUser(args: seq<Bytes>)
    | Other

  const ADMIN_WORD: Bytes := [97, 100, 109, 105, 110]
  const MOD_WORD: Bytes := [109, 111, 100]
  const USER_WORD: Bytes := [117, 115, 101, 114]

  function RequestedRole(word: Bytes): Option<Role> {
    var w := Lower(word);
    if w == ADMIN_WORD then Some(RoleAdmin)
    else if w == MOD_WORD then Some(RoleMod)
    else if w == USER_WORD then Some(RoleUser)
    else None
  }

  /** Full means no new member, by `/join` or by `/adduser`. */
  predicate Full(cfg: Config, s: State) { cfg.maxMembers > 0 && |s.users| >= cfg.maxMembers }

  function AdoptNick(s: State, h: Hash, announced: seq<int>): State {
    if Sanitized(announced) == [] then s else SetNickname(s, h, Sanitized(announced))
  }

  function Joined(cfg: Config, s: State, raw: Bytes, announced: seq<int>, now: Time): State {
    var h := Encode(raw);
    if |raw| != 16 || h in s.users then s
    else if cfg.locked && !Effective(cfg, s, h).AtLeastMod() then s
    else if h in s.banned || Full(cfg, s) then s
    else AdoptNick(AddOrUpdate(s, raw, now), h, announced)
  }

  /** The address `/adduser` accepts: 32 hex digits. */
  function Address(arg: Bytes): Option<Bytes> {
    var text := Folded(arg);
    if |text| == 32 then Decode(text) else None
  }

  function Added(cfg: Config, s: State, who: Hash, args: seq<Bytes>, announced: seq<int>, now: Time): State {
    if !Effective(cfg, s, who).AtLeastMod() || |args| != 1 || Address(args[0]).None? then s
    else
      var raw := Address(args[0]).value;
      var h := Encode(raw);
      if h in s.banned || h in s.users || Full(cfg, s) then s
      else AdoptNick(AddInvited(s, raw, now), Folded(args[0]), announced)
  }

  /** Who a mod's single argument names, if the caller may name anybody. */
  ghost function Target(cfg: Config, s: State, who: Hash, args: seq<Bytes>): Option<Hash> {
    if !Effective(cfg, s, who).AtLeastMod() || |args| != 1 then None
    else
      var f := Resolve(s, args[0]);
      if f.Exactly? then Some(f.h) else None
  }

  ghost function Removed(cfg: Config, s: State, who: Hash, args: seq<Bytes>): State {
    var t := Target(cfg, s, who, args);
    if t.None? then s else Remove(s, t.value)
  }

  ghost function Banned(cfg: Config, s: State, who: Hash, args: seq<Bytes>): State {
    var t := Target(cfg, s, who, args);
    if t.None? then s else Ban(s, t.value)
  }

  /** A full hash on the banlist, or else the only one with this prefix. */
  ghost function Unbanned(cfg: Config, s: State, who: Hash, args: seq<Bytes>): State {
    if !Effective(cfg, s, who).AtLeastMod() || |args| != 1 then s
    else
      var q := Folded(args[0]);
      if q in s.banned then Unban(s, q)
      else
        var f := AnswerTo(set h | h in s.banned && q <= h);
        if f.Exactly? then Unban(s, f.h) else s
  }

  ghost function Renamed(cfg: Config, s: State, who: Hash, args: seq<Bytes>): State {
    if |args| == 1 then
      if Member(s, who) && MatchesNick(args[0]) then SetNickname(s, who, args[0]) else s
    else if |args| == 2 && Effective(cfg, s, who).AtLeastMod() && MatchesNick(args[1]) then
      var f := Resolve(s, args[0]);
      if f.Exactly? then SetNickname(s, f.h, args[1]) else s
    else s
  }

  /** The role change a `/usermode` amounts to, if any. */
  ghost function Grant(cfg: Config, s: State, who: Hash, args: seq<Bytes>): Option<(Hash, Role)> {
    if Effective(cfg, s, who) != RoleAdmin || |args| != 2 || RequestedRole(args[0]).None? then None
    else
      var f := Resolve(s, args[1]);
      var role := RequestedRole(args[0]).value;
      if !f.Exactly? then None
      else if f.h == who && role != RoleAdmin && ConfigRole(cfg, who) != RoleAdmin then None
      else Some((f.h, role))
  }

  ghost function Regraded(cfg: Config, s: State, who: Hash, args: seq<Bytes>): State {
    var g := Grant(cfg, s, who, args);
    if g.None? then s else SetRole(s, g.value.0, g.value.1)
  }

  /** A sender whose hash is not 16 bytes is nobody's member. */
  ghost function Dispatched(cfg: Config, s: State, raw: Bytes, cmd: Command, now: Time): State {
    var who := Encode(raw);
    match cmd
    case Join(announced) => Joined(cfg, s, raw, announced, now)
    case Leave => if Member(s, who) then Remove(s, who) else s
    case Pause => if Member(s, who) then SetPaused(s, who, true) else s
    case Resume => if Member(s, who) then SetPaused(s, who, false) else s
    case TextOnly => if Member(s, who) then SetTextOnly(s, who, true) else s
    case ShowAll => if Member(s, who) then SetTextOnly(s, who, false) else s
    case Nick(args) => Renamed(cfg, s, who, args)
    case UserMode(args) => Regraded(cfg, s, who, args)
    case AddUser(args, announced) => Added(cfg, s, who, args, announced, now)
    case RemoveUser(args) => Removed(cfg, s, who, args)
    case Kick(args) => Removed(cfg, s, who, args)
    case BanUser(args) => Banned(cfg, s, who, args)
    case UnbanUser(args) => Unbanned(cfg, s, who, args)
    case Other => s
  }

  /** What arrives: a command, or chat that may be over the length limit. */
  datatype Payload = Cmd(c: Command) | Chat(overLimit: bool)

  predicate Active(s: State, raw: Bytes) { Known(s, raw) && !s.users[Encode(raw)].paused }

  /** The roster's part in `onLXMFReceived`. */
  ghost function Received(cfg: Config, s: State, raw: Bytes, p: Payload, now: Time): State {
    if |raw| == 16 && Encode(raw) in s.banned then s
    else
      var t := Touch(s, raw, now);
      match p
      case Cmd(c) => Dispatched(cfg, t, raw, c, now)
      case Chat(over) => if !over && Active(t, raw) then MarkMessage(t, raw, now) else t
  }

  /** `announceTap.OnAnnounce`: a future or unreadable emission time counts as now. */
  function EmissionTime(emitted: Option<Time>, now: Time): (at: Time)
    ensures at <= now
  {
    if emitted.Some? && emitted.value <= now then emitted.value else now
  }

  function Heard(s: State, raw: Bytes, emitted: Option<Time>, name: seq<int>, now: Time): State {
    var t := UpdateLastAnnounce(s, raw, EmissionTime(emitted, now));
    var h := Encode(raw);
    if h in t.users && t.users[h].nick == [] then AdoptNick(t, h, name) else t
  }

  /** `enrollConfigRoles`, hash by hash. */
  function Enrolled(s: State, hs: seq<Hash>, now: Time): State {
    if |hs| == 0 then s
    else
      var t := Enrolled(s, hs[..|hs| - 1], now);
      var raw := Decode(hs[|hs| - 1]);
      if raw.Some? then AddInvited(t, raw.value, now) else t
  }

  function Enlisted(cfg: Config, s: State, now: Time): State { Enrolled(s, cfg.admins + cfg.mods, now) }
}
