/** The command handlers, the inbound path's use of the roster, start-up enrolment and the
    announce handler in the source's own form, proved equal to the transitions in
    `Authority`. */
module Commands {
  import opened Prelude
  import opened Hex
  import opened Text
  import opened Nickname
  import opened Authority
  import M = Members
  import opened Roster
  import D = Dedup

  /** `deriveCaller` */
  datatype Caller = Caller(raw: Bytes, hash: M.Hash, role: M.Role, member: bool)

  method DeriveCaller(cfg: Config, r: Roster, raw: Bytes) returns (c: Caller)
    ensures c.raw == raw && c.hash == Encode(raw)
    ensures c.role == Effective(cfg, r.State(), c.hash) && c.member == Member(r.State(), c.hash)
  {
    var h := Encode(raw);
    var role := ConfigRole(cfg, h);
    var member := |raw| == 16 && h in r.users;
    if member {
      var own := r.users[h].role;
      if own.Rank() > role.Rank() {
        role := own;
      }
    }
    return Caller(raw, h, role, member);
  }

  ghost predicate Derived(c: Caller, cfg: Config, s: M.State) {
    c.hash == Encode(c.raw) && c.role == Effective(cfg, s, c.hash) && c.member == Member(s, c.hash)
  }

  method AdoptName(r: Roster, h: M.Hash, announced: seq<int>)
    modifies r
    ensures r.State() == AdoptNick(old(r.State()), h, announced)
  {
    if |announced| == 0 {
      assert Pushed(announced) == [];
      return;
    }
    var sanitized := SanitizeNickname(announced);
    if sanitized != [] {
      var ok := r.SetNickname(h, sanitized);
    }
  }

  method HandleJoin(cfg: Config, r: Roster, c: Caller, announced: seq<int>, now: Time)
    requires Derived(c, cfg, r.State())
    modifies r
    ensures r.State() == Joined(cfg, old(r.State()), c.raw, announced, now)
  {
    if c.member || |c.raw| != 16 {
      return;
    }
    if cfg.locked && !c.role.AtLeastMod() {
      return;
    }
    if c.hash in r.banlist {
      return;
    }
    if cfg.maxMembers > 0 && |r.users| >= cfg.maxMembers {
      return;
    }
    var introduced := r.AddOrUpdate(c.raw, now);
    if c.hash in r.users && r.users[c.hash].nick == [] {
      AdoptName(r, c.hash, announced);
    }
  }

  method HandleNick(cfg: Config, r: Roster, c: Caller, args: seq<Bytes>)
    requires Derived(c, cfg, r.State())
    modifies r
    ensures r.State() == Renamed(cfg, old(r.State()), c.hash, args)
  {
    if |args| == 1 {
      if c.member && MatchesNick(args[0]) {
        var ok := r.SetNickname(c.hash, args[0]);
      }
    } else if |args| == 2 && c.role.AtLeastMod() {
      var f := r.Resolve(args[0]);
      if f.Exactly? && MatchesNick(args[1]) {
        var ok := r.SetNickname(f.h, args[1]);
      }
    }
  }

  method HandleUserMode(cfg: Config, r: Roster, c: Caller, args: seq<Bytes>)
    requires Derived(c, cfg, r.State())
    modifies r
    ensures r.State() == Regraded(cfg, old(r.State()), c.hash, args)
  {
    if c.role != M.RoleAdmin || |args| != 2 {
      return;
    }
    var requested := RequestedRole(args[0]);
    if requested.None? {
      return;
    }
    var f := r.Resolve(args[1]);
    if !f.Exactly? {
      return;
    }
    if f.h == c.hash && requested.value != M.RoleAdmin && ConfigRole(cfg, c.hash) != M.RoleAdmin {
      return;
    }
    var ok := r.SetRole(f.h, requested.value);
  }

  method HandleAddUser(cfg: Config, r: Roster, c: Caller, args: seq<Bytes>, announced: seq<int>, now: Time)
    requires Derived(c, cfg, r.State())
    modifies r
    ensures r.State() == Added(cfg, old(r.State()), c.hash, args, announced, now)
  {
    if !c.role.AtLeastMod() || |args| != 1 {
      return;
    }
    var text := Folded(args[0]);
    var raw := Address(args[0]);
    if raw.None? {
      return;
    }
    var h := Encode(raw.value);
    if h in r.banlist || h in r.users {
      return;
    }
    if cfg.maxMembers > 0 && |r.users| >= cfg.maxMembers {
      return;
    }
    var introduced := r.AddInvited(raw.value, now);
    AdoptName(r, text, announced);
  }

  /** `/removeuser` and `/kick` differ only in their replies. */
  method HandleRemove(cfg: Config, r: Roster, c: Caller, args: seq<Bytes>)
    requires Derived(c, cfg, r.State())
    modifies r
    ensures r.State() == Removed(cfg, old(r.State()), c.hash, args)
  {
    if !c.role.AtLeastMod() || |args| != 1 {
      return;
    }
    var f := r.Resolve(args[0]);
    if f.Exactly? {
      var removed := r.Remove(f.h);
    }
  }

  method HandleBan(cfg: Config, r: Roster, c: Caller, args: seq<Bytes>)
    requires Derived(c, cfg, r.State())
    modifies r
    ensures r.State() == Banned(cfg, old(r.State()), c.hash, args)
  {
    if !c.role.AtLeastMod() || |args| != 1 {
      return;
    }
    var f := r.Resolve(args[0]);
    if f.Exactly? {
      r.Ban(f.h);
    }
  }

  /** The banned hashes with this prefix, in any order. */
  method BannedWithPrefix(r: Roster, q: Bytes) returns (found: seq<M.Hash>)
    ensures Lists(found, set h | h in r.banlist && q <= h)
  {
    found := [];
    ghost var all := set h | h in r.banlist && q <= h;
    var rest := r.banlist;
    while rest != {}
      invariant rest <= r.banlist
      invariant Lists(found, all - rest)
    {
      var h :| h in rest;
      if q <= h {
        ListsMore(found, all - rest, h);
        assert all - (rest - {h}) == all - rest + {h};
        found := found + [h];
      } else {
        assert all - (rest - {h}) == all - rest;
      }
      rest := rest - {h};
    }
    assert all - rest == all;
  }

  method HandleUnban(cfg: Config, r: Roster, c: Caller, args: seq<Bytes>)
    requires Derived(c, cfg, r.State())
    modifies r
    ensures r.State() == Unbanned(cfg, old(r.State()), c.hash, args)
  {
    if !c.role.AtLeastMod() || |args| != 1 {
      return;
    }
    var q := Folded(args[0]);
    if q in r.banlist {
      var ok := r.Unban(q);
      return;
    }
    var matches := BannedWithPrefix(r, q);
    ghost var all := set h | h in r.banlist && q <= h;
    M.VerdictAnswers(matches, all);
    M.AnswersUnique(all, M.Verdict(matches), M.AnswerTo(all));
    if |matches| == 1 {
      var ok := r.Unban(matches[0]);
    }
  }

  method Dispatch(cfg: Config, r: Roster, raw: Bytes, cmd: Command, now: Time)
    modifies r
    ensures r.State() == Dispatched(cfg, old(r.State()), raw, cmd, now)
  {
    var c := DeriveCaller(cfg, r, raw);
    match cmd {
      case Join(announced) => HandleJoin(cfg, r, c, announced, now);
      case Leave => if c.member { var removed := r.Remove(c.hash); }
      case Pause => if c.member { var ok := r.SetPaused(c.hash, true); }
      case Resume => if c.member { var ok := r.SetPaused(c.hash, false); }
      case TextOnly => if c.member { var ok := r.SetTextOnly(c.hash, true); }
      case ShowAll => if c.member { var ok := r.SetTextOnly(c.hash, false); }
      case Nick(args) => HandleNick(cfg, r, c, args);
      case UserMode(args) => HandleUserMode(cfg, r, c, args);
      case AddUser(args, announced) => HandleAddUser(cfg, r, c, args, announced, now);
      case RemoveUser(args) => HandleRemove(cfg, r, c, args);
      case Kick(args) => HandleRemove(cfg, r, c, args);
      case BanUser(args) => HandleBan(cfg, r, c, args);
      case UnbanUser(args) => HandleUnban(cfg, r, c, args);
      case Other =>
    }
  }

  /** The order of effects in `onLXMFReceived`: ban check, presence, command or chat. */
  method Receive(cfg: Config, r: Roster, raw: Bytes, p: Payload, now: Time) returns (forwarded: bool)
    modifies r
    ensures r.State() == Received(cfg, old(r.State()), raw, p, now)
    ensures forwarded <==> p == Chat(false) && Active(old(r.State()), raw) && Encode(raw) !in old(r.banlist)
  {
    if |raw| == 16 && Encode(raw) in r.banlist {
      return false;
    }
    var known := r.Touch(raw, now);
    if p.Cmd? {
      Dispatch(cfg, r, raw, p.c, now);
      return false;
    }
    if p.overLimit || !known || r.users[Encode(raw)].paused {
      return false;
    }
    var marked := r.MarkMessage(raw, now);
    return true;
  }

  /** Duplicate suppression comes before anything else, so a redelivered message, command or
      chat, leaves the roster alone. */
  method ReceiveOnce(cfg: Config, d: D.DedupCache, r: Roster, key: Bytes, raw: Bytes, p: Payload, now: Time)
    returns (forwarded: bool)
    modifies d, r
    ensures var dup := key != [] && D.Seen(old(d.seen), d.ttl, key, now);
            && r.State() == (if dup then old(r.State()) else Received(cfg, old(r.State()), raw, p, now))
            && (forwarded <==>
                  !dup && p == Chat(false) && Active(old(r.State()), raw) && Encode(raw) !in old(r.banlist))
    ensures d.seen == if key == [] then old(d.seen) else D.Next(old(d.seen), d.ttl, d.max, key, now)
  {
    if |key| > 0 {
      var dup := d.SeenBefore(key, now);
      if dup {
        return false;
      }
    }
    forwarded := Receive(cfg, r, raw, p, now);
  }

  method OnAnnounce(r: Roster, raw: Bytes, emitted: Option<Time>, name: seq<int>, now: Time)
    modifies r
    ensures r.State() == Heard(old(r.State()), raw, emitted, name, now)
  {
    var at := now;
    if emitted.Some? && emitted.value <= now {
      at := emitted.value;
    }
    r.UpdateLastAnnounce(raw, at);
    var h := Encode(raw);
    if h in r.users && r.users[h].nick == [] {
      AdoptName(r, h, name);
    }
  }

  method EnrollConfigRoles(cfg: Config, r: Roster, now: Time) returns (enrolled: nat)
    modifies r
    ensures r.State() == Enlisted(cfg, old(r.State()), now)
    ensures |r.users| == |old(r.users)| + enrolled
  {
    var hs := cfg.admins + cfg.mods;
    ghost var s := r.State();
    enrolled := 0;
    for i := 0 to |hs|
      invariant r.State() == Enrolled(s, hs[..i], now)
      invariant |r.users| == |s.users| + enrolled
    {
      assert hs[..i + 1][..i] == hs[..i];
      var raw := Decode(hs[i]);
      if raw.Some? && |raw.value| == 16 && Encode(raw.value) !in r.users {
        ghost var before := r.users;
        var introduced := r.AddInvited(raw.value, now);
        assert r.users.Keys == before.Keys + {Encode(raw.value)};
        enrolled := enrolled + 1;
      }
    }
    assert hs[..|hs|] == hs;
  }

  /** `normalizeHashList`: trimmed, lower-cased, blanks and repeats dropped. */
  method NormalizeHashList(list: seq<Bytes>) returns (out: seq<Bytes>)
    ensures Distinct(out)
    ensures forall h :: h in out <==> h != [] && exists i :: 0 <= i < |list| && Folded(list[i]) == h
  {
    out := [];
    for n := 0 to |list|
      invariant Distinct(out)
      invariant forall h :: h in out <==> h != [] && exists i :: 0 <= i < n && Folded(list[i]) == h
    {
      var h := Folded(list[n]);
      if h != [] && h !in out {
        assert forall i :: 0 <= i < |out| ==> out[i] in out;
        out := out + [h];
      }
    }
  }
}
