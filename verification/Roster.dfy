/** The roster in the source's own form: two maps changed in place, scans over them in any
    order, proved equal to the transitions in `Members`. */
module Roster {
  import opened Prelude
  import opened Hex
  import opened Text
  import M = Members

  class Roster {
    var users: map<M.Hash, M.User>
    var banlist: set<M.Hash>

    ghost function State(): M.State
      reads this
    {
      M.State(users, banlist)
    }

    constructor (s: M.State)
      ensures State() == s
    {
      users, banlist := s.users, s.banned;
    }

    method AddOrUpdate(raw: Bytes, now: Time) returns (introduced: Option<bool>)
      modifies this
      ensures State() == M.AddOrUpdate(old(State()), raw, now)
      ensures introduced.None? <==> |raw| != 16
      ensures introduced.Some? ==> introduced.value == !M.Known(old(State()), raw)
    {
      var h := M.HashOf(raw);
      if h.None? {
        return None;
      }
      var exists_ := h.value in users;
      if !exists_ {
        users := users[h.value := M.NewUser(now, false)];
      }
      users := users[h.value := users[h.value].(lastMessageAt := now)];
      return Some(!exists_);
    }

    method AddInvited(raw: Bytes, now: Time) returns (introduced: Option<bool>)
      modifies this
      ensures State() == M.AddInvited(old(State()), raw, now)
      ensures introduced.None? <==> |raw| != 16
      ensures introduced.Some? ==> introduced.value == !M.Known(old(State()), raw)
    {
      var h := M.HashOf(raw);
      if h.None? {
        return None;
      }
      if h.value in users {
        return Some(false);
      }
      users := users[h.value := M.NewUser(now, true)];
      return Some(true);
    }

    method Touch(raw: Bytes, now: Time) returns (known: bool)
      modifies this
      ensures State() == M.Touch(old(State()), raw, now) && known == M.Known(old(State()), raw)
    {
      var h := M.HashOf(raw);
      if h.None? || h.value !in users {
        return false;
      }
      users := users[h.value := users[h.value].(lastCommandAt := now, invited := false)];
      return true;
    }

    method MarkMessage(raw: Bytes, now: Time) returns (known: bool)
      modifies this
      ensures State() == M.MarkMessage(old(State()), raw, now) && known == M.Known(old(State()), raw)
    {
      var h := M.HashOf(raw);
      if h.None? || h.value !in users {
        return false;
      }
      users := users[h.value := users[h.value].(lastMessageAt := now, invited := false)];
      return true;
    }

    method UpdateLastAnnounce(raw: Bytes, at: Time)
      modifies this
      ensures State() == M.UpdateLastAnnounce(old(State()), raw, at)
    {
      var h := M.HashOf(raw);
      if h.None? || h.value !in users {
        return;
      }
      var u := users[h.value];
      if at <= u.lastAnnounceAt {
        return;
      }
      users := users[h.value := u.(lastAnnounceAt := at, invited := false)];
    }

    /** Deletes while it walks the map, in any order; reports each hash it removed once. */
    method Prune(now: Time, idle: Time, silent: Time) returns (pruned: seq<M.Hash>)
      modifies this
      ensures State() == M.Prune(old(State()), now, idle, silent)
      ensures Lists(pruned, old(users).Keys - users.Keys)
    {
      ghost var before := users;
      var rest := users.Keys;
      pruned := [];
      while rest != {}
        invariant rest <= before.Keys && banlist == old(banlist)
        invariant users == map h | h in before && (h in rest || !M.Prunable(before[h], now, idle, silent)) :: before[h]
        invariant Lists(pruned, before.Keys - users.Keys)
      {
        var h :| h in rest;
        var u := users[h];
        var isIdle := M.LastSeen(u) < now - idle;
        var isSilent := silent > 0 && M.LastSpoke(u) < now - silent;
        if !u.invited && (isIdle || isSilent) {
          ListsMore(pruned, before.Keys - users.Keys, h);
          assert before.Keys - (users.Keys - {h}) == before.Keys - users.Keys + {h};
          users := users - {h};
          pruned := pruned + [h];
        }
        rest := rest - {h};
      }
    }

    method Remove(h: M.Hash) returns (removed: bool)
      modifies this
      ensures State() == M.Remove(old(State()), h) && removed == (h in old(users))
    {
      if h !in users {
        return false;
      }
      users := users - {h};
      return true;
    }

    method SetNickname(h: M.Hash, nick: Bytes) returns (ok: bool)
      modifies this
      ensures State() == M.SetNickname(old(State()), h, nick) && ok == (h in old(users))
    {
      if h !in users {
        return false;
      }
      users := users[h := users[h].(nick := nick)];
      return true;
    }

    method SetPaused(h: M.Hash, on: bool) returns (ok: bool)
      modifies this
      ensures State() == M.SetPaused(old(State()), h, on) && ok == (h in old(users))
    {
      if h !in users {
        return false;
      }
      users := users[h := users[h].(paused := on)];
      return true;
    }

    method SetTextOnly(h: M.Hash, on: bool) returns (ok: bool)
      modifies this
      ensures State() == M.SetTextOnly(old(State()), h, on) && ok == (h in old(users))
    {
      if h !in users {
        return false;
      }
      users := users[h := users[h].(textOnly := on)];
      return true;
    }

    method SetRole(h: M.Hash, role: M.Role) returns (ok: bool)
      modifies this
      ensures State() == M.SetRole(old(State()), h, role) && ok == (h in old(users))
    {
      if h !in users {
        return false;
      }
      users := users[h := users[h].(role := role)];
      return true;
    }

    method Ban(h: M.Hash)
      modifies this
      ensures State() == M.Ban(old(State()), h)
    {
      banlist := banlist + {h};
      users := users - {h};
    }

    method Unban(h: M.Hash) returns (ok: bool)
      modifies this
      ensures State() == M.Unban(old(State()), h) && ok == (h in old(banlist))
    {
      if h !in banlist {
        return false;
      }
      banlist := banlist - {h};
      return true;
    }

    /** Everyone a message is fanned out to, in any order. */
    method ActiveHashes() returns (found: seq<M.Hash>)
      ensures Lists(found, set h | h in users && !users[h].paused)
    {
      found := [];
      ghost var all := set h | h in users && !users[h].paused;
      var rest := users.Keys;
      while rest != {}
        invariant rest <= users.Keys
        invariant Lists(found, all - rest)
      {
        var h :| h in rest;
        if !users[h].paused {
          ListsMore(found, all - rest, h);
          assert all - (rest - {h}) == all - rest + {h};
          found := found + [h];
        } else {
          assert all - (rest - {h}) == all - rest;
        }
        rest := rest - {h};
      }
      assert all - rest == all;
    }

    /** The members with this nickname, ignoring case, in any order. */
    method ByNick(q: Bytes) returns (found: seq<M.Hash>)
      ensures Lists(found, M.Named(State(), q))
    {
      found := [];
      ghost var all := M.Named(State(), q);
      var rest := users.Keys;
      while rest != {}
        invariant rest <= users.Keys
        invariant Lists(found, all - rest)
      {
        var h :| h in rest;
        if Lower(users[h].nick) == q {
          ListsMore(found, all - rest, h);
          assert all - (rest - {h}) == all - rest + {h};
          found := found + [h];
        } else {
          assert all - (rest - {h}) == all - rest;
        }
        rest := rest - {h};
      }
      assert all - rest == all;
    }

    /** The members whose hash starts with this, in any order. */
    method ByPrefix(q: Bytes) returns (found: seq<M.Hash>)
      ensures Lists(found, M.Prefixed(State(), q))
    {
      found := [];
      ghost var all := M.Prefixed(State(), q);
      var rest := users.Keys;
      while rest != {}
        invariant rest <= users.Keys
        invariant Lists(found, all - rest)
      {
        var h :| h in rest;
        if q <= h {
          ListsMore(found, all - rest, h);
          assert all - (rest - {h}) == all - rest + {h};
          found := found + [h];
        } else {
          assert all - (rest - {h}) == all - rest;
        }
        rest := rest - {h};
      }
      assert all - rest == all;
    }

    method Resolve(query: Bytes) returns (f: M.Found)
      ensures f == M.Resolve(State(), query)
    {
      f := Search(query);
      M.ResolvesUnique(State(), query, f, M.Resolve(State(), query));
    }

    method Search(query: Bytes) returns (f: M.Found)
      ensures M.Resolves(State(), query, f)
    {
      var q := Folded(query);
      if q == [] {
        return M.NoMatch;
      }
      var byNick := ByNick(q);
      M.VerdictAnswers(byNick, M.Named(State(), q));
      if |byNick| >= 1 {
        assert byNick[0] in byNick;
        return M.Verdict(byNick);
      }
      if LowerHex(q) && |q| >= 4 {
        var byHash := ByPrefix(q);
        M.VerdictAnswers(byHash, M.Prefixed(State(), q));
        return M.Verdict(byHash);
      }
      return M.NoMatch;
    }
  }
}
