/** The session calls as the handlers make them, one Redis command after another. */
module SessionStore {
  import opened Prelude
  import opened Sessions

  class Store {
    var now: Moment
    var tokens: map<Hash, Session>
    var sets: map<int, Index>
    ghost var issued: set<Hash>

    constructor (now: Moment)
      ensures Initial(AsState()) && this.now == now
    {
      this.now := now;
      tokens, sets, issued := map[], map[], {};
    }

    ghost function AsState(): State
      reads this
    {
      State(now, tokens, sets, issued)
    }

    /** GET: an expired key is not found. */
    method Get(h: Hash) returns (found: Option<Session>)
      ensures found == if Live(AsState(), h) then Some(tokens[h]) else None
    {
      found := if h in tokens && now < tokens[h].expires then Some(tokens[h]) else None;
    }

    /** SMEMBERS: an expired set is empty. */
    method MembersOf(user: int) returns (ids: set<Hash>)
      ensures ids == Members(AsState(), user)
    {
      ids := if user in sets && now < sets[user].expires then sets[user].hashes else {};
    }

    /** DEL of the token's keys and SREM from the user's set, in either order. */
    method Drop(user: int, h: Hash)
      modifies this`tokens, this`sets
      ensures AsState() == Dropped(old(AsState()), user, h)
    {
      tokens := tokens - {h};
      if user in sets { sets := sets[user := sets[user].(hashes := sets[user].hashes - {h})]; }
    }

    method IssueTokens(user: int, role: Role, minted: Hash)
      modifies this
      ensures AsState() == Issue(old(AsState()), user, role, minted)
    {
      var ids := MembersOf(user);
      var until := now + Ttl(role);
      tokens := tokens[minted := Session(user, role, until)];
      sets := sets[user := Index(ids + {minted}, until)];
      issued := issued + {minted};
    }

    method LogIn(user: int, role: Role, minted: Hash)
      requires minted !in issued
      modifies this
      ensures AsState() == Next(old(AsState()), Login(user, role, minted))
    {
      IssueTokens(user, role, minted);
    }

    method RefreshToken(presented: Hash, minted: Hash) returns (ok: bool)
      requires minted !in issued
      modifies this
      ensures ok == Live(old(AsState()), presented)
      ensures AsState() == Next(old(AsState()), Refresh(presented, minted))
    {
      var session := Get(presented);
      ok := session.Some?;
      if !ok { return; }
      Drop(session.value.user, presented);
      IssueTokens(session.value.user, session.value.role, minted);
    }

    method LogOut(presented: Hash)
      modifies this`tokens, this`sets
      ensures forall h :: Live(AsState(), h) <==> Live(old(AsState()), h) && h != presented
      ensures Live(old(AsState()), presented) ==> AsState() == Next(old(AsState()), Logout(presented))
    {
      var session := Get(presented);
      if session.Some? && session.value.user in sets {
        var user := session.value.user;
        sets := sets[user := sets[user].(hashes := sets[user].hashes - {presented})];
      }
      tokens := tokens - {presented};
    }

    method DeleteOwnSession(user: int, id: Hash) returns (found: bool)
      modifies this`tokens, this`sets
      ensures found == (id in Members(old(AsState()), user))
      ensures AsState() == Next(old(AsState()), DeleteSession(user, id))
    {
      var ids := MembersOf(user);
      found := id in ids;
      if found { Drop(user, id); }
    }

    /** Collects the keys of the user's set one by one, then deletes them together. */
    method RevokeUserSessions(user: int)
      modifies this`tokens, this`sets
      ensures AsState() == Next(old(AsState()), RevokeAll(user))
    {
      var ids := MembersOf(user);
      var rest, keys := ids, {};
      while rest != {}
        invariant keys + rest == ids && keys !! rest
        decreases |rest|
      {
        var id :| id in rest;
        keys, rest := keys + {id}, rest - {id};
      }
      tokens := tokens - keys;
      sets := sets - {user};
    }
  }
}
