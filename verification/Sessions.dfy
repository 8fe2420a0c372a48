/** Refresh sessions in Redis: one key per token, and a set per user that indexes
    them, each with its own expiry. Every step is one whole call. */
module Sessions {
  import opened Prelude

  type Moment = int     // seconds

  datatype Role = Customer | Employee | Owner | SuperAdmin

  /** Stands for SHA-256 of a token: distinct tokens have distinct hashes. */
  type Hash = nat

  datatype Session = Session(user: int, role: Role, expires: Moment)
  datatype Index = Index(hashes: set<Hash>, expires: Moment)

  const DAY := 86400

  function Ttl(role: Role): int { if role.Customer? then 90 * DAY else 30 * DAY }

  datatype State = State(now: Moment, tokens: map<Hash, Session>, sets: map<int, Index>, issued: set<Hash>)

  datatype Step =
    | Tick(now: Moment)
    | Login(user: int, role: Role, minted: Hash)
    | Refresh(presented: Hash, minted: Hash)
    | Logout(presented: Hash)
    | DeleteSession(user: int, presented: Hash)
    | RevokeAll(user: int)

  /** A key past its expiry is not there. */
  predicate Live(s: State, h: Hash) { h in s.tokens && s.now < s.tokens[h].expires }

  function Members(s: State, user: int): set<Hash> {
    if user in s.sets && s.now < s.sets[user].expires then s.sets[user].hashes else {}
  }

  /** SET, SADD and EXPIRE in one transaction. */
  function Issue(s: State, user: int, role: Role, h: Hash): State {
    var until := s.now + Ttl(role);
    s.(tokens := s.tokens[h := Session(user, role, until)],
       sets := s.sets[user := Index(Members(s, user) + {h}, until)],
       issued := s.issued + {h})
  }

  /** SREM; the set keeps its expiry. */
  function Unlisted(s: State, user: int, h: Hash): map<int, Index> {
    if user in s.sets then s.sets[user := s.sets[user].(hashes := s.sets[user].hashes - {h})] else s.sets
  }

  function Dropped(s: State, user: int, h: Hash): State { s.(tokens := s.tokens - {h}, sets := Unlisted(s, user, h)) }

  predicate Enabled(s: State, step: Step) {
    match step
    case Tick(now) => now >= s.now
    case Login(_, _, minted) => minted !in s.issued
    case Refresh(_, minted) => minted !in s.issued
    case _ => true
  }

  function Next(s: State, step: Step): State
    requires Enabled(s, step)
  {
    match step
    case Tick(now) => s.(now := now)
    case Login(user, role, minted) => Issue(s, user, role, minted)
    case Refresh(presented, minted) =>
      if !Live(s, presented) then s
      else Issue(Dropped(s, s.tokens[presented].user, presented), s.tokens[presented].user, s.tokens[presented].role, minted)
    case Logout(presented) => if !Live(s, presented) then s else Dropped(s, s.tokens[presented].user, presented)
    case DeleteSession(user, presented) => if presented in Members(s, user) then Dropped(s, user, presented) else s
    case RevokeAll(user) => s.(tokens := s.tokens - Members(s, user), sets := s.sets - {user})
  }

  ghost predicate Steps(s: State, steps: seq<Step>, t: State)
    decreases |steps|
  {
    if steps == [] then s == t
    else Enabled(s, steps[0]) && Steps(Next(s, steps[0]), steps[1..], t)
  }

  predicate Initial(s: State) { s.tokens == map[] && s.sets == map[] && s.issued == {} }

  // ---------------------------------------------------------------- the index

  /** The token is in its user's set, which does not expire before it. */
  predicate Listed(s: State, h: Hash)
    requires h in s.tokens
  {
    h in Members(s, s.tokens[h].user) && s.tokens[h].expires <= s.sets[s.tokens[h].user].expires
  }

  ghost predicate Indexed(s: State) { forall h :: Live(s, h) ==> Listed(s, h) }

  /** Tokens are issued, and a set lists only its own user's. */
  ghost predicate Owned(s: State) {
    && s.tokens.Keys <= s.issued
    && forall u, h :: u in s.sets && h in s.sets[u].hashes ==> h in s.issued && (h in s.tokens ==> s.tokens[h].user == u)
  }

  /** Every user keeps to one class of roles, guest or not, and no token outlives
      its time to live. */
  ghost predicate OneClass(s: State, guest: int -> bool) {
    forall h :: h in s.tokens ==>
      s.tokens[h].role.Customer? == guest(s.tokens[h].user) && s.tokens[h].expires <= s.now + Ttl(s.tokens[h].role)
  }

  predicate KeepsClass(step: Step, guest: int -> bool) { step.Login? ==> step.role.Customer? == guest(step.user) }

  ghost predicate SessionsOk(s: State, guest: int -> bool) { Indexed(s) && Owned(s) && OneClass(s, guest) }

  lemma DropKeepsOwned(s: State, user: int, h: Hash)
    requires Owned(s)
    ensures Owned(Dropped(s, user, h))
  {}

  lemma IssueKeepsOwned(s: State, user: int, role: Role, h: Hash)
    requires Owned(s) && h !in s.issued
    ensures Owned(Issue(s, user, role, h))
  {}

  lemma StepKeepsOwned(s: State, step: Step)
    requires Owned(s) && Enabled(s, step)
    ensures Owned(Next(s, step))
  {
    match step
    case Login(user, role, minted) => IssueKeepsOwned(s, user, role, minted);
    case Refresh(presented, minted) =>
      if Live(s, presented) {
        var u, r := s.tokens[presented].user, s.tokens[presented].role;
        DropKeepsOwned(s, u, presented);
        IssueKeepsOwned(Dropped(s, u, presented), u, r, minted);
      }
    case Logout(presented) => if Live(s, presented) { DropKeepsOwned(s, s.tokens[presented].user, presented); }
    case DeleteSession(user, presented) => DropKeepsOwned(s, user, presented);
    case _ =>
  }

  lemma DropKeepsIndexed(s: State, user: int, h: Hash)
    requires Indexed(s)
    ensures Indexed(Dropped(s, user, h))
  {
    var t := Dropped(s, user, h);
    forall k | Live(t, k) ensures Listed(t, k) {
      assert Live(s, k) && Listed(s, k);
    }
  }

  lemma RevokeKeepsIndexed(s: State, user: int)
    requires Indexed(s) && Owned(s)
    ensures Indexed(Next(s, RevokeAll(user)))
    ensures forall h :: Live(Next(s, RevokeAll(user)), h) <==> Live(s, h) && s.tokens[h].user != user
  {
    var t := Next(s, RevokeAll(user));
    forall h ensures Live(t, h) <==> (Live(s, h) && s.tokens[h].user != user) {
      if Live(s, h) { assert h in Members(s, s.tokens[h].user); }
    }
  }

  /** The token lasts no longer than one issued now in the role. */
  predicate Fits(s: State, user: int, role: Role, h: Hash) {
    Live(s, h) && s.tokens[h].user == user ==> s.tokens[h].expires <= s.now + Ttl(role)
  }

  lemma IssueAndListed(s: State, user: int, role: Role, h: Hash, k: Hash)
    requires Owned(s) && h !in s.issued && (Live(s, k) ==> Listed(s, k))
    ensures var t := Issue(s, user, role, h); (Live(t, k) ==> Listed(t, k)) <==> Fits(s, user, role, k)
  {
    if k == h { assert k !in s.tokens; }
  }

  /** Issuing keeps the index exactly when no live token of the user reaches past
      the new one: the set's expiry is overwritten, not extended. */
  lemma IssueKeepsIndexIff(s: State, user: int, role: Role, h: Hash)
    requires Indexed(s) && Owned(s) && h !in s.issued
    ensures Indexed(Issue(s, user, role, h)) <==> forall k :: Fits(s, user, role, k)
  {
    var t := Issue(s, user, role, h);
    forall k ensures (Live(t, k) ==> Listed(t, k)) <==> Fits(s, user, role, k) {
      assert Live(s, k) ==> Listed(s, k);
      IssueAndListed(s, user, role, h, k);
    }
  }

  lemma DropKeepsClass(s: State, user: int, h: Hash, guest: int -> bool)
    requires OneClass(s, guest)
    ensures OneClass(Dropped(s, user, h), guest)
  {}

  lemma IssueKeepsAll(s: State, user: int, role: Role, h: Hash, guest: int -> bool)
    requires SessionsOk(s, guest) && h !in s.issued && role.Customer? == guest(user)
    ensures SessionsOk(Issue(s, user, role, h), guest)
  {
    IssueKeepsOwned(s, user, role, h);
    IssueKeepsIndexIff(s, user, role, h);
  }

  lemma DropKeepsAll(s: State, user: int, h: Hash, guest: int -> bool)
    requires SessionsOk(s, guest)
    ensures SessionsOk(Dropped(s, user, h), guest)
  {
    DropKeepsOwned(s, user, h);
    DropKeepsIndexed(s, user, h);
    DropKeepsClass(s, user, h, guest);
  }

  lemma TickKeepsAll(s: State, now: Moment, guest: int -> bool)
    requires SessionsOk(s, guest) && now >= s.now
    ensures SessionsOk(Next(s, Tick(now)), guest)
  {
    var t := Next(s, Tick(now));
    forall h | Live(t, h) ensures Listed(t, h) {
      assert Live(s, h) && Listed(s, h);
    }
  }

  lemma RefreshKeepsAll(s: State, presented: Hash, minted: Hash, guest: int -> bool)
    requires SessionsOk(s, guest) && minted !in s.issued
    ensures SessionsOk(Next(s, Refresh(presented, minted)), guest)
  {
    if Live(s, presented) {
      var u, r := s.tokens[presented].user, s.tokens[presented].role;
      assert r.Customer? == guest(u);
      DropKeepsAll(s, u, presented, guest);
      IssueKeepsAll(Dropped(s, u, presented), u, r, minted, guest);
    }
  }

  lemma RevokeKeepsAll(s: State, user: int, guest: int -> bool)
    requires SessionsOk(s, guest)
    ensures SessionsOk(Next(s, RevokeAll(user)), guest)
  {
    StepKeepsOwned(s, RevokeAll(user));
    RevokeKeepsIndexed(s, user);
  }

  lemma StepKeeps(s: State, step: Step, guest: int -> bool)
    requires SessionsOk(s, guest) && Enabled(s, step) && KeepsClass(step, guest)
    ensures SessionsOk(Next(s, step), guest)
  {
    match step
    case Tick(now) => TickKeepsAll(s, now, guest);
    case Login(user, role, minted) => IssueKeepsAll(s, user, role, minted, guest);
    case Refresh(presented, minted) => RefreshKeepsAll(s, presented, minted, guest);
    case Logout(presented) => if Live(s, presented) { DropKeepsAll(s, s.tokens[presented].user, presented, guest); }
    case DeleteSession(user, presented) => if presented in Members(s, user) { DropKeepsAll(s, user, presented, guest); }
    case RevokeAll(user) => RevokeKeepsAll(s, user, guest);
  }

  ghost predicate ClassSteps(s: State, steps: seq<Step>, t: State, guest: int -> bool)
    decreases |steps|
  {
    if steps == [] then s == t
    else Enabled(s, steps[0]) && KeepsClass(steps[0], guest) && ClassSteps(Next(s, steps[0]), steps[1..], t, guest)
  }

  /** Over any run of whole calls in which each user keeps one role class, every
      live token is in its user's set and the set does not expire before it. */
  lemma {:induction false} IndexComplete(s: State, steps: seq<Step>, t: State, guest: int -> bool)
    requires SessionsOk(s, guest) && ClassSteps(s, steps, t, guest)
    ensures SessionsOk(t, guest)
    decreases |steps|
  {
    if steps != [] {
      StepKeeps(s, steps[0], guest);
      IndexComplete(Next(s, steps[0]), steps[1..], t, guest);
    }
  }

  // ---------------------------------------------------------------- what the calls do

  lemma SwapKeepsSize(before: set<Hash>, out: Hash, next: Hash)
    requires out in before && next !in before
    ensures |before - {out} + {next}| == |before|
  {}

  function Unexpired(tokens: map<Hash, Session>, now: Moment): set<Hash> { set h | h in tokens && now < tokens[h].expires }

  lemma RefreshSwaps(s: State, presented: Hash, minted: Hash, h: Hash)
    requires Owned(s) && minted !in s.issued && Live(s, presented)
    ensures var t := Next(s, Refresh(presented, minted));
      h in Unexpired(t.tokens, t.now) <==> h in Unexpired(s.tokens, s.now) - {presented} + {minted}
  {}

  /** A successful refresh replaces one live session by exactly one of the same user
      and role; a refused one changes nothing. */
  lemma RefreshReplacesOne(s: State, presented: Hash, minted: Hash)
    requires Owned(s) && minted !in s.issued
    ensures var t := Next(s, Refresh(presented, minted));
      var before, after := Unexpired(s.tokens, s.now), Unexpired(t.tokens, t.now);
      if presented in s.tokens && s.now < s.tokens[presented].expires
      then && after == before - {presented} + {minted} && |after| == |before|
           && t.tokens[minted].user == s.tokens[presented].user && t.tokens[minted].role == s.tokens[presented].role
      else t == s
  {
    if Live(s, presented) {
      forall h { RefreshSwaps(s, presented, minted, h); }
      SwapKeepsSize(Unexpired(s.tokens, s.now), presented, minted);
      var t := Next(s, Refresh(presented, minted));
      assert Unexpired(t.tokens, t.now) == Unexpired(s.tokens, s.now) - {presented} + {minted};
    }
  }

  /** Revoking a user's sessions leaves none of theirs live and everyone else's alone. */
  lemma RevokeAllRevokes(s: State, user: int, guest: int -> bool)
    requires SessionsOk(s, guest)
    ensures var t := Next(s, RevokeAll(user)); forall h :: Live(t, h) <==> (Live(s, h) && s.tokens[h].user != user)
  {
    RevokeKeepsIndexed(s, user);
  }

  /** A token that was issued and is no longer live never comes back. */
  lemma {:induction false} SpentForGood(s: State, steps: seq<Step>, t: State, h: Hash)
    requires Owned(s) && Steps(s, steps, t) && h in s.issued && !Live(s, h)
    ensures !Live(t, h) && h in t.issued
    decreases |steps|
  {
    if steps != [] {
      StepKeepsOwned(s, steps[0]);
      SpentForGood(Next(s, steps[0]), steps[1..], t, h);
    }
  }

  // ---------------------------------------------------------------- how long a session lives

  /** Issuing a session writes its token and adds it to what is left of its user's set, and
      both last ninety days for a guest and thirty for anyone else. */
  lemma LoginEffect(s: State, user: int, role: Role, minted: Hash)
    requires Enabled(s, Login(user, role, minted))
    ensures var t, until := Next(s, Login(user, role, minted)), s.now + (if role == Customer then 7_776_000 else 2_592_000);
      && t.now == s.now && t.tokens == s.tokens[minted := Session(user, role, until)]
      && t.sets == s.sets[user := Index(if user in s.sets && s.now < s.sets[user].expires then s.sets[user].hashes + {minted} else {minted}, until)]
  {
    assert {} + {minted} == {minted};
  }

  /** Presenting a token that is not past its time ends it and issues one to the same user
      in the same role, from now on; presenting any other changes nothing. */
  lemma RefreshEffect(s: State, presented: Hash, minted: Hash)
    requires Enabled(s, Refresh(presented, minted)) && minted != presented
    ensures var t := Next(s, Refresh(presented, minted));
      if presented in s.tokens && s.now < s.tokens[presented].expires
      then var was := s.tokens[presented];
        t.tokens == (s.tokens - {presented})[minted := Session(was.user, was.role, s.now + if was.role == Customer then 7_776_000 else 2_592_000)]
      else t == s
  {}

  /** The step ends the session of token `h`, which is `user`'s. */
  predicate Ends(step: Step, user: int, h: Hash) {
    match step
    case Refresh(presented, _) => presented == h
    case Logout(presented) => presented == h
    case DeleteSession(owner, presented) => owner == user && presented == h
    case RevokeAll(owner) => owner == user
    case _ => false
  }

  lemma StepKeepsToken(s: State, step: Step, h: Hash)
    requires Owned(s) && Enabled(s, step) && h in s.tokens && !Ends(step, s.tokens[h].user, h)
    ensures h in Next(s, step).tokens && Next(s, step).tokens[h] == s.tokens[h]
  {}

  lemma {:induction false} TokenStays(s: State, steps: seq<Step>, t: State, h: Hash)
    requires Owned(s) && Steps(s, steps, t) && h in s.tokens
    requires forall i :: 0 <= i < |steps| ==> !Ends(steps[i], s.tokens[h].user, h)
    ensures h in t.tokens && t.tokens[h] == s.tokens[h]
    decreases |steps|
  {
    if steps != [] {
      StepKeepsOwned(s, steps[0]);
      StepKeepsToken(s, steps[0], h);
      assert forall i :: 0 <= i < |steps[1..]| ==> steps[1..][i] == steps[i + 1];
      TokenStays(Next(s, steps[0]), steps[1..], t, h);
    }
  }

  /** Over any run in which nothing ends it, a session issued at a login lives for exactly
      ninety days in the guest role and thirty in any other. */
  lemma LivesItsTime(s: State, user: int, role: Role, h: Hash, steps: seq<Step>, t: State)
    requires Owned(s) && Enabled(s, Login(user, role, h)) && Steps(Next(s, Login(user, role, h)), steps, t)
    requires forall i :: 0 <= i < |steps| ==> !Ends(steps[i], user, h)
    ensures Live(t, h) <==> t.now - s.now < if role == Customer then 7_776_000 else 2_592_000
  {
    var first := Next(s, Login(user, role, h));
    StepKeepsOwned(s, Login(user, role, h));
    LoginEffect(s, user, role, h);
    TokenStays(first, steps, t, h);
  }

  /** Each way to end a session ends it: a refresh or a logout with its token, its deletion
      from its user's set, and revoking all the user's sessions, when the set lists it. */
  lemma EndedSessionsAreDead(s: State, step: Step, h: Hash)
    requires Owned(s) && Enabled(s, step) && h in s.tokens && s.now < s.tokens[h].expires && Listed(s, h)
    requires Ends(step, s.tokens[h].user, h)
    ensures h !in Next(s, step).tokens
  {}

  /** Mixed roles break it: a guest session and then a staff session of the same user
      leave, a month on, a live token that revoking all of the user's sessions misses. */
  lemma MixedRolesEscapeRevocation(user: int)
    ensures exists steps, s, t ::
      Initial(s) && Steps(s, steps, t) && (exists h :: Live(Next(t, RevokeAll(user)), h) && t.tokens[h].user == user)
  {
    var s0 := State(0, map[], map[], {});
    var s1 := Next(s0, Login(user, Customer, 1));
    var s2 := Next(s1, Login(user, Employee, 2));
    var s3 := Next(s2, Tick(30 * DAY));
    assert Steps(s3, [], s3);
    assert Steps(s2, [Tick(30 * DAY)], s3) by { assert [Tick(30 * DAY)][1..] == []; }
    assert Steps(s1, [Login(user, Employee, 2), Tick(30 * DAY)], s3) by {
      assert [Login(user, Employee, 2), Tick(30 * DAY)][1..] == [Tick(30 * DAY)];
    }
    assert Steps(s0, [Login(user, Customer, 1), Login(user, Employee, 2), Tick(30 * DAY)], s3) by {
      assert [Login(user, Customer, 1), Login(user, Employee, 2), Tick(30 * DAY)][1..] == [Login(user, Employee, 2), Tick(30 * DAY)];
    }
    assert Members(s3, user) == {};
    assert Live(Next(s3, RevokeAll(user)), 1) && s3.tokens[1].user == user;
  }

  lemma InitialOk(s: State, guest: int -> bool)
    requires Initial(s)
    ensures SessionsOk(s, guest)
  {}

  /** From an empty store: a live token is always found through its user's set. */
  lemma IndexedFromStart(s: State, steps: seq<Step>, t: State, guest: int -> bool, h: Hash)
    requires Initial(s) && ClassSteps(s, steps, t, guest) && Live(t, h)
    ensures h in Members(t, t.tokens[h].user) && t.tokens[h].expires <= t.sets[t.tokens[h].user].expires
  {
    InitialOk(s, guest);
    IndexComplete(s, steps, t, guest);
    assert Listed(t, h);
  }
}
