/** Refresh tokens: logins, concurrent rotations, logouts and clean-ups over one table. */
module Tokens {
  import opened Prelude

  type Time = int

  /** Token hashes are opaque distinct numbers. */
  type Hash = nat

  datatype Row = Row(user: nat, expires: Time)

  type Store = map<Hash, Row>

  // ----- the repository ---------------------------------------------------------------

  predicate LiveAt(store: Store, h: Hash, now: Time) { h in store && store[h].expires > now }

  function Owner(store: Store, h: Hash, now: Time): Option<nat> {
    if LiveAt(store, h, now) then Some(store[h].user) else None
  }

  predicate Consumes(store: Store, spent: Hash, user: nat, now: Time) {
    LiveAt(store, spent, now) && store[spent].user == user
  }

  /** The DELETE ... RETURNING and the INSERT of one transaction. */
  function Rotated(store: Store, spent: Hash, user: nat, next: Hash, expires: Time, now: Time): Store {
    if Consumes(store, spent, user, now) then (store - {spent})[next := Row(user, expires)] else store
  }

  function WithoutUser(store: Store, user: nat): Store {
    map h | h in store && store[h].user != user :: store[h]
  }

  function WithoutExpired(store: Store, user: nat, now: Time): Store {
    map h | h in store && !(store[h].user == user && store[h].expires <= now) :: store[h]
  }

  // ----- interleaved requests -------------------------------------------------------------

  /** A refresh that has read its token and not yet rotated it. */
  datatype Refresh = Refresh(hash: Hash, user: nat)

  /** The table and the refreshes under way; and beside them the login each token descends from, and
      the tokens that successful refreshes have consumed, in order. */
  datatype World = World(store: Store, refreshes: map<nat, Refresh>, login: map<Hash, Hash>, consumed: seq<Hash>)

  const EMPTY := World(map[], map[], map[], [])

  datatype Step =
    | Login(next: Hash, user: nat, expires: Time)
    | Read(q: nat, hash: Hash, now: Time)
    | Abandon(q: nat)
    | Rotate(q: nat, next: Hash, expires: Time, now: Time)
    | Logout(hash: Hash)
    | DeleteUser(user: nat)
    | DeleteExpired(user: nat, now: Time)

  predicate Enabled(w: World, step: Step) {
    match step
    case Login(h, _, _) => h !in w.login
    case Read(q, h, now) => q !in w.refreshes && Owner(w.store, h, now).Some?
    case Rotate(q, h, _, _) => q in w.refreshes && h !in w.login
    case _ => true
  }

  /** Whether the rotation of a refresh succeeds. */
  predicate Succeeds(w: World, q: nat, now: Time) {
    q in w.refreshes && Consumes(w.store, w.refreshes[q].hash, w.refreshes[q].user, now)
  }

  function RootOf(w: World, h: Hash): Hash {
    if h in w.login then w.login[h] else h
  }

  function Perform(w: World, step: Step): World
    requires Enabled(w, step)
  {
    match step
    case Login(h, user, expires) => w.(store := w.store[h := Row(user, expires)], login := w.login[h := h])
    case Read(q, h, now) => w.(refreshes := w.refreshes[q := Refresh(h, Owner(w.store, h, now).value)])
    case Abandon(q) => w.(refreshes := w.refreshes - {q})
    case Rotate(q, h, expires, now) =>
      var r := w.refreshes[q];
      var w' := w.(store := Rotated(w.store, r.hash, r.user, h, expires, now), refreshes := w.refreshes - {q});
      if Succeeds(w, q, now) then w'.(login := w.login[h := RootOf(w, r.hash)], consumed := w.consumed + [r.hash]) else w'
    case Logout(h) => w.(store := w.store - {h})
    case DeleteUser(user) => w.(store := WithoutUser(w.store, user))
    case DeleteExpired(user, now) => w.(store := WithoutExpired(w.store, user, now))
  }

  predicate IsRun(w: World, steps: seq<Step>)
    decreases |steps|, 0
  {
    steps == [] || (IsRun(w, steps[..|steps| - 1]) && Enabled(Run(w, steps[..|steps| - 1]), steps[|steps| - 1]))
  }

  function Run(w: World, steps: seq<Step>): World
    requires IsRun(w, steps)
    decreases |steps|, 1
  {
    if steps == [] then w else Perform(Run(w, steps[..|steps| - 1]), steps[|steps| - 1])
  }

  // ----- the invariant --------------------------------------------------------------------

  /** A live token of the lineage that one login started. */
  predicate LiveOf(w: World, root: Hash, h: Hash) { h in w.store && h in w.login && w.login[h] == root }

  ghost predicate Dead(w: World, root: Hash) { forall h :: !LiveOf(w, root, h) }

  ghost predicate AtMostOneLive(w: World, root: Hash) {
    forall g, h :: LiveOf(w, root, g) && LiveOf(w, root, h) ==> g == h
  }

  ghost predicate Inv(w: World) {
    && (forall h :: h in w.store ==> h in w.login)
    && (forall h :: h in w.login ==> w.login[h] in w.login && w.login[w.login[h]] == w.login[h])
    && (forall h :: h in w.consumed ==> h in w.login && h !in w.store)
    && (forall i, j :: 0 <= i < j < |w.consumed| ==> w.consumed[i] != w.consumed[j])
    && (forall root :: AtMostOneLive(w, root))
    && (forall q :: q in w.refreshes ==> w.refreshes[q].hash in w.login)
    && (forall q :: q in w.refreshes && w.refreshes[q].hash in w.store ==>
          w.store[w.refreshes[q].hash].user == w.refreshes[q].user)
  }

  /** Fewer tokens in the table keep everything. */
  lemma FewerKeepsInv(w: World, store: Store)
    requires Inv(w) && forall h :: h in store ==> h in w.store && store[h] == w.store[h]
    ensures Inv(w.(store := store))
  {
    var w' := w.(store := store);
    forall root, g, h | LiveOf(w', root, g) && LiveOf(w', root, h) ensures g == h {
      assert AtMostOneLive(w, root) && LiveOf(w, root, g) && LiveOf(w, root, h);
    }
  }

  lemma LoginKeepsInv(w: World, h: Hash, user: nat, expires: Time)
    requires Inv(w) && h !in w.login
    ensures Inv(Perform(w, Login(h, user, expires)))
  {
    var w' := Perform(w, Login(h, user, expires));
    forall root, a, b | LiveOf(w', root, a) && LiveOf(w', root, b) ensures a == b {
      if a != h && b != h {
        assert AtMostOneLive(w, root) && LiveOf(w, root, a) && LiveOf(w, root, b);
      }
    }
  }

  lemma RotateKeepsInv(w: World, q: nat, h: Hash, expires: Time, now: Time)
    requires Inv(w) && q in w.refreshes && h !in w.login
    ensures Inv(Perform(w, Rotate(q, h, expires, now)))
  {
    var w', r := Perform(w, Rotate(q, h, expires, now)), w.refreshes[q];
    if Succeeds(w, q, now) {
      forall root, a, b | LiveOf(w', root, a) && LiveOf(w', root, b) ensures a == b {
        assert AtMostOneLive(w, root);
        assert a != h ==> LiveOf(w, root, a);
        assert b != h ==> LiveOf(w, root, b);
        if a == h || b == h {
          assert LiveOf(w, root, r.hash);
        }
      }
      assert forall i :: 0 <= i < |w.consumed| ==> w.consumed[i] in w.consumed;
    } else {
      forall root, a, b | LiveOf(w', root, a) && LiveOf(w', root, b) ensures a == b {
        assert AtMostOneLive(w, root) && LiveOf(w, root, a) && LiveOf(w, root, b);
      }
    }
  }

  lemma StepKeepsInv(w: World, step: Step)
    requires Inv(w) && Enabled(w, step)
    ensures Inv(Perform(w, step))
  {
    match step
    case Login(h, user, expires) => LoginKeepsInv(w, h, user, expires);
    case Rotate(q, h, expires, now) => RotateKeepsInv(w, q, h, expires, now);
    case Logout(h) => FewerKeepsInv(w, w.store - {h});
    case DeleteUser(user) => FewerKeepsInv(w, WithoutUser(w.store, user));
    case DeleteExpired(user, now) => FewerKeepsInv(w, WithoutExpired(w.store, user, now));
    case Read(q, h, now) =>
      var w' := Perform(w, step);
      forall root, a, b | LiveOf(w', root, a) && LiveOf(w', root, b) ensures a == b {
        assert AtMostOneLive(w, root) && LiveOf(w, root, a) && LiveOf(w, root, b);
      }
    case Abandon(q) =>
      var w' := Perform(w, step);
      forall root, a, b | LiveOf(w', root, a) && LiveOf(w', root, b) ensures a == b {
        assert AtMostOneLive(w, root) && LiveOf(w, root, a) && LiveOf(w, root, b);
      }
  }

  lemma {:induction false} RunKeepsInv(w: World, steps: seq<Step>)
    requires Inv(w) && IsRun(w, steps)
    ensures Inv(Run(w, steps))
  {
    if steps != [] {
      RunKeepsInv(w, steps[..|steps| - 1]);
      StepKeepsInv(Run(w, steps[..|steps| - 1]), steps[|steps| - 1]);
    }
  }

  lemma EmptyInv()
    ensures Inv(EMPTY)
  {
    assert forall root :: AtMostOneLive(EMPTY, root);
  }

  // ----- rotation ------------------------------------------------------------------------------

  /** Over all interleavings: each token is consumed by at most one successful refresh and is gone from
      then on, and each login has at most one live descendant. */
  lemma TokensAreConsumedOnce(steps: seq<Step>)
    requires IsRun(EMPTY, steps)
    ensures var w := Run(EMPTY, steps);
            && (forall i, j :: 0 <= i < j < |w.consumed| ==> w.consumed[i] != w.consumed[j])
            && (forall h :: h in w.consumed ==> h !in w.store)
            && (forall root, g, h :: LiveOf(w, root, g) && LiveOf(w, root, h) ==> g == h)
  {
    EmptyInv();
    RunKeepsInv(EMPTY, steps);
    var w := Run(EMPTY, steps);
    forall root, g, h | LiveOf(w, root, g) && LiveOf(w, root, h) ensures g == h {
      assert AtMostOneLive(w, root);
    }
  }

  /** A refresh succeeds iff its token is still in the table and has not expired when it rotates:
      the check made when it was read does not count. */
  lemma RotationSucceedsIff(steps: seq<Step>, q: nat, next: Hash, expires: Time, now: Time)
    requires IsRun(EMPTY, steps) && Enabled(Run(EMPTY, steps), Rotate(q, next, expires, now))
    ensures var w, r := Run(EMPTY, steps), Run(EMPTY, steps).refreshes[q];
            var w' := Perform(w, Rotate(q, next, expires, now));
            var good := r.hash in w.store && w.store[r.hash].expires > now;
            && (good ==>
                  && next !in w.store && next in w'.store && w'.store[next].user == w.store[r.hash].user && w'.store[next].expires == expires
                  && (forall h :: h != next ==> (h in w'.store <==> h in w.store && h != r.hash))
                  && (forall h :: h != next && h in w'.store ==> w'.store[h] == w.store[h])
                  && w'.consumed == w.consumed + [r.hash])
            && (!good ==> w'.store == w.store && w'.consumed == w.consumed)
            && (good <==> Succeeds(w, q, now))
  {
    EmptyInv();
    RunKeepsInv(EMPTY, steps);
    hide Run, IsRun;
  }

  /** Over all runs: whatever was under way, a refresh that rotates at or after the expiry of its token
      consumes nothing and stores nothing; and one cannot even begin then. */
  lemma ExpiredNeverConsumed(steps: seq<Step>, h: Hash, now: Time)
    requires IsRun(EMPTY, steps) && h in Run(EMPTY, steps).store && Run(EMPTY, steps).store[h].expires <= now
    ensures var w := Run(EMPTY, steps);
            && (forall q :: !Enabled(w, Read(q, h, now)))
            && (forall q, next, expires :: Enabled(w, Rotate(q, next, expires, now)) && w.refreshes[q].hash == h ==>
                  var w' := Perform(w, Rotate(q, next, expires, now));
                  w'.store == w.store && w'.consumed == w.consumed && w'.login == w.login)
  {
    hide Run, IsRun;
  }

  /** Cleaning up removes exactly the user's tokens that have expired, deleting a user all of them. */
  lemma CleanUpIs(w: World, user: nat, now: Time, h: Hash)
    ensures var w' := Perform(w, DeleteExpired(user, now));
            && (h in w'.store <==> h in w.store && !(w.store[h].user == user && w.store[h].expires <= now))
            && (h in w'.store ==> w'.store[h] == w.store[h])
    ensures var w' := Perform(w, DeleteUser(user));
            && (h in w'.store <==> h in w.store && w.store[h].user != user)
            && (h in w'.store ==> w'.store[h] == w.store[h])
  {
  }

  /** Of two refreshes that both read the same token, at most one succeeds, whatever happens between. */
  lemma SecondRefreshFails(w: World, p: nat, q: nat, next: Hash, expires: Time, t: Time, steps: seq<Step>, now: Time)
    requires Inv(w) && p in w.refreshes && q in w.refreshes && w.refreshes[p].hash == w.refreshes[q].hash
    requires Enabled(w, Rotate(p, next, expires, t)) && Succeeds(w, p, t)
    requires IsRun(Perform(w, Rotate(p, next, expires, t)), steps)
    ensures var end := Run(Perform(w, Rotate(p, next, expires, t)), steps);
            q in end.refreshes && end.refreshes[q].hash == w.refreshes[q].hash ==> !Succeeds(end, q, now)
  {
    var w1 := Perform(w, Rotate(p, next, expires, t));
    StepKeepsInv(w, Rotate(p, next, expires, t));
    RunKeepsInv(w1, steps);
    assert w1.consumed[|w.consumed|] == w.refreshes[p].hash;
    ConsumedGrows(w1, steps);
    assert Run(w1, steps).consumed[|w.consumed|] in Run(w1, steps).consumed;
  }

  lemma {:induction false} ConsumedGrows(w: World, steps: seq<Step>)
    requires IsRun(w, steps)
    ensures w.consumed <= Run(w, steps).consumed
  {
    if steps != [] {
      ConsumedGrows(w, steps[..|steps| - 1]);
    }
  }

  // ----- the end of a lineage ----------------------------------------------------------------------

  lemma StepKeepsDead(w: World, step: Step, root: Hash)
    requires Inv(w) && Enabled(w, step) && root in w.login && Dead(w, root)
    ensures root in Perform(w, step).login && Dead(Perform(w, step), root)
  {
    var w' := Perform(w, step);
    forall h ensures !LiveOf(w', root, h) {
      assert !LiveOf(w, root, h);
      if step.Rotate? && Succeeds(w, step.q, step.now) {
        assert !LiveOf(w, root, w.refreshes[step.q].hash);
      }
    }
  }

  /** A lineage without a live token never gets one again, whatever refreshes were under way. */
  lemma {:induction false} DeadLineageStaysDead(w: World, steps: seq<Step>, root: Hash)
    requires Inv(w) && IsRun(w, steps) && root in w.login && Dead(w, root)
    ensures root in Run(w, steps).login && Dead(Run(w, steps), root)
  {
    if steps != [] {
      var n := |steps| - 1;
      DeadLineageStaysDead(w, steps[..n], root);
      RunKeepsInv(w, steps[..n]);
      StepKeepsDead(Run(w, steps[..n]), steps[n], root);
    }
  }

  /** A logout ends its lineage iff its token is the live one, or the lineage was dead before; the
      logout of a token that has been rotated changes nothing and leaves its descendant alive. */
  lemma LogoutEndsLineageIff(w: World, h: Hash)
    requires Inv(w) && h in w.login
    ensures var root := w.login[h];
            && (Dead(Perform(w, Logout(h)), root) <==> h in w.store || Dead(w, root))
            && (h !in w.store ==> Perform(w, Logout(h)) == w)
  {
    var w', root := Perform(w, Logout(h)), w.login[h];
    if h in w.store {
      assert AtMostOneLive(w, root) && LiveOf(w, root, h);
      forall g ensures !LiveOf(w', root, g) {
        assert LiveOf(w', root, g) ==> LiveOf(w, root, g);
      }
    } else {
      assert w'.store == w.store;
    }
  }

  /** Once a logout has removed the live token of a login, that login never has one again. */
  lemma LoggedOutForever(before: seq<Step>, h: Hash, after: seq<Step>)
    requires IsRun(EMPTY, before) && h in Run(EMPTY, before).store
    requires IsRun(Perform(Run(EMPTY, before), Logout(h)), after)
    ensures h in Run(EMPTY, before).login
    ensures Dead(Run(Perform(Run(EMPTY, before), Logout(h)), after), Run(EMPTY, before).login[h])
  {
    EmptyInv();
    RunKeepsInv(EMPTY, before);
    var w := Run(EMPTY, before);
    LogoutEndsLineageIff(w, h);
    StepKeepsInv(w, Logout(h));
    DeadLineageStaysDead(Perform(w, Logout(h)), after, w.login[h]);
  }

  lemma Extend(w: World, steps: seq<Step>, step: Step)
    requires IsRun(w, steps) && Enabled(Run(w, steps), step)
    ensures IsRun(w, steps + [step]) && Run(w, steps + [step]) == Perform(Run(w, steps), step)
  {
    assert (steps + [step])[..|steps + [step]| - 1] == steps;
  }

  /** A logout that arrives after a concurrent refresh does not log out. */
  lemma RefreshBeatsLogout() returns (steps: seq<Step>)
    ensures IsRun(EMPTY, steps) && |steps| == 4 && steps[3] == Logout(0)
    ensures LiveOf(Run(EMPTY, steps), 0, 1)
  {
    steps := [];
    Extend(EMPTY, steps, Login(0, 7, 100));
    steps := steps + [Login(0, 7, 100)];
    Extend(EMPTY, steps, Read(0, 0, 10));
    steps := steps + [Read(0, 0, 10)];
    Extend(EMPTY, steps, Rotate(0, 1, 200, 11));
    steps := steps + [Rotate(0, 1, 200, 11)];
    Extend(EMPTY, steps, Logout(0));
    steps := steps + [Logout(0)];
  }

  // ----- the service, one request at a time ------------------------------------------------------------

  datatype AuthError = InvalidCredentials | TokenExpired

  /** `active` holds the ids of the users that exist and are active. */
  class AuthService {
    const lifetime: int
    const verify: (nat, string) -> bool
    var active: set<nat>
    var store: Store

    constructor (lifetime: int, verify: (nat, string) -> bool)
      ensures this.lifetime == lifetime && this.verify == verify && active == {} && store == map[]
    {
      this.lifetime, this.verify := lifetime, verify;
      active, store := {}, map[];
    }

    /** A login gives the same error whichever check fails, and then changes nothing. */
    method LogIn(user: Option<nat>, password: string, next: Hash, now: Time) returns (r: Result<Hash, AuthError>)
      requires next !in store
      modifies this`store
      ensures r == if user.Some? && verify(user.value, password) && user.value in active then Ok(next) else Err(InvalidCredentials)
      ensures r.Err? ==> store == old(store)
      ensures r.Ok? ==> next in store && store[next].user == user.value && store[next].expires == now + lifetime
      ensures r.Ok? ==> forall h :: h != next ==>
                (h in store <==> h in old(store) && !(old(store)[h].user == user.value && old(store)[h].expires <= now))
                && (h in store ==> store[h] == old(store)[h])
    {
      if user.None? || !verify(user.value, password) || user.value !in active {
        return Err(InvalidCredentials);
      }
      store := WithoutExpired(store, user.value, now);
      store := store[next := Row(user.value, now + lifetime)];
      r := Ok(next);
    }

    /** `refresh_access_token` without interleaving: the old token is exchanged for the new one, or
        nothing changes. */
    method RefreshAccessToken(h: Hash, next: Hash, now: Time) returns (r: Result<Hash, AuthError>)
      requires next !in store
      modifies this`store
      ensures r == if h !in old(store) || old(store)[h].expires <= now then Err(TokenExpired)
                   else if old(store)[h].user in active then Ok(next)
                   else Err(InvalidCredentials)
      ensures r.Err? ==> store == old(store)
      ensures r.Ok? ==> h !in store && next in store
                        && store[next].user == old(store)[h].user && store[next].expires == now + lifetime
      ensures r.Ok? ==> forall g :: g != h && g != next ==>
                (g in store <==> g in old(store)) && (g in store ==> store[g] == old(store)[g])
    {
      var user := Owner(store, h, now);
      if user.None? {
        return Err(TokenExpired);
      }
      if user.value !in active {
        return Err(InvalidCredentials);
      }
      var rotated := Consumes(store, h, user.value, now);
      store := Rotated(store, h, user.value, next, now + lifetime, now);
      r := if rotated then Ok(next) else Err(TokenExpired);
    }

    method LogOut(h: Hash)
      modifies this`store
      ensures store == old(store) - {h}
    {
      store := store - {h};
    }
  }
}
