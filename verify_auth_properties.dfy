/**
 * What the login pipeline guarantees, stated about `VerifyAuthCore.Verify` and therefore,
 * through `Core.VerifyAuth`'s postcondition, about every run of the imperative pipeline.
 */
module VerifyAuthProperties {
  import opened Wrappers
  import opened VerifyAuthCore
  import YggdrasilService

  /** A stored entry vouched for by another backend: kick naming that backend, nothing changes. */
  lemma PathMismatchChangesNothing(st: State, env: Env, res: AuthResult)
    requires res.id in st.users && st.users[res.id].yggdrasilService != res.service.path
    ensures Verify(st, env, res) ==
            Step(st, Kick(PathMismatch(ServiceName(env.serviceNames, st.users[res.id].yggdrasilService))))
  {
  }

  /**
   * Past the backend check, the login is kicked for its name exactly when a pattern is in
   * force (the backend's, else the global one) and the verified name does not match it.
   */
  lemma NamePatternEnforced(st: State, env: Env, res: AuthResult)
    requires res.id in st.users ==> st.users[res.id].yggdrasilService == res.service.path
    ensures var regex := EffectiveRegex(res.service.nameAllowedRegular, env.nameAllowedRegular);
            var s := Verify(st, env, res);
            (s.result.Kick? && s.result.reason.UsernameMismatch?) <==>
              (regex.Some? && !env.matches(regex.value, res.name))
    ensures var regex := EffectiveRegex(res.service.nameAllowedRegular, env.nameAllowedRegular);
            var s := Verify(st, env, res);
            s.result.Kick? && s.result.reason.UsernameMismatch? ==>
              s == Step(st, Kick(UsernameMismatch(res.name, regex.value)))
  {
  }

  /** Not safe-id: once the earlier checks pass, a name another entry holds is kicked, and only then. */
  lemma RepeatedNameKicked(st: State, env: Env, res: AuthResult)
    requires !res.service.safeId
    requires res.id in st.users ==> st.users[res.id].yggdrasilService == res.service.path
    requires var regex := EffectiveRegex(res.service.nameAllowedRegular, env.nameAllowedRegular);
             regex.Some? ==> env.matches(regex.value, res.name)
    ensures Verify(st, env, res).result == Kick(UsernameRepeated(res.name)) <==>
            NameTaken(st.users, res.name, Lookup(st.users, res.id))
    ensures Verify(st, env, res).result == Kick(UsernameRepeated(res.name)) ==> Verify(st, env, res).state == st
  {
  }

  /**
   * A safe-id backend skips the duplicate-name check entirely: the same login through the
   * same backend marked safe-id gets the same outcome, unless that outcome was the
   * duplicate-name kick.
   */
  lemma SafeIdSkipsOnlyRepeatedName(st: State, env: Env, res: AuthResult)
    ensures var safe := res.(service := res.service.(safeId := true));
            Verify(st, env, safe).result != Kick(UsernameRepeated(res.name)) &&
            (Verify(st, env, res).result != Kick(UsernameRepeated(res.name)) ==>
               Verify(st, env, safe) == Verify(st, env, res))
  {
  }

  /** Every way out before the write step leaves the store, the cache and the players as they were. */
  lemma EarlyExitsChangeNothing(st: State, env: Env, res: AuthResult)
    ensures !Persisted(Verify(st, env, res).result) ==> Verify(st, env, res).state == st
  {
    var s := Verify(st, env, res);
    if s.result == Kick(NoWhitelist) {
      var u := Prepared(st.users, env, res).value;
      var idString := UuidString(res.id);
      assert !u.whitelist && res.name !in st.cacheWhitelist && idString !in st.cacheWhitelist;
      assert st.cacheWhitelist - {res.name} - {idString} == st.cacheWhitelist;
    }
  }

  /**
   * A login that reaches the write step writes exactly one entry, at its online UUID: an
   * insert when none was stored, an update otherwise. The store stays keyed by online UUID.
   */
  lemma OneWrite(st: State, env: Env, res: AuthResult)
    requires Consistent(st.users)
    requires Persisted(Verify(st, env, res).result)
    ensures var users := Verify(st, env, res).state.users;
            res.id in users && users == st.users[res.id := users[res.id]] && Consistent(users)
  {
  }

  /**
   * The entry an admitted or repeat-refused login leaves stored: it belongs to the online
   * UUID and the backend, carries the verified name, keeps an existing entry's redirect
   * UUID, and gives a new entry the converted UUID, or on a convRepeat backend the first
   * candidate no stored entry redirects to. A new entry is whitelisted only by the whitelist step.
   */
  lemma StoredEntry(st: State, env: Env, res: AuthResult)
    requires Consistent(st.users)
    requires Persisted(Verify(st, env, res).result)
    ensures var s := Verify(st, env, res);
            var u := s.state.users[res.id];
            var derived := env.resultUuid(res.service.convUuid, res.id, res.name);
            && u.onlineUuid == res.id
            && u.currentName == res.name
            && u.yggdrasilService == res.service.path
            && (s.result.Allow? ==> s.result.user == u)
            && (res.id in st.users ==> u.redirectUuid == st.users[res.id].redirectUuid)
            && (res.id !in st.users && !res.service.convRepeat ==> u.redirectUuid == derived)
            && (res.id !in st.users && res.service.convRepeat ==>
                  RedirectFree(st.users, u.redirectUuid) &&
                  (RedirectFree(st.users, derived) ==> u.redirectUuid == derived))
            && (res.id !in st.users && !WhitelistRequired(env, res) ==> !u.whitelist)
  {
  }

  /**
   * The whitelist step on an entry not yet whitelisted: both the name and the online UUID's
   * text leave the pending cache, and the login is refused exactly when neither was pending.
   */
  lemma WhitelistConsumed(st: State, env: Env, res: AuthResult)
    requires Consistent(st.users)
    requires PreCheck(st.users, env, res).None? && Prepared(st.users, env, res).Some?
    requires WhitelistRequired(env, res)
    requires res.id in st.users ==> !st.users[res.id].whitelist
    ensures var s := Verify(st, env, res);
            var idString := UuidString(res.id);
            && s.state.cacheWhitelist == st.cacheWhitelist - {res.name} - {idString}
            && (s.result == Kick(NoWhitelist) <==>
                  res.name !in st.cacheWhitelist && idString !in st.cacheWhitelist)
            && (s.result != Kick(NoWhitelist) ==> Persisted(s.result) && s.state.users[res.id].whitelist)
  {
  }

  /** Without a whitelist requirement, or for an entry already whitelisted, the cache is not touched. */
  lemma WhitelistCacheUntouched(st: State, env: Env, res: AuthResult)
    requires !WhitelistRequired(env, res) || (res.id in st.users && st.users[res.id].whitelist)
    ensures Verify(st, env, res).state.cacheWhitelist == st.cacheWhitelist
    ensures Verify(st, env, res).result != Kick(NoWhitelist)
  {
  }

  /**
   * The store's lifetime invariants: entries are never deleted, an entry's backend and
   * redirect UUID never change, and a whitelisted entry stays whitelisted.
   */
  lemma StoreInvariants(st: State, env: Env, res: AuthResult)
    requires Consistent(st.users)
    ensures var users := Verify(st, env, res).state.users;
            && Consistent(users)
            && st.users.Keys <= users.Keys
            && forall k | k in st.users ::
                 && users[k].yggdrasilService == st.users[k].yggdrasilService
                 && users[k].redirectUuid == st.users[k].redirectUuid
                 && (st.users[k].whitelist ==> users[k].whitelist)
  {
    EarlyExitsChangeNothing(st, env, res);
  }

  /** No two stored entries share a redirect UUID. */
  ghost predicate RedirectsDistinct(users: map<Uuid, User>) {
    forall a, b | a in users && b in users && a != b :: users[a].redirectUuid != users[b].redirectUuid
  }

  /** Logins through convRepeat backends keep the redirect UUIDs of the store distinct. */
  lemma ConvRepeatKeepsRedirectsDistinct(st: State, env: Env, res: AuthResult)
    requires Consistent(st.users) && RedirectsDistinct(st.users) && res.service.convRepeat
    ensures RedirectsDistinct(Verify(st, env, res).state.users)
  {
    var s := Verify(st, env, res);
    EarlyExitsChangeNothing(st, env, res);
    if Persisted(s.result) {
      StoredEntry(st, env, res);
      OneWrite(st, env, res);
    }
  }

  /** The redirect UUID the stored entry ends with. */
  function FinalRedirect(st: State, env: Env, res: AuthResult): Uuid
    requires Persisted(Verify(st, env, res).result)
  {
    assert res.id in Verify(st, env, res).state.users;
    Verify(st, env, res).state.users[res.id].redirectUuid
  }

  /** Removing one position of a sequence keeps every element found elsewhere. */
  lemma RemoveAtKeeps(ps: seq<Player>, i: nat, j: nat)
    requires i < |ps| && j < |ps| && j != i
    ensures ps[j] in ps[..i] + ps[i + 1..]
  {
    if j < i {
      assert (ps[..i] + ps[i + 1..])[j] == ps[j];
    } else {
      assert (ps[..i] + ps[i + 1..])[j - 1] == ps[j];
    }
  }

  /** The session step's sweep, for any state it starts from. */
  lemma ReconcileSweep(st: State, name: string, user: User, refuse: bool)
    ensures var s := Reconcile(st, name, user.redirectUuid, user, refuse).state;
            && (forall p | p in st.players && Busy(p, name, user.redirectUuid) ::
                  p !in s.players && Disconnect(p, BusyUsername) in s.disconnected)
            && (forall p | p in st.players && !Busy(p, name, user.redirectUuid) && p.uniqueId != user.redirectUuid ::
                  p in s.players)
  {
    var s := Reconcile(st, name, user.redirectUuid, user, refuse).state;
    var survivors := Survivors(st.players, name, user.redirectUuid);
    forall p | p in st.players && !Busy(p, name, user.redirectUuid) && p.uniqueId != user.redirectUuid
      ensures p in s.players
    {
      assert p in survivors;
      var i := FindPlayer(survivors, user.redirectUuid);
      if i.Some? && !refuse {
        var j :| 0 <= j < |survivors| && survivors[j] == p;
        RemoveAtKeeps(survivors, i.value, j);
      }
    }
  }

  /**
   * The same-name sweep: every online player with the verified name but another unique id
   * than the entry's redirect UUID is kicked as a busy name; every other player not holding
   * that redirect UUID stays online.
   */
  lemma NameSweep(st: State, env: Env, res: AuthResult)
    requires Persisted(Verify(st, env, res).result)
    ensures var s := Verify(st, env, res);
            var redirect := FinalRedirect(st, env, res);
            && (forall p | p in st.players && Busy(p, res.name, redirect) ::
                  p !in s.state.players && Disconnect(p, BusyUsername) in s.state.disconnected)
            && (forall p | p in st.players && !Busy(p, res.name, redirect) && p.uniqueId != redirect ::
                  p in s.state.players)
  {
    var u := Prepared(st.users, env, res).value;
    var a := ConsumeWhitelist(st.cacheWhitelist, env, res, u);
    var written := st.(users := st.users[res.id := a.user], cacheWhitelist := a.cache);
    assert Verify(st, env, res) == Reconcile(written, res.name, a.user.redirectUuid, a.user, res.service.refuseRepeatedLogin);
    ReconcileSweep(written, res.name, a.user, res.service.refuseRepeatedLogin);
  }

  /**
   * The same-name sweep as VerifyAuthCore.java:135-139 writes it: every online player with
   * the verified name whose unique id is not the ONLINE UUID is kicked as a busy name.
   */
  lemma NameSweepAsWritten(st: State, env: Env, res: AuthResult)
    requires Persisted(VerifyAsWritten(st, env, res).result)
    ensures var s := VerifyAsWritten(st, env, res);
            forall p | p in st.players && p.name == res.name && p.uniqueId != res.id ::
              p !in s.state.players && Disconnect(p, BusyUsername) in s.state.disconnected
  {
    var u := Prepared(st.users, env, res).value;
    var a := ConsumeWhitelist(st.cacheWhitelist, env, res, u);
    var written := st.(users := st.users[res.id := a.user], cacheWhitelist := a.cache);
    assert VerifyAsWritten(st, env, res) == Reconcile(written, res.name, res.id, a.user, res.service.refuseRepeatedLogin);
  }

  /**
   * refuseRepeatedLogin: when a player already holds the entry's redirect UUID, the login is
   * refused, that player stays online, and the entry stays written.
   */
  lemma RepeatLoginRefused(st: State, env: Env, res: AuthResult, holder: Player)
    requires Persisted(Verify(st, env, res).result) && res.service.refuseRepeatedLogin
    requires holder in st.players && holder.uniqueId == FinalRedirect(st, env, res)
    ensures Verify(st, env, res).result == Kick(RepeatLogin)
    ensures holder in Verify(st, env, res).state.players
  {
    var redirect := FinalRedirect(st, env, res);
    var survivors := Survivors(st.players, res.name, redirect);
    assert holder in survivors;
    var j :| 0 <= j < |survivors| && survivors[j] == holder;
    assert FindPlayer(survivors, redirect).Some?;
  }

  /**
   * Without refuseRepeatedLogin, a player holding the entry's redirect UUID is kicked with
   * the replacement notice and the login is admitted; when online players have distinct
   * unique ids, that player is no longer online.
   */
  lemma RepeatLoginReplaces(st: State, env: Env, res: AuthResult, holder: Player)
    requires Persisted(Verify(st, env, res).result) && !res.service.refuseRepeatedLogin
    requires holder in st.players && holder.uniqueId == FinalRedirect(st, env, res)
    ensures var s := Verify(st, env, res);
            && s.result.Allow?
            && |s.state.disconnected| > 0
            && var last := s.state.disconnected[|s.state.disconnected| - 1];
               last.notice == BusyLogin && last.player.uniqueId == FinalRedirect(st, env, res)
    ensures DistinctIds(st.players) ==> holder !in Verify(st, env, res).state.players
  {
    var redirect := FinalRedirect(st, env, res);
    var survivors := Survivors(st.players, res.name, redirect);
    assert holder in survivors;
    var j :| 0 <= j < |survivors| && survivors[j] == holder;
    assert FindPlayer(survivors, redirect).Some?;
  }

  /**
   * The code as written kicks a player's own earlier session: with a redirect UUID (2) that
   * differs from the online UUID (1), the earlier session of the same account is kicked as
   * a busy name before the repeated-login check looks for it, so refuseRepeatedLogin never
   * refuses. With the redirect UUID spared, the same login is refused and the session stays.
   */
  lemma RepeatLoginBypassedAsWritten()
    ensures var entry := User(1, "Steve", 2, "alpha", false);
            var session := Player("Steve", 2);
            var st := State(map[1 := entry], {}, [session], []);
            var env := Env(None, false, map[], (r, n) => true, (c, id, n) => 2, []);
            var res := AuthResult(Backend("alpha", None, false, YggdrasilService.NameDerived, false, false, true), 1, "Steve");
            && VerifyAsWritten(st, env, res) ==
                 Step(State(map[1 := entry], {}, [], [Disconnect(session, BusyUsername)]), Allow(entry))
            && Verify(st, env, res) == Step(st, Kick(RepeatLogin))
  {
    var entry := User(1, "Steve", 2, "alpha", false);
    var session := Player("Steve", 2);
    var st := State(map[1 := entry], {}, [session], []);
    assert !NameTaken(st.users, "Steve", Some(entry));
    assert Survivors([session], "Steve", 1) == [];
    assert Survivors([session], "Steve", 2) == [session];
    assert st.users[1 := entry] == st.users;
  }
}
