/**
 * The login verification pipeline (VerifyAuthCore.verifyAuth). A verified login is checked
 * against the stored user entries, the name policy and the pending whitelist, written to
 * the store, and reconciled with the players already online; it ends in an admission
 * carrying the final user entry or in a kick with a reason.
 *
 * `Verify` states the whole pipeline as a function of the state before the login; the
 * class `Core` holds that state in fields and runs the pipeline step by step
 * (`Core.VerifyAuth`), proved to end in the state and result `Verify` gives.
 */
module VerifyAuthCore {
  import opened Wrappers
  import YggdrasilService

  type ConvUuid = YggdrasilService.ConvUuid

  /** A java.util.UUID as its 128-bit value. */
  newtype Uuid = x: int | 0 <= x < 0x1_0000_0000_0000_0000_0000_0000_0000_0000

  /** The lower-case hexadecimal digit for `d`. */
  function HexDigit(d: nat): char
    requires d < 16
  {
    if d < 10 then ('0' as int + d) as char else ('a' as int + d - 10) as char
  }

  function Pow16(n: nat): nat {
    if n == 0 then 1 else 16 * Pow16(n - 1)
  }

  /** The `n` lowest hexadecimal digits of `v`, most significant first. */
  function Hex(v: nat, n: nat): (s: string)
    ensures |s| == n
  {
    if n == 0 then [] else Hex(v / 16, n - 1) + [HexDigit(v % 16)]
  }

  /** `n` hexadecimal digits tell apart every two values below 16^n. */
  lemma {:induction false} HexInjective(v: nat, w: nat, n: nat)
    requires v < Pow16(n) && w < Pow16(n)
    requires Hex(v, n) == Hex(w, n)
    ensures v == w
  {
    if n > 0 {
      var hv := Hex(v, n);
      var hw := Hex(w, n);
      assert hv[n - 1] == HexDigit(v % 16) && hw[n - 1] == HexDigit(w % 16);
      assert hv[..n - 1] == Hex(v / 16, n - 1) && hw[..n - 1] == Hex(w / 16, n - 1);
      HexInjective(v / 16, w / 16, n - 1);
    }
  }

  /** UUID.toString(): five groups of 8, 4, 4, 4 and 12 lower-case hex digits. */
  function UuidString(u: Uuid): (s: string)
    ensures |s| == 36 && s[8] == s[13] == s[18] == s[23] == '-'
    ensures s[..8] + s[9..13] + s[14..18] + s[19..23] + s[24..] == Hex(u as int, 32)
  {
    var h := Hex(u as int, 32);
    var s := h[..8] + "-" + h[8..12] + "-" + h[12..16] + "-" + h[16..20] + "-" + h[20..];
    assert s[..8] == h[..8] && s[9..13] == h[8..12] && s[14..18] == h[12..16];
    assert s[19..23] == h[16..20] && s[24..] == h[20..];
    assert h == h[..8] + h[8..12] + h[12..16] + h[16..20] + h[20..];
    s
  }

  /** Distinct UUIDs have distinct texts, so a pending whitelist entry names one online UUID. */
  lemma UuidStringInjective(a: Uuid, b: Uuid)
    requires UuidString(a) == UuidString(b)
    ensures a == b
  {
    assert Pow16(8) == 0x1_0000_0000;
    assert Pow16(16) == 0x1_0000_0000_0000_0000;
    assert Pow16(24) == 0x1_0000_0000_0000_0000_0000_0000;
    assert Pow16(32) == 0x1_0000_0000_0000_0000_0000_0000_0000_0000;
    HexInjective(a as int, b as int, 32);
  }

  /** A stored user entry, keyed in the store by its online UUID. */
  datatype User = User(onlineUuid: Uuid, currentName: string, redirectUuid: Uuid,
                       yggdrasilService: string, whitelist: bool)

  /** An online player: its name and the unique id the game server knows it by. */
  datatype Player = Player(name: string, uniqueId: Uuid)

  /** The message a kicked player sees: in_game_busy_username or in_game_busy_login. */
  datatype Notice = BusyUsername | BusyLogin

  datatype Disconnect = Disconnect(player: Player, notice: Notice)

  /** The flags of the verifying backend that the pipeline reads. */
  datatype Backend = Backend(path: string, nameAllowedRegular: Option<string>, safeId: bool,
                             convUuid: ConvUuid, convRepeat: bool, whitelist: bool,
                             refuseRepeatedLogin: bool)

  /** The backend's answer: which backend verified the login, and the profile it returned. */
  datatype AuthResult = AuthResult(service: Backend, id: Uuid, name: string)

  /**
   * What the pipeline consults besides its own state: the global configuration, the
   * display names of the configured backends, Pattern.matches, the conversion policies'
   * getResultUuid, and the successive values UUID.randomUUID() returns.
   */
  datatype Env = Env(nameAllowedRegular: Option<string>, whitelist: bool,
                     serviceNames: map<string, string>,
                     matches: (string, string) -> bool,
                     resultUuid: (ConvUuid, Uuid, string) -> Uuid,
                     randomUuids: seq<Uuid>)

  /** Why a login is kicked. */
  datatype Reason =
    | PathMismatch(serviceName: string)
    | UsernameMismatch(currentName: string, regular: string)
    | UsernameRepeated(currentName: string)
    | NoWhitelist
    | RepeatLogin

  /**
   * The outcome: admit with the final entry, kick, or give up because every random
   * candidate for a new redirect UUID was taken.
   */
  datatype VerifyResult = Allow(user: User) | Kick(reason: Reason) | Exhausted

  /** The user store, the pending-whitelist cache, the online players and the kicks done. */
  datatype State = State(users: map<Uuid, User>, cacheWhitelist: set<string>,
                         players: seq<Player>, disconnected: seq<Disconnect>)

  datatype Step = Step(state: State, result: VerifyResult)

  /** The store is keyed by each entry's online UUID. */
  predicate Consistent(users: map<Uuid, User>) {
    forall k | k in users :: users[k].onlineUuid == k
  }

  /** ValueUtil.isEmpty negated: present and non-empty. */
  predicate NonEmpty(s: Option<string>) {
    s.Some? && s.value != []
  }

  /**
   * The name pattern in force: the backend's when it is set, otherwise the global one;
   * `None` when neither is set and no name check happens.
   */
  function EffectiveRegex(serviceRegex: Option<string>, globalRegex: Option<string>): (r: Option<string>)
    ensures r.Some? <==> NonEmpty(serviceRegex) || NonEmpty(globalRegex)
    ensures NonEmpty(serviceRegex) ==> r == serviceRegex
    ensures !NonEmpty(serviceRegex) && NonEmpty(globalRegex) ==> r == globalRegex
  {
    var reg := if NonEmpty(serviceRegex) then serviceRegex else globalRegex;
    if NonEmpty(reg) then reg else None
  }

  /** The display name of the backend at `path`, or the path when none is configured there. */
  function ServiceName(names: map<string, string>, path: string): string {
    if path in names then names[path] else path
  }

  /**
   * Some stored entry other than the looked-up one already carries `name`
   * (entries compared as values, as User.equals does).
   */
  predicate NameTaken(users: map<Uuid, User>, name: string, found: Option<User>) {
    exists k | k in users :: users[k].currentName == name && (found.None? || users[k] != found.value)
  }

  /** No stored entry redirects to `u`. */
  predicate RedirectFree(users: map<Uuid, User>, u: Uuid) {
    forall k | k in users :: users[k].redirectUuid != u
  }

  /** The first candidate that no stored entry redirects to. */
  function FirstFree(users: map<Uuid, User>, cs: seq<Uuid>): (r: Option<Uuid>)
    ensures r.Some? ==> RedirectFree(users, r.value) && r.value in cs
    ensures r.Some? ==> exists i | 0 <= i < |cs| :: cs[i] == r.value &&
                          forall j | 0 <= j < i :: !RedirectFree(users, cs[j])
    ensures r.None? <==> forall i | 0 <= i < |cs| :: !RedirectFree(users, cs[i])
  {
    if cs == [] then None
    else if RedirectFree(users, cs[0]) then Some(cs[0])
    else
      var r := FirstFree(users, cs[1..]);
      assert r.Some? ==> exists i | 0 <= i < |cs| :: cs[i] == r.value &&
                           forall j | 0 <= j < i :: !RedirectFree(users, cs[j]) by {
        if r.Some? {
          var i :| 0 <= i < |cs[1..]| && cs[1..][i] == r.value &&
                   forall j | 0 <= j < i :: !RedirectFree(users, cs[1..][j]);
          assert cs[i + 1] == r.value;
          forall j | 0 <= j < i + 1 ensures !RedirectFree(users, cs[j]) {
            if j > 0 { assert cs[j] == cs[1..][j - 1]; }
          }
        }
      }
      assert r.None? ==> forall i | 0 <= i < |cs| :: !RedirectFree(users, cs[i]) by {
        if r.None? {
          forall i | 0 <= i < |cs| ensures !RedirectFree(users, cs[i]) {
            if i > 0 { assert cs[i] == cs[1..][i - 1]; }
          }
        }
      }
      r
  }

  /** The entry made for an online UUID seen for the first time. */
  function NewUser(res: AuthResult, env: Env): User {
    User(res.id, res.name, env.resultUuid(res.service.convUuid, res.id, res.name), res.service.path, false)
  }

  /** A player the same-name sweep kicks: it has the name but not the kept unique id. */
  predicate Busy(p: Player, name: string, keep: Uuid) {
    p.name == name && p.uniqueId != keep
  }

  /** The players left online by the same-name sweep. */
  function Survivors(ps: seq<Player>, name: string, keep: Uuid): (r: seq<Player>)
    ensures forall p :: p in r <==> p in ps && !Busy(p, name, keep)
  {
    if ps == [] then []
    else
      var init := ps[..|ps| - 1];
      var last := ps[|ps| - 1];
      assert ps == init + [last];
      Survivors(init, name, keep) + (if Busy(last, name, keep) then [] else [last])
  }

  /** The kicks the same-name sweep performs, in the order of the player list. */
  function SweepNotices(ps: seq<Player>, name: string, keep: Uuid): (r: seq<Disconnect>)
    ensures forall d :: d in r <==> d.notice == BusyUsername && d.player in ps && Busy(d.player, name, keep)
  {
    if ps == [] then []
    else
      var init := ps[..|ps| - 1];
      var last := ps[|ps| - 1];
      assert ps == init + [last];
      SweepNotices(init, name, keep) + (if Busy(last, name, keep) then [Disconnect(last, BusyUsername)] else [])
  }

  /** No two online players share a unique id. */
  predicate DistinctIds(ps: seq<Player>) {
    forall i, j | 0 <= i < j < |ps| :: ps[i].uniqueId != ps[j].uniqueId
  }

  /** The sweep keeps a list of distinct unique ids distinct. */
  lemma {:induction false} SurvivorsDistinct(ps: seq<Player>, name: string, keep: Uuid)
    ensures DistinctIds(ps) ==> DistinctIds(Survivors(ps, name, keep))
  {
    if ps != [] && DistinctIds(ps) {
      var init := ps[..|ps| - 1];
      var last := ps[|ps| - 1];
      assert ps == init + [last];
      assert DistinctIds(init) by {
        forall i, j | 0 <= i < j < |init| ensures init[i].uniqueId != init[j].uniqueId {
          assert init[i] == ps[i] && init[j] == ps[j];
        }
      }
      SurvivorsDistinct(init, name, keep);
      var rest := Survivors(init, name, keep);
      forall p | p in rest ensures p.uniqueId != last.uniqueId {
        assert p in init;
        var i :| 0 <= i < |init| && init[i] == p;
        assert ps[i] == p;
      }
    }
  }

  /** The sweep over one more player: that player is kept or kicked, after the others. */
  lemma SweepStep(ps: seq<Player>, p: Player, name: string, keep: Uuid)
    ensures Survivors(ps + [p], name, keep) ==
            Survivors(ps, name, keep) + (if Busy(p, name, keep) then [] else [p])
    ensures SweepNotices(ps + [p], name, keep) ==
            SweepNotices(ps, name, keep) + (if Busy(p, name, keep) then [Disconnect(p, BusyUsername)] else [])
  {
  }

  /** The position of the first online player with unique id `id`. */
  function FindPlayer(ps: seq<Player>, id: Uuid): (r: Option<nat>)
    ensures r.Some? ==> r.value < |ps| && ps[r.value].uniqueId == id
    ensures r.None? <==> forall i | 0 <= i < |ps| :: ps[i].uniqueId != id
  {
    if ps == [] then None
    else if ps[0].uniqueId == id then Some(0)
    else
      match FindPlayer(ps[1..], id)
      case None =>
        assert forall i | 0 <= i < |ps| :: ps[i].uniqueId != id by {
          forall i | 0 <= i < |ps| ensures ps[i].uniqueId != id {
            if i > 0 { assert ps[i] == ps[1..][i - 1]; }
          }
        }
        None
      case Some(k) => Some(k + 1)
  }

  /**
   * The session step: kick every online player that is `Busy` for the verified name and
   * the kept id; then, when a player holds the entry's redirect UUID, either refuse the
   * login or kick that player with the replacement notice.
   */
  function Reconcile(st: State, name: string, keep: Uuid, user: User, refuse: bool): (s: Step)
    ensures s.state.users == st.users && s.state.cacheWhitelist == st.cacheWhitelist
    ensures s.result == Allow(user) || s.result == Kick(RepeatLogin)
    ensures s.result == Kick(RepeatLogin) <==>
              refuse && exists p :: p in st.players && !Busy(p, name, keep) && p.uniqueId == user.redirectUuid
    ensures forall p | p in s.state.players :: p in st.players && !Busy(p, name, keep)
    ensures forall p | p in st.players && Busy(p, name, keep) ::
              p !in s.state.players && Disconnect(p, BusyUsername) in s.state.disconnected
    ensures st.disconnected <= s.state.disconnected
    // without refuseRepeatedLogin the login is admitted; a survivor holding the redirect UUID
    // leaves the players and is logged last with the replacement notice
    ensures !refuse ==> s.result == Allow(user)
    ensures !refuse && (exists p :: p in st.players && !Busy(p, name, keep) && p.uniqueId == user.redirectUuid) ==>
              && |s.state.players| + 1 == |Survivors(st.players, name, keep)|
              && |s.state.disconnected| > 0
              && var last := s.state.disconnected[|s.state.disconnected| - 1];
                 last.notice == BusyLogin && last.player.uniqueId == user.redirectUuid &&
                 last.player in st.players && !Busy(last.player, name, keep)
    ensures !refuse && DistinctIds(st.players) ==> forall p | p in s.state.players :: p.uniqueId != user.redirectUuid
  {
    SurvivorsDistinct(st.players, name, keep);
    var swept := st.(players := Survivors(st.players, name, keep),
                     disconnected := st.disconnected + SweepNotices(st.players, name, keep));
    match FindPlayer(swept.players, user.redirectUuid)
    case None => Step(swept, Allow(user))
    case Some(i) =>
      if refuse then Step(swept, Kick(RepeatLogin))
      else
        var ps := swept.players;
        Step(swept.(players := ps[..i] + ps[i + 1..],
                    disconnected := swept.disconnected + [Disconnect(ps[i], BusyLogin)]),
             Allow(user))
  }

  /** Whether some whitelist, global or the backend's, is required. */
  predicate WhitelistRequired(env: Env, res: AuthResult) {
    env.whitelist || res.service.whitelist
  }

  /** The stored entry for the verified online UUID, if any. */
  function Lookup(users: map<Uuid, User>, id: Uuid): Option<User> {
    if id in users then Some(users[id]) else None
  }

  /**
   * The checks before anything is written, in order: the stored entry's backend, the name
   * pattern, the duplicate current name. `Some` is the reason for the first that fails.
   */
  function PreCheck(users: map<Uuid, User>, env: Env, res: AuthResult): (r: Option<Reason>)
    ensures r.None? <==>
              && (res.id in users ==> users[res.id].yggdrasilService == res.service.path)
              && (var regex := EffectiveRegex(res.service.nameAllowedRegular, env.nameAllowedRegular);
                  regex.Some? ==> env.matches(regex.value, res.name))
              && (res.service.safeId || !NameTaken(users, res.name, Lookup(users, res.id)))
    ensures r.Some? ==> r.value.PathMismatch? || r.value.UsernameMismatch? || r.value.UsernameRepeated?
  {
    var found := Lookup(users, res.id);
    var regex := EffectiveRegex(res.service.nameAllowedRegular, env.nameAllowedRegular);
    if found.Some? && found.value.yggdrasilService != res.service.path then
      Some(PathMismatch(ServiceName(env.serviceNames, found.value.yggdrasilService)))
    else if regex.Some? && !env.matches(regex.value, res.name) then
      Some(UsernameMismatch(res.name, regex.value))
    else if !res.service.safeId && NameTaken(users, res.name, found) then
      Some(UsernameRepeated(res.name))
    else None
  }

  /**
   * The entry as it stands before the whitelist step: the stored one or a new one, renamed
   * to the verified name, and for a new entry on a convRepeat backend given a redirect UUID
   * no stored entry uses. `None` when every candidate was taken.
   */
  function Prepared(users: map<Uuid, User>, env: Env, res: AuthResult): (r: Option<User>)
    ensures r.Some? ==> r.value.currentName == res.name
    ensures r.Some? && res.id in users ==>
              r.value == users[res.id].(currentName := res.name)
    ensures r.Some? && res.id !in users ==>
              r.value.onlineUuid == res.id && r.value.yggdrasilService == res.service.path && !r.value.whitelist
    ensures r.Some? && res.id !in users && !res.service.convRepeat ==>
              r.value.redirectUuid == env.resultUuid(res.service.convUuid, res.id, res.name)
    ensures r.Some? && res.id !in users && res.service.convRepeat ==> RedirectFree(users, r.value.redirectUuid)
    ensures r.None? <==>
              && res.id !in users && res.service.convRepeat
              && var cs := [env.resultUuid(res.service.convUuid, res.id, res.name)] + env.randomUuids;
                 forall i | 0 <= i < |cs| :: !RedirectFree(users, cs[i])
  {
    var found := Lookup(users, res.id);
    var renamed := (if found.None? then NewUser(res, env) else found.value).(currentName := res.name);
    if found.None? && res.service.convRepeat then
      match FirstFree(users, [renamed.redirectUuid] + env.randomUuids)
      case None => None
      case Some(free) => Some(renamed.(redirectUuid := free))
    else Some(renamed)
  }

  /** The cache and the entry after the whitelist step. */
  datatype Admission = Admission(cache: set<string>, user: User)

  /**
   * The whitelist step: when some whitelist is required and the entry is not whitelisted,
   * remove both the name and the online UUID's text from the pending cache, and whitelist
   * the entry when either was pending.
   */
  function ConsumeWhitelist(cache: set<string>, env: Env, res: AuthResult, u: User): (a: Admission)
    ensures a.cache <= cache
    ensures a.user == u.(whitelist := a.user.whitelist)
    ensures a.user.whitelist <==>
              u.whitelist || (WhitelistRequired(env, res) && (res.name in cache || UuidString(res.id) in cache))
    ensures a.cache != cache ==> WhitelistRequired(env, res) && !u.whitelist && a.user.whitelist
  {
    if WhitelistRequired(env, res) && !u.whitelist then
      var idString := UuidString(res.id);
      Admission(cache - {res.name} - {idString},
                u.(whitelist := res.name in cache || idString in cache))
    else Admission(cache, u)
  }

  /**
   * The whole pipeline, from the state before the login to the state after it and the
   * result. The same-name sweep keeps the players holding the entry's redirect UUID.
   */
  function Verify(st: State, env: Env, res: AuthResult): (s: Step)
    ensures !Persisted(s.result) ==>
              s.state.users == st.users && s.state.players == st.players && s.state.disconnected == st.disconnected
    ensures Persisted(s.result) ==>
              && s.state.users.Keys == st.users.Keys + {res.id}
              && s.state.users[res.id].currentName == res.name
              && (s.result.Allow? ==> s.result.user == s.state.users[res.id])
    ensures s.state.cacheWhitelist <= st.cacheWhitelist
  {
    match PreCheck(st.users, env, res)
    case Some(reason) => Step(st, Kick(reason))
    case None =>
      match Prepared(st.users, env, res)
      case None => Step(st, Exhausted)
      case Some(u) =>
        var a := ConsumeWhitelist(st.cacheWhitelist, env, res, u);
        if !a.user.whitelist && WhitelistRequired(env, res) then
          Step(st.(cacheWhitelist := a.cache), Kick(NoWhitelist))
        else
          Reconcile(st.(users := st.users[res.id := a.user], cacheWhitelist := a.cache),
                    res.name, a.user.redirectUuid, a.user, res.service.refuseRepeatedLogin)
  }

  /**
   * The pipeline exactly as VerifyAuthCore.java:132-162 writes it: the same-name sweep spares
   * only players whose unique id equals the ONLINE UUID, although online players are known
   * by their redirect UUID. `Verify` spares the redirect UUID instead.
   */
  function VerifyAsWritten(st: State, env: Env, res: AuthResult): (s: Step)
    ensures !Persisted(s.result) ==> s == Verify(st, env, res)
    // the sweep is the only difference: the same logins reach the write, leaving the same store and cache
    ensures Persisted(s.result) <==> Persisted(Verify(st, env, res).result)
    ensures s.state.users == Verify(st, env, res).state.users
    ensures s.state.cacheWhitelist == Verify(st, env, res).state.cacheWhitelist
  {
    match PreCheck(st.users, env, res)
    case Some(reason) => Step(st, Kick(reason))
    case None =>
      match Prepared(st.users, env, res)
      case None => Step(st, Exhausted)
      case Some(u) =>
        var a := ConsumeWhitelist(st.cacheWhitelist, env, res, u);
        if !a.user.whitelist && WhitelistRequired(env, res) then
          Step(st.(cacheWhitelist := a.cache), Kick(NoWhitelist))
        else
          Reconcile(st.(users := st.users[res.id := a.user], cacheWhitelist := a.cache),
                    res.name, res.id, a.user, res.service.refuseRepeatedLogin)
  }

  /** The result of a login that reached the write step. */
  predicate Persisted(r: VerifyResult) {
    r.Allow? || r == Kick(RepeatLogin)
  }

  /**
   * getRepeatUuid: starting from the derived redirect UUID, draw random UUIDs until one is
   * redirected to by no stored entry; `None` once the supplied draws run out.
   */
  method RepeatUuid(users: map<Uuid, User>, initial: Uuid, randomUuids: seq<Uuid>) returns (r: Option<Uuid>)
    ensures r == FirstFree(users, [initial] + randomUuids)
    ensures r.Some? ==> RedirectFree(users, r.value)
    ensures RedirectFree(users, initial) ==> r == Some(initial)
    ensures r.None? ==> !RedirectFree(users, initial)
  {
    ghost var cs := [initial] + randomUuids;
    var candidate := initial;
    var i := 0;
    while !RedirectFree(users, candidate) && i < |randomUuids|
      invariant 0 <= i <= |randomUuids|
      invariant candidate == cs[i]
      invariant FirstFree(users, cs) == FirstFree(users, cs[i..])
    {
      assert cs[i..][1..] == cs[i + 1..];
      candidate := randomUuids[i];
      i := i + 1;
    }
    if RedirectFree(users, candidate) {
      r := Some(candidate);
    } else {
      assert cs[i..] == [candidate];
      r := None;
    }
  }

  /** The state the pipeline works on: the user store, the whitelist cache and the players. */
  class Core {
    var users: map<Uuid, User>
    var cacheWhitelist: set<string>
    var players: seq<Player>
    var disconnected: seq<Disconnect>

    ghost predicate Valid()
      reads this
    {
      Consistent(users)
    }

    function Snapshot(): State
      reads this
    {
      State(users, cacheWhitelist, players, disconnected)
    }

    constructor (st: State)
      requires Consistent(st.users)
      ensures Valid() && Snapshot() == st
    {
      users := st.users;
      cacheWhitelist := st.cacheWhitelist;
      players := st.players;
      disconnected := st.disconnected;
    }

    /** removeCacheWhitelist: drops the entry and says whether it was pending. */
    method RemoveCacheWhitelist(entry: string) returns (removed: bool)
      modifies this
      ensures removed == (entry in old(cacheWhitelist))
      ensures cacheWhitelist == old(cacheWhitelist) - {entry}
      ensures users == old(users) && players == old(players) && disconnected == old(disconnected)
    {
      removed := entry in cacheWhitelist;
      cacheWhitelist := cacheWhitelist - {entry};
    }

    /** writeNewUserEntry: inserts an entry for an online UUID not yet stored. */
    method WriteNewUserEntry(u: User)
      requires Valid() && u.onlineUuid !in users
      modifies this
      ensures Valid()
      ensures users == old(users)[u.onlineUuid := u]
      ensures cacheWhitelist == old(cacheWhitelist) && players == old(players) && disconnected == old(disconnected)
    {
      users := users[u.onlineUuid := u];
    }

    /** updateUserEntry: replaces the stored entry with the same online UUID. */
    method UpdateUserEntry(u: User)
      requires Valid() && u.onlineUuid in users
      modifies this
      ensures Valid()
      ensures users == old(users)[u.onlineUuid := u]
      ensures cacheWhitelist == old(cacheWhitelist) && players == old(players) && disconnected == old(disconnected)
    {
      users := users[u.onlineUuid := u];
    }

    /**
     * Kicks every online player that has `name` but not the unique id `keep`, walking the
     * player list in order; the kicks are collected and logged together once the walk ends.
     */
    method KickBusyName(name: string, keep: Uuid)
      modifies this
      ensures players == Survivors(old(players), name, keep)
      ensures disconnected == old(disconnected) + SweepNotices(old(players), name, keep)
      ensures users == old(users) && cacheWhitelist == old(cacheWhitelist)
    {
      var online := players;
      var kept := [];
      var kicked := [];
      var i := 0;
      while i < |online|
        invariant 0 <= i <= |online|
        invariant kept == Survivors(online[..i], name, keep)
        invariant kicked == SweepNotices(online[..i], name, keep)
        modifies {}
      {
        var p := online[i];
        assert online[..i + 1] == online[..i] + [p];
        SweepStep(online[..i], p, name, keep);
        if p.name == name && p.uniqueId != keep {
          kicked := kicked + [Disconnect(p, BusyUsername)];
        } else {
          kept := kept + [p];
        }
        i := i + 1;
      }
      assert online[..i] == online;
      disconnected := disconnected + kicked;
      players := kept;
    }

    /** Kicks the online player at position `i` with `notice`. */
    method KickPlayer(i: nat, notice: Notice)
      requires i < |players|
      modifies this
      ensures players == old(players[..i] + players[i + 1..])
      ensures disconnected == old(disconnected) + [Disconnect(old(players[i]), notice)]
      ensures users == old(users) && cacheWhitelist == old(cacheWhitelist)
    {
      disconnected := disconnected + [Disconnect(players[i], notice)];
      players := players[..i] + players[i + 1..];
    }

    /** The checks before anything is written (the path, the name pattern, the duplicate name). */
    method CheckLogin(env: Env, result: AuthResult) returns (reason: Option<Reason>)
      ensures reason == PreCheck(users, env, result)
    {
      var user := if result.id in users then Some(users[result.id]) else None;
      if user.Some? && user.value.yggdrasilService != result.service.path {
        return Some(PathMismatch(ServiceName(env.serviceNames, user.value.yggdrasilService)));
      }
      var reg := EffectiveRegex(result.service.nameAllowedRegular, env.nameAllowedRegular);
      if reg.Some? && !env.matches(reg.value, result.name) {
        return Some(UsernameMismatch(result.name, reg.value));
      }
      if !result.service.safeId {
        var repeated := set k | k in users && users[k].currentName == result.name;
        while repeated != {}
          invariant repeated <= users.Keys
          invariant forall k | k in users && users[k].currentName == result.name && k !in repeated ::
                      user.Some? && users[k] == user.value
          decreases repeated
        {
          var k :| k in repeated;
          if user.Some? && users[k] == user.value {
            repeated := repeated - {k};
          } else {
            return Some(UsernameRepeated(result.name));
          }
        }
      }
      return None;
    }

    /** Creates or renames the entry and, for a new one on a convRepeat backend, resolves its redirect UUID. */
    method PrepareUser(env: Env, result: AuthResult) returns (prepared: Option<User>)
      ensures prepared == Prepared(users, env, result)
    {
      var user := if result.id in users then Some(users[result.id]) else None;
      var newUserData := user.None?;
      var u := if newUserData then NewUser(result, env) else user.value;
      u := u.(currentName := result.name);
      if newUserData && result.service.convRepeat {
        var free := RepeatUuid(users, u.redirectUuid, env.randomUuids);
        if free.None? {
          return None;
        }
        u := u.(redirectUuid := free.value);
      }
      return Some(u);
    }

    /** The whitelist step on the cache; the entry is returned with its new flag. */
    method CheckWhitelist(env: Env, result: AuthResult, u: User) returns (v: User)
      modifies this
      ensures Admission(cacheWhitelist, v) == ConsumeWhitelist(old(cacheWhitelist), env, result, u)
      ensures users == old(users) && players == old(players) && disconnected == old(disconnected)
    {
      v := u;
      if WhitelistRequired(env, result) && !v.whitelist {
        var byName := RemoveCacheWhitelist(result.name);
        if byName {
          v := v.(whitelist := true);
        }
        var byId := RemoveCacheWhitelist(UuidString(result.id));
        if byId {
          v := v.(whitelist := true);
        }
      }
    }

    /** The session step: the same-name sweep, then the repeated-login policy. */
    method ReconcileSessions(name: string, keep: Uuid, user: User, refuse: bool) returns (r: VerifyResult)
      modifies this
      ensures Snapshot() == Reconcile(old(Snapshot()), name, keep, user, refuse).state
      ensures r == Reconcile(old(Snapshot()), name, keep, user, refuse).result
    {
      KickBusyName(name, keep);
      var holder := FindPlayer(players, user.redirectUuid);
      if holder.Some? {
        if refuse {
          return Kick(RepeatLogin);
        }
        KickPlayer(holder.value, BusyLogin);
      }
      return Allow(user);
    }

    /** verifyAuth: runs the checks in order, writes the entry, then reconciles sessions. */
    method VerifyAuth(env: Env, result: AuthResult) returns (r: VerifyResult)
      requires Valid()
      modifies this
      ensures Valid()
      ensures Snapshot() == Verify(old(Snapshot()), env, result).state
      ensures r == Verify(old(Snapshot()), env, result).result
    {
      var reason := CheckLogin(env, result);
      if reason.Some? {
        return Kick(reason.value);
      }
      var newUserData := result.id !in users;
      var prepared := PrepareUser(env, result);
      if prepared.None? {
        return Exhausted;
      }
      var u := CheckWhitelist(env, result, prepared.value);
      if WhitelistRequired(env, result) && !u.whitelist {
        return Kick(NoWhitelist);
      }
      if newUserData {
        WriteNewUserEntry(u);
      } else {
        UpdateUserEntry(u);
      }
      r := ReconcileSessions(result.name, u.redirectUuid, u, result.service.refuseRepeatedLogin);
    }
  }
}
