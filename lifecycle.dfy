/**
 * The subscription store of the bot: the `users` table, one row per Telegram
 * user id, and the four operations that read and update it (registration with
 * a trial, the status read that expires an overdue row, the forced expiry and
 * the renewal after a payment).
 *
 * Timestamps are whole seconds on one clock, passed in as `now`. The 3X-UI
 * gateway (account creation, deactivation, reactivation) is an external
 * effect: every call the code makes to it is appended to the ghost `log`.
 */
module Lifecycle {
  import opened Wrappers
  import Text

  const SecondsPerDay: int := 86400
  /** Length of the trial handed out at registration, in days. */
  const TrialDays: int := 3

  /** An SQLite INTEGER is a signed 64-bit value; binding a larger Python int raises `OverflowError`. */
  const SqliteIntMin: int := -0x8000_0000_0000_0000
  const SqliteIntMax: int := 0x7FFF_FFFF_FFFF_FFFF

  /** The id can be bound as an SQLite INTEGER; such an id is also short enough for `str`. */
  predicate FitsSqliteInteger(n: int)
    ensures FitsSqliteInteger(n) ==> Text.WithinStrDigits(n)
  {
    if SqliteIntMin <= n <= SqliteIntMax then
      assert Text.Pow10(5) == 100_000;
      assert Text.Pow10(10) == 10_000_000_000;
      assert Text.Pow10(15) == 1_000_000_000_000_000;
      assert Text.Pow10(19) == 10_000_000_000_000_000_000;
      Text.ShortIntegersConvert(n, 19);
      true
    else false
  }

  /**
   * The instants a Python `datetime` can hold, 0001-01-01T00:00:00 to
   * 9999-12-31T23:59:59, as seconds from 1970-01-01T00:00:00; adding a
   * `timedelta` that leaves this range raises `OverflowError`.
   */
  const DateMin: int := -62135596800
  const DateMax: int := 253402300799

  predicate InDateRange(t: int) {
    DateMin <= t <= DateMax
  }

  datatype Status = Trial | Active | Expired

  /** One row of the `users` table, keyed by the user id. */
  datatype Row = Row(
    username: string,
    status: Status,
    start: int,
    end: int,
    xuiId: string,
    vpnConfig: string)

  /** What a status read hands back: the row without the username. */
  datatype StatusInfo = StatusInfo(
    status: Status,
    start: int,
    end: int,
    xuiId: string,
    vpnConfig: string)

  /** A call into the 3X-UI gateway. */
  datatype GatewayCall =
    | Create(userId: int)
    | Deactivate(xuiId: string)
    | Reactivate(xuiId: string)

  /**
   * The connection string the account-creation stub issues: a VLESS link to
   * the account, whose fragment names the user it was made for.
   */
  function XuiConfig(xuiId: string, userId: int): (config: string)
    ensures "vless://" + xuiId + "@" <= config
    ensures exists head :: config == head + "#user_" + Text.IntToString(userId)
  {
    var head := "vless://" + xuiId + "@your_server_ip:443?security=tls";
    assert "vless://" + xuiId + "@" <= head;
    head + "#user_" + Text.IntToString(userId)
  }

  /** The row a new user gets: a trial starting now and lasting `TrialDays`. */
  function TrialRow(username: string, xuiId: string, userId: int, now: int): (r: Row)
    ensures r.status == Trial && r.start == now && r.end - r.start == TrialDays * SecondsPerDay
    ensures r.xuiId == xuiId && r.vpnConfig == XuiConfig(xuiId, userId) && r.username == username
  {
    Row(username, Trial, now, now + TrialDays * SecondsPerDay, xuiId, XuiConfig(xuiId, userId))
  }

  /** A status read at `now` flips this row to expired. */
  predicate ExpiresOnRead(r: Row, now: int) {
    r.end < now && r.status != Expired
  }

  /** The row as it stands after a status read at `now`. */
  function Refresh(r: Row, now: int): (r': Row)
    ensures r'.status == Expired <==> r.end < now || r.status == Expired
    ensures r'.status != Expired ==> r'.status == r.status
    ensures r'.(status := r.status) == r
  {
    if ExpiresOnRead(r, now) then r.(status := Expired) else r
  }

  /** The row after a payment for `days` days received at `now`. */
  function Renewed(r: Row, now: int, days: int): (r': Row)
    ensures r'.status == Active && r'.start == now && r'.end - r'.start == days * SecondsPerDay
    ensures r'.username == r.username && r'.xuiId == r.xuiId && r'.vpnConfig == r.vpnConfig
  {
    r.(status := Active, start := now, end := now + days * SecondsPerDay)
  }

  /** The row after a forced end of the subscription at `now`: one day overdue. */
  function ForcedExpiry(r: Row, now: int): (r': Row)
    ensures r'.status == Expired && r'.end == now - SecondsPerDay && r'.end < now
    ensures r'.username == r.username && r'.start == r.start
    ensures r'.xuiId == r.xuiId && r'.vpnConfig == r.vpnConfig
  {
    r.(status := Expired, end := now - SecondsPerDay)
  }

  /** The row as a status read reports it: every column but the username. */
  function Info(r: Row): (info: StatusInfo)
    ensures Row(r.username, info.status, info.start, info.end, info.xuiId, info.vpnConfig) == r
  {
    StatusInfo(r.status, r.start, r.end, r.xuiId, r.vpnConfig)
  }

  /** The gateway calls a status read at `now` makes for this row. */
  function ReadCalls(r: Row, now: int): (calls: seq<GatewayCall>)
    ensures |calls| <= 1
    ensures calls == [Deactivate(r.xuiId)] <==> ExpiresOnRead(r, now)
    ensures calls == [] <==> !ExpiresOnRead(r, now)
  {
    if ExpiresOnRead(r, now) then [Deactivate(r.xuiId)] else []
  }

  /** A second read at the same clock changes nothing and calls nothing. */
  lemma {:induction false} RefreshIdempotent(r: Row, now: int)
    ensures Refresh(Refresh(r, now), now) == Refresh(r, now)
    ensures ReadCalls(Refresh(r, now), now) == []
  {
  }

  /** A read at or before the end of the period leaves the row as it is. */
  lemma {:induction false} RefreshWithinPeriod(r: Row, now: int)
    requires now <= r.end
    ensures Refresh(r, now) == r && ReadCalls(r, now) == []
  {
  }

  /** A renewal works from any status and is itself not expired before its end. */
  lemma {:induction false} RenewedSurvivesRead(r: Row, now: int, days: int, later: int)
    requires days >= 0 && now <= later <= now + days * SecondsPerDay
    ensures Refresh(Renewed(r, now, days), later) == Renewed(r, now, days)
    ensures ReadCalls(Renewed(r, now, days), later) == []
  {
  }

  /** Every row of `before` is still in `after`, with the same gateway account and config. */
  ghost predicate KeepsAccounts(before: map<int, Row>, after: map<int, Row>) {
    forall u :: u in before ==>
      u in after && after[u].xuiId == before[u].xuiId && after[u].vpnConfig == before[u].vpnConfig
  }

  /** No row but `u`'s holds `u`'s gateway account: a call naming that account reaches one user. */
  ghost predicate SoleHolder(users: map<int, Row>, u: int)
    requires u in users
  {
    forall v :: v in users && v != u ==> users[v].xuiId != users[u].xuiId
  }

  /** The `users` table with the log of the gateway calls made so far. */
  class UserStore {
    var users: map<int, Row>
    ghost var log: seq<GatewayCall>

    /**
     * Each row holds the config issued for its own account and user id, and
     * no two rows share a gateway account.
     */
    ghost predicate Valid()
      reads this
    {
      && (forall u :: u in users ==> users[u].vpnConfig == XuiConfig(users[u].xuiId, u))
      && (forall u, v :: u in users && v in users && u != v ==> users[u].xuiId != users[v].xuiId)
    }

    /** No row holds this gateway account yet. */
    ghost predicate UnusedAccount(xuiId: string)
      reads this
    {
      forall u :: u in users ==> users[u].xuiId != xuiId
    }

    constructor ()
      ensures Valid() && users == map[] && log == []
    {
      users := map[];
      log := [];
    }

    /**
     * Registers a user with a trial, or does nothing if the user exists.
     * `xuiId` is the fresh account id the creation stub would draw.
     */
    method RegisterUser(userId: int, username: string, xuiId: string, now: int)
      returns (isNew: bool, config: Option<string>)
      requires Valid()
      requires userId !in users ==> UnusedAccount(xuiId)
      modifies this
      ensures Valid() && KeepsAccounts(old(users), users)
      ensures isNew <==> userId !in old(users)
      ensures !isNew ==> config == None && users == old(users) && log == old(log)
      ensures isNew ==> users == old(users)[userId := TrialRow(username, xuiId, userId, now)]
      ensures isNew ==> config == Some(users[userId].vpnConfig) && log == old(log) + [Create(userId)]
    {
      if userId in users {
        return false, None;
      }
      log := log + [Create(userId)];
      var vpnConfig := XuiConfig(xuiId, userId);
      users := users[userId := Row(username, Trial, now, now + TrialDays * SecondsPerDay, xuiId, vpnConfig)];
      return true, Some(vpnConfig);
    }

    /**
     * Reads a user's subscription; an overdue row that is not yet expired
     * is switched to expired and its gateway account deactivated.
     */
    method GetUserStatus(userId: int, now: int) returns (info: Option<StatusInfo>)
      requires Valid()
      modifies this
      ensures Valid() && KeepsAccounts(old(users), users)
      ensures userId !in old(users) ==> info == None && users == old(users) && log == old(log)
      ensures userId in old(users) ==>
        && users == old(users)[userId := Refresh(old(users)[userId], now)]
        && log == old(log) + ReadCalls(old(users)[userId], now)
        && info == Some(Info(users[userId]))
      ensures info.Some? && old(users)[userId].end < now ==> info.value.status == Expired
      ensures userId in old(users) ==> SoleHolder(users, userId)
    {
      if userId !in users {
        return None;
      }
      var row := users[userId];
      if row.end < now && row.status != Expired {
        log := log + [Deactivate(row.xuiId)];
        users := users[userId := row.(status := Expired)];
      }
      return Some(Info(users[userId]));
    }

    /** Ends a user's subscription now, deactivating the account even if it was expired. */
    method SimulateTrialEnd(userId: int, now: int) returns (found: bool)
      requires Valid()
      modifies this
      ensures Valid() && KeepsAccounts(old(users), users)
      ensures found <==> userId in old(users)
      ensures !found ==> users == old(users) && log == old(log)
      ensures found ==>
        && users == old(users)[userId := ForcedExpiry(old(users)[userId], now)]
        && log == old(log) + [Deactivate(old(users)[userId].xuiId)]
      ensures found ==> SoleHolder(users, userId)
    {
      if userId !in users {
        return false;
      }
      var xuiId := users[userId].xuiId;
      users := users[userId := users[userId].(status := Expired, end := now - SecondsPerDay)];
      log := log + [Deactivate(xuiId)];
      return true;
    }

    /** Renews a user's subscription for `tariffDays` days from now, whatever its status. */
    method SimulatePayment(userId: int, tariffDays: int, now: int)
      returns (xuiId: Option<string>, vpnConfig: Option<string>)
      requires Valid()
      modifies this
      ensures Valid() && KeepsAccounts(old(users), users)
      ensures userId !in old(users) ==>
        xuiId == None && vpnConfig == None && users == old(users) && log == old(log)
      ensures userId in old(users) ==>
        && users == old(users)[userId := Renewed(old(users)[userId], now, tariffDays)]
        && log == old(log) + [Reactivate(old(users)[userId].xuiId)]
        && xuiId == Some(old(users)[userId].xuiId)
        && vpnConfig == Some(old(users)[userId].vpnConfig)
      ensures userId in old(users) ==> SoleHolder(users, userId)
    {
      if userId !in users {
        return None, None;
      }
      var row := users[userId];
      users := users[userId := row.(status := Active, start := now, end := now + tariffDays * SecondsPerDay)];
      log := log + [Reactivate(row.xuiId)];
      return Some(row.xuiId), Some(row.vpnConfig);
    }
  }

  /**
   * Two status reads at the same clock: the second returns what the first
   * did and neither changes the table nor calls the gateway again.
   */
  method ReadTwice(store: UserStore, userId: int, now: int)
    returns (first: Option<StatusInfo>, second: Option<StatusInfo>)
    requires store.Valid()
    modifies store
    ensures store.Valid()
    ensures userId in old(store.users) ==>
      store.users == old(store.users)[userId := Refresh(old(store.users)[userId], now)]
    ensures userId !in old(store.users) ==> store.users == old(store.users)
    ensures second == first
    ensures first.Some? <==> userId in old(store.users)
    ensures store.log == old(store.log) +
      (if userId in old(store.users) then ReadCalls(old(store.users)[userId], now) else [])
  {
    first := store.GetUserStatus(userId, now);
    ghost var afterFirst := store.log;
    if userId in old(store.users) {
      RefreshIdempotent(old(store.users)[userId], now);
    }
    second := store.GetUserStatus(userId, now);
    assert store.log == afterFirst;
  }
}
