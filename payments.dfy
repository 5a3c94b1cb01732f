/**
 * The YooMoney side of the bot: the label a payment link carries, the
 * signature check on an incoming notification, its freshness window, and
 * the webhook handler that renews the labelled user's subscription.
 *
 * A notification is the form the provider posts, a map from field name to
 * value. HMAC-SHA1 (RFC 2104 over FIPS 180-4 SHA-1, hex digest) and the
 * ISO-8601 reading of the `datetime` field are parameters of the model.
 */
module Payments {
  import opened Wrappers
  import Text
  import opened Lifecycle

  type Notification = map<string, string>

  /** HMAC-SHA1 hex digest of a message under a key: `(key, message) -> digest`. */
  type Hmac = (string, string) -> string

  /**
   * A point in time as `datetime.fromisoformat` reads it: seconds on the UTC
   * clock, and whether the text carried a UTC offset (an aware datetime).
   */
  datatype Timestamp = Timestamp(seconds: int, hasOffset: bool)

  /** `datetime.fromisoformat`; `None` where it raises. */
  type TimeParser = string -> Option<Timestamp>

  const LabelPrefix: string := "user_"

  /** Largest accepted distance, in seconds, between the notification's time and now. */
  const FreshnessWindow: int := 300

  /** The notification fields covered by the signature, in the provider's order, before the secret. */
  const SignedFields: seq<string> :=
    ["notification_type", "operation_id", "amount", "currency", "datetime", "sender", "codepro"]

  datatype Label = Label(userId: int, tariffDays: int)

  /** Why a label was refused: no `user_` prefix, or not three parts of which the last two are integers. */
  datatype LabelError = MissingPrefix | Malformed

  /** How the webhook answers a notification. */
  datatype Outcome =
    | Success
    | InvalidSignature
    | TimestampError
    | TimeMismatch
    | InvalidLabel
    | InvalidLabelFormat
    | UserNotFound
    | OutOfRange

  /**
   * The HTTP status the endpoint responds with. A timestamp that cannot be
   * read, and a label value that overflows the database or the calendar,
   * escape as a server error.
   */
  function HttpStatus(o: Outcome): (code: int)
    ensures code == 200 <==> o == Success
    ensures code == 404 <==> o == UserNotFound
    ensures code == 500 <==> o == TimestampError || o == OutOfRange
    ensures code in {200, 400, 404, 500}
  {
    match o
    case Success => 200
    case UserNotFound => 404
    case TimestampError => 500
    case OutOfRange => 500
    case _ => 400
  }

  /** A form field, or the empty string when the form lacks it. */
  function Field(data: Notification, key: string): (v: string)
    ensures key in data ==> v == data[key]
    ensures key !in data ==> v == ""
  {
    if key in data then data[key] else ""
  }

  // ---------------------------------------------------------------- labels

  /**
   * The label put on a payment link: it carries the prefix and splits on '_'
   * into "user", the user id and the tariff.
   */
  function BuildLabel(userId: int, tariffDays: int): (labelText: string)
    ensures HasLabelPrefix(labelText)
    ensures Text.Split(labelText, '_') == ["user", Text.IntToString(userId), Text.IntToString(tariffDays)]
  {
    var u, d := Text.IntToString(userId), Text.IntToString(tariffDays);
    Text.IntLiteralExcludes(u, '_');
    Text.IntLiteralExcludes(d, '_');
    var labelText := LabelPrefix + u + "_" + d;
    assert labelText == "user" + "_" + (u + "_" + d);
    assert labelText[..|LabelPrefix|] == LabelPrefix;
    Text.SplitCons("user", u + "_" + d, '_');
    Text.SplitCons(u, d, '_');
    labelText
  }

  /** `labelText.startswith("user_")`: then its first '_'-separated part is "user" and a second part follows. */
  predicate HasLabelPrefix(labelText: string)
    ensures HasLabelPrefix(labelText) ==>
      |Text.Split(labelText, '_')| >= 2 && Text.Split(labelText, '_')[0] == "user"
  {
    if |labelText| >= |LabelPrefix| && labelText[..|LabelPrefix|] == LabelPrefix then
      var rest := labelText[|LabelPrefix|..];
      assert labelText == labelText[..|LabelPrefix|] + rest;
      assert LabelPrefix == "user" + "_";
      Text.SplitCons("user", rest, '_');
      true
    else false
  }

  /**
   * Reads a label back: it must start with the prefix, split on '_' into
   * exactly three parts, and its second and third parts must be integers.
   */
  function ParseLabel(labelText: string): (r: Result<Label, LabelError>)
    ensures r == Err(MissingPrefix) <==> !HasLabelPrefix(labelText)
    ensures r.Ok? <==>
      && HasLabelPrefix(labelText)
      && |Text.Split(labelText, '_')| == 3
      && Text.ParsesAsInt(Text.Split(labelText, '_')[1])
      && Text.ParsesAsInt(Text.Split(labelText, '_')[2])
    ensures r.Ok? ==>
      && Text.ParseInt(Text.Split(labelText, '_')[1]) == Some(r.value.userId)
      && Text.ParseInt(Text.Split(labelText, '_')[2]) == Some(r.value.tariffDays)
  {
    if !HasLabelPrefix(labelText) then Err(MissingPrefix)
    else
      var parts := Text.Split(labelText, '_');
      if |parts| != 3 then Err(Malformed)
      else
        var userId, tariffDays := Text.ParseInt(parts[1]), Text.ParseInt(parts[2]);
        if userId.None? || tariffDays.None? then Err(Malformed)
        else Ok(Label(userId.value, tariffDays.value))
  }

  /** Every label the bot builds reads back as the user and tariff it was built from. */
  lemma {:induction false} LabelRoundTrip(userId: int, tariffDays: int)
    requires Text.WithinStrDigits(userId) && Text.WithinStrDigits(tariffDays)
    ensures ParseLabel(BuildLabel(userId, tariffDays)) == Ok(Label(userId, tariffDays))
  {
    Text.ParseIntToString(userId);
    Text.ParseIntToString(tariffDays);
  }

  // ------------------------------------------------------------- signature

  /** The nine values the signature covers, in order. */
  function CheckFields(data: Notification, secret: string): (fields: seq<string>)
    ensures |fields| == 9
    ensures forall i :: 0 <= i < 7 ==> fields[i] == Field(data, SignedFields[i])
    ensures fields[7] == secret && fields[8] == Field(data, "label")
  {
    seq(7, i requires 0 <= i < 7 => Field(data, SignedFields[i])) + [secret, Field(data, "label")]
  }

  /** The string the provider signs: the nine values joined with '&', the secret eighth and the label last. */
  function CheckString(data: Notification, secret: string): (s: string)
    ensures s == Text.Join(CheckFields(data, secret)[..7], '&') + "&" + secret + "&" + Field(data, "label")
  {
    var f := CheckFields(data, secret);
    JoinPrefix(f, 9);
    JoinPrefix(f, 8);
    assert f[..9] == f;
    Text.Join(f, '&')
  }

  /** The first `k` values joined with '&' are the first `k - 1` joined, then '&' and the `k`th. */
  lemma JoinPrefix(f: seq<string>, k: nat)
    requires 2 <= k <= |f|
    ensures Text.Join(f[..k], '&') == Text.Join(f[..k - 1], '&') + "&" + f[k - 1]
  {
    Text.JoinSnoc(f[..k], '&');
    assert f[..k][..k - 1] == f[..k - 1];
  }

  /** Nine values joined with '&', written out. */
  lemma JoinNine(f: seq<string>)
    requires |f| == 9
    ensures Text.Join(f, '&') ==
      f[0] + "&" + f[1] + "&" + f[2] + "&" + f[3] + "&" + f[4] + "&" + f[5] + "&" + f[6] + "&" + f[7] + "&" + f[8]
  {
    assert f[..1] == [f[0]] && f[..9] == f;
    JoinPrefix(f, 2);
    assert Text.Join(f[..2], '&') == f[0] + "&" + f[1];
    JoinPrefix(f, 3);
    assert Text.Join(f[..3], '&') == f[0] + "&" + f[1] + "&" + f[2];
    JoinPrefix(f, 4);
    assert Text.Join(f[..4], '&') == f[0] + "&" + f[1] + "&" + f[2] + "&" + f[3];
    JoinPrefix(f, 5);
    assert Text.Join(f[..5], '&') == f[0] + "&" + f[1] + "&" + f[2] + "&" + f[3] + "&" + f[4];
    JoinPrefix(f, 6);
    assert Text.Join(f[..6], '&') ==
      f[0] + "&" + f[1] + "&" + f[2] + "&" + f[3] + "&" + f[4] + "&" + f[5];
    JoinPrefix(f, 7);
    assert Text.Join(f[..7], '&') ==
      f[0] + "&" + f[1] + "&" + f[2] + "&" + f[3] + "&" + f[4] + "&" + f[5] + "&" + f[6];
    JoinPrefix(f, 8);
    assert Text.Join(f[..8], '&') ==
      f[0] + "&" + f[1] + "&" + f[2] + "&" + f[3] + "&" + f[4] + "&" + f[5] + "&" + f[6] + "&" + f[7];
    JoinPrefix(f, 9);
  }

  /** The check string spelled out: the secret eighth and the label last. */
  lemma CheckStringLayout(data: Notification, secret: string)
    ensures CheckString(data, secret) ==
      Field(data, "notification_type") + "&" + Field(data, "operation_id") + "&" +
      Field(data, "amount") + "&" + Field(data, "currency") + "&" +
      Field(data, "datetime") + "&" + Field(data, "sender") + "&" +
      Field(data, "codepro") + "&" + secret + "&" + Field(data, "label")
  {
    var f := CheckFields(data, secret);
    JoinNine(f);
    assert f[0] == Field(data, SignedFields[0]) && f[1] == Field(data, SignedFields[1]);
    assert f[2] == Field(data, SignedFields[2]) && f[3] == Field(data, SignedFields[3]);
    assert f[4] == Field(data, SignedFields[4]) && f[5] == Field(data, SignedFields[5]);
    assert f[6] == Field(data, SignedFields[6]);
  }

  /** When no value holds a '&', the check string determines all nine values. */
  lemma CheckStringSplits(data: Notification, secret: string)
    requires forall i :: 0 <= i < 9 ==> '&' !in CheckFields(data, secret)[i]
    ensures Text.Split(CheckString(data, secret), '&') == CheckFields(data, secret)
  {
    Text.SplitJoin(CheckFields(data, secret), '&');
  }

  /** The signature field plays no part in the string it signs. */
  lemma CheckStringIgnoresHash(data: Notification, secret: string, hash: string)
    ensures CheckString(data["sha1_hash" := hash], secret) == CheckString(data, secret)
  {
    var f, g := CheckFields(data["sha1_hash" := hash], secret), CheckFields(data, secret);
    assert forall i :: 0 <= i < 7 ==> SignedFields[i] != "sha1_hash";
    assert f == g;
  }

  /** The notification is authentic: its `sha1_hash` is the HMAC of the check string. */
  function VerifyNotification(data: Notification, secret: string, hmac: Hmac): (ok: bool)
    ensures ok <==> Field(data, "sha1_hash") == hmac(secret, CheckString(data, secret))
  {
    hmac(secret, CheckString(data, secret)) == Field(data, "sha1_hash")
  }

  /** Setting the hash to the computed digest is accepted; any other hash is refused. */
  lemma VerifyExactlyDigest(data: Notification, secret: string, hmac: Hmac, hash: string)
    ensures VerifyNotification(data["sha1_hash" := hash], secret, hmac) <==>
      hash == hmac(secret, CheckString(data, secret))
  {
    CheckStringIgnoresHash(data, secret, hash);
  }

  // ------------------------------------------------------------- freshness

  /** `s.replace("Z", "+00:00")`: every 'Z' spelled as a zero UTC offset. */
  function ReplaceZ(s: string): (r: string)
    ensures 'Z' !in r
    ensures 'Z' !in s ==> r == s
  {
    if s == [] then []
    else (if s[0] == 'Z' then "+00:00" else [s[0]]) + ReplaceZ(s[1..])
  }

  lemma {:induction false} ReplaceZAppend(a: string, b: string)
    ensures ReplaceZ(a + b) == ReplaceZ(a) + ReplaceZ(b)
  {
    if a == [] {
      assert a + b == b;
    } else {
      assert (a + b)[0] == a[0] && (a + b)[1..] == a[1..] + b;
      ReplaceZAppend(a[1..], b);
    }
  }

  /**
   * The notification's time as the handler reads it, a 'Z' suffix read as a
   * zero UTC offset; `None` where reading it raises.
   */
  function NotifiedAt(data: Notification, parseTime: TimeParser): (t: Option<Timestamp>)
    ensures "datetime" !in data ==> t == None
    ensures "datetime" in data && 'Z' !in data["datetime"] ==> t == parseTime(data["datetime"])
  {
    if "datetime" in data then parseTime(ReplaceZ(data["datetime"])) else None
  }

  /** The notification's time lies within the window around now, bounds included. */
  function IsFresh(now: int, notified: int): (ok: bool)
    ensures ok <==> now - FreshnessWindow <= notified <= now + FreshnessWindow
  {
    var diff := now - notified;
    (if diff < 0 then -diff else diff) <= FreshnessWindow
  }

  datatype TimeCheck = Fresh | Stale | Unreadable

  /**
   * The freshness check as intended: the distance between the two instants,
   * with or without an offset in the notification's text.
   */
  function CheckTime(data: Notification, parseTime: TimeParser, now: int): (c: TimeCheck)
    ensures c == Unreadable <==> NotifiedAt(data, parseTime).None?
    ensures c == Fresh <==>
      NotifiedAt(data, parseTime).Some? && IsFresh(now, NotifiedAt(data, parseTime).value.seconds)
  {
    match NotifiedAt(data, parseTime)
    case None => Unreadable
    case Some(t) => if IsFresh(now, t.seconds) then Fresh else Stale
  }

  /**
   * The freshness check as written: the naive `utcnow()` minus an aware
   * datetime raises, so a time with an offset is never compared; every other
   * time is checked as intended.
   */
  function CheckTimeAsWritten(data: Notification, parseTime: TimeParser, now: int): (c: TimeCheck)
    ensures NotifiedAt(data, parseTime).Some? && NotifiedAt(data, parseTime).value.hasOffset ==>
      c == Unreadable
    ensures NotifiedAt(data, parseTime).None? || !NotifiedAt(data, parseTime).value.hasOffset ==>
      c == CheckTime(data, parseTime, now)
  {
    match NotifiedAt(data, parseTime)
    case None => Unreadable
    case Some(t) =>
      if t.hasOffset then Unreadable
      else if IsFresh(now, t.seconds) then Fresh
      else Stale
  }

  // --------------------------------------------------------------- handler

  /**
   * The renewal the handler computes, `datetime.now() + timedelta(days)`, is
   * a `datetime`: the days fit a `timedelta` and the end lies in years 1 to 9999.
   */
  predicate RenewalFits(now: int, days: int)
    ensures InDateRange(now) ==> (RenewalFits(now, days) <==> InDateRange(now + days * SecondsPerDay))
    ensures RenewalFits(now, days) ==> Text.WithinStrDigits(days)
  {
    if -999999999 <= days <= 999999999 && InDateRange(now + days * SecondsPerDay) then
      assert Text.Pow10(9) == 1_000_000_000;
      Text.ShortIntegersConvert(days, 9);
      true
    else false
  }

  /** The handler's chain of checks: the first that fails decides the answer. */
  function Verdict(verified: bool, time: TimeCheck, labelText: string, known: set<int>, now: int): (o: Outcome)
    ensures o == InvalidSignature <==> !verified
    ensures o == TimestampError <==> verified && time == Unreadable
    ensures o == TimeMismatch <==> verified && time == Stale
    ensures o == InvalidLabel <==> verified && time == Fresh && !HasLabelPrefix(labelText)
    ensures o == InvalidLabelFormat <==> verified && time == Fresh && ParseLabel(labelText) == Err(Malformed)
    ensures o == UserNotFound <==>
      && verified && time == Fresh && ParseLabel(labelText).Ok?
      && FitsSqliteInteger(ParseLabel(labelText).value.userId)
      && ParseLabel(labelText).value.userId !in known
    ensures o == OutOfRange <==>
      && verified && time == Fresh && ParseLabel(labelText).Ok?
      && var l := ParseLabel(labelText).value;
         !FitsSqliteInteger(l.userId) || (l.userId in known && !RenewalFits(now, l.tariffDays))
    ensures o == Success <==>
      && verified && time == Fresh && ParseLabel(labelText).Ok?
      && var l := ParseLabel(labelText).value;
         FitsSqliteInteger(l.userId) && l.userId in known && RenewalFits(now, l.tariffDays)
  {
    if !verified then InvalidSignature
    else if time == Unreadable then TimestampError
    else if time == Stale then TimeMismatch
    else
      var parsed := ParseLabel(labelText);
      assert time == Fresh;
      assert parsed == Err(MissingPrefix) <==> !HasLabelPrefix(labelText);
      if parsed.Err? then (if parsed.error == MissingPrefix then InvalidLabel else InvalidLabelFormat)
      else if !FitsSqliteInteger(parsed.value.userId) then OutOfRange
      else if parsed.value.userId !in known then UserNotFound
      else if !RenewalFits(now, parsed.value.tariffDays) then OutOfRange
      else Success
  }

  /** The webhook's answer to a notification when the users in `known` are registered. */
  function Decide(data: Notification, secret: string, hmac: Hmac, parseTime: TimeParser,
                  now: int, known: set<int>): (o: Outcome)
    ensures o == Success <==>
      && VerifyNotification(data, secret, hmac)
      && NotifiedAt(data, parseTime).Some?
      && IsFresh(now, NotifiedAt(data, parseTime).value.seconds)
      && ParseLabel(Field(data, "label")).Ok?
      && var l := ParseLabel(Field(data, "label")).value;
         FitsSqliteInteger(l.userId) && l.userId in known && RenewalFits(now, l.tariffDays)
  {
    Verdict(VerifyNotification(data, secret, hmac), CheckTime(data, parseTime, now), Field(data, "label"), known, now)
  }

  /**
   * The webhook's answer as the code is written, with its freshness check:
   * a signed notification whose time carries an offset escapes as a server
   * error, any other answers as intended.
   */
  function DecideAsWritten(data: Notification, secret: string, hmac: Hmac, parseTime: TimeParser,
                           now: int, known: set<int>): (o: Outcome)
    ensures !(VerifyNotification(data, secret, hmac) &&
              NotifiedAt(data, parseTime).Some? && NotifiedAt(data, parseTime).value.hasOffset) ==>
      o == Decide(data, secret, hmac, parseTime, now, known)
    ensures VerifyNotification(data, secret, hmac) &&
            NotifiedAt(data, parseTime).Some? && NotifiedAt(data, parseTime).value.hasOffset ==>
      o == TimestampError
  {
    Verdict(VerifyNotification(data, secret, hmac), CheckTimeAsWritten(data, parseTime, now),
            Field(data, "label"), known, now)
  }

  /**
   * A correctly signed notification for a registered user whose `datetime`
   * is in the provider's UTC form (such as "2024-05-01T12:00:00Z") and names
   * any instant within the window: the code as written answers with a server
   * error, the intended check accepts it.
   */
  lemma ZuluTimeRefusedAsWritten(data: Notification, secret: string, hmac: Hmac, parseTime: TimeParser,
                                 now: int, known: set<int>, userId: int, tariffDays: int,
                                 date: string, instant: int)
    requires VerifyNotification(data, secret, hmac)
    requires "datetime" in data && data["datetime"] == date + "Z" && 'Z' !in date
    requires parseTime(date + "+00:00") == Some(Timestamp(instant, true)) && IsFresh(now, instant)
    requires Field(data, "label") == BuildLabel(userId, tariffDays) && userId in known
    requires FitsSqliteInteger(userId) && RenewalFits(now, tariffDays)
    ensures DecideAsWritten(data, secret, hmac, parseTime, now, known) == TimestampError
    ensures Decide(data, secret, hmac, parseTime, now, known) == Success
  {
    ZuluSpelledAsOffset(date);
    assert NotifiedAt(data, parseTime) == Some(Timestamp(instant, true));
    LabelRoundTrip(userId, tariffDays);
  }

  /** A time written with a 'Z' suffix reaches the parser with a zero UTC offset. */
  lemma {:induction false} ZuluSpelledAsOffset(date: string)
    requires 'Z' !in date
    ensures ReplaceZ(date + "Z") == date + "+00:00"
  {
    ReplaceZAppend(date, "Z");
    assert ReplaceZ("Z") == "+00:00" + ReplaceZ([]);
  }

  /**
   * Nothing records that a notification was applied: one that was accepted
   * is accepted again against the table its own renewal left, at any clock
   * at which it is still fresh and its renewal still fits the calendar.
   */
  lemma ReplayAccepted(data: Notification, secret: string, hmac: Hmac, parseTime: TimeParser,
                       now: int, later: int, users: map<int, Row>)
    requires Decide(data, secret, hmac, parseTime, now, users.Keys) == Success
    requires IsFresh(later, NotifiedAt(data, parseTime).value.seconds)
    requires RenewalFits(later, ParseLabel(Field(data, "label")).value.tariffDays)
    ensures var l := ParseLabel(Field(data, "label")).value;
      Decide(data, secret, hmac, parseTime, later,
             users[l.userId := Renewed(users[l.userId], now, l.tariffDays)].Keys) == Success
  {
  }

  /**
   * A fresh, signed notification with a label the bot built reaches exactly
   * the labelled user, unless the user id or the tariff is out of range.
   */
  lemma BuiltLabelReachesUser(data: Notification, secret: string, hmac: Hmac, parseTime: TimeParser,
                              now: int, known: set<int>, userId: int, tariffDays: int)
    requires Field(data, "label") == BuildLabel(userId, tariffDays)
    requires Text.WithinStrDigits(userId) && Text.WithinStrDigits(tariffDays)
    requires VerifyNotification(data, secret, hmac)
    requires NotifiedAt(data, parseTime).Some? && IsFresh(now, NotifiedAt(data, parseTime).value.seconds)
    ensures Decide(data, secret, hmac, parseTime, now, known) ==
            if !FitsSqliteInteger(userId) then OutOfRange
            else if userId !in known then UserNotFound
            else if !RenewalFits(now, tariffDays) then OutOfRange
            else Success
  {
    LabelRoundTrip(userId, tariffDays);
  }

  /**
   * Handles one notification: each failed check answers at once and leaves
   * the store alone; otherwise the labelled user is renewed for the tariff
   * from now and its gateway account reactivated.
   */
  method HandleNotification(store: UserStore, data: Notification, secret: string, hmac: Hmac,
                            parseTime: TimeParser, now: int) returns (o: Outcome)
    requires store.Valid()
    modifies store
    ensures store.Valid() && KeepsAccounts(old(store.users), store.users)
    ensures o == Decide(data, secret, hmac, parseTime, now, old(store.users).Keys)
    ensures o != Success ==> store.users == old(store.users) && store.log == old(store.log)
    ensures o == Success ==>
      var l := ParseLabel(Field(data, "label")).value;
      && store.users == old(store.users)[l.userId := Renewed(old(store.users)[l.userId], now, l.tariffDays)]
      && store.log == old(store.log) + [Reactivate(old(store.users)[l.userId].xuiId)]
  {
    if !VerifyNotification(data, secret, hmac) {
      return InvalidSignature;
    }
    if "datetime" !in data {
      assert CheckTime(data, parseTime, now) == Unreadable;
      return TimestampError;
    }
    var notified := parseTime(ReplaceZ(data["datetime"]));
    assert notified == NotifiedAt(data, parseTime);
    if notified.None? {
      return TimestampError;
    }
    if !IsFresh(now, notified.value.seconds) {
      assert CheckTime(data, parseTime, now) == Stale;
      return TimeMismatch;
    }
    assert CheckTime(data, parseTime, now) == Fresh;
    var labelText := Field(data, "label");
    if !HasLabelPrefix(labelText) {
      return InvalidLabel;
    }
    var parsed := ParseLabel(labelText);
    if parsed.Err? {
      return InvalidLabelFormat;
    }
    var userId, tariffDays := parsed.value.userId, parsed.value.tariffDays;
    if !FitsSqliteInteger(userId) {
      return OutOfRange;
    }
    if userId !in store.users {
      return UserNotFound;
    }
    if !RenewalFits(now, tariffDays) {
      return OutOfRange;
    }
    var xuiId, vpnConfig := store.SimulatePayment(userId, tariffDays, now);
    return Success;
  }

  /** Renewing a row twice leaves the table as renewing it once, at the later clock. */
  lemma RenewedTwice(users: map<int, Row>, userId: int, now: int, later: int, days: int)
    requires userId in users
    ensures var once := users[userId := Renewed(users[userId], now, days)];
      once[userId := Renewed(once[userId], later, days)] == users[userId := Renewed(users[userId], later, days)]
  {
  }

  /**
   * The same notification delivered twice: nothing records that it was
   * applied, so while it is still fresh the second delivery renews the
   * subscription again, from the later clock.
   */
  method Redeliver(store: UserStore, data: Notification, secret: string, hmac: Hmac,
                   parseTime: TimeParser, now: int, later: int) returns (first: Outcome, second: Outcome)
    requires store.Valid()
    modifies store
    ensures store.Valid()
    ensures first == Decide(data, secret, hmac, parseTime, now, old(store.users).Keys)
    ensures first == Success ==>
      var l := ParseLabel(Field(data, "label")).value;
      IsFresh(later, NotifiedAt(data, parseTime).value.seconds) && RenewalFits(later, l.tariffDays) ==>
      && second == Success
      && store.users == old(store.users)[l.userId := Renewed(old(store.users)[l.userId], later, l.tariffDays)]
      && store.log == old(store.log) + [Reactivate(old(store.users)[l.userId].xuiId)] +
                                       [Reactivate(old(store.users)[l.userId].xuiId)]
  {
    first := HandleNotification(store, data, secret, hmac, parseTime, now);
    if first == Success && IsFresh(later, NotifiedAt(data, parseTime).value.seconds) &&
       RenewalFits(later, ParseLabel(Field(data, "label")).value.tariffDays) {
      ghost var l := ParseLabel(Field(data, "label")).value;
      ReplayAccepted(data, secret, hmac, parseTime, now, later, old(store.users));
      second := HandleNotification(store, data, secret, hmac, parseTime, later);
      RenewedTwice(old(store.users), l.userId, now, later, l.tariffDays);
    } else {
      second := HandleNotification(store, data, secret, hmac, parseTime, later);
    }
  }
}
