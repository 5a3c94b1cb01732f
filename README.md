# Subscription lifecycle and YooMoney notifications of the 3X-UI VPN bot

A Dafny model of the two parts of the bot that decide who has VPN access:

- **The subscription store** (`database/db.py`). The `users` table holds one row per Telegram user id. It is modelled as the class `Lifecycle.UserStore`, with a `map<int, Row>` field and a ghost log of the calls made to the 3X-UI gateway (`Create`, `Deactivate`, `Reactivate`). A row holds the username, a status (trial, active or expired), the start and end of the period, the gateway account id and the VPN config string. Timestamps are whole seconds on one clock, passed in as `now`; a day is 86400 seconds. The four operations are methods of the class:
  - `RegisterUser`: a 3-day trial for a new user.
  - `GetUserStatus`: the status read, which expires an overdue row and deactivates its account.
  - `SimulateTrialEnd`: forced expiry.
  - `SimulatePayment`: renewal for N days, which reactivates the account.

  Each method's contract gives the whole new table and log in terms of the old ones. The pure functions `Refresh`, `Renewed` and `ForcedExpiry` describe the new row. `Valid()` is kept by every method: each row's config is the one the gateway issued for that row's account and user id, and no two rows share a gateway account.
- **The payment notification path** (`payments/yoomoney.py`):
  - the payment label `user_<id>_<days>` and how it is parsed back;
  - the nine-field check string and its HMAC-SHA1 signature check;
  - the 300-second freshness window;
  - the webhook handler, `Payments.HandleNotification`. It runs the checks in the code's order (signature, time, label prefix, label format, user lookup) and answers with a tagged `Outcome`. A user id outside SQLite's 64-bit integer range, or a tariff whose end date leaves the years 1 to 9999, raises `OverflowError` in the code; the model answers `OutOfRange` (HTTP 500) and changes nothing. On success it renews the labelled user's row and reactivates the user's account. A failed check changes nothing.

  The handler's lookup, UPDATE and reactivate call (payments/yoomoney.py:88-106) are the same statements as `simulate_payment` (database/db.py:122-143). The model therefore calls `SimulatePayment` for them.

Python's `str(int)`, `int(str)`, `str.split` and `str.join` are modelled in module `Text`. Label parsing and the check string are built on them.

HMAC-SHA1 (RFC 2104 over FIPS 180-4 SHA-1, hex digest) and `datetime.fromisoformat` are function-typed parameters: `Hmac` and `TimeParser`. The fresh account id that the creation stub draws with `uuid4` is a parameter of `RegisterUser`. The stub's config string is modelled exactly (`Lifecycle.XuiConfig`).

### Behaviour of the code worth knowing

- The trial lasts 3 days (database/db.py:58).
- A notification is not de-duplicated by `operation_id`. Redelivering one that is still fresh renews the subscription again from the later clock, and reactivates the account a second time (`Payments.Redeliver`).
- Nothing keeps the end of a period after its start:
  - `simulate_trial_end` moves the end to one day before now and leaves the start alone;
  - the tariff days read from a label are not range-checked, so they can be zero or negative.
- `simulate_trial_end` deactivates the account even when the row is already expired.

## Model

| member | source | states |
|---|---|---|
| `Text.NatToString` | payments/yoomoney.py:28 | `str` of a natural number is a non-empty run of digits without leading zeros |
| `Text.IntToString` | payments/yoomoney.py:28 | `str` of an integer is a decimal literal that starts with '-' exactly when the integer is negative |
| `Text.ParseInt` | payments/yoomoney.py:81-82 | `int` succeeds exactly on an optional '-' followed by at most 4300 decimal digits (CPython's default conversion bound; beyond it `int` raises ValueError); a negative result comes from a '-' sign |
| `Text.DigitsValueOfNatToString` | payments/yoomoney.py:81-82 | reading back the digits of `str(n)` gives `n` |
| `Text.ParseIntToString` | payments/yoomoney.py:81-82 | `int(str(n)) == n` for every integer `n` that `str` can convert, i.e. of at most 4300 digits |
| `Text.Join` | payments/yoomoney.py:46 | `join` of no pieces is empty, and the first piece always opens the result |
| `Text.JoinSnoc` | payments/yoomoney.py:46 | `join` of two or more pieces is the join of all but the last, the separator, then the last piece |
| `Text.IntLiteralExcludes` | payments/yoomoney.py:28 | the text of an integer holds only digits and a sign, so it never holds a '_' separator |
| `Text.NatToStringLength` | payments/yoomoney.py:28 | a natural below `10^k` is written by `str` with at most `k` digits |
| `Text.ShortIntegersConvert` | payments/yoomoney.py:28 | an integer of magnitude below `10^k`, with `k` at most 4300, is within `str`'s conversion bound |
| `Text.Split` | payments/yoomoney.py:80 | `split` yields at least one piece, no piece contains the separator, and joining the pieces restores the string |
| `Text.SplitCons` | payments/yoomoney.py:80 | a separator-free piece followed by the separator is split off as the first part, and the rest splits on its own |
| `Text.SplitJoin` | payments/yoomoney.py:80 | splitting a join of separator-free pieces returns exactly those pieces |
| `Lifecycle.XuiConfig` | database/db.py:29 | the issued config is a `vless://` link to the account id whose fragment is `#user_` followed by the user id |
| `Lifecycle.FitsSqliteInteger` | payments/yoomoney.py:89-92 | an id can be bound as an SQLite INTEGER iff it lies in the signed 64-bit range (otherwise binding raises OverflowError); such an id is short enough for `str` |
| `Lifecycle.TrialRow` | database/db.py:54-61 | a new row is a trial that starts now and ends exactly 3 days later, with the gateway's account id and config |
| `Lifecycle.Refresh` | database/db.py:79-88 | after a read, the status is expired iff the end has passed (strictly) or the row was already expired; nothing but the status changes; a status other than expired is kept |
| `Lifecycle.ReadCalls` | database/db.py:80-82 | a read calls deactivate (once, with the row's account) iff it flips the row to expired, and otherwise calls nothing |
| `Lifecycle.RefreshIdempotent` | database/db.py:80-96 | a second read at the same clock changes nothing and calls nothing |
| `Lifecycle.RefreshWithinPeriod` | database/db.py:80 | a read at or before the end leaves the row unchanged and calls nothing |
| `Lifecycle.Renewed` | database/db.py:134-138 | a renewal makes the row active from now for exactly `days` days, from any prior status, keeping the username, account and config |
| `Lifecycle.RenewedSurvivesRead` | database/db.py:134-138 | a renewed row is not expired by any read within its new period |
| `Lifecycle.Info` | database/db.py:90-96 | the status read reports every column of the row but the username, so the row is recovered from the report and its username |
| `Lifecycle.ForcedExpiry` | database/db.py:111-114 | a forced expiry makes the row expired and overdue by one day, keeping its start, account and config |
| `Lifecycle.UserStore.constructor` | database/db.py:9-22 | the table starts empty and no gateway call has been made |
| `Lifecycle.UserStore.RegisterUser` | database/db.py:45-65 | an existing user gets `(False, None)` with table and log unchanged; a new user gets one inserted trial row, one `Create` call and `(True, config)` with the stored config; the invariant is kept |
| `Lifecycle.UserStore.GetUserStatus` | database/db.py:68-96 | an unknown user gets `None` with no change; otherwise the row becomes `Refresh` of itself, the log grows by exactly the read's deactivate call, and the returned status is expired whenever the end has passed; the account of a deactivate call belongs to this user alone |
| `Lifecycle.UserStore.SimulateTrialEnd` | database/db.py:99-119 | returns whether the user exists; if so the row is force-expired and deactivate is called once with its account, even if it was already expired, and no other row holds that account; otherwise nothing changes |
| `Lifecycle.UserStore.SimulatePayment` | database/db.py:122-143 | an unknown user gets `(None, None)` with no change; otherwise the row is renewed, reactivate is called once with its account, and the stored account and config are returned; no other row holds the reactivated account |
| `Lifecycle.ReadTwice` | database/db.py:80-96 | two reads at one clock return the same view; the table after both is the table after the first read (the row refreshed once, or unchanged for an unknown user), and together they make at most the first read's one deactivate call |
| `Payments.HttpStatus` | payments/yoomoney.py:61-122 | 200 only for success, 404 only for an unknown user, 500 exactly for a timestamp that cannot be read and for an out-of-range label value, 400 for every other rejection |
| `Payments.Field` | payments/yoomoney.py:36-44 | a missing form field reads as the empty string |
| `Payments.BuildLabel` | payments/yoomoney.py:28 | the built label has the `user_` prefix and splits on '_' into exactly `user`, `str(user_id)` and `str(tariff_days)` |
| `Payments.HasLabelPrefix` | payments/yoomoney.py:75 | a label with the `user_` prefix splits on '_' into at least two parts, the first being `user` |
| `Payments.ParseLabel` | payments/yoomoney.py:74-85 | the label is refused as `InvalidLabel` iff it lacks the `user_` prefix; it is accepted iff it has the prefix, splits on '_' into exactly three parts and the second and third are integer literals of at most 4300 digits (so `user_1_x`, `user_1_2_3` and a 4301-digit id are refused, `user_007_30` accepted); the accepted user id and tariff are `int` of those two parts |
| `Payments.LabelRoundTrip` | payments/yoomoney.py:79-82 | the label built at line 28 for any user id and tariff that `str` can convert (negative ones included) parses back to exactly that user id and tariff |
| `Payments.CheckFields` | payments/yoomoney.py:35-45 | the nine signed values are the seven provider fields in order, missing ones empty, then the secret (8th), then the label (last) |
| `Payments.CheckString` | payments/yoomoney.py:46 | the check string is the seven provider fields joined with '&', then '&', the secret, '&' and the label |
| `Payments.JoinPrefix` | payments/yoomoney.py:46 | joining the first `k` values is joining the first `k - 1`, then '&' and the `k`th |
| `Payments.JoinNine` | payments/yoomoney.py:46 | joining nine values with '&' puts a single '&' between neighbours |
| `Payments.CheckStringLayout` | payments/yoomoney.py:35-46 | the check string is `notification_type&operation_id&amount&currency&datetime&sender&codepro&secret&label`, missing fields empty |
| `Payments.CheckStringSplits` | payments/yoomoney.py:46 | when no value contains '&', the check string determines all nine values |
| `Payments.CheckStringIgnoresHash` | payments/yoomoney.py:35-53 | the `sha1_hash` field does not enter the signed string |
| `Payments.VerifyNotification` | payments/yoomoney.py:33-53 | a notification is authentic iff its `sha1_hash` (empty if missing) equals the HMAC of the check string under the secret |
| `Payments.VerifyExactlyDigest` | payments/yoomoney.py:47-53 | with any other fields fixed, exactly one `sha1_hash`, the computed digest, is accepted; any other value is refused |
| `Payments.ReplaceZ` | payments/yoomoney.py:67 | no 'Z' is left after the rewrite, and text without a 'Z' is unchanged |
| `Payments.ReplaceZAppend` | payments/yoomoney.py:67 | the rewrite works piece by piece over a concatenation |
| `Payments.ZuluSpelledAsOffset` | payments/yoomoney.py:67 | a time ending in 'Z' reaches the parser ending in `+00:00` |
| `Payments.NotifiedAt` | payments/yoomoney.py:67 | a missing `datetime` field reads as no time; a time without a 'Z' reaches the parser unchanged |
| `Payments.IsFresh` | payments/yoomoney.py:69 | a time is accepted iff it lies within 300 seconds of now on either side, with exactly 300 accepted |
| `Payments.CheckTime` | payments/yoomoney.py:66-71 | corrected check: unreadable iff the field is missing or does not parse; fresh iff the parsed instant is within the window |
| `Payments.CheckTimeAsWritten` | payments/yoomoney.py:67-69 | as written, a time that carries a UTC offset is never compared and reads as unreadable; a missing, unparseable or offset-free time is judged exactly as by the corrected check |
| `Payments.RenewalFits` | payments/yoomoney.py:100 | `datetime.now() + timedelta(days=d)` succeeds iff abs(d) is at most 999999999 and the end lies in years 1 to 9999; for a `now` that is itself a datetime the first condition follows from the second; a tariff that fits is short enough for `str` |
| `Payments.Verdict` | payments/yoomoney.py:61-100 | each outcome holds exactly when all earlier checks pass and its own check fails: a user id outside the SQLite range is `OutOfRange` before the lookup, an unknown user `UserNotFound`, and a tariff whose end leaves the calendar `OutOfRange` after it; success holds iff all checks pass |
| `Payments.Decide` | payments/yoomoney.py:61-106 | a notification succeeds iff it is authentic, on time, carries a well-formed label, names a registered user whose id fits SQLite, and its tariff's end date is representable |
| `Payments.DecideAsWritten` | payments/yoomoney.py:61-106 | as written, a signed notification whose time carries a UTC offset is a server error (`TimestampError`); every other notification, unsigned ones included, gets the corrected answer |
| `Payments.ZuluTimeRefusedAsWritten` | payments/yoomoney.py:67-69 | for a signed notification whose time ends in 'Z' and names any instant within 300 seconds of now, carrying a bot-built label for a registered user whose id fits SQLite and whose renewal fits the calendar: a server error as written, a success under the corrected check |
| `Payments.ReplayAccepted` | payments/yoomoney.py:88-106 | the answer depends on the table only through which users exist, and a renewal keeps the user: a notification that succeeded succeeds again against the table its own renewal left, at any clock where it is still fresh and its renewal fits (helper of `Redeliver`) |
| `Payments.RenewedTwice` | payments/yoomoney.py:99-104 | renewing a row twice leaves the table as renewing it once at the later clock |
| `Payments.BuiltLabelReachesUser` | payments/yoomoney.py:74-100 | a signed, fresh notification that carries a label the bot built (from values `str` can convert) reaches exactly that user: `OutOfRange` if the id does not fit SQLite, `UserNotFound` if unregistered, `OutOfRange` if the tariff's end leaves the calendar, success otherwise |
| `Payments.HandleNotification` | payments/yoomoney.py:56-122 | the answer is `Decide` of the inputs. On any failure the table and log are unchanged, and an unknown user creates no row. On success only the labelled row changes: it is renewed from now for the tariff, and reactivate is called once with its account |
| `Payments.Redeliver` | payments/yoomoney.py:56-122 | a notification delivered twice while still fresh (and with its renewal in range at the later clock) is applied twice: the row is renewed from the later clock and reactivate is called twice |

## Findings

| source | as written | input that shows it | evidently intended | confidence | as-written member | corrected member |
|---|---|---|---|---|---|---|
| payments/yoomoney.py:67-69 | the naive `datetime.utcnow()` minus the aware datetime parsed from `datetime` (after 'Z' becomes `+00:00`) raises TypeError, so the handler answers 500 | a correctly signed notification for a registered user, on time, with `datetime` = `2024-05-01T12:00:00Z` | compare the two instants and accept when they are at most 300 seconds apart | not executed | `Payments.ZuluTimeRefusedAsWritten` (with `Payments.DecideAsWritten`) | `Payments.CheckTime` (used by `Payments.Decide` and `Payments.HandleNotification`) |

## Left out

- HMAC-SHA1 itself is the parameter `hmac`. Its hex encoding and the `.encode()` of key and message (UTF-8) are part of that parameter.
- ISO-8601 parsing is the parameter `parseTime`. Its `None` stands for the ValueError of an unparseable time. A missing `datetime` field (an AttributeError on `None.replace`) is also modelled, as `TimestampError`.
- Clocks: the code reads `datetime.now()` twice per update and compares with `utcnow()` in the handler. The model uses one `now` in seconds for all of these, and a timestamp is the seconds of its instant. Sub-second precision is not modelled.
- Lifecycle.Renewed: does not model Python's OverflowError for an end date outside years 1 to 9999; integers are unbounded. The webhook handler checks this range before renewing (`Payments.RenewalFits`), so only `SimulatePayment` called directly with such a tariff differs from the code.
- Lifecycle.UserStore: the methods accept any integer user id. In the code an id outside SQLite's signed 64-bit range makes the query raise `OverflowError`; Telegram user ids fit that range. The webhook handler, whose id comes from the label, does model it (`OutOfRange`).
- Text.ParseInt: accepts only an optional '-' followed by ASCII digits, at most 4300 of them (the default of `sys.set_int_max_str_digits`, present from CPython 3.11 and its security releases; an interpreter without the bound would accept longer literals). Python's `int` also takes surrounding whitespace, a '+' sign and non-ASCII decimal digits. A label that uses those is `InvalidLabelFormat` in the model but accepted by the code.
- Text.IntToString: total. Python's `str` raises ValueError for an integer of more than 4300 digits, so `create_payment_url` and the stub's config (database/db.py:29) raise for such ids. Lemmas about built labels require `Text.WithinStrDigits` of the values instead.
- `create_payment_url`: only the label is modelled. The Quickpay URL comes from an external library.
- The `uuid4` account id is a parameter of `RegisterUser`. The model requires it to be unused, which a random UUID is with overwhelming probability.
- The notification sent to the user (`bot.send_message`, payments/yoomoney.py:109-119) and all logging are left out.
- `Bot` and `aiosqlite` are used in payments/yoomoney.py without being imported. The model gives the handler's logic, not its failure to import.
- A missing notification secret (`None` from the environment) is not modelled; the secret is a string.
- Storage: the table's DDL, connections, commits and ISO-format date strings are not modelled. Dates are integers.
- The username column is stored by `RegisterUser` but read by no operation.
- Concurrency between the chat handlers and the webhook is not modelled. The code has no locking.
- handlers/start.py (chat UI, tariff menu, days-left display) and main.py (process startup) are not part of this model.
