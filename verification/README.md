# Upstream-pool log watcher, modelled in Dafny

`watcher.py` follows an nginx access log. For every line it reads, it does five things:

- It searches the line for `pool="..."` and a later `upstream_status="..."`. Lines without them are skipped.
- It takes the status after the last comma in the upstream list, strips it, and reads it as an integer. `-` and anything unreadable count as 0.
- It appends that status to a bounded sliding window (`deque(maxlen=WINDOW_SIZE)`).
- It checks for a failover: whether the pool label differs from the one remembered.
- It checks the error rate: whether at least 50 statuses are in the window and the share of statuses `>= 500` among them is above the threshold.

Every alert requested is handed to `send_slack`, which works as follows:

- Without a webhook, it only prints the alert.
- In maintenance mode, it mutes failover alerts.
- It throttles each alert kind within a cooldown of that kind's last send.
- Otherwise it posts. The time is recorded only when the post does not raise.

The project is split by component:

| file | module | models |
|---|---|---|
| `wrappers.dfy` | `Wrappers` | `Option`, Python's `None` |
| `alerts.dfy` | `Alerts` | alert kinds, alerts, configuration, `last_alert_time` |
| `status_field.dfy` | `StatusField` | `split(',')[-1].strip()` and `int(...)` with its fallback to 0 |
| `log_pattern.dfy` | `LogPattern` | `LOG_PATTERN.search`, written as a hand-coded matcher |
| `sliding_window.dfy` | `SlidingWindow` | the bounded deque |
| `error_rate.dfy` | `ErrorRate` | `check_error_rate`'s verdict |
| `failover.dfy` | `Failover` | `check_failover`'s edge detection |
| `dispatcher.dfy` | `Dispatcher` | `send_slack`'s decision |
| `watcher.dfy` | `Watcher` | the per-line step and streams of lines, plus class `Watcher` |

Class `Watcher` holds `request_window`, `last_pool` and `last_alert_time` as fields and updates them in place, as the script's globals are. Each of its methods is proved equal to a pure function (`Dispatch`, `Observe`, `Evaluate`, `Apply`, `Next`, `Run`). The properties of whole streams of lines are proved about those functions.

The outside world enters as data. Each line comes as an `Input`, which carries:

- the clock reading `now`;
- whether the failover post returns;
- whether the error-rate post returns.

Each dispatched alert leaves a `Record` of its time, the alert, and what became of it (`Printed`, `Muted`, `Throttled`, `Sent` or `SendFailed`).

The stream lemmas take the line parser as a parameter (`Watcher.Parser`), so they hold for any parser. The class uses `LogPattern.ParseLine`.

## Model

| member | source | states |
|---|---|---|
| Alerts.LastSent.Set | watcher.py:43 | Recording a send of one kind sets that kind's timestamp and leaves the other kind's unchanged. |
| StatusField.AfterLastCommaIsLastPart | watcher.py:93 | `split(',')[-1]` is comma-free and a suffix of the field. When it is shorter than the field, a comma comes right before it. |
| StatusField.AfterLastCommaOfPlain | watcher.py:93 | A field without a comma is its own last part. |
| StatusField.AfterLastCommaOfList | watcher.py:93 | Whatever precedes the last comma is discarded: the last part of `prefix,field` is `field`. |
| StatusField.TrimStartDropsLeadingSpace | watcher.py:93 | The leading strip removes only whitespace. What it keeps is a suffix that does not start with whitespace. |
| StatusField.TrimEndDropsTrailingSpace | watcher.py:93 | The trailing strip removes only whitespace. What it keeps is a prefix that does not end with whitespace. |
| StatusField.TrimStartSkipsSpace | watcher.py:93 | Leading whitespace in front of a text that starts with a non-space is removed exactly. |
| StatusField.TrimEndSkipsSpace | watcher.py:93 | Trailing whitespace after a text that ends with a non-space is removed exactly. |
| StatusField.StripPadded | watcher.py:93 | `strip()` of whitespace + core + whitespace returns the core, when the core starts and ends with a non-space. |
| StatusField.ParseDigits | watcher.py:96 | A value exists exactly when the text is a non-empty run of ASCII digits. |
| StatusField.ParseInt | watcher.py:95-98 | `int(s)` succeeds exactly on an optional sign followed by one or more digits. Otherwise it is the ValueError case. Without a leading `-` the value is non-negative. |
| StatusField.DigitsRoundTrip | watcher.py:96 | Reading back the decimal digits of any natural number gives that number. |
| StatusField.DecimalRoundTrip | watcher.py:96 | `int(str(n)) == n` for every integer, negative ones included. |
| StatusField.LeadingZerosIgnored | watcher.py:96 | Leading zeros do not change the value of a run of digits. |
| StatusField.ParseIntPadded | watcher.py:96 | A sign (none, `+` or `-`), any number of zeros and the digits of `n` read as `n`, negated after `-`. So `+5`, `0502`, `-0` and `+0502` give 5, 502, 0 and 502. |
| StatusField.CanonicalDigits | watcher.py:96 | Digits without a superfluous leading zero are the decimal rendering of their own value. |
| StatusField.IntSyntaxIsPadded | watcher.py:95-98 | Every text `int()` accepts here splits into a sign, zeros and the digits of some `n`, and reads as `n`, negated after `-`. With ParseIntPadded this gives the value of every accepted text. |
| StatusField.ParseStatus | watcher.py:93-98 | Status parsing is total. After taking the last part and stripping it, `-` or text that is not an integer gives 0. A stripped part that does not start with `-` never gives a negative status. A stripped part that is valid integer text gives `ParseInt`'s value, which `StatusField.IntSyntaxIsPadded` shows is the value `int()` gives. |
| StatusField.ParseStatusOfList | watcher.py:93-98 | An upstream list whose last entry is the decimal rendering of `n`, surrounded by whitespace, gives `n`, whatever precedes it. |
| StatusField.ParseStatusOfSingle | watcher.py:93-98 | A single entry holding the decimal rendering of `n`, surrounded by whitespace, gives `n`. |
| StatusField.ParseStatusOfDash | watcher.py:93-98 | A last entry of `-` gives 0. |
| LogPattern.StatusFor | watcher.py:24 | For a pool token at `p`, the status token found is the last one the greedy `.*` can reach on the same line. None means no match starts at `p`. |
| LogPattern.SearchFrom | watcher.py:24 | A hit found from `p` on starts at or after `p` and pairs that pool token with its last reachable status token. |
| LogPattern.SearchFromIsLeftmost | watcher.py:24 | The search reports the leftmost start position that begins a match. When it finds nothing, no position from `p` on begins one. |
| LogPattern.Search | watcher.py:88-89 | `LOG_PATTERN.search` returns a hit exactly when the pattern matches somewhere. The hit is leftmost, and then takes the rightmost status token. |
| LogPattern.SearchResultUnique | watcher.py:24 | At most one hit meets the leftmost-then-rightmost rule, so the search result is determined. |
| LogPattern.PoolValueHasNoQuote | watcher.py:24 | Group 1 never contains a quote. |
| LogPattern.ParseLine | watcher.py:88-98 | A line yields no event exactly when the pattern matches nowhere in it. The pool label of an event is quote-free. |
| LogPattern.ParseLineReportsSearchResult | watcher.py:88-98 | Any hit that meets the search rule determines the event: its group 1 and the parsed status of its group 2. |
| LogPattern.FieldsLineHit | watcher.py:24 | On `pool="P" upstream_status="S"` with quote-free values, the match is at the pool token. Group 1 is `P` and group 2 is `S`. |
| LogPattern.FieldsLineParses | watcher.py:88-98 | Such a line parses to pool `P` and the parsed status of `S`. |
| LogPattern.UpstreamListLineParses | watcher.py:88-98 | Such a line whose upstream list ends in the decimal rendering of `n`, surrounded by whitespace, parses to pool `P` and status `n`. |
| SlidingWindow.LastN | watcher.py:21 | The last `n` elements, in order: a suffix of length `min(|s|, n)`. |
| SlidingWindow.Append | watcher.py:100 | Appending keeps at most `capacity` entries and equals the last `capacity` of window + status. Below capacity it only appends. At capacity it drops the oldest entry. |
| SlidingWindow.LastNAppend | watcher.py:100 | Truncating before an append loses nothing: `LastN(LastN(s) + [x]) == LastN(s + [x])`. |
| ErrorRate.ErrorCount | watcher.py:65 | The number of statuses `>= 500` is at most the window length. |
| ErrorRate.ErrorCountIsCardinality | watcher.py:65 | That count equals the size of the set of window positions holding a status `>= 500`. |
| ErrorRate.PercentageAbove | watcher.py:66-68 | `errors / len * 100 > threshold` holds exactly when `100 * errors > threshold * len`. |
| ErrorRate.Evaluate | watcher.py:61-70 | No alert below 50 samples. Otherwise an alert exactly when `100 * errors > threshold * len`, and it carries `(errors, len)`. |
| ErrorRate.AtThresholdIsQuiet | watcher.py:68 | A rate exactly at the threshold does not alert. |
| ErrorRate.TwoInSixtyAlerts | watcher.py:61-70 | 2 errors in 60 requests alert at the default 2% threshold. |
| ErrorRate.OneInSixtyIsQuiet | watcher.py:61-70 | 1 error in 60 requests does not alert at the default 2% threshold. |
| Failover.Observe | watcher.py:49-58 | An alert exactly when the pool is non-empty, a pool is remembered, and the two differ. The alert carries (remembered, new). The pool is remembered afterwards in every branch. |
| Failover.ObserveAll | watcher.py:49-58 | After a non-empty run of observations, the last pool is remembered. Before any, none is. |
| Failover.ObserveAllIsTransitions | watcher.py:49-58 | Over non-empty pool labels, the alerts are exactly one per change between neighbours, in order. So the first observation never alerts. |
| Failover.SamePoolNeverAlerts | watcher.py:49-58 | A stream repeating one pool never alerts. |
| Failover.EmptyPoolResets | watcher.py:51-56 | An empty pool is remembered as `""`, so the next non-empty pool alerts from `""`. |
| Failover.AAAB | watcher.py:49-58 | Pools A, A, A do not alert. A, A, A, B alerts once, A to B. |
| Dispatcher.Dispatch | watcher.py:27-46 | The alert is printed exactly when there is no webhook. It is muted exactly when there is a webhook, maintenance mode is on and it is a failover, so an error-rate alert never is. It is throttled exactly when neither of those applies and it is within the cooldown of its kind. Otherwise it is sent when the post returns and fails when the post raises (lines 45-46). Only a send moves its kind's time to `now`; every other outcome leaves the times unchanged. |
| Dispatcher.OtherKindUntouched | watcher.py:43 | A dispatch never changes the other kind's timestamp. |
| Dispatcher.TimesMoveForward | watcher.py:36-43 | With a non-negative cooldown, timestamps never decrease. |
| Watcher.Apply | watcher.py:100-102 | A matched line keeps the window within capacity. The window becomes the last `capacity` of window + status, and the pool is remembered. At most two alerts are dispatched. |
| Watcher.ApplyAlerts | watcher.py:100-102 | A matched line dispatches, in this order, the failover detector's alert and then the verdict of `Evaluate` on the window with the new status appended; nothing else. |
| Watcher.ApplyKindAlerts | watcher.py:100-102 | A matched line's failover records are the detector's alert, and its error-rate records are exactly `Evaluate` of the appended window (none when it requests none). |
| Watcher.NotifyBothDispositions | watcher.py:36-46 | Each record of the two dispatches is stamped with the line's `now`. Each is decided by `Dispatch` from the timestamps before the line and its own kind's post outcome. The failover send only moves the failover timestamp, so it never changes the error-rate cooldown. |
| Watcher.ApplyDispositions | watcher.py:100-102 | Each record of a matched line is stamped with the line's `now`. Its disposition is what `Dispatch` decides from the timestamps before the line and the post outcome of the record's own kind (failover or error rate). |
| Watcher.ApplyTimes | watcher.py:36-43 | After a matched line, each kind's timestamp is the time of that kind's last successful send on the line, or unchanged when there was none. |
| Watcher.Next | watcher.py:88-102 | A line the parser rejects changes nothing and dispatches nothing. Otherwise the step is the append-then-check effect of its event. The window stays within capacity. |
| Watcher.Run | watcher.py:82-102 | Over any stream of lines, the window never exceeds its capacity. |
| Watcher.UnmatchedLineIsIgnored | watcher.py:88-90 | A line the pattern does not match leaves window, remembered pool and timestamps unchanged, and dispatches no alert. |
| Watcher.WindowHoldsLastStatuses | watcher.py:88-100 | After any stream, the window is the last `capacity` statuses of the matched lines, in arrival order, after the starting window. |
| Watcher.FailoversFollowPools | watcher.py:88-101 | From start-up, the remembered pool and the failover alerts dispatched are exactly those of the failover detector fed the matched lines' pools. |
| Watcher.RateAlertsFollowWindow | watcher.py:88-102 | Over any stream, the error-rate alerts are exactly one verdict per matched line, in order: `Evaluate` of the last `capacity` statuses up to and including that line's. Unmatched lines contribute none. |
| Watcher.TimesFollowSends | watcher.py:36-43 | Over any stream, each kind's timestamp is the time of that kind's last successful send, or its starting value when there was none. |
| Watcher.RunConsistent | watcher.py:27-70 | For every dispatched record: without a webhook it was printed, and in maintenance mode a failover was muted. An error-rate alert was never muted and reports a window of between 50 and `capacity` entries. |
| Watcher.MaintenanceMutesOnlyFailover | watcher.py:32-33 | Over any stream, error-rate alerts are never muted. With a webhook in maintenance mode, every failover alert is muted. |
| Watcher.NoWebhookOnlyPrints | watcher.py:28-30 | Without a webhook every alert is only printed, and no timestamp ever changes. |
| Watcher.SmallWindowNeverAlerts | watcher.py:62-63 | With a capacity below 50, every dispatched alert is a failover. |
| Watcher.SendsRespectCooldown | watcher.py:35-43 | With a non-negative cooldown, any two successful sends of the same kind are at least the cooldown apart. Each is no later than its kind's recorded time. |
| Watcher.CooldownScenario | watcher.py:35-43 | Default settings: a failover sent at `t` throttles another 10 s later but not 400 s later. |
| Watcher.Watcher.constructor | watcher.py:20-22 | Start-up state: empty window, no remembered pool, both timestamps 0. |
| Watcher.Watcher.SendSlack | watcher.py:27-46 | Updates `last_alert_time` and returns the disposition exactly as `Dispatch`. Window and pool are unchanged. |
| Watcher.Watcher.CheckFailover | watcher.py:49-58 | Updates `last_pool` as `Observe` and dispatches its alert, if any. The window is unchanged. |
| Watcher.Watcher.CheckErrorRate | watcher.py:61-70 | Dispatches the alert `Evaluate` requests for the current window, if any. Window and pool are unchanged. |
| Watcher.Watcher.Handle | watcher.py:100-102 | Append, check failover, check error rate: the new fields and the records are those of `Apply`. |
| Watcher.Watcher.Step | watcher.py:88-102 | One line, in place: the new fields and records are those of `Next` with the watcher's own parser. |
| Watcher.Watcher.Consume | watcher.py:82-102 | A finite stream of lines, in place: the new fields and records are those of `Run`. |

## Left out

- Following the log file is not modelled (watcher.py:73-87). This covers waiting for it to exist, seeking to its end, `readline` and the polling sleeps. Lines arrive as a finite sequence of `Input`s, and the `while True` loop is `Consume` over that sequence.
- `requests.post` is a network call. Whether it raises is a boolean in each `Input`. HTTP status codes of the response play no part: the source records the time for any response, as the model does.
- `time.time()` is a `now` in each `Input`. The source reads the clock once per `send_slack`, but the model gives both checks of one line the same `now`.
- Reading and converting the environment (watcher.py:9-17) is not modelled. The configuration is a `Config` value. A negative `WINDOW_SIZE`, which makes `deque` raise, is excluded by the type `nat`.
- Message texts and every `print` are not modelled. An alert carries only its payload: (previous, new) pool, or (errors, total).
- Floating point in `errors / len * 100` is idealised to exact real arithmetic. The comparison is then exactly `100 * errors > threshold * len`. This differs from the source only at the boundary, where the rounded percentage can land just above the threshold. For example, 7 errors in 100 requests give `7/100*100 == 7.000000000000001` in Python, so with `ERROR_RATE_THRESHOLD=7` the source alerts where ErrorRate.AtThresholdIsQuiet says it does not. At the default 2.0, `1/50*100` rounds to exactly 2.0 and the two agree.
- StatusField.ParseInt: does not accept the underscores between digits or the non-ASCII digits that Python's `int()` accepts. The integer syntax is an optional sign followed by ASCII digits.
- StatusField.ParseInt: has no length limit. CPython 3.11 and later raises ValueError on decimal text longer than 4300 digits (`sys.get_int_max_str_digits()`), which watcher.py:97-98 turns into status 0. The model reads such text as its number instead, which then counts as a status `>= 500`.
- The `__main__` bootstrap (watcher.py:105-106) is not modelled.
- Watcher.Run and the stream lemmas are stated for any parser of type `Watcher.Parser`. They say nothing about which lines `LogPattern.ParseLine` accepts; that is stated by `LogPattern.ParseLine`'s own contract and lemmas.
- The model follows watcher.py as written, including these behaviours:
  - An empty pool overwrites the remembered pool with `""`; it is not ignored (watcher.py:51-52).
  - Without a webhook, the print comes before the maintenance and cooldown checks, and no timestamp is recorded (watcher.py:28-30).
  - Timestamps start at 0, not "never sent" (watcher.py:22).
  - A post that does not raise records the time whatever the response (watcher.py:42-43).
  - A status such as `-3` reads as a negative number (watcher.py:96).
