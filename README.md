# THTBot watchdog core, modelled in Dafny

THTBot scrapes a sensor page for temperature, humidity and tension
(voltage), pushes each reading to its registered observers, and each
observer (a humidity monitor here) compares humidity against fixed
minimum/maximum limits and sends a Telegram alert, at most one per two-hour
cooldown window.  This project models that core and proves properties of it:

- `StatsLine` (stats_line.dfy): the pure text step of `setStats`: the search
  for `<html>(\S+)<br />` in a line (leftmost match, greedy group), Java's
  `String.split(":")` (trailing empty tokens dropped), and their composition
  `ParseLine`.
- `MonitorBot` (monitor_bot.dfy): the class `THTMonitorBot` with its three
  reading fields and its ordered observer list; `SetStats`, `AddObserver`,
  `DeleteObserver`, `NotifyObservers`; the pure specifications they are
  proved against (`ReadPage`, `ApplyTokens`, `RemoveFirst`, `Notify`).
- `Humidity` (humidity_monitor.dfy): the class `HumidityMonitor`, carrying
  the fields of its base class `Monitor` (limits and credentials as `const`
  fields, the mutable `lastAlertDate`, and an outbox standing in for
  Telegram), with `Update` proved against the pure `HumidityStep`.
- `MonitorBase` (monitor_base.dfy): what `Monitor` contributes as values:
  messages, `Integer.parseInt` on the chat ID, and `Send`, the outbox append
  that `sendMessage` performs.
- `Wrappers` (wrappers.dfy): `Option`.

Behaviour that follows the code where its own comments say otherwise, or
say nothing:

- The comment on `update` (HumidityMonitor.java:48-49) promises a two-hour
  wait after an alert is sent, but `lastAlertDate` is set to the current
  time whenever the cooldown gate opens, also when the humidity is within
  limits and nothing is sent (HumidityMonitor.java:61).  `QuietReadingRestartsCooldown` shows the
  consequence: a normal reading suppresses an out-of-limits one that follows
  within two hours.
- The three fields are overwritten one at a time (THTMonitorBot.java:110-112):
  a missing or unparsable token leaves the earlier fields overwritten and
  notifies nobody.  They are not replaced as a whole.
- More than three tokens are accepted and the extra ones ignored.
- An exception from an observer (a chat ID that is not a 32-bit integer, when
  that observer tries to send) ends the notification loop: later observers are
  not notified, and `setStats` fails.

External inputs become parameters: the fetched page is `lines: seq<string>`;
`Float.parseFloat` is `parse: string -> Option<real>` (None where Java
throws); `TimeUtil.getHoursElapsed` is `elapsed: (Time, Time) -> int`; the
clock is one `now: Time` per call.

## Model

| member | source | states |
|---|---|---|
| MonitorBase.ParseInt | thtbot/src/main/java/br/inf/ufes/lar/thtbot/monitors/Monitor.java:80 | the chat ID parse yields only values in the 32-bit range [-2^31, 2^31-1] |
| MonitorBase.ParseIntDecimal | thtbot/src/main/java/br/inf/ufes/lar/thtbot/monitors/Monitor.java:80 | digits after an optional '+' or '-' (leading zeros allowed) are accepted with their signed decimal value exactly when it lies in the 32-bit range, and refused otherwise |
| MonitorBase.ParseIntRejectsOutOfRange | thtbot/src/main/java/br/inf/ufes/lar/thtbot/monitors/Monitor.java:80 | a decimal number outside the 32-bit range is refused (NumberFormatException) |
| MonitorBase.ParseIntRejectsNonDigit | thtbot/src/main/java/br/inf/ufes/lar/thtbot/monitors/Monitor.java:80 | a chat ID with a character that is neither a digit nor a leading sign is refused |
| MonitorBase.ParseIntNeedsDigits | thtbot/src/main/java/br/inf/ufes/lar/thtbot/monitors/Monitor.java:80 | the empty string and a sign alone are refused |
| MonitorBase.ParseIntShowInt | thtbot/src/main/java/br/inf/ufes/lar/thtbot/monitors/Monitor.java:80 | every 32-bit integer written in decimal (with '-' when negative) parses back to itself |
| MonitorBase.Send | thtbot/src/main/java/br/inf/ufes/lar/thtbot/monitors/Monitor.java:77-85 | sending succeeds exactly when the chat ID parses; on success exactly one message is appended, with the text unchanged, the bot token, and the parsed chat ID as recipient; on failure nothing is sent |
| MonitorBase.SendToShownChat | thtbot/src/main/java/br/inf/ufes/lar/thtbot/monitors/Monitor.java:80-84 | a chat ID that is a decimal 32-bit integer always sends, to that chat |
| Humidity.HumidityStep | thtbot/src/main/java/br/inf/ufes/lar/thtbot/monitors/HumidityMonitor.java:56-71 | (with its helper Dispatch, the send of HumidityMonitor.java:64-68) a closed gate (previous alert and elapsed hours < 2) changes nothing; an open gate sets lastAlertDate to now even if nothing is sent; at most one message is appended and the earlier outbox is kept; a message is sent iff the gate is open, humidity is out of limits and the chat ID parses; it is Below(humi) when humi < minLimit, else Above(humi); the call fails iff it tries to send to a malformed chat ID |
| Humidity.CooldownScenario | thtbot/src/main/java/br/inf/ufes/lar/thtbot/monitors/HumidityMonitor.java:59-69 | humidity 20 against limits 30..70 alerts at once; 15 an hour later is suppressed; 15 exactly two hours after the first alert alerts again |
| Humidity.QuietReadingRestartsCooldown | thtbot/src/main/java/br/inf/ufes/lar/thtbot/monitors/HumidityMonitor.java:59-69 | a reading within limits at an open gate sends nothing but restarts the cooldown, so a low reading less than two hours later is suppressed |
| Humidity.HumidityMonitor.constructor | thtbot/src/main/java/br/inf/ufes/lar/thtbot/monitors/Monitor.java:64-70 | limits, token and chat ID are stored as given; no alert has been recorded and nothing sent |
| Humidity.HumidityMonitor.SendMessage | thtbot/src/main/java/br/inf/ufes/lar/thtbot/monitors/Monitor.java:77-85 | the outbox grows as Send says and nothing else changes (lastAlertDate and the final fields are outside its frame) |
| Humidity.HumidityMonitor.Update | thtbot/src/main/java/br/inf/ufes/lar/thtbot/monitors/HumidityMonitor.java:56-71 | the new state and the failure flag are exactly HumidityStep of the old state with the humidity argument; temperature and tension play no part |
| StatsLine.MatchAtSpec | src/main/java/br/inf/ufes/lar/thtbot/THTMonitorBot.java:103-106 | a match found at a start index is a real match, and no match at that index has a longer group (greedy \S+) |
| StatsLine.FindFromSpec | src/main/java/br/inf/ufes/lar/thtbot/THTMonitorBot.java:103-106 | FindFrom, the model of Matcher.find: the search from index i finds nothing iff no match starts at or after i; otherwise it reports the leftmost start and, there, the longest group |
| StatsLine.Find | src/main/java/br/inf/ufes/lar/thtbot/THTMonitorBot.java:103-107 | the group is absent iff the pattern occurs nowhere in the line; otherwise it is the group of the leftmost, greedy match |
| StatsLine.FindWrapped | src/main/java/br/inf/ufes/lar/thtbot/THTMonitorBot.java:103-107 | a line that is exactly `<html>G<br />`, G non-empty without whitespace, yields G |
| StatsLine.Split | src/main/java/br/inf/ufes/lar/thtbot/THTMonitorBot.java:108 | String.split(":") with limit 0: a string without ':' is the single token itself; otherwise the tokens are the ':'-separated pieces with the trailing empty ones dropped (only those), so the last token, if any, is non-empty; no token contains ':' |
| StatsLine.DropTrailingEmpty | src/main/java/br/inf/ufes/lar/thtbot/THTMonitorBot.java:108 | removes only empty strings, only from the end, and leaves a list that is empty or ends in a non-empty string |
| StatsLine.JoinPieces | src/main/java/br/inf/ufes/lar/thtbot/THTMonitorBot.java:108 | the colon-separated pieces of a string, joined with ':', give the string back |
| StatsLine.PiecesJoin | src/main/java/br/inf/ufes/lar/thtbot/THTMonitorBot.java:108 | colon-free tokens joined with ':' split back into exactly those tokens |
| StatsLine.SplitJoin | src/main/java/br/inf/ufes/lar/thtbot/THTMonitorBot.java:108 | split(":") recovers joined colon-free tokens when the last is non-empty or there is only one |
| StatsLine.ParseLine | src/main/java/br/inf/ufes/lar/thtbot/THTMonitorBot.java:100-108 | no tokens iff the pattern does not occur in the line; otherwise the tokens are Split of the group of the leftmost, longest match; every token is free of ':' and of whitespace |
| StatsLine.ParseLineWrapped | src/main/java/br/inf/ufes/lar/thtbot/THTMonitorBot.java:100-108 | a line `<html>G<br />` is parsed into split(G) |
| StatsLine.PageLineExample | src/main/java/br/inf/ufes/lar/thtbot/THTMonitorBot.java:100-108 | `<html>22.5:85.0:220.0<br />` gives the tokens 22.5, 85.0, 220.0 |
| MonitorBot.ApplyTokens | src/main/java/br/inf/ufes/lar/thtbot/THTMonitorBot.java:110-112 | all three fields are assigned iff tokens 0, 1, 2 exist and parse, and then they are those values in that order; otherwise the error names the first missing (index out of bounds) or unparsable (number format) token, the fields before it hold the parsed values and the fields from it on keep their old values |
| MonitorBot.ApplyTokensIgnoresExtra | src/main/java/br/inf/ufes/lar/thtbot/THTMonitorBot.java:110-112 | tokens after the third change nothing |
| MonitorBot.PageExample | src/main/java/br/inf/ufes/lar/thtbot/THTMonitorBot.java:103-112 | a line in the TEMPERATURE:HUMIDITY:TENSION format of the class comment (THTMonitorBot.java:37-38) gives the reading (22.5, 85.0, 220.0) without error |
| MonitorBot.ReadPage | src/main/java/br/inf/ufes/lar/thtbot/THTMonitorBot.java:94-112 | fewer than two lines fails with a null line and changes nothing; no match stops quietly and changes nothing; a match overwrites the fields as ApplyTokens says and goes on to notification only if all three were assigned |
| MonitorBot.ReadPageSkipsFirstLine | src/main/java/br/inf/ufes/lar/thtbot/THTMonitorBot.java:94-100 | replacing the first line of the page changes nothing |
| MonitorBot.RemoveFirstSpec | src/main/java/br/inf/ufes/lar/thtbot/THTMonitorBot.java:141-143 | RemoveFirst, the model of ArrayList.remove: a list without the observer is unchanged; otherwise exactly the first occurrence is removed and the order of the rest kept |
| MonitorBot.RemoveFirstAbsent | src/main/java/br/inf/ufes/lar/thtbot/THTMonitorBot.java:141-143 | removing an observer that is not registered leaves the list as it is |
| MonitorBot.RemoveFirstAt | src/main/java/br/inf/ufes/lar/thtbot/THTMonitorBot.java:141-143 | removing an observer whose first occurrence is at position k keeps the elements before k and after k, in order |
| MonitorBot.RemoveFirstMultiset | src/main/java/br/inf/ufes/lar/thtbot/THTMonitorBot.java:141-143 | removal takes away one copy of the observer and nothing else |
| MonitorBot.RemoveAfterAdd | src/main/java/br/inf/ufes/lar/thtbot/THTMonitorBot.java:130-143 | deleting an observer just added to a list that did not hold it restores the list |
| MonitorBot.Notify | src/main/java/br/inf/ufes/lar/thtbot/THTMonitorBot.java:154-159 | every monitor keeps its place in the state map; without an exception every listed observer is updated once, and a failure comes after at least one update; NotifyStops and NotifyAppend show that the loop ends there |
| MonitorBot.NotifyAppend | src/main/java/br/inf/ufes/lar/thtbot/THTMonitorBot.java:154-158 | notifying a + b is notifying a and then, unless that failed, b from the states a left: the observers are served in list order |
| MonitorBot.NotifySnoc | src/main/java/br/inf/ufes/lar/thtbot/THTMonitorBot.java:154-158 | one more observer at the end is updated once, from the state the earlier ones left |
| MonitorBot.NotifyStops | src/main/java/br/inf/ufes/lar/thtbot/THTMonitorBot.java:154-158 | after an exception at some position no later observer is updated |
| MonitorBot.NotifyLeavesOthers | src/main/java/br/inf/ufes/lar/thtbot/THTMonitorBot.java:154-158 | a monitor not in the list keeps its state |
| MonitorBot.NotifyDistinct | src/main/java/br/inf/ufes/lar/thtbot/THTMonitorBot.java:154-158 | with each observer listed once and no exception, each ends in the state one update with the current reading gives it |
| MonitorBot.THTMonitorBot.constructor | src/main/java/br/inf/ufes/lar/thtbot/THTMonitorBot.java:63-76 | temperature, humidity and tension start at 0 and the observer list is empty |
| MonitorBot.THTMonitorBot.AddObserver | src/main/java/br/inf/ufes/lar/thtbot/THTMonitorBot.java:130-132 | the observer is appended at the end; duplicates kept, order preserved |
| MonitorBot.THTMonitorBot.DeleteObserver | src/main/java/br/inf/ufes/lar/thtbot/THTMonitorBot.java:141-143 | the new list is RemoveFirst of the old one |
| MonitorBot.THTMonitorBot.NotifyObservers | src/main/java/br/inf/ufes/lar/thtbot/THTMonitorBot.java:154-159 | the monitors' states become Notify of their old states with the current reading, in list order; the result reports whether an exception stopped the loop |
| MonitorBot.THTMonitorBot.SetStats | src/main/java/br/inf/ufes/lar/thtbot/THTMonitorBot.java:86-121 | the fields become ReadPage's reading; if the page stops early the outcome says why and no monitor changes; otherwise the monitors are notified as NotifyObservers says and the outcome reports whether an observer threw |

## Left out

- Fetching the page (URL.openStream, the reader objects), URL construction and the logging of a malformed URL or an unsupported encoding: the page is given as its lines, and a failed URL construction is not modelled.
- Float.parseFloat, IEEE rounding, NaN and infinity: readings and limits are reals and the token parse is a parameter, so NaN comparisons (always false in Java) are not modelled.
- The Portuguese message texts and float-to-string formatting: a message carries Below(h) or Above(h).
- TimeUtil.getHoursElapsed and its calendar-component semantics: it is the parameter elapsed; TimeUtil.java is not part of this model.
- The two clock reads of update are one now; a notification round uses the same now for every observer.
- BotSettings.setApiToken (a global token set before each send) and Sender.send (delivery): a message records the token and is appended to the sending monitor's own outbox.
- MonitorBase.ParseInt: accepts only ASCII digits, while Java's Character.digit also accepts other Unicode decimal digits.
- The Observer interface and other monitor kinds: the observer list holds humidity monitors only, since interfaces (traits) are not used here; java.util.Observable's setChanged has no effect on the overridden notifyObservers and is omitted.
