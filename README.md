# Walkover/retirement monitor — Dafny model

monitor.py checks a live-scores page for two literal markers, `"- wo."`
(walkover) and `"- ret."` (retirement). It does this twice, thirty seconds
apart. Each check takes the visible text of the page and keeps every search
term that occurs in it. If any term matched, it emails one alert that names
the matched terms and returns `True`. Otherwise it returns `False`. A failure
while fetching the page also makes the check return `False`, and so does a
failure while the browser context shuts down, even after the alert was
sent. The mailer sends
nothing unless all three credentials are present, and it swallows every
delivery error.

This project models that decision logic:

- `wrappers.dfy` (`Wrappers`): the `Option` type.
- `text.dfy` (`Text`): Python's substring test `term in text`, through the
  leftmost-occurrence search `IndexOf` (`str.find`). It also holds
  `sep.join(parts)` and a split on the separator. Splitting on `", "` is
  proved to undo the join for a non-empty list in which no item contains
  `", "`.
- `matcher.dfy` (`Matcher`): the term-matching loop. `CollectMatches` is a
  method with a loop invariant. It is proved equal to the function
  `FindMatches`, which is characterised as an order-preserving filter of the
  term list.
- `mail.dfy` (`Mail`): `send_email_alert`. This covers Python's truthiness
  of environment values, `all(...)`, the credential gate, and a `Mailer`
  class. The class records every call it receives and every SMTP delivery
  it attempts.
- `monitor.dfy` (`Monitor`): `run_single_check` over an abstract fetch
  outcome (page text or failure) and an abstract shutdown outcome of the
  browser context, the alert subject and body, and the two-check entry
  point.

## Model

| member | source | states |
|---|---|---|
| Text.IndexOf | monitor.py:85 | the result is the leftmost position where the term occurs in the text, or none when it occurs nowhere |
| Text.Contains | monitor.py:85 | `term in text` holds exactly when the term occurs at some position of the text, compared character by character (literal and case-sensitive) |
| Text.EmptyAlwaysContained | monitor.py:85 | the empty term is a substring of every text |
| Text.JoinContainsParts | monitor.py:89 | every item of a `sep.join` list occurs in the joined string |
| Text.SplitJoin | monitor.py:89 | splitting a `", ".join` of a non-empty list on `", "` gives the list back, provided no item contains `", "` |
| Matcher.FindMatches | monitor.py:82-86 | the matched list is never longer than the term list |
| Matcher.FindMatchesSelects | monitor.py:82-86 | the matched list is the term list taken at strictly increasing positions, and a position is taken exactly when its term occurs in the page text |
| Matcher.InFindMatches | monitor.py:84-86 | a string is among the matches if and only if it is a search term that occurs in the page text |
| Matcher.FindMatchesCount | monitor.py:84-86 | a matching term appears in the matches as many times as in the term list, and a non-matching term never appears |
| Matcher.NoMatchesIff | monitor.py:84-88 | the match list is empty exactly when no search term occurs in the page text |
| Matcher.EmptyTermMatches | monitor.py:84-86 | an empty search term is matched on every page |
| Matcher.CollectMatches | monitor.py:82-86 | the append loop over the terms produces exactly `FindMatches` of the page text and the terms |
| Mail.All | monitor.py:24 | Python's `all` over optional strings holds exactly when every value is present and non-empty |
| Mail.GateClosedIff | monitor.py:24-26 | the credential gate is closed exactly when the sender, password or receiver is `None` or empty |
| Mail.AttemptsFor | monitor.py:24-26 | one call of the sender attempts one delivery, from the sender address to the receiver address, when the gate is open, and none otherwise |
| Mail.Mailer.constructor | monitor.py:14-16 | the mailer starts with the given credentials and with no calls and no attempts |
| Mail.Mailer.SendEmailAlert | monitor.py:23-58 | each call is recorded once; at most one delivery attempt is added, as the gate decides; its outcome is swallowed and nothing is returned |
| Monitor.CheckResultIff | monitor.py:88-94 | the alert decision, which a check returns when its browser context shuts down cleanly, is True if and only if the page was fetched and at least one search term occurs in its text |
| Monitor.FetchFailureIsSilent | monitor.py:96-100 | when fetching fails, the check returns False and makes no call to the sender |
| Monitor.AlertMentionsEveryMatch | monitor.py:89-90 | when a term matches, an alert is planned, and both its body and its subject contain that term |
| Monitor.AlertNamesMatches | monitor.py:89-91 | when terms match and none contains `", "`, splitting the body gives back exactly the matched terms in order; the subject is the fixed prefix, that body and `")"` |
| Monitor.SearchTermsSeparable | monitor.py:20 | neither configured term contains `", "`, so the alerts for them always list the matched terms unambiguously |
| Monitor.RunSingleCheck | monitor.py:62-100 | the return value is `CheckResult`, except that it is False when leaving the browser context fails (the exception at the end of the `with` reaches the handler after any send); the sender is called once with the composed alert when terms matched and never otherwise; delivery attempts follow the gate; the delivery outcome does not affect the return value |
| Monitor.RunMonitor | monitor.py:103-114 | exactly two checks run over the configured terms; each returns its own `CheckResult` (False when its browser context fails to shut down), and the second runs whatever the first returned; the sender calls are those of the first check followed by those of the second |

## Left out

- Launching the browser, navigating, the fixed 5-second render wait and extracting the body text (monitor.py:65-80) are a foreign browser-automation library. They are modelled only as the abstract `FetchOutcome` (page text, or a failure) and, for leaving the `with` block at monitor.py:65, a flag saying whether the shutdown succeeds.
- SMTP, STARTTLS, login and MIME/HTML message construction (monitor.py:29-53) are network and email-library calls. A delivery is modelled as a recorded `Attempt` (sender, receiver, subject, body) whose outcome the caller supplies. The HTML wrapper, the monitored URL in it and the password used at login are not modelled.
- Reading the credentials from the environment (monitor.py:14-16) is process I/O. The three values are passed to the `Mailer` constructor.
- The `time.sleep` pauses (monitor.py:75, 110) and all console messages have no observable effect beyond ordering. They are omitted.
- Monitor.RunMonitor: does not model the 30-second wait between the two checks; only their order is kept.
