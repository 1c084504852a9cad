/** `run_single_check` and the entry point of monitor.py: fetch the page text,
    collect the search terms it contains, and when there are any, send one
    alert naming them and report True. The browser fetch is an abstract
    outcome, text or error. */
module Monitor {
  import opened Wrappers
  import opened Text
  import opened Matcher
  import opened Mail

  /** The terms the monitor looks for (walkover and retirement markers). */
  const SearchTerms: seq<string> := ["- wo.", "- ret."]

  const SubjectPrefix: string := "ALERT: Walkover/Retirement Found ("
  const SubjectSuffix: string := ")"

  /** What the browser step yields before matching starts: the visible text
      of the page body, or a failure while launching, navigating or
      extracting. A failure when the browser context shuts down, after the
      alert decision, is a separate input of `RunSingleCheck`. */
  datatype FetchOutcome = PageText(text: string) | FetchFailed(message: string)

  /** The alert body: the matched terms joined by ", ". */
  function AlertBody(found: seq<string>): string
  {
    Join(ListSeparator, found)
  }

  /** The alert subject, which carries the body in parentheses. */
  function AlertSubject(body: string): string
  {
    SubjectPrefix + body + SubjectSuffix
  }

  /** The call to the sender one check makes, if any. */
  function PlannedAlert(fetch: FetchOutcome, terms: seq<string>): Option<Email>
  {
    match fetch
    case FetchFailed(_) => None
    case PageText(text) =>
      var found := FindMatches(text, terms);
      if found == [] then None
      else Some(Email(AlertSubject(AlertBody(found)), AlertBody(found)))
  }

  /** The alert decision of one check: True exactly when it calls the
      sender. The check returns this value when the browser context then
      shuts down cleanly, and False otherwise. */
  function CheckResult(fetch: FetchOutcome, terms: seq<string>): bool
  {
    PlannedAlert(fetch, terms).Some?
  }

  /** The sender calls of one check, as a list of zero or one emails. */
  function SenderCalls(fetch: FetchOutcome, terms: seq<string>): seq<Email>
  {
    match PlannedAlert(fetch, terms)
    case None => []
    case Some(e) => [e]
  }

  /** The delivery attempts of one check, for a given SMTP outcome. */
  function DeliveryAttempts(c: Credentials, fetch: FetchOutcome, terms: seq<string>, status: DeliveryStatus): seq<Attempt>
  {
    match PlannedAlert(fetch, terms)
    case None => []
    case Some(e) => AttemptsFor(c, e, status)
  }

  /** A check returns True if and only if the page was fetched and at least
      one search term occurs in it. */
  lemma CheckResultIff(fetch: FetchOutcome, terms: seq<string>)
    ensures CheckResult(fetch, terms)
        <==> fetch.PageText? && exists t :: t in terms && Contains(fetch.text, t)
  {
    if fetch.PageText? {
      NoMatchesIff(fetch.text, terms);
    }
  }

  /** A failed fetch returns False and sends nothing. */
  lemma FetchFailureIsSilent(message: string, terms: seq<string>)
    ensures !CheckResult(FetchFailed(message), terms)
    ensures SenderCalls(FetchFailed(message), terms) == []
  {
  }

  /** An alert's body and subject both mention every matched term. */
  lemma AlertMentionsEveryMatch(text: string, terms: seq<string>, t: string)
    requires t in terms && Contains(text, t)
    ensures PlannedAlert(PageText(text), terms).Some?
    ensures Contains(PlannedAlert(PageText(text), terms).value.body, t)
    ensures Contains(PlannedAlert(PageText(text), terms).value.subject, t)
  {
    var found := FindMatches(text, terms);
    InFindMatches(text, terms, t);
    var k :| 0 <= k < |found| && found[k] == t;
    JoinContainsParts(ListSeparator, found, k);
    var body := AlertBody(found);
    var i :| OccursAt(body, t, i);
    assert AlertSubject(body)[|SubjectPrefix| + i..|SubjectPrefix| + i + |t|] == body[i..i + |t|];
    assert OccursAt(AlertSubject(body), t, |SubjectPrefix| + i);
  }

  /** Recovering the matched terms from a subject: strip the fixed prefix and
      the closing parenthesis, then split the list at ", ". */
  function ParseSubject(subject: string): Option<seq<string>>
  {
    var n := |SubjectPrefix|;
    if |subject| >= n + 1 && subject[..n] == SubjectPrefix && subject[|subject| - 1] == ')' then
      Some(Split(subject[n..|subject| - 1], ListSeparator))
    else None
  }

  /** When a check sends an alert, both its body and its subject name exactly
      the matched terms, in order, provided no search term contains ", ". */
  lemma AlertNamesMatches(text: string, terms: seq<string>)
    requires forall t :: t in terms ==> !Contains(t, ListSeparator)
    requires FindMatches(text, terms) != []
    ensures PlannedAlert(PageText(text), terms).Some?
    ensures Split(PlannedAlert(PageText(text), terms).value.body, ListSeparator) == FindMatches(text, terms)
    ensures ParseSubject(PlannedAlert(PageText(text), terms).value.subject) == Some(FindMatches(text, terms))
  {
    var found := FindMatches(text, terms);
    forall k | 0 <= k < |found|
      ensures !Contains(found[k], ListSeparator)
    {
      InFindMatches(text, terms, found[k]);
    }
    SplitJoin(found);
    var body := AlertBody(found);
    var subject := AlertSubject(body);
    assert subject[..|SubjectPrefix|] == SubjectPrefix;
    assert subject[|SubjectPrefix|..|subject| - 1] == body;
  }

  /** A string without a comma has no ", " in it. */
  lemma NoCommaNoSeparator(s: string)
    requires ',' !in s
    ensures !Contains(s, ListSeparator)
  {
    if Contains(s, ListSeparator) {
      var i :| OccursAt(s, ListSeparator, i);
      OccurrenceStartsWith(s, ListSeparator, i);
    }
  }

  /** The configured terms are safe to list with ", ": the alert for them
      always names the matched terms unambiguously. */
  lemma SearchTermsSeparable()
    ensures forall t :: t in SearchTerms ==> !Contains(t, ListSeparator)
  {
    NoCommaNoSeparator(SearchTerms[0]);
    NoCommaNoSeparator(SearchTerms[1]);
  }

  /** `run_single_check`, after the page text has been obtained. Matching
      and sending happen inside the browser context; `shutdownOk` says whether
      leaving that context succeeds. If it fails, the exception replaces the
      return value and the handler returns False, even when the sender has
      already been called. The value returned does not depend on how the
      delivery went: `status` only ends up in the mailer's record of
      attempts. */
  method RunSingleCheck(mailer: Mailer, fetch: FetchOutcome, terms: seq<string>,
                        status: DeliveryStatus, shutdownOk: bool)
    returns (alertSent: bool)
    modifies mailer
    ensures alertSent == (CheckResult(fetch, terms) && shutdownOk)
    ensures mailer.calls == old(mailer.calls) + SenderCalls(fetch, terms)
    ensures mailer.attempts == old(mailer.attempts) + DeliveryAttempts(mailer.credentials, fetch, terms, status)
  {
    match fetch
    case FetchFailed(_) =>
      alertSent := false;
    case PageText(pageText) =>
      var found := CollectMatches(pageText, terms);
      if found != [] {
        var body := AlertBody(found);
        var subject := AlertSubject(body);
        mailer.SendEmailAlert(subject, body, status);
        alertSent := true;
      } else {
        alertSent := false;
      }
      if !shutdownOk {
        alertSent := false;
      }
  }

  /** The entry point: exactly two checks of the configured terms, the second
      run whatever the first returned. The 30-second pause between them is
      not modelled. */
  method RunMonitor(mailer: Mailer, first: FetchOutcome, second: FetchOutcome,
                    status1: DeliveryStatus, status2: DeliveryStatus,
                    shutdownOk1: bool, shutdownOk2: bool)
    returns (alertSent1: bool, alertSent2: bool)
    modifies mailer
    ensures alertSent1 == (CheckResult(first, SearchTerms) && shutdownOk1)
    ensures alertSent2 == (CheckResult(second, SearchTerms) && shutdownOk2)
    ensures mailer.calls == old(mailer.calls) + SenderCalls(first, SearchTerms) + SenderCalls(second, SearchTerms)
    ensures mailer.attempts == old(mailer.attempts)
      + DeliveryAttempts(mailer.credentials, first, SearchTerms, status1)
      + DeliveryAttempts(mailer.credentials, second, SearchTerms, status2)
  {
    alertSent1 := RunSingleCheck(mailer, first, SearchTerms, status1, shutdownOk1);
    alertSent2 := RunSingleCheck(mailer, second, SearchTerms, status2, shutdownOk2);
  }
}
