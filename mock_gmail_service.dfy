/**
 * The mock Gmail service of demo mode: it serves either the raw demo
 * fixtures or a user's stored test emails converted to Gmail's message
 * format, and answers `messages().list()` and `messages().get()` from them.
 * Time stamps and the `strftime` date text come from a `Clock`.
 */
module MockGmailService {
  import opened Wrappers
  import opened Strings
  import opened TestEmailData
  import opened TestEmailUtils

  /** `int(t.timestamp() * 1000)` and `t.strftime("%a, %d %b %Y %H:%M:%S %z")`, as oracles. */
  datatype Clock = Clock(millis: DateTime -> int, format: DateTime -> string)

  /** A message in Gmail API format, as `_convert_test_email_to_gmail_format` builds it. */
  datatype GmailMessage = GmailMessage(
    id: string,
    threadId: string,
    labelIds: seq<string>,
    snippet: string,
    internalDate: string,
    headers: seq<(string, string)>,
    bodyData: string,
    bodySize: nat,
    sizeEstimate: nat,
    historyId: string)

  /** A dict of the list the mock serves: a raw fixture dict or a converted stored row. */
  datatype MailDict = Raw(e: TestEmail) | Converted(g: GmailMessage)

  function MailId(d: MailDict): string
  {
    match d
    case Raw(e) => e.id
    case Converted(g) => g.id
  }

  /** `d.get("subject", "")`: a converted message has no "subject" key. */
  function SubjectOf(d: MailDict): string
  {
    if d.Raw? then d.e.subject else ""
  }

  /** `d.get("email_from", "")`. */
  function EmailFromOf(d: MailDict): string
  {
    if d.Raw? then d.e.emailFrom else ""
  }

  /** `d.get("company_name", "")`. */
  function CompanyNameOf(d: MailDict): string
  {
    if d.Raw? then d.e.companyName else ""
  }

  /** The snippet: the subject, cut to 100 characters and marked with "..." when longer. */
  function Snippet(subject: string): (r: string)
    ensures |subject| <= 100 ==> r == subject
    ensures |subject| > 100 ==> |r| == 103 && StartsWith(r, subject[..100]) && EndsWith(r, "...")
  {
    if |subject| > 100 then subject[..100] + "..." else subject
  }

  /** `_convert_test_email_to_gmail_format`. */
  function ConvertTestEmailToGmailFormat(row: TestEmailRow, clock: Clock): (g: GmailMessage)
    ensures g.id == row.id && g.threadId == "thread_" + row.id
    ensures g.snippet == Snippet(row.subject) && |g.snippet| <= 103
    ensures g.sizeEstimate == g.bodySize == |row.emailBody| && g.bodyData == row.emailBody
    ensures g.headers == [("From", row.emailFrom), ("To", "user@example.com"), ("Subject", row.subject),
                          ("Date", clock.format(row.receivedAt))]
  {
    GmailMessage(row.id, "thread_" + row.id, ["INBOX", "UNREAD"], Snippet(row.subject),
      IntToString(clock.millis(row.receivedAt)),
      [("From", row.emailFrom), ("To", "user@example.com"), ("Subject", row.subject),
       ("Date", clock.format(row.receivedAt))],
      row.emailBody, |row.emailBody|, |row.emailBody|, "12345")
  }

  function ConvertAll(rows: seq<TestEmailRow>, clock: Clock): (r: seq<MailDict>)
    ensures |r| == |rows|
    ensures forall i :: 0 <= i < |rows| ==> r[i] == Converted(ConvertTestEmailToGmailFormat(rows[i], clock))
  {
    seq(|rows|, i requires 0 <= i < |rows| => Converted(ConvertTestEmailToGmailFormat(rows[i], clock)))
  }

  function RawAll(emails: seq<TestEmail>): (r: seq<MailDict>)
    ensures |r| == |emails| && forall i :: 0 <= i < |emails| ==> r[i] == Raw(emails[i])
  {
    seq(|emails|, i requires 0 <= i < |emails| => Raw(emails[i]))
  }

  /**
   * `get_user_test_emails` of the service: without a user id, or when the
   * query fails, the raw demo fixtures; otherwise the user's stored rows, in
   * the order the query returns them (`stored`), converted.
   */
  function ServiceEmails(userId: Option<string>, stored: Result<seq<TestEmailRow>>, clock: Clock): (r: seq<MailDict>)
    ensures (userId.None? || userId.value == "" || stored.Err?) ==> r == RawAll(DemoTestEmails)
    ensures userId.Some? && userId.value != "" && stored.Ok? ==>
      |r| == |stored.value| && forall i :: 0 <= i < |r| ==> r[i].Converted? && MailId(r[i]) == stored.value[i].id
  {
    if userId.None? || userId.value == "" then RawAll(DemoTestEmails)
    else match stored
      case Err(_) => RawAll(DemoTestEmails)
      case Ok(rows) => ConvertAll(rows, clock)
  }

  /** The answer of `list().execute()`. */
  datatype ListResponse = ListResponse(messages: seq<string>, nextPageToken: Option<string>, resultSizeEstimate: int)

  /** The filter of `list().execute()`: the lower-cased query occurs in the lower-cased subject, sender or company. */
  predicate MatchesQuery(d: MailDict, queryLower: string)
  {
    Contains(queryLower, Lower(SubjectOf(d))) || Contains(queryLower, Lower(EmailFromOf(d))) ||
    Contains(queryLower, Lower(CompanyNameOf(d)))
  }

  /** The filter condition, as the function `Where` applies. */
  function KeepFor(queryLower: string): MailDict -> bool
  {
    (d: MailDict) => MatchesQuery(d, queryLower)
  }

  /** The mails a query keeps; no query, or the empty one, keeps them all. */
  function Filtered(emails: seq<MailDict>, query: Option<string>): seq<MailDict>
  {
    if query.None? || query.value == "" then emails
    else Where(emails, KeepFor(Lower(query.value)))
  }

  function Ids(emails: seq<MailDict>): (r: seq<string>)
    ensures |r| == |emails| && forall i :: 0 <= i < |emails| ==> r[i] == MailId(emails[i])
  {
    seq(|emails|, i requires 0 <= i < |emails| => MailId(emails[i]))
  }

  /** The response for `emails`, a query and `maxResults`. */
  function ListResult(emails: seq<MailDict>, query: Option<string>, maxResults: int): ListResponse
  {
    var kept := Take(Filtered(emails, query), maxResults);
    ListResponse(Ids(kept), if |kept| < maxResults then None else Some("next_page_token"), |kept|)
  }

  /** `MockListRequest.execute` on the service's mails. */
  method ListExecute(emails: seq<MailDict>, query: Option<string>, maxResults: int) returns (resp: ListResponse)
    ensures resp == ListResult(emails, query, maxResults)
  {
    var kept := emails;
    if query.Some? && query.value != "" {
      kept := FilterByQuery(emails, Lower(query.value));
    }
    kept := Take(kept, maxResults);
    var ids := Ids(kept);
    resp := ListResponse(ids, if |kept| < maxResults then None else Some("next_page_token"), |kept|);
  }

  /** The filtering loop of `list().execute()`. */
  method FilterByQuery(emails: seq<MailDict>, queryLower: string) returns (filtered: seq<MailDict>)
    ensures filtered == Where(emails, KeepFor(queryLower))
  {
    var keep := KeepFor(queryLower);
    filtered := [];
    var i := 0;
    while i < |emails|
      invariant 0 <= i <= |emails|
      invariant filtered == Where(emails[..i], keep)
    {
      WhereSnoc(emails[..i], emails[i], keep);
      assert emails[..i + 1] == emails[..i] + [emails[i]];
      if keep(emails[i]) {
        filtered := filtered + [emails[i]];
      }
      i := i + 1;
    }
    assert emails[..i] == emails;
  }

  /**
   * The response lists the kept mails' ids, in order, from the first; it
   * holds at most `maxResults` of them, counts them in `resultSizeEstimate`,
   * and offers a next page exactly when the page is full.
   */
  lemma ListResultFacts(emails: seq<MailDict>, query: Option<string>, maxResults: int)
    requires maxResults >= 0
    ensures var r := ListResult(emails, query, maxResults);
      var f := Filtered(emails, query);
      |r.messages| == r.resultSizeEstimate <= maxResults &&
      |r.messages| == (if |f| < maxResults then |f| else maxResults) &&
      (forall i :: 0 <= i < |r.messages| ==> r.messages[i] == MailId(f[i])) &&
      (r.nextPageToken.None? <==> |r.messages| < maxResults)
  {
  }

  /** With a non-empty query, a mail is kept iff one of its three fields contains the query, in the list's order. */
  lemma QueryKeepsMatches(emails: seq<MailDict>, q: string)
    requires q != ""
    ensures forall d :: d in Filtered(emails, Some(q)) <==> d in emails && MatchesQuery(d, Lower(q))
    ensures forall a, b :: Filtered(a + b, Some(q)) == Filtered(a, Some(q)) + Filtered(b, Some(q))
  {
    WhereFacts(emails, KeepFor(Lower(q)));
    forall a, b ensures Filtered(a + b, Some(q)) == Filtered(a, Some(q)) + Filtered(b, Some(q)) {
      WhereAppend(a, b, KeepFor(Lower(q)));
    }
  }

  /**
   * A converted message has no subject, sender or company key, so every
   * non-empty query filters all of a user's stored mails out.
   */
  lemma QueryFindsNoConvertedMail(emails: seq<MailDict>, q: string, maxResults: int)
    requires q != ""
    requires forall i :: 0 <= i < |emails| ==> emails[i].Converted?
    ensures Filtered(emails, Some(q)) == []
    ensures ListResult(emails, Some(q), maxResults).messages == []
  {
    var ql := Lower(q);
    forall d | d in emails ensures !MatchesQuery(d, ql) {
      assert 0 < |ql|;
      NotContainsLacking(ql, "", 0);
    }
    WhereNone(emails, KeepFor(ql));
  }

  /** The fields of the mail `get().execute()` answers with; None for a key the dict lacks. */
  datatype MailView = MailView(
    id: Option<string>,
    subject: Option<string>,
    emailFrom: Option<string>,
    emailBody: Option<string>,
    receivedAt: Option<DateTime>)

  function View(d: MailDict): MailView
  {
    match d
    case Raw(e) => MailView(Some(e.id), Some(e.subject), Some(e.emailFrom), Some(e.emailBody), Some(e.receivedAt))
    case Converted(g) => MailView(Some(g.id), None, None, None, None)
  }

  /** The stand-in mail when the list is empty: it carries the requested id. */
  function DefaultMail(messageId: Option<string>, now: DateTime): MailView
  {
    MailView(messageId, Some("Test Email"), Some("test@example.com"), Some("This is a test email body."), Some(now))
  }

  /** The mail `get().execute()` answers with: the first with the id, else the first mail, else the stand-in. */
  function Target(emails: seq<MailDict>, messageId: Option<string>, now: DateTime): MailView
  {
    match FirstWithId(emails, messageId, 0)
    case Some(i) => View(emails[i])
    case None => if emails != [] then View(emails[0]) else DefaultMail(messageId, now)
  }

  /** The first position at or after `from` whose mail has the id `messageId`. */
  function FirstWithId(emails: seq<MailDict>, messageId: Option<string>, from: nat): (r: Option<nat>)
    requires from <= |emails|
    ensures r.Some? ==> from <= r.value < |emails| && Some(MailId(emails[r.value])) == messageId
    ensures r.Some? ==> forall j :: from <= j < r.value ==> Some(MailId(emails[j])) != messageId
    ensures r.None? ==> forall j :: from <= j < |emails| ==> Some(MailId(emails[j])) != messageId
    decreases |emails| - from
  {
    if from == |emails| then None
    else if Some(MailId(emails[from])) == messageId then Some(from)
    else FirstWithId(emails, messageId, from + 1)
  }

  /** The answer of `get().execute()` in the full format. */
  datatype GetResponse = GetResponse(
    id: Option<string>,
    threadId: string,
    labelIds: seq<string>,
    snippet: string,
    historyId: string,
    internalDate: string,
    headers: seq<(string, string)>,
    bodyData: string,
    bodySize: nat,
    sizeEstimate: nat)

  /** Python's f-string rendering of an optional id. */
  function IdText(id: Option<string>): string
  {
    if id.Some? then id.value else "None"
  }

  /** The full-format response for the mail `v`; `now` stands in for a missing receive time. */
  function FullResponse(v: MailView, now: DateTime, clock: Clock): GetResponse
  {
    var received := v.receivedAt.GetOr(now);
    var body := v.emailBody.GetOr("Test email body");
    GetResponse(v.id, "thread_" + IdText(v.id), ["INBOX"], Take(v.subject.GetOr(""), 100), "12345",
      IntToString(clock.millis(received)),
      [("From", v.emailFrom.GetOr("test@example.com")), ("To", "user@example.com"),
       ("Subject", v.subject.GetOr("Test Subject")), ("Date", clock.format(received))],
      body, |body|, |body|)
  }

  /**
   * `MockGetRequest.execute` with any format but "raw". The clock is read
   * once, as `now`.
   */
  method GetExecute(emails: seq<MailDict>, messageId: Option<string>, now: DateTime, clock: Clock)
    returns (resp: GetResponse)
    ensures resp == FullResponse(Target(emails, messageId, now), now, clock)
  {
    var i := 0;
    while i < |emails| && Some(MailId(emails[i])) != messageId
      invariant 0 <= i <= |emails|
      invariant FirstWithId(emails, messageId, 0) == FirstWithId(emails, messageId, i)
    {
      i := i + 1;
    }
    var view: MailView;
    if i < |emails| {
      view := View(emails[i]);
    } else if emails != [] {
      view := View(emails[0]);
    } else {
      view := DefaultMail(messageId, now);
    }
    resp := FullResponse(view, now, clock);
  }

  /**
   * The answer describes the first mail carrying the requested id; with no
   * such mail, the first mail of the list; with an empty list, a stand-in
   * that carries the requested id.
   */
  lemma GetTargetFacts(emails: seq<MailDict>, messageId: Option<string>, now: DateTime, clock: Clock)
    ensures var r := FullResponse(Target(emails, messageId, now), now, clock);
      ((exists i :: 0 <= i < |emails| && Some(MailId(emails[i])) == messageId) ==> r.id == messageId) &&
      ((forall i :: 0 <= i < |emails| ==> Some(MailId(emails[i])) != messageId) && emails != [] ==>
        r.id == Some(MailId(emails[0]))) &&
      (emails == [] ==> r.id == messageId && r.snippet == "Test Email" && r.bodyData == "This is a test email body.")
      && r.threadId == "thread_" + IdText(r.id) && r.sizeEstimate == r.bodySize == |r.bodyData| && |r.snippet| <= 100
  {
    match FirstWithId(emails, messageId, 0)
    case Some(i) =>
    case None =>
  }

  /** A converted mail has no subject, sender, body or time keys, so the answer falls back to the fixed defaults. */
  lemma ConvertedTargetUsesDefaults(g: GmailMessage, now: DateTime, clock: Clock)
    ensures var r := FullResponse(View(Converted(g)), now, clock);
      r.id == Some(g.id) && r.snippet == "" && r.bodyData == "Test email body" &&
      r.headers[2] == ("Subject", "Test Subject") && r.internalDate == IntToString(clock.millis(now))
  {
  }
}
