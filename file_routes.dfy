/**
 * The export routes: the CSV projection of the user's mails and the counts
 * behind the Sankey diagram, the status pie chart and the weekly graph.
 * Drawing and writing the files is not modelled; each route answers with the
 * data it would draw or write.
 */
module FileRoutes {
  import opened Wrappers
  import opened Strings
  import opened Counts
  import opened JobEmails
  import opened StatsRoutes

  /** Where every export sends a visitor without a session. */
  function LogoutRedirect<T>(): Response<T>
  {
    Redirect("/logout", 303)
  }

  function NoData<T>(): Response<T>
  {
    Failure(400, "No data found to write")
  }

  // ---------------------------------------------------------------- CSV

  /** `field_mapping`: column name and header, with the message id added outside a public deployment. */
  function FieldMapping(publiclyDeployed: bool): seq<(string, string)>
  {
    [("company_name", "Company Name"), ("application_status", "Application Status"),
     ("received_at", "Received At"), ("job_title", "Job Title"), ("subject", "Subject"),
     ("email_from", "Sender")]
    + (if publiclyDeployed then [] else [("id", "Message ID")])
  }

  function SelectedFields(publiclyDeployed: bool): (r: seq<string>)
    ensures |r| == |FieldMapping(publiclyDeployed)|
  {
    var m := FieldMapping(publiclyDeployed);
    seq(|m|, i requires 0 <= i < |m| => m[i].0)
  }

  function Headers(publiclyDeployed: bool): (r: seq<string>)
    ensures |r| == |FieldMapping(publiclyDeployed)|
  {
    var m := FieldMapping(publiclyDeployed);
    seq(|m|, i requires 0 <= i < |m| => m[i].1)
  }

  /**
   * The CSV cell of one column; a missing job title is written empty, and the
   * received time as `format` renders it.
   */
  function Cell(e: Email, field: string, format: int -> string): string
  {
    if field == "company_name" then e.companyName
    else if field == "application_status" then e.applicationStatus
    else if field == "received_at" then format(e.receivedAt)
    else if field == "job_title" then e.jobTitle.GetOr("")
    else if field == "subject" then e.subject
    else if field == "email_from" then e.emailFrom
    else e.id
  }

  /** One mail's CSV line: its cells in the order of the selected fields. */
  function CsvRow(e: Email, fields: seq<string>, format: int -> string): (r: seq<string>)
    ensures |r| == |fields|
  {
    seq(|fields|, i requires 0 <= i < |fields| => Cell(e, fields[i], format))
  }

  /** The lines of the CSV file: the header line, then one line per mail. */
  function CsvLines(emails: seq<Email>, publiclyDeployed: bool, format: int -> string): seq<seq<string>>
  {
    [Headers(publiclyDeployed)]
    + seq(|emails|, k requires 0 <= k < |emails| => CsvRow(emails[k], SelectedFields(publiclyDeployed), format))
  }

  /** `process_csv`: the lines written, one `writerow` per loop step, or why nothing was written. */
  method ProcessCsv(userId: string, emails: seq<Email>, publiclyDeployed: bool, format: int -> string)
    returns (r: Response<seq<seq<string>>>)
    ensures userId == "" ==> r == LogoutRedirect()
    ensures userId != "" && emails == [] ==> r == NoData()
    ensures userId != "" && emails != [] ==> r == Done(CsvLines(emails, publiclyDeployed, format))
  {
    if userId == "" {
      return LogoutRedirect();
    }
    if emails == [] {
      return NoData();
    }
    var fields := SelectedFields(publiclyDeployed);
    var lines := [Headers(publiclyDeployed)];
    var k := 0;
    while k < |emails|
      invariant 0 <= k <= |emails|
      invariant lines == CsvLines(emails[..k], publiclyDeployed, format)
    {
      lines := lines + [CsvRow(emails[k], fields, format)];
      k := k + 1;
    }
    assert emails[..k] == emails;
    r := Done(lines);
  }

  /**
   * Every line has one cell per header, the n-th cell of a mail's line is its
   * n-th selected column, and "Message ID" appears exactly when not publicly deployed.
   */
  lemma CsvShape(emails: seq<Email>, publiclyDeployed: bool, format: int -> string)
    ensures var lines := CsvLines(emails, publiclyDeployed, format);
      && |lines| == |emails| + 1
      && lines[0] == Headers(publiclyDeployed)
      && (forall k :: 0 <= k < |lines| ==> |lines[k]| == |Headers(publiclyDeployed)|)
      && (forall k, n :: 0 <= k < |emails| && 0 <= n < |Headers(publiclyDeployed)| ==>
            lines[k + 1][n] == Cell(emails[k], SelectedFields(publiclyDeployed)[n], format))
    ensures ("Message ID" in Headers(publiclyDeployed)) <==> !publiclyDeployed
    ensures |Headers(publiclyDeployed)| == if publiclyDeployed then 6 else 7
  {
    var h := Headers(publiclyDeployed);
    if !publiclyDeployed {
      assert h[6] == "Message ID";
    } else {
      // No header of a public deployment is ten characters long.
      var lens := [12, 18, 11, 9, 7, 6];
      assert forall n :: 0 <= n < |h| ==> |h[n]| == lens[n];
    }
  }

  /** The id column holds the message id; the other columns hold the named fields. */
  lemma CsvCells(e: Email, format: int -> string)
    ensures CsvRow(e, SelectedFields(false), format)
            == [e.companyName, e.applicationStatus, format(e.receivedAt), e.jobTitle.GetOr(""),
                e.subject, e.emailFrom, e.id]
    ensures CsvRow(e, SelectedFields(true), format)
            == [e.companyName, e.applicationStatus, format(e.receivedAt), e.jobTitle.GetOr(""),
                e.subject, e.emailFrom]
  {
    var f := SelectedFields(false);
    assert f == ["company_name", "application_status", "received_at", "job_title", "subject", "email_from", "id"];
    assert SelectedFields(true) == f[..6];
  }

  // ------------------------------------------------------------ Sankey

  /** The key of a company-job combination: a missing or empty title reads "Unknown Position". */
  function SankeyKey(e: Email): string
  {
    var title := if e.jobTitle.Some? && e.jobTitle.value != "" then Strip(e.jobTitle.value) else "Unknown Position";
    Strip(e.companyName) + "-" + title
  }

  /** The keys of the mails seen so far. */
  function SeenKeys(es: seq<Email>): set<string>
  {
    if es == [] then {} else SeenKeys(es[..|es| - 1]) + {SankeyKey(es[|es| - 1])}
  }

  /** The statuses of the mails that were the first with their key, in order. */
  function FirstStatuses(es: seq<Email>): seq<string>
  {
    if es == [] then []
    else
      var init, last := es[..|es| - 1], es[|es| - 1];
      FirstStatuses(init) + (if SankeyKey(last) in SeenKeys(init) then [] else [StatusKey(last)])
  }

  /** One status per key seen, so no more statuses than mails. */
  lemma {:induction false} FirstStatusesCount(es: seq<Email>)
    ensures |FirstStatuses(es)| == |SeenKeys(es)| <= |es|
    ensures forall k :: k in SeenKeys(es) <==> exists e :: e in es && SankeyKey(e) == k
  {
    FirstStatusesLength(es);
    SeenKeysMembers(es);
  }

  lemma {:induction false} FirstStatusesLength(es: seq<Email>)
    ensures |FirstStatuses(es)| == |SeenKeys(es)| <= |es|
  {
    if es != [] {
      var init, last := es[..|es| - 1], es[|es| - 1];
      FirstStatusesLength(init);
      if SankeyKey(last) in SeenKeys(init) {
        assert SeenKeys(es) == SeenKeys(init);
      } else {
        assert |SeenKeys(init) + {SankeyKey(last)}| == |SeenKeys(init)| + 1;
      }
    }
  }

  lemma {:induction false} SeenKeysMembers(es: seq<Email>)
    ensures forall k :: k in SeenKeys(es) <==> exists e :: e in es && SankeyKey(e) == k
  {
    if es != [] {
      var init, last := es[..|es| - 1], es[|es| - 1];
      SeenKeysMembers(init);
      assert es == init + [last];
      forall k | k in SeenKeys(es) ensures exists e :: e in es && SankeyKey(e) == k {
        if k != SankeyKey(last) {
          assert k in SeenKeys(init);
          var e :| e in init && SankeyKey(e) == k;
          assert e in es;
        } else {
          assert last in es;
        }
      }
      forall k | exists e :: e in es && SankeyKey(e) == k ensures k in SeenKeys(es) {
        var e :| e in es && SankeyKey(e) == k;
        if e != last {
          assert e in init;
        }
      }
    }
  }

  /** Visiting one more mail adds its key, and its status when the key is new. */
  lemma FirstStatusesSnoc(es: seq<Email>, e: Email)
    ensures SeenKeys(es + [e]) == SeenKeys(es) + {SankeyKey(e)}
    ensures FirstStatuses(es + [e]) == FirstStatuses(es) + (if SankeyKey(e) in SeenKeys(es) then [] else [StatusKey(e)])
  {
    assert (es + [e])[..|es|] == es;
  }

  /** The loop of `process_sankey`: the keys seen, the count per status and per first-seen key. */
  method CountApplications(emails: seq<Email>)
    returns (uniqueApplications: set<string>, statusCounts: Counter<string>, uniqueStatusCounts: Counter<string>)
    ensures uniqueApplications == SeenKeys(emails)
    ensures statusCounts == Tally(StatusKeys(emails))
    ensures uniqueStatusCounts == Tally(FirstStatuses(emails))
  {
    uniqueApplications, statusCounts, uniqueStatusCounts := {}, [], [];
    var i := 0;
    while i < |emails|
      invariant 0 <= i <= |emails|
      invariant uniqueApplications == SeenKeys(emails[..i])
      invariant statusCounts == Tally(StatusKeys(emails[..i]))
      invariant uniqueStatusCounts == Tally(FirstStatuses(emails[..i]))
    {
      var e := emails[i];
      var key := SankeyKey(e);
      var status := StatusKey(e);
      CountStep(emails, i);
      statusCounts := Increment(statusCounts, status);
      if key !in uniqueApplications {
        uniqueApplications := uniqueApplications + {key};
        uniqueStatusCounts := Increment(uniqueStatusCounts, status);
      }
      i := i + 1;
    }
    assert emails[..i] == emails;
  }

  /** What the mail at `i` does to the three tallies of `CountApplications`. */
  lemma CountStep(emails: seq<Email>, i: nat)
    requires i < |emails|
    ensures SeenKeys(emails[..i + 1]) == SeenKeys(emails[..i]) + {SankeyKey(emails[i])}
    ensures Tally(StatusKeys(emails[..i + 1])) == Increment(Tally(StatusKeys(emails[..i])), StatusKey(emails[i]))
    ensures Tally(FirstStatuses(emails[..i + 1])) ==
      if SankeyKey(emails[i]) in SeenKeys(emails[..i]) then Tally(FirstStatuses(emails[..i]))
      else Increment(Tally(FirstStatuses(emails[..i])), StatusKey(emails[i]))
  {
    var seen, e := emails[..i], emails[i];
    assert emails[..i + 1] == seen + [e];
    FirstStatusesSnoc(seen, e);
    TallySnoc(StatusKeys(seen), StatusKey(e));
    assert StatusKeys(seen + [e]) == StatusKeys(seen) + [StatusKey(e)];
    if SankeyKey(e) !in SeenKeys(seen) {
      TallySnoc(FirstStatuses(seen), StatusKey(e));
    } else {
      assert FirstStatuses(seen + [e]) == FirstStatuses(seen);
    }
  }


  datatype SankeyCounts = SankeyCounts(
    uniqueApplications: nat,
    offers: nat,
    rejected: nat,
    interviews: nat,
    availability: nat,
    assessments: nat,
    awaitingResponse: nat,
    ghosted: nat)

  /** The statuses behind the seven links out of "Unique Applications", in link order. */
  const SankeyLabels: seq<string> :=
    ["Offer made", "Rejection", "Interview invitation", "Availability request", "Assessment sent",
     "Action required from company", "Applied"]

  function SankeyOf(unique: set<string>, c: Counter<string>): SankeyCounts
  {
    SankeyCounts(|unique|, Get(c, "Offer made"), Get(c, "Rejection"), Get(c, "Interview invitation"),
                 Get(c, "Availability request"), Get(c, "Assessment sent"),
                 Get(c, "Action required from company"), Get(c, "Applied"))
  }

  /** The link values the diagram draws. */
  function Links(s: SankeyCounts): seq<nat>
  {
    [s.offers, s.rejected, s.interviews, s.availability, s.assessments, s.awaitingResponse, s.ghosted]
  }

  function SankeyFor(emails: seq<Email>): SankeyCounts
  {
    SankeyOf(SeenKeys(emails), Tally(FirstStatuses(emails)))
  }

  /** `process_sankey`: the counts the diagram draws, or why there is none. */
  method ProcessSankey(userId: string, emails: seq<Email>) returns (r: Response<SankeyCounts>)
    ensures userId == "" ==> r == LogoutRedirect()
    ensures userId != "" && emails == [] ==> r == NoData()
    ensures userId != "" && emails != [] ==> r == Done(SankeyFor(emails))
  {
    if userId == "" {
      return LogoutRedirect();
    }
    if emails == [] {
      return NoData();
    }
    var unique, _, uniqueStatusCounts := CountApplications(emails);
    r := Done(SankeyOf(unique, uniqueStatusCounts));
  }

  /**
   * Each link counts the first-seen mails of its status, and together the seven
   * links never exceed the unique applications, which never exceed the mails.
   */
  lemma SankeyLinksWithinUnique(emails: seq<Email>)
    ensures var s := SankeyFor(emails);
      && s.uniqueApplications <= |emails|
      && Links(s)[0] + Links(s)[1] + Links(s)[2] + Links(s)[3] + Links(s)[4] + Links(s)[5] + Links(s)[6]
         <= s.uniqueApplications
    ensures forall n :: 0 <= n < 7 ==> Links(SankeyFor(emails))[n] == Occurrences(FirstStatuses(emails), SankeyLabels[n])
  {
    var fs := FirstStatuses(emails);
    var c := Tally(fs);
    FirstStatusesCount(emails);
    TallyTotal(fs);
    LinksAreLookups(c, SeenKeys(emails));
    LinksWithinTotal(c);
    forall n | 0 <= n < 7 ensures Links(SankeyFor(emails))[n] == Occurrences(fs, SankeyLabels[n]) {
      TallyGet(fs, SankeyLabels[n]);
    }
  }

  /** Link n is the lookup of the n-th label. */
  lemma LinksAreLookups(c: Counter<string>, unique: set<string>)
    ensures forall n :: 0 <= n < 7 ==> Links(SankeyOf(unique, c))[n] == Get(c, SankeyLabels[n])
  {
  }

  /** Lookups of distinct labels never add up to more than the total. */
  lemma LinksWithinTotal(c: Counter<string>)
    requires DistinctKeys(c)
    ensures Get(c, SankeyLabels[0]) + Get(c, SankeyLabels[1]) + Get(c, SankeyLabels[2]) + Get(c, SankeyLabels[3])
            + Get(c, SankeyLabels[4]) + Get(c, SankeyLabels[5]) + Get(c, SankeyLabels[6]) <= Total(c)
  {
    SankeyLabelsDistinct();
    SumGetsPlusRest(c, SankeyLabels);
    SumGetsSeven(c, SankeyLabels);
  }

  lemma SumGetsSeven(c: Counter<string>, l: seq<string>)
    requires |l| == 7
    ensures SumGets(c, l) == Get(c, l[0]) + Get(c, l[1]) + Get(c, l[2]) + Get(c, l[3]) + Get(c, l[4])
                             + Get(c, l[5]) + Get(c, l[6])
  {
    var l1 := l[1..];
    var l2 := l1[1..];
    var l3 := l2[1..];
    var l4 := l3[1..];
    var l5 := l4[1..];
    var l6 := l5[1..];
    assert l6[1..] == [];
    assert SumGets(c, l6) == Get(c, l[6]);
    assert SumGets(c, l5) == Get(c, l[5]) + SumGets(c, l6);
    assert SumGets(c, l4) == Get(c, l[4]) + SumGets(c, l5);
    assert SumGets(c, l3) == Get(c, l[3]) + SumGets(c, l4);
    assert SumGets(c, l2) == Get(c, l[2]) + SumGets(c, l3);
    assert SumGets(c, l1) == Get(c, l[1]) + SumGets(c, l2);
  }

  lemma SankeyLabelsDistinct()
    ensures Distinct(SankeyLabels)
  {
    var l := SankeyLabels;
    // No two labels agree in both their length and their first letter.
    var lens := [10, 9, 20, 20, 15, 28, 7];
    var firsts := ['O', 'R', 'I', 'A', 'A', 'A', 'A'];
    assert forall k :: 0 <= k < 7 ==> |l[k]| == lens[k] && l[k][0] == firsts[k];
    forall i, j | 0 <= i < j < 7 ensures l[i] != l[j] {
      assert lens[i] != lens[j] || firsts[i] != firsts[j];
    }
  }

  /**
   * The key joins company and title with "-", so two different combinations can
   * share a key and count as one application: ("A-B", "C") and ("A", "B-C").
   */
  lemma SankeyKeysCollide(a: string, b: string, c: string, e1: Email, e2: Email)
    requires IsStripped(a) && IsStripped(b) && IsStripped(c) && c != ""
    requires e1.companyName == a + "-" + b && e1.jobTitle == Some(c)
    requires e2.companyName == a && e2.jobTitle == Some(b + "-" + c)
    ensures (e1.companyName, e1.jobTitle) != (e2.companyName, e2.jobTitle)
    ensures SankeyKey(e1) == SankeyKey(e2)
  {
    var ab, bc := a + "-" + b, b + "-" + c;
    assert ab[|a|] == '-';
    if |a| > 0 { assert ab[0] == a[0]; }
    if |b| > 0 { assert ab[|ab| - 1] == b[|b| - 1]; }
    assert bc[|bc| - 1] == c[|c| - 1];
    if |b| > 0 { assert bc[0] == b[0]; }
    StripStripped(ab);
    StripStripped(a);
    StripStripped(bc);
    StripStripped(c);
    assert |ab| != |a|;
    assert ab + "-" + c == a + "-" + bc;
  }

  // --------------------------------------------------------- pie chart

  /** The loop of `process_pie_chart`. */
  method CountStatuses(emails: seq<Email>) returns (statusCounts: Counter<string>)
    ensures statusCounts == Tally(StatusKeys(emails))
  {
    statusCounts := [];
    var i := 0;
    while i < |emails|
      invariant 0 <= i <= |emails|
      invariant statusCounts == Tally(StatusKeys(emails[..i]))
    {
      assert emails[..i + 1][..i] == emails[..i];
      TallySnoc(StatusKeys(emails[..i]), StatusKey(emails[i]));
      statusCounts := Increment(statusCounts, StatusKey(emails[i]));
      i := i + 1;
    }
    assert emails[..i] == emails;
  }

  /** `process_pie_chart`: the slices (label and count, in first-seen order), or why there are none. */
  method ProcessPieChart(userId: string, emails: seq<Email>) returns (r: Response<Counter<string>>)
    ensures userId == "" ==> r == LogoutRedirect()
    ensures userId != "" && emails == [] ==> r == NoData()
    ensures userId != "" && emails != [] ==> r == Done(Tally(StatusKeys(emails)))
  {
    if userId == "" {
      return LogoutRedirect();
    }
    if emails == [] {
      return NoData();
    }
    var c := CountStatuses(emails);
    r := Done(c);
  }

  /**
   * The pie has one slice per stripped status, each the number of mails with it,
   * and the slices add up to all the mails; the Sankey loop counts the same way.
   */
  lemma PieSlicesFacts(emails: seq<Email>)
    ensures var c := Tally(StatusKeys(emails));
      && DistinctKeys(c)
      && Total(c) == |emails|
      && (forall x :: x in Keys(c) <==> exists e :: e in emails && StatusKey(e) == x)
      && (forall x :: Get(c, x) == Occurrences(StatusKeys(emails), x))
  {
    TallyTotal(StatusKeys(emails));
    TallyGets(StatusKeys(emails));
    PieSliceKeys(emails);
  }

  lemma PieSliceKeys(emails: seq<Email>)
    ensures forall x :: x in Keys(Tally(StatusKeys(emails))) <==> exists e :: e in emails && StatusKey(e) == x
  {
    TallyKeys(StatusKeys(emails));
    StatusKeysMembers(emails);
  }

  lemma StatusKeysMembers(emails: seq<Email>)
    ensures forall x :: x in StatusKeys(emails) <==> exists e :: e in emails && StatusKey(e) == x
  {
    var ks := StatusKeys(emails);
    forall x | x in ks ensures exists e :: e in emails && StatusKey(e) == x {
      var i :| 0 <= i < |ks| && ks[i] == x;
      assert emails[i] in emails;
    }
    forall x | exists e :: e in emails && StatusKey(e) == x ensures x in ks {
      var e :| e in emails && StatusKey(e) == x;
      var i :| 0 <= i < |emails| && emails[i] == e;
      assert ks[i] == x;
    }
  }

  // ------------------------------------------------------ weekly graph

  /** The day of a time, counted from 1970-01-01. */
  function DayNumber(t: int): int
  {
    t / SecondsPerDay
  }

  /** `date.weekday()`: Monday is 0; 1970-01-01 was a Thursday. */
  function Weekday(day: int): (r: int)
    ensures 0 <= r < 7
  {
    (day + 3) % 7
  }

  /** The Monday starting the week of a time, as a day number. */
  function WeekStart(t: int): (r: int)
  {
    DayNumber(t) - Weekday(DayNumber(t))
  }

  /** The week start is a Monday, no later than the mail's day and less than a week before it. */
  lemma WeekStartIsMonday(t: int)
    ensures Weekday(WeekStart(t)) == 0
    ensures WeekStart(t) <= DayNumber(t) < WeekStart(t) + 7
  {
    var d := DayNumber(t);
    var w := Weekday(d);
    assert (d - w + 3) % 7 == 0 by {
      assert d + 3 == 7 * ((d + 3) / 7) + w;
      assert d - w + 3 == 7 * ((d + 3) / 7);
    }
  }

  /** Two times in the same Monday-to-Sunday week share their week key. */
  lemma SameWeekSameKey(t1: int, t2: int)
    requires WeekStart(t1) <= DayNumber(t2) < WeekStart(t1) + 7
    ensures WeekStart(t2) == WeekStart(t1)
  {
    WeekStartIsMonday(t1);
    WeekStartIsMonday(t2);
    var m1, m2 := WeekStart(t1), WeekStart(t2);
    assert (m1 + 3) % 7 == 0 && (m2 + 3) % 7 == 0;
    assert (m1 + 3) == 7 * ((m1 + 3) / 7);
    assert (m2 + 3) == 7 * ((m2 + 3) / 7);
    assert -7 < m1 - m2 < 7;
  }

  function WeekKeys(es: seq<Email>): (r: seq<int>)
    ensures |r| == |es|
    ensures forall i :: 0 <= i < |es| ==> r[i] == WeekStart(es[i].receivedAt)
  {
    if es == [] then [] else WeekKeys(es[..|es| - 1]) + [WeekStart(es[|es| - 1].receivedAt)]
  }

  /** The loop of `process_weekly_graph` that fills `weekly_counts`. */
  method CountWeeks(emails: seq<Email>) returns (weeklyCounts: Counter<int>)
    ensures weeklyCounts == Tally(WeekKeys(emails))
  {
    weeklyCounts := [];
    var i := 0;
    while i < |emails|
      invariant 0 <= i <= |emails|
      invariant weeklyCounts == Tally(WeekKeys(emails[..i]))
    {
      assert emails[..i + 1][..i] == emails[..i];
      var week := WeekStart(emails[i].receivedAt);
      TallySnoc(WeekKeys(emails[..i]), week);
      weeklyCounts := Increment(weeklyCounts, week);
      i := i + 1;
    }
    assert emails[..i] == emails;
  }

  /** Keys in strictly ascending order. */
  predicate Ascending(c: Counter<int>)
  {
    forall i, j :: 0 <= i < j < |c| ==> c[i].0 < c[j].0
  }

  /** Insert an entry before the first entry with a larger key. */
  function InsertByKey(s: Counter<int>, x: (int, nat)): Counter<int>
  {
    if s == [] then [x]
    else if s[0].0 < x.0 then [s[0]] + InsertByKey(s[1..], x)
    else [x] + s
  }

  /** `sorted(d.items())` for a dict with integer keys. */
  function SortByKey(c: Counter<int>): Counter<int>
  {
    if c == [] then [] else InsertByKey(SortByKey(c[..|c| - 1]), c[|c| - 1])
  }

  lemma {:induction false} InsertByKeyContents(s: Counter<int>, x: (int, nat))
    ensures multiset(InsertByKey(s, x)) == multiset(s) + multiset{x}
    ensures Total(InsertByKey(s, x)) == Total(s) + x.1
  {
    if s != [] {
      if s[0].0 < x.0 {
        InsertByKeyContents(s[1..], x);
        assert s == [s[0]] + s[1..];
      } else {
        TotalAppend([x], s);
      }
    }
  }

  /** Inserting above a bound that every key clears keeps every key above it. */
  lemma {:induction false} InsertByKeyAbove(s: Counter<int>, x: (int, nat), b: int)
    requires forall i :: 0 <= i < |s| ==> b < s[i].0
    requires b < x.0
    ensures forall i :: 0 <= i < |InsertByKey(s, x)| ==> b < InsertByKey(s, x)[i].0
  {
    if s != [] && s[0].0 < x.0 {
      assert forall i :: 0 <= i < |s[1..]| ==> s[1..][i] == s[i + 1];
      InsertByKeyAbove(s[1..], x, b);
    }
  }

  lemma {:induction false} InsertByKeyOrdered(s: Counter<int>, x: (int, nat))
    requires Ascending(s)
    requires forall i :: 0 <= i < |s| ==> s[i].0 != x.0
    ensures Ascending(InsertByKey(s, x))
  {
    if s != [] {
      var tail := s[1..];
      assert forall i :: 0 <= i < |tail| ==> tail[i] == s[i + 1];
      if s[0].0 < x.0 {
        InsertByKeyOrdered(tail, x);
        InsertByKeyAbove(tail, x, s[0].0);
        var t := InsertByKey(tail, x);
        var r := [s[0]] + t;
        forall i, j | 0 <= i < j < |r| ensures r[i].0 < r[j].0 {
          assert r[j] == t[j - 1];
          if i > 0 {
            assert r[i] == t[i - 1];
          }
        }
      } else {
        var r := [x] + s;
        forall i, j | 0 <= i < j < |r| ensures r[i].0 < r[j].0 {
          assert r[j] == s[j - 1];
          if i > 0 {
            assert r[i] == s[i - 1];
          }
        }
      }
    }
  }

  /** A reordering of entries none of which has key `k` has none either. */
  lemma KeyAbsentAfterReorder(s: Counter<int>, t: Counter<int>, k: int)
    requires multiset(s) == multiset(t)
    requires forall m :: 0 <= m < |t| ==> t[m].0 != k
    ensures forall i :: 0 <= i < |s| ==> s[i].0 != k
  {
    forall i | 0 <= i < |s| ensures s[i].0 != k {
      assert s[i] in multiset(t);
      var m :| 0 <= m < |t| && t[m] == s[i];
    }
  }

  /** Dropping the last entry keeps the keys distinct, and the last key is not among the rest. */
  lemma DistinctKeysInit<K>(c: Counter<K>, init: Counter<K>)
    requires DistinctKeys(c) && c != [] && init == c[..|c| - 1]
    ensures DistinctKeys(init)
    ensures forall m :: 0 <= m < |init| ==> init[m].0 != c[|c| - 1].0
  {
    assert forall i :: 0 <= i < |init| ==> init[i] == c[i];
  }

  /** `sorted(d.items())` of a dict with integer keys: keys ascending, every entry kept. */
  lemma {:induction false} SortByKeyFacts(c: Counter<int>)
    requires DistinctKeys(c)
    ensures Ascending(SortByKey(c))
    ensures multiset(SortByKey(c)) == multiset(c)
  {
    if c != [] {
      var init, last := c[..|c| - 1], c[|c| - 1];
      DistinctKeysInit(c, init);
      SortByKeyFacts(init);
      var s := SortByKey(init);
      KeyAbsentAfterReorder(s, init, last.0);
      InsertByKeyContents(s, last);
      InsertByKeyOrdered(s, last);
      assert c == init + [last];
    }
  }

  /** Sorting keeps the total. */
  lemma {:induction false} SortByKeyTotal(c: Counter<int>)
    ensures Total(SortByKey(c)) == Total(c)
  {
    if c != [] {
      var init, last := c[..|c| - 1], c[|c| - 1];
      SortByKeyTotal(init);
      InsertByKeyContents(SortByKey(init), last);
      assert c == init + [last];
      TotalAppend(init, [last]);
    }
  }

  /** The two series of the weekly graph. */
  datatype WeeklyGraph = WeeklyGraph(weeks: seq<int>, counts: seq<nat>)

  function GraphOf(sorted: Counter<int>): (g: WeeklyGraph)
    ensures |g.weeks| == |g.counts| == |sorted|
  {
    WeeklyGraph(seq(|sorted|, i requires 0 <= i < |sorted| => sorted[i].0),
                seq(|sorted|, i requires 0 <= i < |sorted| => sorted[i].1))
  }

  function WeeklyGraphFor(emails: seq<Email>): WeeklyGraph
  {
    GraphOf(SortByKey(Tally(WeekKeys(emails))))
  }

  /** `process_weekly_graph`: the weeks and their counts, or why there are none. */
  method ProcessWeeklyGraph(userId: string, emails: seq<Email>) returns (r: Response<WeeklyGraph>)
    ensures userId == "" ==> r == LogoutRedirect()
    ensures userId != "" && emails == [] ==> r == NoData()
    ensures userId != "" && emails != [] ==> r == Done(WeeklyGraphFor(emails))
  {
    if userId == "" {
      return LogoutRedirect();
    }
    if emails == [] {
      return NoData();
    }
    var weekly := CountWeeks(emails);
    r := Done(GraphOf(SortByKey(weekly)));
  }

  function SumNats(s: seq<nat>): nat
  {
    if s == [] then 0 else s[0] + SumNats(s[1..])
  }

  lemma {:induction false} SumNatsTotal(c: Counter<int>)
    ensures SumNats(GraphOf(c).counts) == Total(c)
  {
    if c != [] {
      SumNatsTotal(c[1..]);
      assert GraphOf(c).counts[1..] == GraphOf(c[1..]).counts;
    }
  }

  /** The weeks drawn are the keys of the counter they were sorted from. */
  lemma WeeksAreKeys(c: Counter<int>)
    requires DistinctKeys(c)
    ensures forall w :: w in GraphOf(SortByKey(c)).weeks <==> w in Keys(c)
    ensures forall i, j :: 0 <= i < j < |GraphOf(SortByKey(c)).weeks| ==>
              GraphOf(SortByKey(c)).weeks[i] < GraphOf(SortByKey(c)).weeks[j]
  {
    SortByKeyFacts(c);
    var s := SortByKey(c);
    var g := GraphOf(s);
    forall w ensures w in g.weeks <==> w in Keys(c) {
      if w in g.weeks {
        var i :| 0 <= i < |g.weeks| && g.weeks[i] == w;
        assert s[i] in multiset(c);
        var m :| 0 <= m < |c| && c[m] == s[i];
      }
      if w in Keys(c) {
        var m :| 0 <= m < |c| && c[m].0 == w;
        assert c[m] in multiset(s);
        var i :| 0 <= i < |s| && s[i] == c[m];
        assert g.weeks[i] == w;
      }
    }
  }

  /** A week key belongs to some mail, and every mail has one. */
  lemma WeekKeysMembers(emails: seq<Email>)
    ensures forall w :: w in WeekKeys(emails) <==> exists e :: e in emails && WeekStart(e.receivedAt) == w
  {
    var ks := WeekKeys(emails);
    forall w | w in ks ensures exists e :: e in emails && WeekStart(e.receivedAt) == w {
      var n :| 0 <= n < |ks| && ks[n] == w;
      assert emails[n] in emails;
    }
    forall w | exists e :: e in emails && WeekStart(e.receivedAt) == w ensures w in ks {
      var e :| e in emails && WeekStart(e.receivedAt) == w;
      var n :| 0 <= n < |emails| && emails[n] == e;
      assert ks[n] == w;
    }
  }

  /**
   * The weeks come out in ascending order, each a Monday on which some mail's
   * week starts and only such, and the counts add up to all the mails.
   */
  lemma WeeklyGraphFacts(emails: seq<Email>)
    ensures var g := WeeklyGraphFor(emails);
      && (forall i, j :: 0 <= i < j < |g.weeks| ==> g.weeks[i] < g.weeks[j])
      && (forall w :: w in g.weeks <==> exists e :: e in emails && WeekStart(e.receivedAt) == w)
      && (forall w :: w in g.weeks ==> Weekday(w) == 0)
      && SumNats(g.counts) == |emails|
  {
    var ks := WeekKeys(emails);
    var c := Tally(ks);
    TallyTotal(ks);
    TallyKeys(ks);
    WeekKeysMembers(emails);
    WeeksAreKeys(c);
    SortByKeyTotal(c);
    SumNatsTotal(SortByKey(c));
    var g := WeeklyGraphFor(emails);
    forall w | w in g.weeks ensures Weekday(w) == 0 {
      var e :| e in emails && WeekStart(e.receivedAt) == w;
      WeekStartIsMonday(e.receivedAt);
    }
  }
}
