/**
 * The integer part of the user statistics endpoint: counts by status and by
 * company, the first and last mail, the 7- and 30-day windows, the status
 * breakdown, the response counts and the company and status rankings.
 */
module StatsRoutes {
  import opened Wrappers
  import opened Strings
  import opened Counts
  import opened JobEmails

  /** The status a mail is counted under: its stored status, stripped. */
  function StatusKey(e: Email): string
  {
    Strip(e.applicationStatus)
  }

  /** A company is counted when, stripped, it is non-empty and not "unknown" in any case. */
  predicate CountsCompany(e: Email)
  {
    Strip(e.companyName) != "" && Lower(Strip(e.companyName)) != "unknown"
  }

  /** The status keys of the mails, in order. */
  function StatusKeys(es: seq<Email>): (r: seq<string>)
    ensures |r| == |es|
    ensures forall i :: 0 <= i < |es| ==> r[i] == StatusKey(es[i])
  {
    if es == [] then [] else StatusKeys(es[..|es| - 1]) + [StatusKey(es[|es| - 1])]
  }

  /** The company keys of the mails whose company is counted, in order. */
  function CompanyKeys(es: seq<Email>): seq<string>
  {
    if es == [] then []
    else CompanyKeys(es[..|es| - 1])
         + (if CountsCompany(es[|es| - 1]) then [Strip(es[|es| - 1].companyName)] else [])
  }

  /** Every company key comes from a counted mail, and every counted mail gives one. */
  lemma {:induction false} CompanyKeysFacts(es: seq<Email>)
    ensures forall c :: c in CompanyKeys(es) <==> exists e :: e in es && CountsCompany(e) && Strip(e.companyName) == c
    ensures forall c :: c in CompanyKeys(es) ==> c != "" && Lower(c) != "unknown"
    ensures |CompanyKeys(es)| <= |es|
  {
    if es != [] {
      var init, last := es[..|es| - 1], es[|es| - 1];
      CompanyKeysFacts(init);
      assert es == init + [last];
      forall c | c in CompanyKeys(es)
        ensures exists e :: e in es && CountsCompany(e) && Strip(e.companyName) == c
      {
        if c !in CompanyKeys(init) {
          assert last in es;
        } else {
          var e :| e in init && CountsCompany(e) && Strip(e.companyName) == c;
          assert e in es;
        }
      }
      forall c | exists e :: e in es && CountsCompany(e) && Strip(e.companyName) == c
        ensures c in CompanyKeys(es)
      {
        var e :| e in es && CountsCompany(e) && Strip(e.companyName) == c;
        if e != last {
          assert e in init;
        }
      }
    }
  }

  /** The loop over the mails that fills the status and company dicts. */
  method CountStatusesAndCompanies(emails: seq<Email>) returns (statusCounts: Counter<string>, companyCounts: Counter<string>)
    ensures statusCounts == Tally(StatusKeys(emails))
    ensures companyCounts == Tally(CompanyKeys(emails))
  {
    statusCounts, companyCounts := [], [];
    var i := 0;
    while i < |emails|
      invariant 0 <= i <= |emails|
      invariant statusCounts == Tally(StatusKeys(emails[..i]))
      invariant companyCounts == Tally(CompanyKeys(emails[..i]))
    {
      var e := emails[i];
      assert emails[..i + 1][..i] == emails[..i];
      TallySnoc(StatusKeys(emails[..i]), StatusKey(e));
      statusCounts := Increment(statusCounts, StatusKey(e));
      if CountsCompany(e) {
        TallySnoc(CompanyKeys(emails[..i]), Strip(e.companyName));
        companyCounts := Increment(companyCounts, Strip(e.companyName));
      } else {
        assert CompanyKeys(emails[..i + 1]) == CompanyKeys(emails[..i]);
      }
      i := i + 1;
    }
    assert emails[..i] == emails;
  }

  /** The received time of the first mail once sorted by received time. */
  function Earliest(es: seq<Email>): (r: int)
    requires es != []
    ensures exists i :: 0 <= i < |es| && es[i].receivedAt == r
    ensures forall i :: 0 <= i < |es| ==> r <= es[i].receivedAt
  {
    if |es| == 1 then es[0].receivedAt
    else
      var m := Earliest(es[1..]);
      assert forall i :: 1 <= i < |es| ==> es[i] == es[1..][i - 1];
      if es[0].receivedAt <= m then es[0].receivedAt else m
  }

  /** The received time of the last mail once sorted by received time. */
  function Latest(es: seq<Email>): (r: int)
    requires es != []
    ensures exists i :: 0 <= i < |es| && es[i].receivedAt == r
    ensures forall i :: 0 <= i < |es| ==> es[i].receivedAt <= r
  {
    if |es| == 1 then es[0].receivedAt
    else
      var m := Latest(es[1..]);
      assert forall i :: 1 <= i < |es| ==> es[i] == es[1..][i - 1];
      if m <= es[0].receivedAt then es[0].receivedAt else m
  }

  /** `sum(1 for e in emails if (now - e.received_at).days <= days)`. */
  function CountWithin(es: seq<Email>, now: int, days: int): (r: nat)
  {
    if es == [] then 0
    else (if DaysBetween(now, es[0].receivedAt) <= days then 1 else 0) + CountWithin(es[1..], now, days)
  }

  /** A wider window counts at least as many mails, and no window counts more than all of them. */
  lemma {:induction false} CountWithinMonotone(es: seq<Email>, now: int, d1: int, d2: int)
    requires d1 <= d2
    ensures CountWithin(es, now, d1) <= CountWithin(es, now, d2) <= |es|
  {
    if es != [] {
      CountWithinMonotone(es[1..], now, d1, d2);
    }
  }

  /** The response rate: `responses / applications * 100`, or 0 when there is nothing to divide by. */
  datatype Rate = NoRate | Ratio(responses: nat, applications: nat)

  datatype Overview = Overview(
    totalEmails: nat,
    uniqueCompanies: nat,
    totalApplications: nat,
    daysActive: nat,
    firstApplication: Option<int>,
    lastApplication: Option<int>,
    responseRate: Rate)

  datatype StatusBreakdown = StatusBreakdown(
    rejections: nat,
    interviews: nat,
    offers: nat,
    assessments: nat,
    awaitingResponse: nat,
    availabilityRequests: nat,
    informationRequests: nat,
    inboundRequests: nat,
    withdrew: nat,
    hiringFreeze: nat)

  datatype Activity = Activity(last7Days: nat, last30Days: nat)

  datatype Stats = Stats(
    overview: Overview,
    statusBreakdown: StatusBreakdown,
    activity: Activity,
    topCompanies: Counter<string>,
    statusDistribution: Counter<string>)

  /** The statuses that do not count as a response from the company. */
  const NonResponses: seq<string> := ["Applied", "Action required from company", "False positive"]

  /** The labels of the status breakdown, in the order of its fields. */
  const BreakdownLabels: seq<string> :=
    ["Rejection", "Interview invitation", "Offer made", "Assessment sent", "Action required from company",
     "Availability request", "Information request", "Did not apply - inbound request",
     "Withdrew application", "Hiring freeze notification"]

  function Breakdown(c: Counter<string>): StatusBreakdown
  {
    StatusBreakdown(
      Get(c, "Rejection"), Get(c, "Interview invitation"), Get(c, "Offer made"), Get(c, "Assessment sent"),
      Get(c, "Action required from company"), Get(c, "Availability request"), Get(c, "Information request"),
      Get(c, "Did not apply - inbound request"), Get(c, "Withdrew application"),
      Get(c, "Hiring freeze notification"))
  }

  /** Counts in non-increasing order. */
  predicate NonIncreasing<K>(s: Counter<K>)
  {
    forall i, j :: 0 <= i < j < |s| ==> s[i].1 >= s[j].1
  }

  /** Insert an entry after every entry that counts at least as much, as a stable sort does. */
  function InsertByCount<K>(s: Counter<K>, x: (K, nat)): Counter<K>
  {
    if s == [] then [x]
    else if s[0].1 >= x.1 then [s[0]] + InsertByCount(s[1..], x)
    else [x] + s
  }

  /** `sorted(items, key=count, reverse=True)`: a stable sort by count, highest first. */
  function SortByCount<K>(c: Counter<K>): Counter<K>
  {
    if c == [] then [] else InsertByCount(SortByCount(c[..|c| - 1]), c[|c| - 1])
  }

  lemma {:induction false} TotalAppend<K>(a: Counter<K>, b: Counter<K>)
    ensures Total(a + b) == Total(a) + Total(b)
  {
    if a == [] {
      assert a + b == b;
    } else {
      assert (a + b)[1..] == a[1..] + b;
      TotalAppend(a[1..], b);
    }
  }

  lemma {:induction false} InsertByCountContents<K>(s: Counter<K>, x: (K, nat))
    ensures multiset(InsertByCount(s, x)) == multiset(s) + multiset{x}
    ensures Total(InsertByCount(s, x)) == Total(s) + x.1
  {
    if s != [] {
      if s[0].1 >= x.1 {
        InsertByCountContents(s[1..], x);
        assert s == [s[0]] + s[1..];
      } else {
        TotalAppend([x], s);
      }
    }
  }

  lemma {:induction false} InsertByCountOrdered<K>(s: Counter<K>, x: (K, nat))
    requires NonIncreasing(s)
    ensures NonIncreasing(InsertByCount(s, x))
  {
    if s != [] && s[0].1 >= x.1 {
      InsertByCountOrdered(s[1..], x);
      InsertByCountContents(s[1..], x);
      HeadDominates(s, x, InsertByCount(s[1..], x));
      ConsOrdered(s[0], InsertByCount(s[1..], x));
    }
  }

  /** The head of an ordered counter counts at least as much as every entry of the rest with `x` inserted. */
  lemma HeadDominates<K>(s: Counter<K>, x: (K, nat), t: Counter<K>)
    requires NonIncreasing(s) && s != [] && s[0].1 >= x.1
    requires multiset(t) == multiset(s[1..]) + multiset{x}
    ensures forall k :: 0 <= k < |t| ==> s[0].1 >= t[k].1
  {
    forall k | 0 <= k < |t| ensures s[0].1 >= t[k].1 {
      assert t[k] in multiset(s[1..]) + multiset{x};
      if t[k] != x {
        assert t[k] in s[1..];
        var m :| 0 <= m < |s[1..]| && s[1..][m] == t[k];
        assert s[m + 1] == t[k];
      }
    }
  }

  lemma ConsOrdered<K>(a: (K, nat), t: Counter<K>)
    requires NonIncreasing(t)
    requires forall k :: 0 <= k < |t| ==> a.1 >= t[k].1
    ensures NonIncreasing([a] + t)
  {
    var r := [a] + t;
    forall i, j | 0 <= i < j < |r| ensures r[i].1 >= r[j].1 {
      assert r[j] == t[j - 1];
      if i > 0 {
        assert r[i] == t[i - 1];
      }
    }
  }

  /** Sorting by count keeps every entry, puts the counts in non-increasing order and keeps the total. */
  lemma {:induction false} SortByCountFacts<K>(c: Counter<K>)
    ensures NonIncreasing(SortByCount(c))
    ensures multiset(SortByCount(c)) == multiset(c)
    ensures Total(SortByCount(c)) == Total(c)
  {
    if c != [] {
      var init, last := c[..|c| - 1], c[|c| - 1];
      SortByCountFacts(init);
      InsertByCountContents(SortByCount(init), last);
      InsertByCountOrdered(SortByCount(init), last);
      LastSplit(c);
      TotalAppend(init, [last]);
    }
  }

  lemma LastSplit<T>(s: seq<T>)
    requires s != []
    ensures s == s[..|s| - 1] + [s[|s| - 1]]
    ensures multiset(s) == multiset(s[..|s| - 1]) + multiset{s[|s| - 1]}
  {
    assert s == s[..|s| - 1] + [s[|s| - 1]];
  }

  /** The overview, from the two counters and the mails. */
  function OverviewOf(statusCounts: Counter<string>, companyCounts: Counter<string>, emails: seq<Email>): Overview
  {
    var applications := Get(statusCounts, "Applied");
    if emails == [] then
      Overview(0, |companyCounts|, applications, 0, None, None, NoRate)
    else
      var first, last := Earliest(emails), Latest(emails);
      Overview(|emails|, |companyCounts|, applications, DaysBetween(last, first) + 1, Some(first), Some(last),
               if applications > 0 then Ratio(SumExcept(statusCounts, NonResponses), applications) else NoRate)
  }

  function ActivityOf(emails: seq<Email>, now: int): Activity
  {
    if emails == [] then Activity(0, 0)
    else Activity(CountWithin(emails, now, 7), CountWithin(emails, now, 30))
  }

  function StatsOf(statusCounts: Counter<string>, companyCounts: Counter<string>, emails: seq<Email>, now: int): Stats
  {
    Stats(OverviewOf(statusCounts, companyCounts, emails), Breakdown(statusCounts), ActivityOf(emails, now),
          Take(SortByCount(companyCounts), 10), SortByCount(statusCounts))
  }

  /** The statistics the endpoint reports, from the mails it reads and the time it reads the clock. */
  function UserStats(emails: seq<Email>, now: int): Stats
  {
    StatsOf(Tally(StatusKeys(emails)), Tally(CompanyKeys(emails)), emails, now)
  }

  /**
   * `get_user_stats`: 401 without a signed-in user; otherwise the statistics of
   * the user's mails, read from the store as `emails`, at the time `now`.
   */
  method GetUserStats(userId: string, emails: seq<Email>, now: int) returns (r: Response<Stats>)
    ensures userId == "" ==> r == Failure(401, "Unauthorized")
    ensures userId != "" ==> r == Done(UserStats(emails, now))
  {
    if userId == "" {
      return Failure(401, "Unauthorized");
    }
    var statusCounts, companyCounts := CountStatusesAndCompanies(emails);
    r := Done(StatsOf(statusCounts, companyCounts, emails, now));
  }

  /**
   * The total is the number of mails and the status counts add up to it; the
   * status distribution is those counts reordered, highest first.
   */
  lemma StatusCountsSumToTotal(emails: seq<Email>, now: int)
    ensures UserStats(emails, now).overview.totalEmails == |emails|
    ensures Total(Tally(StatusKeys(emails))) == |emails|
    ensures Total(UserStats(emails, now).statusDistribution) == |emails|
    ensures NonIncreasing(UserStats(emails, now).statusDistribution)
    ensures multiset(UserStats(emails, now).statusDistribution) == multiset(Tally(StatusKeys(emails)))
  {
    var c := Tally(StatusKeys(emails));
    TallyFacts(StatusKeys(emails));
    SortByCountFacts(c);
    assert UserStats(emails, now).statusDistribution == SortByCount(c);
    if emails != [] {
      assert UserStats(emails, now).overview == OverviewOf(c, Tally(CompanyKeys(emails)), emails);
    }
  }

  /**
   * The company counts hold exactly the stripped names of the counted companies,
   * never an empty one or "unknown", and the unique-company figure is their number.
   */
  lemma CompanyCountsFacts(emails: seq<Email>, now: int)
    ensures var cc := Tally(CompanyKeys(emails));
      forall c :: c in Keys(cc) <==> exists e :: e in emails && CountsCompany(e) && Strip(e.companyName) == c
    ensures forall c :: c in Keys(Tally(CompanyKeys(emails))) ==> c != "" && Lower(c) != "unknown"
    ensures UserStats(emails, now).overview.uniqueCompanies == |Keys(Tally(CompanyKeys(emails)))|
  {
    var cc := Tally(CompanyKeys(emails));
    TallyFacts(CompanyKeys(emails));
    CompanyKeysFacts(emails);
    KeysOfDistinct(cc);
  }

  /** A counter with distinct keys has as many keys as entries. */
  lemma {:induction false} KeysOfDistinct<K>(c: Counter<K>)
    requires DistinctKeys(c)
    ensures |Keys(c)| == |c|
  {
    if c != [] {
      KeysOfDistinct(c[1..]);
      assert Keys(c) == Keys(c[1..]) + {c[0].0} by {
        forall x | x in Keys(c) ensures x in Keys(c[1..]) + {c[0].0} {
          var i :| 0 <= i < |c| && c[i].0 == x;
          if i > 0 { assert c[1..][i - 1].0 == x; }
        }
        forall x | x in Keys(c[1..]) ensures x in Keys(c) {
          var i :| 0 <= i < |c[1..]| && c[1..][i].0 == x;
          assert c[i + 1].0 == x;
        }
      }
      forall i | 0 <= i < |c[1..]| ensures c[1..][i].0 != c[0].0 {
        assert c[1..][i] == c[i + 1];
      }
    }
  }

  /**
   * At most ten top companies, highest count first, each one of the counted
   * companies; a company left out counts no more than any that was kept.
   */
  lemma TopCompaniesFacts(emails: seq<Email>, now: int)
    ensures var top := UserStats(emails, now).topCompanies;
      var cc := Tally(CompanyKeys(emails));
      && |top| <= 10
      && NonIncreasing(top)
      && (forall x :: x in top ==> x in cc)
      && (forall x, y :: x in cc && x !in top && y in top ==> y.1 >= x.1)
  {
    var cc := Tally(CompanyKeys(emails));
    assert UserStats(emails, now).topCompanies == Take(SortByCount(cc), 10);
    TopTenFacts(cc);
  }

  /** The first ten entries by count are entries of the counter, in order, and none left out counts more. */
  lemma TopTenFacts<K>(c: Counter<K>)
    ensures var top := Take(SortByCount(c), 10);
      && |top| <= 10
      && NonIncreasing(top)
      && (forall x :: x in top ==> x in c)
      && (forall x, y :: x in c && x !in top && y in top ==> y.1 >= x.1)
  {
    var s := SortByCount(c);
    SortByCountFacts(c);
    var n := if |s| < 10 then |s| else 10;
    assert Take(s, 10) == s[..n];
    PrefixFacts(s, n);
    forall x ensures x in c <==> x in s {
      SameElements(c, s, x);
    }
  }

  /** For the same multiset of entries, the same entries. */
  lemma SameElements<T>(a: seq<T>, b: seq<T>, x: T)
    requires multiset(a) == multiset(b)
    ensures x in a <==> x in b
  {
    assert x in a <==> x in multiset(a);
    assert x in b <==> x in multiset(b);
  }

  /** A prefix of an ordered counter is ordered, and no entry past it counts more than one inside it. */
  lemma PrefixFacts<K>(s: Counter<K>, n: nat)
    requires NonIncreasing(s) && n <= |s|
    ensures NonIncreasing(s[..n])
    ensures forall x :: x in s[..n] ==> x in s
    ensures forall x, y :: x in s && x !in s[..n] && y in s[..n] ==> y.1 >= x.1
  {
    var top := s[..n];
    forall x, y | x in s && x !in top && y in top ensures y.1 >= x.1 {
      var j :| 0 <= j < |s| && s[j] == x;
      var i :| 0 <= i < n && top[i] == y;
      assert s[i] == y;
    }
  }

  /** Both windows count 0 with no mail; otherwise the 7-day count is within the 30-day count, within the total. */
  lemma ActivityWindows(emails: seq<Email>, now: int)
    ensures var a := UserStats(emails, now).activity;
      a.last7Days <= a.last30Days <= |emails|
  {
    CountWithinMonotone(emails, now, 7, 30);
  }

  /**
   * With no mail, no dates and 0 days active; otherwise the first and last dates
   * are the earliest and latest received times, and at least one day is active.
   */
  lemma DaysActiveFacts(emails: seq<Email>, now: int)
    ensures var o := UserStats(emails, now).overview;
      if emails == [] then o.daysActive == 0 && o.firstApplication == None && o.lastApplication == None
      else
        && o.daysActive >= 1
        && o.firstApplication.Some? && o.lastApplication.Some?
        && (forall e :: e in emails ==> o.firstApplication.value <= e.receivedAt <= o.lastApplication.value)
        && (exists e :: e in emails && e.receivedAt == o.firstApplication.value)
        && (exists e :: e in emails && e.receivedAt == o.lastApplication.value)
  {
    if emails != [] {
      var first, last := Earliest(emails), Latest(emails);
      var i :| 0 <= i < |emails| && emails[i].receivedAt == first;
      assert emails[i] in emails;
      var j :| 0 <= j < |emails| && emails[j].receivedAt == last;
      assert emails[j] in emails;
    }
  }

  /** The parts of the statistics, each from its own counters. */
  lemma UserStatsParts(emails: seq<Email>, now: int)
    ensures UserStats(emails, now).statusBreakdown == Breakdown(Tally(StatusKeys(emails)))
    ensures UserStats(emails, now).overview == OverviewOf(Tally(StatusKeys(emails)), Tally(CompanyKeys(emails)), emails)
  {
  }

  lemma BreakdownCounts(ks: seq<string>)
    ensures var b := Breakdown(Tally(ks));
      && b.rejections == Occurrences(ks, "Rejection")
      && b.interviews == Occurrences(ks, "Interview invitation")
      && b.offers == Occurrences(ks, "Offer made")
      && b.assessments == Occurrences(ks, "Assessment sent")
      && b.awaitingResponse == Occurrences(ks, "Action required from company")
      && b.availabilityRequests == Occurrences(ks, "Availability request")
      && b.informationRequests == Occurrences(ks, "Information request")
      && b.inboundRequests == Occurrences(ks, "Did not apply - inbound request")
      && b.withdrew == Occurrences(ks, "Withdrew application")
      && b.hiringFreeze == Occurrences(ks, "Hiring freeze notification")
  {
    TallyGet(ks, "Rejection");
    TallyGet(ks, "Interview invitation");
    TallyGet(ks, "Offer made");
    TallyGet(ks, "Assessment sent");
    TallyGet(ks, "Action required from company");
    TallyGet(ks, "Availability request");
    TallyGet(ks, "Information request");
    TallyGet(ks, "Did not apply - inbound request");
    TallyGet(ks, "Withdrew application");
    TallyGet(ks, "Hiring freeze notification");
  }

  /**
   * Each breakdown field counts the mails whose stripped status is its label, and
   * the applications are the "Applied" mails.
   */
  lemma BreakdownFacts(emails: seq<Email>, now: int)
    ensures var b := UserStats(emails, now).statusBreakdown;
      var ks := StatusKeys(emails);
      && b.rejections == Occurrences(ks, "Rejection")
      && b.interviews == Occurrences(ks, "Interview invitation")
      && b.offers == Occurrences(ks, "Offer made")
      && b.assessments == Occurrences(ks, "Assessment sent")
      && b.awaitingResponse == Occurrences(ks, "Action required from company")
      && b.availabilityRequests == Occurrences(ks, "Availability request")
      && b.informationRequests == Occurrences(ks, "Information request")
      && b.inboundRequests == Occurrences(ks, "Did not apply - inbound request")
      && b.withdrew == Occurrences(ks, "Withdrew application")
      && b.hiringFreeze == Occurrences(ks, "Hiring freeze notification")
      && UserStats(emails, now).overview.totalApplications == Occurrences(ks, "Applied")
  {
    UserStatsParts(emails, now);
    BreakdownCounts(StatusKeys(emails));
    TallyGet(StatusKeys(emails), "Applied");
  }

  /** The applications and the breakdown together never count more mails than there are. */
  lemma BreakdownWithinTotal(emails: seq<Email>)
    ensures SumGets(Tally(StatusKeys(emails)), ["Applied"] + BreakdownLabels) <= |emails|
  {
    var c := Tally(StatusKeys(emails));
    TallyFacts(StatusKeys(emails));
    LabelsDistinct();
    SumGetsPlusRest(c, ["Applied"] + BreakdownLabels);
  }

  lemma LabelsDistinct()
    ensures Distinct(["Applied"] + BreakdownLabels)
    ensures Distinct(NonResponses)
  {
    var labels := ["Applied"] + BreakdownLabels;
    // No two labels agree in both their length and their first letter.
    var lens := [7, 9, 20, 10, 15, 28, 20, 19, 31, 20, 26];
    var firsts := ['A', 'R', 'I', 'O', 'A', 'A', 'A', 'I', 'D', 'W', 'H'];
    assert forall k :: 0 <= k < 11 ==> |labels[k]| == lens[k] && labels[k][0] == firsts[k];
    forall i, j | 0 <= i < j < 11 ensures labels[i] != labels[j] {
      assert lens[i] != lens[j] || firsts[i] != firsts[j];
    }
    assert |NonResponses[0]| == 7 && |NonResponses[1]| == 28 && |NonResponses[2]| == 14;
  }

  /**
   * The response rate is 0 without "Applied" mails; otherwise it divides the
   * responses by the applications, and the responses, the applications and the
   * other two non-response statuses together make up every mail.
   */
  lemma ResponseRateFacts(emails: seq<Email>, now: int)
    ensures var o := UserStats(emails, now).overview;
      var c := Tally(StatusKeys(emails));
      && (o.responseRate == NoRate <==> Get(c, "Applied") == 0)
      && (o.responseRate.Ratio? ==>
            && o.responseRate.applications == Get(c, "Applied")
            && o.responseRate.responses + Get(c, "Applied") + Get(c, "Action required from company")
               + Get(c, "False positive") == |emails|)
  {
    var ks := StatusKeys(emails);
    UserStatsParts(emails, now);
    TallyFacts(ks);
    if emails == [] {
      TallyGet(ks, "Applied");
    } else {
      ResponsesSplitTotal(Tally(ks));
    }
  }

  /** The responses and the three non-response counts make up the whole total. */
  lemma ResponsesSplitTotal(c: Counter<string>)
    requires DistinctKeys(c)
    ensures SumExcept(c, NonResponses) + Get(c, "Applied") + Get(c, "Action required from company")
            + Get(c, "False positive") == Total(c)
  {
    LabelsDistinct();
    SumGetsPlusRest(c, NonResponses);
    var n := NonResponses;
    assert n[1..][1..][1..] == [];
    assert SumGets(c, n) == Get(c, n[0]) + SumGets(c, n[1..]);
    assert SumGets(c, n[1..]) == Get(c, n[1]) + SumGets(c, n[1..][1..]);
    assert SumGets(c, n[1..][1..]) == Get(c, n[2]);
  }

  /** A mail with a status counts under it, so an "Applied" mail rules out the zero rate. */
  lemma AppliedMailGivesRate(emails: seq<Email>, now: int, i: nat)
    requires i < |emails| && StatusKey(emails[i]) == "Applied"
    ensures UserStats(emails, now).overview.responseRate.Ratio?
  {
    var ks := StatusKeys(emails);
    TallyFacts(ks);
    OccurrencesPositive(ks, i);
    ResponseRateFacts(emails, now);
  }

  lemma {:induction false} OccurrencesPositive<K>(ks: seq<K>, i: nat)
    requires i < |ks|
    ensures Occurrences(ks, ks[i]) >= 1
  {
    if i > 0 {
      OccurrencesPositive(ks[1..], i - 1);
    }
  }
}
