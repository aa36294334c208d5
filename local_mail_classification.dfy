/**
 * The evaluation script for the local zero-shot classifier: extracting the
 * newest message of a thread, cleaning it into the text to classify, judging a
 * predicted category against the labelled status, and the counters of the
 * evaluation loop. The classifier and the regular-expression engine are
 * parameters: `search(pattern, text)` is the start of the first
 * case-insensitive match of `pattern` in `text`, if any.
 */
module LocalMailClassification {
  import opened Wrappers
  import opened Strings

  type Search = (string, string) -> Option<nat>

  /** The categories the classifier chooses among; its answer is always one of them. */
  const CandidateLabels: seq<string> := [
    "Closed \U{2013} Rejection / Freeze / Withdrawn",
    "Offer / Paperwork",
    "Interview Invitation or Assessment sent",
    "Initial Contact / Application Received",
    "Offer Declined / Other"
  ]

  /** For each predicted category, the labelled statuses that count as a correct prediction. */
  const LabelMap: seq<(string, seq<string>)> := [
    ("Rejection", ["Rejection"]),
    ("Other", ["Offer made", "Hiring freeze notification", "Withdrew application", "Informational Outreach"]),
    ("Interview Invitation", ["Interview invitation"]),
    ("Application confirmation", ["Application confirmation"]),
    ("Assessment sent", ["Assessment sent"]),
    ("Availability request", ["Availability request"]),
    ("Action required from company", ["Action required from company"]),
    ("Did not apply - inbound request", ["Did not apply - inbound request"]),
    ("Information request", ["Information request"])
  ]

  /** `label_map.get(predicted, [])`. */
  function ExpectedLabels(m: seq<(string, seq<string>)>, predicted: string): (r: seq<string>)
    ensures r != [] ==> exists i :: 0 <= i < |m| && m[i] == (predicted, r)
    ensures (forall i :: 0 <= i < |m| ==> m[i].0 != predicted) ==> r == []
  {
    if m == [] then [] else if m[0].0 == predicted then m[0].1 else ExpectedLabels(m[1..], predicted)
  }

  /** `is_prediction_correct`. */
  function IsPredictionCorrect(predicted: string, actual: string): (r: bool)
    ensures r ==> exists i :: 0 <= i < |LabelMap| && LabelMap[i].0 == predicted && actual in LabelMap[i].1
    ensures (forall i :: 0 <= i < |LabelMap| ==> LabelMap[i].0 != predicted) ==> !r
  {
    actual in ExpectedLabels(LabelMap, predicted)
  }

  /** Every key of the label map maps to the statuses listed for it. */
  lemma PredictionCorrectForMappedLabel(i: nat, actual: string)
    requires i < |LabelMap|
    ensures IsPredictionCorrect(LabelMap[i].0, actual) <==> actual in LabelMap[i].1
  {
    var keys := ["Rejection", "Other", "Interview Invitation", "Application confirmation", "Assessment sent",
                 "Availability request", "Action required from company", "Did not apply - inbound request",
                 "Information request"];
    assert forall k :: 0 <= k < 9 ==> LabelMap[k].0 == keys[k];
    // No two keys agree in both their length and their first letter.
    var lens := [9, 5, 20, 24, 15, 20, 28, 31, 19];
    var firsts := ['R', 'O', 'I', 'A', 'A', 'A', 'A', 'D', 'I'];
    assert forall k :: 0 <= k < 9 ==> |keys[k]| == lens[k] && keys[k][0] == firsts[k];
    ExpectedLabelsAt(LabelMap, i);
  }

  /** Looking up the key at position i finds its own entry when no earlier key is the same. */
  lemma {:induction false} ExpectedLabelsAt(m: seq<(string, seq<string>)>, i: nat)
    requires i < |m|
    requires forall j :: 0 <= j < i ==> m[j].0 != m[i].0
    ensures ExpectedLabels(m, m[i].0) == m[i].1
  {
    if i > 0 {
      forall j | 0 <= j < i - 1 ensures m[1..][j].0 != m[1..][i - 1].0 {
        assert m[1..][j] == m[j + 1];
      }
      ExpectedLabelsAt(m[1..], i - 1);
    }
  }

  /**
   * No candidate category is a key of the label map, so a prediction, which is
   * always a candidate, is never judged correct.
   */
  lemma CandidateLabelsNeverCorrect(predicted: string, actual: string)
    requires predicted in CandidateLabels
    ensures !IsPredictionCorrect(predicted, actual)
  {
    var k :| 0 <= k < |CandidateLabels| && CandidateLabels[k] == predicted;
    CandidateIsNoKey(k);
  }

  /** No candidate is as long as any key. */
  lemma CandidateIsNoKey(k: nat)
    requires k < |CandidateLabels|
    ensures forall i :: 0 <= i < |LabelMap| ==> LabelMap[i].0 != CandidateLabels[k]
  {
    var candidateLens := [39, 17, 39, 38, 22];
    assert forall j :: 0 <= j < 5 ==> |CandidateLabels[j]| == candidateLens[j];
    KeyLengths();
  }

  lemma KeyLengths()
    ensures forall i :: 0 <= i < |LabelMap| ==> |LabelMap[i].0| in {5, 9, 15, 19, 20, 24, 28, 31}
  {
    var keyLens := [9, 5, 20, 24, 15, 20, 28, 31, 19];
    assert forall k :: 0 <= k < 9 ==> |LabelMap[k].0| == keyLens[k];
  }

  // ---------------------------------------------------- latest message

  /** The markers of an older, quoted or forwarded message. */
  const SplitMarkers: seq<string> := [
    @"\n-{2,}\s*original message\s*-{2,}",
    @"\n-{4,}\s*forwarded message\s*-{4,}",
    @"\n-{2,}\s*end of original message\s*-{2,}",
    @"\nOn .{10,200}wrote:",
    @"\nFrom:\s.+\n?Sent:\s",
    @"\nMessage replied:",
    @"\n>\s",
    @"On [A-Z][a-z]{2}, .{5,50} at .{5,20} .{5,50} wrote:",
    @"On \w{3}, \w{3} \d{1,2}, \d{4} at \d{1,2}:\d{2} [AP]M .+ wrote:",
    @"\n\s*--\s*\n",
    @"\nSent from my (iPhone|Android|mobile)",
    @"\nGet Outlook for (iOS|Android)",
    @"original message",
    @"wrote:"
  ]

  /** The markers of a footer. */
  const FooterMarkers: seq<string> := [
    @"\n-{20,}",
    @"\nThis email was intended",
    @"\nYou are receiving LinkedIn notification emails",
    @"\nUnsubscribe:",
    @"\nHelp:",
    "\U{A9} " + @"\d{4} LinkedIn"
  ]

  /** `cut_at` after the loop over `markers`: the earliest match start, or the length without a match. */
  function CutPoint(markers: seq<string>, text: string, search: Search): (r: nat)
    ensures r <= |text|
    ensures forall i :: 0 <= i < |markers| && search(markers[i], text).Some? ==> r <= search(markers[i], text).value
    ensures r == |text| || exists i :: 0 <= i < |markers| && search(markers[i], text) == Some(r)
  {
    if markers == [] then |text|
    else
      var init := markers[..|markers| - 1];
      var cut := CutPoint(init, text, search);
      assert forall i :: 0 <= i < |init| ==> init[i] == markers[i];
      match search(markers[|markers| - 1], text)
      case Some(p) => if p < cut then p else cut
      case None => cut
  }

  /** `head` after the loop over the footer markers: cut at each marker's first match in turn. */
  function FooterTrim(markers: seq<string>, head: string, search: Search): (r: string)
    ensures |r| <= |head| && r == head[..|r|]
  {
    if markers == [] then head
    else
      var h := FooterTrim(markers[..|markers| - 1], head, search);
      match search(markers[|markers| - 1], h)
      case Some(p) => Take(h, p)
      case None => h
  }

  /** The length of the whitespace run at the start of `s`. */
  function SpaceRun(s: string): (w: nat)
    ensures w <= |s|
    ensures forall j :: 0 <= j < w ==> IsSpace(s[j])
    ensures w < |s| ==> !IsSpace(s[w])
  {
    if s != [] && IsSpace(s[0]) then 1 + SpaceRun(s[1..]) else 0
  }

  /** The last newline among positions 1 .. w-1 of `s`. */
  function LastNewline(s: string, w: nat): (r: Option<nat>)
    requires w <= |s|
    ensures r.Some? ==> 1 <= r.value < w && s[r.value] == '\n'
    ensures r.Some? ==> forall j :: r.value < j < w ==> s[j] != '\n'
    ensures r.None? ==> forall j :: 1 <= j < w ==> s[j] != '\n'
  {
    if w <= 1 then None
    else if s[w - 1] == '\n' then Some(w - 1)
    else LastNewline(s, w - 1)
  }

  /**
   * `re.sub(r"\s+\n", "\n", s)`: scanning from the left, a whitespace run that
   * holds a newline after its first character is replaced, up to its last such
   * newline, by one newline.
   */
  function TrimBeforeNewlines(s: string): (r: string)
    ensures |r| <= |s|
    decreases |s|
  {
    if s == [] then []
    else if IsSpace(s[0]) then
      match LastNewline(s, SpaceRun(s))
      case Some(k) => "\n" + TrimBeforeNewlines(s[k + 1..])
      case None => [s[0]] + TrimBeforeNewlines(s[1..])
    else [s[0]] + TrimBeforeNewlines(s[1..])
  }

  /** `extract_latest_email`, as a function of the text and the regular-expression engine. */
  function LatestEmail(text: Option<string>, search: Search): Option<string>
  {
    match text
    case None => None
    case Some(t) =>
      if t == "" then Some(t)
      else
        var norm := ReplaceCrlf(t);
        var head := norm[..CutPoint(SplitMarkers, norm, search)];
        Some(Strip(TrimBeforeNewlines(FooterTrim(FooterMarkers, head, search))))
  }

  /** `extract_latest_email`: the two marker loops, then the tidy-up. */
  method ExtractLatestEmail(text: Option<string>, search: Search) returns (r: Option<string>)
    ensures r == LatestEmail(text, search)
  {
    if text == None || text == Some("") {
      return text;
    }
    var norm := ReplaceCrlf(text.value);
    var cutAt := EarliestSplit(norm, search);
    var head := TrimFooters(norm[..cutAt], search);
    r := Some(Strip(TrimBeforeNewlines(head)));
  }

  /** The first loop: the earliest position at which a reply marker matches. */
  method EarliestSplit(norm: string, search: Search) returns (cutAt: nat)
    ensures cutAt == CutPoint(SplitMarkers, norm, search)
  {
    cutAt := |norm|;
    var i := 0;
    while i < |SplitMarkers|
      invariant 0 <= i <= |SplitMarkers|
      invariant cutAt == CutPoint(SplitMarkers[..i], norm, search)
    {
      CutPointSnoc(SplitMarkers, i, norm, search);
      var m := search(SplitMarkers[i], norm);
      if m.Some? && m.value < cutAt {
        cutAt := m.value;
      }
      i := i + 1;
    }
    assert SplitMarkers[..i] == SplitMarkers;
  }

  lemma CutPointSnoc(markers: seq<string>, i: nat, text: string, search: Search)
    requires i < |markers|
    ensures var cut := CutPoint(markers[..i], text, search);
      CutPoint(markers[..i + 1], text, search) ==
        match search(markers[i], text)
        case Some(p) => if p < cut then p else cut
        case None => cut
  {
    assert markers[..i + 1][..i] == markers[..i];
  }

  lemma FooterTrimSnoc(markers: seq<string>, k: nat, text: string, search: Search)
    requires k < |markers|
    ensures var h := FooterTrim(markers[..k], text, search);
      FooterTrim(markers[..k + 1], text, search) ==
        match search(markers[k], h)
        case Some(p) => Take(h, p)
        case None => h
  {
    assert markers[..k + 1][..k] == markers[..k];
  }

  /** The second loop: each footer marker in turn cuts the text at its first match. */
  method TrimFooters(text: string, search: Search) returns (head: string)
    ensures head == FooterTrim(FooterMarkers, text, search)
  {
    head := text;
    var k := 0;
    while k < |FooterMarkers|
      invariant 0 <= k <= |FooterMarkers|
      invariant head == FooterTrim(FooterMarkers[..k], text, search)
    {
      FooterTrimSnoc(FooterMarkers, k, text, search);
      var m := search(FooterMarkers[k], head);
      if m.Some? {
        head := Take(head, m.value);
      }
      k := k + 1;
    }
    assert FooterMarkers[..k] == FooterMarkers;
  }

  /**
   * No text or an empty one comes back unchanged; otherwise the newest message
   * is no longer than the text.
   */
  lemma LatestEmailFacts(text: Option<string>, search: Search)
    ensures text == None ==> LatestEmail(text, search) == None
    ensures text == Some("") ==> LatestEmail(text, search) == Some("")
    ensures text.Some? ==> LatestEmail(text, search).Some? && |LatestEmail(text, search).value| <= |text.value|
  {
    if text.Some? && text.value != "" {
      var norm := ReplaceCrlf(text.value);
      ReplaceCrlfNotLonger(text.value);
      var head := norm[..CutPoint(SplitMarkers, norm, search)];
      StripFacts(TrimBeforeNewlines(FooterTrim(FooterMarkers, head, search)));
    }
  }

  /** With no marker matching anywhere, the whole text is kept before the tidy-up. */
  lemma NoMarkerKeepsAll(t: string, search: Search)
    requires t != ""
    requires forall p, s :: search(p, s) == None
    ensures LatestEmail(Some(t), search) == Some(Strip(TrimBeforeNewlines(ReplaceCrlf(t))))
  {
    var norm := ReplaceCrlf(t);
    assert CutPoint(SplitMarkers, norm, search) == |norm|;
    FooterTrimNoMatch(FooterMarkers, norm, search);
  }

  lemma {:induction false} FooterTrimNoMatch(markers: seq<string>, head: string, search: Search)
    requires forall p, s :: search(p, s) == None
    ensures FooterTrim(markers, head, search) == head
  {
    if markers != [] {
      FooterTrimNoMatch(markers[..|markers| - 1], head, search);
    }
  }

  // ---------------------------------------------------------- one item

  /** One labelled mail of the training file; a missing key is `None`, and so is a JSON `null`. */
  datatype Item = Item(id: Option<string>, subject: Option<string>, body: Option<string>,
                       applicationStatus: Option<string>)

  /** `preprocess_email`: the text to classify, and whether extraction shortened the body. */
  function PreprocessEmail(item: Item, search: Search): (string, bool)
  {
    var body := item.body.GetOr("");
    LatestEmailFacts(Some(body), search);
    var latest := LatestEmail(Some(body), search).value;
    var text := item.subject.GetOr("") + " " + latest;
    (Strip(Lower(ReplaceChar(RemoveChar(text, '-'), '\n', ' '))), |latest| != |body|)
  }

  /**
   * The text to classify has no '-' and no newline, no upper-case letter and no
   * surrounding whitespace; it was trimmed exactly when extraction changed the
   * body's length.
   */
  lemma PreprocessFacts(item: Item, search: Search)
    ensures var (text, trimmed) := PreprocessEmail(item, search);
      && Lacks(text, '-') && Lacks(text, '\n') && IsLowercase(text) && IsStripped(text)
      && (trimmed <==> |LatestEmail(Some(item.body.GetOr("")), search).value| != |item.body.GetOr("")|)
  {
    var body := item.body.GetOr("");
    LatestEmailFacts(Some(body), search);
    var latest := LatestEmail(Some(body), search).value;
    var text := item.subject.GetOr("") + " " + latest;
    var lowered := Lower(ReplaceChar(RemoveChar(text, '-'), '\n', ' '));
    CleanedFacts(text);
    StripKeepsClean(lowered);
  }

  /** Dropping '-', joining lines and lower-casing leave no '-', no newline and no upper-case letter. */
  lemma CleanedFacts(text: string)
    ensures var lowered := Lower(ReplaceChar(RemoveChar(text, '-'), '\n', ' '));
      Lacks(lowered, '-') && Lacks(lowered, '\n') && IsLowercase(lowered)
  {
    var noDash := RemoveChar(text, '-');
    RemoveCharFacts(text, '-');
    var oneLine := ReplaceChar(noDash, '\n', ' ');
    LowerIsLowercase(oneLine);
  }

  /** Stripping a clean text keeps it clean and leaves it stripped. */
  lemma StripKeepsClean(s: string)
    requires Lacks(s, '-') && Lacks(s, '\n') && IsLowercase(s)
    ensures Lacks(Strip(s), '-') && Lacks(Strip(s), '\n') && IsLowercase(Strip(s)) && IsStripped(Strip(s))
  {
    StripFacts(s);
    var i :| OccursAt(Strip(s), s, i);
    forall j | 0 <= j < |Strip(s)| ensures Strip(s)[j] == s[i + j] {
    }
  }

  /** At most this many characters of the text go to the classifier. */
  const MaxEmailLength: nat := 512

  /** The truncated text both classifier questions are asked about. */
  function ClassifiedText(item: Item, search: Search): (r: string)
    ensures |r| <= MaxEmailLength && |r| <= |PreprocessEmail(item, search).0| && r == PreprocessEmail(item, search).0[..|r|]
  {
    Take(PreprocessEmail(item, search).0, MaxEmailLength)
  }

  // --------------------------------------------------- evaluation loop

  /** The statuses of mails that are not about a job search. */
  const NotJobRelated: seq<string> := ["False positive, not related to job search", "Not Job-Related"]

  datatype Counters = Counters(
    correctPredictions: nat,
    processedItems: nat,
    processedAllItems: nat,
    jobRelatedCorrect: nat,
    jobRelatedTotal: nat)

  /**
   * The classifier: whether a (subject, text) is job related, and the category it
   * picks for a text, `None` when classification raises.
   */
  datatype Classifier = Classifier(isJobRelated: (string, string) -> bool, category: string -> Option<string>)

  /** Whether an item is skipped before any counter changes: no text, or no label. */
  predicate Skipped(item: Item, search: Search)
  {
    PreprocessEmail(item, search).0 == "" || item.applicationStatus.GetOr("") == ""
  }

  /** The counters after one item of the loop. */
  function Step(c: Counters, item: Item, search: Search, clf: Classifier): Counters
  {
    if Skipped(item, search) then c
    else Counted(c, item.applicationStatus.value, item.subject.GetOr(""), ClassifiedText(item, search), clf)
  }

  /** The counters after classifying `text`, for a mail labelled `actual`. */
  function Counted(c: Counters, actual: string, subject: string, text: string, clf: Classifier): Counters
  {
    var jobRelated := clf.isJobRelated(subject, text);
    var actualJobRelated := actual !in NotJobRelated;
    var c1 := c.(processedAllItems := c.processedAllItems + 1,
                 jobRelatedTotal := c.jobRelatedTotal + 1,
                 jobRelatedCorrect := c.jobRelatedCorrect + if jobRelated == actualJobRelated then 1 else 0);
    if !actualJobRelated || !jobRelated then c1
    else
      var c2 := c1.(processedItems := c1.processedItems + 1);
      match clf.category(text)
      case None => c2
      case Some(predicted) =>
        if IsPredictionCorrect(predicted, actual) then c2.(correctPredictions := c2.correctPredictions + 1) else c2
  }

  /** The counters after the loop over `data`. */
  function Run(data: seq<Item>, search: Search, clf: Classifier): Counters
  {
    if data == [] then Counters(0, 0, 0, 0, 0)
    else Step(Run(data[..|data| - 1], search, clf), data[|data| - 1], search, clf)
  }

  /** One pass of the loop body of `process_email_classification`. */
  method ClassifyItem(c0: Counters, item: Item, search: Search, clf: Classifier) returns (c: Counters)
    ensures c == Step(c0, item, search, clf)
  {
    c := c0;
    var sequence := PreprocessEmail(item, search).0;
    var actualLabel := item.applicationStatus;
    if sequence == "" || actualLabel.GetOr("") == "" {
      return;
    }
    var truncated := Take(sequence, MaxEmailLength);
    assert truncated == ClassifiedText(item, search);
    c := CountItem(c0, actualLabel.value, item.subject.GetOr(""), truncated, clf);
  }

  /** The counting part of the loop body, once the text to classify is known. */
  method CountItem(c0: Counters, actual: string, subject: string, truncated: string, clf: Classifier)
    returns (c: Counters)
    ensures c == Counted(c0, actual, subject, truncated, clf)
  {
    c := c0.(processedAllItems := c0.processedAllItems + 1);
    var jobRelated := clf.isJobRelated(subject, truncated);
    c := c.(jobRelatedTotal := c.jobRelatedTotal + 1);
    var actualIsJobRelated := actual !in NotJobRelated;
    if jobRelated == actualIsJobRelated {
      c := c.(jobRelatedCorrect := c.jobRelatedCorrect + 1);
    }
    if actual in NotJobRelated || !jobRelated {
      return;
    }
    c := c.(processedItems := c.processedItems + 1);
    var result := clf.category(truncated);
    if result.Some? && IsPredictionCorrect(result.value, actual) {
      c := c.(correctPredictions := c.correctPredictions + 1);
    }
  }

  /** The counting loop of `process_email_classification`. */
  method ProcessEmailClassification(data: seq<Item>, search: Search, clf: Classifier) returns (c: Counters)
    ensures c == Run(data, search, clf)
  {
    c := Counters(0, 0, 0, 0, 0);
    var i := 0;
    while i < |data|
      invariant 0 <= i <= |data|
      invariant c == Run(data[..i], search, clf)
    {
      RunSnoc(data, i, search, clf);
      c := ClassifyItem(c, data[i], search, clf);
      i := i + 1;
    }
    assert data[..i] == data;
  }

  lemma RunSnoc(data: seq<Item>, i: nat, search: Search, clf: Classifier)
    requires i < |data|
    ensures Run(data[..i + 1], search, clf) == Step(Run(data[..i], search, clf), data[i], search, clf)
  {
    assert data[..i + 1][..i] == data[..i];
  }

  /** A skipped item changes no counter. */
  lemma SkippedItemChangesNothing(c: Counters, item: Item, search: Search, clf: Classifier)
    requires Skipped(item, search)
    ensures Step(c, item, search, clf) == c
  {
  }

  /** The relations between the counters hold across the whole loop. */
  predicate CountersInvariant(c: Counters)
  {
    && c.jobRelatedTotal == c.processedAllItems
    && c.jobRelatedCorrect <= c.jobRelatedTotal
    && c.correctPredictions <= c.processedItems <= c.processedAllItems
  }

  lemma {:induction false} RunKeepsInvariant(data: seq<Item>, search: Search, clf: Classifier)
    ensures CountersInvariant(Run(data, search, clf))
    ensures Run(data, search, clf).processedAllItems <= |data|
  {
    if data != [] {
      RunKeepsInvariant(data[..|data| - 1], search, clf);
      StepKeepsInvariant(Run(data[..|data| - 1], search, clf), data[|data| - 1], search, clf);
    }
  }

  /** One item keeps the relations and counts itself at most once. */
  lemma StepKeepsInvariant(c: Counters, item: Item, search: Search, clf: Classifier)
    requires CountersInvariant(c)
    ensures CountersInvariant(Step(c, item, search, clf))
    ensures Step(c, item, search, clf).processedAllItems <= c.processedAllItems + 1
  {
    if !Skipped(item, search) {
      CountedKeepsInvariant(c, item.applicationStatus.value, item.subject.GetOr(""), ClassifiedText(item, search), clf);
    }
  }

  /** A counted mail raises the count of mails by one and keeps the relations. */
  lemma CountedKeepsInvariant(c: Counters, actual: string, subject: string, text: string, clf: Classifier)
    requires CountersInvariant(c)
    ensures CountersInvariant(Counted(c, actual, subject, text, clf))
    ensures Counted(c, actual, subject, text, clf).processedAllItems == c.processedAllItems + 1
  {
  }

  /**
   * When the classifier only ever answers with a candidate category, as the
   * zero-shot pipeline does, no prediction is counted correct.
   */
  lemma {:induction false} AccuracyAlwaysZero(data: seq<Item>, search: Search, clf: Classifier)
    requires forall t :: clf.category(t).Some? ==> clf.category(t).value in CandidateLabels
    ensures Run(data, search, clf).correctPredictions == 0
  {
    if data != [] {
      AccuracyAlwaysZero(data[..|data| - 1], search, clf);
      var item := data[|data| - 1];
      if !Skipped(item, search) {
        var text := ClassifiedText(item, search);
        if clf.category(text).Some? {
          CandidateLabelsNeverCorrect(clf.category(text).value, item.applicationStatus.value);
        }
      }
    }
  }
}
