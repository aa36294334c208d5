/**
 * The Gemini usage optimisations: a batch accumulator that renders one prompt
 * for several mails, a one-minute sliding-window request limiter, and a
 * fixed cache of phrases whose classification is known without a model call.
 */
module LlmOptimization {
  import opened Wrappers
  import opened Strings

  /** The two fields of a batched mail dict that the prompt reads. */
  datatype BatchEmail = BatchEmail(id: string, textContent: string)

  /** The fixed instruction text that opens every batch prompt. */
  const PromptHeader: string :=
    "Process the following emails and return a JSON array with results for each:\n" +
    "        \n" +
    "        For each email, extract:\n" +
    "        1. job_application_status (use the standard labels)\n" +
    "        2. company_name (if not false positive)\n" +
    "        3. job_title (if not false positive)\n" +
    "        \n" +
    "        Return format: \n" +
    "        [\n" +
    "            {\"email_id\": \"id1\", \"job_application_status\": \"...\", \"company_name\": \"...\", \"job_title\": \"...\"},\n" +
    "            {\"email_id\": \"id2\", \"job_application_status\": \"...\", \"company_name\": \"...\", \"job_title\": \"...\"}\n" +
    "        ]\n" +
    "        \n" +
    "        Emails to process:\n" +
    "        "

  /** The section for the mail at 0-based position `i`, headed with its 1-based number and its id. */
  function Section(i: nat, e: BatchEmail): string
  {
    "\n\n--- Email " + NatToString(i + 1) + " (ID: " + e.id + ") ---\n" + e.textContent + "\n"
  }

  /** The sections of `batch`, one per mail, in batch order. */
  function Sections(batch: seq<BatchEmail>): string
  {
    if batch == [] then "" else Sections(batch[..|batch| - 1]) + Section(|batch| - 1, batch[|batch| - 1])
  }

  /** The prompt `get_batch_prompt` builds for `batch`. */
  function BatchPrompt(batch: seq<BatchEmail>): string
  {
    PromptHeader + Sections(batch)
  }

  /**
   * The prompt for a prefix of the batch, followed by the next mail's section,
   * is a prefix of the whole prompt: the sections appear one per mail, in order.
   */
  lemma SectionsInOrder(batch: seq<BatchEmail>, i: nat)
    requires i < |batch|
    ensures StartsWith(BatchPrompt(batch), BatchPrompt(batch[..i]) + Section(i, batch[i]))
  {
    SectionsPrefix(batch, i);
    StartsWithExtend(Sections(batch), Sections(batch[..i]) + Section(i, batch[i]), "", PromptHeader);
    assert PromptHeader + (Sections(batch[..i]) + Section(i, batch[i])) ==
      BatchPrompt(batch[..i]) + Section(i, batch[i]);
  }

  lemma {:induction false} SectionsPrefix(batch: seq<BatchEmail>, i: nat)
    requires i < |batch|
    ensures StartsWith(Sections(batch), Sections(batch[..i]) + Section(i, batch[i]))
    decreases |batch|
  {
    var n := |batch|;
    var init := batch[..n - 1];
    if i == n - 1 {
      assert init == batch[..i];
    } else {
      assert init[..i] == batch[..i] && init[i] == batch[i];
      SectionsPrefix(init, i);
      StartsWithExtend(Sections(init), Sections(batch[..i]) + Section(i, batch[i]), Section(n - 1, batch[n - 1]), "");
    }
  }

  /** Accumulates mails until a batch is full. */
  class BatchProcessor {
    var batchSize: int
    var batch: seq<BatchEmail>

    /** `batch_size or settings.GEMINI_BATCH_SIZE`: an absent or zero size falls back to the setting. */
    constructor(batchSize: Option<int>, settingsBatchSize: int)
      ensures this.batchSize == (if batchSize.Some? && batchSize.value != 0 then batchSize.value else settingsBatchSize)
      ensures batch == []
    {
      this.batchSize := if batchSize.Some? && batchSize.value != 0 then batchSize.value else settingsBatchSize;
      batch := [];
    }

    /** Appends `email`; the answer says whether the batch has reached its size. */
    method AddEmail(email: BatchEmail) returns (full: bool)
      modifies this
      ensures batch == old(batch) + [email] && batchSize == old(batchSize)
      ensures full <==> |batch| >= batchSize
    {
      batch := batch + [email];
      full := |batch| >= batchSize;
    }

    /** Renders the batch as one prompt, leaving the batch as it is. */
    method GetBatchPrompt() returns (prompt: string)
      ensures prompt == BatchPrompt(batch)
    {
      prompt := PromptHeader;
      var i := 0;
      while i < |batch|
        invariant 0 <= i <= |batch|
        invariant prompt == PromptHeader + Sections(batch[..i])
      {
        assert batch[..i + 1][..i] == batch[..i];
        AppendAssoc(PromptHeader, Sections(batch[..i]), Section(i, batch[i]));
        prompt := prompt + Section(i, batch[i]);
        i := i + 1;
      }
      assert batch[..i] == batch;
    }

    method ClearBatch()
      modifies this
      ensures batch == [] && batchSize == old(batchSize)
    {
      batch := [];
    }
  }

  /**
   * The timestamps less than a minute older than `now`, in their original
   * order; every other stamp is dropped.
   */
  function Prune(times: seq<int>, now: int): (r: seq<int>)
    ensures |r| <= |times|
    ensures forall j :: 0 <= j < |r| ==> now - r[j] < 60 && r[j] in times
    ensures forall j :: 0 <= j < |times| && now - times[j] < 60 ==> times[j] in r
  {
    if times == [] then []
    else (if now - times[0] < 60 then [times[0]] else []) + Prune(times[1..], now)
  }

  /** Each recent stamp is kept as often as it was recorded, and every other stamp is dropped. */
  lemma {:induction false} PruneCounts(times: seq<int>, now: int)
    ensures forall x :: multiset(Prune(times, now))[x] == if now - x < 60 then multiset(times)[x] else 0
    decreases |times|
  {
    if times != [] {
      PruneCounts(times[1..], now);
      assert times == [times[0]] + times[1..];
      var head := if now - times[0] < 60 then [times[0]] else [];
      assert multiset(Prune(times, now)) == multiset(head) + multiset(Prune(times[1..], now));
    }
  }

  /**
   * Pruning keeps the order of the window: it distributes over concatenation,
   * so a stamp recorded before another stays before it.
   */
  lemma {:induction false} PruneAppend(a: seq<int>, b: seq<int>, now: int)
    ensures Prune(a + b, now) == Prune(a, now) + Prune(b, now)
    decreases |a|
  {
    if a == [] {
      assert a + b == b;
    } else {
      assert (a + b)[1..] == a[1..] + b;
      PruneAppend(a[1..], b, now);
    }
  }

  function Min(s: seq<int>): (m: int)
    requires s != []
    ensures m in s && forall j :: 0 <= j < |s| ==> m <= s[j]
  {
    if |s| == 1 then s[0] else if s[0] <= Min(s[1..]) then s[0] else Min(s[1..])
  }

  /** Python's `max(0, x)`. */
  function AtLeastZero(x: int): int
  {
    if x < 0 then 0 else x
  }

  /**
   * A sliding window over the times of the requests made in the last minute.
   * Times are whole seconds, and a call reads the clock once, as `now`.
   */
  class RateLimitManager {
    var requestTimes: seq<int>
    var requestsPerMinute: int

    constructor(requestsPerMinute: int)
      ensures requestTimes == [] && this.requestsPerMinute == requestsPerMinute
    {
      requestTimes := [];
      this.requestsPerMinute := requestsPerMinute;
    }

    /** Forgets requests a minute old or older, then admits a request iff fewer than the limit remain. */
    method CanMakeRequest(now: int) returns (ok: bool)
      modifies this
      ensures requestTimes == Prune(old(requestTimes), now) && requestsPerMinute == old(requestsPerMinute)
      ensures ok <==> |requestTimes| < requestsPerMinute
    {
      requestTimes := Prune(requestTimes, now);
      ok := |requestTimes| < requestsPerMinute;
    }

    /** Records one request at `now`, changing nothing else. */
    method RecordRequest(now: int)
      modifies this
      ensures requestTimes == old(requestTimes) + [now] && requestsPerMinute == old(requestsPerMinute)
    {
      requestTimes := requestTimes + [now];
    }

    /**
     * Seconds to wait before the next request: 0 if one is admissible now,
     * otherwise until the oldest remembered request leaves the window, plus one.
     * None stands for the ValueError `min` raises on an empty window, which
     * happens only when the limit is 0 or less.
     */
    method WaitTime(now: int) returns (wait: Option<int>)
      modifies this
      ensures requestTimes == Prune(old(requestTimes), now) && requestsPerMinute == old(requestsPerMinute)
      ensures wait == WaitAfterPrune(requestTimes, requestsPerMinute, now)
    {
      var ok := CanMakeRequest(now);
      if ok {
        return Some(0);
      }
      if requestTimes == [] {
        return None;
      }
      var oldest := Min(requestTimes);
      wait := Some(AtLeastZero(60 - (now - oldest) + 1));
    }
  }

  /** The answer of `wait_time` once the window holds `times`. */
  function WaitAfterPrune(times: seq<int>, limit: int, now: int): Option<int>
  {
    if |times| < limit then Some(0)
    else if times == [] then None
    else Some(AtLeastZero(60 - (now - Min(times)) + 1))
  }

  /**
   * When no remembered request lies in the future, the wait after pruning is 0
   * exactly when a request is admissible, and otherwise lies in (1, 61].
   */
  lemma WaitTimeBounds(times: seq<int>, limit: int, now: int)
    requires forall j :: 0 <= j < |times| ==> times[j] <= now
    requires limit > 0
    ensures WaitAfterPrune(Prune(times, now), limit, now).Some?
    ensures var w := WaitAfterPrune(Prune(times, now), limit, now).value;
      (w == 0 <==> |Prune(times, now)| < limit) &&
      (|Prune(times, now)| >= limit ==> 1 < w <= 61)
  {
    var p := Prune(times, now);
    if |p| >= limit {
      var m := Min(p);
      assert m in times;
    }
  }

  /** A cached classification, with its confidence in hundredths. */
  datatype CachedResult = CachedResult(jobApplicationStatus: string, confidence: nat)

  /** The phrase cache, in its insertion order. */
  const EmailPatternCache: seq<(string, CachedResult)> := [
    ("thank you for applying", CachedResult("Application confirmation", 90)),
    ("unfortunately", CachedResult("Rejection", 80)),
    ("we regret to inform", CachedResult("Rejection", 95)),
    ("congratulations", CachedResult("Offer made", 90)),
    ("interview", CachedResult("Interview invitation", 80))
  ]

  /** Confidences above this many hundredths are trusted. */
  const ConfidenceThreshold: nat := 85

  predicate Hit(entry: (string, CachedResult), lowered: string)
  {
    Contains(entry.0, lowered) && entry.1.confidence > ConfidenceThreshold
  }

  /** The index of the first entry at or after `from` whose phrase occurs and whose confidence is trusted. */
  function FirstHitFrom(table: seq<(string, CachedResult)>, lowered: string, from: nat): (r: Option<nat>)
    requires from <= |table|
    ensures r.Some? ==> from <= r.value < |table| && Hit(table[r.value], lowered)
    ensures r.Some? ==> forall j :: from <= j < r.value ==> !Hit(table[j], lowered)
    ensures r.None? ==> forall j :: from <= j < |table| ==> !Hit(table[j], lowered)
    decreases |table| - from
  {
    if from == |table| then None
    else if Hit(table[from], lowered) then Some(from)
    else FirstHitFrom(table, lowered, from + 1)
  }

  /** `check_pattern_cache`: the first trusted entry, in table order, whose phrase occurs in the lower-cased text. */
  function CheckPatternCache(emailText: string): (r: Option<CachedResult>)
    ensures r.Some? <==> exists i :: 0 <= i < |EmailPatternCache| && Hit(EmailPatternCache[i], Lower(emailText))
    ensures r.Some? ==>
      exists i :: 0 <= i < |EmailPatternCache| && EmailPatternCache[i].1 == r.value &&
        Hit(EmailPatternCache[i], Lower(emailText)) &&
        forall j :: 0 <= j < i ==> !Hit(EmailPatternCache[j], Lower(emailText))
  {
    match FirstHitFrom(EmailPatternCache, Lower(emailText), 0)
    case Some(i) => Some(EmailPatternCache[i].1)
    case None => None
  }

  /**
   * The "unfortunately" and "interview" entries (confidence 80) are never
   * returned: a cached answer is never "Interview invitation", and a cached
   * "Rejection" always comes from "we regret to inform".
   */
  lemma LowConfidenceEntriesUnreachable(emailText: string)
    ensures CheckPatternCache(emailText).Some? ==> CheckPatternCache(emailText).value.confidence > 85
    ensures CheckPatternCache(emailText) != Some(EmailPatternCache[1].1)
    ensures CheckPatternCache(emailText) != Some(EmailPatternCache[4].1)
    ensures CheckPatternCache(emailText).Some? ==>
      CheckPatternCache(emailText).value.jobApplicationStatus != "Interview invitation"
    ensures CheckPatternCache(emailText).Some? && CheckPatternCache(emailText).value.jobApplicationStatus == "Rejection" ==>
      Contains("we regret to inform", Lower(emailText))
  {
  }
}
