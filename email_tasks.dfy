/**
 * The mail-ingestion task: one run record per user, admitted by a cooldown,
 * resumed or reset, then a sequential pass over the listed message ids that
 * skips stored mails, classifies the rest (phrase cache first, then the
 * provider), buffers new rows, checkpoints after each item, and finally
 * inserts the buffer in bulk and marks the run finished.
 *
 * Gmail, the classifier, the date parser and the retry-hint pattern are
 * inputs: each answer a call would give is fixed by an `Env` in advance.
 */
module EmailTasks {
  import opened Wrappers
  import opened Strings
  import opened UserEmailUtils
  import LlmOptimization
  import GeminiRetry
  import opened Counts

  /** The cooldown between two finished runs of the same user: one hour. */
  const SecondsBetweenFetchingEmails: int := 3600

  datatype Status = NotStarted | Started | Finished

  /** A row of the task-runs table, one per user; `updated` is in seconds. */
  datatype TaskRun = TaskRun(
    status: Status,
    processedEmails: nat,
    totalEmails: nat,
    errorMessage: Option<string>,
    updated: int,
    celeryTaskId: Option<string>)

  /** The row created for a user who has none yet. */
  function NewTaskRun(now: int): TaskRun
  {
    TaskRun(NotStarted, 0, 0, None, now, None)
  }

  /** How the task opens: turned away by the cooldown, or going ahead from `resumeFrom` with the committed record. */
  datatype Admission = Cooldown(nextAllowed: int) | Proceed(run: TaskRun, resumeFrom: nat)

  /**
   * The cooldown check, then the resume-or-reset decision, then the commit
   * that records the task id (every commit stamps `updated`).
   */
  function Admit(existing: Option<TaskRun>, now: int, taskId: string): (a: Admission)
    ensures a.Cooldown? <==>
      existing.Some? && now - existing.value.updated < SecondsBetweenFetchingEmails && existing.value.status == Finished
    ensures a.Cooldown? ==> a.nextAllowed == existing.value.updated + SecondsBetweenFetchingEmails
    ensures a.Proceed? ==>
      var before := existing.GetOr(NewTaskRun(now));
      a.run.status == Started && a.run.updated == now && a.run.celeryTaskId == Some(taskId) &&
      if before.status == Started && before.totalEmails > 0 then
        a.resumeFrom == before.processedEmails && a.run.processedEmails == before.processedEmails &&
        a.run.totalEmails == before.totalEmails && a.run.errorMessage == before.errorMessage
      else
        a.resumeFrom == 0 && a.run.processedEmails == 0 && a.run.totalEmails == 0 && a.run.errorMessage == None
  {
    if existing.Some? && now - existing.value.updated < SecondsBetweenFetchingEmails && existing.value.status == Finished then
      Cooldown(existing.value.updated + SecondsBetweenFetchingEmails)
    else
      var run := existing.GetOr(NewTaskRun(now));
      if run.status == Started && run.totalEmails > 0 then
        Proceed(run.(celeryTaskId := Some(taskId), updated := now), run.processedEmails)
      else
        Proceed(TaskRun(Started, 0, 0, None, now, Some(taskId)), 0)
  }

  /** A fetched Gmail message; a field that is None is missing from the dict. */
  datatype Message = Message(textContent: Option<string>, date: Option<string>, subject: Option<string>, from: Option<string>)

  /** What `get_email` does for one id: a message, a falsy answer, or an exception. */
  datatype Fetch = Fetched(msg: Message) | NoMessage | FetchFailed(error: string)

  /** What one `process_email` call does: a dict, any non-dict answer, or an exception. */
  datatype Answer = Dict(fields: map<string, Value>) | NotDict | ProviderFailed(error: string)

  /** The `last_updated` argument: absent or empty, a valid ISO timestamp, or text `fromisoformat` rejects. */
  datatype LastUpdated = NoLastUpdated | ValidIso | InvalidIso

  /**
   * One invocation of the task and everything it will observe. `fetch(i)` is
   * the fetch of the message at position i, `provider(k)` the answer of the
   * k-th classifier call of the run, `retryHint(e)` the number the
   * "retry after N seconds" pattern finds in `e`, `utcNow` the UTC clock in
   * seconds, `now` the local clock.
   */
  datatype Env = Env(
    userId: string,
    taskId: string,
    now: int,
    utcNow: int,
    credsValid: bool,
    lastUpdated: LastUpdated,
    listing: Result<seq<string>>,
    gemini: bool,
    fetch: nat -> Fetch,
    provider: nat -> Answer,
    parseDate: string -> Option<int>,
    retryHint: string -> Option<nat>)

  /** The exception a Gemini-mode cache miss raises: the limiter has no `get_wait_time`. */
  const GetWaitTimeError: string := "'RateLimitManager'" + " object has no" + " attribute" + " 'get_wait_time'"

  /** The exception the one-argument `should_retry_task` stub raises when called with two. */
  const StubArityError: string := "should_retry_task() takes 1 positional argument but 2 were given"

  /** The exception `.lower()` raises on a status that is not a string. */
  const LowerError: string := "object has no" + " attribute 'lower'"

  /** The KeyError for a message without "text_content". */
  const TextContentError: string := "'text_content'"

  /** The exception `fromisoformat` raises. */
  const InvalidIsoError: string := "Invalid isoformat string"

  /** The exception the bulk insert raises on a repeated primary key. */
  const IntegrityError: string := "IntegrityError: duplicate key"

  /** The error texts the task treats as rate or quota limits. */
  predicate IsQuota(error: string)
  {
    Contains("429", error) || Contains("quota", Lower(error)) || Contains("resource_exhausted", Lower(error))
  }

  /** The three-field dict that replaces any non-dict answer. */
  const UnknownResult: map<string, Value> :=
    map["company_name" := Str("unknown"), "application_status" := Str("unknown"), "job_title" := Str("unknown")]

  /** The cached result as a dict: its status, and its (truthy) confidence. */
  function CachedDict(c: LlmOptimization.CachedResult): map<string, Value>
  {
    map["job_application_status" := Str(c.jobApplicationStatus), "confidence" := NonStr(true)]
  }

  /** `d.get(k, default)`. */
  function Lookup(d: map<string, Value>, k: string, default: Value): Value
  {
    if k in d then d[k] else default
  }

  /** Every falsy value replaced by "unknown". */
  function Normalize(d: map<string, Value>): (r: map<string, Value>)
    ensures r.Keys == d.Keys
    ensures forall k :: k in r ==> !Falsy(r[k])
    ensures forall k :: k in d ==> r[k] == if Falsy(d[k]) then Str("unknown") else d[k]
  {
    map k | k in d :: if Falsy(d[k]) then Str("unknown") else d[k]
  }

  /** The `msg` variable of the loop: never assigned yet, or the last answer of `get_email`. */
  datatype MsgBinding = Unbound | Bound(msg: Option<Message>)

  /** Whether the loop goes on, stopped at an abort `break`, or was left by an exception. */
  datatype Exit = Running | Aborted | Escaped(error: string)

  /** The task's variables across the loop. */
  datatype LoopState = LoopState(
    run: TaskRun,
    records: seq<UserEmail>,
    processedCount: nat,
    skippedCount: nat,
    providerCalls: nat,
    msg: MsgBinding,
    exit: Exit)

  /** How the `try` block of one item ended. */
  datatype Attempt = Completed(st: LoopState) | Threw(st: LoopState, error: string)

  /** The classified part of the `try` block: drop a false positive, or try to build and buffer the row. */
  function Classified(env: Env, t: EmailTable, id: string, st: LoopState, m: Message, d: map<string, Value>): Attempt
  {
    var status := Lookup(d, "job_application_status", Str(""));
    if status.NonStr? then Threw(st, LowerError)
    else if Strip(Lower(status.s)) == "false positive" then Completed(st.(skippedCount := st.skippedCount + 1))
    else
      var data := MessageData(id, Lookup(d, "company_name", Str("unknown")),
                              Lookup(d, "job_application_status", Str("unknown")),
                              m.date.GetOr("unknown"), m.subject.GetOr("unknown"),
                              Lookup(d, "job_title", Str("unknown")), m.from.GetOr("unknown"));
      match CreateUserEmail(t, env.userId, data, env.parseDate)
      case Some(e) => Completed(st.(records := st.records + [e], processedCount := st.processedCount + 1))
      case None => Completed(st)
  }

  /** The `try` block for the item at `idx`: fetch, cache or provider, normalise, classify. */
  function ItemBody(env: Env, t: EmailTable, ids: seq<string>, st: LoopState, idx: nat): Attempt
    requires idx < |ids|
  {
    match env.fetch(idx)
    case FetchFailed(e) => Threw(st, e)
    case NoMessage => Completed(st.(msg := Bound(None)))
    case Fetched(m) =>
      var st0 := st.(msg := Bound(Some(m)));
      if m.textContent.None? then Threw(st0, TextContentError)
      else
        var cached := if env.gemini then LlmOptimization.CheckPatternCache(m.textContent.value) else None;
        if cached.Some? then Classified(env, t, ids[idx], st0, m, Normalize(CachedDict(cached.value)))
        else if env.gemini then Threw(st0, GetWaitTimeError)
        else
          var st1 := st0.(providerCalls := st0.providerCalls + 1);
          match env.provider(st0.providerCalls)
          case ProviderFailed(e) => Threw(st1, e)
          case NotDict => Classified(env, t, ids[idx], st1, m, UnknownResult)
          case Dict(d) => Classified(env, t, ids[idx], st1, m, Normalize(d))
  }

  /** The UTC seconds since midnight, as the retry policy reads them. */
  function SecondsSinceMidnight(env: Env): nat
  {
    env.utcNow % GeminiRetry.SecondsPerDay
  }

  /** The retry decision of a Gemini-mode quota error. */
  function RetryDecision(env: Env, error: string): (bool, nat)
  {
    GeminiRetry.ShouldRetryTask(error, 0, GeminiRetry.DefaultMaxAttempts, env.retryHint(error), SecondsSinceMidnight(env))
  }

  /** How the `except` block ended: the new state, and whether the item is still checkpointed. */
  datatype Handled = Handled(st: LoopState, checkpoint: bool)

  /** The `except` block for an item whose `try` block raised `error`. */
  function HandleError(env: Env, st: LoopState, error: string): Handled
  {
    if !IsQuota(error) then Handled(st, true)
    else if !env.gemini then Handled(st.(exit := Escaped(StubArityError)), false)
    else
      var decision := RetryDecision(env, error);
      if decision.0 && decision.1 < 300 then
        match st.msg
        case Unbound => Handled(st, false)
        case Bound(None) => Handled(st, false)
        case Bound(Some(m)) =>
          if m.textContent.None? then Handled(st, false)
          else
            var st1 := st.(providerCalls := st.providerCalls + 1);
            Handled(st1, !env.provider(st.providerCalls).ProviderFailed?)
      else
        Handled(st.(run := st.run.(errorMessage := Some("Rate limited: " + error)), exit := Aborted), false)
  }

  function Checkpoint(st: LoopState, idx: nat): LoopState
  {
    st.(run := st.run.(processedEmails := idx + 1))
  }

  /** One iteration of the loop, for the item at `idx`. */
  function Step(env: Env, t: EmailTable, ids: seq<string>, resumeFrom: nat, st: LoopState, idx: nat): LoopState
    requires idx < |ids|
  {
    if idx < resumeFrom then st
    else if CheckEmailExists(t, env.userId, ids[idx]) then
      Checkpoint(st.(skippedCount := st.skippedCount + 1), idx)
    else
      match ItemBody(env, t, ids, st, idx)
      case Completed(s) => Checkpoint(s, idx)
      case Threw(s, e) =>
        var h := HandleError(env, s, e);
        if h.checkpoint then Checkpoint(h.st, idx) else h.st
  }

  /** The loop from position `idx` on, until the ids run out or the loop is left. */
  function Loop(env: Env, t: EmailTable, ids: seq<string>, resumeFrom: nat, st: LoopState, idx: nat): LoopState
    requires idx <= |ids|
    decreases |ids| - idx
  {
    if idx == |ids| || !st.exit.Running? then st
    else Loop(env, t, ids, resumeFrom, Step(env, t, ids, resumeFrom, st, idx), idx + 1)
  }

  function Key(e: UserEmail): (string, string)
  {
    (e.userId, e.id)
  }

  /** The buffered rows have pairwise distinct keys, none already stored. */
  predicate NewKeys(t: EmailTable, records: seq<UserEmail>)
  {
    (forall i :: 0 <= i < |records| ==> Key(records[i]) !in t) &&
    (forall i, j :: 0 <= i < j < |records| ==> Key(records[i]) != Key(records[j]))
  }

  /** The table after the bulk insert of `records`. */
  function Insert(t: EmailTable, records: seq<UserEmail>): EmailTable
    decreases |records|
  {
    if records == [] then t else Insert(t[Key(records[0]) := records[0]], records[1..])
  }

  /** The task's reply. */
  datatype Outcome =
    | RateLimited(nextAllowed: int)
    | Success(processed: nat, skipped: nat, total: nat)
    | NoEmails
    | ErrorReply(message: string)
    | TaskFailed(error: string)

  /** The reply and the two tables after one invocation of the task. */
  datatype RunResult = RunResult(outcome: Outcome, runs: map<string, TaskRun>, table: EmailTable)

  /** The initial loop state. */
  function LoopStart(run: TaskRun): LoopState
  {
    LoopState(run, [], 0, 0, 0, Unbound, Running)
  }

  /** After the loop: the bulk insert, then FINISHED. */
  function Finish(runs: map<string, TaskRun>, t: EmailTable, userId: string, ids: seq<string>, st: LoopState): RunResult
  {
    if st.exit.Escaped? then RunResult(TaskFailed(st.exit.error), runs[userId := st.run], t)
    else if !NewKeys(t, st.records) then RunResult(TaskFailed(IntegrityError), runs[userId := st.run], t)
    else
      RunResult(Success(st.processedCount, st.skippedCount, |ids|),
                runs[userId := st.run.(status := Finished)], Insert(t, st.records))
  }

  /** `Admitted` for a listing that is not empty: the loop from the first id, then `Finish`. */
  lemma AdmittedListed(runs: map<string, TaskRun>, t: EmailTable, users: set<string>, env: Env,
                       run: TaskRun, resumeFrom: nat)
    requires env.credsValid && env.userId in users && env.lastUpdated != InvalidIso
    requires env.listing.Ok? && env.listing.value != []
    ensures var ids := env.listing.value;
      var total := run.(totalEmails := |ids|);
      Admitted(runs, t, users, env, run, resumeFrom) ==
        Finish(runs[env.userId := total], t, env.userId, ids, Loop(env, t, ids, resumeFrom, LoopStart(total), 0))
  {
  }

  /** `Finish` rewrites the user's own record, so what that record held before does not matter. */
  lemma FinishIgnoresOwnRecord(runs: map<string, TaskRun>, v: TaskRun, t: EmailTable, userId: string,
                               ids: seq<string>, st: LoopState)
    ensures Finish(runs[userId := v], t, userId, ids, st) == Finish(runs, t, userId, ids, st)
  {
    assert runs[userId := v][userId := st.run] == runs[userId := st.run];
    assert runs[userId := v][userId := st.run.(status := Finished)] == runs[userId := st.run.(status := Finished)];
  }

  /** `fetch_and_process_emails`, as a function of the tables and the environment. */
  function Run(runs: map<string, TaskRun>, t: EmailTable, users: set<string>, env: Env): RunResult
  {
    var u := env.userId;
    match Admit(if u in runs then Some(runs[u]) else None, env.now, env.taskId)
    case Cooldown(next) => RunResult(RateLimited(next), runs, t)
    case Proceed(run, resumeFrom) => Admitted(runs[u := run], t, users, env, run, resumeFrom)
  }

  /** The task once the run record is committed as STARTED: the early exits, then the listing. */
  function Admitted(runs: map<string, TaskRun>, t: EmailTable, users: set<string>, env: Env,
                    run: TaskRun, resumeFrom: nat): RunResult
  {
    var u := env.userId;
    if !env.credsValid then
      RunResult(ErrorReply("Invalid credentials"),
                runs[u := run.(status := Finished, errorMessage := Some("Invalid credentials"))], t)
    else if u !in users then
      RunResult(ErrorReply("User not found"),
                runs[u := run.(status := Finished, errorMessage := Some("User not found"))], t)
    else if env.lastUpdated == InvalidIso then RunResult(TaskFailed(InvalidIsoError), runs, t)
    else
      match env.listing
      case Err(e) => RunResult(TaskFailed(e), runs, t)
      case Ok(ids) =>
        if ids == [] then RunResult(NoEmails, runs[u := run.(status := Finished)], t)
        else
          var total := run.(totalEmails := |ids|);
          Finish(runs, t, u, ids, Loop(env, t, ids, resumeFrom, LoopStart(total), 0))
  }

  /** The `for key in result.keys()` loop: every falsy value becomes "unknown". */
  method NormalizeResult(d: map<string, Value>) returns (r: map<string, Value>)
    ensures r == Normalize(d)
  {
    r := d;
    var keys := d.Keys;
    while keys != {}
      invariant keys <= d.Keys && r.Keys == d.Keys
      invariant forall k :: k in keys ==> r[k] == d[k]
      invariant forall k :: k in d && k !in keys ==> r[k] == Normalize(d)[k]
      decreases keys
    {
      var k :| k in keys;
      if Falsy(r[k]) {
        r := r[k := Str("unknown")];
      }
      keys := keys - {k};
    }
  }

  /**
   * The `try` block for the item at `idx`: fetch the message, read its text,
   * take a trusted cached answer or ask the provider, normalise the answer,
   * and drop a false positive or buffer the new row.
   */
  method TryItem(env: Env, t: EmailTable, ids: seq<string>, st: LoopState, idx: nat) returns (a: Attempt)
    requires idx < |ids|
    ensures a == ItemBody(env, t, ids, st, idx)
  {
    match env.fetch(idx) {
      case FetchFailed(e) =>
        return Threw(st, e);
      case NoMessage =>
        return Completed(st.(msg := Bound(None)));
      case Fetched(m) =>
        var s := st.(msg := Bound(Some(m)));
        if m.textContent.None? {
          return Threw(s, TextContentError);
        }
        var cached := if env.gemini then LlmOptimization.CheckPatternCache(m.textContent.value) else None;
        var fields: map<string, Value>;
        if cached.Some? {
          fields := NormalizeResult(CachedDict(cached.value));
        } else if env.gemini {
          return Threw(s, GetWaitTimeError);
        } else {
          var result := env.provider(s.providerCalls);
          s := s.(providerCalls := s.providerCalls + 1);
          if result.ProviderFailed? {
            return Threw(s, result.error);
          } else if result.Dict? {
            fields := NormalizeResult(result.fields);
          } else {
            fields := UnknownResult;
          }
        }
        a := ClassifyFields(env, t, ids[idx], s, m, fields);
    }
  }

  /** The classified part of the `try` block, on the normalised fields. */
  method ClassifyFields(env: Env, t: EmailTable, id: string, s: LoopState, m: Message, fields: map<string, Value>)
    returns (a: Attempt)
    ensures a == Classified(env, t, id, s, m, fields)
  {
    var status := Lookup(fields, "job_application_status", Str(""));
    if status.NonStr? {
      return Threw(s, LowerError);
    }
    if Strip(Lower(status.s)) == "false positive" {
      return Completed(s.(skippedCount := s.skippedCount + 1));
    }
    var data := MessageData(id, Lookup(fields, "company_name", Str("unknown")),
                            Lookup(fields, "job_application_status", Str("unknown")),
                            m.date.GetOr("unknown"), m.subject.GetOr("unknown"),
                            Lookup(fields, "job_title", Str("unknown")), m.from.GetOr("unknown"));
    var record := CreateUserEmail(t, env.userId, data, env.parseDate);
    a := Completed(s);
    if record.Some? {
      a := Completed(s.(records := s.records + [record.value], processedCount := s.processedCount + 1));
    }
  }

  /**
   * The `except` block: an error that is not a quota error is logged and the
   * item checkpointed; a quota error either escapes (the one-argument stub),
   * is retried once with the last fetched message, or stops the loop.
   */
  method HandleException(env: Env, st: LoopState, error: string) returns (h: Handled)
    ensures h == HandleError(env, st, error)
  {
    if !IsQuota(error) {
      return Handled(st, true);
    }
    if !env.gemini {
      return Handled(st.(exit := Escaped(StubArityError)), false);
    }
    var decision := RetryDecision(env, error);
    if decision.0 && decision.1 < 300 {
      if st.msg.Bound? && st.msg.msg.Some? && st.msg.msg.value.textContent.Some? {
        var retried := env.provider(st.providerCalls);
        return Handled(st.(providerCalls := st.providerCalls + 1), !retried.ProviderFailed?);
      }
      return Handled(st, false);
    }
    return Handled(st.(run := st.run.(errorMessage := Some("Rate limited: " + error)), exit := Aborted), false);
  }
  /** One pass of the loop body for a visited position: the stored-mail check, the `try` block, the `except` block. */
  method ProcessItem(env: Env, t: EmailTable, ids: seq<string>, resumeFrom: nat, st: LoopState, idx: nat)
    returns (s: LoopState)
    requires resumeFrom <= idx < |ids|
    ensures s == Step(env, t, ids, resumeFrom, st, idx)
  {
    if CheckEmailExists(t, env.userId, ids[idx]) {
      return Checkpoint(st.(skippedCount := st.skippedCount + 1), idx);
    }
    var attempt := TryItem(env, t, ids, st, idx);
    if attempt.Completed? {
      return Checkpoint(attempt.st, idx);
    }
    var handled := HandleException(env, attempt.st, attempt.error);
    s := if handled.checkpoint then Checkpoint(handled.st, idx) else handled.st;
  }


  /** The answer of `get_processing_status`. */
  datatype ProcessingStatus =
    | NotStartedReply
    | StatusReply(status: Status, processedEmails: nat, totalEmails: nat, updated: int, celeryTaskId: Option<string>)

  /** The stored tables the task reads and writes: task runs by user, stored mails, and the known users. */
  class EmailTasks {
    var runs: map<string, TaskRun>
    var userEmails: EmailTable
    var users: set<string>

    constructor(runs: map<string, TaskRun>, userEmails: EmailTable, users: set<string>)
      ensures this.runs == runs && this.userEmails == userEmails && this.users == users
    {
      this.runs := runs;
      this.userEmails := userEmails;
      this.users := users;
    }

    /**
     * `fetch_and_process_emails`. Every commit of the run record is an
     * assignment to `runs`; the stored mails change only at the bulk insert.
     */
    method FetchAndProcessEmails(env: Env) returns (outcome: Outcome)
      modifies this
      ensures users == old(users)
      ensures RunResult(outcome, runs, userEmails) == Run(old(runs), old(userEmails), old(users), env)
    {
      var u := env.userId;
      var run: TaskRun;
      if u !in runs {
        run := NewTaskRun(env.now);
      } else if env.now - runs[u].updated < SecondsBetweenFetchingEmails && runs[u].status == Finished {
        return RateLimited(runs[u].updated + SecondsBetweenFetchingEmails);
      } else {
        run := runs[u];
      }
      var resumeFrom: nat;
      if run.status == Started && run.totalEmails > 0 {
        resumeFrom := run.processedEmails;
      } else {
        run := run.(processedEmails := 0, totalEmails := 0, status := Started, errorMessage := None);
        resumeFrom := 0;
      }
      run := run.(celeryTaskId := Some(env.taskId), updated := env.now);
      assert Admit(if u in old(runs) then Some(old(runs)[u]) else None, env.now, env.taskId) == Proceed(run, resumeFrom);
      runs := runs[u := run];
      outcome := RunAdmitted(env, run, resumeFrom);
    }

    /** The task after the run record was committed as STARTED. */
    method RunAdmitted(env: Env, admitted: TaskRun, resumeFrom: nat) returns (outcome: Outcome)
      modifies this
      requires env.userId in runs && runs[env.userId] == admitted
      ensures users == old(users)
      ensures RunResult(outcome, runs, userEmails) == Admitted(old(runs), old(userEmails), old(users), env, admitted, resumeFrom)
    {
      var u := env.userId;
      var run := admitted;

      if !env.credsValid {
        run := run.(status := Finished, errorMessage := Some("Invalid credentials"));
        runs := runs[u := run];
        return ErrorReply("Invalid credentials");
      }
      if u !in users {
        run := run.(status := Finished, errorMessage := Some("User not found"));
        runs := runs[u := run];
        return ErrorReply("User not found");
      }
      if env.lastUpdated == InvalidIso {
        return TaskFailed(InvalidIsoError);
      }
      if env.listing.Err? {
        return TaskFailed(env.listing.error);
      }
      var ids := env.listing.value;
      if ids == [] {
        run := run.(status := Finished);
        runs := runs[u := run];
        return NoEmails;
      }
      run := run.(totalEmails := |ids|);
      runs := runs[u := run];
      ghost var committed := runs;

      var st := ProcessMessages(env, ids, resumeFrom, run);
      FinishIgnoresOwnRecord(committed, st.run, userEmails, u, ids, st);
      AdmittedListed(old(runs), old(userEmails), old(users), env, admitted, resumeFrom);
      outcome := StoreResults(env, ids, st);
    }

    /** The `for idx, message in enumerate(messages)` loop, committing the run record after every change. */
    method ProcessMessages(env: Env, ids: seq<string>, resumeFrom: nat, run: TaskRun) returns (st: LoopState)
      modifies this
      requires env.userId in runs && runs[env.userId] == run
      ensures st == Loop(env, userEmails, ids, resumeFrom, LoopStart(run), 0)
      ensures userEmails == old(userEmails) && users == old(users)
      ensures runs == old(runs)[env.userId := st.run]
    {
      var u := env.userId;
      st := LoopStart(run);
      var idx := 0;
      while idx < |ids| && st.exit == Running
        invariant 0 <= idx <= |ids|
        invariant userEmails == old(userEmails) && users == old(users)
        invariant runs == old(runs)[u := st.run]
        invariant Loop(env, userEmails, ids, resumeFrom, LoopStart(run), 0) == Loop(env, userEmails, ids, resumeFrom, st, idx)
        decreases |ids| - idx
      {
        if idx < resumeFrom {
          idx := idx + 1;
          continue;
        }
        st := ProcessItem(env, userEmails, ids, resumeFrom, st, idx);
        runs := runs[u := st.run];
        idx := idx + 1;
      }
    }

    /** The run record and the finished task once the loop is left. */
    method StoreResults(env: Env, ids: seq<string>, st: LoopState) returns (outcome: Outcome)
      modifies this
      requires env.userId in runs && runs[env.userId] == st.run
      ensures users == old(users)
      ensures RunResult(outcome, runs, userEmails) == Finish(old(runs), old(userEmails), env.userId, ids, st)
    {
      var u := env.userId;
      assert old(runs)[u := st.run] == old(runs);
      if st.exit.Escaped? {
        return TaskFailed(st.exit.error);
      }
      if st.records != [] {
        if !NewKeys(userEmails, st.records) {
          return TaskFailed(IntegrityError);
        }
        userEmails := Insert(userEmails, st.records);
      }
      var finished := st.run.(status := Finished);
      runs := runs[u := finished];
      return Success(st.processedCount, st.skippedCount, |ids|);
    }

    /**
     * `on_failure`: a failed task whose `user_id` keyword argument is
     * non-empty and names a stored run marks that run finished with the error.
     */
    method OnFailure(userIdKwarg: Option<string>, exc: string, now: int)
      modifies this
      ensures userEmails == old(userEmails) && users == old(users)
      ensures userIdKwarg.Some? && userIdKwarg.value != "" && userIdKwarg.value in old(runs) ==>
        runs == old(runs)[userIdKwarg.value :=
          old(runs)[userIdKwarg.value].(status := Finished, errorMessage := Some(exc), updated := now)]
      ensures !(userIdKwarg.Some? && userIdKwarg.value != "" && userIdKwarg.value in old(runs)) ==> runs == old(runs)
    {
      if userIdKwarg.Some? && userIdKwarg.value != "" && userIdKwarg.value in runs {
        var u := userIdKwarg.value;
        runs := runs[u := runs[u].(status := Finished, errorMessage := Some(exc), updated := now)];
      }
    }

    /** One execution by the worker: the task, then `on_failure` if it raised. */
    method ExecuteTask(env: Env, userIdKwarg: Option<string>, failureTime: int) returns (outcome: Outcome)
      modifies this
      ensures users == old(users)
      ensures var r := Run(old(runs), old(userEmails), old(users), env);
        outcome == r.outcome && userEmails == r.table &&
        runs == if outcome.TaskFailed? then AfterFailure(r.runs, userIdKwarg, outcome.error, failureTime) else r.runs
    {
      outcome := FetchAndProcessEmails(env);
      if outcome.TaskFailed? {
        OnFailure(userIdKwarg, outcome.error, failureTime);
      }
    }

    /** `get_processing_status`. */
    function GetProcessingStatus(userId: string): (r: ProcessingStatus)
      reads this
      ensures r.NotStartedReply? <==> userId !in runs
      ensures r.StatusReply? ==>
        r.status == runs[userId].status && r.processedEmails == runs[userId].processedEmails &&
        r.totalEmails == runs[userId].totalEmails && r.updated == runs[userId].updated &&
        r.celeryTaskId == runs[userId].celeryTaskId
    {
      StatusOf(runs, userId)
    }
  }

  /** The runs table after `on_failure`. */
  function AfterFailure(runs: map<string, TaskRun>, userIdKwarg: Option<string>, exc: string, now: int): map<string, TaskRun>
  {
    if userIdKwarg.Some? && userIdKwarg.value != "" && userIdKwarg.value in runs then
      runs[userIdKwarg.value := runs[userIdKwarg.value].(status := Finished, errorMessage := Some(exc), updated := now)]
    else runs
  }

  /** The status reply for a runs table. */
  function StatusOf(runs: map<string, TaskRun>, userId: string): ProcessingStatus
  {
    if userId !in runs then NotStartedReply
    else
      var r := runs[userId];
      StatusReply(r.status, r.processedEmails, r.totalEmails, r.updated, r.celeryTaskId)
  }

  /** A text that lacks a digit 4, both cases of q and both cases of d is not a quota error. */
  lemma NotQuota(e: string)
    requires Lacks(e, '4') && Lacks(e, 'q') && Lacks(e, 'Q') && Lacks(e, 'd') && Lacks(e, 'D')
    ensures !IsQuota(e)
  {
    NotContainsLacking("429", e, 0);
    LowerLacks(e, 'q');
    NotContainsLacking("quota", Lower(e), 0);
    LowerLacks(e, 'd');
    NotContainsLacking("resource_exhausted", Lower(e), 17);
  }

  /** The task's own exceptions are not quota errors, so they are logged and the item checkpointed. */
  lemma OwnErrorsAreNotQuota()
    ensures !IsQuota(GetWaitTimeError) && !IsQuota(LowerError) && !IsQuota(TextContentError)
  {
    GetWaitTimeErrorNotQuota();
    LowerErrorNotQuota();
    TextContentErrorNotQuota();
  }

  lemma GetWaitTimeErrorNotQuota()
    ensures !IsQuota(GetWaitTimeError)
  {
    var a, b, c, d := "'RateLimitManager'", " object has no", " attribute", " 'get_wait_time'";
    forall ch | ch in "4qQdD" ensures Lacks(a + b + c + d, ch) {
      LacksConcat(a, b, ch);
      LacksConcat(a + b, c, ch);
      LacksConcat(a + b + c, d, ch);
    }
    NotQuota(a + b + c + d);
  }

  lemma LowerErrorNotQuota()
    ensures !IsQuota(LowerError)
  {
    var x, y := "object has no", " attribute 'lower'";
    forall ch | ch in "4qQdD" ensures Lacks(x + y, ch) {
      LacksConcat(x, y, ch);
    }
    NotQuota(x + y);
  }

  lemma TextContentErrorNotQuota()
    ensures !IsQuota(TextContentError)
  {
    NotQuota(TextContentError);
  }

  /** The statuses of the trusted cache entries. */
  predicate CachedStatus(v: Value)
  {
    v == Str("Application confirmation") || v == Str("Rejection") || v == Str("Offer made")
  }

  /** A status the task stores: a non-empty string that is not a false positive. */
  predicate Storable(v: Value)
  {
    v.Str? && v.s != "" && Strip(Lower(v.s)) != "false positive"
  }

  /** A trusted cache answer carries one of three statuses. */
  lemma CachedAnswerStatus(text: string)
    requires LlmOptimization.CheckPatternCache(text).Some?
    ensures CachedStatus(Str(LlmOptimization.CheckPatternCache(text).value.jobApplicationStatus))
  {
    LlmOptimization.LowConfidenceEntriesUnreachable(text);
  }

  /** A row buffered for message id `id`: new for the table, the task user's, with a storable status. */
  predicate NewRow(env: Env, t: EmailTable, id: string, e: UserEmail)
  {
    Key(e) !in t && e.userId == env.userId && e.id == id && Storable(e.applicationStatus) &&
    (env.gemini ==> CachedStatus(e.applicationStatus))
  }

  /** How one item may change the counters and the buffer: not at all, one more skip, or one more row. */
  predicate ItemChange(env: Env, t: EmailTable, id: string, st: LoopState, s: LoopState)
  {
    s.run == st.run && s.exit == st.exit &&
    ((s.records == st.records && s.processedCount == st.processedCount &&
      s.skippedCount <= st.skippedCount + 1) ||
     (s.skippedCount == st.skippedCount && s.processedCount == st.processedCount + 1 &&
      |s.records| == |st.records| + 1 && s.records[..|st.records|] == st.records &&
      NewRow(env, t, id, s.records[|st.records|])))
  }

  /** The classified step buffers only a new, storable row, and raises no quota error. */
  lemma ClassifiedFacts(env: Env, t: EmailTable, id: string, st: LoopState, m: Message, d: map<string, Value>)
    requires forall k :: k in d ==> !Falsy(d[k])
    requires env.gemini ==> "job_application_status" in d && CachedStatus(d["job_application_status"])
    ensures var a := Classified(env, t, id, st, m, d);
      ItemChange(env, t, id, st, a.st) && a.st.providerCalls == st.providerCalls && a.st.msg == st.msg &&
      (a.Threw? ==> a.error == LowerError)
  {
    var a := Classified(env, t, id, st, m, d);
    var status := Lookup(d, "job_application_status", Str(""));
    if status.Str? && Strip(Lower(status.s)) != "false positive" {
      var stored := Lookup(d, "job_application_status", Str("unknown"));
      if "job_application_status" !in d {
        assert Lower("unknown") == "unknown";
        StripStripped("unknown");
      }
      assert Storable(stored);
      if a.st.records != st.records {
        assert a.st.records == st.records + [a.st.records[|st.records|]];
      }
    }
  }

  /** The Gmail fetch at position `idx` raises a quota error. */
  predicate QuotaFetchFailure(env: Env, idx: nat)
  {
    env.fetch(idx).FetchFailed? && IsQuota(env.fetch(idx).error)
  }

  /**
   * The `try` block changes at most one counter or appends one new row; in
   * Gemini mode it never calls the provider, and it raises a quota error only
   * when the Gmail fetch did.
   */
  lemma ItemBodyFacts(env: Env, t: EmailTable, ids: seq<string>, st: LoopState, idx: nat)
    requires idx < |ids|
    ensures var a := ItemBody(env, t, ids, st, idx);
      ItemChange(env, t, ids[idx], st, a.st) &&
      (env.gemini ==> a.st.providerCalls == st.providerCalls) &&
      (env.gemini && a.Threw? && IsQuota(a.error) ==> QuotaFetchFailure(env, idx))
  {
    if env.fetch(idx).Fetched? {
      FetchedFacts(env, t, ids, st, idx, env.fetch(idx).msg);
    }
  }

  /** The `try` block after a successful Gmail fetch. */
  lemma FetchedFacts(env: Env, t: EmailTable, ids: seq<string>, st: LoopState, idx: nat, m: Message)
    requires idx < |ids| && env.fetch(idx) == Fetched(m)
    ensures var a := ItemBody(env, t, ids, st, idx);
      ItemChange(env, t, ids[idx], st, a.st) &&
      (env.gemini ==> a.st.providerCalls == st.providerCalls) &&
      (env.gemini && a.Threw? ==> !IsQuota(a.error))
  {
    if m.textContent.None? {
      TextContentErrorNotQuota();
    } else if !env.gemini {
      ProviderFacts(env, t, ids, st, idx, m);
    } else if LlmOptimization.CheckPatternCache(m.textContent.value).Some? {
      CachedFacts(env, t, ids, st, idx, m);
    } else {
      GetWaitTimeErrorNotQuota();
    }
  }

  /** In Gemini mode, a trusted cache answer is classified without calling the provider. */
  lemma CachedFacts(env: Env, t: EmailTable, ids: seq<string>, st: LoopState, idx: nat, m: Message)
    requires idx < |ids| && env.fetch(idx) == Fetched(m) && env.gemini && m.textContent.Some?
    requires LlmOptimization.CheckPatternCache(m.textContent.value).Some?
    ensures var a := ItemBody(env, t, ids, st, idx);
      ItemChange(env, t, ids[idx], st, a.st) && a.st.providerCalls == st.providerCalls &&
      (a.Threw? ==> !IsQuota(a.error))
  {
    var st0 := st.(msg := Bound(Some(m)));
    CachedAnswerStatus(m.textContent.value);
    var d := CachedDict(LlmOptimization.CheckPatternCache(m.textContent.value).value);
    assert Normalize(d)["job_application_status"] == d["job_application_status"];
    ClassifiedFacts(env, t, ids[idx], st0, m, Normalize(d));
    LowerErrorNotQuota();
  }

  /** Outside Gemini mode, the provider's answer is classified; the change is that of one item. */
  lemma ProviderFacts(env: Env, t: EmailTable, ids: seq<string>, st: LoopState, idx: nat, m: Message)
    requires idx < |ids| && env.fetch(idx) == Fetched(m) && !env.gemini && m.textContent.Some?
    ensures ItemChange(env, t, ids[idx], st, ItemBody(env, t, ids, st, idx).st)
  {
    match env.provider(st.providerCalls)
    case ProviderFailed(e) =>
    case NotDict => ProviderAnswerFacts(env, t, ids, st, idx, m, UnknownResult);
    case Dict(d) => ProviderAnswerFacts(env, t, ids, st, idx, m, Normalize(d));
  }

  /** The classification of one answer of the provider, normalised to `d`. */
  lemma ProviderAnswerFacts(env: Env, t: EmailTable, ids: seq<string>, st: LoopState, idx: nat, m: Message,
                            d: map<string, Value>)
    requires idx < |ids| && env.fetch(idx) == Fetched(m) && !env.gemini && m.textContent.Some?
    requires env.provider(st.providerCalls) == NotDict ==> d == UnknownResult
    requires env.provider(st.providerCalls).Dict? ==> d == Normalize(env.provider(st.providerCalls).fields)
    requires !env.provider(st.providerCalls).ProviderFailed?
    ensures ItemChange(env, t, ids[idx], st, ItemBody(env, t, ids, st, idx).st)
  {
    var st1 := st.(msg := Bound(Some(m)), providerCalls := st.providerCalls + 1);
    ProviderAnswerBody(env, t, ids, st, idx, m, d);
    ClassifiedFacts(env, t, ids[idx], st1, m, d);
  }

  lemma ProviderAnswerBody(env: Env, t: EmailTable, ids: seq<string>, st: LoopState, idx: nat, m: Message,
                           d: map<string, Value>)
    requires idx < |ids| && env.fetch(idx) == Fetched(m) && !env.gemini && m.textContent.Some?
    requires env.provider(st.providerCalls) == NotDict ==> d == UnknownResult
    requires env.provider(st.providerCalls).Dict? ==> d == Normalize(env.provider(st.providerCalls).fields)
    requires !env.provider(st.providerCalls).ProviderFailed?
    ensures ItemBody(env, t, ids, st, idx) ==
            Classified(env, t, ids[idx], st.(msg := Bound(Some(m)), providerCalls := st.providerCalls + 1), m, d)
  {
  }

  /**
   * The `except` block keeps the counters and the buffer; it stops the loop
   * only in Gemini mode, recording "Rate limited: " and the quota error, and
   * lets an exception escape only in the other mode.
   */
  lemma HandleErrorFacts(env: Env, st: LoopState, error: string)
    requires st.exit == Running
    ensures !IsQuota(error) ==> HandleError(env, st, error) == Handled(st, true)
    ensures var h := HandleError(env, st, error);
      h.st.records == st.records && h.st.processedCount == st.processedCount &&
      h.st.skippedCount == st.skippedCount && h.st.msg == st.msg &&
      h.st.run.(errorMessage := st.run.errorMessage) == st.run &&
      (h.checkpoint ==> h.st.exit == st.exit) &&
      (h.st.exit != st.exit ==> IsQuota(error) && !h.checkpoint) &&
      (h.st.exit != st.exit ==> h.st.exit == (if env.gemini then Aborted else Escaped(StubArityError))) &&
      (h.st.exit == Aborted ==> h.st.run.errorMessage == Some("Rate limited: " + error)) &&
      (h.st.exit == st.exit ==> h.st.run.errorMessage == st.run.errorMessage)
  {
  }

  /** No Gmail fetch before position `idx` raised a quota error. */
  predicate NoQuotaFetchFailureBefore(env: Env, idx: nat)
  {
    forall j :: 0 <= j < idx ==> !QuotaFetchFailure(env, j)
  }

  function Smaller(a: nat, b: nat): nat
  {
    if a < b then a else b
  }

  /**
   * What holds of the loop state before position `idx`, for a loop that
   * started from the committed record `start`: one buffered row per processed
   * mail, each new and from a visited position; at most one count per visited
   * position; only the checkpoint and, on an abort, the error message of the
   * record changed; an abort only in Gemini mode, an escape only in the other.
   */
  ghost predicate LoopInv(env: Env, t: EmailTable, ids: seq<string>, resumeFrom: nat, start: TaskRun,
                           st: LoopState, idx: nat)
  {
    idx <= |ids| && CountsInv(resumeFrom, st, idx) && RowsInv(env, t, ids, resumeFrom, st.records, idx) &&
    RecordInv(resumeFrom, start, st, idx) && ExitInv(env, start, st) && CallsInv(env, st, idx)
  }

  /** One buffered row per processed mail, and at most one count per visited position. */
  predicate CountsInv(resumeFrom: nat, st: LoopState, idx: nat)
  {
    st.processedCount == |st.records| &&
    st.processedCount + st.skippedCount <= idx - Smaller(resumeFrom, idx)
  }

  /** Every buffered row is new and comes from a visited position; distinct ids give distinct rows. */
  ghost predicate RowsInv(env: Env, t: EmailTable, ids: seq<string>, resumeFrom: nat, records: seq<UserEmail>, idx: nat)
    requires idx <= |ids|
  {
    (forall i :: 0 <= i < |records| ==>
      exists j :: resumeFrom <= j < idx && NewRow(env, t, ids[j], records[i])) &&
    (Distinct(ids) ==> forall i, k :: 0 <= i < k < |records| ==> records[i].id != records[k].id)
  }

  /** Only the checkpoint and the error message of the record change; a checkpoint lies past `resumeFrom`. */
  predicate RecordInv(resumeFrom: nat, start: TaskRun, st: LoopState, idx: nat)
  {
    st.run.status == start.status && st.run.totalEmails == start.totalEmails &&
    st.run.updated == start.updated && st.run.celeryTaskId == start.celeryTaskId &&
    (st.run.processedEmails == start.processedEmails || resumeFrom < st.run.processedEmails <= idx)
  }

  /** An abort only in Gemini mode, after a quota error; an escape only in the other mode. */
  ghost predicate ExitInv(env: Env, start: TaskRun, st: LoopState)
  {
    (st.exit == Aborted ==> env.gemini && exists e :: IsQuota(e) && st.run.errorMessage == Some("Rate limited: " + e)) &&
    (st.exit != Aborted ==> st.run.errorMessage == start.errorMessage) &&
    (st.exit.Escaped? ==> !env.gemini && st.exit.error == StubArityError)
  }

  /** In Gemini mode the provider is called only after a Gmail fetch raised a quota error. */
  predicate CallsInv(env: Env, st: LoopState, idx: nat)
  {
    env.gemini && NoQuotaFetchFailureBefore(env, idx) ==> st.providerCalls == 0
  }

  lemma LoopInvStart(env: Env, t: EmailTable, ids: seq<string>, resumeFrom: nat, start: TaskRun)
    ensures LoopInv(env, t, ids, resumeFrom, start, LoopStart(start), 0)
  {
  }

  /** The invariant at a position stays true at every later one. */
  lemma LoopInvLater(env: Env, t: EmailTable, ids: seq<string>, resumeFrom: nat, start: TaskRun,
                     st: LoopState, idx: nat, later: nat)
    requires LoopInv(env, t, ids, resumeFrom, start, st, idx) && idx <= later <= |ids|
    ensures LoopInv(env, t, ids, resumeFrom, start, st, later)
  {
    forall i | 0 <= i < |st.records|
      ensures exists j :: resumeFrom <= j < later && NewRow(env, t, ids[j], st.records[i])
    {
      var j :| resumeFrom <= j < idx && NewRow(env, t, ids[j], st.records[i]);
      assert resumeFrom <= j < later && NewRow(env, t, ids[j], st.records[i]);
    }
    if env.gemini && NoQuotaFetchFailureBefore(env, later) {
      assert NoQuotaFetchFailureBefore(env, idx);
    }
    assert CountsInv(resumeFrom, st, later);
    assert forall i :: 0 <= i < |st.records| ==>
      exists j :: resumeFrom <= j < later && NewRow(env, t, ids[j], st.records[i]);
    assert Distinct(ids) ==> forall i, k :: 0 <= i < k < |st.records| ==> st.records[i].id != st.records[k].id;
    assert RowsInv(env, t, ids, resumeFrom, st.records, later);
    assert RecordInv(resumeFrom, start, st, later);
    assert CallsInv(env, st, later);
  }

  /** One iteration keeps the invariant. */
  lemma StepKeepsInv(env: Env, t: EmailTable, ids: seq<string>, resumeFrom: nat, start: TaskRun,
                     st: LoopState, idx: nat)
    requires LoopInv(env, t, ids, resumeFrom, start, st, idx) && idx < |ids| && st.exit == Running
    ensures LoopInv(env, t, ids, resumeFrom, start, Step(env, t, ids, resumeFrom, st, idx), idx + 1)
  {
    LoopInvLater(env, t, ids, resumeFrom, start, st, idx, idx + 1);
    if idx < resumeFrom {
    } else if CheckEmailExists(t, env.userId, ids[idx]) {
      SkipKeepsInv(env, t, ids, resumeFrom, start, st, idx);
      CheckpointKeepsInv(env, t, ids, resumeFrom, start, st.(skippedCount := st.skippedCount + 1), idx);
    } else {
      AttemptKeepsInv(env, t, ids, resumeFrom, start, st, idx);
      match ItemBody(env, t, ids, st, idx)
      case Completed(s) =>
        CheckpointKeepsInv(env, t, ids, resumeFrom, start, s, idx);
      case Threw(s, e) =>
        HandleKeepsInv(env, t, ids, resumeFrom, start, s, idx, e);
        var h := HandleError(env, s, e);
        if h.checkpoint {
          CheckpointKeepsInv(env, t, ids, resumeFrom, start, h.st, idx);
        }
    }
  }

  /** A mail already stored counts one more skip. */
  lemma SkipKeepsInv(env: Env, t: EmailTable, ids: seq<string>, resumeFrom: nat, start: TaskRun,
                     st: LoopState, idx: nat)
    requires LoopInv(env, t, ids, resumeFrom, start, st, idx) && idx < |ids| && resumeFrom <= idx
    ensures LoopInv(env, t, ids, resumeFrom, start, st.(skippedCount := st.skippedCount + 1), idx + 1)
  {
    LoopInvLater(env, t, ids, resumeFrom, start, st, idx, idx + 1);
  }

  /** The `try` block of a visited item keeps the invariant at the next position. */
  lemma AttemptKeepsInv(env: Env, t: EmailTable, ids: seq<string>, resumeFrom: nat, start: TaskRun,
                        st: LoopState, idx: nat)
    requires LoopInv(env, t, ids, resumeFrom, start, st, idx) && idx < |ids| && resumeFrom <= idx
    ensures LoopInv(env, t, ids, resumeFrom, start, ItemBody(env, t, ids, st, idx).st, idx + 1)
    ensures var a := ItemBody(env, t, ids, st, idx);
      a.st.exit == st.exit && (env.gemini && a.Threw? && IsQuota(a.error) ==> QuotaFetchFailure(env, idx))
  {
    ItemBodyFacts(env, t, ids, st, idx);
    var s := ItemBody(env, t, ids, st, idx).st;
    ItemKeepsRows(env, t, ids, resumeFrom, st, s, idx);
    if env.gemini && NoQuotaFetchFailureBefore(env, idx + 1) {
      assert NoQuotaFetchFailureBefore(env, idx);
    }
  }

  /** The `except` block keeps the invariant; in Gemini mode only a quota error from Gmail calls the provider. */
  lemma HandleKeepsInv(env: Env, t: EmailTable, ids: seq<string>, resumeFrom: nat, start: TaskRun,
                       s: LoopState, idx: nat, error: string)
    requires LoopInv(env, t, ids, resumeFrom, start, s, idx + 1) && idx < |ids| && s.exit == Running
    requires env.gemini && IsQuota(error) ==> QuotaFetchFailure(env, idx)
    ensures LoopInv(env, t, ids, resumeFrom, start, HandleError(env, s, error).st, idx + 1)
  {
    HandleErrorFacts(env, s, error);
    var h := HandleError(env, s, error);
    if h.st.exit == Aborted {
      assert IsQuota(error) && h.st.run.errorMessage == Some("Rate limited: " + error);
    }
    if env.gemini && NoQuotaFetchFailureBefore(env, idx + 1) {
      assert !QuotaFetchFailure(env, idx);
    }
  }

  /** Recording the checkpoint of a visited item keeps the invariant. */
  lemma CheckpointKeepsInv(env: Env, t: EmailTable, ids: seq<string>, resumeFrom: nat, start: TaskRun,
                           s: LoopState, idx: nat)
    requires LoopInv(env, t, ids, resumeFrom, start, s, idx + 1) && idx < |ids| && resumeFrom <= idx
    ensures LoopInv(env, t, ids, resumeFrom, start, Checkpoint(s, idx), idx + 1)
  {
  }

  /** The rows after one item are the rows before it, plus at most one new row from position `idx`. */
  lemma ItemKeepsRows(env: Env, t: EmailTable, ids: seq<string>, resumeFrom: nat, st: LoopState, s: LoopState, idx: nat)
    requires idx < |ids| && resumeFrom <= idx
    requires ItemChange(env, t, ids[idx], st, s)
    requires RowsInv(env, t, ids, resumeFrom, st.records, idx)
    ensures RowsInv(env, t, ids, resumeFrom, s.records, idx + 1)
  {
    var n := |st.records|;
    forall i | 0 <= i < |s.records|
      ensures exists j :: resumeFrom <= j < idx + 1 && NewRow(env, t, ids[j], s.records[i])
    {
      if i < n {
        assert s.records[i] == st.records[i] by {
          if s.records != st.records { assert s.records[i] == s.records[..n][i]; }
        }
        var j := OldRowFrom(env, t, ids, resumeFrom, st, idx, i);
        assert resumeFrom <= j < idx + 1;
      } else {
        assert NewRow(env, t, ids[idx], s.records[i]);
      }
    }
    if Distinct(ids) && s.records != st.records {
      forall i, k | 0 <= i < k < |s.records| ensures s.records[i].id != s.records[k].id {
        assert s.records[i] == s.records[..n][i];
        if k < n {
          assert s.records[k] == s.records[..n][k];
        } else {
          var j := OldRowFrom(env, t, ids, resumeFrom, st, idx, i);
          assert ids[j] != ids[idx];
        }
      }
    }
  }

  /** The position a buffered row came from. */
  lemma OldRowFrom(env: Env, t: EmailTable, ids: seq<string>, resumeFrom: nat, st: LoopState, idx: nat, i: nat)
    returns (j: nat)
    requires idx <= |ids| && RowsInv(env, t, ids, resumeFrom, st.records, idx) && i < |st.records|
    ensures resumeFrom <= j < idx && NewRow(env, t, ids[j], st.records[i])
  {
    var e := st.records[i];
    assert exists j :: resumeFrom <= j < idx && NewRow(env, t, ids[j], e);
    j :| resumeFrom <= j < idx && NewRow(env, t, ids[j], e);
  }

  /** The loop keeps the invariant to its end, whether it runs out of ids or is left early. */
  lemma {:induction false} LoopKeepsInv(env: Env, t: EmailTable, ids: seq<string>, resumeFrom: nat, start: TaskRun,
                                        st: LoopState, idx: nat)
    requires LoopInv(env, t, ids, resumeFrom, start, st, idx)
    ensures LoopInv(env, t, ids, resumeFrom, start, Loop(env, t, ids, resumeFrom, st, idx), |ids|)
    decreases |ids| - idx
  {
    if idx == |ids| {
    } else if !st.exit.Running? {
      LoopInvLater(env, t, ids, resumeFrom, start, st, idx, |ids|);
    } else {
      StepKeepsInv(env, t, ids, resumeFrom, start, st, idx);
      LoopKeepsInv(env, t, ids, resumeFrom, start, Step(env, t, ids, resumeFrom, st, idx), idx + 1);
    }
  }

  /** The bulk insert of rows with new, distinct keys adds exactly those rows and keeps every stored one. */
  lemma {:induction false} InsertFacts(t: EmailTable, records: seq<UserEmail>)
    requires NewKeys(t, records)
    ensures |Insert(t, records)| == |t| + |records|
    ensures forall k :: k in t ==> k in Insert(t, records) && Insert(t, records)[k] == t[k]
    ensures forall k :: k in Insert(t, records) && k !in t ==>
      exists i :: 0 <= i < |records| && k == Key(records[i]) && Insert(t, records)[k] == records[i]
    decreases |records|
  {
    if records != [] {
      var t' := t[Key(records[0]) := records[0]];
      var rest := records[1..];
      assert NewKeys(t', rest) by {
        forall i | 0 <= i < |rest| ensures Key(rest[i]) !in t' {
          assert rest[i] == records[i + 1];
        }
        forall i, j | 0 <= i < j < |rest| ensures Key(rest[i]) != Key(rest[j]) {
          assert rest[i] == records[i + 1] && rest[j] == records[j + 1];
        }
      }
      InsertFacts(t', rest);
      forall k | k in Insert(t, records) && k !in t
        ensures exists i :: 0 <= i < |records| && k == Key(records[i]) && Insert(t, records)[k] == records[i]
      {
        if k == Key(records[0]) {
          assert Insert(t, records)[k] == records[0];
        } else {
          var i :| 0 <= i < |rest| && k == Key(rest[i]) && Insert(t', rest)[k] == rest[i];
          assert rest[i] == records[i + 1];
        }
      }
    }
  }

  /** What a success stores: every old row kept, and exactly `processed` new rows of the listing. */
  ghost predicate StoredRows(env: Env, t: EmailTable, ids: seq<string>, t': EmailTable, processed: nat)
  {
    |t'| == |t| + processed &&
    (forall k :: k in t ==> k in t' && t'[k] == t[k]) &&
    (forall k :: k in t' && k !in t ==>
      Key(t'[k]) == k && t'[k].userId == env.userId && t'[k].id in ids &&
      Storable(t'[k].applicationStatus) && (env.gemini ==> CachedStatus(t'[k].applicationStatus)))
  }

  /** The end of the task, for a loop state that satisfies the invariant. */
  lemma FinishFacts(env: Env, t: EmailTable, ids: seq<string>, resumeFrom: nat, start: TaskRun,
                    runs: map<string, TaskRun>, st: LoopState)
    requires LoopInv(env, t, ids, resumeFrom, start, st, |ids|)
    ensures var r := Finish(runs, t, env.userId, ids, st);
      (!r.outcome.Success? ==> r.table == t) &&
      (r.outcome.Success? ==>
        r.outcome.total == |ids| &&
        r.outcome.processed + r.outcome.skipped <= |ids| - Smaller(resumeFrom, |ids|) &&
        StoredRows(env, t, ids, r.table, r.outcome.processed))
  {
    if !st.exit.Escaped? && NewKeys(t, st.records) {
      InsertFacts(t, st.records);
      var t' := Insert(t, st.records);
      forall k | k in t' && k !in t
        ensures Key(t'[k]) == k && t'[k].userId == env.userId && t'[k].id in ids &&
          Storable(t'[k].applicationStatus) && (env.gemini ==> CachedStatus(t'[k].applicationStatus))
      {
        var i :| 0 <= i < |st.records| && k == Key(st.records[i]) && t'[k] == st.records[i];
        var j :| resumeFrom <= j < |ids| && NewRow(env, t, ids[j], st.records[i]);
      }
    }
  }

  /**
   * `fetch_and_process_emails` changes the stored mails only on success: then every stored row is kept and exactly
   * `processed` new rows appear, each the task user's, for a listed id, with
   * a storable status (in Gemini mode, one of the three trusted cached
   * statuses); processed plus skipped never exceeds the number listed from
   * the admitted resume point on.
   */
  lemma RunTable(runs: map<string, TaskRun>, t: EmailTable, users: set<string>, env: Env)
    ensures var r := Run(runs, t, users, env);
      (!r.outcome.Success? ==> r.table == t) &&
      (r.outcome.Success? ==>
        var admitted := Admit(if env.userId in runs then Some(runs[env.userId]) else None, env.now, env.taskId);
        env.listing.Ok? && r.outcome.total == |env.listing.value| && admitted.Proceed? &&
        r.outcome.processed + r.outcome.skipped <= r.outcome.total - Smaller(admitted.resumeFrom, r.outcome.total) &&
        StoredRows(env, t, env.listing.value, r.table, r.outcome.processed))
  {
    var u := env.userId;
    var a := Admit(if u in runs then Some(runs[u]) else None, env.now, env.taskId);
    if a.Proceed? && env.credsValid && u in users && env.lastUpdated != InvalidIso && env.listing.Ok? &&
       env.listing.value != [] {
      var ids := env.listing.value;
      var start := a.run.(totalEmails := |ids|);
      LoopInvStart(env, t, ids, a.resumeFrom, start);
      LoopKeepsInv(env, t, ids, a.resumeFrom, start, LoopStart(start), 0);
      FinishFacts(env, t, ids, a.resumeFrom, start, runs[u := a.run], Loop(env, t, ids, a.resumeFrom, LoopStart(start), 0));
    }
  }

  /** A turned-away run changes nothing; any other run rewrites only its own user's record. */
  lemma RunTouchesOnlyItsUser(runs: map<string, TaskRun>, t: EmailTable, users: set<string>, env: Env)
    ensures var r := Run(runs, t, users, env);
      (r.outcome.RateLimited? ==> r.runs == runs && r.table == t) &&
      (!r.outcome.RateLimited? ==> env.userId in r.runs && r.runs == runs[env.userId := r.runs[env.userId]])
  {
    var u := env.userId;
    var a := Admit(if u in runs then Some(runs[u]) else None, env.now, env.taskId);
    if a.Proceed? {
      AdmittedTouchesOnlyItsUser(runs, t, users, env, a.run, a.resumeFrom);
    }
  }

  /** `RunTouchesOnlyItsUser` once the run record is committed. */
  lemma AdmittedTouchesOnlyItsUser(runs: map<string, TaskRun>, t: EmailTable, users: set<string>, env: Env,
                                   run: TaskRun, resumeFrom: nat)
    ensures var r := Admitted(runs[env.userId := run], t, users, env, run, resumeFrom);
      env.userId in r.runs && r.runs == runs[env.userId := r.runs[env.userId]]
  {
    var u := env.userId;
    if env.credsValid && u in users && env.lastUpdated != InvalidIso && env.listing.Ok? && env.listing.value != [] {
      var ids := env.listing.value;
      var st := Loop(env, t, ids, resumeFrom, LoopStart(run.(totalEmails := |ids|)), 0);
      var r := Finish(runs[u := run], t, u, ids, st);
      assert r.runs == runs[u := r.runs[u]];
    }
  }

  /**
   * How the run record is left: FINISHED after every reply the task returns
   * (with "Invalid credentials" or "User not found" for those replies, and
   * the total listed after a success), still STARTED when it raised. The
   * checkpoint is either the one the run was admitted with or lies past the
   * resume point and within the listing.
   */
  lemma RunStatus(runs: map<string, TaskRun>, t: EmailTable, users: set<string>, env: Env)
    ensures var r := Run(runs, t, users, env);
      var u := env.userId;
      (r.outcome.Success? || r.outcome.NoEmails? || r.outcome.ErrorReply? ==> r.runs[u].status == Finished) &&
      (r.outcome.ErrorReply? ==> r.runs[u].errorMessage == Some(r.outcome.message) &&
                                 (r.outcome.message == "Invalid credentials" <==> !env.credsValid)) &&
      (r.outcome.TaskFailed? ==> r.runs[u].status == Started) &&
      (r.outcome.Success? ==>
        var admitted := Admit(if u in runs then Some(runs[u]) else None, env.now, env.taskId);
        r.runs[u].totalEmails == r.outcome.total && r.runs[u].updated == env.now &&
        r.runs[u].celeryTaskId == Some(env.taskId) &&
        (r.runs[u].processedEmails == admitted.run.processedEmails ||
         admitted.resumeFrom < r.runs[u].processedEmails <= r.outcome.total))
  {
    var u := env.userId;
    var a := Admit(if u in runs then Some(runs[u]) else None, env.now, env.taskId);
    if a.Proceed? {
      AdmittedStatus(runs, t, users, env, a.run, a.resumeFrom);
    }
  }

  /** `RunStatus` once the run record is committed. */
  lemma AdmittedStatus(runs: map<string, TaskRun>, t: EmailTable, users: set<string>, env: Env,
                       run: TaskRun, resumeFrom: nat)
    requires run.status == Started
    ensures var r := Admitted(runs[env.userId := run], t, users, env, run, resumeFrom);
      var u := env.userId;
      (r.outcome.Success? || r.outcome.NoEmails? || r.outcome.ErrorReply? ==> r.runs[u].status == Finished) &&
      (r.outcome.ErrorReply? ==> r.runs[u].errorMessage == Some(r.outcome.message) &&
                                 (r.outcome.message == "Invalid credentials" <==> !env.credsValid)) &&
      (r.outcome.TaskFailed? ==> r.runs[u].status == Started) &&
      (r.outcome.Success? ==>
        r.runs[u].totalEmails == r.outcome.total && r.runs[u].updated == run.updated &&
        r.runs[u].celeryTaskId == run.celeryTaskId &&
        (r.runs[u].processedEmails == run.processedEmails || resumeFrom < r.runs[u].processedEmails <= r.outcome.total))
  {
    var u := env.userId;
    if env.credsValid && u in users && env.lastUpdated != InvalidIso && env.listing.Ok? && env.listing.value != [] {
      var ids := env.listing.value;
      var start := run.(totalEmails := |ids|);
      LoopInvStart(env, t, ids, resumeFrom, start);
      LoopKeepsInv(env, t, ids, resumeFrom, start, LoopStart(start), 0);
      FinishStatus(runs[u := run], t, env, ids, resumeFrom, start, Loop(env, t, ids, resumeFrom, LoopStart(start), 0));
    }
  }

  /** How `Finish` leaves the record of a loop that kept the invariant. */
  lemma FinishStatus(runs: map<string, TaskRun>, t: EmailTable, env: Env, ids: seq<string>, resumeFrom: nat,
                     start: TaskRun, st: LoopState)
    requires LoopInv(env, t, ids, resumeFrom, start, st, |ids|) && start.status == Started
    ensures var r := Finish(runs, t, env.userId, ids, st);
      var u := env.userId;
      (r.outcome.Success? || r.outcome.TaskFailed?) &&
      (r.outcome.TaskFailed? ==> r.runs[u].status == Started) &&
      (r.outcome.Success? ==>
        r.runs[u].status == Finished && r.outcome.total == |ids| &&
        r.runs[u].totalEmails == start.totalEmails && r.runs[u].updated == start.updated &&
        r.runs[u].celeryTaskId == start.celeryTaskId &&
        (r.runs[u].processedEmails == start.processedEmails || resumeFrom < r.runs[u].processedEmails <= |ids|))
  {
  }

  /**
   * The task raises only when the `last_updated` text is not ISO, when
   * listing the ids fails, when a quota error reaches the one-argument retry
   * stub (never in Gemini mode), or when the listing repeats an id.
   */
  lemma RunFailureReasons(runs: map<string, TaskRun>, t: EmailTable, users: set<string>, env: Env)
    ensures var r := Run(runs, t, users, env);
      r.outcome.TaskFailed? ==>
        env.lastUpdated == InvalidIso || env.listing.Err? ||
        (!env.gemini && r.outcome.error == StubArityError) ||
        (env.listing.Ok? && !Distinct(env.listing.value))
  {
    var u := env.userId;
    var a := Admit(if u in runs then Some(runs[u]) else None, env.now, env.taskId);
    if a.Proceed? && env.credsValid && u in users && env.lastUpdated != InvalidIso && env.listing.Ok? &&
       env.listing.value != [] {
      var ids := env.listing.value;
      var start := a.run.(totalEmails := |ids|);
      LoopInvStart(env, t, ids, a.resumeFrom, start);
      LoopKeepsInv(env, t, ids, a.resumeFrom, start, LoopStart(start), 0);
      FinishFailureReasons(runs[u := a.run], t, env, ids, a.resumeFrom, start,
                           Loop(env, t, ids, a.resumeFrom, LoopStart(start), 0));
    }
  }

  /** `Finish` raises only on an escaped quota error or on a repeated id in the listing. */
  lemma FinishFailureReasons(runs: map<string, TaskRun>, t: EmailTable, env: Env, ids: seq<string>,
                             resumeFrom: nat, start: TaskRun, st: LoopState)
    requires LoopInv(env, t, ids, resumeFrom, start, st, |ids|)
    ensures var r := Finish(runs, t, env.userId, ids, st);
      r.outcome.TaskFailed? ==> (!env.gemini && r.outcome.error == StubArityError) || !Distinct(ids)
  {
    if Distinct(ids) {
      forall i | 0 <= i < |st.records| ensures Key(st.records[i]) !in t {
        var j := OldRowFrom(env, t, ids, resumeFrom, st, |ids|, i);
      }
      assert NewKeys(t, st.records);
    }
  }

  /**
   * A run left FINISHED is never resumed: the next admission is turned away
   * by the cooldown or starts from the first id with a reset record.
   */
  lemma FinishedRunRestartsFromZero(run: TaskRun, now: int, taskId: string)
    requires run.status == Finished
    ensures var a := Admit(Some(run), now, taskId);
      a.Cooldown? || (a.resumeFrom == 0 && a.run.processedEmails == 0 && a.run.errorMessage == None)
  {
  }

  /**
   * So every reply the task returns makes the next run start over, including
   * one that stopped at a rate limit half-way through the listing; and when
   * the worker reports a failure with the user id, the failure handler
   * finishes the record too. Only a failure reported without the user id
   * leaves a record that a later run resumes.
   */
  lemma ResumeOnlyAfterUnreportedFailure(runs: map<string, TaskRun>, t: EmailTable, users: set<string>, env: Env,
                                         failureTime: int, later: int, laterTask: string)
    requires env.userId != ""
    ensures var r := Run(runs, t, users, env);
      var u := env.userId;
      var after := if r.outcome.TaskFailed? then AfterFailure(r.runs, Some(u), r.outcome.error, failureTime) else r.runs;
      u in after ==> Admit(Some(after[u]), later, laterTask).Cooldown? || Admit(Some(after[u]), later, laterTask).resumeFrom == 0
  {
    var r := Run(runs, t, users, env);
    var u := env.userId;
    RunStatus(runs, t, users, env);
    RunTouchesOnlyItsUser(runs, t, users, env);
    var after := if r.outcome.TaskFailed? then AfterFailure(r.runs, Some(u), r.outcome.error, failureTime) else r.runs;
    if u in after {
      FinishedRunRestartsFromZero(after[u], later, laterTask);
    }
  }

  /**
   * Positions below the resume point are passed over without a fetch, a
   * provider call or a checkpoint: the loop from any such position ends in the
   * same state as the loop started at the resume point (or, when the resume
   * point lies past the listing, in the state it started with).
   */
  lemma {:induction false} ResumeSkipsEarlierPositions(env: Env, t: EmailTable, ids: seq<string>,
                                                       resumeFrom: nat, st: LoopState, idx: nat)
    requires idx <= resumeFrom && idx <= |ids|
    ensures Loop(env, t, ids, resumeFrom, st, idx) == Loop(env, t, ids, resumeFrom, st, Smaller(resumeFrom, |ids|))
    decreases |ids| - idx
  {
    if idx < Smaller(resumeFrom, |ids|) && st.exit.Running? {
      assert Step(env, t, ids, resumeFrom, st, idx) == st;
      ResumeSkipsEarlierPositions(env, t, ids, resumeFrom, st, idx + 1);
    }
  }

  /** A mail already stored for the user is counted as skipped and checkpointed, and never fetched. */
  lemma StoredMailSkipped(env: Env, t: EmailTable, ids: seq<string>, resumeFrom: nat, st: LoopState, idx: nat)
    requires resumeFrom <= idx < |ids| && (env.userId, ids[idx]) in t
    ensures Step(env, t, ids, resumeFrom, st, idx) ==
      st.(skippedCount := st.skippedCount + 1, run := st.run.(processedEmails := idx + 1))
  {
  }

  /**
   * In Gemini mode a mail the phrase cache does not answer is never classified:
   * asking the limiter for `get_wait_time` raises an error that is not a quota
   * error, so the item is logged and checkpointed with no row and no provider call.
   */
  lemma GeminiCacheMissDropped(env: Env, t: EmailTable, ids: seq<string>, resumeFrom: nat, st: LoopState, idx: nat,
                               m: Message)
    requires resumeFrom <= idx < |ids| && (env.userId, ids[idx]) !in t
    requires env.gemini && env.fetch(idx) == Fetched(m) && m.textContent.Some?
    requires LlmOptimization.CheckPatternCache(m.textContent.value).None?
    ensures Step(env, t, ids, resumeFrom, st, idx) ==
      st.(msg := Bound(Some(m)), run := st.run.(processedEmails := idx + 1))
  {
    OwnErrorsAreNotQuota();
  }

  /**
   * Outside Gemini mode a quota error of any item reaches the one-argument
   * `should_retry_task` stub, whose TypeError leaves the loop: the task then
   * raises and every row buffered so far is lost.
   */
  lemma QuotaErrorEscapesOutsideGemini(env: Env, t: EmailTable, ids: seq<string>, resumeFrom: nat, st: LoopState,
                                       idx: nat)
    requires resumeFrom <= idx < |ids| && (env.userId, ids[idx]) !in t && !env.gemini
    requires ItemBody(env, t, ids, st, idx).Threw? && IsQuota(ItemBody(env, t, ids, st, idx).error)
    ensures Step(env, t, ids, resumeFrom, st, idx).exit == Escaped(StubArityError)
    ensures Finish(map[], t, env.userId, ids, Step(env, t, ids, resumeFrom, st, idx)).table == t
  {
  }

  /**
   * In Gemini mode a quota error that names neither a per-minute nor a daily
   * limit and carries no retry hint stops the loop: the default wait is 300
   * seconds, which is not below the 300-second bound, so the record gets
   * "Rate limited: " and the loop ends.
   */
  lemma UnknownQuotaErrorStopsLoop(env: Env, st: LoopState, error: string)
    requires env.gemini && IsQuota(error) && env.retryHint(error) == None
    requires !GeminiRetry.MentionsRpm(error) && !GeminiRetry.MentionsDaily(error)
    ensures HandleError(env, st, error) ==
      Handled(st.(run := st.run.(errorMessage := Some("Rate limited: " + error)), exit := Aborted), false)
  {
    GeminiRetry.UnknownWithoutHintWaits300(error, 0, GeminiRetry.DefaultMaxAttempts, SecondsSinceMidnight(env));
  }

  /**
   * In Gemini mode the provider is called only to retry after a Gmail fetch
   * raised a quota error: with no such fetch, the whole loop makes no call.
   */
  lemma GeminiLoopCallsNoProvider(env: Env, t: EmailTable, ids: seq<string>, resumeFrom: nat, start: TaskRun)
    requires env.gemini && NoQuotaFetchFailureBefore(env, |ids|)
    ensures Loop(env, t, ids, resumeFrom, LoopStart(start), 0).providerCalls == 0
  {
    LoopInvStart(env, t, ids, resumeFrom, start);
    LoopKeepsInv(env, t, ids, resumeFrom, start, LoopStart(start), 0);
  }

  /** After a success the status reply reports a finished run of the listed total, stamped by this task. */
  lemma StatusAfterSuccess(runs: map<string, TaskRun>, t: EmailTable, users: set<string>, env: Env)
    requires Run(runs, t, users, env).outcome.Success?
    ensures var r := Run(runs, t, users, env);
      var reply := StatusOf(r.runs, env.userId);
      reply.StatusReply? && reply.status == Finished && reply.totalEmails == r.outcome.total &&
      reply.updated == env.now && reply.celeryTaskId == Some(env.taskId)
  {
    RunStatus(runs, t, users, env);
    RunTouchesOnlyItsUser(runs, t, users, env);
  }

  /**
   * A successful retry is thrown away: the provider is called once more, but
   * its answer is never classified, so the item is checkpointed with no row.
   */
  lemma SuccessfulRetryDiscarded(env: Env, st: LoopState, error: string, m: Message)
    requires env.gemini && IsQuota(error)
    requires RetryDecision(env, error).0 && RetryDecision(env, error).1 < 300
    requires st.msg == Bound(Some(m)) && m.textContent.Some?
    requires !env.provider(st.providerCalls).ProviderFailed?
    ensures HandleError(env, st, error) == Handled(st.(providerCalls := st.providerCalls + 1), true)
  {
  }

  /**
   * A retry in Gemini mode that cannot run (no message bound, no message, no
   * text) or whose provider call raises ends in `continue`: the item is left
   * without a checkpoint, the loop goes on, the run record and the buffer are
   * kept, and only a retry that ran counts one more provider call.
   */
  lemma FailedRetrySkipsCheckpoint(env: Env, st: LoopState, error: string)
    requires env.gemini && IsQuota(error)
    requires RetryDecision(env, error).0 && RetryDecision(env, error).1 < 300
    requires !(st.msg.Bound? && st.msg.msg.Some? && st.msg.msg.value.textContent.Some? &&
               !env.provider(st.providerCalls).ProviderFailed?)
    ensures var retried := st.msg.Bound? && st.msg.msg.Some? && st.msg.msg.value.textContent.Some?;
      HandleError(env, st, error) ==
        Handled(if retried then st.(providerCalls := st.providerCalls + 1) else st, false)
    ensures !HandleError(env, st, error).checkpoint
    ensures HandleError(env, st, error).st.exit == st.exit
    ensures HandleError(env, st, error).st.records == st.records && HandleError(env, st, error).st.run == st.run
  {
  }
}
