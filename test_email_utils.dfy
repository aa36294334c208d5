/**
 * The test-email table: rows keyed by the pair (id, user_id), created from
 * fixture or user-supplied dicts, loaded, added, deleted, updated in place
 * and searched. The database becomes a map held by `TestEmailStore`.
 */
module TestEmailUtils {
  import opened Wrappers
  import opened Strings
  import opened TestEmailData

  /** One `test_emails` row. */
  datatype TestEmailRow = TestEmailRow(
    id: string,
    userId: string,
    companyName: string,
    applicationStatus: string,
    receivedAt: DateTime,
    subject: string,
    jobTitle: string,
    emailFrom: string,
    emailBody: string,
    isDemoEmail: bool,
    createdAt: DateTime,
    updatedAt: DateTime,
    category: Option<string>,
    tags: Option<string>,
    notes: Option<string>)

  /** The table's primary key, (id, user_id). */
  function Key(r: TestEmailRow): (string, string)
  {
    (r.id, r.userId)
  }

  type Table = map<(string, string), TestEmailRow>

  /** Every row is filed under its own key. */
  predicate WellKeyed(t: Table)
  {
    forall k :: k in t ==> k == Key(t[k])
  }

  /** An `email_data` dict: each key may be absent (None). */
  datatype EmailData = EmailData(
    id: Option<string>,
    companyName: Option<string>,
    applicationStatus: Option<string>,
    receivedAt: Option<DateTime>,
    subject: Option<string>,
    jobTitle: Option<string>,
    emailFrom: Option<string>,
    emailBody: Option<string>,
    isDemoEmail: Option<bool>,
    category: Option<string>,
    tags: Option<string>,
    notes: Option<string>)

  /** The keys `create_test_email` reads with `[...]`, whose absence raises KeyError. */
  predicate HasRequiredKeys(d: EmailData)
  {
    d.id.Some? && d.companyName.Some? && d.applicationStatus.Some? && d.receivedAt.Some? &&
    d.subject.Some? && d.jobTitle.Some? && d.emailFrom.Some? && d.emailBody.Some?
  }

  /**
   * `create_test_email`: None when a required key is missing; otherwise the
   * row, with `is_demo_email` defaulting to false and the optional keys to
   * None. `now` is the clock reading that fills `created_at` and `updated_at`.
   */
  function CreateTestEmail(userId: string, d: EmailData, now: DateTime): (r: Option<TestEmailRow>)
    ensures r.Some? <==> HasRequiredKeys(d)
    ensures r.Some? ==> Key(r.value) == (d.id.value, userId)
    ensures r.Some? ==> (r.value.isDemoEmail == d.isDemoEmail.GetOr(false) &&
                         r.value.category == d.category && r.value.tags == d.tags && r.value.notes == d.notes)
  {
    if !HasRequiredKeys(d) then None
    else Some(TestEmailRow(d.id.value, userId, d.companyName.value, d.applicationStatus.value,
      d.receivedAt.value, d.subject.value, d.jobTitle.value, d.emailFrom.value, d.emailBody.value,
      d.isDemoEmail.GetOr(false), now, now, d.category, d.tags, d.notes))
  }

  /** A fixture, read as an `email_data` dict: every key present, no tags or notes. */
  function FromFixture(e: TestEmail): EmailData
  {
    EmailData(Some(e.id), Some(e.companyName), Some(e.applicationStatus), Some(e.receivedAt),
      Some(e.subject), Some(e.jobTitle), Some(e.emailFrom), Some(e.emailBody), Some(e.isDemoEmail),
      Some(e.category), None, None)
  }

  /** The fixture fields of a row. */
  function ToFixture(r: TestEmailRow): TestEmail
  {
    TestEmail(r.id, r.companyName, r.applicationStatus, r.receivedAt, r.subject, r.jobTitle,
      r.emailFrom, r.emailBody, r.isDemoEmail, r.category.GetOr(""))
  }

  /** A row created from a fixture always exists, belongs to the user and carries every fixture field. */
  lemma FixtureRoundTrip(userId: string, e: TestEmail, now: DateTime)
    ensures CreateTestEmail(userId, FromFixture(e), now).Some?
    ensures CreateTestEmail(userId, FromFixture(e), now).value.userId == userId
    ensures ToFixture(CreateTestEmail(userId, FromFixture(e), now).value) == e
  {
  }

  /** A dict without `is_demo_email` makes a non-demo row. */
  lemma DemoFlagDefaultsToFalse(userId: string, d: EmailData, now: DateTime)
    requires HasRequiredKeys(d) && d.isDemoEmail.None?
    ensures !CreateTestEmail(userId, d, now).value.isDemoEmail
  {
  }

  /**
   * The rows `load_demo_emails_for_user` builds: the fixtures whose key is not
   * in `t`, in order. The table is not written until the end, so it is the
   * same `t` for every fixture.
   */
  function RowsToLoad(t: Table, userId: string, emails: seq<TestEmail>, now: DateTime): seq<TestEmailRow>
  {
    if emails == [] then []
    else
      var init := RowsToLoad(t, userId, emails[..|emails| - 1], now);
      var e := emails[|emails| - 1];
      if (e.id, userId) in t then init
      else match CreateTestEmail(userId, FromFixture(e), now)
        case Some(row) => init + [row]
        case None => init
  }

  /** `add_all` of rows, one after another. */
  function InsertAll(t: Table, rows: seq<TestEmailRow>): Table
  {
    if rows == [] then t else InsertAll(t, rows[..|rows| - 1])[Key(rows[|rows| - 1]) := rows[|rows| - 1]]
  }

  /** Every row to load is new, belongs to the user and comes from one of the fixtures. */
  lemma {:induction false} RowsToLoadAreNew(t: Table, userId: string, emails: seq<TestEmail>, now: DateTime)
    ensures forall r :: r in RowsToLoad(t, userId, emails, now) ==>
      Key(r) !in t && r.userId == userId && ToFixture(r) in emails
  {
    if emails != [] {
      var init := emails[..|emails| - 1];
      var e := emails[|emails| - 1];
      RowsToLoadAreNew(t, userId, init, now);
      FixtureRoundTrip(userId, e, now);
      assert emails == init + [e];
    }
  }

  /** Every fixture whose key is absent has its row among the rows to load. */
  lemma {:induction false} RowsToLoadComplete(t: Table, userId: string, emails: seq<TestEmail>, now: DateTime)
    ensures forall e :: e in emails && (e.id, userId) !in t ==>
      CreateTestEmail(userId, FromFixture(e), now).value in RowsToLoad(t, userId, emails, now)
  {
    if emails != [] {
      var init := emails[..|emails| - 1];
      var e := emails[|emails| - 1];
      RowsToLoadComplete(t, userId, init, now);
      FixtureRoundTrip(userId, e, now);
      assert emails == init + [e];
      forall x | x in emails && (x.id, userId) !in t
        ensures CreateTestEmail(userId, FromFixture(x), now).value in RowsToLoad(t, userId, emails, now)
      {
        if x != e {
          assert x in init;
        }
      }
    }
  }

  /** Inserting rows keeps the table well keyed, files each row under its key and keeps the other keys. */
  lemma {:induction false} InsertAllFacts(t: Table, rows: seq<TestEmailRow>)
    requires WellKeyed(t)
    ensures WellKeyed(InsertAll(t, rows))
    ensures InsertAll(t, rows).Keys == t.Keys + set r | r in rows :: Key(r)
    ensures forall k :: k in t && (forall r :: r in rows ==> Key(r) != k) ==> InsertAll(t, rows)[k] == t[k]
  {
    if rows != [] {
      var init := rows[..|rows| - 1];
      var last := rows[|rows| - 1];
      InsertAllFacts(t, init);
      assert rows == init + [last];
      assert (set r | r in rows :: Key(r)) == (set r | r in init :: Key(r)) + {Key(last)};
    }
  }

  /** After the rows to load are inserted, the key of every fixture is taken. */
  lemma LoadedKeysPresent(t: Table, userId: string, emails: seq<TestEmail>, now: DateTime)
    requires WellKeyed(t)
    ensures forall e :: e in emails ==>
      (e.id, userId) in InsertAll(t, RowsToLoad(t, userId, emails, now))
  {
    var rows := RowsToLoad(t, userId, emails, now);
    RowsToLoadComplete(t, userId, emails, now);
    InsertAllFacts(t, rows);
    forall e | e in emails ensures (e.id, userId) in InsertAll(t, rows) {
      if (e.id, userId) !in t {
        var r := CreateTestEmail(userId, FromFixture(e), now).value;
        assert r in rows && Key(r) == (e.id, userId);
      }
    }
  }

  /** A second load finds every fixture already there: it builds no rows. */
  lemma LoadTwiceLoadsNothing(t: Table, userId: string, emails: seq<TestEmail>, now: DateTime, later: DateTime)
    requires WellKeyed(t)
    ensures RowsToLoad(InsertAll(t, RowsToLoad(t, userId, emails, now)), userId, emails, later) == []
  {
    LoadedKeysPresent(t, userId, emails, now);
    NothingToLoad(InsertAll(t, RowsToLoad(t, userId, emails, now)), userId, emails, later);
  }

  /** Loading leaves every existing row as it was and adds exactly the loaded rows, each under its key. */
  lemma LoadKeepsExistingRows(t: Table, userId: string, emails: seq<TestEmail>, now: DateTime)
    requires WellKeyed(t)
    ensures var loaded := RowsToLoad(t, userId, emails, now);
      var t2 := InsertAll(t, loaded);
      WellKeyed(t2) && t2.Keys == t.Keys + (set r | r in loaded :: Key(r)) &&
      (forall k :: k in t ==> t2[k] == t[k])
  {
    var loaded := RowsToLoad(t, userId, emails, now);
    RowsToLoadAreNew(t, userId, emails, now);
    InsertAllFacts(t, loaded);
  }

  /** When every fixture's key is taken, there is nothing to load. */
  lemma {:induction false} NothingToLoad(t: Table, userId: string, emails: seq<TestEmail>, now: DateTime)
    requires forall e :: e in emails ==> (e.id, userId) in t
    ensures RowsToLoad(t, userId, emails, now) == []
  {
    if emails != [] {
      NothingToLoad(t, userId, emails[..|emails| - 1], now);
    }
  }

  /** The columns, by the attribute names `hasattr` finds on a row. */
  predicate IsColumn(name: string)
  {
    name in {"id", "user_id", "company_name", "application_status", "received_at", "subject",
             "job_title", "email_from", "email_body", "is_demo_email", "created_at", "updated_at",
             "category", "tags", "notes"}
  }

  /**
   * Attribute names that `hasattr` also finds on a row although they are no
   * column: the class-level members of the SQLModel table class. `setattr` on
   * one of them raises, since the model has no field of that name.
   */
  predicate IsOtherAttribute(name: string)
  {
    name in {"metadata", "registry", "model_config", "model_fields", "model_dump", "model_validate",
             "dict", "json", "copy"}
  }

  /** A value in an `updates` dict. */
  datatype Value = Text(s: string) | Flag(b: bool) | Time(t: DateTime) | Null

  /** The value of column `name` in `r`; None when `name` is not a column. */
  function Column(r: TestEmailRow, name: string): (v: Option<Value>)
    ensures v.Some? <==> IsColumn(name)
  {
    match name
    case "id" => Some(Text(r.id))
    case "user_id" => Some(Text(r.userId))
    case "company_name" => Some(Text(r.companyName))
    case "application_status" => Some(Text(r.applicationStatus))
    case "received_at" => Some(Time(r.receivedAt))
    case "subject" => Some(Text(r.subject))
    case "job_title" => Some(Text(r.jobTitle))
    case "email_from" => Some(Text(r.emailFrom))
    case "email_body" => Some(Text(r.emailBody))
    case "is_demo_email" => Some(Flag(r.isDemoEmail))
    case "created_at" => Some(Time(r.createdAt))
    case "updated_at" => Some(Time(r.updatedAt))
    case "category" => Some(OptText(r.category))
    case "tags" => Some(OptText(r.tags))
    case "notes" => Some(OptText(r.notes))
    case _ => None
  }

  function OptText(s: Option<string>): Value
  {
    if s.Some? then Text(s.value) else Null
  }

  /** Column `name` can hold `v`: text, time and flag columns take their type; the optional text columns also take None. */
  predicate Fits(name: string, v: Value)
  {
    match name
    case "received_at" => v.Time?
    case "created_at" => v.Time?
    case "updated_at" => v.Time?
    case "is_demo_email" => v.Flag?
    case "category" => v.Text? || v.Null?
    case "tags" => v.Text? || v.Null?
    case "notes" => v.Text? || v.Null?
    case _ => v.Text?
  }

  /** `setattr(email, key, v)` after a true `hasattr(email, key)` goes through: `key` is a column that can hold `v`, or no attribute at all. */
  predicate Accepts(key: string, v: Value)
  {
    !IsOtherAttribute(key) && (IsColumn(key) ==> Fits(key, v))
  }

  /**
   * `setattr(email, key, value)` guarded by `hasattr`: a key that is no
   * attribute leaves the row alone; a column takes the value. None stands for
   * `setattr` raising on a non-column attribute, and for a value the column
   * cannot hold, which makes the later commit fail.
   */
  function SetField(r: TestEmailRow, key: string, v: Value): (r': Option<TestEmailRow>)
    ensures r'.None? <==> !Accepts(key, v)
    ensures !IsColumn(key) && !IsOtherAttribute(key) ==> r' == Some(r)
    ensures r'.Some? ==> Column(r'.value, key) == (if IsColumn(key) then Some(v) else None)
    ensures r'.Some? ==> forall n :: n != key ==> Column(r'.value, n) == Column(r, n)
  {
    if !Accepts(key, v) then None
    else match key
    case "id" => Some(r.(id := v.s))
    case "user_id" => Some(r.(userId := v.s))
    case "company_name" => Some(r.(companyName := v.s))
    case "application_status" => Some(r.(applicationStatus := v.s))
    case "received_at" => Some(r.(receivedAt := v.t))
    case "subject" => Some(r.(subject := v.s))
    case "job_title" => Some(r.(jobTitle := v.s))
    case "email_from" => Some(r.(emailFrom := v.s))
    case "email_body" => Some(r.(emailBody := v.s))
    case "is_demo_email" => Some(r.(isDemoEmail := v.b))
    case "created_at" => Some(r.(createdAt := v.t))
    case "updated_at" => Some(r.(updatedAt := v.t))
    case "category" => Some(r.(category := if v.Text? then Some(v.s) else None))
    case "tags" => Some(r.(tags := if v.Text? then Some(v.s) else None))
    case "notes" => Some(r.(notes := if v.Text? then Some(v.s) else None))
    case _ => Some(r)
  }

  /** Every update names no attribute at all, or a column that can hold its value. */
  predicate AllFit(updates: seq<(string, Value)>)
  {
    forall i :: 0 <= i < |updates| ==> Accepts(updates[i].0, updates[i].1)
  }

  /** Update `i` names a column that no later update names. */
  predicate LastUpdateOf(updates: seq<(string, Value)>, i: int)
  {
    0 <= i < |updates| && IsColumn(updates[i].0) &&
    forall j :: i < j < |updates| ==> updates[j].0 != updates[i].0
  }

  /** The row after `setattr` for each update in order; None when one of them does not fit its column. */
  function ApplyUpdates(r: TestEmailRow, updates: seq<(string, Value)>): (r': Option<TestEmailRow>)
    ensures r'.Some? <==> AllFit(updates)
    ensures r'.Some? ==> forall n :: (forall i :: 0 <= i < |updates| ==> updates[i].0 != n) ==>
      Column(r'.value, n) == Column(r, n)
    ensures r'.Some? ==> forall i :: LastUpdateOf(updates, i) ==> Column(r'.value, updates[i].0) == Some(updates[i].1)
  {
    if updates == [] then Some(r)
    else
      var init := updates[..|updates| - 1];
      var last := updates[|updates| - 1];
      assert forall i :: 0 <= i < |init| ==> init[i] == updates[i];
      match ApplyUpdates(r, init)
      case None => None
      case Some(mid) =>
        ApplyUpdatesStep(r, updates, mid);
        SetField(mid, last.0, last.1)
  }

  /** All updates fit when the earlier ones do and the last one does. */
  lemma AllFitSnoc(updates: seq<(string, Value)>)
    requires updates != []
    ensures var last := updates[|updates| - 1];
      AllFit(updates) <==> AllFit(updates[..|updates| - 1]) && Accepts(last.0, last.1)
  {
    var init, last := updates[..|updates| - 1], updates[|updates| - 1];
    if AllFit(init) && Accepts(last.0, last.1) {
      forall i | 0 <= i < |updates| ensures Accepts(updates[i].0, updates[i].1) {
        if i < |init| {
          assert updates[i] == init[i];
        }
      }
    }
    if AllFit(updates) {
      forall i | 0 <= i < |init| ensures Accepts(init[i].0, init[i].1) {
        assert init[i] == updates[i];
      }
    }
  }

  /** One more update, on a row that holds the earlier updates. */
  lemma ApplyUpdatesStep(r: TestEmailRow, updates: seq<(string, Value)>, mid: TestEmailRow)
    requires updates != []
    requires var init := updates[..|updates| - 1];
      && AllFit(init)
      && (forall n :: (forall i :: 0 <= i < |init| ==> init[i].0 != n) ==> Column(mid, n) == Column(r, n))
      && (forall i :: LastUpdateOf(init, i) ==> Column(mid, init[i].0) == Some(init[i].1))
    ensures var last := updates[|updates| - 1];
      var r' := SetField(mid, last.0, last.1);
      && (r'.Some? <==> AllFit(updates))
      && (r'.Some? ==> forall n :: (forall i :: 0 <= i < |updates| ==> updates[i].0 != n) ==>
            Column(r'.value, n) == Column(r, n))
      && (r'.Some? ==> forall i :: LastUpdateOf(updates, i) ==> Column(r'.value, updates[i].0) == Some(updates[i].1))
  {
    var init, last := updates[..|updates| - 1], updates[|updates| - 1];
    assert forall i :: 0 <= i < |init| ==> init[i] == updates[i];
    var r' := SetField(mid, last.0, last.1);
    AllFitSnoc(updates);
    if r'.Some? {
      forall i | LastUpdateOf(updates, i) ensures Column(r'.value, updates[i].0) == Some(updates[i].1) {
        if i < |init| {
          assert LastUpdateOf(init, i);
        }
      }
    }
  }

  /** Updates that name no attribute of the row leave the row as it was. */
  lemma {:induction false} NonColumnUpdatesIgnored(r: TestEmailRow, updates: seq<(string, Value)>)
    requires forall i :: 0 <= i < |updates| ==> !IsColumn(updates[i].0) && !IsOtherAttribute(updates[i].0)
    ensures ApplyUpdates(r, updates) == Some(r)
  {
    if updates != [] {
      NonColumnUpdatesIgnored(r, updates[..|updates| - 1]);
    }
  }

  /** `ilike '%term%'`, with the pattern's own wildcards read as plain characters. */
  predicate ILike(field: string, term: string)
  {
    Contains(Lower(term), Lower(field))
  }

  /** The row matches `search_test_emails`'s condition on its four text columns. */
  predicate Matches(r: TestEmailRow, term: string)
  {
    ILike(r.companyName, term) || ILike(r.subject, term) || ILike(r.emailBody, term) || ILike(r.jobTitle, term)
  }

  /** The categories `get_test_email_categories` collects: the non-empty ones of the fixtures. */
  predicate IsFixtureCategory(c: string)
  {
    c != "" && exists i :: 0 <= i < |GetAllTestEmails()| && GetAllTestEmails()[i].category == c
  }

  /** The fixture categories in Python's string order. */
  const SortedFixtureCategories: seq<string> := ["assessment", "confirmation", "freeze", "inbound",
    "information", "interview", "offer", "rejection", "scheduling", "withdrawal"]

  lemma SortedFixtureCategoriesSorted()
    ensures StrictlySorted(SortedFixtureCategories)
  {
    var s := SortedFixtureCategories;
    forall i | 0 <= i < |s| - 1 ensures StrLess(s[i], s[i + 1]) {
      if i == 0 {} else if i == 1 {} else if i == 2 {} else if i == 3 {} else if i == 4 {}
      else if i == 5 {} else if i == 6 {} else if i == 7 {} else {}
    }
    ChainSorted(s);
  }

  lemma SortedFixtureCategoriesAreTheCategories()
    ensures forall c :: c in SortedFixtureCategories <==> IsFixtureCategory(c)
  {
    var all := GetAllTestEmails();
    forall c ensures c in SortedFixtureCategories <==> IsFixtureCategory(c) {
      if c in SortedFixtureCategories {
        var k :| 0 <= k < |SortedFixtureCategories| && SortedFixtureCategories[k] == c;
        SortedCategoryIsFixture(k);
      }
      if IsFixtureCategory(c) {
        var i :| 0 <= i < |all| && all[i].category == c;
        FixtureCategoryIsSorted(i);
      }
    }
  }

  /** Each listed category is the category of some fixture. */
  lemma SortedCategoryIsFixture(k: nat)
    requires k < |SortedFixtureCategories|
    ensures IsFixtureCategory(SortedFixtureCategories[k])
  {
    var all, c := GetAllTestEmails(), SortedFixtureCategories[k];
    if k == 0 {
      assert all[3].category == c;
    } else if k == 1 {
      assert all[2].category == c;
    } else if k == 2 {
      assert all[8].category == c;
    } else if k == 3 {
      assert all[7].category == c;
    } else if k == 4 {
      assert all[6].category == c;
    } else if k == 5 {
      assert all[1].category == c;
    } else if k == 6 {
      assert all[5].category == c;
    } else if k == 7 {
      assert all[0].category == c;
    } else if k == 8 {
      assert all[4].category == c;
    } else {
      assert all[9].category == c;
    }
  }

  /** The category of each fixture is listed. */
  lemma FixtureCategoryIsSorted(i: nat)
    requires i < |GetAllTestEmails()|
    ensures GetAllTestEmails()[i].category in SortedFixtureCategories
  {
  }

  /** The test-email table. */
  class TestEmailStore {
    var rows: Table

    predicate Valid()
      reads this
    {
      WellKeyed(rows)
    }

    constructor()
      ensures rows == map[] && Valid()
    {
      rows := map[];
    }

    /** `check_test_email_exists`: a lookup by key, which under the invariant finds exactly the matching rows. */
    function CheckTestEmailExists(userId: string, emailId: string): (b: bool)
      reads this
      ensures Valid() ==>
        (b <==> exists k :: k in rows && rows[k].id == emailId && rows[k].userId == userId)
    {
      (emailId, userId) in rows
    }

    /** `get_user_test_emails`: the user's rows, without the demo ones unless asked for. */
    function GetUserTestEmails(userId: string, includeDemo: bool): (r: set<TestEmailRow>)
      reads this
      ensures forall e :: e in r <==> e in rows.Values && e.userId == userId && (includeDemo || !e.isDemoEmail)
    {
      set k | k in rows && rows[k].userId == userId && (includeDemo || !rows[k].isDemoEmail) :: rows[k]
    }

    /** `search_test_emails`: the user's rows whose company, subject, body or job title contains the term, ignoring case. */
    function SearchTestEmails(userId: string, term: string): (r: set<TestEmailRow>)
      reads this
      ensures forall e :: e in r <==> e in rows.Values && e.userId == userId && Matches(e, term)
    {
      set k | k in rows && rows[k].userId == userId && Matches(rows[k], term) :: rows[k]
    }

    /**
     * `load_demo_emails_for_user`: builds a row for each demo fixture whose key
     * is absent, inserts them together at the end and returns them.
     */
    method LoadDemoEmailsForUser(userId: string, now: DateTime) returns (loaded: seq<TestEmailRow>)
      requires Valid()
      modifies this
      ensures Valid()
      ensures loaded == RowsToLoad(old(rows), userId, DemoTestEmails, now)
      ensures rows == InsertAll(old(rows), loaded)
    {
      var demoEmails := DemoTestEmails;
      loaded := [];
      var i := 0;
      while i < |demoEmails|
        invariant 0 <= i <= |demoEmails|
        invariant loaded == RowsToLoad(rows, userId, demoEmails[..i], now)
      {
        assert demoEmails[..i + 1][..i] == demoEmails[..i];
        var emailData := demoEmails[i];
        if CheckTestEmailExists(userId, emailData.id) {
          i := i + 1;
          continue;
        }
        var testEmail := CreateTestEmail(userId, FromFixture(emailData), now);
        if testEmail.Some? {
          loaded := loaded + [testEmail.value];
        }
        i := i + 1;
      }
      assert demoEmails[..i] == demoEmails;
      InsertAllFacts(rows, loaded);
      if loaded != [] {
        rows := InsertAll(rows, loaded);
      }
    }

    /**
     * `add_custom_test_email`. A dict without an id gets "custom_" and the
     * first 8 characters of `uuidHex`, the hex form of a fresh random UUID;
     * `data` is the dict afterwards. No row is added when the key is taken or
     * a required key is missing.
     */
    method AddCustomTestEmail(userId: string, emailData: EmailData, uuidHex: string, now: DateTime)
      returns (r: Option<TestEmailRow>, data: EmailData)
      requires Valid()
      requires |uuidHex| == 32
      modifies this
      ensures Valid()
      ensures data == WithGeneratedId(emailData, uuidHex)
      ensures r.Some? <==> (data.id.value, userId) !in old(rows) && HasRequiredKeys(data)
      ensures r.Some? ==> r == CreateTestEmail(userId, data, now) && rows == old(rows)[Key(r.value) := r.value]
      ensures r.None? ==> rows == old(rows)
    {
      data := WithGeneratedId(emailData, uuidHex);
      if CheckTestEmailExists(userId, data.id.value) {
        return None, data;
      }
      var testEmail := CreateTestEmail(userId, data, now);
      if testEmail.Some? {
        rows := rows[Key(testEmail.value) := testEmail.value];
        return testEmail, data;
      }
      return None, data;
    }

    /** `delete_test_email`: true iff the row existed; only that row goes. */
    method DeleteTestEmail(userId: string, emailId: string) returns (deleted: bool)
      requires Valid()
      modifies this
      ensures Valid()
      ensures deleted <==> (emailId, userId) in old(rows)
      ensures rows == old(rows) - {(emailId, userId)}
    {
      if (emailId, userId) in rows {
        rows := rows - {(emailId, userId)};
        return true;
      }
      return false;
    }

    /**
     * `update_test_email`: sets each key that names a column on the stored row,
     * then commits. The commit fails, leaving the table as it was, when a value
     * does not fit its column or when a changed id or user_id collides with
     * another row; the call then returns None, as it does for a missing row.
     */
    method UpdateTestEmail(userId: string, emailId: string, updates: seq<(string, Value)>)
      returns (r: Option<TestEmailRow>)
      requires Valid()
      modifies this
      ensures Valid()
      ensures r == UpdateResult(old(rows), (emailId, userId), updates)
      ensures r.Some? ==> rows == (old(rows) - {(emailId, userId)})[Key(r.value) := r.value]
      ensures r.None? ==> rows == old(rows)
    {
      var key := (emailId, userId);
      if key !in rows {
        return None;
      }
      var email := rows[key];
      var fits := true;
      var i := 0;
      while i < |updates|
        invariant 0 <= i <= |updates|
        invariant fits ==> ApplyUpdates(rows[key], updates[..i]) == Some(email)
        invariant !fits ==> ApplyUpdates(rows[key], updates[..i]).None?
      {
        assert updates[..i + 1][..i] == updates[..i];
        var (k, value) := updates[i];
        if fits {
          var next := SetField(email, k, value);
          if next.Some? {
            email := next.value;
          } else {
            fits := false;
          }
        }
        i := i + 1;
      }
      assert updates[..i] == updates;
      if !fits || (Key(email) != key && Key(email) in rows) {
        return None;
      }
      rows := (rows - {key})[Key(email) := email];
      r := Some(email);
    }
  }

  /** `email_data` after the id step of `add_custom_test_email`. */
  function WithGeneratedId(d: EmailData, uuidHex: string): EmailData
  {
    if d.id.None? then d.(id := Some("custom_" + Take(uuidHex, 8))) else d
  }

  /** The answer of `update_test_email` on table `t`. */
  function UpdateResult(t: Table, key: (string, string), updates: seq<(string, Value)>): Option<TestEmailRow>
  {
    if key !in t then None
    else match ApplyUpdates(t[key], updates)
      case None => None
      case Some(row) => if Key(row) != key && Key(row) in t then None else Some(row)
  }

  /** An update naming a class member such as `metadata` makes `setattr` raise: the answer is None and nothing is committed. */
  lemma OtherAttributeUpdateFails(t: Table, key: (string, string), updates: seq<(string, Value)>, i: nat)
    requires i < |updates| && IsOtherAttribute(updates[i].0)
    ensures UpdateResult(t, key, updates).None?
  {
    assert !Accepts(updates[i].0, updates[i].1);
  }

  /** A generated id is "custom_" followed by eight characters of the UUID; a given id is kept. */
  lemma GeneratedIdShape(d: EmailData, uuidHex: string)
    requires |uuidHex| == 32
    ensures WithGeneratedId(d, uuidHex).id.Some?
    ensures d.id.Some? ==> WithGeneratedId(d, uuidHex) == d
    ensures d.id.None? ==> var id := WithGeneratedId(d, uuidHex).id.value;
      |id| == 15 && StartsWith(id, "custom_") && id[7..] == uuidHex[..8]
    ensures WithGeneratedId(d, uuidHex).(id := d.id) == d
  {
  }

  /**
   * An update changes at most the updated row: every other row stays, and the
   * row's new key was free unless it is the old one.
   */
  lemma UpdateTouchesOneRow(t: Table, key: (string, string), updates: seq<(string, Value)>)
    requires WellKeyed(t)
    requires UpdateResult(t, key, updates).Some?
    ensures var row := UpdateResult(t, key, updates).value;
      (Key(row) == key || Key(row) !in t) &&
      forall k :: k in t && k != key ==> k in (t - {key})[Key(row) := row] && (t - {key})[Key(row) := row][k] == t[k]
  {
  }

  /** Updates that keep id and user_id keep the row under its own key. */
  lemma UpdateKeepsKeyWithoutKeyColumns(t: Table, key: (string, string), updates: seq<(string, Value)>)
    requires WellKeyed(t) && key in t
    requires forall i :: 0 <= i < |updates| ==> updates[i].0 != "id" && updates[i].0 != "user_id"
    requires AllFit(updates)
    ensures UpdateResult(t, key, updates).Some?
    ensures Key(UpdateResult(t, key, updates).value) == key
  {
    var row := ApplyUpdates(t[key], updates).value;
    assert Column(row, "id") == Column(t[key], "id");
    assert Column(row, "user_id") == Column(t[key], "user_id");
  }

  /** The empty term matches every row, so searching for it lists all the user's rows. */
  lemma SearchEmptyTermListsAll(store: TestEmailStore, userId: string)
    ensures store.SearchTestEmails(userId, "") == store.GetUserTestEmails(userId, true)
  {
    forall e | e in store.rows.Values && e.userId == userId ensures Matches(e, "") {
      ContainsEmpty(Lower(e.companyName));
    }
  }

  /** The search ignores the case of the term. */
  lemma SearchIgnoresCase(store: TestEmailStore, userId: string, term: string)
    ensures store.SearchTestEmails(userId, term) == store.SearchTestEmails(userId, Lower(term))
  {
    LowerIdempotent(term);
  }

  /**
   * `get_test_email_categories`: collects the non-empty fixture categories
   * into a set and returns them sorted.
   */
  method GetTestEmailCategories() returns (categories: seq<string>)
    ensures StrictlySorted(categories)
    ensures forall c :: c in categories <==> IsFixtureCategory(c)
    ensures categories == SortedFixtureCategories
  {
    var seen: set<string> := {};
    var allEmails := GetAllTestEmails();
    var i := 0;
    while i < |allEmails|
      invariant 0 <= i <= |allEmails|
      invariant forall c :: c in seen <==> c != "" && exists j :: 0 <= j < i && allEmails[j].category == c
    {
      if allEmails[i].category != "" {
        seen := seen + {allEmails[i].category};
      }
      i := i + 1;
    }
    categories := SortStrings(seen);
    SortedFixtureCategoriesSorted();
    SortedFixtureCategoriesAreTheCategories();
    StrictlySortedUnique(categories, SortedFixtureCategories);
  }
}
