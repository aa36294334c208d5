/**
 * The stored-mail helpers: the dedup check against the user_emails table,
 * the construction of a new row, and the comparison of mail-address prefixes.
 */
module UserEmailUtils {
  import opened Wrappers
  import opened Strings

  /**
   * A value of a classifier answer: a string, or any other JSON value,
   * remembered only by its Python truth value.
   */
  datatype Value = Str(s: string) | NonStr(truthy: bool)

  predicate Falsy(v: Value)
  {
    match v
    case Str(s) => s == ""
    case NonStr(t) => !t
  }

  /** The `message_data` dict the ingestion task hands to `create_user_email`. */
  datatype MessageData = MessageData(
    id: string,
    companyName: Value,
    applicationStatus: Value,
    receivedAt: string,
    subject: string,
    jobTitle: Value,
    from: string)

  /** A row of the user_emails table; `receivedAt` is the parsed date, in seconds. */
  datatype UserEmail = UserEmail(
    id: string,
    userId: string,
    companyName: Value,
    applicationStatus: Value,
    receivedAt: int,
    subject: string,
    jobTitle: Value,
    emailFrom: string)

  /** The user_emails table, keyed by (user_id, id). */
  type EmailTable = map<(string, string), UserEmail>

  /** Every row is stored under its own (user_id, id). */
  predicate WellKeyed(t: EmailTable)
  {
    forall k :: k in t ==> k == (t[k].userId, t[k].id)
  }

  /** `check_email_exists`: whether a row matches both the user id and the mail id. */
  function CheckEmailExists(t: EmailTable, userId: string, emailId: string): (r: bool)
    ensures WellKeyed(t) ==>
      (r <==> exists k :: k in t && t[k].userId == userId && t[k].id == emailId)
  {
    (userId, emailId) in t
  }

  /**
   * `create_user_email`: parse the date first (`parseDate` answers None where
   * the parser raises), then refuse a mail that is already stored; otherwise
   * build the row, with "from" stored as `emailFrom`. Any failure gives None.
   */
  function CreateUserEmail(t: EmailTable, userId: string, data: MessageData,
                           parseDate: string -> Option<int>): (r: Option<UserEmail>)
    ensures r.Some? <==> parseDate(data.receivedAt).Some? && !CheckEmailExists(t, userId, data.id)
    ensures r.Some? ==>
      var e := r.value;
      e.id == data.id && e.userId == userId && e.companyName == data.companyName &&
      e.applicationStatus == data.applicationStatus && e.receivedAt == parseDate(data.receivedAt).value &&
      e.subject == data.subject && e.jobTitle == data.jobTitle && e.emailFrom == data.from
    ensures r.Some? ==> WellKeyed(t) ==> WellKeyed(t[(userId, data.id) := r.value])
  {
    match parseDate(data.receivedAt)
    case None => None
    case Some(receivedAt) =>
      if CheckEmailExists(t, userId, data.id) then None
      else Some(UserEmail(data.id, userId, data.companyName, data.applicationStatus, receivedAt,
                          data.subject, data.jobTitle, data.from))
  }

  /** Membership in Python's `string.punctuation`: the 32 ASCII symbols that are neither letters, digits nor space. */
  predicate IsPunctuation(c: char)
  {
    '!' <= c <= '/' || ':' <= c <= '@' || '[' <= c <= '`' || '{' <= c <= '~'
  }

  /** The text before the first '@', or all of it: `s.split('@')[0]`. */
  function BeforeAt(s: string): (r: string)
    ensures '@' !in r
    ensures StartsWith(s, r)
    ensures |r| < |s| ==> s[|r|] == '@'
  {
    if s == [] || s[0] == '@' then [] else [s[0]] + BeforeAt(s[1..])
  }

  /** The characters of `s` that are not punctuation, in order. */
  function DropPunctuation(s: string): (r: string)
    ensures forall j :: 0 <= j < |r| ==> !IsPunctuation(r[j])
    ensures forall c :: c in r ==> c in s
    ensures forall c :: c in s && !IsPunctuation(c) ==> c in r
  {
    if s == [] then [] else (if IsPunctuation(s[0]) then [] else [s[0]]) + DropPunctuation(s[1..])
  }

  /** `clean_email_prefix`. */
  function CleanEmailPrefix(email: string): string
  {
    Lower(RemoveChar(DropPunctuation(BeforeAt(email)), ' '))
  }

  /** ASCII letters are never punctuation, so lower-casing a punctuation-free string keeps it so. */
  lemma LowerKeepsNoPunctuation(s: string)
    requires forall j :: 0 <= j < |s| ==> !IsPunctuation(s[j]) && s[j] != ' '
    ensures forall j :: 0 <= j < |Lower(s)| ==> !IsPunctuation(Lower(s)[j]) && Lower(s)[j] != ' '
  {
    forall j | 0 <= j < |s|
      ensures !IsPunctuation(Lower(s)[j]) && Lower(s)[j] != ' '
    {
      if IsUpper(s[j]) {
        assert 'a' <= Lower(s)[j] <= 'z';
      }
    }
  }

  /**
   * The cleaned prefix has no '@', no punctuation, no space and no upper-case
   * letter; other whitespace, such as a tab before the '@', survives.
   */
  lemma CleanEmailPrefixFacts(email: string)
    ensures var r := CleanEmailPrefix(email);
      '@' !in r && ' ' !in r && IsLowercase(r) &&
      forall j :: 0 <= j < |r| ==> !IsPunctuation(r[j])
    ensures '\t' in BeforeAt(email) ==> '\t' in CleanEmailPrefix(email)
  {
    var d := DropPunctuation(BeforeAt(email));
    var n := RemoveChar(d, ' ');
    RemoveCharFacts(d, ' ');
    assert forall j :: 0 <= j < |n| ==> !IsPunctuation(n[j]) by {
      forall j | 0 <= j < |n| ensures !IsPunctuation(n[j]) {
        assert n[j] in d;
      }
    }
    LowerKeepsNoPunctuation(n);
    LowerIsLowercase(n);
    
    if '\t' in BeforeAt(email) {
      assert '\t' in d;
      RemoveCharKeeps(d, ' ', '\t');
      var i :| 0 <= i < |n| && n[i] == '\t';
      assert Lower(n)[i] == '\t';
    }
  }

  lemma {:induction false} RemoveCharKeeps(s: string, c: char, x: char)
    requires x in s && x != c
    ensures x in RemoveChar(s, c)
  {
    if s[0] != x {
      RemoveCharKeeps(s[1..], c, x);
    }
  }

  /** Each step of the cleaning leaves an already-clean string alone. */
  lemma {:induction false} DropPunctuationNoOp(s: string)
    requires forall j :: 0 <= j < |s| ==> !IsPunctuation(s[j])
    ensures DropPunctuation(s) == s
  {
    if s != [] {
      DropPunctuationNoOp(s[1..]);
    }
  }

  lemma {:induction false} RemoveCharNoOp(s: string, c: char)
    requires c !in s
    ensures RemoveChar(s, c) == s
  {
    if s != [] {
      RemoveCharNoOp(s[1..], c);
    }
  }

  lemma {:induction false} BeforeAtNoOp(s: string)
    requires '@' !in s
    ensures BeforeAt(s) == s
  {
    if s != [] {
      BeforeAtNoOp(s[1..]);
    }
  }

  /** Cleaning a cleaned prefix changes nothing. */
  lemma CleanEmailPrefixIdempotent(email: string)
    ensures CleanEmailPrefix(CleanEmailPrefix(email)) == CleanEmailPrefix(email)
  {
    var r := CleanEmailPrefix(email);
    CleanEmailPrefixFacts(email);
    BeforeAtNoOp(r);
    DropPunctuationNoOp(r);
    RemoveCharNoOp(r, ' ');
    LowercaseFixed(r);
  }

  /** `email_is_similar`: the two addresses have the same cleaned prefix. */
  function EmailIsSimilar(userEmail: string, loggedInUserEmail: string): bool
  {
    CleanEmailPrefix(userEmail) == CleanEmailPrefix(loggedInUserEmail)
  }

  /** Similarity is an equivalence: reflexive, symmetric and transitive. */
  lemma EmailIsSimilarEquivalence(a: string, b: string, c: string)
    ensures EmailIsSimilar(a, a)
    ensures EmailIsSimilar(a, b) == EmailIsSimilar(b, a)
    ensures EmailIsSimilar(a, b) && EmailIsSimilar(b, c) ==> EmailIsSimilar(a, c)
  {
  }

  /** The domain never matters: addresses with the same text before '@' are similar. */
  lemma DomainIgnored(local: string, domain1: string, domain2: string)
    requires '@' !in local
    ensures EmailIsSimilar(local + "@" + domain1, local + "@" + domain2)
  {
    BeforeAtPrefix(local, domain1);
    BeforeAtPrefix(local, domain2);
  }

  lemma {:induction false} BeforeAtPrefix(local: string, domain: string)
    requires '@' !in local
    ensures BeforeAt(local + "@" + domain) == local
  {
    if local == [] {
      assert (local + "@" + domain)[0] == '@';
    } else {
      assert (local + "@" + domain)[1..] == local[1..] + "@" + domain;
      BeforeAtPrefix(local[1..], domain);
    }
  }
}
