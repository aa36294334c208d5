/** The keyword status predictor: the status of the first table keyword found in the mail text. */
module StatusPredictor {
  import opened Wrappers
  import opened Strings
  import opened Constants

  /** The mail fields the predictor reads; a missing key reads as "". */
  type EmailData = map<string, string>

  function Field(d: EmailData, key: string): string
  {
    if key in d then d[key] else ""
  }

  /** The lower-cased text the predictor searches: subject, a space, body. */
  function FullText(d: EmailData): string
  {
    Lower(Field(d, "subject") + " " + Field(d, "body"))
  }

  /** The index of the first entry at or after `from` whose keyword occurs in `text`. */
  function FirstKeywordFrom(table: seq<(string, string)>, text: string, from: nat): (r: Option<nat>)
    requires from <= |table|
    ensures r.Some? ==> from <= r.value < |table| && Contains(table[r.value].0, text)
    ensures r.Some? ==> forall j :: from <= j < r.value ==> !Contains(table[j].0, text)
    ensures r.None? ==> forall j :: from <= j < |table| ==> !Contains(table[j].0, text)
    decreases |table| - from
  {
    if from == |table| then None
    else if Contains(table[from].0, text) then Some(from)
    else FirstKeywordFrom(table, text, from + 1)
  }

  /** `predict_interview_status`. */
  function PredictInterviewStatus(d: EmailData): (r: string)
    ensures r in AllStatuses
    ensures r == "No Response" <==>
      forall j :: 0 <= j < |AllStatusKeywords| ==> !Contains(AllStatusKeywords[j].0, FullText(d))
    ensures r != "No Response" ==>
      exists i :: 0 <= i < |AllStatusKeywords| && AllStatusKeywords[i].1 == r &&
        Contains(AllStatusKeywords[i].0, FullText(d)) &&
        forall j :: 0 <= j < i ==> !Contains(AllStatusKeywords[j].0, FullText(d))
  {
    KeywordStatusesAreStatuses();
    NoKeywordMapsToNoResponse();
    match FirstKeywordFrom(AllStatusKeywords, FullText(d), 0)
    case Some(i) => AllStatusKeywords[i].1
    case None => "No Response"
  }

  /** Changing the letter case of the subject or the body never changes the prediction. */
  lemma CaseInsensitive(d: EmailData, e: EmailData)
    requires Lower(Field(d, "subject")) == Lower(Field(e, "subject"))
    requires Lower(Field(d, "body")) == Lower(Field(e, "body"))
    ensures PredictInterviewStatus(d) == PredictInterviewStatus(e)
  {
    LowerConcat(Field(d, "subject") + " ", Field(d, "body"));
    LowerConcat(Field(d, "subject"), " ");
    LowerConcat(Field(e, "subject") + " ", Field(e, "body"));
    LowerConcat(Field(e, "subject"), " ");
    assert FullText(d) == FullText(e);
  }

  /** A missing subject or body is read as the empty string. */
  lemma MissingFieldsReadEmpty(d: EmailData)
    requires "subject" !in d && "body" !in d
    ensures FullText(d) == " "
    ensures PredictInterviewStatus(d) == PredictInterviewStatus(map["subject" := "", "body" := ""])
  {
    assert FullText(map["subject" := "", "body" := ""]) == FullText(d);
  }
}
