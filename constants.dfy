/** The status vocabulary and the ordered keyword table of the keyword status predictor. */
module Constants {
  import opened Strings

  /** Every status the keyword predictor can return. */
  const AllStatuses: seq<string> := [
    "No Response",
    "Applied",
    "Interview Scheduled",
    "Request for Availability",
    "On Hold",
    "Rejection",
    "Offer Extended"
  ]

  /** The keyword dict, as (keyword, status) pairs in its insertion order, which is the order it is searched in. */
  const AllStatusKeywords: seq<(string, string)> := [
    ("not moving forward", "Rejection"),
    ("decided to move forward with", "Rejection"),
    ("pursue other candidates", "Rejection"),
    ("have decided not to", "Rejection"),
    ("not the right fit", "Rejection"),
    ("not a good match", "Rejection"),
    ("unfortunately", "Rejection"),
    ("offer of employment", "Offer Extended"),
    ("we'd like to extend", "Offer Extended"),
    ("your official offer", "Offer Extended"),
    ("congratulations", "Offer Extended"),
    ("job offer", "Offer Extended"),
    ("congrats", "Offer Extended"),
    ("offered", "Offer Extended"),
    ("interview scheduled", "Interview Scheduled"),
    ("interview date", "Interview Scheduled"),
    ("phone screen", "Interview Scheduled"),
    ("video call", "Interview Scheduled"),
    ("confirmed", "Interview Scheduled"),
    ("interview", "Interview Scheduled"),
    ("your availability", "Request for Availability"),
    ("when are you available", "Request for Availability"),
    ("your schedule", "Request for Availability"),
    ("discuss next steps", "Request for Availability"),
    ("let us know what day works", "Request for Availability"),
    ("schedule", "Request for Availability"),
    ("application received", "Applied"),
    ("thank you for your interest", "Applied"),
    ("application submitted", "Applied"),
    ("received", "Applied"),
    ("applied", "Applied"),
    ("on hold", "On Hold"),
    ("under review", "On Hold"),
    ("future position", "On Hold"),
    ("we will be in touch", "On Hold"),
    ("patience", "On Hold"),
    ("holding", "On Hold")
  ]

  /** Every status the keyword table maps to is one of `AllStatuses`. */
  lemma KeywordStatusesAreStatuses()
    ensures forall i :: 0 <= i < |AllStatusKeywords| ==> AllStatusKeywords[i].1 in AllStatuses
  {
  }

  /** No keyword maps to "No Response": that status is only ever the predictor's default. */
  lemma NoKeywordMapsToNoResponse()
    ensures forall i :: 0 <= i < |AllStatusKeywords| ==> AllStatusKeywords[i].1 != AllStatuses[0]
    ensures AllStatuses[0] == "No Response"
  {
  }

  /** Every keyword is already lower-case, so it can match the lower-cased text. */
  lemma KeywordsAreLowercase()
    ensures forall i :: 0 <= i < |AllStatusKeywords| ==> IsLowercase(AllStatusKeywords[i].0)
  {
    KeywordsAreLowercase0();
    KeywordsAreLowercase1();
    KeywordsAreLowercase2();
    KeywordsAreLowercase3();
    KeywordsAreLowercase4();
    KeywordsAreLowercase5();
    KeywordsAreLowercase6();
    KeywordsAreLowercase7();
    KeywordsAreLowercase8();
    KeywordsAreLowercase9();
    KeywordsAreLowercase10();
    KeywordsAreLowercase11();
    KeywordsAreLowercase12();
    KeywordsAreLowercase13();
    KeywordsAreLowercase14();
    KeywordsAreLowercase15();
    KeywordsAreLowercase16();
    KeywordsAreLowercase17();
    KeywordsAreLowercase18();
  }

  // KeywordsAreLowercase0 to KeywordsAreLowercase18 each check a slice of two
  // keywords, so that the proof of KeywordsAreLowercase stays small.

  lemma KeywordsAreLowercase0()
    ensures forall i :: 0 <= i < 2 ==> IsLowercase(AllStatusKeywords[i].0)
  {
  }

  lemma KeywordsAreLowercase1()
    ensures forall i :: 2 <= i < 4 ==> IsLowercase(AllStatusKeywords[i].0)
  {
  }

  lemma KeywordsAreLowercase2()
    ensures forall i :: 4 <= i < 6 ==> IsLowercase(AllStatusKeywords[i].0)
  {
  }

  lemma KeywordsAreLowercase3()
    ensures forall i :: 6 <= i < 8 ==> IsLowercase(AllStatusKeywords[i].0)
  {
  }

  lemma KeywordsAreLowercase4()
    ensures forall i :: 8 <= i < 10 ==> IsLowercase(AllStatusKeywords[i].0)
  {
  }

  lemma KeywordsAreLowercase5()
    ensures forall i :: 10 <= i < 12 ==> IsLowercase(AllStatusKeywords[i].0)
  {
  }

  lemma KeywordsAreLowercase6()
    ensures forall i :: 12 <= i < 14 ==> IsLowercase(AllStatusKeywords[i].0)
  {
  }

  lemma KeywordsAreLowercase7()
    ensures forall i :: 14 <= i < 16 ==> IsLowercase(AllStatusKeywords[i].0)
  {
  }

  lemma KeywordsAreLowercase8()
    ensures forall i :: 16 <= i < 18 ==> IsLowercase(AllStatusKeywords[i].0)
  {
  }

  lemma KeywordsAreLowercase9()
    ensures forall i :: 18 <= i < 20 ==> IsLowercase(AllStatusKeywords[i].0)
  {
  }

  lemma KeywordsAreLowercase10()
    ensures forall i :: 20 <= i < 22 ==> IsLowercase(AllStatusKeywords[i].0)
  {
  }

  lemma KeywordsAreLowercase11()
    ensures forall i :: 22 <= i < 24 ==> IsLowercase(AllStatusKeywords[i].0)
  {
  }

  lemma KeywordsAreLowercase12()
    ensures forall i :: 24 <= i < 26 ==> IsLowercase(AllStatusKeywords[i].0)
  {
  }

  lemma KeywordsAreLowercase13()
    ensures forall i :: 26 <= i < 28 ==> IsLowercase(AllStatusKeywords[i].0)
  {
  }

  lemma KeywordsAreLowercase14()
    ensures forall i :: 28 <= i < 30 ==> IsLowercase(AllStatusKeywords[i].0)
  {
  }

  lemma KeywordsAreLowercase15()
    ensures forall i :: 30 <= i < 32 ==> IsLowercase(AllStatusKeywords[i].0)
  {
  }

  lemma KeywordsAreLowercase16()
    ensures forall i :: 32 <= i < 34 ==> IsLowercase(AllStatusKeywords[i].0)
  {
  }

  lemma KeywordsAreLowercase17()
    ensures forall i :: 34 <= i < 36 ==> IsLowercase(AllStatusKeywords[i].0)
  {
  }

  lemma KeywordsAreLowercase18()
    ensures forall i :: 36 <= i < |AllStatusKeywords| ==> IsLowercase(AllStatusKeywords[i].0)
  {
  }

  /**
   * The table is searched in insertion order, grouped by status, not from the
   * longest keyword to the shortest: the 13-letter "unfortunately" comes before
   * the 19-letter "offer of employment".
   */
  lemma PriorityIsNotByLength()
    ensures AllStatusKeywords[6].0 == "unfortunately" && AllStatusKeywords[7].0 == "offer of employment"
    ensures |AllStatusKeywords[6].0| < |AllStatusKeywords[7].0|
  {
  }
}
