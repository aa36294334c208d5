/**
 * The cases of the predictor's parametrised test, each stated as a lemma
 * about `PredictInterviewStatus`, one module per case. The subjects and
 * bodies are the test's strings, written as concatenations of short pieces.
 * A keyword is shown absent from a mail's text either because one of its
 * characters is not among the text's characters, or because one of its
 * three-character runs does not occur in the text.
 */
module TestStatusPredictor {
  import opened Strings
  import opened Constants
  import opened StatusPredictor

  /** The lower-cased text of a mail whose subject and body lower-case to `ls` and `lb`. */
  lemma TextIs(subject: string, body: string, ls: string, lb: string)
    requires Lower(subject) == ls && Lower(body) == lb
    ensures FullText(map["subject" := subject, "body" := body]) == (ls + " ") + lb
  {
    var d := map["subject" := subject, "body" := body];
    assert Field(d, "subject") == subject && Field(d, "body") == body;
    LowerConcat(subject + " ", body);
    LowerConcat(subject, " ");
    LowerIs(" ", " ");
  }

  /** When keyword `i` is the first in table order to occur in a mail's text, its status is the prediction. */
  lemma FirstHitPredicts(d: EmailData, text: string, i: nat)
    requires FullText(d) == text
    requires i < |AllStatusKeywords| && Contains(AllStatusKeywords[i].0, text)
    requires forall j :: 0 <= j < i ==> !Contains(AllStatusKeywords[j].0, text)
    ensures PredictInterviewStatus(d) == AllStatusKeywords[i].1
  {
    NoKeywordMapsToNoResponse();
    var r := PredictInterviewStatus(d);
    var m :| 0 <= m < |AllStatusKeywords| && AllStatusKeywords[m].1 == r &&
      Contains(AllStatusKeywords[m].0, text) &&
      forall j :: 0 <= j < m ==> !Contains(AllStatusKeywords[j].0, text);
    assert m == i;
  }

  /** When no keyword occurs in a mail's text, the prediction is "No Response". */
  lemma NoHitPredictsNoResponse(d: EmailData, text: string)
    requires FullText(d) == text
    requires forall j :: 0 <= j < |AllStatusKeywords| ==> !Contains(AllStatusKeywords[j].0, text)
    ensures PredictInterviewStatus(d) == "No Response"
  {
  }

  /** Single characters of the keyword table, the ones the cases below rely on. */
  lemma KeywordLetters0()
    ensures 4 < |AllStatusKeywords[0].0| && AllStatusKeywords[0].0[4] == 'm'
    ensures 6 < |AllStatusKeywords[0].0| && AllStatusKeywords[0].0[6] == 'v'
    ensures 9 < |AllStatusKeywords[0].0| && AllStatusKeywords[0].0[9] == 'g'
    ensures 0 < |AllStatusKeywords[1].0| && AllStatusKeywords[1].0[0] == 'd'
    ensures 11 < |AllStatusKeywords[1].0| && AllStatusKeywords[1].0[11] == 'm'
    ensures 13 < |AllStatusKeywords[1].0| && AllStatusKeywords[1].0[13] == 'v'
    ensures 27 < |AllStatusKeywords[1].0| && AllStatusKeywords[1].0[27] == 'h'
    ensures 0 < |AllStatusKeywords[2].0| && AllStatusKeywords[2].0[0] == 'p'
    ensures 3 < |AllStatusKeywords[2].0| && AllStatusKeywords[2].0[3] == 's'
    ensures 9 < |AllStatusKeywords[2].0| && AllStatusKeywords[2].0[9] == 'h'
    ensures 13 < |AllStatusKeywords[2].0| && AllStatusKeywords[2].0[13] == 'c'
    ensures 0 < |AllStatusKeywords[3].0| && AllStatusKeywords[3].0[0] == 'h'
    ensures 2 < |AllStatusKeywords[3].0| && AllStatusKeywords[3].0[2] == 'v'
    ensures 5 < |AllStatusKeywords[3].0| && AllStatusKeywords[3].0[5] == 'd'
    ensures 5 < |AllStatusKeywords[4].0| && AllStatusKeywords[4].0[5] == 'h'
    ensures 10 < |AllStatusKeywords[4].0| && AllStatusKeywords[4].0[10] == 'g'
    ensures 14 < |AllStatusKeywords[4].0| && AllStatusKeywords[4].0[14] == 'f'
    ensures 6 < |AllStatusKeywords[5].0| && AllStatusKeywords[5].0[6] == 'g'
    ensures 11 < |AllStatusKeywords[5].0| && AllStatusKeywords[5].0[11] == 'm'
    ensures 2 < |AllStatusKeywords[6].0| && AllStatusKeywords[6].0[2] == 'f'
    ensures 11 < |AllStatusKeywords[6].0| && AllStatusKeywords[6].0[11] == 'l'
    ensures 1 < |AllStatusKeywords[7].0| && AllStatusKeywords[7].0[1] == 'f'
    ensures 10 < |AllStatusKeywords[7].0| && AllStatusKeywords[7].0[10] == 'm'
    ensures 11 < |AllStatusKeywords[7].0| && AllStatusKeywords[7].0[11] == 'p'
    ensures 2 < |AllStatusKeywords[8].0| && AllStatusKeywords[8].0[2] == '\''
  {
  }

  lemma KeywordLetters1()
    ensures 6 < |AllStatusKeywords[9].0| && AllStatusKeywords[9].0[6] == 'f'
    ensures 12 < |AllStatusKeywords[9].0| && AllStatusKeywords[9].0[12] == 'l'
    ensures 3 < |AllStatusKeywords[10].0| && AllStatusKeywords[10].0[3] == 'g'
    ensures 7 < |AllStatusKeywords[10].0| && AllStatusKeywords[10].0[7] == 'u'
    ensures 0 < |AllStatusKeywords[11].0| && AllStatusKeywords[11].0[0] == 'j'
    ensures 3 < |AllStatusKeywords[12].0| && AllStatusKeywords[12].0[3] == 'g'
    ensures 1 < |AllStatusKeywords[13].0| && AllStatusKeywords[13].0[1] == 'f'
    ensures 5 < |AllStatusKeywords[14].0| && AllStatusKeywords[14].0[5] == 'v'
    ensures 10 < |AllStatusKeywords[14].0| && AllStatusKeywords[14].0[10] == 's'
    ensures 12 < |AllStatusKeywords[14].0| && AllStatusKeywords[14].0[12] == 'h'
    ensures 5 < |AllStatusKeywords[15].0| && AllStatusKeywords[15].0[5] == 'v'
    ensures 10 < |AllStatusKeywords[15].0| && AllStatusKeywords[15].0[10] == 'd'
    ensures 0 < |AllStatusKeywords[16].0| && AllStatusKeywords[16].0[0] == 'p'
    ensures 0 < |AllStatusKeywords[17].0| && AllStatusKeywords[17].0[0] == 'v'
    ensures 2 < |AllStatusKeywords[17].0| && AllStatusKeywords[17].0[2] == 'd'
    ensures 8 < |AllStatusKeywords[17].0| && AllStatusKeywords[17].0[8] == 'l'
  {
  }

  lemma KeywordLetters2()
    ensures 3 < |AllStatusKeywords[18].0| && AllStatusKeywords[18].0[3] == 'f'
    ensures 5 < |AllStatusKeywords[19].0| && AllStatusKeywords[19].0[5] == 'v'
    ensures 6 < |AllStatusKeywords[20].0| && AllStatusKeywords[20].0[6] == 'v'
    ensures 0 < |AllStatusKeywords[21].0| && AllStatusKeywords[21].0[0] == 'w'
    ensures 11 < |AllStatusKeywords[21].0| && AllStatusKeywords[21].0[11] == 'u'
    ensures 2 < |AllStatusKeywords[22].0| && AllStatusKeywords[22].0[2] == 'u'
    ensures 10 < |AllStatusKeywords[23].0| && AllStatusKeywords[23].0[10] == 'x'
    ensures 4 < |AllStatusKeywords[24].0| && AllStatusKeywords[24].0[4] == 'u'
    ensures 7 < |AllStatusKeywords[24].0| && AllStatusKeywords[24].0[7] == 'k'
    ensures 5 < |AllStatusKeywords[25].0| && AllStatusKeywords[25].0[5] == 'u'
    ensures 17 < |AllStatusKeywords[26].0| && AllStatusKeywords[26].0[17] == 'v'
  {
  }

  lemma KeywordLetters3()
    ensures 4 < |AllStatusKeywords[27].0| && AllStatusKeywords[27].0[4] == 'k'
    ensures 8 < |AllStatusKeywords[27].0| && AllStatusKeywords[27].0[8] == 'u'
    ensures 14 < |AllStatusKeywords[28].0| && AllStatusKeywords[28].0[14] == 'b'
    ensures 5 < |AllStatusKeywords[29].0| && AllStatusKeywords[29].0[5] == 'v'
    ensures 1 < |AllStatusKeywords[30].0| && AllStatusKeywords[30].0[1] == 'p'
    ensures 0 < |AllStatusKeywords[32].0| && AllStatusKeywords[32].0[0] == 'u'
    ensures 0 < |AllStatusKeywords[33].0| && AllStatusKeywords[33].0[0] == 'f'
    ensures 8 < |AllStatusKeywords[34].0| && AllStatusKeywords[34].0[8] == 'b'
    ensures 0 < |AllStatusKeywords[35].0| && AllStatusKeywords[35].0[0] == 'p'
  {
  }

  /** Keyword 1, "decided to move forward with", is absent from a text lacking its run "d t". */
  lemma KeywordRunMiss1At6(h: string)
    requires LacksGram(h, 'd', ' ', 't')
    ensures !Contains(AllStatusKeywords[1].0, h)
  {
    NotContainsGram(AllStatusKeywords[1].0, h, 6);
  }

  /** Keyword 2, "pursue other candidates", is absent from a text lacking its run "pur". */
  lemma KeywordRunMiss2At0(h: string)
    requires LacksGram(h, 'p', 'u', 'r')
    ensures !Contains(AllStatusKeywords[2].0, h)
  {
    NotContainsGram(AllStatusKeywords[2].0, h, 0);
  }

  /** Keyword 5, "not a good match", is absent from a text lacking its run "not". */
  lemma KeywordRunMiss5At0(h: string)
    requires LacksGram(h, 'n', 'o', 't')
    ensures !Contains(AllStatusKeywords[5].0, h)
  {
    NotContainsGram(AllStatusKeywords[5].0, h, 0);
  }

  /** Keyword 6, "unfortunately", is absent from a text lacking its run "unf". */
  lemma KeywordRunMiss6At0(h: string)
    requires LacksGram(h, 'u', 'n', 'f')
    ensures !Contains(AllStatusKeywords[6].0, h)
  {
    NotContainsGram(AllStatusKeywords[6].0, h, 0);
  }

  /** Keyword 9, "your official offer", is absent from a text lacking its run "ffi". */
  lemma KeywordRunMiss9At6(h: string)
    requires LacksGram(h, 'f', 'f', 'i')
    ensures !Contains(AllStatusKeywords[9].0, h)
  {
    NotContainsGram(AllStatusKeywords[9].0, h, 6);
  }

  /** Keyword 12, "congrats", is absent from a text lacking its run "con". */
  lemma KeywordRunMiss12At0(h: string)
    requires LacksGram(h, 'c', 'o', 'n')
    ensures !Contains(AllStatusKeywords[12].0, h)
  {
    NotContainsGram(AllStatusKeywords[12].0, h, 0);
  }

  /** Keyword 13, "offered", is absent from a text lacking its run "off". */
  lemma KeywordRunMiss13At0(h: string)
    requires LacksGram(h, 'o', 'f', 'f')
    ensures !Contains(AllStatusKeywords[13].0, h)
  {
    NotContainsGram(AllStatusKeywords[13].0, h, 0);
  }

  /** Keyword 15, "interview date", is absent from a text lacking its run "w d". */
  lemma KeywordRunMiss15At8(h: string)
    requires LacksGram(h, 'w', ' ', 'd')
    ensures !Contains(AllStatusKeywords[15].0, h)
  {
    NotContainsGram(AllStatusKeywords[15].0, h, 8);
  }

  /** Keyword 16, "phone screen", is absent from a text lacking its run "pho". */
  lemma KeywordRunMiss16At0(h: string)
    requires LacksGram(h, 'p', 'h', 'o')
    ensures !Contains(AllStatusKeywords[16].0, h)
  {
    NotContainsGram(AllStatusKeywords[16].0, h, 0);
  }

  /** Keyword 19, "interview", is absent from a text lacking its run "int". */
  lemma KeywordRunMiss19At0(h: string)
    requires LacksGram(h, 'i', 'n', 't')
    ensures !Contains(AllStatusKeywords[19].0, h)
  {
    NotContainsGram(AllStatusKeywords[19].0, h, 0);
  }

  /** Keyword 20, "your availability", is absent from a text lacking its run "our". */
  lemma KeywordRunMiss20At1(h: string)
    requires LacksGram(h, 'o', 'u', 'r')
    ensures !Contains(AllStatusKeywords[20].0, h)
  {
    NotContainsGram(AllStatusKeywords[20].0, h, 1);
  }

  /** Keyword 22, "your schedule", is absent from a text lacking its run "r s". */
  lemma KeywordRunMiss22At3(h: string)
    requires LacksGram(h, 'r', ' ', 's')
    ensures !Contains(AllStatusKeywords[22].0, h)
  {
    NotContainsGram(AllStatusKeywords[22].0, h, 3);
  }

  /** Keyword 25, "schedule", is absent from a text lacking its run "sch". */
  lemma KeywordRunMiss25At0(h: string)
    requires LacksGram(h, 's', 'c', 'h')
    ensures !Contains(AllStatusKeywords[25].0, h)
  {
    NotContainsGram(AllStatusKeywords[25].0, h, 0);
  }

  /** Keyword 30, "applied", is absent from a text lacking its run "lie". */
  lemma KeywordRunMiss30At3(h: string)
    requires LacksGram(h, 'l', 'i', 'e')
    ensures !Contains(AllStatusKeywords[30].0, h)
  {
    NotContainsGram(AllStatusKeywords[30].0, h, 3);
  }

  /** Keyword 31, "on hold", is absent from a text lacking its run "on ". */
  lemma KeywordRunMiss31At0(h: string)
    requires LacksGram(h, 'o', 'n', ' ')
    ensures !Contains(AllStatusKeywords[31].0, h)
  {
    NotContainsGram(AllStatusKeywords[31].0, h, 0);
  }

  /** Keyword 36, "holding", is absent from a text lacking its run "hol". */
  lemma KeywordRunMiss36At0(h: string)
    requires LacksGram(h, 'h', 'o', 'l')
    ensures !Contains(AllStatusKeywords[36].0, h)
  {
    NotContainsGram(AllStatusKeywords[36].0, h, 0);
  }
}

/** The case at backend/tests/test_status_predictor.py line 10: the test expects "Interview Scheduled". */
module PredictorCaseInterviewConfirmation {
  import opened Strings
  import opened Constants
  import opened StatusPredictor
  import opened TestStatusPredictor

  /** The lower-cased text of the mail. */
  const Text: string := ((("interview " + "confirmation") + " ") + (("your " + "interview is ") + "confirmed."))

  /** The characters of `Text`. */
  const Alphabet: set<char> := {' ', '.', 'a', 'c', 'd', 'e', 'f', 'i', 'm', 'n', 'o', 'r', 's', 't', 'u', 'v', 'w', 'y'}

  lemma SubjectLowered()
    ensures Lower(("Interview " + "Confirmation")) == ("interview " + "confirmation")
  {
    LowerIs("Interview ", "interview ");
    LowerIs("Confirmation", "confirmation");
    LowerConcat("Interview ", "Confirmation");
  }

  lemma BodyLowered()
    ensures Lower((("Your " + "interview is ") + "confirmed.")) == (("your " + "interview is ") + "confirmed.")
  {
    LowerIs("Your ", "your ");
    LowerIs("interview is ", "interview is ");
    LowerIs("confirmed.", "confirmed.");
    LowerConcat("Your ", "interview is ");
    LowerConcat(("Your " + "interview is "), "confirmed.");
  }

  lemma Lowered()
    ensures FullText(map["subject" := ("Interview " + "Confirmation"), "body" := (("Your " + "interview is ") + "confirmed.")]) == Text
  {
    SubjectLowered();
    BodyLowered();
    TextIs(("Interview " + "Confirmation"), (("Your " + "interview is ") + "confirmed."), ("interview " + "confirmation"), (("your " + "interview is ") + "confirmed."));
  }

  lemma InAlphabet()
    ensures Within(Text, Alphabet)
  {
    WithinConcat("interview ", "confirmation", Alphabet);
    WithinConcat(("interview " + "confirmation"), " ", Alphabet);
    WithinConcat("your ", "interview is ", Alphabet);
    WithinConcat(("your " + "interview is "), "confirmed.", Alphabet);
    WithinConcat((("interview " + "confirmation") + " "), (("your " + "interview is ") + "confirmed."), Alphabet);
  }

  /** Characters of the keyword table that `Text` does not use. */
  lemma Outside()
    ensures '\'' !in Alphabet && 'g' !in Alphabet && 'h' !in Alphabet && 'j' !in Alphabet && 'l' !in Alphabet && 'p' !in Alphabet
  {
  }

  lemma LacksGram0()
    ensures LacksGram(Text, 'o', 'f', 'f')
  {
    LacksGramConcat("interview ", "confirmation", 'o', 'f', 'f');
    LacksGramConcat(("interview " + "confirmation"), " ", 'o', 'f', 'f');
    LacksGramConcat("your ", "interview is ", 'o', 'f', 'f');
    LacksGramConcat(("your " + "interview is "), "confirmed.", 'o', 'f', 'f');
    LacksGramConcat((("interview " + "confirmation") + " "), (("your " + "interview is ") + "confirmed."), 'o', 'f', 'f');
  }

  lemma LacksGram1()
    ensures LacksGram(Text, 'w', ' ', 'd')
  {
    LacksGramConcat("interview ", "confirmation", 'w', ' ', 'd');
    LacksGramConcat(("interview " + "confirmation"), " ", 'w', ' ', 'd');
    LacksGramConcat("your ", "interview is ", 'w', ' ', 'd');
    LacksGramConcat(("your " + "interview is "), "confirmed.", 'w', ' ', 'd');
    LacksGramConcat((("interview " + "confirmation") + " "), (("your " + "interview is ") + "confirmed."), 'w', ' ', 'd');
  }

  /** Keywords 0 to 8 of the table are absent from a text over `Alphabet` lacking the runs of `Text`. */
  lemma Misses0(h: string)
    requires Within(h, Alphabet)
    ensures forall j :: 0 <= j < 9 ==> !Contains(AllStatusKeywords[j].0, h)
  {
    KeywordLetters0();
    Outside();
    NotContainsOutside(AllStatusKeywords[0].0, h, Alphabet, 9);
    NotContainsOutside(AllStatusKeywords[1].0, h, Alphabet, 27);
    NotContainsOutside(AllStatusKeywords[2].0, h, Alphabet, 0);
    NotContainsOutside(AllStatusKeywords[3].0, h, Alphabet, 0);
    NotContainsOutside(AllStatusKeywords[4].0, h, Alphabet, 5);
    NotContainsOutside(AllStatusKeywords[5].0, h, Alphabet, 6);
    NotContainsOutside(AllStatusKeywords[6].0, h, Alphabet, 11);
    NotContainsOutside(AllStatusKeywords[7].0, h, Alphabet, 11);
    NotContainsOutside(AllStatusKeywords[8].0, h, Alphabet, 2);
  }

  /** Keywords 9 to 17 of the table are absent from a text over `Alphabet` lacking the runs of `Text`. */
  lemma Misses1(h: string)
    requires Within(h, Alphabet)
    requires LacksGram(h, 'o', 'f', 'f')
    requires LacksGram(h, 'w', ' ', 'd')
    ensures forall j :: 9 <= j < 18 ==> !Contains(AllStatusKeywords[j].0, h)
  {
    KeywordLetters1();
    Outside();
    NotContainsOutside(AllStatusKeywords[9].0, h, Alphabet, 12);
    NotContainsOutside(AllStatusKeywords[10].0, h, Alphabet, 3);
    NotContainsOutside(AllStatusKeywords[11].0, h, Alphabet, 0);
    NotContainsOutside(AllStatusKeywords[12].0, h, Alphabet, 3);
    KeywordRunMiss13At0(h);
    NotContainsOutside(AllStatusKeywords[14].0, h, Alphabet, 12);
    KeywordRunMiss15At8(h);
    NotContainsOutside(AllStatusKeywords[16].0, h, Alphabet, 0);
    NotContainsOutside(AllStatusKeywords[17].0, h, Alphabet, 8);
  }

  /** No keyword before position 18 of the table occurs in `Text`. */
  lemma NoEarlier()
    ensures forall j :: 0 <= j < 18 ==> !Contains(AllStatusKeywords[j].0, Text)
  {
    InAlphabet();
    LacksGram0();
    LacksGram1();
    Misses0(Text);
    Misses1(Text);
  }

  /** Keyword 18 of the table, "confirmed", occurs in `Text` and stands for "Interview Scheduled". */
  lemma Hit()
    ensures Contains(AllStatusKeywords[18].0, Text) && AllStatusKeywords[18].1 == "Interview Scheduled"
  {
    assert AllStatusKeywords[18].0 == "confirmed";
    assert OccursAt("confirmed", "confirmed.", 0);
    ContainsConcat("confirmed", ("your " + "interview is "), "confirmed.");
    ContainsConcat("confirmed", (("interview " + "confirmation") + " "), (("your " + "interview is ") + "confirmed."));
  }

  /** The test expects "Interview Scheduled". */
  lemma Case()
    ensures PredictInterviewStatus(map["subject" := ("Interview " + "Confirmation"), "body" := (("Your " + "interview is ") + "confirmed.")]) == "Interview Scheduled"
  {
    Lowered();
    NoEarlier();
    Hit();
    FirstHitPredicts(map["subject" := ("Interview " + "Confirmation"), "body" := (("Your " + "interview is ") + "confirmed.")], Text, 18);
  }
}

/** The case at backend/tests/test_status_predictor.py line 15: the test expects "Request for Availability". */
module PredictorCaseWhenAvailable {
  import opened Strings
  import opened Constants
  import opened StatusPredictor
  import opened TestStatusPredictor

  /** The lower-cased text of the mail. */
  const Text: string := (("availability" + " ") + ("when are you available " + "to chat?"))

  /** The characters of `Text`. */
  const Alphabet: set<char> := {' ', '?', 'a', 'b', 'c', 'e', 'h', 'i', 'l', 'n', 'o', 'r', 't', 'u', 'v', 'w', 'y'}

  lemma SubjectLowered()
    ensures Lower("Availability") == "availability"
  {
    LowerIs("Availability", "availability");
  }

  lemma BodyLowered()
    ensures Lower(("When are you available " + "to chat?")) == ("when are you available " + "to chat?")
  {
    LowerIs("When are you available ", "when are you available ");
    LowerIs("to chat?", "to chat?");
    LowerConcat("When are you available ", "to chat?");
  }

  lemma Lowered()
    ensures FullText(map["subject" := "Availability", "body" := ("When are you available " + "to chat?")]) == Text
  {
    SubjectLowered();
    BodyLowered();
    TextIs("Availability", ("When are you available " + "to chat?"), "availability", ("when are you available " + "to chat?"));
  }

  lemma InAlphabet()
    ensures Within(Text, Alphabet)
  {
    WithinConcat("availability", " ", Alphabet);
    WithinConcat("when are you available ", "to chat?", Alphabet);
    WithinConcat(("availability" + " "), ("when are you available " + "to chat?"), Alphabet);
  }

  /** Characters of the keyword table that `Text` does not use. */
  lemma Outside()
    ensures '\'' !in Alphabet && 'd' !in Alphabet && 'f' !in Alphabet && 'g' !in Alphabet && 'j' !in Alphabet && 'p' !in Alphabet && 's' !in Alphabet
  {
  }

  lemma LacksGram0()
    ensures LacksGram(Text, 'i', 'n', 't')
  {
    LacksGramConcat("availability", " ", 'i', 'n', 't');
    LacksGramConcat("when are you available ", "to chat?", 'i', 'n', 't');
    LacksGramConcat(("availability" + " "), ("when are you available " + "to chat?"), 'i', 'n', 't');
  }

  lemma LacksGram1()
    ensures LacksGram(Text, 'o', 'u', 'r')
  {
    LacksGramConcat("availability", " ", 'o', 'u', 'r');
    LacksGramConcat("when are you available ", "to chat?", 'o', 'u', 'r');
    LacksGramConcat(("availability" + " "), ("when are you available " + "to chat?"), 'o', 'u', 'r');
  }

  /** Keywords 0 to 8 of the table are absent from a text over `Alphabet` lacking the runs of `Text`. */
  lemma Misses0(h: string)
    requires Within(h, Alphabet)
    ensures forall j :: 0 <= j < 9 ==> !Contains(AllStatusKeywords[j].0, h)
  {
    KeywordLetters0();
    Outside();
    NotContainsOutside(AllStatusKeywords[0].0, h, Alphabet, 9);
    NotContainsOutside(AllStatusKeywords[1].0, h, Alphabet, 0);
    NotContainsOutside(AllStatusKeywords[2].0, h, Alphabet, 0);
    NotContainsOutside(AllStatusKeywords[3].0, h, Alphabet, 5);
    NotContainsOutside(AllStatusKeywords[4].0, h, Alphabet, 10);
    NotContainsOutside(AllStatusKeywords[5].0, h, Alphabet, 6);
    NotContainsOutside(AllStatusKeywords[6].0, h, Alphabet, 2);
    NotContainsOutside(AllStatusKeywords[7].0, h, Alphabet, 11);
    NotContainsOutside(AllStatusKeywords[8].0, h, Alphabet, 2);
  }

  /** Keywords 9 to 17 of the table are absent from a text over `Alphabet` lacking the runs of `Text`. */
  lemma Misses1(h: string)
    requires Within(h, Alphabet)
    ensures forall j :: 9 <= j < 18 ==> !Contains(AllStatusKeywords[j].0, h)
  {
    KeywordLetters1();
    Outside();
    NotContainsOutside(AllStatusKeywords[9].0, h, Alphabet, 6);
    NotContainsOutside(AllStatusKeywords[10].0, h, Alphabet, 3);
    NotContainsOutside(AllStatusKeywords[11].0, h, Alphabet, 0);
    NotContainsOutside(AllStatusKeywords[12].0, h, Alphabet, 3);
    NotContainsOutside(AllStatusKeywords[13].0, h, Alphabet, 1);
    NotContainsOutside(AllStatusKeywords[14].0, h, Alphabet, 10);
    NotContainsOutside(AllStatusKeywords[15].0, h, Alphabet, 10);
    NotContainsOutside(AllStatusKeywords[16].0, h, Alphabet, 0);
    NotContainsOutside(AllStatusKeywords[17].0, h, Alphabet, 2);
  }

  /** Keywords 18 to 20 of the table are absent from a text over `Alphabet` lacking the runs of `Text`. */
  lemma Misses2(h: string)
    requires Within(h, Alphabet)
    requires LacksGram(h, 'i', 'n', 't')
    requires LacksGram(h, 'o', 'u', 'r')
    ensures forall j :: 18 <= j < 21 ==> !Contains(AllStatusKeywords[j].0, h)
  {
    KeywordLetters2();
    Outside();
    NotContainsOutside(AllStatusKeywords[18].0, h, Alphabet, 3);
    KeywordRunMiss19At0(h);
    KeywordRunMiss20At1(h);
  }

  /** No keyword before position 21 of the table occurs in `Text`. */
  lemma NoEarlier()
    ensures forall j :: 0 <= j < 21 ==> !Contains(AllStatusKeywords[j].0, Text)
  {
    InAlphabet();
    LacksGram0();
    LacksGram1();
    Misses0(Text);
    Misses1(Text);
    Misses2(Text);
  }

  /** Keyword 21 of the table, "when are you available", occurs in `Text` and stands for "Request for Availability". */
  lemma Hit()
    ensures Contains(AllStatusKeywords[21].0, Text) && AllStatusKeywords[21].1 == "Request for Availability"
  {
    assert AllStatusKeywords[21].0 == "when are you available";
    assert OccursAt("when are you available", "when are you available ", 0);
    ContainsConcat("when are you available", "when are you available ", "to chat?");
    ContainsConcat("when are you available", ("availability" + " "), ("when are you available " + "to chat?"));
  }

  /** The test expects "Request for Availability". */
  lemma Case()
    ensures PredictInterviewStatus(map["subject" := "Availability", "body" := ("When are you available " + "to chat?")]) == "Request for Availability"
  {
    Lowered();
    NoEarlier();
    Hit();
    FirstHitPredicts(map["subject" := "Availability", "body" := ("When are you available " + "to chat?")], Text, 21);
  }
}

/** The case at backend/tests/test_status_predictor.py line 18: the test expects "On Hold". */
module PredictorCaseOnHold {
  import opened Strings
  import opened Constants
  import opened StatusPredictor
  import opened TestStatusPredictor

  /** The lower-cased text of the mail. */
  const Text: string := (("update" + " ") + ((("your " + "application ") + "is currently ") + "on hold."))

  /** The characters of `Text`. */
  const Alphabet: set<char> := {' ', '.', 'a', 'c', 'd', 'e', 'h', 'i', 'l', 'n', 'o', 'p', 'r', 's', 't', 'u', 'y'}

  lemma SubjectLowered()
    ensures Lower("Update") == "update"
  {
    LowerIs("Update", "update");
  }

  lemma BodyLowered()
    ensures Lower(((("Your " + "application ") + "is currently ") + "on hold.")) == ((("your " + "application ") + "is currently ") + "on hold.")
  {
    LowerIs("Your ", "your ");
    LowerIs("application ", "application ");
    LowerIs("is currently ", "is currently ");
    LowerIs("on hold.", "on hold.");
    LowerConcat("Your ", "application ");
    LowerConcat(("Your " + "application "), "is currently ");
    LowerConcat((("Your " + "application ") + "is currently "), "on hold.");
  }

  lemma Lowered()
    ensures FullText(map["subject" := "Update", "body" := ((("Your " + "application ") + "is currently ") + "on hold.")]) == Text
  {
    SubjectLowered();
    BodyLowered();
    TextIs("Update", ((("Your " + "application ") + "is currently ") + "on hold."), "update", ((("your " + "application ") + "is currently ") + "on hold."));
  }

  lemma InAlphabet()
    ensures Within(Text, Alphabet)
  {
    WithinConcat("update", " ", Alphabet);
    WithinConcat("your ", "application ", Alphabet);
    WithinConcat(("your " + "application "), "is currently ", Alphabet);
    WithinConcat((("your " + "application ") + "is currently "), "on hold.", Alphabet);
    WithinConcat(("update" + " "), ((("your " + "application ") + "is currently ") + "on hold."), Alphabet);
  }

  /** Characters of the keyword table that `Text` does not use. */
  lemma Outside()
    ensures '\'' !in Alphabet && 'b' !in Alphabet && 'f' !in Alphabet && 'g' !in Alphabet && 'j' !in Alphabet && 'k' !in Alphabet && 'm' !in Alphabet && 'v' !in Alphabet && 'w' !in Alphabet && 'x' !in Alphabet
  {
  }

  lemma LacksGram0()
    ensures LacksGram(Text, 'p', 'u', 'r')
  {
    LacksGramConcat("update", " ", 'p', 'u', 'r');
    LacksGramConcat("your ", "application ", 'p', 'u', 'r');
    LacksGramConcat(("your " + "application "), "is currently ", 'p', 'u', 'r');
    LacksGramConcat((("your " + "application ") + "is currently "), "on hold.", 'p', 'u', 'r');
    LacksGramConcat(("update" + " "), ((("your " + "application ") + "is currently ") + "on hold."), 'p', 'u', 'r');
  }

  lemma LacksGram1()
    ensures LacksGram(Text, 'p', 'h', 'o')
  {
    LacksGramConcat("update", " ", 'p', 'h', 'o');
    LacksGramConcat("your ", "application ", 'p', 'h', 'o');
    LacksGramConcat(("your " + "application "), "is currently ", 'p', 'h', 'o');
    LacksGramConcat((("your " + "application ") + "is currently "), "on hold.", 'p', 'h', 'o');
    LacksGramConcat(("update" + " "), ((("your " + "application ") + "is currently ") + "on hold."), 'p', 'h', 'o');
  }

  lemma LacksGram2()
    ensures LacksGram(Text, 'r', ' ', 's')
  {
    LacksGramConcat("update", " ", 'r', ' ', 's');
    LacksGramConcat("your ", "application ", 'r', ' ', 's');
    LacksGramConcat(("your " + "application "), "is currently ", 'r', ' ', 's');
    LacksGramConcat((("your " + "application ") + "is currently "), "on hold.", 'r', ' ', 's');
    LacksGramConcat(("update" + " "), ((("your " + "application ") + "is currently ") + "on hold."), 'r', ' ', 's');
  }

  lemma LacksGram3()
    ensures LacksGram(Text, 's', 'c', 'h')
  {
    LacksGramConcat("update", " ", 's', 'c', 'h');
    LacksGramConcat("your ", "application ", 's', 'c', 'h');
    LacksGramConcat(("your " + "application "), "is currently ", 's', 'c', 'h');
    LacksGramConcat((("your " + "application ") + "is currently "), "on hold.", 's', 'c', 'h');
    LacksGramConcat(("update" + " "), ((("your " + "application ") + "is currently ") + "on hold."), 's', 'c', 'h');
  }

  lemma LacksGram4()
    ensures LacksGram(Text, 'l', 'i', 'e')
  {
    LacksGramConcat("update", " ", 'l', 'i', 'e');
    LacksGramConcat("your ", "application ", 'l', 'i', 'e');
    LacksGramConcat(("your " + "application "), "is currently ", 'l', 'i', 'e');
    LacksGramConcat((("your " + "application ") + "is currently "), "on hold.", 'l', 'i', 'e');
    LacksGramConcat(("update" + " "), ((("your " + "application ") + "is currently ") + "on hold."), 'l', 'i', 'e');
  }

  /** Keywords 0 to 8 of the table are absent from a text over `Alphabet` lacking the runs of `Text`. */
  lemma Misses0(h: string)
    requires Within(h, Alphabet)
    requires LacksGram(h, 'p', 'u', 'r')
    ensures forall j :: 0 <= j < 9 ==> !Contains(AllStatusKeywords[j].0, h)
  {
    KeywordLetters0();
    Outside();
    NotContainsOutside(AllStatusKeywords[0].0, h, Alphabet, 9);
    NotContainsOutside(AllStatusKeywords[1].0, h, Alphabet, 11);
    KeywordRunMiss2At0(h);
    NotContainsOutside(AllStatusKeywords[3].0, h, Alphabet, 2);
    NotContainsOutside(AllStatusKeywords[4].0, h, Alphabet, 10);
    NotContainsOutside(AllStatusKeywords[5].0, h, Alphabet, 6);
    NotContainsOutside(AllStatusKeywords[6].0, h, Alphabet, 2);
    NotContainsOutside(AllStatusKeywords[7].0, h, Alphabet, 1);
    NotContainsOutside(AllStatusKeywords[8].0, h, Alphabet, 2);
  }

  /** Keywords 9 to 17 of the table are absent from a text over `Alphabet` lacking the runs of `Text`. */
  lemma Misses1(h: string)
    requires Within(h, Alphabet)
    requires LacksGram(h, 'p', 'h', 'o')
    ensures forall j :: 9 <= j < 18 ==> !Contains(AllStatusKeywords[j].0, h)
  {
    KeywordLetters1();
    Outside();
    NotContainsOutside(AllStatusKeywords[9].0, h, Alphabet, 6);
    NotContainsOutside(AllStatusKeywords[10].0, h, Alphabet, 3);
    NotContainsOutside(AllStatusKeywords[11].0, h, Alphabet, 0);
    NotContainsOutside(AllStatusKeywords[12].0, h, Alphabet, 3);
    NotContainsOutside(AllStatusKeywords[13].0, h, Alphabet, 1);
    NotContainsOutside(AllStatusKeywords[14].0, h, Alphabet, 5);
    NotContainsOutside(AllStatusKeywords[15].0, h, Alphabet, 5);
    KeywordRunMiss16At0(h);
    NotContainsOutside(AllStatusKeywords[17].0, h, Alphabet, 0);
  }

  /** Keywords 18 to 26 of the table are absent from a text over `Alphabet` lacking the runs of `Text`. */
  lemma Misses2(h: string)
    requires Within(h, Alphabet)
    requires LacksGram(h, 'r', ' ', 's')
    requires LacksGram(h, 's', 'c', 'h')
    ensures forall j :: 18 <= j < 27 ==> !Contains(AllStatusKeywords[j].0, h)
  {
    KeywordLetters2();
    Outside();
    NotContainsOutside(AllStatusKeywords[18].0, h, Alphabet, 3);
    NotContainsOutside(AllStatusKeywords[19].0, h, Alphabet, 5);
    NotContainsOutside(AllStatusKeywords[20].0, h, Alphabet, 6);
    NotContainsOutside(AllStatusKeywords[21].0, h, Alphabet, 0);
    KeywordRunMiss22At3(h);
    NotContainsOutside(AllStatusKeywords[23].0, h, Alphabet, 10);
    NotContainsOutside(AllStatusKeywords[24].0, h, Alphabet, 7);
    KeywordRunMiss25At0(h);
    NotContainsOutside(AllStatusKeywords[26].0, h, Alphabet, 17);
  }

  /** Keywords 27 to 30 of the table are absent from a text over `Alphabet` lacking the runs of `Text`. */
  lemma Misses3(h: string)
    requires Within(h, Alphabet)
    requires LacksGram(h, 'l', 'i', 'e')
    ensures forall j :: 27 <= j < 31 ==> !Contains(AllStatusKeywords[j].0, h)
  {
    KeywordLetters3();
    Outside();
    NotContainsOutside(AllStatusKeywords[27].0, h, Alphabet, 4);
    NotContainsOutside(AllStatusKeywords[28].0, h, Alphabet, 14);
    NotContainsOutside(AllStatusKeywords[29].0, h, Alphabet, 5);
    KeywordRunMiss30At3(h);
  }

  /** No keyword before position 31 of the table occurs in `Text`. */
  lemma NoEarlier()
    ensures forall j :: 0 <= j < 31 ==> !Contains(AllStatusKeywords[j].0, Text)
  {
    InAlphabet();
    LacksGram0();
    LacksGram1();
    LacksGram2();
    LacksGram3();
    LacksGram4();
    Misses0(Text);
    Misses1(Text);
    Misses2(Text);
    Misses3(Text);
  }

  /** Keyword 31 of the table, "on hold", occurs in `Text` and stands for "On Hold". */
  lemma Hit()
    ensures Contains(AllStatusKeywords[31].0, Text) && AllStatusKeywords[31].1 == "On Hold"
  {
    assert AllStatusKeywords[31].0 == "on hold";
    assert OccursAt("on hold", "on hold.", 0);
    ContainsConcat("on hold", (("your " + "application ") + "is currently "), "on hold.");
    ContainsConcat("on hold", ("update" + " "), ((("your " + "application ") + "is currently ") + "on hold."));
  }

  /** The test expects "On Hold". */
  lemma Case()
    ensures PredictInterviewStatus(map["subject" := "Update", "body" := ((("Your " + "application ") + "is currently ") + "on hold.")]) == "On Hold"
  {
    Lowered();
    NoEarlier();
    Hit();
    FirstHitPredicts(map["subject" := "Update", "body" := ((("Your " + "application ") + "is currently ") + "on hold.")], Text, 31);
  }
}

/** The case at backend/tests/test_status_predictor.py line 22: the test expects "Rejection". */
module PredictorCaseDecidedNotTo {
  import opened Strings
  import opened Constants
  import opened StatusPredictor
  import opened TestStatusPredictor

  /** The lower-cased text of the mail. */
  const Text: string := ((("application " + "update") + " ") + ((("we have decided not to " + "move forward ") + "with your ") + "application."))

  /** The characters of `Text`. */
  const Alphabet: set<char> := {' ', '.', 'a', 'c', 'd', 'e', 'f', 'h', 'i', 'l', 'm', 'n', 'o', 'p', 'r', 't', 'u', 'v', 'w', 'y'}

  lemma SubjectLowered()
    ensures Lower(("Application " + "Update")) == ("application " + "update")
  {
    LowerIs("Application ", "application ");
    LowerIs("Update", "update");
    LowerConcat("Application ", "Update");
  }

  lemma BodyLowered()
    ensures Lower(((("We have decided not to " + "move forward ") + "with your ") + "application.")) == ((("we have decided not to " + "move forward ") + "with your ") + "application.")
  {
    LowerIs("We have decided not to ", "we have decided not to ");
    LowerIs("move forward ", "move forward ");
    LowerIs("with your ", "with your ");
    LowerIs("application.", "application.");
    LowerConcat("We have decided not to ", "move forward ");
    LowerConcat(("We have decided not to " + "move forward "), "with your ");
    LowerConcat((("We have decided not to " + "move forward ") + "with your "), "application.");
  }

  lemma Lowered()
    ensures FullText(map["subject" := ("Application " + "Update"), "body" := ((("We have decided not to " + "move forward ") + "with your ") + "application.")]) == Text
  {
    SubjectLowered();
    BodyLowered();
    TextIs(("Application " + "Update"), ((("We have decided not to " + "move forward ") + "with your ") + "application."), ("application " + "update"), ((("we have decided not to " + "move forward ") + "with your ") + "application."));
  }

  lemma InAlphabet()
    ensures Within(Text, Alphabet)
  {
    WithinConcat("application ", "update", Alphabet);
    WithinConcat(("application " + "update"), " ", Alphabet);
    WithinConcat("we have decided not to ", "move forward ", Alphabet);
    WithinConcat(("we have decided not to " + "move forward "), "with your ", Alphabet);
    WithinConcat((("we have decided not to " + "move forward ") + "with your "), "application.", Alphabet);
    WithinConcat((("application " + "update") + " "), ((("we have decided not to " + "move forward ") + "with your ") + "application."), Alphabet);
  }

  /** Characters of the keyword table that `Text` does not use. */
  lemma Outside()
    ensures 'g' !in Alphabet && 's' !in Alphabet
  {
  }

  lemma LacksGram0()
    ensures LacksGram(Text, 'd', ' ', 't')
  {
    LacksGramConcat("application ", "update", 'd', ' ', 't');
    LacksGramConcat(("application " + "update"), " ", 'd', ' ', 't');
    LacksGramConcat("we have decided not to ", "move forward ", 'd', ' ', 't');
    LacksGramConcat(("we have decided not to " + "move forward "), "with your ", 'd', ' ', 't');
    LacksGramConcat((("we have decided not to " + "move forward ") + "with your "), "application.", 'd', ' ', 't');
    LacksGramConcat((("application " + "update") + " "), ((("we have decided not to " + "move forward ") + "with your ") + "application."), 'd', ' ', 't');
  }

  /** Keywords 0 to 2 of the table are absent from a text over `Alphabet` lacking the runs of `Text`. */
  lemma Misses0(h: string)
    requires Within(h, Alphabet)
    requires LacksGram(h, 'd', ' ', 't')
    ensures forall j :: 0 <= j < 3 ==> !Contains(AllStatusKeywords[j].0, h)
  {
    KeywordLetters0();
    Outside();
    NotContainsOutside(AllStatusKeywords[0].0, h, Alphabet, 9);
    KeywordRunMiss1At6(h);
    NotContainsOutside(AllStatusKeywords[2].0, h, Alphabet, 3);
  }

  /** No keyword before position 3 of the table occurs in `Text`. */
  lemma NoEarlier()
    ensures forall j :: 0 <= j < 3 ==> !Contains(AllStatusKeywords[j].0, Text)
  {
    InAlphabet();
    LacksGram0();
    Misses0(Text);
  }

  /** Keyword 3 of the table, "have decided not to", occurs in `Text` and stands for "Rejection". */
  lemma Hit()
    ensures Contains(AllStatusKeywords[3].0, Text) && AllStatusKeywords[3].1 == "Rejection"
  {
    assert AllStatusKeywords[3].0 == "have decided not to";
    assert OccursAt("have decided not to", "we have decided not to ", 3);
    ContainsConcat("have decided not to", "we have decided not to ", "move forward ");
    ContainsConcat("have decided not to", ("we have decided not to " + "move forward "), "with your ");
    ContainsConcat("have decided not to", (("we have decided not to " + "move forward ") + "with your "), "application.");
    ContainsConcat("have decided not to", (("application " + "update") + " "), ((("we have decided not to " + "move forward ") + "with your ") + "application."));
  }

  /** The test expects "Rejection". */
  lemma Case()
    ensures PredictInterviewStatus(map["subject" := ("Application " + "Update"), "body" := ((("We have decided not to " + "move forward ") + "with your ") + "application.")]) == "Rejection"
  {
    Lowered();
    NoEarlier();
    Hit();
    FirstHitPredicts(map["subject" := ("Application " + "Update"), "body" := ((("We have decided not to " + "move forward ") + "with your ") + "application.")], Text, 3);
  }
}

/** The case at backend/tests/test_status_predictor.py line 23: the test expects "Rejection". */
module PredictorCaseNotTheRightFit {
  import opened Strings
  import opened Constants
  import opened StatusPredictor
  import opened TestStatusPredictor

  /** The lower-cased text of the mail. */
  const Text: string := ((("thank you for " + "your interest") + " ") + (("you are not the right fit " + "for this ") + "position."))

  /** The characters of `Text`. */
  const Alphabet: set<char> := {' ', '.', 'a', 'e', 'f', 'g', 'h', 'i', 'k', 'n', 'o', 'p', 'r', 's', 't', 'u', 'y'}

  lemma SubjectLowered()
    ensures Lower(("Thank you for " + "your interest")) == ("thank you for " + "your interest")
  {
    LowerIs("Thank you for ", "thank you for ");
    LowerIs("your interest", "your interest");
    LowerConcat("Thank you for ", "your interest");
  }

  lemma BodyLowered()
    ensures Lower((("You are not the right fit " + "for this ") + "position.")) == (("you are not the right fit " + "for this ") + "position.")
  {
    LowerIs("You are not the right fit ", "you are not the right fit ");
    LowerIs("for this ", "for this ");
    LowerIs("position.", "position.");
    LowerConcat("You are not the right fit ", "for this ");
    LowerConcat(("You are not the right fit " + "for this "), "position.");
  }

  lemma Lowered()
    ensures FullText(map["subject" := ("Thank you for " + "your interest"), "body" := (("You are not the right fit " + "for this ") + "position.")]) == Text
  {
    SubjectLowered();
    BodyLowered();
    TextIs(("Thank you for " + "your interest"), (("You are not the right fit " + "for this ") + "position."), ("thank you for " + "your interest"), (("you are not the right fit " + "for this ") + "position."));
  }

  lemma InAlphabet()
    ensures Within(Text, Alphabet)
  {
    WithinConcat("thank you for ", "your interest", Alphabet);
    WithinConcat(("thank you for " + "your interest"), " ", Alphabet);
    WithinConcat("you are not the right fit ", "for this ", Alphabet);
    WithinConcat(("you are not the right fit " + "for this "), "position.", Alphabet);
    WithinConcat((("thank you for " + "your interest") + " "), (("you are not the right fit " + "for this ") + "position."), Alphabet);
  }

  /** Characters of the keyword table that `Text` does not use. */
  lemma Outside()
    ensures 'c' !in Alphabet && 'd' !in Alphabet && 'm' !in Alphabet && 'v' !in Alphabet
  {
  }

  /** Keywords 0 to 3 of the table are absent from a text over `Alphabet` lacking the runs of `Text`. */
  lemma Misses0(h: string)
    requires Within(h, Alphabet)
    ensures forall j :: 0 <= j < 4 ==> !Contains(AllStatusKeywords[j].0, h)
  {
    KeywordLetters0();
    Outside();
    NotContainsOutside(AllStatusKeywords[0].0, h, Alphabet, 4);
    NotContainsOutside(AllStatusKeywords[1].0, h, Alphabet, 0);
    NotContainsOutside(AllStatusKeywords[2].0, h, Alphabet, 13);
    NotContainsOutside(AllStatusKeywords[3].0, h, Alphabet, 2);
  }

  /** No keyword before position 4 of the table occurs in `Text`. */
  lemma NoEarlier()
    ensures forall j :: 0 <= j < 4 ==> !Contains(AllStatusKeywords[j].0, Text)
  {
    InAlphabet();
    Misses0(Text);
  }

  /** Keyword 4 of the table, "not the right fit", occurs in `Text` and stands for "Rejection". */
  lemma Hit()
    ensures Contains(AllStatusKeywords[4].0, Text) && AllStatusKeywords[4].1 == "Rejection"
  {
    assert AllStatusKeywords[4].0 == "not the right fit";
    assert OccursAt("not the right fit", "you are not the right fit ", 8);
    ContainsConcat("not the right fit", "you are not the right fit ", "for this ");
    ContainsConcat("not the right fit", ("you are not the right fit " + "for this "), "position.");
    ContainsConcat("not the right fit", (("thank you for " + "your interest") + " "), (("you are not the right fit " + "for this ") + "position."));
  }

  /** The test expects "Rejection". */
  lemma Case()
    ensures PredictInterviewStatus(map["subject" := ("Thank you for " + "your interest"), "body" := (("You are not the right fit " + "for this ") + "position.")]) == "Rejection"
  {
    Lowered();
    NoEarlier();
    Hit();
    FirstHitPredicts(map["subject" := ("Thank you for " + "your interest"), "body" := (("You are not the right fit " + "for this ") + "position.")], Text, 4);
  }
}

/** The case at backend/tests/test_status_predictor.py line 26: the test expects "Offer Extended". */
module PredictorCaseOfferOfEmployment {
  import opened Strings
  import opened Constants
  import opened StatusPredictor
  import opened TestStatusPredictor

  /** The lower-cased text of the mail. */
  const Text: string := (("job offer" + " ") + (("we would like " + "to extend an ") + "offer of employment."))

  /** The characters of `Text`. */
  const Alphabet: set<char> := {' ', '.', 'a', 'b', 'd', 'e', 'f', 'i', 'j', 'k', 'l', 'm', 'n', 'o', 'p', 'r', 't', 'u', 'w', 'x', 'y'}

  lemma SubjectLowered()
    ensures Lower("Job Offer") == "job offer"
  {
    LowerIs("Job Offer", "job offer");
  }

  lemma BodyLowered()
    ensures Lower((("We would like " + "to extend an ") + "offer of employment.")) == (("we would like " + "to extend an ") + "offer of employment.")
  {
    LowerIs("We would like ", "we would like ");
    LowerIs("to extend an ", "to extend an ");
    LowerIs("offer of employment.", "offer of employment.");
    LowerConcat("We would like ", "to extend an ");
    LowerConcat(("We would like " + "to extend an "), "offer of employment.");
  }

  lemma Lowered()
    ensures FullText(map["subject" := "Job Offer", "body" := (("We would like " + "to extend an ") + "offer of employment.")]) == Text
  {
    SubjectLowered();
    BodyLowered();
    TextIs("Job Offer", (("We would like " + "to extend an ") + "offer of employment."), "job offer", (("we would like " + "to extend an ") + "offer of employment."));
  }

  lemma InAlphabet()
    ensures Within(Text, Alphabet)
  {
    WithinConcat("job offer", " ", Alphabet);
    WithinConcat("we would like ", "to extend an ", Alphabet);
    WithinConcat(("we would like " + "to extend an "), "offer of employment.", Alphabet);
    WithinConcat(("job offer" + " "), (("we would like " + "to extend an ") + "offer of employment."), Alphabet);
  }

  /** Characters of the keyword table that `Text` does not use. */
  lemma Outside()
    ensures 'g' !in Alphabet && 'h' !in Alphabet && 's' !in Alphabet
  {
  }

  lemma LacksGram0()
    ensures LacksGram(Text, 'u', 'n', 'f')
  {
    LacksGramConcat("job offer", " ", 'u', 'n', 'f');
    LacksGramConcat("we would like ", "to extend an ", 'u', 'n', 'f');
    LacksGramConcat(("we would like " + "to extend an "), "offer of employment.", 'u', 'n', 'f');
    LacksGramConcat(("job offer" + " "), (("we would like " + "to extend an ") + "offer of employment."), 'u', 'n', 'f');
  }

  /** Keywords 0 to 6 of the table are absent from a text over `Alphabet` lacking the runs of `Text`. */
  lemma Misses0(h: string)
    requires Within(h, Alphabet)
    requires LacksGram(h, 'u', 'n', 'f')
    ensures forall j :: 0 <= j < 7 ==> !Contains(AllStatusKeywords[j].0, h)
  {
    KeywordLetters0();
    Outside();
    NotContainsOutside(AllStatusKeywords[0].0, h, Alphabet, 9);
    NotContainsOutside(AllStatusKeywords[1].0, h, Alphabet, 27);
    NotContainsOutside(AllStatusKeywords[2].0, h, Alphabet, 3);
    NotContainsOutside(AllStatusKeywords[3].0, h, Alphabet, 0);
    NotContainsOutside(AllStatusKeywords[4].0, h, Alphabet, 5);
    NotContainsOutside(AllStatusKeywords[5].0, h, Alphabet, 6);
    KeywordRunMiss6At0(h);
  }

  /** No keyword before position 7 of the table occurs in `Text`. */
  lemma NoEarlier()
    ensures forall j :: 0 <= j < 7 ==> !Contains(AllStatusKeywords[j].0, Text)
  {
    InAlphabet();
    LacksGram0();
    Misses0(Text);
  }

  /** Keyword 7 of the table, "offer of employment", occurs in `Text` and stands for "Offer Extended". */
  lemma Hit()
    ensures Contains(AllStatusKeywords[7].0, Text) && AllStatusKeywords[7].1 == "Offer Extended"
  {
    assert AllStatusKeywords[7].0 == "offer of employment";
    assert OccursAt("offer of employment", "offer of employment.", 0);
    ContainsConcat("offer of employment", ("we would like " + "to extend an "), "offer of employment.");
    ContainsConcat("offer of employment", ("job offer" + " "), (("we would like " + "to extend an ") + "offer of employment."));
  }

  /** The test expects "Offer Extended". */
  lemma Case()
    ensures PredictInterviewStatus(map["subject" := "Job Offer", "body" := (("We would like " + "to extend an ") + "offer of employment.")]) == "Offer Extended"
  {
    Lowered();
    NoEarlier();
    Hit();
    FirstHitPredicts(map["subject" := "Job Offer", "body" := (("We would like " + "to extend an ") + "offer of employment.")], Text, 7);
  }
}

/** The case at backend/tests/test_status_predictor.py line 27: the test expects "Offer Extended". */
module PredictorCaseCongratulations {
  import opened Strings
  import opened Constants
  import opened StatusPredictor
  import opened TestStatusPredictor

  /** The lower-cased text of the mail. */
  const Text: string := (("congratulations!" + " ") + (((("we are " + "pleased to ") + "congratulate ") + "you on your ") + "offer."))

  /** The characters of `Text`. */
  const Alphabet: set<char> := {' ', '!', '.', 'a', 'c', 'd', 'e', 'f', 'g', 'i', 'l', 'n', 'o', 'p', 'r', 's', 't', 'u', 'w', 'y'}

  lemma SubjectLowered()
    ensures Lower("Congratulations!") == "congratulations!"
  {
    LowerIs("Congratulations!", "congratulations!");
  }

  lemma BodyLowered()
    ensures Lower((((("We are " + "pleased to ") + "congratulate ") + "you on your ") + "offer.")) == (((("we are " + "pleased to ") + "congratulate ") + "you on your ") + "offer.")
  {
    LowerIs("We are ", "we are ");
    LowerIs("pleased to ", "pleased to ");
    LowerIs("congratulate ", "congratulate ");
    LowerIs("you on your ", "you on your ");
    LowerIs("offer.", "offer.");
    LowerConcat("We are ", "pleased to ");
    LowerConcat(("We are " + "pleased to "), "congratulate ");
    LowerConcat((("We are " + "pleased to ") + "congratulate "), "you on your ");
    LowerConcat(((("We are " + "pleased to ") + "congratulate ") + "you on your "), "offer.");
  }

  lemma Lowered()
    ensures FullText(map["subject" := "Congratulations!", "body" := (((("We are " + "pleased to ") + "congratulate ") + "you on your ") + "offer.")]) == Text
  {
    SubjectLowered();
    BodyLowered();
    TextIs("Congratulations!", (((("We are " + "pleased to ") + "congratulate ") + "you on your ") + "offer."), "congratulations!", (((("we are " + "pleased to ") + "congratulate ") + "you on your ") + "offer."));
  }

  lemma InAlphabet()
    ensures Within(Text, Alphabet)
  {
    WithinConcat("congratulations!", " ", Alphabet);
    WithinConcat("we are ", "pleased to ", Alphabet);
    WithinConcat(("we are " + "pleased to "), "congratulate ", Alphabet);
    WithinConcat((("we are " + "pleased to ") + "congratulate "), "you on your ", Alphabet);
    WithinConcat(((("we are " + "pleased to ") + "congratulate ") + "you on your "), "offer.", Alphabet);
    WithinConcat(("congratulations!" + " "), (((("we are " + "pleased to ") + "congratulate ") + "you on your ") + "offer."), Alphabet);
  }

  /** Characters of the keyword table that `Text` does not use. */
  lemma Outside()
    ensures '\'' !in Alphabet && 'h' !in Alphabet && 'm' !in Alphabet
  {
  }

  lemma LacksGram0()
    ensures LacksGram(Text, 'u', 'n', 'f')
  {
    LacksGramConcat("congratulations!", " ", 'u', 'n', 'f');
    LacksGramConcat("we are ", "pleased to ", 'u', 'n', 'f');
    LacksGramConcat(("we are " + "pleased to "), "congratulate ", 'u', 'n', 'f');
    LacksGramConcat((("we are " + "pleased to ") + "congratulate "), "you on your ", 'u', 'n', 'f');
    LacksGramConcat(((("we are " + "pleased to ") + "congratulate ") + "you on your "), "offer.", 'u', 'n', 'f');
    LacksGramConcat(("congratulations!" + " "), (((("we are " + "pleased to ") + "congratulate ") + "you on your ") + "offer."), 'u', 'n', 'f');
  }

  lemma LacksGram1()
    ensures LacksGram(Text, 'f', 'f', 'i')
  {
    LacksGramConcat("congratulations!", " ", 'f', 'f', 'i');
    LacksGramConcat("we are ", "pleased to ", 'f', 'f', 'i');
    LacksGramConcat(("we are " + "pleased to "), "congratulate ", 'f', 'f', 'i');
    LacksGramConcat((("we are " + "pleased to ") + "congratulate "), "you on your ", 'f', 'f', 'i');
    LacksGramConcat(((("we are " + "pleased to ") + "congratulate ") + "you on your "), "offer.", 'f', 'f', 'i');
    LacksGramConcat(("congratulations!" + " "), (((("we are " + "pleased to ") + "congratulate ") + "you on your ") + "offer."), 'f', 'f', 'i');
  }

  /** Keywords 0 to 8 of the table are absent from a text over `Alphabet` lacking the runs of `Text`. */
  lemma Misses0(h: string)
    requires Within(h, Alphabet)
    requires LacksGram(h, 'u', 'n', 'f')
    ensures forall j :: 0 <= j < 9 ==> !Contains(AllStatusKeywords[j].0, h)
  {
    KeywordLetters0();
    Outside();
    NotContainsOutside(AllStatusKeywords[0].0, h, Alphabet, 4);
    NotContainsOutside(AllStatusKeywords[1].0, h, Alphabet, 11);
    NotContainsOutside(AllStatusKeywords[2].0, h, Alphabet, 9);
    NotContainsOutside(AllStatusKeywords[3].0, h, Alphabet, 0);
    NotContainsOutside(AllStatusKeywords[4].0, h, Alphabet, 5);
    NotContainsOutside(AllStatusKeywords[5].0, h, Alphabet, 11);
    KeywordRunMiss6At0(h);
    NotContainsOutside(AllStatusKeywords[7].0, h, Alphabet, 10);
    NotContainsOutside(AllStatusKeywords[8].0, h, Alphabet, 2);
  }

  /** Keywords 9 to 9 of the table are absent from a text over `Alphabet` lacking the runs of `Text`. */
  lemma Misses1(h: string)
    requires Within(h, Alphabet)
    requires LacksGram(h, 'f', 'f', 'i')
    ensures forall j :: 9 <= j < 10 ==> !Contains(AllStatusKeywords[j].0, h)
  {
    KeywordRunMiss9At6(h);
  }

  /** No keyword before position 10 of the table occurs in `Text`. */
  lemma NoEarlier()
    ensures forall j :: 0 <= j < 10 ==> !Contains(AllStatusKeywords[j].0, Text)
  {
    InAlphabet();
    LacksGram0();
    LacksGram1();
    Misses0(Text);
    Misses1(Text);
  }

  /** Keyword 10 of the table, "congratulations", occurs in `Text` and stands for "Offer Extended". */
  lemma Hit()
    ensures Contains(AllStatusKeywords[10].0, Text) && AllStatusKeywords[10].1 == "Offer Extended"
  {
    assert AllStatusKeywords[10].0 == "congratulations";
    assert OccursAt("congratulations", "congratulations!", 0);
    ContainsConcat("congratulations", "congratulations!", " ");
    ContainsConcat("congratulations", ("congratulations!" + " "), (((("we are " + "pleased to ") + "congratulate ") + "you on your ") + "offer."));
  }

  /** The test expects "Offer Extended". */
  lemma Case()
    ensures PredictInterviewStatus(map["subject" := "Congratulations!", "body" := (((("We are " + "pleased to ") + "congratulate ") + "you on your ") + "offer.")]) == "Offer Extended"
  {
    Lowered();
    NoEarlier();
    Hit();
    FirstHitPredicts(map["subject" := "Congratulations!", "body" := (((("We are " + "pleased to ") + "congratulate ") + "you on your ") + "offer.")], Text, 10);
  }
}

/** The case at backend/tests/test_status_predictor.py line 30: the test expects "No Response". */
module PredictorCaseGenericEmail {
  import opened Strings
  import opened Constants
  import opened StatusPredictor
  import opened TestStatusPredictor

  /** The lower-cased text of the mail. */
  const Text: string := ((("a generic " + "email") + " ") + (("this email " + "has no ") + "keywords."))

  /** The characters of `Text`. */
  const Alphabet: set<char> := {' ', '.', 'a', 'c', 'd', 'e', 'g', 'h', 'i', 'k', 'l', 'm', 'n', 'o', 'r', 's', 't', 'w', 'y'}

  lemma SubjectLowered()
    ensures Lower(("A generic " + "email")) == ("a generic " + "email")
  {
    LowerIs("A generic ", "a generic ");
    LowerIs("email", "email");
    LowerConcat("A generic ", "email");
  }

  lemma BodyLowered()
    ensures Lower((("This email " + "has no ") + "keywords.")) == (("this email " + "has no ") + "keywords.")
  {
    LowerIs("This email ", "this email ");
    LowerIs("has no ", "has no ");
    LowerIs("keywords.", "keywords.");
    LowerConcat("This email ", "has no ");
    LowerConcat(("This email " + "has no "), "keywords.");
  }

  lemma Lowered()
    ensures FullText(map["subject" := ("A generic " + "email"), "body" := (("This email " + "has no ") + "keywords.")]) == Text
  {
    SubjectLowered();
    BodyLowered();
    TextIs(("A generic " + "email"), (("This email " + "has no ") + "keywords."), ("a generic " + "email"), (("this email " + "has no ") + "keywords."));
  }

  lemma InAlphabet()
    ensures Within(Text, Alphabet)
  {
    WithinConcat("a generic ", "email", Alphabet);
    WithinConcat(("a generic " + "email"), " ", Alphabet);
    WithinConcat("this email ", "has no ", Alphabet);
    WithinConcat(("this email " + "has no "), "keywords.", Alphabet);
    WithinConcat((("a generic " + "email") + " "), (("this email " + "has no ") + "keywords."), Alphabet);
  }

  /** Characters of the keyword table that `Text` does not use. */
  lemma Outside()
    ensures '\'' !in Alphabet && 'b' !in Alphabet && 'f' !in Alphabet && 'j' !in Alphabet && 'p' !in Alphabet && 'u' !in Alphabet && 'v' !in Alphabet && 'x' !in Alphabet
  {
  }

  lemma LacksGram0()
    ensures LacksGram(Text, 'n', 'o', 't')
  {
    LacksGramConcat("a generic ", "email", 'n', 'o', 't');
    LacksGramConcat(("a generic " + "email"), " ", 'n', 'o', 't');
    LacksGramConcat("this email ", "has no ", 'n', 'o', 't');
    LacksGramConcat(("this email " + "has no "), "keywords.", 'n', 'o', 't');
    LacksGramConcat((("a generic " + "email") + " "), (("this email " + "has no ") + "keywords."), 'n', 'o', 't');
  }

  lemma LacksGram1()
    ensures LacksGram(Text, 'c', 'o', 'n')
  {
    LacksGramConcat("a generic ", "email", 'c', 'o', 'n');
    LacksGramConcat(("a generic " + "email"), " ", 'c', 'o', 'n');
    LacksGramConcat("this email ", "has no ", 'c', 'o', 'n');
    LacksGramConcat(("this email " + "has no "), "keywords.", 'c', 'o', 'n');
    LacksGramConcat((("a generic " + "email") + " "), (("this email " + "has no ") + "keywords."), 'c', 'o', 'n');
  }

  lemma LacksGram2()
    ensures LacksGram(Text, 'o', 'n', ' ')
  {
    LacksGramConcat("a generic ", "email", 'o', 'n', ' ');
    LacksGramConcat(("a generic " + "email"), " ", 'o', 'n', ' ');
    LacksGramConcat("this email ", "has no ", 'o', 'n', ' ');
    LacksGramConcat(("this email " + "has no "), "keywords.", 'o', 'n', ' ');
    LacksGramConcat((("a generic " + "email") + " "), (("this email " + "has no ") + "keywords."), 'o', 'n', ' ');
  }

  lemma LacksGram3()
    ensures LacksGram(Text, 'h', 'o', 'l')
  {
    LacksGramConcat("a generic ", "email", 'h', 'o', 'l');
    LacksGramConcat(("a generic " + "email"), " ", 'h', 'o', 'l');
    LacksGramConcat("this email ", "has no ", 'h', 'o', 'l');
    LacksGramConcat(("this email " + "has no "), "keywords.", 'h', 'o', 'l');
    LacksGramConcat((("a generic " + "email") + " "), (("this email " + "has no ") + "keywords."), 'h', 'o', 'l');
  }

  /** Keywords 0 to 8 of the table are absent from a text over `Alphabet` lacking the runs of `Text`. */
  lemma Misses0(h: string)
    requires Within(h, Alphabet)
    requires LacksGram(h, 'n', 'o', 't')
    ensures forall j :: 0 <= j < 9 ==> !Contains(AllStatusKeywords[j].0, h)
  {
    KeywordLetters0();
    Outside();
    NotContainsOutside(AllStatusKeywords[0].0, h, Alphabet, 6);
    NotContainsOutside(AllStatusKeywords[1].0, h, Alphabet, 13);
    NotContainsOutside(AllStatusKeywords[2].0, h, Alphabet, 0);
    NotContainsOutside(AllStatusKeywords[3].0, h, Alphabet, 2);
    NotContainsOutside(AllStatusKeywords[4].0, h, Alphabet, 14);
    KeywordRunMiss5At0(h);
    NotContainsOutside(AllStatusKeywords[6].0, h, Alphabet, 2);
    NotContainsOutside(AllStatusKeywords[7].0, h, Alphabet, 1);
    NotContainsOutside(AllStatusKeywords[8].0, h, Alphabet, 2);
  }

  /** Keywords 9 to 17 of the table are absent from a text over `Alphabet` lacking the runs of `Text`. */
  lemma Misses1(h: string)
    requires Within(h, Alphabet)
    requires LacksGram(h, 'c', 'o', 'n')
    ensures forall j :: 9 <= j < 18 ==> !Contains(AllStatusKeywords[j].0, h)
  {
    KeywordLetters1();
    Outside();
    NotContainsOutside(AllStatusKeywords[9].0, h, Alphabet, 6);
    NotContainsOutside(AllStatusKeywords[10].0, h, Alphabet, 7);
    NotContainsOutside(AllStatusKeywords[11].0, h, Alphabet, 0);
    KeywordRunMiss12At0(h);
    NotContainsOutside(AllStatusKeywords[13].0, h, Alphabet, 1);
    NotContainsOutside(AllStatusKeywords[14].0, h, Alphabet, 5);
    NotContainsOutside(AllStatusKeywords[15].0, h, Alphabet, 5);
    NotContainsOutside(AllStatusKeywords[16].0, h, Alphabet, 0);
    NotContainsOutside(AllStatusKeywords[17].0, h, Alphabet, 0);
  }

  /** Keywords 18 to 26 of the table are absent from a text over `Alphabet` lacking the runs of `Text`. */
  lemma Misses2(h: string)
    requires Within(h, Alphabet)
    ensures forall j :: 18 <= j < 27 ==> !Contains(AllStatusKeywords[j].0, h)
  {
    KeywordLetters2();
    Outside();
    NotContainsOutside(AllStatusKeywords[18].0, h, Alphabet, 3);
    NotContainsOutside(AllStatusKeywords[19].0, h, Alphabet, 5);
    NotContainsOutside(AllStatusKeywords[20].0, h, Alphabet, 6);
    NotContainsOutside(AllStatusKeywords[21].0, h, Alphabet, 11);
    NotContainsOutside(AllStatusKeywords[22].0, h, Alphabet, 2);
    NotContainsOutside(AllStatusKeywords[23].0, h, Alphabet, 10);
    NotContainsOutside(AllStatusKeywords[24].0, h, Alphabet, 4);
    NotContainsOutside(AllStatusKeywords[25].0, h, Alphabet, 5);
    NotContainsOutside(AllStatusKeywords[26].0, h, Alphabet, 17);
  }

  /** Keywords 27 to 35 of the table are absent from a text over `Alphabet` lacking the runs of `Text`. */
  lemma Misses3(h: string)
    requires Within(h, Alphabet)
    requires LacksGram(h, 'o', 'n', ' ')
    ensures forall j :: 27 <= j < 36 ==> !Contains(AllStatusKeywords[j].0, h)
  {
    KeywordLetters3();
    Outside();
    NotContainsOutside(AllStatusKeywords[27].0, h, Alphabet, 8);
    NotContainsOutside(AllStatusKeywords[28].0, h, Alphabet, 14);
    NotContainsOutside(AllStatusKeywords[29].0, h, Alphabet, 5);
    NotContainsOutside(AllStatusKeywords[30].0, h, Alphabet, 1);
    KeywordRunMiss31At0(h);
    NotContainsOutside(AllStatusKeywords[32].0, h, Alphabet, 0);
    NotContainsOutside(AllStatusKeywords[33].0, h, Alphabet, 0);
    NotContainsOutside(AllStatusKeywords[34].0, h, Alphabet, 8);
    NotContainsOutside(AllStatusKeywords[35].0, h, Alphabet, 0);
  }

  /** Keywords 36 to 36 of the table are absent from a text over `Alphabet` lacking the runs of `Text`. */
  lemma Misses4(h: string)
    requires Within(h, Alphabet)
    requires LacksGram(h, 'h', 'o', 'l')
    ensures forall j :: 36 <= j < 37 ==> !Contains(AllStatusKeywords[j].0, h)
  {
    KeywordRunMiss36At0(h);
  }

  /** No keyword before position 37 of the table occurs in `Text`. */
  lemma NoEarlier()
    ensures forall j :: 0 <= j < |AllStatusKeywords| ==> !Contains(AllStatusKeywords[j].0, Text)
  {
    InAlphabet();
    LacksGram0();
    LacksGram1();
    LacksGram2();
    LacksGram3();
    Misses0(Text);
    Misses1(Text);
    Misses2(Text);
    Misses3(Text);
    Misses4(Text);
  }

  /** The test expects "No Response". */
  lemma Case()
    ensures PredictInterviewStatus(map["subject" := ("A generic " + "email"), "body" := (("This email " + "has no ") + "keywords.")]) == "No Response"
  {
    Lowered();
    NoEarlier();
    NoHitPredictsNoResponse(map["subject" := ("A generic " + "email"), "body" := (("This email " + "has no ") + "keywords.")], Text);
  }
}
