/** Worked examples on the first survey question of the server's bank. */
module FeudScenarios {
  import opened FeudTypes
  import opened AnswerMatcher

  /** "Name a popular pizza topping." with its seven ranked answers. */
  function Pizza(): Question {
    Question("Name a popular pizza topping.",
      [Answer("Pepperoni", 35), Answer("Mushrooms", 20), Answer("Onions", 14),
       Answer("Sausage", 12), Answer("Bacon", 9), Answer("Extra cheese", 6),
       Answer("Peppers", 4)])
  }

  /** A word with no white space at either end normalizes to its
      lower-case spelling `t`. */
  lemma NormalizeWord(s: string, t: string)
    requires s != [] && !IsSpace(s[0]) && !IsSpace(s[|s| - 1])
    requires |t| == |s| && forall i :: 0 <= i < |s| ==> t[i] == LowerChar(s[i])
    ensures Normalize(s) == t
  {
    TrimNoBoundarySpace(s);
  }

  /** A haystack without the needle's first character does not contain it. */
  lemma {:induction false} MissingFirstChar(hay: string, needle: string)
    requires needle != [] && needle[0] !in hay
    ensures !Contains(hay, needle)
    decreases |hay|
  {
    if hay != [] {
      assert hay[0] in hay;
      MissingFirstChar(hay[1..], needle);
    }
  }

  /** A haystack shorter than the needle does not contain it. */
  lemma {:induction false} ShorterHay(hay: string, needle: string)
    requires |hay| < |needle|
    ensures !Contains(hay, needle)
    decreases |hay|
  {
    if hay != [] {
      ShorterHay(hay[1..], needle);
    }
  }

  lemma PepperKey()
    ensures Normalize("pepper") == "pepper"
  {
    NormalizeWord("pepper", "pepper");
  }

  lemma LowerPepperoniKey()
    ensures Normalize("pepperoni") == "pepperoni"
  {
    NormalizeWord("pepperoni", "pepperoni");
  }

  /** White space around a word does not change what it normalizes to. */
  lemma NormalizeIgnoresPadding(pre: string, w: string, post: string)
    requires AllSpace(pre) && AllSpace(post)
    requires w != [] && !IsSpace(w[0]) && !IsSpace(w[|w| - 1])
    ensures Normalize(pre + w + post) == Normalize(w)
  {
    TrimPadding(pre, w, post);
    TrimNoBoundarySpace(w);
  }

  lemma UpperPepperKey()
    ensures Normalize("PEPPER") == "pepper"
  {
    NormalizeWord("PEPPER", "pepper");
  }

  lemma PaddedPepperKey()
    ensures Normalize("  PEPPER ") == "pepper"
  {
    assert "  PEPPER " == "  " + "PEPPER" + " ";
    NormalizeIgnoresPadding("  ", "PEPPER", " ");
    UpperPepperKey();
  }

  /** Only the board's "pepperoni" is revealed, whoever found it and in
      whatever case it was written. */
  lemma RevealedPepperoni(text: string, t: TeamId)
    requires Normalize(text) == "pepperoni"
    ensures RevealedKeys([RevealedAnswer(text, 35, t)]) == {"pepperoni"}
  {
  }

  /** On keys spelled as `Pizza`'s, with "pepperoni" revealed, "pepper"
      first qualifies at the seventh entry. */
  lemma PeppersQualifiesFirst(keys: seq<string>)
    requires |keys| == 7 && keys[0] == "pepperoni" && keys[1] == "mushrooms" && keys[2] == "onions"
    requires keys[3] == "sausage" && keys[4] == "bacon" && keys[5] == "extra cheese" && keys[6] == "peppers"
    ensures FirstMatchAt(keys, "pepper", {"pepperoni"}, 6)
  {
    MissingFirstChar(keys[1], "pepper");
    MissingFirstChar(keys[2], "pepper");
    MissingFirstChar(keys[3], "pepper");
    MissingFirstChar(keys[4], "pepper");
    MissingFirstChar(keys[5], "pepper");
    assert "pepper" <= keys[6];
  }

  /** On the same keys, with "pepperoni" revealed, "pepperoni" qualifies
      nowhere. */
  lemma PepperoniQualifiesNowhere(keys: seq<string>)
    requires |keys| == 7 && keys[0] == "pepperoni" && keys[1] == "mushrooms" && keys[2] == "onions"
    requires keys[3] == "sausage" && keys[4] == "bacon" && keys[5] == "extra cheese" && keys[6] == "peppers"
    ensures forall j :: 0 <= j < |keys| ==> !Qualifies(keys[j], "pepperoni", {"pepperoni"})
  {
    MissingFirstChar(keys[1], "pepperoni");
    MissingFirstChar(keys[2], "pepperoni");
    MissingFirstChar(keys[3], "pepperoni");
    MissingFirstChar(keys[4], "pepperoni");
    MissingFirstChar(keys[5], "pepperoni");
    ShorterHay(keys[6], "pepperoni");
  }

  /** The normalized answers of `Pizza`, one index at a time. */
  lemma PepperoniWord()
    ensures Normalize("Pepperoni") == "pepperoni"
  {
    NormalizeWord("Pepperoni", "pepperoni");
  }

  lemma Key0(q: Question)
    requires q == Pizza()
    ensures |AnswerKeys(q.answers)| == 7 && AnswerKeys(q.answers)[0] == "pepperoni"
  {
    assert q.answers[0].text == "Pepperoni" && AnswerKeys(q.answers)[0] == Normalize(q.answers[0].text);
    PepperoniWord();
  }

  lemma MushroomsWord()
    ensures Normalize("Mushrooms") == "mushrooms"
  {
    NormalizeWord("Mushrooms", "mushrooms");
  }

  lemma Key1(q: Question)
    requires q == Pizza()
    ensures |AnswerKeys(q.answers)| == 7 && AnswerKeys(q.answers)[1] == "mushrooms"
  {
    assert q.answers[1].text == "Mushrooms" && AnswerKeys(q.answers)[1] == Normalize(q.answers[1].text);
    MushroomsWord();
  }

  lemma OnionsWord()
    ensures Normalize("Onions") == "onions"
  {
    NormalizeWord("Onions", "onions");
  }

  lemma Key2(q: Question)
    requires q == Pizza()
    ensures |AnswerKeys(q.answers)| == 7 && AnswerKeys(q.answers)[2] == "onions"
  {
    assert q.answers[2].text == "Onions" && AnswerKeys(q.answers)[2] == Normalize(q.answers[2].text);
    OnionsWord();
  }

  lemma SausageWord()
    ensures Normalize("Sausage") == "sausage"
  {
    NormalizeWord("Sausage", "sausage");
  }

  lemma Key3(q: Question)
    requires q == Pizza()
    ensures |AnswerKeys(q.answers)| == 7 && AnswerKeys(q.answers)[3] == "sausage"
  {
    assert q.answers[3].text == "Sausage" && AnswerKeys(q.answers)[3] == Normalize(q.answers[3].text);
    SausageWord();
  }

  lemma BaconWord()
    ensures Normalize("Bacon") == "bacon"
  {
    NormalizeWord("Bacon", "bacon");
  }

  lemma Key4(q: Question)
    requires q == Pizza()
    ensures |AnswerKeys(q.answers)| == 7 && AnswerKeys(q.answers)[4] == "bacon"
  {
    assert q.answers[4].text == "Bacon" && AnswerKeys(q.answers)[4] == Normalize(q.answers[4].text);
    BaconWord();
  }

  lemma ExtracheeseWord()
    ensures Normalize("Extra cheese") == "extra cheese"
  {
    NormalizeWord("Extra cheese", "extra cheese");
  }

  lemma Key5(q: Question)
    requires q == Pizza()
    ensures |AnswerKeys(q.answers)| == 7 && AnswerKeys(q.answers)[5] == "extra cheese"
  {
    assert q.answers[5].text == "Extra cheese" && AnswerKeys(q.answers)[5] == Normalize(q.answers[5].text);
    ExtracheeseWord();
  }

  lemma PeppersWord()
    ensures Normalize("Peppers") == "peppers"
  {
    NormalizeWord("Peppers", "peppers");
  }

  lemma Key6(q: Question)
    requires q == Pizza()
    ensures |AnswerKeys(q.answers)| == 7 && AnswerKeys(q.answers)[6] == "peppers"
  {
    assert q.answers[6].text == "Peppers" && AnswerKeys(q.answers)[6] == Normalize(q.answers[6].text);
    PeppersWord();
  }

  /** A partial guess finds the first answer that contains it. */
  lemma PepperFindsPepperoni(q: Question)
    requires q == Pizza()
    ensures EvaluateAnswer(q, "pepper", []) == Some(Answer("Pepperoni", 35))
  {
    Key0(q);
    PepperKey();
    assert RevealedKeys([]) == {};
    assert "pepper" <= "pepperoni";
    EvaluateAnswerFinds(q, "pepper", [], 0);
  }

  /** Once "Pepperoni" is on the board the same guess, padded and in capitals,
      falls through to "Peppers", the seventh answer. */
  lemma PepperThenFindsPeppers(q: Question)
    requires q == Pizza()
    ensures EvaluateAnswer(q, "  PEPPER ", [RevealedAnswer("Pepperoni", 35, TeamA)]) == Some(Answer("Peppers", 4))
  {
    Key0(q); Key1(q); Key2(q); Key3(q); Key4(q); Key5(q); Key6(q);
    PaddedPepperKey();
    PepperoniWord();
    RevealedPepperoni("Pepperoni", TeamA);
    PeppersQualifiesFirst(AnswerKeys(q.answers));
    EvaluateAnswerFinds(q, "  PEPPER ", [RevealedAnswer("Pepperoni", 35, TeamA)], 6);
  }

  /** Repeating a revealed answer finds nothing, whatever its case. */
  lemma RepeatedAnswerMisses(q: Question)
    requires q == Pizza()
    ensures EvaluateAnswer(q, "Pepperoni", [RevealedAnswer("pepperoni", 35, TeamB)]) == None
  {
    Key0(q); Key1(q); Key2(q); Key3(q); Key4(q); Key5(q); Key6(q);
    PepperoniWord();
    LowerPepperoniKey();
    RevealedPepperoni("pepperoni", TeamB);
    PepperoniQualifiesNowhere(AnswerKeys(q.answers));
  }
}
