/** The answer matcher: `normalize` (trim, then lower-case) and
    `evaluateAnswer`, which picks the first answer of a question, in the
    question's order, that is not on the board yet and whose normalized text
    contains the normalized guess. */
module AnswerMatcher {
  import opened FeudTypes

  /** The characters that `String.prototype.trim` strips: ECMAScript's
      WhiteSpace and LineTerminator code points. */
  predicate IsSpace(c: char) {
    || c == '\t' || c == '\n' || c == '\U{B}' || c == '\U{C}' || c == '\r'
    || c == ' ' || c == '\U{A0}' || c == '\U{1680}'
    || ('\U{2000}' <= c <= '\U{200A}')
    || c == '\U{2028}' || c == '\U{2029}' || c == '\U{202F}' || c == '\U{205F}'
    || c == '\U{3000}' || c == '\U{FEFF}'
  }

  predicate AllSpace(s: string) {
    forall i :: 0 <= i < |s| ==> IsSpace(s[i])
  }

  /** The first position at or after `k` that does not hold white space
      (`|s|` when there is none): the scan `trimStart` makes. */
  function SkipSpaceFrom(s: string, k: nat): (r: nat)
    requires k <= |s|
    ensures k <= r <= |s|
    ensures forall j :: k <= j < r ==> IsSpace(s[j])
    ensures r == |s| || !IsSpace(s[r])
    decreases |s| - k
  {
    if k < |s| && IsSpace(s[k]) then SkipSpaceFrom(s, k + 1) else k
  }

  /** The position just after the last character before `k`, and not before
      `lo`, that is not white space (`lo` when there is none): the scan
      `trimEnd` makes. */
  function SkipSpaceBack(s: string, lo: nat, k: nat): (r: nat)
    requires lo <= k <= |s|
    ensures lo <= r <= k
    ensures forall j :: r <= j < k ==> IsSpace(s[j])
    ensures r == lo || !IsSpace(s[r - 1])
    decreases k
  {
    if lo < k && IsSpace(s[k - 1]) then SkipSpaceBack(s, lo, k - 1) else k
  }

  /** `value.trim()`: the slice of `s` between its leading and its trailing
      white space. */
  function Trim(s: string): (r: string)
    ensures r == [] || (!IsSpace(r[0]) && !IsSpace(r[|r| - 1]))
    ensures exists i :: 0 <= i <= |s| - |r| && s[i..i + |r|] == r && AllSpace(s[..i]) && AllSpace(s[i + |r|..])
  {
    var i := SkipSpaceFrom(s, 0);
    var j := SkipSpaceBack(s, i, |s|);
    assert AllSpace(s[..i]) && AllSpace(s[j..]);
    s[i..j]
  }

  /** White space around a text that neither starts nor ends with white
      space is exactly what `trim` removes. */
  lemma TrimPadding(pre: string, w: string, post: string)
    requires AllSpace(pre) && AllSpace(post)
    requires w == [] || (!IsSpace(w[0]) && !IsSpace(w[|w| - 1]))
    ensures Trim(pre + w + post) == w
  {
    var s := pre + w + post;
    var i := SkipSpaceFrom(s, 0);
    var j := SkipSpaceBack(s, i, |s|);
    assert forall k :: 0 <= k < |pre| ==> s[k] == pre[k];
    assert forall k :: 0 <= k < |post| ==> s[|pre| + |w| + k] == post[k];
    if w == [] {
      assert s == pre + post;
    } else {
      assert s[|pre|] == w[0] && s[|pre| + |w| - 1] == w[|w| - 1];
      assert i == |pre|;
      assert j == |pre| + |w|;
      assert s[i..j] == w;
    }
  }

  /** Lower-cases one character (A to Z only). */
  function LowerChar(c: char): (d: char)
    ensures 'A' <= c <= 'Z' ==> 'a' <= d <= 'z' && d as int == c as int + 32
    ensures !('A' <= c <= 'Z') ==> d == c
  {
    if 'A' <= c <= 'Z' then (c as int - 'A' as int + 'a' as int) as char else c
  }

  /** `toLowerCase()`, character by character. */
  function ToLower(s: string): (r: string)
    ensures |r| == |s|
    ensures forall i :: 0 <= i < |s| ==> r[i] == LowerChar(s[i])
  {
    seq(|s|, i requires 0 <= i < |s| => LowerChar(s[i]))
  }

  /** `normalize`: trim, then lower-case. */
  function Normalize(s: string): string {
    ToLower(Trim(s))
  }

  lemma LowerCharKeepsSpace(c: char)
    ensures IsSpace(LowerChar(c)) <==> IsSpace(c)
    ensures LowerChar(LowerChar(c)) == LowerChar(c)
  {
  }

  /** A guess made only of white space (the empty guess included)
      normalizes to the empty string, and nothing else does. */
  lemma {:induction false} NormalizeEmptyIff(s: string)
    ensures Normalize(s) == [] <==> AllSpace(s)
  {
    var r := Trim(s);
    var i :| 0 <= i <= |s| - |r| && s[i..i + |r|] == r && AllSpace(s[..i]) && AllSpace(s[i + |r|..]);
    if r == [] {
      assert s == s[..i] + s[i..];
      forall k | 0 <= k < |s| ensures IsSpace(s[k]) {
        if k < i { assert s[k] == s[..i][k]; } else { assert s[k] == s[i..][k - i]; }
      }
    } else {
      assert s[i] == r[0];
    }
  }

  /** Trimming text that has no white space at either end changes nothing. */
  lemma TrimNoBoundarySpace(s: string)
    requires s == [] || (!IsSpace(s[0]) && !IsSpace(s[|s| - 1]))
    ensures Trim(s) == s
  {
    TrimPadding([], s, []);
    assert [] + s + [] == s;
  }

  /** Lower-casing keeps the white space at either end as it was. */
  lemma ToLowerKeepsEnds(t: string)
    requires t == [] || (!IsSpace(t[0]) && !IsSpace(t[|t| - 1]))
    ensures var n := ToLower(t); n == [] || (!IsSpace(n[0]) && !IsSpace(n[|n| - 1]))
  {
    if t != [] {
      LowerCharKeepsSpace(t[0]);
      LowerCharKeepsSpace(t[|t| - 1]);
    }
  }

  /** Lower-casing twice is lower-casing once. */
  lemma ToLowerIdempotent(t: string)
    ensures ToLower(ToLower(t)) == ToLower(t)
  {
    var n := ToLower(t);
    forall k | 0 <= k < |n| ensures LowerChar(n[k]) == n[k] {
      LowerCharKeepsSpace(t[k]);
    }
  }

  /** Normalizing twice is normalizing once. */
  lemma NormalizeIdempotent(s: string)
    ensures Normalize(Normalize(s)) == Normalize(s)
  {
    var t := Trim(s);
    ToLowerKeepsEnds(t);
    TrimNoBoundarySpace(ToLower(t));
    ToLowerIdempotent(t);
  }

  /** `needle` occurs in `hay` starting at position `i`. */
  predicate OccursAt(hay: string, needle: string, i: int) {
    0 <= i && i + |needle| <= |hay| && hay[i..i + |needle|] == needle
  }

  /** `hay.includes(needle)`. */
  function Contains(hay: string, needle: string): bool
    decreases |hay|
  {
    if needle <= hay then true
    else if |hay| == 0 then false
    else Contains(hay[1..], needle)
  }

  /** Moving the start of the haystack one place shifts every later
      occurrence by one. */
  lemma OccursShift(hay: string, needle: string, i: int)
    requires |hay| > 0 && i >= 1
    ensures OccursAt(hay, needle, i) <==> OccursAt(hay[1..], needle, i - 1)
  {
    if i + |needle| <= |hay| {
      assert hay[1..][i - 1..i - 1 + |needle|] == hay[i..i + |needle|];
    }
  }

  lemma OccursAtStart(hay: string, needle: string)
    ensures OccursAt(hay, needle, 0) <==> needle <= hay
  {
    if |needle| <= |hay| {
      assert hay[0..|needle|] == hay[..|needle|];
    }
  }

  /** `Contains` agrees with the positional definition of a substring. */
  lemma {:induction false} ContainsIff(hay: string, needle: string)
    ensures Contains(hay, needle) <==> exists i :: OccursAt(hay, needle, i)
    decreases |hay|
  {
    OccursAtStart(hay, needle);
    if needle <= hay {
      assert OccursAt(hay, needle, 0);
    } else if |hay| == 0 {
      forall i ensures !OccursAt(hay, needle, i) {
      }
    } else {
      ContainsIff(hay[1..], needle);
      if Contains(hay[1..], needle) {
        var j :| OccursAt(hay[1..], needle, j);
        OccursShift(hay, needle, j + 1);
      } else {
        forall i ensures !OccursAt(hay, needle, i) {
          if i >= 1 { OccursShift(hay, needle, i); }
        }
      }
    }
  }

  /** The empty string is contained in every string. */
  lemma ContainsEmpty(hay: string)
    ensures Contains(hay, [])
  {
  }

  /** `new Set(revealed.map((r) => normalize(r.text)))`. */
  function RevealedKeys(revealed: seq<RevealedAnswer>): set<string> {
    set r | r in revealed :: Normalize(r.text)
  }

  /** The normalized text of every answer, in the question's order. */
  function AnswerKeys(answers: seq<Answer>): (keys: seq<string>)
    ensures |keys| == |answers|
    ensures forall i :: 0 <= i < |answers| ==> keys[i] == Normalize(answers[i].text)
  {
    seq(|answers|, i requires 0 <= i < |answers| => Normalize(answers[i].text))
  }

  /** The test `find` applies to an answer with normalized text `answerKey`:
      not on the board yet, and containing the normalized guess `key`. */
  predicate Qualifies(answerKey: string, key: string, already: set<string>) {
    answerKey !in already && Contains(answerKey, key)
  }

  /** Entry `i` qualifies and no earlier entry does. */
  predicate FirstMatchAt(keys: seq<string>, key: string, already: set<string>, i: int) {
    && 0 <= i < |keys|
    && Qualifies(keys[i], key, already)
    && forall j :: 0 <= j < i ==> !Qualifies(keys[j], key, already)
  }

  /** The index `Array.prototype.find` stops at, if any, scanning from
      index `k` on when no earlier entry qualifies. */
  function FirstMatchFrom(keys: seq<string>, key: string, already: set<string>, k: nat): (r: Option<nat>)
    requires k <= |keys|
    requires forall j :: 0 <= j < k ==> !Qualifies(keys[j], key, already)
    ensures r.Some? ==> FirstMatchAt(keys, key, already, r.value)
    ensures r.None? <==> forall j :: 0 <= j < |keys| ==> !Qualifies(keys[j], key, already)
    decreases |keys| - k
  {
    if k == |keys| then None
    else if Qualifies(keys[k], key, already) then Some(k)
    else FirstMatchFrom(keys, key, already, k + 1)
  }

  /** `evaluateAnswer(question, text, revealed)`: the first answer, in the
      question's order, that qualifies; none when no answer does. */
  function EvaluateAnswer(q: Question, text: string, revealed: seq<RevealedAnswer>): (r: Option<Answer>)
    ensures r.Some? ==> exists i :: FirstMatchAt(AnswerKeys(q.answers), Normalize(text), RevealedKeys(revealed), i)
                                   && q.answers[i] == r.value
    ensures r.None? <==> forall j :: 0 <= j < |q.answers| ==>
                                   !Qualifies(AnswerKeys(q.answers)[j], Normalize(text), RevealedKeys(revealed))
  {
    var keys := AnswerKeys(q.answers);
    match FirstMatchFrom(keys, Normalize(text), RevealedKeys(revealed), 0)
    case None => None
    case Some(i) => Some(q.answers[i])
  }

  /** What a match means for the board: the answer belongs to the question,
      its normalized text contains the normalized guess, and no revealed
      answer has the same normalized text. */
  lemma EvaluateAnswerSound(q: Question, text: string, revealed: seq<RevealedAnswer>)
    requires EvaluateAnswer(q, text, revealed).Some?
    ensures var a := EvaluateAnswer(q, text, revealed).value;
      && a in q.answers
      && Contains(Normalize(a.text), Normalize(text))
      && forall r :: r in revealed ==> Normalize(r.text) != Normalize(a.text)
  {
    var a := EvaluateAnswer(q, text, revealed).value;
    var i :| FirstMatchAt(AnswerKeys(q.answers), Normalize(text), RevealedKeys(revealed), i) && q.answers[i] == a;
    assert AnswerKeys(q.answers)[i] == Normalize(a.text);
    forall r | r in revealed ensures Normalize(r.text) != Normalize(a.text) {
      assert Normalize(r.text) in RevealedKeys(revealed);
    }
  }

  /** At most one entry is the first to qualify. */
  lemma FirstMatchUnique(keys: seq<string>, key: string, already: set<string>, i: int, k: int)
    requires FirstMatchAt(keys, key, already, i) && FirstMatchAt(keys, key, already, k)
    ensures i == k
  {
  }

  /** Conversely, the first qualifying answer is the one returned. */
  lemma EvaluateAnswerFinds(q: Question, text: string, revealed: seq<RevealedAnswer>, i: int)
    requires FirstMatchAt(AnswerKeys(q.answers), Normalize(text), RevealedKeys(revealed), i)
    ensures EvaluateAnswer(q, text, revealed) == Some(q.answers[i])
  {
    var keys, key, already := AnswerKeys(q.answers), Normalize(text), RevealedKeys(revealed);
    assert Qualifies(keys[i], key, already);
    var r := EvaluateAnswer(q, text, revealed);
    assert r.Some?;
    var k :| FirstMatchAt(keys, key, already, k) && q.answers[k] == r.value;
    FirstMatchUnique(keys, key, already, i, k);
  }

  /** A guess made only of white space gets past the server's emptiness test
      and then matches the first answer that is not on the board yet; it
      matches nothing only when every answer is on the board. */
  lemma WhitespaceGuessTakesFirstUnrevealed(q: Question, text: string, revealed: seq<RevealedAnswer>)
    requires AllSpace(text)
    ensures var r := EvaluateAnswer(q, text, revealed);
      var keys := AnswerKeys(q.answers);
      && (r.None? <==> forall j :: 0 <= j < |keys| ==> keys[j] in RevealedKeys(revealed))
      && (r.Some? ==> exists i :: 0 <= i < |keys| && q.answers[i] == r.value
                       && keys[i] !in RevealedKeys(revealed)
                       && forall j :: 0 <= j < i ==> keys[j] in RevealedKeys(revealed))
  {
    NormalizeEmptyIff(text);
    forall k: string ensures Qualifies(k, Normalize(text), RevealedKeys(revealed)) <==> k !in RevealedKeys(revealed) {
      ContainsEmpty(k);
    }
  }
}
