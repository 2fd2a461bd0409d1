/** Grading policy: the answer normaliser of `check_similarity_simple`, the parse of
    the language model's reply in `check_with_ai`, and the accept/reject decision
    of `process_submit`. */
module Grading {
  import opened Wrappers
  import opened Text

  /** The characters the normaliser deletes before comparing. */
  const Ignored: set<char> := {' ', '.', ',', '?', '!'}

  /** `s.replace(c, "")` */
  function Delete(s: string, c: char): (r: string)
    ensures c !in r
    ensures forall x :: x != c ==> (x in r <==> x in s)
  {
    if s == [] then []
    else if s[0] == c then Delete(s[1..], c)
    else [s[0]] + Delete(s[1..], c)
  }

  /** The normaliser: delete spaces and the punctuation `. , ? !`, then lower-case. */
  function Normalise(s: string): (r: string)
    ensures forall c :: c in r ==> c !in Ignored && !IsUpper(c)
  {
    Lower(Delete(Delete(Delete(Delete(Delete(s, ' '), '.'), ','), '?'), '!'))
  }

  /** A one-pass reference for the normaliser: drop each ignored character, lower the rest. */
  function Canonical(s: string): string {
    if s == [] then []
    else (if s[0] in Ignored then [] else [LowerChar(s[0])]) + Canonical(s[1..])
  }

  lemma {:induction false} DeleteConcat(a: string, b: string, c: char)
    ensures Delete(a + b, c) == Delete(a, c) + Delete(b, c)
  {
    if a != [] {
      assert (a + b)[1..] == a[1..] + b;
      DeleteConcat(a[1..], b, c);
    } else {
      assert a + b == b;
    }
  }

  lemma LowerConcat(a: string, b: string)
    ensures Lower(a + b) == Lower(a) + Lower(b)
  {
  }

  /** The normaliser works character by character. */
  lemma NormaliseConcat(a: string, b: string)
    ensures Normalise(a + b) == Normalise(a) + Normalise(b)
  {
    DeleteConcat(a, b, ' ');
    var a1, b1 := Delete(a, ' '), Delete(b, ' ');
    DeleteConcat(a1, b1, '.');
    var a2, b2 := Delete(a1, '.'), Delete(b1, '.');
    DeleteConcat(a2, b2, ',');
    var a3, b3 := Delete(a2, ','), Delete(b2, ',');
    DeleteConcat(a3, b3, '?');
    var a4, b4 := Delete(a3, '?'), Delete(b3, '?');
    DeleteConcat(a4, b4, '!');
    LowerConcat(Delete(a4, '!'), Delete(b4, '!'));
  }

  /** What the normaliser makes of a single character. */
  lemma NormaliseChar(c: char)
    ensures Normalise([c]) == if c in Ignored then [] else [LowerChar(c)]
  {
    var d1 := DeleteSingle(c, ' ');
    var d2 := DeleteSingle2(d1, '.');
    var d3 := DeleteSingle2(d2, ',');
    var d4 := DeleteSingle2(d3, '?');
    var d5 := DeleteSingle2(d4, '!');
    assert Lower(d5) == if d5 == [] then [] else [LowerChar(c)];
  }

  lemma DeleteSingle(c: char, x: char) returns (r: string)
    ensures r == Delete([c], x) && r == if c == x then [] else [c]
  {
    assert [c][1..] == [];
    r := Delete([c], x);
  }

  lemma DeleteSingle2(s: string, x: char) returns (r: string)
    requires |s| <= 1
    ensures r == Delete(s, x) && r == if s == [] || s[0] == x then [] else s
  {
    if s != [] {
      r := DeleteSingle(s[0], x);
      assert s == [s[0]];
    } else {
      r := Delete(s, x);
    }
  }

  /** The five chained `replace` calls and `lower()` agree with the one-pass reference. */
  lemma {:induction false} NormaliseIsCanonical(s: string)
    ensures Normalise(s) == Canonical(s)
  {
    if s != [] {
      assert s == [s[0]] + s[1..];
      NormaliseConcat([s[0]], s[1..]);
      NormaliseChar(s[0]);
      NormaliseIsCanonical(s[1..]);
    }
  }

  /** Inserting a space or one of `. , ? !` anywhere does not change the normal form. */
  lemma NormaliseIgnoresPunctuation(a: string, b: string, c: char)
    requires c in Ignored
    ensures Normalise(a + [c] + b) == Normalise(a + b)
  {
    NormaliseConcat(a + [c], b);
    NormaliseConcat(a, [c]);
    NormaliseConcat(a, b);
    NormaliseChar(c);
  }

  /** Replacing a character by one with the same lower-case form does not change the normal form. */
  lemma NormaliseIgnoresCase(a: string, b: string, c: char, d: char)
    requires LowerChar(c) == LowerChar(d)
    ensures Normalise(a + [c] + b) == Normalise(a + [d] + b)
  {
    SameLowerSameNormal(c, d);
    NormaliseConcat(a + [c], b);
    NormaliseConcat(a, [c]);
    NormaliseConcat(a + [d], b);
    NormaliseConcat(a, [d]);
  }

  lemma SameLowerSameNormal(c: char, d: char)
    requires LowerChar(c) == LowerChar(d)
    ensures Normalise([c]) == Normalise([d])
  {
    NormaliseChar(c);
    NormaliseChar(d);
    if c in Ignored || d in Ignored {
      assert c == d;
    }
  }

  /** Normalising twice is normalising once. */
  lemma {:induction false} NormaliseIdempotent(s: string)
    ensures Normalise(Normalise(s)) == Normalise(s)
  {
    NormaliseIsCanonical(s);
    NormaliseIsCanonical(Normalise(s));
    CanonicalOfNormal(Normalise(s));
  }

  lemma {:induction false} CanonicalOfNormal(s: string)
    requires forall c :: c in s ==> c !in Ignored && !IsUpper(c)
    ensures Canonical(s) == s
  {
    if s != [] {
      assert s[0] in s;
      CanonicalOfNormal(s[1..]);
      assert s == [s[0]] + s[1..];
    }
  }

  /** `SequenceMatcher(None, a, b).ratio()` is not modelled; it enters as a function
      with the two facts the application relies on: it lies in [0, 1] and it is 1
      on equal strings. */
  ghost predicate IsRatio(ratio: (string, string) -> real) {
    (forall a, b :: 0.0 <= ratio(a, b) <= 1.0) && (forall a :: ratio(a, a) == 1.0)
  }

  /** `check_similarity_simple(user, correct)` */
  function Similarity(ratio: (string, string) -> real, user: string, correct: string): (score: real)
    requires IsRatio(ratio)
    ensures 0.0 <= score <= 1.0
    ensures Normalise(user) == Normalise(correct) ==> score == 1.0
  {
    ratio(Normalise(user), Normalise(correct))
  }

  /** Answers that differ only in case, spaces and `. , ? !` are as similar as can be. */
  lemma SimilarityMaximal(ratio: (string, string) -> real, user: string, correct: string)
    requires IsRatio(ratio)
    requires Canonical(user) == Canonical(correct)
    ensures Similarity(ratio, user, correct) == 1.0
  {
    NormaliseIsCanonical(user);
    NormaliseIsCanonical(correct);
  }

  /** The percentage a fallback grade must reach. */
  const AcceptPercent: real := 95.0
  /** The similarity a correction must reach. */
  const CorrectionThreshold: real := 0.98

  /** The parse in `check_with_ai`: `None` stands for the exception path (the call or
      `response.text` failed); otherwise the trimmed, upper-cased reply is searched for
      'O', then for 'X', and anything else counts as a rejection. */
  function ParseReply(reply: Option<string>): (verdict: Option<bool>)
    ensures verdict == None <==> reply == None
  {
    match reply
    case None => None
    case Some(t) =>
      var text := Upper(Strip(t));
      if 'O' in text then Some(true)
      else if 'X' in text then Some(false)
      else Some(false)
  }

  /** A reply is read as "correct" exactly when it contains 'O' or 'o', and as
      "incorrect" otherwise, including a reply with neither 'O' nor 'X'. */
  lemma ParseReplyAccepts(t: string)
    ensures ParseReply(Some(t)) == Some('O' in t || 'o' in t)
  {
    UpperContains(Strip(t), 'O');
    StripKeeps(t, 'O');
    StripKeeps(t, 'o');
  }

  /** The three-way decision of `process_submit`, on the verdict and the percentage score. */
  function Decide(verdict: Option<bool>, percent: real): (accept: bool)
    ensures verdict == Some(true) ==> accept
    ensures verdict == Some(false) ==> !accept
    ensures verdict == None ==> (accept <==> percent >= AcceptPercent)
  {
    if verdict == Some(true) then true
    else if verdict == Some(false) then false
    else if percent >= AcceptPercent then true
    else false
  }

  /** Grading a non-blank answer: the reply's verdict, falling back to the normalised
      similarity as a percentage. */
  function Grade(reply: Option<string>, ratio: (string, string) -> real, user: string, correct: string): bool
  {
    Decide(ParseReply(reply), ratio(Normalise(user), Normalise(correct)) * 100.0)
  }

  /** With the model unavailable, an answer equal to the reference up to case, spaces
      and `. , ? !` is accepted; at similarity 0.95 the answer passes and at 0.94 it fails. */
  lemma FallbackGrade(ratio: (string, string) -> real, user: string, correct: string)
    requires IsRatio(ratio)
    ensures Canonical(user) == Canonical(correct) ==> Grade(None, ratio, user, correct)
    ensures Similarity(ratio, user, correct) == 0.95 ==> Grade(None, ratio, user, correct)
    ensures Similarity(ratio, user, correct) == 0.94 ==> !Grade(None, ratio, user, correct)
  {
    if Canonical(user) == Canonical(correct) {
      SimilarityMaximal(ratio, user, correct);
    }
  }

  /** A reply holding 'O' accepts and a reply without it rejects, whatever the similarity. */
  lemma ReplyOverridesSimilarity(ratio: (string, string) -> real, user: string, correct: string, t: string)
    ensures Grade(Some(t), ratio, user, correct) <==> 'O' in t || 'o' in t
  {
    ParseReplyAccepts(t);
  }
}
