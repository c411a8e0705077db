/** Inflection keys and the literal forms sent to full-text search (packages/python/src/cci/relevance.py). */
module Stemming {
  import opened Sequences

  predicate AsciiLetter(c: char) {
    'a' <= c <= 'z' || 'A' <= c <= 'Z'
  }

  /** The letters of the English alphabet. */
  lemma LettersAre(c: char)
    ensures AsciiLetter(c) <==> c in "abcdefghijklmnopqrstuvwxyz" || c in "ABCDEFGHIJKLMNOPQRSTUVWXYZ"
  {
    IsAmong(c, 'a', "abcdefghijklmnopqrstuvwxyz");
    IsAmong(c, 'A', "ABCDEFGHIJKLMNOPQRSTUVWXYZ");
  }

  /** Consecutive characters are those between the first and the last. */
  lemma IsAmong(c: char, first: char, letters: string)
    requires forall i :: 0 <= i < |letters| ==> letters[i] as int == first as int + i
    ensures c in letters <==> first as int <= c as int < first as int + |letters|
  {
    if first as int <= c as int < first as int + |letters| { assert c == letters[c as int - first as int]; }
  }

  predicate AsciiAlpha(w: string) {
    w != "" && forall i :: 0 <= i < |w| ==> AsciiLetter(w[i])
  }

  predicate Vowel(c: char) {
    c in "aeiou"
  }

  predicate EndsWith(w: string, suffix: string) {
    |suffix| <= |w| && w[|w| - |suffix|..] == suffix
  }

  function Without(w: string, n: nat): string
    requires n <= |w|
  {
    w[..|w| - n]
  }

  function Last(w: string): char
    requires w != ""
  {
    w[|w|-1]
  }

  /** A final s that marks an inflection. */
  predicate PluralS(w: string) {
    EndsWith(w, "s") && !EndsWith(w, "ss") && !EndsWith(w, "us") && !EndsWith(w, "is")
  }

  /** A doubled final consonant is halved. */
  function Undouble(stem: string): string {
    if |stem| > 2 && stem[|stem|-1] == stem[|stem|-2] && !Vowel(stem[|stem|-1]) then Without(stem, 1) else stem
  }

  function Key(w: string): string {
    if |w| < 4 || !AsciiAlpha(w) then w
    else if |w| == 4 then ShortKey(w)
    else LongKey(w)
  }

  function ShortKey(w: string): string
    requires |w| == 4
  {
    if EndsWith(w, "e") || PluralS(w) || (EndsWith(w, "ed") && !Vowel(w[1])) then Without(w, 1) else w
  }

  function LongKey(w: string): string
    requires |w| >= 5
  {
    if EndsWith(w, "ies") || EndsWith(w, "ied") then Without(w, 3) + "y"
    else if EndsWith(w, "ing") && |w| >= 6 then Undouble(Without(w, 3))
    else if EndsWith(w, "ed") then Undouble(Without(w, 2))
    else if EndsWith(w, "es") then Without(w, 2)
    else if PluralS(w) || EndsWith(w, "e") then Without(w, 1)
    else w
  }

  // ---------------------------------------------------------------- the forms

  function Candidates(key: string): seq<string>
    requires key != ""
  {
    [key, key + "e", key + "s", key + "es", key + "ed", key + "ing"]
    + (if Last(key) !in "aeiouy" then [key + [Last(key)] + "ed", key + [Last(key)] + "ing"] else [])
    + (if EndsWith(key, "e") then [key + "d"] else [])
    + (if EndsWith(key, "y") then [Without(key, 1) + "ies", Without(key, 1) + "ied"] else [])
  }

  function Kept(forms: seq<string>, key: string): seq<string> {
    if forms == [] then []
    else Kept(forms[..|forms|-1], key) + (if Key(forms[|forms|-1]) == key then [forms[|forms|-1]] else [])
  }

  /** Short and non-alphabetic keys are searched literally; the others as the inflections that map back. */
  function Forms(key: string): seq<string> {
    if !AsciiAlpha(key) || |key| < 3 then [key] else Kept(Candidates(key), key)
  }

  lemma {:induction false} KeptIs(forms: seq<string>, key: string)
    ensures forall w :: w in Kept(forms, key) <==> w in forms && Key(w) == key
  {
    if forms != [] {
      KeptIs(forms[..|forms|-1], key);
      assert forms == forms[..|forms|-1] + [forms[|forms|-1]];
    }
  }

  // ---------------------------------------------------------------- exactly which words share a key

  lemma Suffixed(w: string, suffix: string)
    requires EndsWith(w, suffix)
    ensures w == Without(w, |suffix|) + suffix
  {}

  /** Halving a doubled consonant can be undone. */
  lemma Redouble(stem: string)
    ensures stem == Undouble(stem) ||
            (|stem| > 2 && Undouble(stem) != "" && !Vowel(Last(Undouble(stem)))
             && stem == Undouble(stem) + [Last(Undouble(stem))])
  {
    if stem != Undouble(stem) {
      assert stem == Without(stem, 1) + [stem[|stem|-1]];
    }
  }

  lemma StemCandidate(stem: string, suffix: string)
    requires suffix == "ed" || suffix == "ing"
    requires Undouble(stem) != "" && Last(Undouble(stem)) != 'y'
    ensures stem + suffix in Candidates(Undouble(stem))
  {
    var k := Undouble(stem);
    Redouble(stem);
    var c := Candidates(k);
    assert c[4] == k + "ed" && c[5] == k + "ing";
    if stem != k {
      assert Last(k) !in "aeiouy";
      assert c[6] == k + [Last(k)] + "ed" && c[7] == k + [Last(k)] + "ing";
      assert stem + suffix == k + [Last(k)] + suffix;
    }
  }

  lemma PlainCandidates(k: string)
    requires k != ""
    ensures k in Candidates(k) && k + "e" in Candidates(k) && k + "s" in Candidates(k) && k + "es" in Candidates(k)
    ensures EndsWith(k, "e") ==> k + "d" in Candidates(k)
  {
    var c := Candidates(k);
    assert c[0] == k && c[1] == k + "e" && c[2] == k + "s" && c[3] == k + "es";
  }

  lemma ShortWordIsCandidate(w: string)
    requires |w| == 4
    ensures ShortKey(w) != "" && w in Candidates(ShortKey(w))
  {
    var k := ShortKey(w);
    PlainCandidates(k);
    hide Candidates;
    if EndsWith(w, "e") {
      Suffixed(w, "e");
    } else if PluralS(w) {
      Suffixed(w, "s");
    } else if EndsWith(w, "ed") && !Vowel(w[1]) {
      Suffixed(w, "ed");
      assert w == k + "d";
      assert k[|k|-1..] == "e";
    }
  }

  lemma EndsInY(w: string)
    requires |w| >= 5 && (EndsWith(w, "ies") || EndsWith(w, "ied"))
    ensures LongKey(w) != "" && Last(LongKey(w)) == 'y'
  {}

  lemma LongWordIsCandidate(w: string)
    requires |w| >= 5 && LongKey(w) != "" && Last(LongKey(w)) != 'y'
    ensures w in Candidates(LongKey(w))
  {
    var k := LongKey(w);
    PlainCandidates(k);
    hide Candidates, Undouble;
    if EndsWith(w, "ies") || EndsWith(w, "ied") {
      EndsInY(w);
    } else if EndsWith(w, "ing") && |w| >= 6 {
      Suffixed(w, "ing");
      StemCandidate(Without(w, 3), "ing");
    } else if EndsWith(w, "ed") {
      Suffixed(w, "ed");
      StemCandidate(Without(w, 2), "ed");
    } else if EndsWith(w, "es") {
      Suffixed(w, "es");
    } else if PluralS(w) {
      Suffixed(w, "s");
    } else if EndsWith(w, "e") {
      Suffixed(w, "e");
    }
  }

  lemma KeyKeepsAlpha(w: string)
    ensures AsciiAlpha(w) <==> AsciiAlpha(Key(w))
  {
    if AsciiAlpha(w) && |w| >= 4 {
      var k := Key(w);
      assert |k| >= 2;
      forall i | 0 <= i < |k| ensures AsciiLetter(k[i]) {
        assert i < |w| && (k[i] == w[i] || k[i] == 'y');
      }
    }
  }

  /** How short a key can be: only a doubled consonant leaves two letters. */
  lemma KeyLength(w: string)
    requires |Key(w)| < 3 && |w| >= 4
    ensures AsciiAlpha(w) && |Key(w)| == 2 && !Vowel(Last(Key(w)))
  {}

  /** The keys whose every word is among the forms: what a caller can read off the key itself. */
  predicate Complete(key: string) {
    !AsciiAlpha(key) || (if |key| < 3 then |key| != 2 || Vowel(Last(key)) else Last(key) != 'y')
  }

  lemma FormsAreSound(key: string, w: string)
    requires w in Forms(key)
    ensures Key(w) == key
  {
    if AsciiAlpha(key) && |key| >= 3 {
      KeptIs(Candidates(key), key);
    }
  }

  lemma FormsAreComplete(w: string)
    requires Complete(Key(w))
    ensures w in Forms(Key(w))
  {
    var k := Key(w);
    KeyKeepsAlpha(w);
    if AsciiAlpha(k) && |k| >= 3 {
      hide LongKey, ShortKey, Candidates, AsciiAlpha, Kept;
      KeptIs(Candidates(k), k);
      if |w| < 4 {
        PlainCandidates(k);
      } else if |w| == 4 {
        ShortWordIsCandidate(w);
      } else {
        LongWordIsCandidate(w);
      }
    } else if AsciiAlpha(w) && |w| >= 4 {
      KeyLength(w);
    }
  }

  /** A word with this key that the forms miss. */
  function Missed(key: string): string
    requires key != ""
  {
    key + [Last(key)] + "ed"
  }

  lemma MissedHasKey(key: string)
    requires AsciiAlpha(key) && |key| >= 2 && !Vowel(Last(key))
    ensures Key(Missed(key)) == key
  {
    var w := Missed(key);
    assert AsciiAlpha(w);
    var tail := w[|w|-3..];
    assert tail == [Last(key)] + "ed" && tail[1] == 'e' && "ing"[1] == 'n' && "aeiou"[2] == 'i';
    assert EndsWith(w, "ed") && !EndsWith(w, "ing");
    assert tail[0] != 'i';
    assert !EndsWith(w, "ied") && !EndsWith(w, "ies");
    assert Without(w, 2) == key + [Last(key)];
    assert Without(Without(w, 2), 1) == key;
  }

  /** No candidate for a key ending in y is as long as a doubled form of it, save one that goes on with i. */
  lemma YCandidates(key: string)
    requires |key| >= 3 && Last(key) == 'y'
    ensures forall i :: 0 <= i < |Candidates(key)| ==>
              |Candidates(key)[i]| < |key| + 4 &&
              (|Candidates(key)[i]| == |key| + 3 ==> Candidates(key)[i][|key|] == 'i')
  {
    assert "aeiouy"[5] == 'y' && Last(key) in "aeiouy";
    assert !EndsWith(key, "e") by { assert "e"[0] != 'y'; }
    assert EndsWith(key, "y") by { assert key[|key| - 1..] == "y"; }
  }

  lemma MissedIsNoForm(key: string)
    requires AsciiAlpha(key) && !Complete(key)
    ensures Missed(key) !in Forms(key)
  {
    if |key| >= 3 {
      KeptIs(Candidates(key), key);
      YCandidates(key);
      assert Missed(key)[|key|] == 'y' && |Missed(key)| == |key| + 3;
      hide Candidates, Key;
    }
  }

  /**
   * The literal forms of a key are exactly the words with that key, except when the key ends in y, or
   * is two letters ending in a consonant; then some word with that key is not found.
   */
  lemma FormsAreExact(key: string)
    ensures (forall w :: w in Forms(key) <==> Key(w) == key) <==> Complete(key)
  {
    if Complete(key) {
      forall w ensures w in Forms(key) <==> Key(w) == key {
        if w in Forms(key) { FormsAreSound(key, w); }
        if Key(w) == key { FormsAreComplete(w); }
      }
    } else {
      MissedHasKey(key);
      MissedIsNoForm(key);
    }
  }

  /** The two words that double the last letter of a y-ending key, or of two letters ending in a consonant. */
  predicate Doubled(key: string, w: string) {
    && AsciiAlpha(key) && ((|key| >= 3 && Last(key) == 'y') || (|key| == 2 && !Vowel(Last(key))))
    && w in [key + [Last(key)] + "ed", key + [Last(key)] + "ing"]
  }

  lemma YKeyForms(key: string)
    requires EndsWith(key, "y")
    ensures Without(key, 1) + "ies" in Candidates(key) && Without(key, 1) + "ied" in Candidates(key)
  {
    var c := Candidates(key);
    assert "y"[0] == 'y' && Last(key) == 'y';
    assert c == [key, key + "e", key + "s", key + "es", key + "ed", key + "ing"]
                + (if EndsWith(key, "e") then [key + "d"] else [])
                + [Without(key, 1) + "ies", Without(key, 1) + "ied"]
                by { assert Last(key) in "aeiouy" by { assert "aeiouy"[5] == 'y'; } }
    assert c[|c|-2] == Without(key, 1) + "ies" && c[|c|-1] == Without(key, 1) + "ied";
  }

  lemma StemOrDoubled(stem: string, suffix: string)
    requires suffix == "ed" || suffix == "ing"
    requires Undouble(stem) != "" && Last(Undouble(stem)) == 'y' && |Undouble(stem)| >= 3 && AsciiAlpha(Undouble(stem))
    ensures stem + suffix in Candidates(Undouble(stem)) || Doubled(Undouble(stem), stem + suffix)
  {
    var k := Undouble(stem);
    Redouble(stem);
    var c := Candidates(k);
    assert c[4] == k + "ed" && c[5] == k + "ing";
    if stem != k {
      var missed := [k + [Last(k)] + "ed", k + [Last(k)] + "ing"];
      assert stem + suffix == k + [Last(k)] + suffix;
      assert missed[0] in missed && missed[1] in missed;
    }
  }

  /** A long word whose key ends in y. */
  lemma YWordIsCandidate(w: string)
    requires |w| >= 5 && |LongKey(w)| >= 3 && Last(LongKey(w)) == 'y' && AsciiAlpha(LongKey(w))
    ensures w in Candidates(LongKey(w)) || Doubled(LongKey(w), w)
  {
    var k := LongKey(w);
    PlainCandidates(k);
    hide Candidates, Undouble, Doubled, AsciiAlpha;
    if EndsWith(w, "ies") || EndsWith(w, "ied") {
      var s := if EndsWith(w, "ies") then "ies" else "ied";
      Suffixed(w, s);
      assert k == Without(w, 3) + "y" && EndsWith(k, "y") && Without(k, 1) == Without(w, 3);
      YKeyForms(k);
    } else if EndsWith(w, "ing") && |w| >= 6 {
      Suffixed(w, "ing");
      StemOrDoubled(Without(w, 3), "ing");
    } else if EndsWith(w, "ed") {
      Suffixed(w, "ed");
      StemOrDoubled(Without(w, 2), "ed");
    } else if EndsWith(w, "es") {
      Suffixed(w, "es");
    } else if PluralS(w) {
      Suffixed(w, "s");
    } else if EndsWith(w, "e") {
      Suffixed(w, "e");
    }
  }

  /** A word whose key is two letters is the key itself, or doubles its last letter. */
  lemma TwoLetterKey(w: string)
    requires AsciiAlpha(w) && |w| >= 4 && |Key(w)| == 2
    ensures Doubled(Key(w), w)
  {
    KeyLength(w);
    KeyKeepsAlpha(w);
    var k := Key(w);
    assert |w| >= 5;
    var missed := [k + [Last(k)] + "ed", k + [Last(k)] + "ing"];
    assert missed[0] in missed && missed[1] in missed;
    hide AsciiAlpha;
    if EndsWith(w, "ies") || EndsWith(w, "ied") {
      assert false;
    } else if EndsWith(w, "ing") && |w| >= 6 {
      Suffixed(w, "ing");
      Redouble(Without(w, 3));
    } else {
      assert EndsWith(w, "ed");
      Suffixed(w, "ed");
      Redouble(Without(w, 2));
    }
  }

  lemma DoubledHasKey(key: string, w: string)
    requires Doubled(key, w)
    ensures Key(w) == key && w !in Forms(key)
  {
    KeyKeepsAlpha(key);
    assert !Vowel('y');
    var tail := [Last(key)];
    if w == key + tail + "ed" {
      MissedHasKey(key);
      MissedIsNoForm(key);
    } else {
      MissedIngHasKey(key);
      MissedIngIsNoForm(key);
    }
  }

  lemma MissedIngHasKey(key: string)
    requires AsciiAlpha(key) && |key| >= 2 && !Vowel(Last(key))
    ensures Key(key + [Last(key)] + "ing") == key
  {
    var w := key + [Last(key)] + "ing";
    assert AsciiAlpha(w);
    IngKey(key + [Last(key)]);
    assert Without(key + [Last(key)], 1) == key;
  }

  lemma IngKey(stem: string)
    requires |stem| >= 3
    ensures LongKey(stem + "ing") == Undouble(stem)
  {
    var w := stem + "ing";
    assert w[|w|-1] == 'g' && "ies"[2] == 's' && "ied"[2] == 'd';
    assert w[|w|-3..] == "ing";
    assert !EndsWith(w, "ies") && !EndsWith(w, "ied");
    assert Without(w, 3) == stem;
    hide Undouble;
  }

  lemma MissedIngIsNoForm(key: string)
    requires AsciiAlpha(key) && !Complete(key)
    ensures key + [Last(key)] + "ing" !in Forms(key)
  {
    if |key| >= 3 {
      KeptIs(Candidates(key), key);
      YCandidates(key);
      hide Candidates, Key;
    }
  }

  /**
   * The forms of any key are exactly the words with that key, save the two that double its last letter when it
   * ends in y, or is two letters ending in a consonant.
   */
  lemma FormsExactly(key: string, w: string)
    ensures w in Forms(key) <==> Key(w) == key && !Doubled(key, w)
  {
    if Doubled(key, w) { DoubledHasKey(key, w); }
    if w in Forms(key) { FormsAreSound(key, w); }
    if Key(w) == key && !Doubled(key, w) { UndoubledIsForm(key, w); }
  }

  lemma UndoubledIsForm(key: string, w: string)
    requires Key(w) == key && !Doubled(key, w)
    ensures w in Forms(key)
  {
    KeyKeepsAlpha(w);
    if Complete(key) {
      FormsAreComplete(w);
    } else if |key| < 3 {
      if |w| >= 4 {
        TwoLetterKey(w);
        assert false;
      }
    } else {
      KeptIs(Candidates(key), key);
      PlainCandidates(key);
      hide Candidates, Kept, Doubled, LongKey, ShortKey;
      if |w| == 4 {
        ShortWordIsCandidate(w);
      } else if |w| >= 5 {
        YWordIsCandidate(w);
      }
    }
  }

  // ---------------------------------------------------------------- regular inflections share a key

  /** A stem of three letters or more that ends in a single consonant, other than s and y. */
  predicate PlainStem(s: string) {
    && AsciiAlpha(s) && |s| >= 3
    && Last(s) !in ['a', 'e', 'i', 'o', 'u', 's', 'y'] && s[|s|-2] != Last(s)
  }

  lemma AlphaMore(s: string, suffix: string)
    requires AsciiAlpha(s) && forall i :: 0 <= i < |suffix| ==> AsciiLetter(suffix[i])
    ensures AsciiAlpha(s + suffix)
  {}

  lemma EndingOf(s: string, suffix: string, ending: string)
    requires |s| >= 1 && ending != ""
    ensures EndsWith(s + suffix, ending) && |ending| <= |suffix| ==> suffix[|suffix| - |ending|..] == ending
    ensures EndsWith(s + suffix, ending) && |ending| == |suffix| + 1 ==> Last(s) == ending[0]
    ensures |ending| <= |suffix| && suffix[|suffix| - |ending|..] == ending ==> EndsWith(s + suffix, ending)
  {
    var w := s + suffix;
    if |ending| <= |suffix| {
      assert w[|w| - |ending|..] == suffix[|suffix| - |ending|..];
    } else if |ending| == |suffix| + 1 {
      assert w[|w| - |ending|] == Last(s);
      assert EndsWith(w, ending) ==> w[|w| - |ending|..][0] == ending[0];
    }
  }

  /** The plural, the past and the participle of a stem, with or without a final e, have the stem for a key. */
  lemma PlainInflections(s: string)
    requires PlainStem(s)
    ensures Key(s + "e") == s && Key(s + "s") == s
    ensures Key(s + "es") == s && Key(s + "ed") == s && Key(s + "ing") == s
  {
    KeyOfE(s);
    KeyOfS(s);
    KeyOfEs(s);
    KeyOfEd(s, s);
    KeyOfIng(s, s);
  }

  lemma NoVowel(c: char)
    requires c !in ['a', 'e', 'i', 'o', 'u', 's', 'y']
    ensures !Vowel(c)
  {}

  /** Doubling the consonant makes no difference. */
  lemma DoubledInflections(s: string)
    requires PlainStem(s)
    ensures Key(s + [Last(s)] + "ed") == s && Key(s + [Last(s)] + "ing") == s
  {
    var t := s + [Last(s)];
    NoVowel(Last(s));
    assert Without(t, 1) == s && t[|t|-1] == t[|t|-2];
    KeyOfEd(t, s);
    KeyOfIng(t, s);
  }

  /** A final y that turns into i comes back. */
  lemma YInflections(s: string)
    requires AsciiAlpha(s) && |s| >= 2
    ensures Key(s + "ies") == s + "y" && Key(s + "ied") == s + "y"
  {
    AlphaMore(s, "ies");
    AlphaMore(s, "ied");
    EndingOf(s, "ies", "ies");
    EndingOf(s, "ied", "ied");
    assert Without(s + "ies", 3) == s && Without(s + "ied", 3) == s;
  }

  lemma KeyOfE(s: string)
    requires PlainStem(s)
    ensures Key(s + "e") == s
  {
    var w := s + "e";
    AlphaMore(s, "e");
    EndingOf(s, "e", "e");
    assert w[|w|-1] == 'e' && "ies"[2] == 's' && "ied"[2] == 'd' && "ing"[2] == 'g' && "ed"[1] == 'd' && "es"[1] == 's';
    assert Without(w, 1) == s;
    hide Undouble;
  }

  lemma KeyOfS(s: string)
    requires PlainStem(s)
    ensures Key(s + "s") == s
  {
    var w := s + "s";
    AlphaMore(s, "s");
    EndingOf(s, "s", "s");
    EndingOf(s, "s", "ss");
    EndingOf(s, "s", "us");
    EndingOf(s, "s", "is");
    EndingOf(s, "s", "es");
    assert "ss"[0] == 's' && "us"[0] == 'u' && "is"[0] == 'i' && "es"[0] == 'e';
    assert w[|w|-1] == 's' && "ied"[2] == 'd' && "ing"[2] == 'g' && "ed"[1] == 'd' && "e"[0] == 'e';
    assert w[|w|-2] == Last(s) && "ies"[1] == 'e';
    assert Without(w, 1) == s;
    hide Undouble;
  }

  lemma KeyOfEs(s: string)
    requires PlainStem(s)
    ensures Key(s + "es") == s
  {
    var w := s + "es";
    AlphaMore(s, "es");
    EndingOf(s, "es", "es");
    EndingOf(s, "es", "ies");
    assert "ies"[0] == 'i';
    assert w[|w|-1] == 's' && "ied"[2] == 'd' && "ing"[2] == 'g' && "ed"[1] == 'd';
    assert Without(w, 2) == s;
    hide Undouble;
  }

  lemma KeyOfEd(t: string, s: string)
    requires AsciiAlpha(t) && |t| >= 3 && Last(t) != 'i' && Undouble(t) == s
    ensures Key(t + "ed") == s
  {
    var w := t + "ed";
    AlphaMore(t, "ed");
    EndingOf(t, "ed", "ed");
    EndingOf(t, "ed", "ied");
    assert "ied"[0] == 'i';
    assert w[|w|-1] == 'd' && "ies"[2] == 's' && "ing"[2] == 'g';
    assert Without(w, 2) == t;
    hide Undouble;
  }

  lemma KeyOfIng(t: string, s: string)
    requires AsciiAlpha(t) && |t| >= 3 && Undouble(t) == s
    ensures Key(t + "ing") == s
  {
    AlphaMore(t, "ing");
    IngKey(t);
  }

  // ---------------------------------------------------------------- search ranks by relevance

  /** How many query terms hit a text: one full-text match per term, over the text's words. */
  function Hits(words: seq<string>, terms: seq<string>): nat {
    if terms == [] then 0
    else Hits(words, terms[1..]) + (if exists w :: w in words && w in Forms(terms[0]) then 1 else 0)
  }

  function KeysOf(words: seq<string>): set<string> {
    set w | w in words :: Key(w)
  }

  /** The count search ranks by is the number of query keys in the text, when every term is complete. */
  lemma {:induction false} HitsAreRelevance(words: seq<string>, terms: seq<string>)
    requires NoDup(terms)
    ensures Hits(words, terms) <= |Elements(terms) * KeysOf(words)|
    ensures (forall t :: t in terms ==> Complete(t)) ==> Hits(words, terms) == |Elements(terms) * KeysOf(words)|
  {
    if terms != [] {
      var t, rest := terms[0], terms[1..];
      assert terms == [t] + rest;
      NoDupCons(t, rest);
      HitsAreRelevance(words, rest);
      TermHit(words, t);
      hide NoDup, Forms, Key, Complete, KeysOf;
      OneMoreTerm(t, rest, KeysOf(words));
    } else {
      assert Elements(terms) * KeysOf(words) == {};
    }
  }

  lemma OneMoreTerm(t: string, rest: seq<string>, keys: set<string>)
    requires t !in rest
    ensures |Elements([t] + rest) * keys| == |Elements(rest) * keys| + (if t in keys then 1 else 0)
  {
    if t in keys {
      assert Elements([t] + rest) * keys == Elements(rest) * keys + {t};
    } else {
      assert Elements([t] + rest) * keys == Elements(rest) * keys;
    }
  }

  lemma TermHit(words: seq<string>, t: string)
    ensures (exists w :: w in words && w in Forms(t)) ==> t in KeysOf(words)
    ensures Complete(t) && t in KeysOf(words) ==> exists w :: w in words && w in Forms(t)
  {
    if w :| w in words && w in Forms(t) { FormsAreSound(t, w); }
    if Complete(t) && t in KeysOf(words) {
      var w :| w in words && Key(w) == t;
      FormsAreComplete(w);
    }
  }
}
