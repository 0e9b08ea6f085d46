/** Redacting a redacted text again. Uncut, nothing changes; cut to a bound, nothing changes if and
    only if the cut left no dangling separator and its last word survives its own redaction. */
module RedactionCuts {
  import opened Orders
  import opened LogRedactor

  predicate IsPrefix(p: string, s: string) {
    |p| <= |s| && s[..|p|] == p
  }

  /** The last word of a cut text, perhaps the beginning of a longer one, begins its redaction. */
  predicate LastSurvives(words: seq<string>)
    requires words != []
  {
    var n := |words| - 1;
    IsPrefix(words[n], RedactWord(words[n], CredentialAfter(words[..n], false)).text)
  }

  predicate Survives(space: Space, once: string) {
    || once == ""
    || (once[|once| - 1] != ' ' && Words(space, once) != [] && LastSurvives(Words(space, once)))
  }

  // ---- a cut through joined words ------------------------------------------------------

  /** What a cut leaves of joined words: whole words, then a piece of the next. */
  predicate CutAt(words: seq<string>, k: nat, p: string, cut: string) {
    && k < |words| && IsPrefix(p, words[k])
    && (p == "" ==> k > 0 && cut == Join(words[..k]) + " ")
    && (p != "" ==> cut == Join(words[..k] + [p]))
  }

  lemma JoinLast(words: seq<string>, w: string)
    ensures Join(words + [w]) == if words == [] then w else Join(words) + " " + w
  {
    assert (words + [w])[..|words|] == words;
  }

  lemma {:induction false} CutOfJoin(words: seq<string>, n: nat) returns (k: nat, p: string)
    requires 0 < n <= |Join(words)|
    ensures CutAt(words, k, p, Join(words)[..n])
    decreases |words|
  {
    var init, last := words[..|words| - 1], words[|words| - 1];
    assert words == init + [last];
    JoinLast(init, last);
    if init != [] && n <= |Join(init)| {
      k, p := CutOfJoin(init, n);
      assert init[..k] == words[..k] && Join(words)[..n] == Join(init)[..n];
    } else {
      var start := if init == [] then 0 else |Join(init)| + 1;
      k, p := |init|, last[..n - start];
      assert words[..k] == init;
      JoinLast(init, p);
      assert Join(words)[..n] == if init == [] then p else Join(init) + " " + p;
    }
  }

  // ---- redacting what is left ----------------------------------------------------------

  predicate AreWords(space: Space, words: seq<string>) {
    forall i :: 0 <= i < |words| ==> IsWord(space, words[i])
  }

  lemma {:induction false} WordsOfWords(space: Space, words: seq<string>)
    requires space(' ') && AreWords(space, words)
    ensures Words(space, Join(words)) == words
    decreases |words|
  {
    if words != [] {
      var init, last := words[..|words| - 1], words[|words| - 1];
      assert words == init + [last];
      JoinLast(init, last);
      OneWord(space, last);
      if init != [] {
        WordsOfWords(space, init);
        WordsOfPair(space, Join(init), last);
      }
    }
  }

  lemma {:induction false} AllWordsAreWords(space: Space, texts: seq<string>)
    ensures AreWords(space, AllWords(space, texts))
    decreases |texts|
  {
    if texts != [] {
      AllWordsAreWords(space, texts[..|texts| - 1]);
      WordsAreWords(space, texts[|texts| - 1]);
    }
  }

  lemma PieceIsWord(space: Space, w: string, p: string)
    requires IsWord(space, w) && IsPrefix(p, w) && p != ""
    ensures IsWord(space, p)
  {
    assert forall i :: 0 <= i < |p| ==> p[i] == w[i] && w[i] in w;
  }

  /** Words that redact to themselves do so as far as any of them. */
  lemma PrefixIsFixed(words: seq<string>, k: nat)
    requires k <= |words| && RedactAll(words, false) == words
    ensures RedactAll(words[..k], false) == words[..k]
  {
    assert words == words[..k] + words[k..];
    RedactAllConcat(words[..k], words[k..], false);
  }

  lemma SeparatorAddsNoWord(space: Space, text: string)
    requires space(' ')
    ensures Words(space, text + " ") == Words(space, text)
  {
    WordsOfPair(space, text, "");
    assert text + " " + "" == text + " ";
    assert Words(space, "") == [];
    assert Words(space, text) + [] == Words(space, text);
  }

  /** A cut at a separator comes back without it. */
  lemma DanglingSeparator(space: Space, words: seq<string>, k: nat, cut: string)
    requires space(' ') && AreWords(space, words) && RedactAll(words, false) == words
    requires 0 < k <= |words| && cut == Join(words[..k]) + " "
    ensures FullRedaction(space, cut) == Join(words[..k]) && !Survives(space, cut)
  {
    SeparatorAddsNoWord(space, Join(words[..k]));
    WordsOfWords(space, words[..k]);
    PrefixIsFixed(words, k);
  }

  /** A cut through a word redacts that piece as a word of its own. */
  lemma PieceRedacted(space: Space, words: seq<string>, k: nat, p: string)
    requires space(' ') && AreWords(space, words) && RedactAll(words, false) == words
    requires k < |words| && IsPrefix(p, words[k]) && p != ""
    ensures var r := RedactWord(p, CredentialAfter(words[..k], false)).text;
      && Words(space, Join(words[..k] + [p])) == words[..k] + [p]
      && FullRedaction(space, Join(words[..k] + [p])) == Join(words[..k] + [r])
      && (Survives(space, Join(words[..k] + [p])) <==> IsPrefix(p, r))
  {
    var before := words[..k];
    PieceIsWord(space, words[k], p);
    WordsOfWords(space, before + [p]);
    PrefixIsFixed(words, k);
    RedactAllConcat(before, [p], false);
    RedactOne(p, CredentialAfter(before, false));
    JoinLast(before, p);
    assert (before + [p])[..k] == before;
    assert p[|p| - 1] in p;
  }

  /** Two joins that differ in their last word agree up to the first's length only by prefix. */
  lemma TakeOfJoin(before: seq<string>, p: string, r: string)
    ensures Take(Join(before + [r]), |Join(before + [p])|) == Join(before + [p]) <==> IsPrefix(p, r)
  {
    JoinLast(before, p);
    JoinLast(before, r);
    var lead := if before == [] then "" else Join(before) + " ";
    TakeAfter(lead, p, r);
    assert lead + p == Join(before + [p]) && lead + r == Join(before + [r]);
  }

  lemma TakeAfter(lead: string, p: string, r: string)
    ensures Take(lead + r, |lead + p|) == lead + p <==> IsPrefix(p, r)
  {
    if |p| <= |r| {
      assert Take(lead + r, |lead + p|) == lead + r[..|p|];
      assert (lead + p)[|lead|..] == p && (lead + r[..|p|])[|lead|..] == r[..|p|];
    }
  }

  /** A text whose words are fixed, cut to `n`. */
  lemma CutOfFixedWords(space: Space, words: seq<string>, n: nat)
    requires IsSpace(space) && AreWords(space, words) && RedactAll(words, false) == words && n <= |Join(words)|
    ensures var cut := Join(words)[..n]; Take(FullRedaction(space, cut), n) == cut <==> Survives(space, cut)
  {
    if n > 0 {
      var k, p := CutOfJoin(words, n);
      var cut := Join(words)[..n];
      if p == "" {
        DanglingSeparator(space, words, k, cut);
      } else {
        PieceRedacted(space, words, k, p);
        TakeOfJoin(words[..k], p, RedactWord(p, CredentialAfter(words[..k], false)).text);
      }
    }
  }

  // ---- the theorems --------------------------------------------------------------------

  /** For every text and bound: redacting the result again changes nothing if and only if what is
      left of it ends in a word, not in a separator, and that word begins its own redaction. */
  lemma RedactingTwice(space: Space, text: string, maxChars: nat)
    requires IsSpace(space)
    ensures var once := Take(FullRedaction(space, text), maxChars);
      Take(FullRedaction(space, once), maxChars) == once <==> Survives(space, once)
  {
    var texts := RedactAll(Words(space, text), false);
    var words := AllWords(space, texts);
    WordsAreWords(space, text);
    RedactedIsFixed(space, Words(space, text));
    AllWordsAreWords(space, texts);
    var full := FullRedaction(space, text);
    if |full| <= maxChars {
      RedactionIsIdempotent(space, text, maxChars);
      CutOfFixedWords(space, words, |full|);
      assert full[..|full|] == full;
    } else {
      CutOfFixedWords(space, words, maxChars);
    }
  }

  /** So an uncut redaction always survives. */
  lemma UncutSurvives(space: Space, text: string)
    requires IsSpace(space)
    ensures Survives(space, FullRedaction(space, text))
  {
    var n := |FullRedaction(space, text)|;
    RedactingTwice(space, text, n);
    RedactionIsIdempotent(space, text, n);
  }
}
