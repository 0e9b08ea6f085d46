/** What a log line can still hold after redaction, said of its characters: no url with a query or a
    fragment, no mail address, no long token; and what the redaction leaves as it was. */
module RedactedWords {
  import opened Orders
  import opened LogRedactor
  import opened RedactionCuts

  // ---- the characters ------------------------------------------------------------------

  /** `c` is the small letter or other character `small`, or its capital. */
  predicate IsLetter(c: char, small: char) {
    c == small || ('a' <= small <= 'z' && c as int == small as int - 32)
  }

  /** `p` stands at `k`, in any mix of small and capital letters. */
  predicate Stands(p: string, s: string, k: nat) {
    k + |p| <= |s| && forall j :: 0 <= j < |p| ==> IsLetter(s[k + j], p[j])
  }

  predicate UrlAt(s: string, k: nat) {
    Stands("https://", s, k) || Stands("http://", s, k)
  }

  ghost predicate HasUrl(s: string) {
    exists k: nat :: UrlAt(s, k)
  }

  /** No query and no fragment behind any url. */
  ghost predicate UrlsAreBare(s: string) {
    forall k: nat, j: nat :: UrlAt(s, k) && k <= j < |s| ==> s[j] != '?' && s[j] != '#'
  }

  ghost predicate NoAddress(s: string) {
    '@' !in s || '.' !in s
  }

  predicate TokenChar(c: char) {
    c == '.' || c == '_' || c == '-' || '0' <= c <= '9' || 'a' <= c <= 'z' || 'A' <= c <= 'Z'
  }

  /** Token characters from `a` to `b`, and none outside. */
  predicate TokenSpan(s: string, a: nat, b: nat) {
    a < b <= |s| && forall i :: 0 <= i < |s| ==> (TokenChar(s[i]) <==> a <= i < b)
  }

  ghost predicate LongToken(s: string) {
    exists a: nat, b: nat :: TokenSpan(s, a, b) && b - a >= 32
  }

  // ---- the scanner's own terms ---------------------------------------------------------

  lemma SchemeStands(p: string, s: string, k: nat)
    requires forall c :: c in p ==> !('A' <= c <= 'Z')
    ensures Stands(p, s, k) <==> At(Lower(s), p, k)
  {
    if k + |p| <= |s| {
      forall j | 0 <= j < |p| ensures IsLetter(s[k + j], p[j]) <==> p[j] == Lower(s)[k + j] {
        assert p[j] in p;
      }
    }
  }

  lemma UrlStands(s: string, k: nat)
    ensures UrlAt(s, k) <==> At(Lower(s), HTTPS, k) || At(Lower(s), HTTP, k)
  {
    SchemeStands(HTTPS, s, k);
    SchemeStands(HTTP, s, k);
  }

  /** The first url of a word. */
  lemma FirstUrl(w: string)
    ensures var start := UrlStart(Lower(w));
      && (start.None? ==> forall k: nat :: !UrlAt(w, k))
      && (start.Some? ==> UrlAt(w, start.value) && forall k: nat :: k < start.value ==> !UrlAt(w, k))
  {
    forall k: nat ensures UrlAt(w, k) <==> At(Lower(w), HTTPS, k) || At(Lower(w), HTTP, k) {
      UrlStands(w, k);
    }
  }

  /** Trimming a word leaves its token characters from the first to the last. */
  lemma {:induction false} TrimmedSpan(s: string) returns (a: nat, b: nat)
    ensures a <= b <= |s| && Trimmed(s) == s[a..b]
    ensures forall i :: 0 <= i < a || b <= i < |s| ==> !IsTokenChar(s[i])
    ensures a < b ==> IsTokenChar(s[a]) && IsTokenChar(s[b - 1])
    decreases |s|
  {
    if s != "" && !IsTokenChar(s[0]) {
      var x, y := TrimmedSpan(s[1..]);
      a, b := x + 1, y + 1;
      assert s[1..][x..y] == s[a..b];
      assert forall i :: 1 <= i < |s| ==> s[i] == s[1..][i - 1];
    } else if s != "" && !IsTokenChar(s[|s| - 1]) {
      a, b := TrimmedSpan(s[..|s| - 1]);
      assert s[..|s| - 1][a..b] == s[a..b];
      assert forall i :: 0 <= i < |s| - 1 ==> s[i] == s[..|s| - 1][i];
    } else {
      a, b := 0, |s|;
    }
  }

  lemma TokensAreLong(w: string)
    ensures IsToken(w) <==> LongToken(w)
  {
    var a, b := TrimmedSpan(w);
    assert forall c :: TokenChar(c) <==> IsTokenChar(c);
    if IsToken(w) {
      assert forall i :: a <= i < b ==> w[i] == Trimmed(w)[i - a] && w[i] in Trimmed(w);
      assert TokenSpan(w, a, b);
    }
    if x: nat, y: nat :| TokenSpan(w, x, y) && y - x >= 32 {
      assert TokenChar(w[x]) && TokenChar(w[y - 1]);
      assert a <= x && y <= b;
      assert TokenChar(w[a]) && TokenChar(w[b - 1]);
      assert x <= a && b <= y;
    }
  }

  // ---- one word ------------------------------------------------------------------------

  /** `out` is `w` up to the first query or fragment behind `k`. */
  predicate EndsAtSecret(w: string, out: string, k: nat) {
    && out <= w && k <= |out|
    && (forall j :: k <= j < |out| ==> w[j] != '?' && w[j] != '#')
    && (out == w || w[|out|] == '?' || w[|out|] == '#')
  }

  /** What becomes of a word with a url: it goes on up to the query or fragment of its first. */
  ghost predicate CutAtSecret(w: string, out: string) {
    exists k: nat :: UrlAt(w, k) && (forall j: nat :: j < k ==> !UrlAt(w, j)) && EndsAtSecret(w, out, k)
  }

  lemma StripCutsAtSecret(w: string)
    ensures StripUrlSecretsFromWord(w).Some? <==> HasUrl(w)
    ensures StripUrlSecretsFromWord(w).Some? ==> CutAtSecret(w, StripUrlSecretsFromWord(w).value)
  {
    FirstUrl(w);
    if StripUrlSecretsFromWord(w).Some? {
      StrippedUrlIsFixed(w);
      var start, out := UrlStart(Lower(w)).value, StripUrlSecretsFromWord(w).value;
      assert UrlAt(w, start) && EndsAtSecret(w, out, start);
    }
  }

  /** The word before announces a credential: a bearer mark, or an authorization header that was not
      itself taken for a credential. */
  predicate Announced(words: seq<string>, i: nat)
    requires i <= |words|
  {
    i > 0 && var w := words[i - 1];
      || (|w| == 6 && Stands("bearer", w, 0))
      || (Stands("authorization:", w, 0) && (|w| == 14 || (|w| == 20 && Stands("bearer", w, 14)))
          && !Announced(words, i - 1))
  }

  /** What becomes of a word that is not a credential. */
  ghost predicate Becomes(w: string, out: string) {
    if Stands("authorization:", w, 0) then
      if |w| == 14 then out == w
      else if |w| == 20 && Stands("bearer", w, 14) then out == "Authorization: Bearer"
      else out == "Authorization: [redacted]"
    else if Stands("bearer", w, 0) then out == if |w| == 6 then w else "Bearer [redacted]"
    else if !NoAddress(w) then out == "[redacted-email]"
    else if HasUrl(w) then CutAtSecret(w, out)
    else out == if LongToken(w) then "[redacted-token]" else w
  }

  lemma LowerIs(w: string, p: string)
    requires forall c :: c in p ==> !('A' <= c <= 'Z')
    ensures Lower(w) == p <==> |w| == |p| && Stands(p, w, 0)
    ensures StartsWith(Lower(w), p) <==> Stands(p, w, 0)
  {
    SchemeStands(p, w, 0);
  }

  lemma CuesStand(w: string)
    ensures Lower(w) == BEARER <==> |w| == 6 && Stands("bearer", w, 0)
    ensures StartsWith(Lower(w), BEARER) <==> Stands("bearer", w, 0)
    ensures Lower(w) == AUTHORIZATION <==> |w| == 14 && Stands("authorization:", w, 0)
    ensures StartsWith(Lower(w), AUTHORIZATION) <==> Stands("authorization:", w, 0)
    ensures Lower(w) == "authorization:bearer" <==>
      |w| == 20 && Stands("authorization:", w, 0) && Stands("bearer", w, 14)
  {
    LowerIs(w, BEARER);
    LowerIs(w, AUTHORIZATION);
    LowerIs(w, "authorization:bearer");
    var both := "authorization:bearer";
    assert both == "authorization:" + "bearer";
    assert forall j :: 0 <= j < 14 ==> both[j] == "authorization:"[j];
    assert forall j :: 0 <= j < 6 ==> both[14 + j] == "bearer"[j];
  }

  lemma WordBecomes(w: string)
    ensures Becomes(w, RedactWord(w, false).text)
  {
    CuesStand(w);
    StripCutsAtSecret(w);
    TokensAreLong(w);
    if !StartsWith(Lower(w), AUTHORIZATION) && !StartsWith(Lower(w), BEARER) { NoCue(w); }
  }

  /** The flag the loop carries is up before a word exactly when the word is announced. */
  lemma {:induction false} FlagIsAnnounced(words: seq<string>, i: nat)
    requires i <= |words|
    ensures CredentialAfter(words[..i], false) <==> Announced(words, i)
    decreases i
  {
    if i == 0 {
      assert words[..0] == [];
    } else {
      FlagIsAnnounced(words, i - 1);
      RedactNext(words, i - 1);
      CuesStand(words[i - 1]);
    }
  }

  /** Every word of the redaction: a credential is hidden whatever it is, any other word becomes what
      its own characters say, and a word without cue, address, url or token stays as it is. */
  lemma EveryWordBecomes(words: seq<string>, i: nat)
    requires i < |words|
    ensures var w, out := words[i], RedactAll(words, false)[i];
      if !Announced(words, i) then Becomes(w, out)
      else out == if |w| == 6 && Stands("bearer", w, 0) then w else "[redacted]"
  {
    RedactAt(words, i);
    FlagIsAnnounced(words, i);
    CuesStand(words[i]);
    WordBecomes(words[i]);
  }

  // ---- what a word of the log can hold -------------------------------------------------

  ghost predicate Bare(s: string) {
    UrlsAreBare(s) && NoAddress(s)
  }

  ghost predicate Clean(s: string) {
    Bare(s) && (LongToken(s) ==> HasUrl(s))
  }

  lemma UrlHasSlash(s: string, k: nat)
    requires UrlAt(s, k)
    ensures '/' in s
  {
    if Stands("https://", s, k) {
      assert IsLetter(s[k + 6], "https://"[6]);
    } else {
      assert IsLetter(s[k + 5], "http://"[5]);
    }
  }

  /** A short text without slash and at-sign is harmless. */
  lemma ShortIsClean(s: string)
    requires '/' !in s && '@' !in s && |s| < 32
    ensures Clean(s)
  {
    forall k: nat ensures !UrlAt(s, k) {
      if UrlAt(s, k) { UrlHasSlash(s, k); }
    }
  }

  lemma CueIsClean(w: string, cue: string)
    requires |w| == |cue| < 32 && Stands(cue, w, 0) && forall c :: c in cue ==> 'a' <= c <= 'z' || c == ':'
    ensures Clean(w)
  {
    forall i | 0 <= i < |w| ensures w[i] != '/' && w[i] != '@' {
      assert cue[i] in cue && IsLetter(w[i], cue[i]);
    }
    ShortIsClean(w);
  }

  lemma CutUrlIsClean(w: string, out: string)
    requires NoAddress(w) && CutAtSecret(w, out)
    ensures Clean(out)
  {
    var k: nat :| UrlAt(w, k) && (forall j: nat :: j < k ==> !UrlAt(w, j)) && EndsAtSecret(w, out, k);
    UrlStays(w, out, k);
    forall x: nat, j: nat | UrlAt(out, x) && x <= j < |out| ensures out[j] != '?' && out[j] != '#' {
      UrlInWhole(w, out, x);
      assert out[j] == w[j];
    }
    PieceHasNoAddress(w, out);
  }

  lemma UrlStays(w: string, out: string, k: nat)
    requires UrlAt(w, k) && EndsAtSecret(w, out, k)
    ensures UrlAt(out, k)
  {
    if Stands("https://", w, k) { SchemeFits("https://", w, out, k); } else { SchemeFits("http://", w, out, k); }
  }

  lemma UrlInWhole(w: string, p: string, k: nat)
    requires p <= w && UrlAt(p, k)
    ensures UrlAt(w, k)
  {
    assert forall i :: 0 <= i < |p| ==> p[i] == w[i];
  }

  lemma PieceHasNoAddress(w: string, p: string)
    requires p <= w && NoAddress(w)
    ensures NoAddress(p)
  {
    assert forall i :: 0 <= i < |p| ==> p[i] == w[i];
    assert forall c :: c in p ==> c in w;
  }

  lemma NoSecretInScheme(p: string, w: string, k: nat, x: nat)
    requires Stands(p, w, k) && k <= x < k + |p| && forall c :: c in p ==> 'a' <= c <= 'z' || c == ':' || c == '/'
    ensures w[x] != '?' && w[x] != '#'
  {
    assert p[x - k] in p && IsLetter(w[k + (x - k)], p[x - k]);
  }

  lemma SchemeFits(p: string, w: string, out: string, k: nat)
    requires Stands(p, w, k) && k <= |out| && out <= w
    requires out == w || w[|out|] == '?' || w[|out|] == '#'
    requires forall c :: c in p ==> 'a' <= c <= 'z' || c == ':' || c == '/'
    ensures Stands(p, out, k)
  {
    if |out| < k + |p| { NoSecretInScheme(p, w, k, |out|); }
  }

  lemma CueBecomesClean(w: string, out: string)
    requires Becomes(w, out) && (Stands("authorization:", w, 0) || Stands("bearer", w, 0))
    ensures Clean(out)
  {
    if Stands("authorization:", w, 0) && |w| == 14 {
      CueIsClean(w, "authorization:");
    } else if !Stands("authorization:", w, 0) && |w| == 6 {
      CueIsClean(w, "bearer");
    } else {
      ShortIsClean(out);
    }
  }

  lemma BecomesClean(w: string, out: string)
    requires Becomes(w, out)
    ensures Clean(out)
  {
    if Stands("authorization:", w, 0) || Stands("bearer", w, 0) {
      CueBecomesClean(w, out);
    } else if NoAddress(w) && HasUrl(w) {
      CutUrlIsClean(w, out);
    } else if !NoAddress(w) || LongToken(w) {
      ShortIsClean(out);
    }
  }

  /** No word of a redaction holds a url with a query or fragment or the shape of an address, and
      none is a long token but around a url. */
  lemma EveryWordIsClean(words: seq<string>, i: nat)
    requires i < |words|
    ensures Clean(RedactAll(words, false)[i])
  {
    var w := words[i];
    EveryWordBecomes(words, i);
    if !Announced(words, i) {
      BecomesClean(w, RedactAll(words, false)[i]);
    } else if |w| == 6 && Stands("bearer", w, 0) {
      CueIsClean(w, "bearer");
    } else {
      ShortIsClean("[redacted]");
    }
  }

  // ---- the log line --------------------------------------------------------------------

  /** The words of a full redaction redact to themselves, so each is clean. */
  lemma FullWordsAreClean(space: Space, text: string)
    requires IsSpace(space)
    ensures forall v :: v in Words(space, FullRedaction(space, text)) ==> Clean(v)
  {
    var texts := RedactAll(Words(space, text), false);
    var again := AllWords(space, texts);
    WordsAreWords(space, text);
    RedactedIsFixed(space, Words(space, text));
    WordsOfJoin(space, texts);
    forall v | v in again ensures Clean(v) {
      var i :| 0 <= i < |again| && again[i] == v;
      EveryWordIsClean(again, i);
    }
  }

  lemma PieceIsBare(w: string, p: string)
    requires p <= w && Bare(w)
    ensures Bare(p)
  {
    PieceHasNoAddress(w, p);
    forall k: nat, j: nat | UrlAt(p, k) && k <= j < |p| ensures p[j] != '?' && p[j] != '#' {
      UrlInWhole(w, p, k);
      assert p[j] == w[j];
    }
  }

  ghost predicate AllBare(words: seq<string>) {
    forall v :: v in words ==> Bare(v)
  }

  /** Cut to its bound, the log line still shows no url's query or fragment and no address. */
  lemma LogLineIsBare(space: Space, text: string, maxChars: nat)
    requires IsSpace(space)
    ensures AllBare(Words(space, Take(FullRedaction(space, text), maxChars)))
  {
    var full := FullRedaction(space, text);
    FullWordsAreClean(space, text);
    assert AllBare(Words(space, full));
    if maxChars == 0 {
      assert Take(full, 0) == "";
    } else if maxChars < |full| {
      RedactedJoins(space, text);
      CutIsBare(space, Words(space, full), maxChars);
    }
  }

  lemma CutIsBare(space: Space, words: seq<string>, n: nat)
    requires IsSpace(space) && AreWords(space, words) && AllBare(words) && 0 < n < |Join(words)|
    ensures AllBare(Words(space, Join(words)[..n]))
  {
    var k, p := CutOfJoin(words, n);
    CutWords(space, words, k, p, Join(words)[..n]);
    if p != "" { PieceIsBare(words[k], p); }
  }

  lemma RedactedJoins(space: Space, text: string)
    requires IsSpace(space)
    ensures var full := FullRedaction(space, text);
      Join(Words(space, full)) == full && AreWords(space, Words(space, full))
  {
    var texts := RedactAll(Words(space, text), false);
    WordsAreWords(space, text);
    RedactedIsFixed(space, Words(space, text));
    WordsOfJoin(space, texts);
    AllWordsAreWords(space, texts);
  }

  lemma CutWords(space: Space, words: seq<string>, k: nat, p: string, cut: string)
    requires IsSpace(space) && AreWords(space, words) && CutAt(words, k, p, cut)
    ensures forall v :: v in Words(space, cut) ==> v in words || (v == p && p != "")
  {
    var whole := words[..k];
    assert AreWords(space, whole);
    if p == "" {
      SeparatorAddsNoWord(space, Join(whole));
      WordsOfWords(space, whole);
    } else {
      PieceIsWord(space, words[k], p);
      WordsOfWords(space, whole + [p]);
    }
  }
}
