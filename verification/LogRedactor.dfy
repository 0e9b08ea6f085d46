/** The redaction of client-supplied text before it is logged: a loop over words that carries a
    credential flag and stops early, and the plain meaning it is proved against. */
module LogRedactor {
  import opened Orders

  /** Unicode white space; no printable ASCII character is. */
  type Space = char -> bool

  ghost predicate IsSpace(space: Space) {
    space(' ') && forall c :: '!' <= c <= '~' ==> !space(c)
  }

  // ---- words ---------------------------------------------------------------------------

  function WordEnd(space: Space, s: string): (n: nat)
    ensures n <= |s| && (forall i :: 0 <= i < n ==> !space(s[i])) && (n < |s| ==> space(s[n]))
  {
    if s == "" || space(s[0]) then 0 else 1 + WordEnd(space, s[1..])
  }

  /** split_whitespace */
  function Words(space: Space, s: string): seq<string>
    decreases |s|
  {
    if s == "" then []
    else if space(s[0]) then Words(space, s[1..])
    else
      var n := WordEnd(space, s);
      [s[..n]] + Words(space, s[n..])
  }

  predicate IsWord(space: Space, w: string) {
    w != "" && forall c :: c in w ==> !space(c)
  }

  /** join(" ") */
  function Join(words: seq<string>): string {
    if words == [] then ""
    else if |words| == 1 then words[0]
    else Join(words[..|words| - 1]) + " " + words[|words| - 1]
  }

  function LowerChar(c: char): char {
    if 'A' <= c <= 'Z' then ((c as int) + 32) as char else c
  }

  function Lower(s: string): (r: string)
    ensures |r| == |s| && forall i :: 0 <= i < |s| ==> r[i] == LowerChar(s[i])
  {
    seq(|s|, i requires 0 <= i < |s| => LowerChar(s[i]))
  }

  // ---- urls ----------------------------------------------------------------------------

  predicate At(s: string, p: string, i: nat) {
    i + |p| <= |s| && forall k :: 0 <= k < |p| ==> p[k] == s[i + k]
  }

  function FindFrom(s: string, p: string, i: nat): (r: Option<nat>)
    requires i <= |s|
    ensures r.Some? ==> r.value >= i && At(s, p, r.value) && forall j :: i <= j < r.value ==> !At(s, p, j)
    ensures r.None? ==> forall j :: i <= j ==> !At(s, p, j)
    decreases |s| - i
  {
    if At(s, p, i) then Some(i) else if i == |s| then None else FindFrom(s, p, i + 1)
  }

  const HTTPS := "https://"
  const HTTP := "http://"

  /** The earliest of the two schemes. */
  function UrlStart(lower: string): Option<nat> {
    var a, b := FindFrom(lower, HTTPS, 0), FindFrom(lower, HTTP, 0);
    if a.None? then b else if b.None? then a else Some(if a.value <= b.value then a.value else b.value)
  }

  function SecretStart(s: string, i: nat): (r: Option<nat>)
    requires i <= |s|
    ensures r.Some? ==> i <= r.value < |s| && (s[r.value] == '?' || s[r.value] == '#')
    ensures forall j :: i <= j < (if r.Some? then r.value else |s|) ==> s[j] != '?' && s[j] != '#'
    decreases |s| - i
  {
    if i == |s| then None else if s[i] == '?' || s[i] == '#' then Some(i) else SecretStart(s, i + 1)
  }

  /** A url loses its query and fragment; a word without a url is none. */
  function StripUrlSecretsFromWord(w: string): Option<string> {
    match UrlStart(Lower(w))
    case None => None
    case Some(start) =>
      var secret := SecretStart(w, start);
      Some(if secret.Some? then w[..secret.value] else w)
  }

  // ---- one word ------------------------------------------------------------------------

  predicate IsTokenChar(c: char) {
    'a' <= c <= 'z' || 'A' <= c <= 'Z' || '0' <= c <= '9' || c == '_' || c == '-' || c == '.'
  }

  function Trimmed(s: string): (r: string)
    ensures |r| <= |s|
  {
    if s != "" && !IsTokenChar(s[0]) then Trimmed(s[1..])
    else if s != "" && !IsTokenChar(s[|s| - 1]) then Trimmed(s[..|s| - 1])
    else s
  }

  predicate IsToken(w: string) {
    |Trimmed(w)| >= 32 && forall c :: c in Trimmed(w) ==> IsTokenChar(c)
  }

  predicate StartsWith(s: string, prefix: string) {
    At(s, prefix, 0)
  }

  const AUTHORIZATION := "authorization:"
  const BEARER := "bearer"
  const REDACTED := "[redacted]"

  datatype Redaction = Redaction(text: string, credential: bool)

  /** What a word becomes, and whether the next one is a credential. */
  function RedactWord(w: string, credential: bool): Redaction {
    var lower := Lower(w);
    if credential then
      if lower == BEARER then Redaction(w, true) else Redaction(REDACTED, false)
    else if lower == AUTHORIZATION then Redaction(w, true)
    else if lower == "authorization:bearer" then Redaction("Authorization: Bearer", true)
    else if StartsWith(lower, AUTHORIZATION) then Redaction("Authorization: [redacted]", false)
    else if lower == BEARER then Redaction(w, true)
    else if StartsWith(lower, BEARER) then Redaction("Bearer [redacted]", false)
    else Redaction(RedactPlainWord(w), false)
  }

  function RedactPlainWord(w: string): string {
    if '@' in w && '.' in w then "[redacted-email]"
    else if StripUrlSecretsFromWord(w).Some? then StripUrlSecretsFromWord(w).value
    else if IsToken(w) then "[redacted-token]"
    else w
  }

  /** A pass over words that carries the flag, for any treatment of one word. */
  function Texts(step: (string, bool) -> Redaction, words: seq<string>, credential: bool): (r: seq<string>)
    ensures |r| == |words|
  {
    if words == [] then []
    else
      var first := step(words[0], credential);
      [first.text] + Texts(step, words[1..], first.credential)
  }

  function FlagAfter(step: (string, bool) -> Redaction, words: seq<string>, credential: bool): bool {
    if words == [] then credential else FlagAfter(step, words[1..], step(words[0], credential).credential)
  }

  function RedactAll(words: seq<string>, credential: bool): (r: seq<string>)
    ensures |r| == |words|
  {
    Texts(RedactWord, words, credential)
  }

  function CredentialAfter(words: seq<string>, credential: bool): bool {
    FlagAfter(RedactWord, words, credential)
  }

  /** The meaning of the redaction, without a bound. */
  function FullRedaction(space: Space, text: string): string {
    Join(RedactAll(Words(space, text), false))
  }

  function Take(s: string, n: nat): string {
    if |s| <= n then s else s[..n]
  }

  // ---- the loop ------------------------------------------------------------------------

  lemma TextsCons(step: (string, bool) -> Redaction, w: string, words: seq<string>, credential: bool)
    ensures var first := step(w, credential);
      && Texts(step, [w] + words, credential) == [first.text] + Texts(step, words, first.credential)
      && FlagAfter(step, [w] + words, credential) == FlagAfter(step, words, first.credential)
  {
    assert ([w] + words)[1..] == words;
  }

  lemma {:induction false} TextsConcat(
      step: (string, bool) -> Redaction, a: seq<string>, b: seq<string>, credential: bool)
    ensures var flag := FlagAfter(step, a, credential);
      && Texts(step, a + b, credential) == Texts(step, a, credential) + Texts(step, b, flag)
      && FlagAfter(step, a + b, credential) == FlagAfter(step, b, flag)
    decreases |a|
  {
    if a == [] {
      assert a + b == b;
    } else {
      var w, rest := a[0], a[1..];
      assert a == [w] + rest && a + b == [w] + (rest + b);
      TextsCons(step, w, rest, credential);
      TextsCons(step, w, rest + b, credential);
      TextsConcat(step, rest, b, step(w, credential).credential);
    }
  }

  lemma RedactOne(w: string, credential: bool)
    ensures var out := RedactWord(w, credential);
      RedactAll([w], credential) == [out.text] && CredentialAfter([w], credential) == out.credential
  {
    TextsOne(RedactWord, w, credential);
  }

  lemma TextsOne(step: (string, bool) -> Redaction, w: string, credential: bool)
    ensures var out := step(w, credential);
      Texts(step, [w], credential) == [out.text] && FlagAfter(step, [w], credential) == out.credential
  {
    assert Texts(step, [w], credential) == [step(w, credential).text] + Texts(step, [], step(w, credential).credential);
    assert FlagAfter(step, [w], credential) == FlagAfter(step, [], step(w, credential).credential);
  }

  lemma RedactAllConcat(a: seq<string>, b: seq<string>, credential: bool)
    ensures RedactAll(a + b, credential) == RedactAll(a, credential) + RedactAll(b, CredentialAfter(a, credential))
    ensures CredentialAfter(a + b, credential) == CredentialAfter(b, CredentialAfter(a, credential))
  {
    TextsConcat(RedactWord, a, b, credential);
  }

  /** Words after the break cannot reach into the part that is kept. */
  lemma {:induction false} JoinGrows(a: seq<string>, b: seq<string>)
    ensures |Join(a)| <= |Join(a + b)| && Join(a + b)[..|Join(a)|] == Join(a)
    decreases |b|
  {
    if b == [] {
      assert a + b == a;
    } else {
      var init := b[..|b| - 1];
      assert (a + b)[..|a + b| - 1] == a + init;
      JoinGrows(a, init);
    }
  }

  lemma RedactNext(words: seq<string>, i: nat)
    requires i < |words|
    ensures var before := CredentialAfter(words[..i], false); var next := RedactWord(words[i], before);
      && RedactAll(words[..i + 1], false) == RedactAll(words[..i], false) + [next.text]
      && CredentialAfter(words[..i + 1], false) == next.credential
  {
    RedactAllConcat(words[..i], [words[i]], false);
    assert words[..i + 1] == words[..i] + [words[i]];
    RedactOne(words[i], CredentialAfter(words[..i], false));
  }

  lemma JoinLength(texts: seq<string>, text: string)
    ensures |Join(texts + [text])| == |Join(texts)| + |text| + if texts != [] then 1 else 0
  {
    assert (texts + [text])[..|texts|] == texts;
  }

  lemma CutIsTake(words: seq<string>, i: nat, n: nat)
    requires i <= |words| && (i == |words| || |Join(RedactAll(words[..i], false))| >= n)
    ensures Take(Join(RedactAll(words[..i], false)), n) == Take(Join(RedactAll(words, false)), n)
  {
    if i == |words| {
      assert words[..i] == words;
    } else {
      var head, tail := RedactAll(words[..i], false), RedactAll(words[i..], CredentialAfter(words[..i], false));
      RedactAllConcat(words[..i], words[i..], false);
      assert words == words[..i] + words[i..];
      JoinGrows(head, tail);
      TakeOfPrefix(Join(head), Join(head + tail), n);
    }
  }

  lemma TakeOfPrefix(a: string, b: string, n: nat)
    requires n <= |a| <= |b| && b[..|a|] == a
    ensures Take(a, n) == Take(b, n)
  {
    assert b[..n] == b[..|a|][..n];
  }

  /** The early exit loses nothing: the loop is the full redaction cut to its bound, and its
      running count is always the length of what it would join. */
  method SanitizedLogText(space: Space, value: string, maxChars: nat) returns (r: string)
    ensures r == Take(FullRedaction(space, value), maxChars)
  {
    var words := Words(space, value);
    var output: seq<string> := [];
    var outputChars := 0;
    var redactCredential := false;
    var i := 0;
    while i < |words|
      invariant i <= |words|
      invariant output == RedactAll(words[..i], false)
      invariant redactCredential == CredentialAfter(words[..i], false)
      invariant outputChars == |Join(output)|
    {
      if outputChars >= maxChars {
        break;
      }
      var redacted := RedactWord(words[i], redactCredential);
      RedactNext(words, i);
      JoinLength(output, redacted.text);
      outputChars := outputChars + |redacted.text| + if output != [] then 1 else 0;
      output := output + [redacted.text];
      redactCredential := redacted.credential;
      i := i + 1;
    }
    CutIsTake(words, i, maxChars);
    return Take(Join(output), maxChars);
  }

  // ---- splitting what was joined -------------------------------------------------------

  lemma {:induction false} WordsOfPair(space: Space, a: string, b: string)
    requires space(' ')
    ensures Words(space, a + " " + b) == Words(space, a) + Words(space, b)
    decreases |a|
  {
    var whole := a + " " + b;
    if a == "" {
      assert whole[1..] == b;
    } else if space(a[0]) {
      assert whole[1..] == a[1..] + " " + b;
      WordsOfPair(space, a[1..], b);
    } else {
      var n := FirstWordOfPair(space, a, b);
      WordsOfPair(space, a[n..], b);
    }
  }

  /** The first word of the pair is that of its first text. */
  lemma FirstWordOfPair(space: Space, a: string, b: string) returns (n: nat)
    requires space(' ') && a != "" && !space(a[0])
    ensures 0 < n == WordEnd(space, a)
    ensures Words(space, a) == [a[..n]] + Words(space, a[n..])
    ensures Words(space, a + " " + b) == [a[..n]] + Words(space, a[n..] + " " + b)
  {
    n := WordEnd(space, a);
    var whole := a + " " + b;
    WordEndStops(space, a, " " + b);
    assert whole == a + (" " + b);
    assert whole[..n] == a[..n] && whole[n..] == a[n..] + " " + b;
  }

  lemma {:induction false} WordEndStops(space: Space, a: string, rest: string)
    requires rest != "" && space(rest[0])
    ensures WordEnd(space, a + rest) == WordEnd(space, a)
    decreases |a|
  {
    if a == "" {
      assert a + rest == rest;
    } else {
      assert (a + rest)[1..] == a[1..] + rest;
      WordEndStops(space, a[1..], rest);
    }
  }

  lemma OneWord(space: Space, w: string)
    requires IsWord(space, w)
    ensures Words(space, w) == [w]
  {
    var n := WordEnd(space, w);
    assert forall i :: 0 <= i < |w| ==> w[i] in w;
    assert w[..n] == w && w[n..] == "";
  }

  function AllWords(space: Space, texts: seq<string>): seq<string> {
    if texts == [] then [] else AllWords(space, texts[..|texts| - 1]) + Words(space, texts[|texts| - 1])
  }

  lemma {:induction false} WordsOfJoin(space: Space, texts: seq<string>)
    requires space(' ')
    ensures Words(space, Join(texts)) == AllWords(space, texts)
    decreases |texts|
  {
    if |texts| == 1 {
      assert texts[..0] == [];
      assert AllWords(space, texts) == AllWords(space, texts[..0]) + Words(space, texts[0]);
    } else if |texts| > 1 {
      WordsOfJoin(space, texts[..|texts| - 1]);
      WordsOfPair(space, Join(texts[..|texts| - 1]), texts[|texts| - 1]);
    }
  }

  lemma {:induction false} WordsAreWords(space: Space, s: string)
    ensures forall w :: w in Words(space, s) ==> IsWord(space, w)
    decreases |s|
  {
    if s != "" {
      if space(s[0]) {
        WordsAreWords(space, s[1..]);
      } else {
        var n := WordEnd(space, s);
        assert forall c :: c in s[..n] ==> !space(c);
        WordsAreWords(space, s[n..]);
      }
    }
  }

  lemma {:induction false} JoinConcat(a: seq<string>, b: seq<string>)
    requires b != []
    ensures Join(a + b) == if a == [] then Join(b) else Join(a) + " " + Join(b)
    decreases |b|
  {
    var init, last := b[..|b| - 1], b[|b| - 1];
    assert (a + b)[..|a + b| - 1] == a + init;
    if init == [] {
      assert a + init == a;
    } else {
      JoinConcat(a, init);
    }
  }

  // ---- running it again ----------------------------------------------------------------

  lemma LowerPrefix(w: string, n: nat)
    requires n <= |w|
    ensures Lower(w[..n]) == Lower(w)[..n]
  {
  }

  lemma FindInPrefix(s: string, p: string, n: nat)
    requires n <= |s|
    ensures var r := FindFrom(s, p, 0);
      FindFrom(s[..n], p, 0) == if r.Some? && r.value + |p| <= n then r else None
  {
    AtInPrefix(s, p, n);
  }

  lemma AtInPrefix(s: string, p: string, n: nat)
    requires n <= |s|
    ensures forall j: nat :: At(s[..n], p, j) <==> At(s, p, j) && j + |p| <= n
  {
    var cut := s[..n];
    forall j: nat | j + |p| <= n ensures At(cut, p, j) <==> At(s, p, j) {
      assert forall i :: 0 <= i < n ==> cut[i] == s[i];
    }
  }

  lemma MatchedChar(s: string, p: string, start: nat, k: nat)
    requires At(s, p, start) && start <= k < start + |p|
    ensures s[k] in p
  {
    assert s[k] == p[k - start];
  }

  lemma SchemeHasNoSecret(w: string, p: string, start: nat, k: nat)
    requires At(Lower(w), p, start) && start <= k < |w| && (w[k] == '?' || w[k] == '#')
    requires '?' !in p && '#' !in p
    ensures start + |p| <= k
  {
    assert LowerChar(w[k]) == w[k];
    if k < start + |p| { MatchedChar(Lower(w), p, start, k); }
  }

  /** A prefix that contains the first scheme whole has the same first scheme. */
  lemma UrlStartInPrefix(lower: string, k: nat)
    requires k <= |lower| && UrlStart(lower).Some?
    requires At(lower, HTTPS, UrlStart(lower).value) ==> UrlStart(lower).value + |HTTPS| <= k
    requires At(lower, HTTP, UrlStart(lower).value) ==> UrlStart(lower).value + |HTTP| <= k
    ensures UrlStart(lower[..k]) == UrlStart(lower)
  {
    FindInPrefix(lower, HTTPS, k);
    FindInPrefix(lower, HTTP, k);
  }

  /** A stripped url is left alone: the scheme is still the first, and no secret follows it. */
  lemma StrippedUrlIsFixed(w: string)
    requires StripUrlSecretsFromWord(w).Some?
    ensures var out := StripUrlSecretsFromWord(w).value;
      out != "" && |out| <= |w| && w[..|out|] == out && StripUrlSecretsFromWord(out) == Some(out)
  {
    var start := UrlStart(Lower(w)).value;
    if At(Lower(w), HTTPS, start) { StripKeepsScheme(w, HTTPS, start); }
    if At(Lower(w), HTTP, start) { StripKeepsScheme(w, HTTP, start); }
    var out := StripUrlSecretsFromWord(w).value;
    UrlStartInPrefix(Lower(w), |out|);
    LowerPrefix(w, |out|);
  }

  lemma StripKeepsScheme(w: string, p: string, start: nat)
    requires UrlStart(Lower(w)) == Some(start) && At(Lower(w), p, start) && '?' !in p && '#' !in p
    ensures var out := StripUrlSecretsFromWord(w).value;
      start + |p| <= |out| <= |w| && w[..|out|] == out && SecretStart(out, start).None?
  {
    var secret := SecretStart(w, start);
    if secret.Some? { SchemeHasNoSecret(w, p, start, secret.value); }
  }

  /** A marker in brackets is left alone. */
  lemma MarkerIsFixed(w: string)
    requires 0 < |w| < 32 && w[0] == '[' && '@' !in w && ':' !in w
    ensures RedactWord(w, false) == Redaction(w, false)
  {
    var lower := Lower(w);
    forall j: nat ensures !At(lower, HTTPS, j) && !At(lower, HTTP, j) {
      NoColon(w, HTTPS, 5, j);
      NoColon(w, HTTP, 4, j);
    }
    assert AUTHORIZATION[0] == 'a' && BEARER[0] == 'b' && lower[0] == '[';
  }

  lemma NoColon(w: string, p: string, k: nat, j: nat)
    requires ':' !in w && k < |p| && p[k] == ':'
    ensures !At(Lower(w), p, j)
  {
    if j + |p| <= |w| {
      assert w[j + k] in w;
      assert Lower(w)[j + k] != p[k];
    }
  }

  lemma PrintableIsWord(space: Space, w: string)
    requires IsSpace(space) && w != "" && forall c :: c in w ==> '!' <= c <= '~'
    ensures IsWord(space, w) && Words(space, w) == [w]
  {
    OneWord(space, w);
  }

  lemma TwoWords(space: Space, a: string, b: string)
    requires IsSpace(space) && IsWord(space, a) && IsWord(space, b)
    ensures Words(space, a + " " + b) == [a, b] && Join([a, b]) == a + " " + b
  {
    WordsOfPair(space, a, b);
    OneWord(space, a);
    OneWord(space, b);
    assert [a, b][..1] == [a];
  }

  /** The words of `text`, redacted from the same flag, are themselves. */
  predicate Fixed(space: Space, text: string, credential: bool, after: bool) {
    var words := Words(space, text);
    && text != "" && RedactAll(words, credential) == words && CredentialAfter(words, credential) == after
    && Join(words) == text
  }

  lemma OneFixed(space: Space, w: string, credential: bool, after: bool)
    requires IsWord(space, w) && RedactWord(w, credential) == Redaction(w, after)
    ensures Fixed(space, w, credential, after)
  {
    OneWord(space, w);
    RedactOne(w, credential);
  }

  lemma PairFixed(space: Space, a: string, b: string, after: bool)
    requires IsSpace(space) && IsWord(space, a) && IsWord(space, b)
    requires RedactWord(a, false) == Redaction(a, true) && RedactWord(b, true) == Redaction(b, after)
    ensures Fixed(space, a + " " + b, false, after)
  {
    TwoWords(space, a, b);
    RedactAllConcat([a], [b], false);
    assert [a] + [b] == [a, b];
    RedactOne(a, false);
    RedactOne(b, true);
  }

  lemma RedactedMarker(space: Space)
    requires IsSpace(space)
    ensures IsWord(space, REDACTED) && RedactWord(REDACTED, true) == Redaction(REDACTED, false)
  {
    PrintableIsWord(space, REDACTED);
    assert Lower(REDACTED)[0] == '[' && BEARER[0] == 'b';
  }

  lemma Cue(space: Space, cue: string)
    requires IsSpace(space) && (cue == "Authorization:" || cue == "Bearer")
    ensures IsWord(space, cue) && RedactWord(cue, false) == Redaction(cue, true)
    ensures cue == "Bearer" ==> RedactWord(cue, true) == Redaction(cue, true)
  {
    PrintableIsWord(space, cue);
    assert Lower(cue) == if cue == "Bearer" then BEARER else AUTHORIZATION;
  }

  lemma AuthorizationBearerIsFixed(space: Space, cue: string, mark: string, text: string)
    requires IsSpace(space) && cue == "Authorization:" && mark == "Bearer" && text == cue + " " + mark
    ensures Fixed(space, text, false, true)
  {
    Cue(space, cue);
    Cue(space, mark);
    PairFixed(space, cue, mark, true);
  }

  lemma HiddenCredentialIsFixed(space: Space, cue: string, text: string)
    requires IsSpace(space) && (cue == "Authorization:" || cue == "Bearer") && text == cue + " " + REDACTED
    ensures Fixed(space, text, false, false)
  {
    Cue(space, cue);
    RedactedMarker(space);
    PairFixed(space, cue, REDACTED, false);
  }

  lemma StrippedWordIsFixed(space: Space, w: string)
    requires IsSpace(space) && IsWord(space, w) && !('@' in w && '.' in w) && StripUrlSecretsFromWord(w).Some?
    requires !StartsWith(Lower(w), AUTHORIZATION) && !StartsWith(Lower(w), BEARER)
    ensures var out := StripUrlSecretsFromWord(w).value;
      IsWord(space, out) && RedactWord(out, false) == Redaction(out, false)
  {
    var out := StripUrlSecretsFromWord(w).value;
    StrippedUrlIsFixed(w);
    assert forall i :: 0 <= i < |out| ==> out[i] == w[i];
    assert forall c :: c in out ==> c in w;
    PrefixStartsLess(w, out, AUTHORIZATION);
    PrefixStartsLess(w, out, BEARER);
  }

  lemma PrefixStartsLess(w: string, out: string, p: string)
    requires |out| <= |w| && w[..|out|] == out && !StartsWith(Lower(w), p)
    ensures !StartsWith(Lower(out), p)
  {
    LowerPrefix(w, |out|);
    AtInPrefix(Lower(w), p, |out|);
  }

  predicate IsMarker(w: string) {
    0 < |w| < 32 && w[0] == '[' && '@' !in w && ':' !in w && forall c :: c in w ==> '!' <= c <= '~'
  }

  lemma Markers()
    ensures IsMarker("[redacted-email]") && IsMarker("[redacted-token]")
  {
  }

  lemma MarkerFixed(space: Space, w: string)
    requires IsSpace(space) && IsMarker(w)
    ensures Fixed(space, w, false, false)
  {
    PrintableIsWord(space, w);
    MarkerIsFixed(w);
    OneFixed(space, w, false, false);
  }

  lemma PlainWordIsFixed(space: Space, w: string)
    requires IsSpace(space) && IsWord(space, w)
    requires !StartsWith(Lower(w), AUTHORIZATION) && !StartsWith(Lower(w), BEARER)
    ensures Fixed(space, RedactPlainWord(w), false, false)
  {
    var out := RedactPlainWord(w);
    if out == "[redacted-email]" || out == "[redacted-token]" {
      Markers();
      MarkerFixed(space, out);
    } else if StripUrlSecretsFromWord(w).Some? {
      StrippedWordIsFixed(space, w);
      OneFixed(space, out, false, false);
    } else {
      NoCue(w);
      OneFixed(space, w, false, false);
    }
  }

  lemma CueWordIsFixed(space: Space, w: string)
    requires IsSpace(space) && IsWord(space, w)
    requires StartsWith(Lower(w), AUTHORIZATION) || StartsWith(Lower(w), BEARER)
    ensures var out := RedactWord(w, false); Fixed(space, out.text, false, out.credential)
  {
    var out := RedactWord(w, false);
    if Lower(w) == AUTHORIZATION || Lower(w) == BEARER {
      OneFixed(space, w, false, true);
    } else if out.credential {
      AuthorizationBearerIsFixed(space, "Authorization:", "Bearer", out.text);
    } else if StartsWith(Lower(w), AUTHORIZATION) {
      HiddenCredentialIsFixed(space, "Authorization:", out.text);
    } else {
      HiddenCredentialIsFixed(space, "Bearer", out.text);
    }
  }

  lemma CredentialIsFixed(space: Space, w: string)
    requires IsSpace(space) && IsWord(space, w)
    ensures var out := RedactWord(w, true); Fixed(space, out.text, true, out.credential)
  {
    var out := RedactWord(w, true);
    RedactedMarker(space);
    OneFixed(space, out.text, true, out.credential);
  }

  lemma WordIsFixed(space: Space, w: string, credential: bool)
    requires IsSpace(space) && IsWord(space, w)
    ensures var out := RedactWord(w, credential); Fixed(space, out.text, credential, out.credential)
  {
    if credential {
      CredentialIsFixed(space, w);
    } else if StartsWith(Lower(w), AUTHORIZATION) || StartsWith(Lower(w), BEARER) {
      CueWordIsFixed(space, w);
    } else {
      PlainWordIsFixed(space, w);
      NoCue(w);
    }
  }

  lemma NoCue(w: string)
    requires !StartsWith(Lower(w), AUTHORIZATION) && !StartsWith(Lower(w), BEARER)
    ensures RedactWord(w, false) == Redaction(RedactPlainWord(w), false)
  {
    assert At("authorization:bearer", AUTHORIZATION, 0);
  }

  /** Redacting the words of a redacted text gives them back. */
  lemma {:induction false} RedactedIsFixed(space: Space, words: seq<string>)
    requires IsSpace(space) && forall w :: w in words ==> IsWord(space, w)
    ensures var again := AllWords(space, RedactAll(words, false));
      && (words != [] ==> again != [])
      && RedactAll(again, false) == again
      && CredentialAfter(again, false) == CredentialAfter(words, false)
      && Join(again) == Join(RedactAll(words, false))
    decreases |words|
  {
    if words != [] {
      var n := |words| - 1;
      var init, last := words[..n], words[n];
      RedactedIsFixed(space, init);
      RedactNext(words, n);
      assert words[..n + 1] == words;
      var credential := CredentialAfter(init, false);
      WordIsFixed(space, last, credential);
      AppendFixed(space, RedactAll(init, false), RedactWord(last, credential), credential);
    }
  }

  lemma AppendFixed(space: Space, texts: seq<string>, next: Redaction, credential: bool)
    requires var again := AllWords(space, texts);
      RedactAll(again, false) == again && CredentialAfter(again, false) == credential && Join(again) == Join(texts)
    requires Fixed(space, next.text, credential, next.credential)
    requires texts != [] ==> AllWords(space, texts) != []
    ensures var again := AllWords(space, texts + [next.text]);
      && RedactAll(again, false) == again && CredentialAfter(again, false) == next.credential
      && Join(again) == Join(texts + [next.text]) && again != []
  {
    var before, words := AllWords(space, texts), Words(space, next.text);
    assert (texts + [next.text])[..|texts|] == texts;
    RedactAllConcat(before, words, false);
    assert words != [];
    JoinConcat(before, words);
    JoinConcat(texts, [next.text]);
    assert texts == [] ==> before == [];
  }

  /** Where the full redaction fits the bound, running it again changes nothing. */
  lemma RedactionIsIdempotent(space: Space, text: string, maxChars: nat)
    requires IsSpace(space) && |FullRedaction(space, text)| <= maxChars
    ensures var once := Take(FullRedaction(space, text), maxChars);
      Take(FullRedaction(space, once), maxChars) == once
  {
    WordsAreWords(space, text);
    RedactedIsFixed(space, Words(space, text));
    WordsOfJoin(space, RedactAll(Words(space, text), false));
  }

  lemma NoUrl(w: string)
    requires ':' !in w
    ensures StripUrlSecretsFromWord(w).None?
  {
    forall j: nat ensures !At(Lower(w), HTTPS, j) && !At(Lower(w), HTTP, j) {
      NoColon(w, HTTPS, 5, j);
      NoColon(w, HTTP, 4, j);
    }
  }

  /** A text of one word that carries no cue, no address and no url. */
  lemma SimpleWord(space: Space, w: string)
    requires IsSpace(space) && IsWord(space, w) && w[0] == 'a' && |w| > 1 && w[1] == 'a' && '@' !in w && ':' !in w
    ensures FullRedaction(space, w) == if IsToken(w) then "[redacted-token]" else w
  {
    OneWord(space, w);
    NoUrl(w);
    assert AUTHORIZATION[1] == 'u' && BEARER[0] == 'b' && Lower(w)[1] == 'a';
    NoCue(w);
    RedactOne(w, false);
  }

  lemma TokenHidden(space: Space, token: string)
    requires IsSpace(space) && |token| >= 32 && token[0] == 'a' && token[1] == 'a'
    requires forall c :: c in token ==> IsTokenChar(c)
    ensures FullRedaction(space, token) == "[redacted-token]"
  {
    assert IsTokenChar(token[|token| - 1]) by { assert token[|token| - 1] in token; }
    assert Trimmed(token) == token;
    PrintableIsWord(space, token);
    SimpleWord(space, token);
  }

  lemma TokenBehindMark(space: Space, token: string, text: string)
    requires IsSpace(space) && |token| >= 32 && token[0] == 'a' && token[1] == 'a' && text == token + "!b"
    requires forall c :: c in token ==> IsTokenChar(c)
    ensures FullRedaction(space, text) == text
  {
    assert text[|text| - 1] == 'b' && Trimmed(text) == text;
    assert text[|token|] == '!' && !IsTokenChar('!');
    assert forall i :: 0 <= i < |token| ==> text[i] == token[i] && IsTokenChar(token[i]);
    assert forall c :: c in text ==> IsTokenChar(c) || c == '!';
    PrintableIsWord(space, text);
    SimpleWord(space, text);
  }

  /** A redaction that is cut can change when it is run again: the cut may leave the beginning of
      a harmless word looking like a token. */
  lemma CutRedactionMayChange(space: Space) returns (text: string)
    requires IsSpace(space)
    ensures var once := Take(FullRedaction(space, text), 32); Take(FullRedaction(space, once), 32) != once
  {
    var token: string := seq(32, _ => 'a');
    text := token + "!b";
    TokenHidden(space, token);
    TokenBehindMark(space, token, text);
    assert text[..32] == token;
    assert Take(FullRedaction(space, text), 32) == token;
    assert token[0] == 'a' && "[redacted-token]"[0] == '[';
  }

  // ---- what never gets through ---------------------------------------------------------

  predicate HasAddress(s: string) {
    '@' in s && '.' in s
  }

  lemma CueHasNoAddress(w: string, cue: string)
    requires Lower(w) == cue && '@' !in cue
    ensures '@' !in w
  {
    assert forall i :: 0 <= i < |w| ==> cue[i] in cue;
    assert forall i :: 0 <= i < |w| && w[i] == '@' ==> cue[i] == '@';
  }

  lemma PlainWordHidesAddress(w: string)
    ensures !HasAddress(RedactPlainWord(w))
  {
    if !HasAddress(w) && StripUrlSecretsFromWord(w).Some? {
      StrippedUrlIsFixed(w);
      var out := StripUrlSecretsFromWord(w).value;
      assert forall i :: 0 <= i < |out| ==> out[i] == w[i];
      assert forall c :: c in out ==> c in w;
    }
  }

  lemma MarksHideAddress()
    ensures '@' !in "Authorization: Bearer" && '@' !in "Authorization: [redacted]"
    ensures '@' !in "Bearer [redacted]" && '@' !in REDACTED
  {
  }

  lemma WordHidesAddress(w: string, credential: bool)
    ensures !HasAddress(RedactWord(w, credential).text)
  {
    var out := RedactWord(w, credential).text;
    MarksHideAddress();
    if Lower(w) == BEARER {
      CueHasNoAddress(w, BEARER);
    } else if Lower(w) == AUTHORIZATION {
      CueHasNoAddress(w, AUTHORIZATION);
    } else if !credential && !StartsWith(Lower(w), AUTHORIZATION) && !StartsWith(Lower(w), BEARER) {
      PlainWordHidesAddress(w);
      NoCue(w);
    }
  }

  /** No word of the log has the shape of a mail address, whatever was sent. */
  lemma NoAddressGetsThrough(words: seq<string>, i: nat)
    requires i < |words|
    ensures !HasAddress(RedactAll(words, false)[i])
  {
    RedactAt(words, i);
    WordHidesAddress(words[i], CredentialAfter(words[..i], false));
  }

  lemma RedactAt(words: seq<string>, i: nat)
    requires i < |words|
    ensures RedactAll(words, false)[i] == RedactWord(words[i], CredentialAfter(words[..i], false)).text
  {
    TextsAt(RedactWord, words, false, i);
  }

  lemma TextsAt(step: (string, bool) -> Redaction, words: seq<string>, credential: bool, i: nat)
    requires i < |words|
    ensures Texts(step, words, credential)[i] == step(words[i], FlagAfter(step, words[..i], credential)).text
  {
    assert words == words[..i] + words[i..];
    TextsConcat(step, words[..i], words[i..], credential);
  }

  /** A bearer mark, or an authorization header that is not itself hidden as a credential. */
  predicate IsCue(words: seq<string>, i: nat)
    requires i < |words|
  {
    Lower(words[i]) == BEARER || (Lower(words[i]) == AUTHORIZATION && !CredentialAfter(words[..i], false))
  }

  lemma CuesAnnounceCredentials(words: seq<string>, i: nat)
    requires i < |words| && IsCue(words, i)
    ensures CredentialAfter(words[..i + 1], false)
  {
    RedactNext(words, i);
  }

  /** From a cue on, through any bearer marks, the next word is a credential. */
  lemma {:induction false} StillAnnounced(words: seq<string>, i: nat, j: nat)
    requires i < j <= |words| && IsCue(words, i) && forall k :: i < k < j ==> Lower(words[k]) == BEARER
    ensures CredentialAfter(words[..j], false)
    decreases j
  {
    if j == i + 1 {
      CuesAnnounceCredentials(words, i);
    } else {
      StillAnnounced(words, i, j - 1);
      CuesAnnounceCredentials(words, j - 1);
    }
  }

  /** The first word after a cue that is not another bearer mark is hidden, whatever it is. */
  lemma CredentialsAreHidden(words: seq<string>, i: nat, j: nat)
    requires i < j < |words| && IsCue(words, i)
    requires (forall k :: i < k < j ==> Lower(words[k]) == BEARER) && Lower(words[j]) != BEARER
    ensures RedactAll(words, false)[j] == REDACTED
  {
    StillAnnounced(words, i, j);
    RedactAt(words, j);
  }
}
