/** The two forms of a direct message: plain text, normalised, or an envelope the server cannot
    read and only measures. An accepted request always makes a row the table's constraints allow. */
module MessageForms {
  import opened Orders
  import opened Uuids
  import opened Octets

  const MAX_MESSAGE_CHARACTERS := 2_000

  /** The Unicode properties the validation asks about. */
  datatype Alphabet = Alphabet(space: char -> bool, control: char -> bool) {
    ghost predicate Valid() {
      space(' ') && space('\n') && space('\r') && space('\t')
    }
  }

  // ---- plain text ----------------------------------------------------------------------

  function TrimStart(a: Alphabet, s: string): string {
    if s != "" && a.space(s[0]) then TrimStart(a, s[1..]) else s
  }

  function TrimEnd(a: Alphabet, s: string): string {
    if s != "" && a.space(s[|s| - 1]) then TrimEnd(a, s[..|s| - 1]) else s
  }

  /** replace("\r\n", "\n") */
  function JoinBreaks(s: string): string {
    if |s| >= 2 && s[0] == '\r' && s[1] == '\n' then "\n" + JoinBreaks(s[2..])
    else if s == "" then ""
    else [s[0]] + JoinBreaks(s[1..])
  }

  /** replace('\r', "\n") */
  function PlainBreaks(s: string): string {
    if s == "" then "" else [if s[0] == '\r' then '\n' else s[0]] + PlainBreaks(s[1..])
  }

  function NormalizedBody(a: Alphabet, s: string): string {
    OneBreak(TrimEnd(a, TrimStart(a, s)))
  }

  predicate ValidBody(a: Alphabet, s: string) {
    var normalized := NormalizedBody(a, s);
    && 1 <= |normalized| <= MAX_MESSAGE_CHARACTERS
    && forall c :: c in normalized && a.control(c) ==> c == '\n' || c == '\t'
  }

  predicate IsNormal(a: Alphabet, s: string) {
    '\r' !in s && (s == "" || (!a.space(s[0]) && !a.space(s[|s| - 1])))
  }

  lemma {:induction false} TrimStartShape(a: Alphabet, s: string)
    ensures var t := TrimStart(a, s); t == "" || (!a.space(t[0]) && t[|t| - 1] == s[|s| - 1])
    ensures s == "" || !a.space(s[0]) ==> TrimStart(a, s) == s
    decreases |s|
  {
    if s != "" && a.space(s[0]) { TrimStartShape(a, s[1..]); }
  }

  lemma {:induction false} TrimEndShape(a: Alphabet, s: string)
    requires s == "" || !a.space(s[0])
    ensures var t := TrimEnd(a, s); t == "" || (!a.space(t[|t| - 1]) && t[0] == s[0])
    ensures s == "" || !a.space(s[|s| - 1]) ==> TrimEnd(a, s) == s
    decreases |s|
  {
    if s != "" && a.space(s[|s| - 1]) {
      var rest := s[..|s| - 1];
      assert rest == "" || rest[0] == s[0];
      TrimEndShape(a, rest);
    }
  }

  function OneBreak(s: string): string {
    PlainBreaks(JoinBreaks(s))
  }

  function FirstBreak(s: string): nat {
    if |s| >= 2 && s[0] == '\r' && s[1] == '\n' then 2 else 1
  }

  lemma OneBreakUnfolds(s: string)
    requires s != ""
    ensures FirstBreak(s) <= |s|
    ensures OneBreak(s) == [if s[0] == '\r' then '\n' else s[0]] + OneBreak(s[FirstBreak(s)..])
  {
    var joined := JoinBreaks(s);
    assert joined == [if FirstBreak(s) == 2 then '\n' else s[0]] + JoinBreaks(s[FirstBreak(s)..]);
    assert joined[1..] == JoinBreaks(s[FirstBreak(s)..]);
  }

  /** Joining and replacing breaks keeps both ends of a text that has no break there. */
  lemma {:induction false} BreaksKeepEnds(a: Alphabet, s: string)
    requires a.Valid() && s != "" && !a.space(s[|s| - 1])
    ensures var t := OneBreak(s);
      && '\r' !in t && t != "" && t[|t| - 1] == s[|s| - 1] && (!a.space(s[0]) ==> t[0] == s[0])
    decreases |s|
  {
    OneBreakUnfolds(s);
    var n := FirstBreak(s);
    if n < |s| {
      BreaksKeepEnds(a, s[n..]);
    } else {
      assert OneBreak(s[n..]) == "";
    }
  }

  lemma {:induction false} BreaksDone(s: string)
    requires '\r' !in s
    ensures OneBreak(s) == s
    decreases |s|
  {
    if s != "" {
      OneBreakUnfolds(s);
      BreaksDone(s[1..]);
    }
  }

  /** Each of the three line breaks becomes one newline, whatever stands around it. */
  lemma {:induction false} BreaksBecomeNewlines(s: string, lineBreak: string, t: string)
    requires IsBreakBetween(s, lineBreak, t)
    ensures OneBreak(s + lineBreak + t) == OneBreak(s) + "\n" + OneBreak(t)
    decreases |s|
  {
    if s == "" {
      FirstIsBreak(lineBreak, t);
      assert s + lineBreak + t == lineBreak + t;
      assert OneBreak(s) + "\n" + OneBreak(t) == "\n" + OneBreak(t);
    } else {
      var n := FirstBreak(s);
      OneBreakUnfolds(s);
      BreakLater(s, lineBreak, t);
      BreaksBecomeNewlines(s[n..], lineBreak, t);
    }
  }

  /** Not part of a longer break. */
  predicate IsBreakBetween(s: string, lineBreak: string, t: string) {
    || lineBreak == "\r\n"
    || (lineBreak == "\r" && (t == "" || t[0] != '\n'))
    || (lineBreak == "\n" && (s == "" || s[|s| - 1] != '\r'))
  }

  lemma FirstIsBreak(lineBreak: string, t: string)
    requires IsBreakBetween("", lineBreak, t)
    ensures OneBreak(lineBreak + t) == "\n" + OneBreak(t)
  {
    OneBreakUnfolds(lineBreak + t);
    assert (lineBreak + t)[|lineBreak|..] == t;
  }

  lemma BreakLater(s: string, lineBreak: string, t: string)
    requires s != "" && IsBreakBetween(s, lineBreak, t)
    ensures var n := FirstBreak(s); n <= |s| && IsBreakBetween(s[n..], lineBreak, t)
    ensures OneBreak(s + lineBreak + t)
         == [if s[0] == '\r' then '\n' else s[0]] + OneBreak(s[FirstBreak(s)..] + lineBreak + t)
  {
    var whole := s + lineBreak + t;
    var n := FirstBreak(s);
    OneBreakUnfolds(whole);
    assert FirstBreak(whole) == n;
    assert whole[n..] == s[n..] + lineBreak + t;
  }

  /** What is stored is trimmed and has plain line breaks only. */
  lemma NormalizedIsNormal(a: Alphabet, s: string)
    requires a.Valid()
    ensures IsNormal(a, NormalizedBody(a, s))
  {
    var start := TrimStart(a, s);
    TrimStartShape(a, s);
    TrimEndShape(a, start);
    var trimmed := TrimEnd(a, start);
    if trimmed != "" { BreaksKeepEnds(a, trimmed); }
  }

  predicate Blank(a: Alphabet, s: string) {
    forall c :: c in s ==> a.space(c)
  }

  lemma {:induction false} LeadIsTrimmed(a: Alphabet, lead: string, t: string)
    requires Blank(a, lead) && (t == "" || !a.space(t[0]))
    ensures TrimStart(a, lead + t) == t
    decreases |lead|
  {
    if lead == "" {
      assert lead + t == t;
    } else {
      assert lead[0] in lead && (lead + t)[1..] == lead[1..] + t;
      LeadIsTrimmed(a, lead[1..], t);
    }
  }

  lemma {:induction false} TrailIsTrimmed(a: Alphabet, t: string, trail: string)
    requires Blank(a, trail) && (t == "" || !a.space(t[|t| - 1]))
    ensures TrimEnd(a, t + trail) == t
    decreases |trail|
  {
    if trail == "" {
      assert t + trail == t;
    } else {
      var n := |trail| - 1;
      assert trail[n] in trail && (t + trail)[..|t + trail| - 1] == t + trail[..n];
      TrailIsTrimmed(a, t, trail[..n]);
    }
  }

  /** White space around a text goes, all of it and nothing more. */
  lemma WhiteSpaceIsTrimmed(a: Alphabet, lead: string, t: string, trail: string)
    requires Blank(a, lead) && Blank(a, trail) && (t == "" || (!a.space(t[0]) && !a.space(t[|t| - 1])))
    ensures NormalizedBody(a, lead + t + trail) == OneBreak(t)
  {
    if t == "" {
      assert lead + t + trail == (lead + trail) + "";
      LeadIsTrimmed(a, lead + trail, "");
    } else {
      assert lead + t + trail == lead + (t + trail);
      LeadIsTrimmed(a, lead, t + trail);
      TrailIsTrimmed(a, t, trail);
    }
  }

  /** A text in normal form is stored as it is, and nothing else is: normalising twice is
      normalising once, and a retry compares equal to what its first send stored. */
  lemma NormalFormsAreFixed(a: Alphabet, s: string)
    requires a.Valid()
    ensures NormalizedBody(a, s) == s <==> IsNormal(a, s)
    ensures NormalizedBody(a, NormalizedBody(a, s)) == NormalizedBody(a, s)
  {
    NormalizedIsNormal(a, s);
    NormalIsFixed(a, NormalizedBody(a, s));
    if IsNormal(a, s) { NormalIsFixed(a, s); }
  }

  lemma NormalIsFixed(a: Alphabet, s: string)
    requires IsNormal(a, s)
    ensures NormalizedBody(a, s) == s
  {
    TrimStartShape(a, s);
    TrimEndShape(a, s);
    BreaksDone(s);
  }

  // ---- envelopes -----------------------------------------------------------------------

  datatype Envelope = Envelope(
    ciphertext: string, nonce: string, senderEphemeralKey: string, senderCopy: string,
    frankingCommitment: string, frankingSignature: string)

  datatype Decoded = Decoded(
    ciphertext: Bytes, nonce: Bytes, senderEphemeralKey: Bytes, senderCopy: Bytes,
    frankingCommitment: Bytes, frankingSignature: Bytes)

  function Digit(c: char): (d: Option<byte>)
    ensures d.Some? ==> d.value < 16
  {
    if '0' <= c <= '9' then Some((c as int - '0' as int) as byte)
    else if 'a' <= c <= 'f' then Some((c as int - 'a' as int + 10) as byte)
    else if 'A' <= c <= 'F' then Some((c as int - 'A' as int + 10) as byte)
    else None
  }

  function DecodeHex(s: string): (r: Option<Bytes>)
    ensures r.Some? ==> |s| == 2 * |r.value|
  {
    if s == "" then Some([])
    else if |s| == 1 || Digit(s[0]).None? || Digit(s[1]).None? then None
    else
      match DecodeHex(s[2..])
      case None => None
      case Some(rest) => Some([Digit(s[0]).value * 16 + Digit(s[1]).value] + rest)
  }

  function EncodeHex(bytes: Bytes): string {
    if bytes == [] then ""
    else [HEX_DIGITS[bytes[0] as int / 16], HEX_DIGITS[bytes[0] as int % 16]] + EncodeHex(bytes[1..])
  }

  /** Bytes serialised for a client decode to themselves. */
  lemma {:induction false} HexRoundTrip(bytes: Bytes)
    ensures DecodeHex(EncodeHex(bytes)) == Some(bytes)
    decreases |bytes|
  {
    if bytes != [] {
      HexRoundTrip(bytes[1..]);
      PairOf(bytes[0]);
      var high, low := HEX_DIGITS[bytes[0] as int / 16], HEX_DIGITS[bytes[0] as int % 16];
      DecodePair(high, low, EncodeHex(bytes[1..]), bytes[0], bytes[1..]);
      assert [bytes[0]] + bytes[1..] == bytes;
    }
  }

  lemma DecodePair(a: char, b: char, rest: string, first: byte, others: Bytes)
    requires Digit(a).Some? && Digit(b).Some? && Digit(a).value * 16 + Digit(b).value == first
    requires DecodeHex(rest) == Some(others)
    ensures DecodeHex([a, b] + rest) == Some([first] + others)
  {
    assert ([a, b] + rest)[2..] == rest;
  }

  const UPPER_DIGITS := "0123456789ABCDEF"

  /** Pairs of hexadecimal digits, in either case. */
  predicate IsHex(s: string) {
    |s| % 2 == 0 && forall c :: c in s ==> '0' <= c <= '9' || 'A' <= c <= 'F' || 'a' <= c <= 'f'
  }

  predicate StandsFor(c: char, n: nat) {
    n < 16 && (c == HEX_DIGITS[n] || c == UPPER_DIGITS[n])
  }

  lemma DigitStandsFor(c: char)
    requires Digit(c).Some?
    ensures StandsFor(c, Digit(c).value as nat)
  {
    assert UPPER_DIGITS == "0123456789" + "ABCDEF" && HEX_DIGITS == "0123456789" + "abcdef";
    if '0' <= c <= '9' {
      assert HEX_DIGITS[c as int - '0' as int] == c;
    } else if 'a' <= c <= 'f' {
      assert HEX_DIGITS[c as int - 'a' as int + 10] == c;
    } else if 'A' <= c <= 'F' {
      assert UPPER_DIGITS[c as int - 'A' as int + 10] == c;
    }
  }

  lemma HexByPairs(s: string)
    requires |s| >= 2
    ensures IsHex(s) <==> IsHex([s[0]] + [s[1]]) && IsHex(s[2..])
    ensures IsHex([s[0]] + [s[1]]) <==> Digit(s[0]).Some? && Digit(s[1]).Some?
  {
    var pair := [s[0]] + [s[1]];
    assert s == pair + s[2..];
    assert pair[0] in pair && pair[1] in pair;
    assert forall c :: c in s <==> c in pair || c in s[2..];
  }

  /** Exactly the texts of paired hexadecimal digits decode. */
  lemma {:induction false} HexTexts(s: string)
    ensures DecodeHex(s).Some? <==> IsHex(s)
    decreases |s|
  {
    if |s| >= 2 {
      HexTexts(s[2..]);
      HexByPairs(s);
    }
  }

  predicate Reads(high: char, low: char, b: byte) {
    StandsFor(high, b as int / 16) && StandsFor(low, b as int % 16)
  }

  lemma PairReads(high: char, low: char)
    requires Digit(high).Some? && Digit(low).Some?
    ensures Reads(high, low, Digit(high).value * 16 + Digit(low).value)
  {
    DigitStandsFor(high);
    DigitStandsFor(low);
    var h, l := Digit(high).value as int, Digit(low).value as int;
    assert (h * 16 + l) / 16 == h && (h * 16 + l) % 16 == l;
  }

  lemma FirstByte(s: string)
    requires DecodeHex(s).Some? && s != ""
    ensures Digit(s[0]).Some? && Digit(s[1]).Some? && DecodeHex(s[2..]).Some?
    ensures DecodeHex(s).value == [Digit(s[0]).value * 16 + Digit(s[1]).value] + DecodeHex(s[2..]).value
  {
  }

  /** Every byte is its pair of digits, the high one first. */
  lemma {:induction false} DecodedByte(s: string, bytes: Bytes, i: nat)
    requires DecodeHex(s) == Some(bytes) && i < |bytes|
    ensures Reads(s[2 * i], s[2 * i + 1], bytes[i])
    decreases i
  {
    FirstByte(s);
    if i == 0 {
      PairReads(s[0], s[1]);
    } else {
      var rest := s[2..];
      DecodedByte(rest, bytes[1..], i - 1);
      assert rest[2 * (i - 1)] == s[2 * i] && rest[2 * (i - 1) + 1] == s[2 * i + 1];
    }
  }

  lemma PairOf(b: byte)
    ensures var high, low := Digit(HEX_DIGITS[b as int / 16]), Digit(HEX_DIGITS[b as int % 16]);
      high.Some? && low.Some? && high.value * 16 + low.value == b
  {
    DigitOf(b as int / 16);
    DigitOf(b as int % 16);
  }

  lemma DigitOf(n: nat)
    requires n < 16
    ensures Digit(HEX_DIGITS[n]) == Some(n as byte)
  {
    assert HEX_DIGITS == "0123456789abcdef";
  }

  function Field(value: string, least: nat, most: nat): (r: Option<Bytes>)
    ensures r.Some? ==> least <= |r.value| <= most
  {
    match DecodeHex(value)
    case None => None
    case Some(bytes) => if least <= |bytes| <= most then Some(bytes) else None
  }

  function Decode(e: Envelope): Option<Decoded> {
    var ciphertext := Field(e.ciphertext, 16, 16384);
    var nonce := Field(e.nonce, 12, 12);
    var key := Field(e.senderEphemeralKey, 32, 32);
    var copy := Field(e.senderCopy, 48, 48);
    var commitment := Field(e.frankingCommitment, 32, 32);
    var signature := Field(e.frankingSignature, 64, 64);
    if ciphertext.Some? && nonce.Some? && key.Some? && copy.Some? && commitment.Some? && signature.Some? then
      Some(Decoded(ciphertext.value, nonce.value, key.value, copy.value, commitment.value, signature.value))
    else None
  }

  lemma FieldTexts(s: string, least: nat, most: nat)
    ensures Field(s, least, most).Some? <==> IsHex(s) && 2 * least <= |s| <= 2 * most
  {
    HexTexts(s);
  }

  /** Exactly the envelopes whose fields are hexadecimal and have their algorithms' lengths decode,
      each field to what its own text says. */
  lemma EnvelopesThatDecode(e: Envelope)
    ensures Decode(e).Some? <==>
      && IsHex(e.ciphertext) && 32 <= |e.ciphertext| <= 32768
      && IsHex(e.nonce) && |e.nonce| == 24
      && IsHex(e.senderEphemeralKey) && |e.senderEphemeralKey| == 64
      && IsHex(e.senderCopy) && |e.senderCopy| == 96
      && IsHex(e.frankingCommitment) && |e.frankingCommitment| == 64
      && IsHex(e.frankingSignature) && |e.frankingSignature| == 128
    ensures Decode(e).Some? ==>
      && DecodeHex(e.ciphertext) == Some(Decode(e).value.ciphertext)
      && DecodeHex(e.nonce) == Some(Decode(e).value.nonce)
      && DecodeHex(e.senderEphemeralKey) == Some(Decode(e).value.senderEphemeralKey)
      && DecodeHex(e.senderCopy) == Some(Decode(e).value.senderCopy)
      && DecodeHex(e.frankingCommitment) == Some(Decode(e).value.frankingCommitment)
      && DecodeHex(e.frankingSignature) == Some(Decode(e).value.frankingSignature)
  {
    FieldTexts(e.ciphertext, 16, 16384);
    FieldTexts(e.nonce, 12, 12);
    FieldTexts(e.senderEphemeralKey, 32, 32);
    FieldTexts(e.senderCopy, 48, 48);
    FieldTexts(e.frankingCommitment, 32, 32);
    FieldTexts(e.frankingSignature, 64, 64);
  }

  // ---- requests and rows ---------------------------------------------------------------

  datatype SendRequest =
    | Encrypted(clientNonce: Uuid, envelope: Envelope)
    | Plaintext(clientNonce: Uuid, body: string, strayFields: nat)

  /** A validated request, ready to store. */
  datatype Content = Plain(body: string) | Sealed(envelope: Decoded)

  function Validate(a: Alphabet, q: SendRequest): Option<Content> {
    match q
    case Plaintext(_, body, strayFields) =>
      if strayFields > 0 || !ValidBody(a, body) then None else Some(Plain(NormalizedBody(a, body)))
    case Encrypted(_, envelope) =>
      match Decode(envelope)
      case None => None
      case Some(decoded) => Some(Sealed(decoded))
  }

  datatype Row = Row(
    sender: Uuid, recipient: Uuid, clientNonce: Uuid, body: Option<string>,
    ciphertext: Option<Bytes>, nonce: Option<Bytes>, senderEphemeralKey: Option<Bytes>, senderCopy: Option<Bytes>,
    frankingCommitment: Option<Bytes>, frankingSignature: Option<Bytes>, senderSigningKey: Option<Bytes>,
    createdAt: int)

  function NewRow(sender: Uuid, recipient: Uuid, nonce: Uuid, content: Content, key: Option<Bytes>, now: int): Row {
    match content
    case Plain(body) => Row(sender, recipient, nonce, Some(body), None, None, None, None, None, None, key, now)
    case Sealed(e) =>
      Row(sender, recipient, nonce, None, Some(e.ciphertext), Some(e.nonce), Some(e.senderEphemeralKey),
          Some(e.senderCopy), Some(e.frankingCommitment), Some(e.frankingSignature), key, now)
  }

  predicate HasLength(column: Option<Bytes>, n: nat) {
    column.Some? ==> |column.value| == n
  }

  predicate ExactlyOneForm(r: Row) {
    || (r.body.Some? && r.ciphertext.None? && r.nonce.None? && r.senderEphemeralKey.None?
        && r.frankingCommitment.None? && r.frankingSignature.None?)
    || (r.body.None? && r.ciphertext.Some? && r.nonce.Some? && r.senderEphemeralKey.Some?
        && r.frankingCommitment.Some? && r.frankingSignature.Some?)
  }

  /** The CHECK constraints of `direct_messages`. */
  predicate Constraints(r: Row) {
    && r.sender != r.recipient
    && (r.body.Some? ==> 1 <= |r.body.value| <= 2000)
    && ExactlyOneForm(r)
    && HasLength(r.nonce, 12) && HasLength(r.senderEphemeralKey, 32) && HasLength(r.senderCopy, 48)
    && HasLength(r.frankingCommitment, 32) && HasLength(r.frankingSignature, 64) && HasLength(r.senderSigningKey, 32)
    && (r.ciphertext.Some? ==> 16 <= |r.ciphertext.value| <= 16384)
    && (r.senderCopy.Some? ==> r.ciphertext.Some?)
  }

  /** The row a request asks for, column by column: the normalised text and no envelope, or no text
      and each field of the envelope in the column of its name. */
  predicate Records(a: Alphabet, q: SendRequest, r: Row) {
    && r.clientNonce == q.clientNonce
    && match q
       case Plaintext(_, body, strayFields) =>
         && strayFields == 0 && r.body == Some(NormalizedBody(a, body))
         && r.ciphertext.None? && r.nonce.None? && r.senderEphemeralKey.None? && r.senderCopy.None?
         && r.frankingCommitment.None? && r.frankingSignature.None?
       case Encrypted(_, e) =>
         && r.body.None?
         && r.ciphertext.Some? && r.ciphertext == DecodeHex(e.ciphertext)
         && r.nonce.Some? && r.nonce == DecodeHex(e.nonce)
         && r.senderEphemeralKey.Some? && r.senderEphemeralKey == DecodeHex(e.senderEphemeralKey)
         && r.senderCopy.Some? && r.senderCopy == DecodeHex(e.senderCopy)
         && r.frankingCommitment.Some? && r.frankingCommitment == DecodeHex(e.frankingCommitment)
         && r.frankingSignature.Some? && r.frankingSignature == DecodeHex(e.frankingSignature)
  }

  /** An accepted request makes exactly that row, with the sender, recipient, key and time given. */
  lemma AcceptedRequestsAreRecorded(
      a: Alphabet, q: SendRequest, sender: Uuid, recipient: Uuid, key: Option<Bytes>, now: int)
    requires Validate(a, q).Some?
    ensures var r := NewRow(sender, recipient, q.clientNonce, Validate(a, q).value, key, now);
      && Records(a, q, r)
      && r.sender == sender && r.recipient == recipient && r.senderSigningKey == key && r.createdAt == now
  {
    if q.Encrypted? { EnvelopesThatDecode(q.envelope); }
  }

  /** Which requests are accepted: a plain one without further fields whose normalised text has 1 to
      2,000 characters and no control characters but newlines and tabs, or an envelope that decodes. */
  lemma AcceptedRequests(a: Alphabet, q: SendRequest)
    ensures Validate(a, q).Some? <==>
      match q
      case Plaintext(_, body, strayFields) =>
        && strayFields == 0 && 0 < |NormalizedBody(a, body)| <= 2_000
        && forall c :: c in NormalizedBody(a, body) && c != '\n' && c != '\t' ==> !a.control(c)
      case Encrypted(_, e) => Decode(e).Some?
  {
  }

  /** An accepted request is never refused by the table: a caller gets a 400, not a 500. */
  lemma AcceptedRequestsFitTheTable(
      a: Alphabet, q: SendRequest, sender: Uuid, recipient: Uuid, key: Option<Bytes>, now: int)
    requires sender != recipient && HasLength(key, 32) && Validate(a, q).Some?
    ensures Constraints(NewRow(sender, recipient, q.clientNonce, Validate(a, q).value, key, now))
    ensures NewRow(sender, recipient, q.clientNonce, Validate(a, q).value, key, now).body.Some? <==> q.Plaintext?
  {
  }
}
