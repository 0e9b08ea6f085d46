/** The JPEG marker scanner, and the marker grammar of ITU-T T.81 (B.1.1.2, B.1.1.4, B.2.2) it
    reads: it answers exactly when the bytes are a start of image, then items, then a frame
    header, and it answers with that frame's size. */
module JpegScanner {
  import opened Orders
  import opened Octets

  datatype Dimensions = Dimensions(width: nat, height: nat)

  const SOI: Bytes := [0xff, 0xd8]
  const EOI: Bytes := [0xff, 0xd9]

  /** SOF0 to SOF15 without DHT (C4), JPG (C8) and DAC (CC). */
  predicate IsFrame(code: byte) {
    0xc0 <= code <= 0xcf && code != 0xc4 && code != 0xc8 && code != 0xcc
  }

  /** TEM and RST0 to RST7 carry no length. */
  predicate IsStandalone(code: byte) {
    code == 0x01 || 0xd0 <= code <= 0xd7
  }

  predicate EndsScan(code: byte) {
    code == 0xd9 || code == 0xda
  }

  /** The codes in full. */
  lemma MarkerCodes(code: byte)
    ensures IsFrame(code) <==>
      code in {0xc0, 0xc1, 0xc2, 0xc3, 0xc5, 0xc6, 0xc7, 0xc9, 0xca, 0xcb, 0xcd, 0xce, 0xcf}
    ensures IsStandalone(code) <==> code in {0x01, 0xd0, 0xd1, 0xd2, 0xd3, 0xd4, 0xd5, 0xd6, 0xd7}
    ensures EndsScan(code) <==> code in {0xda, 0xd9}
  {
  }

  function Word(bytes: Bytes, i: nat): (w: nat)
    requires i + 2 <= |bytes|
    ensures w < 0x1_0000
  {
    bytes[i] as nat * 0x100 + bytes[i + 1] as nat
  }

  function Nonzero(width: nat, height: nat): Option<Dimensions> {
    if width > 0 && height > 0 then Some(Dimensions(width, height)) else None
  }

  predicate StartsWith(bytes: Bytes, prefix: Bytes) {
    |prefix| <= |bytes| && bytes[..|prefix|] == prefix
  }

  predicate EndsWith(bytes: Bytes, suffix: Bytes) {
    |suffix| <= |bytes| && bytes[|bytes| - |suffix|..] == suffix
  }

  // ---- the scan ------------------------------------------------------------------------

  function SkipFill(bytes: Bytes, i: nat): (j: nat)
    requires i <= |bytes|
    ensures i <= j <= |bytes|
    ensures forall k :: i <= k < j ==> bytes[k] == 0xff
    ensures j < |bytes| ==> bytes[j] != 0xff
    decreases |bytes| - i
  {
    if i < |bytes| && bytes[i] == 0xff then SkipFill(bytes, i + 1) else i
  }

  function Scan(bytes: Bytes, offset: nat): Option<Dimensions>
    requires offset <= |bytes|
    decreases |bytes| - offset
  {
    if offset + 1 >= |bytes| - 2 then None
    else if bytes[offset] != 0xff then Scan(bytes, offset + 1)
    else
      var at := SkipFill(bytes, offset);
      if at >= |bytes| then None else Marker(bytes, at)
  }

  /** What the marker code at `at` asks for. */
  function Marker(bytes: Bytes, at: nat): Option<Dimensions>
    requires at < |bytes|
    decreases |bytes| - at, 0
  {
    var body := at + 1;
    if EndsScan(bytes[at]) then None
    else if IsStandalone(bytes[at]) then Scan(bytes, body)
    else if body + 2 > |bytes| then None
    else
      var length := Word(bytes, body);
      if length < 2 || body + length > |bytes| then None
      else if !IsFrame(bytes[at]) then Scan(bytes, body + length)
      else if length < 7 then None
      else Nonzero(Word(bytes, body + 5), Word(bytes, body + 3))
  }

  predicate IsJpeg(bytes: Bytes) {
    |bytes| >= 8 && StartsWith(bytes, SOI) && EndsWith(bytes, EOI)
  }

  /** The marks at either end. */
  lemma FileMarks(bytes: Bytes)
    ensures IsJpeg(bytes) <==>
      && |bytes| >= 8 && bytes[0] == 0xff && bytes[1] == 0xd8
      && bytes[|bytes| - 2] == 0xff && bytes[|bytes| - 1] == 0xd9
  {
    if |bytes| >= 8 {
      assert bytes[..2] == [bytes[0], bytes[1]];
      assert bytes[|bytes| - 2..] == [bytes[|bytes| - 2], bytes[|bytes| - 1]];
      assert StartsWith(bytes, SOI) <==> bytes[..2] == SOI;
      assert EndsWith(bytes, EOI) <==> bytes[|bytes| - 2..] == EOI;
    }
  }

  function ScanImage(bytes: Bytes): Option<Dimensions> {
    if IsJpeg(bytes) then Scan(bytes, 2) else None
  }

  /** The scanner as it runs: two nested loops over one offset, in bounds on every input. */
  method JpegDimensions(bytes: Bytes) returns (r: Option<Dimensions>)
    ensures r == ScanImage(bytes)
  {
    if !IsJpeg(bytes) {
      return None;
    }
    var offset := 2;
    while offset + 1 < |bytes| - 2
      invariant offset <= |bytes|
      invariant Scan(bytes, offset) == Scan(bytes, 2)
      decreases |bytes| - offset
    {
      if bytes[offset] != 0xff {
        offset := offset + 1;
        continue;
      }
      ghost var start := offset;
      while offset < |bytes| && bytes[offset] == 0xff
        invariant start <= offset <= |bytes|
        invariant offset > start || bytes[offset] == 0xff
        invariant SkipFill(bytes, offset) == SkipFill(bytes, start)
      {
        offset := offset + 1;
      }
      if offset >= |bytes| {
        return None;
      }
      var marker := bytes[offset];
      offset := offset + 1;
      if EndsScan(marker) {
        break;
      }
      if IsStandalone(marker) {
        continue;
      }
      if offset + 2 > |bytes| {
        return None;
      }
      var length := Word(bytes, offset);
      if length < 2 || offset + length > |bytes| {
        return None;
      }
      if IsFrame(marker) {
        if length < 7 {
          return None;
        }
        var height := Word(bytes, offset + 3);
        var width := Word(bytes, offset + 5);
        return Nonzero(width, height);
      }
      offset := offset + length;
    }
    return None;
  }

  // ---- the grammar ---------------------------------------------------------------------

  /** What may stand before the frame header. Fill bytes may precede any marker (B.1.1.2); `Stray`
      bytes are not in the standard, and the scanner steps over them. */
  datatype Item =
    | Stray(value: byte)
    | Standalone(fill: nat, code: byte)
    | Segment(fill: nat, code: byte, payload: Bytes)

  predicate Legal(item: Item) {
    match item
    case Stray(value) => value != 0xff
    case Standalone(_, code) => IsStandalone(code)
    case Segment(_, code, payload) =>
      code != 0xff && !IsStandalone(code) && !EndsScan(code) && !IsFrame(code) && |payload| + 2 < 0x1_0000
  }

  datatype Frame = Frame(fill: nat, code: byte, precision: byte, height: nat, width: nat, components: Bytes) {
    predicate Legal() {
      IsFrame(code) && height < 0x1_0000 && width < 0x1_0000 && |components| + 7 < 0x1_0000
    }
  }

  function Big(n: nat): Bytes
    requires n < 0x1_0000
  {
    [(n / 0x100) as byte, (n % 0x100) as byte]
  }

  function Fill(n: nat): Bytes {
    seq(n, _ => 0xff)
  }

  function Encode(item: Item): Bytes
    requires Legal(item)
  {
    match item
    case Stray(value) => [value]
    case Standalone(fill, code) => Fill(fill + 1) + [code]
    case Segment(fill, code, payload) => Fill(fill + 1) + [code] + Big(|payload| + 2) + payload
  }

  predicate AllLegal(items: seq<Item>) {
    forall i :: 0 <= i < |items| ==> Legal(items[i])
  }

  function EncodeAll(items: seq<Item>): Bytes
    requires AllLegal(items)
  {
    if items == [] then [] else Encode(items[0]) + EncodeAll(items[1..])
  }

  function EncodeFrame(frame: Frame): Bytes
    requires frame.Legal()
  {
    Fill(frame.fill + 1) + [frame.code] + Big(|frame.components| + 7)
    + [frame.precision] + Big(frame.height) + Big(frame.width) + frame.components
  }

  /** `rest` is items, a frame header of a non-empty image, and anything after. */
  ghost predicate Reads(rest: Bytes, items: seq<Item>, frame: Frame, tail: Bytes) {
    && AllLegal(items)
    && frame.Legal() && frame.width > 0 && frame.height > 0
    && rest == EncodeAll(items) + EncodeFrame(frame) + tail
  }

  // ---- every grammatical image is measured ---------------------------------------------

  lemma {:induction false} SkipsExactly(bytes: Bytes, i: nat, n: nat)
    requires i + n < |bytes| && bytes[i + n] != 0xff
    requires forall k :: i <= k < i + n ==> bytes[k] == 0xff
    ensures SkipFill(bytes, i) == i + n
    decreases n
  {
    if n > 0 { SkipsExactly(bytes, i + 1, n - 1); }
  }

  lemma WordOf(bytes: Bytes, i: nat, n: nat)
    requires n < 0x1_0000 && i + 2 <= |bytes| && bytes[i] == Big(n)[0] && bytes[i + 1] == Big(n)[1]
    ensures Word(bytes, i) == n
  {
  }

  lemma SegmentFields(item: Item)
    requires item.Segment? && Legal(item)
    ensures var text := Encode(item); var n := item.fill + 1; var length := Big(|item.payload| + 2);
      && |text| == n + 3 + |item.payload|
      && (forall k :: 0 <= k < n ==> text[k] == 0xff) && text[n] == item.code
      && text[n + 1] == length[0] && text[n + 2] == length[1]
  {
  }

  lemma StandaloneFields(item: Item)
    requires item.Standalone? && Legal(item)
    ensures var text := Encode(item); var n := item.fill + 1;
      |text| == n + 1 && (forall k :: 0 <= k < n ==> text[k] == 0xff) && text[n] == item.code
  {
  }

  lemma FrameFields(frame: Frame)
    requires frame.Legal()
    ensures var text := EncodeFrame(frame); var n := frame.fill + 1; var length := Big(|frame.components| + 7);
      && |text| == n + 8 + |frame.components|
      && (forall k :: 0 <= k < n ==> text[k] == 0xff) && text[n] == frame.code
      && text[n + 1] == length[0] && text[n + 2] == length[1]
      && text[n + 4] == Big(frame.height)[0] && text[n + 5] == Big(frame.height)[1]
      && text[n + 6] == Big(frame.width)[0] && text[n + 7] == Big(frame.width)[1]
  {
  }

  lemma SliceAt(bytes: Bytes, offset: nat, text: Bytes)
    requires offset + |text| <= |bytes| && bytes[offset..offset + |text|] == text
    ensures forall k :: 0 <= k < |text| ==> text[k] == bytes[offset + k]
  {
  }

  /** The scanner steps over an item as a whole. */
  lemma ScanStepsOver(bytes: Bytes, offset: nat, item: Item)
    requires Legal(item) && offset + |Encode(item)| + 9 <= |bytes|
    requires bytes[offset..offset + |Encode(item)|] == Encode(item)
    ensures Scan(bytes, offset) == Scan(bytes, offset + |Encode(item)|)
  {
    SliceAt(bytes, offset, Encode(item));
    match item
    case Stray(value) => assert Encode(item)[0] == value;
    case Standalone(fill, code) =>
      StandaloneFields(item);
      FillThenCode(bytes, offset, Encode(item), fill + 1);
    case Segment(fill, code, payload) =>
      SegmentFields(item);
      FillThenCode(bytes, offset, Encode(item), fill + 1);
      WordOf(bytes, offset + fill + 2, |payload| + 2);
  }

  lemma FillThenCode(bytes: Bytes, offset: nat, text: Bytes, n: nat)
    requires 0 < n < |text| && offset + |text| <= |bytes|
    requires forall k :: 0 <= k < |text| ==> text[k] == bytes[offset + k]
    requires text[n] != 0xff && forall k :: 0 <= k < n ==> text[k] == 0xff
    ensures SkipFill(bytes, offset) == offset + n && bytes[offset + n] == text[n] && bytes[offset] == 0xff
  {
    forall k | offset <= k < offset + n ensures bytes[k] == 0xff {
      assert text[k - offset] == bytes[offset + (k - offset)];
    }
    SkipsExactly(bytes, offset, n);
  }

  lemma ScanReadsFrame(bytes: Bytes, offset: nat, frame: Frame)
    requires frame.Legal() && offset + |EncodeFrame(frame)| <= |bytes|
    requires bytes[offset..offset + |EncodeFrame(frame)|] == EncodeFrame(frame)
    ensures Scan(bytes, offset) == Nonzero(frame.width, frame.height)
  {
    var at := offset + frame.fill + 1;
    SliceAt(bytes, offset, EncodeFrame(frame));
    FrameFields(frame);
    FillThenCode(bytes, offset, EncodeFrame(frame), frame.fill + 1);
    WordOf(bytes, at + 1, |frame.components| + 7);
    WordOf(bytes, at + 4, frame.height);
    WordOf(bytes, at + 6, frame.width);
  }

  lemma PieceAt(bytes: Bytes, offset: nat, text: Bytes, more: Bytes)
    requires offset <= |bytes| && bytes[offset..] == text + more
    ensures offset + |text| <= |bytes|
    ensures bytes[offset..offset + |text|] == text && bytes[offset + |text|..] == more
  {
    assert |bytes[offset..]| == |text| + |more|;
    assert bytes[offset..offset + |text|] == bytes[offset..][..|text|];
    assert bytes[offset + |text|..] == bytes[offset..][|text|..];
  }

  lemma FrameLength(frame: Frame)
    requires frame.Legal()
    ensures |EncodeFrame(frame)| >= 9
  {
    FrameFields(frame);
  }

  lemma ReadsFirst(bytes: Bytes, offset: nat, items: seq<Item>, frame: Frame, tail: Bytes) returns (next: nat)
    requires offset <= |bytes| && items != [] && Reads(bytes[offset..], items, frame, tail)
    ensures next == offset + |Encode(items[0])| && next + 9 <= |bytes| && bytes[offset..next] == Encode(items[0])
    ensures Reads(bytes[next..], items[1..], frame, tail)
  {
    next := offset + |Encode(items[0])|;
    var text, others, header := Pieces(bytes[offset..], items, frame, tail);
    TextFirst(bytes, offset, text, others, header, tail);
  }

  lemma Pieces(rest: Bytes, items: seq<Item>, frame: Frame, tail: Bytes)
      returns (text: Bytes, others: Bytes, header: Bytes)
    requires items != [] && Reads(rest, items, frame, tail)
    ensures AllLegal(items[1..]) && rest == (text + others) + header + tail && |header| >= 9
    ensures text == Encode(items[0]) && others == EncodeAll(items[1..]) && header == EncodeFrame(frame)
  {
    FrameLength(frame);
    FirstOfAll(items);
    text, others, header := Encode(items[0]), EncodeAll(items[1..]), EncodeFrame(frame);
  }

  lemma FirstOfAll(items: seq<Item>)
    requires items != [] && AllLegal(items)
    ensures AllLegal(items[1..]) && EncodeAll(items) == Encode(items[0]) + EncodeAll(items[1..])
  {
  }

  lemma TextFirst(bytes: Bytes, offset: nat, text: Bytes, rest: Bytes, header: Bytes, tail: Bytes)
    requires offset <= |bytes| && bytes[offset..] == (text + rest) + header + tail && |header| >= 9
    ensures offset + |text| + 9 <= |bytes| && bytes[offset..offset + |text|] == text
    ensures bytes[offset + |text|..] == rest + header + tail
  {
    Regroup(text, rest, header, tail);
    PieceAt(bytes, offset, text, rest + header + tail);
  }

  lemma ReadsFrameOnly(bytes: Bytes, offset: nat, frame: Frame, tail: Bytes)
    requires offset <= |bytes| && Reads(bytes[offset..], [], frame, tail)
    ensures var end := offset + |EncodeFrame(frame)|; end <= |bytes| && bytes[offset..end] == EncodeFrame(frame)
  {
    HeaderFirst(bytes, offset, EncodeFrame(frame), tail);
  }

  lemma HeaderFirst(bytes: Bytes, offset: nat, header: Bytes, tail: Bytes)
    requires offset <= |bytes| && bytes[offset..] == [] + header + tail
    ensures offset + |header| <= |bytes| && bytes[offset..offset + |header|] == header
  {
    assert [] + header == header;
    PieceAt(bytes, offset, header, tail);
  }

  /** The items and the frame lie one after another from `offset`. */
  ghost predicate LieAt(bytes: Bytes, offset: nat, items: seq<Item>, frame: Frame)
    requires AllLegal(items) && frame.Legal()
    decreases |items|
  {
    if items == [] then
      offset + |EncodeFrame(frame)| <= |bytes| && bytes[offset..offset + |EncodeFrame(frame)|] == EncodeFrame(frame)
    else
      var next := offset + |Encode(items[0])|;
      next + 9 <= |bytes| && bytes[offset..next] == Encode(items[0]) && LieAt(bytes, next, items[1..], frame)
  }

  lemma {:induction false} ReadsLie(bytes: Bytes, offset: nat, items: seq<Item>, frame: Frame, tail: Bytes)
    requires offset <= |bytes| && Reads(bytes[offset..], items, frame, tail)
    ensures LieAt(bytes, offset, items, frame)
    decreases |items|
  {
    if items == [] {
      ReadsFrameOnly(bytes, offset, frame, tail);
    } else {
      var next := ReadsFirst(bytes, offset, items, frame, tail);
      ReadsLie(bytes, next, items[1..], frame, tail);
    }
  }

  lemma {:induction false} ScanLies(bytes: Bytes, offset: nat, items: seq<Item>, frame: Frame)
    requires offset <= |bytes| && AllLegal(items) && frame.Legal() && LieAt(bytes, offset, items, frame)
    ensures Scan(bytes, offset) == Nonzero(frame.width, frame.height)
    decreases |items|
  {
    if items == [] {
      ScanReadsFrame(bytes, offset, frame);
    } else {
      var next := offset + |Encode(items[0])|;
      var first := Scan(bytes, offset);
      ScanLies(bytes, next, items[1..], frame);
      StepOver(bytes, offset, items[0], next, first);
    }
  }

  lemma StepOver(bytes: Bytes, offset: nat, item: Item, next: nat, first: Option<Dimensions>)
    requires Legal(item) && next == offset + |Encode(item)| && next + 9 <= |bytes|
    requires bytes[offset..next] == Encode(item) && first == Scan(bytes, offset)
    ensures first == Scan(bytes, next)
  {
    ScanStepsOver(bytes, offset, item);
  }

  lemma ScanReads(bytes: Bytes, offset: nat, items: seq<Item>, frame: Frame, tail: Bytes)
    requires offset <= |bytes| && Reads(bytes[offset..], items, frame, tail)
    ensures Scan(bytes, offset) == Some(Dimensions(frame.width, frame.height))
  {
    ReadsLie(bytes, offset, items, frame, tail);
    ScanLies(bytes, offset, items, frame);
  }

  /** A start of image, any fill bytes, standalone markers and non-frame segments, a frame header
      with a non-zero size, and any tail up to an end of image: the answer is that frame's size. */
  lemma GrammaticalImagesAreMeasured(items: seq<Item>, frame: Frame, tail: Bytes)
    requires AllLegal(items)
    requires frame.Legal() && frame.width > 0 && frame.height > 0 && EndsWith(tail, EOI)
    ensures ScanImage(SOI + EncodeAll(items) + EncodeFrame(frame) + tail) == Some(Dimensions(frame.width, frame.height))
  {
    var rest := EncodeAll(items) + EncodeFrame(frame) + tail;
    var bytes := SOI + EncodeAll(items) + EncodeFrame(frame) + tail;
    assert bytes == SOI + rest;
    assert bytes[2..] == rest && bytes[..2] == SOI;
    assert bytes[|bytes| - 2..] == tail[|tail| - 2..];
    FrameFields(frame);
    ScanReads(bytes, 2, items, frame, tail);
  }

  // ---- and nothing else is -------------------------------------------------------------

  lemma BigOf(bytes: Bytes, i: nat)
    requires i + 2 <= |bytes|
    ensures bytes[i..i + 2] == Big(Word(bytes, i))
  {
    var high, low := bytes[i] as nat, bytes[i + 1] as nat;
    assert (high * 0x100 + low) / 0x100 == high && (high * 0x100 + low) % 0x100 == low;
  }

  lemma {:induction false} ScanFinds(bytes: Bytes, offset: nat) returns (items: seq<Item>, frame: Frame, tail: Bytes)
    requires offset <= |bytes| && Scan(bytes, offset).Some?
    ensures Reads(bytes[offset..], items, frame, tail)
    ensures Scan(bytes, offset) == Some(Dimensions(frame.width, frame.height))
    decreases |bytes| - offset
  {
    if bytes[offset] == 0xff && IsFrame(bytes[SkipFill(bytes, offset)]) {
      items := [];
      frame, tail := FrameAt(bytes, offset, SkipFill(bytes, offset));
    } else {
      var item, next := ItemFound(bytes, offset);
      var rest;
      rest, frame, tail := ScanFinds(bytes, next);
      items := [item] + rest;
      Prepend(item, rest, frame, tail, bytes[next..]);
    }
  }

  lemma EncodeAllCons(item: Item, rest: seq<Item>)
    requires Legal(item) && AllLegal(rest)
    ensures AllLegal([item] + rest)
    ensures EncodeAll([item] + rest) == Encode(item) + EncodeAll(rest)
  {
    assert ([item] + rest)[1..] == rest;
  }

  lemma Regroup(a: Bytes, b: Bytes, c: Bytes, d: Bytes)
    ensures (a + b) + c + d == a + (b + c + d)
  {
  }

  lemma Prepend(item: Item, rest: seq<Item>, frame: Frame, tail: Bytes, more: Bytes)
    requires Legal(item) && Reads(more, rest, frame, tail)
    ensures Reads(Encode(item) + more, [item] + rest, frame, tail)
  {
    EncodeAllCons(item, rest);
    Regroup(Encode(item), EncodeAll(rest), EncodeFrame(frame), tail);
  }

  lemma ItemFound(bytes: Bytes, offset: nat) returns (item: Item, next: nat)
    requires offset <= |bytes| && Scan(bytes, offset).Some?
    requires bytes[offset] == 0xff ==> !IsFrame(bytes[SkipFill(bytes, offset)])
    ensures Legal(item) && offset < next <= |bytes| && Scan(bytes, next) == Scan(bytes, offset)
    ensures bytes[offset..] == Encode(item) + bytes[next..]
  {
    if bytes[offset] != 0xff {
      item, next := Stray(bytes[offset]), offset + 1;
    } else {
      item, next := MarkedItem(bytes, offset, SkipFill(bytes, offset));
    }
  }

  lemma MarkedItem(bytes: Bytes, offset: nat, at: nat) returns (item: Item, next: nat)
    requires offset < at < |bytes| && Marker(bytes, at).Some? && !IsFrame(bytes[at]) && bytes[at] != 0xff
    requires forall k :: offset <= k < at ==> bytes[k] == 0xff
    ensures Legal(item) && at < next <= |bytes| && Scan(bytes, next) == Marker(bytes, at)
    ensures bytes[offset..] == Encode(item) + bytes[next..]
  {
    if IsStandalone(bytes[at]) {
      item, next := Standalone(at - offset - 1, bytes[at]), at + 1;
      FilledAt(bytes, offset, at);
    } else {
      next := at + 1 + Word(bytes, at + 1);
      item := SegmentFound(bytes, offset, at, next);
    }
  }

  lemma SegmentFound(bytes: Bytes, offset: nat, at: nat, next: nat) returns (item: Item)
    requires offset < at && at + 3 <= next <= |bytes| && next == at + 1 + Word(bytes, at + 1)
    requires forall k :: offset <= k < at ==> bytes[k] == 0xff
    requires bytes[at] != 0xff && !IsStandalone(bytes[at]) && !EndsScan(bytes[at]) && !IsFrame(bytes[at])
    ensures Legal(item) && bytes[offset..] == Encode(item) + bytes[next..]
  {
    item := Segment(at - offset - 1, bytes[at], bytes[at + 3..next]);
    assert |item.payload| + 2 == Word(bytes, at + 1);
    FilledAt(bytes, offset, at);
    BigOf(bytes, at + 1);
    Cut(bytes, at + 1, at + 3);
    Cut(bytes, at + 3, next);
    Regroup(Fill(item.fill + 1) + [item.code], Big(|item.payload| + 2), item.payload, bytes[next..]);
  }

  lemma Cut(bytes: Bytes, i: nat, j: nat)
    requires i <= j <= |bytes|
    ensures bytes[i..] == bytes[i..j] + bytes[j..]
  {
  }

  /** Fill bytes and a marker code. */
  lemma FilledAt(bytes: Bytes, offset: nat, at: nat)
    requires offset <= at < |bytes| && forall k :: offset <= k < at ==> bytes[k] == 0xff
    ensures bytes[offset..] == Fill(at - offset) + [bytes[at]] + bytes[at + 1..]
  {
    assert bytes[offset..at] == Fill(at - offset);
  }

  lemma FrameAt(bytes: Bytes, offset: nat, at: nat) returns (frame: Frame, tail: Bytes)
    requires offset < at < |bytes| && IsFrame(bytes[at]) && Marker(bytes, at).Some?
    requires forall k :: offset <= k < at ==> bytes[k] == 0xff
    ensures Reads(bytes[offset..], [], frame, tail)
    ensures Marker(bytes, at) == Some(Dimensions(frame.width, frame.height))
  {
    frame, tail := HeaderFound(bytes, offset, at);
    FilledAt(bytes, offset, at);
    FrameBody(bytes, at + 1, frame, tail);
    FrameWhole(bytes[offset..], frame, tail, bytes[at + 1..]);
  }

  /** The frame header that a measuring marker announces. */
  lemma HeaderFound(bytes: Bytes, offset: nat, at: nat) returns (frame: Frame, tail: Bytes)
    requires offset < at < |bytes| && IsFrame(bytes[at]) && Marker(bytes, at).Some?
    ensures frame.Legal() && frame.fill == at - offset - 1 && frame.code == bytes[at]
    ensures frame.width > 0 && frame.height > 0
    ensures Marker(bytes, at) == Some(Dimensions(frame.width, frame.height))
    ensures HeaderAt(bytes, at + 1, frame, tail)
  {
    var body := at + 1;
    var end := body + Word(bytes, body);
    frame := Frame(at - offset - 1, bytes[at], bytes[body + 2], Word(bytes, body + 3), Word(bytes, body + 5),
                   bytes[body + 7..end]);
    tail := bytes[end..];
    assert |frame.components| + 7 == Word(bytes, body);
  }

  predicate HeaderAt(bytes: Bytes, body: nat, frame: Frame, tail: Bytes) {
    && body + 7 + |frame.components| <= |bytes| && |frame.components| + 7 == Word(bytes, body)
    && frame.height == Word(bytes, body + 3) && frame.width == Word(bytes, body + 5)
    && frame.precision == bytes[body + 2] && frame.components == bytes[body + 7..body + 7 + |frame.components|]
    && tail == bytes[body + 7 + |frame.components|..]
  }

  lemma FrameWhole(rest: Bytes, frame: Frame, tail: Bytes, body: Bytes)
    requires frame.Legal() && frame.width > 0 && frame.height > 0
    requires body == Big(|frame.components| + 7) + [frame.precision] + Big(frame.height) + Big(frame.width)
                     + frame.components + tail
    requires rest == Fill(frame.fill + 1) + [frame.code] + body
    ensures Reads(rest, [], frame, tail)
  {
  }

  /** The text up to `i`, and the piece from there to `j`. */
  lemma Extend(text: Bytes, bytes: Bytes, i: nat, j: nat, piece: Bytes) returns (longer: Bytes)
    requires i <= j <= |bytes| && bytes[i..j] == piece
    ensures longer == text + piece && text + bytes[i..] == longer + bytes[j..]
  {
    Cut(bytes, i, j);
    longer := text + piece;
    assert text + (piece + bytes[j..]) == text + piece + bytes[j..];
  }

  lemma FrameBody(bytes: Bytes, body: nat, frame: Frame, tail: Bytes)
    requires frame.Legal() && HeaderAt(bytes, body, frame, tail)
    ensures bytes[body..] == Big(|frame.components| + 7) + [frame.precision] + Big(frame.height) + Big(frame.width)
                             + frame.components + tail
  {
    BigOf(bytes, body);
    BigOf(bytes, body + 3);
    BigOf(bytes, body + 5);
    var piece := Big(|frame.components| + 7);
    Cut(bytes, body, body + 2);
    piece := Extend(piece, bytes, body + 2, body + 3, [frame.precision]);
    piece := Extend(piece, bytes, body + 3, body + 5, Big(frame.height));
    piece := Extend(piece, bytes, body + 5, body + 7, Big(frame.width));
    piece := Extend(piece, bytes, body + 7, body + 7 + |frame.components|, frame.components);
  }

  /** The exact language of the scanner: it answers if and only if the bytes begin and end as an
      image and read as items and a frame header of a non-empty image. */
  lemma ScannerLanguage(bytes: Bytes)
    ensures ScanImage(bytes).Some? <==>
      IsJpeg(bytes) && exists items, frame, tail :: Reads(bytes[2..], items, frame, tail)
    ensures forall items, frame, tail :: IsJpeg(bytes) && Reads(bytes[2..], items, frame, tail) ==>
      ScanImage(bytes) == Some(Dimensions(frame.width, frame.height))
  {
    if ScanImage(bytes).Some? {
      var items, frame, tail := ScanFinds(bytes, 2);
    }
    forall items, frame, tail | IsJpeg(bytes) && Reads(bytes[2..], items, frame, tail)
      ensures ScanImage(bytes) == Some(Dimensions(frame.width, frame.height))
    {
      ScanReads(bytes, 2, items, frame, tail);
    }
  }
}
