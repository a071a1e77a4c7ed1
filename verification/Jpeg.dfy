/**
 The JPEG metadata stripper. `StripJpegMetadata` walks the bytes with nested loops; `Parse` and
 `PrintImage` say what those bytes mean (ITU-T T.81, sections B.1.1.2, B.1.1.4 and B.1.1.5).
 */
module Jpeg {
  import opened Wrappers
  import opened Bytes

  const SOI: byte := 0xd8
  const EOI: byte := 0xd9
  const SOS: byte := 0xda

  predicate IsRestart(code: byte) {
    0xd0 <= code <= 0xd7
  }

  /** Markers without a length field: TEM and RST0-RST7. */
  predicate IsStandalone(code: byte) {
    code == 0x01 || IsRestart(code)
  }

  /** APP1 (EXIF, XMP), APP13 (IPTC) and COM. */
  predicate IsRemoved(code: byte) {
    code == 0xe1 || code == 0xed || code == 0xfe
  }

  /** After 0xFF, the codes that belong to the entropy-coded data of a scan. */
  predicate IsData(code: byte) {
    code == 0x00 || IsRestart(code)
  }

  /** MetadataSanitizationError, by its message. */
  datatype Error =
    | NoSoi
    | MarkerExpected
    | Truncated
    | NoImageData
    | SegmentPastEnd
    | TruncatedScan
    | NoEoi

  // ----- What the bytes mean -----

  /**
   What stands between SOI and EOI: fill bytes, a marker, and what follows the marker. Nothing
   follows a standalone marker; a segment is followed by its body, which starts with its own length
   on two bytes; SOS is followed by its body and then by the entropy-coded data of the scan.
   */
  datatype Item = Item(fill: nat, code: byte, rest: Buffer)

  datatype Image = Image(items: seq<Item>, eoiFill: nat)

  /** Byte-stuffed data: 0xFF only before 0x00 or a restart code. */
  predicate IsEntropy(data: Buffer) {
    if data == [] then true
    else if data[0] != 0xff then IsEntropy(data[1..])
    else |data| >= 2 && IsData(data[1]) && IsEntropy(data[2..])
  }

  predicate ValidItem(item: Item) {
    && item.code != 0xff && item.code != EOI
    && (IsStandalone(item.code) ==> item.rest == [])
    && (!IsStandalone(item.code) ==>
          && |item.rest| >= 2
          && 2 <= ReadU16(item.rest) <= |item.rest|
          && (item.code != SOS ==> ReadU16(item.rest) == |item.rest|)
          && (item.code == SOS ==> IsEntropy(item.rest[ReadU16(item.rest)..])))
  }

  /** Whether a scan right before this item would take its marker as data. */
  predicate Absorbable(item: Item) {
    item.fill == 0 && IsData(item.code)
  }

  predicate ValidItems(items: seq<Item>) {
    items == [] ||
    (&& ValidItem(items[0])
     && (items[0].code == SOS && |items| > 1 ==> !Absorbable(items[1]))
     && ValidItems(items[1..]))
  }

  function Scans(scans: nat, item: Item): nat {
    if item.code == SOS then scans + 1 else scans
  }

  function ScanCount(items: seq<Item>): nat {
    if items == [] then 0 else Scans(ScanCount(items[1..]), items[0])
  }

  predicate ValidImage(image: Image) {
    ValidItems(image.items) && ScanCount(image.items) > 0
  }

  function Fill(n: nat): (s: Buffer)
    ensures |s| == n
  {
    if n == 0 then [] else [0xff] + Fill(n - 1)
  }

  function PrintItem(item: Item): Buffer {
    Fill(item.fill) + [0xff, item.code] + item.rest
  }

  function PrintItems(items: seq<Item>): Buffer {
    if items == [] then [] else PrintItem(items[0]) + PrintItems(items[1..])
  }

  function PrintEoi(fill: nat): Buffer {
    Fill(fill) + [0xff, EOI]
  }

  function PrintImage(image: Image): Buffer {
    [0xff, SOI] + (PrintItems(image.items) + PrintEoi(image.eoiFill))
  }

  // ----- What the stripper keeps -----

  /** The items without metadata segments and without fill bytes. */
  function CleanItems(items: seq<Item>): seq<Item> {
    if items == [] then []
    else if IsRemoved(items[0].code) then CleanItems(items[1..])
    else [items[0].(fill := 0)] + CleanItems(items[1..])
  }

  function CleanImage(image: Image): Image {
    Image(CleanItems(image.items), 0)
  }

  // ----- Parsing -----

  datatype Parsed = Parsed(items: seq<Item>, eoiFill: nat, trailer: Buffer)

  /** One item in front of what the rest of the input parses to. */
  function Then(item: Item, rest: Result<Parsed, Error>): Result<Parsed, Error> {
    match rest
    case Failure(e) => Failure(e)
    case Success(p) => Success(p.(items := [item] + p.items))
  }

  /** The last of the 0xFF bytes that start at `at`: the others are fill bytes. */
  function MarkerOffset(s: Buffer, at: nat): (m: nat)
    requires at < |s| && s[at] == 0xff
    ensures at <= m < |s| && s[m] == 0xff
    ensures m + 1 < |s| ==> s[m + 1] != 0xff
    decreases |s| - at
  {
    if at + 1 < |s| && s[at + 1] == 0xff then MarkerOffset(s, at + 1) else at
  }

  /** Where the entropy-coded data that starts at `at` ends; None if no marker ends it. */
  function ScanEnd(s: Buffer, at: nat): (end: Option<nat>)
    requires at <= |s|
    ensures end.Some? ==> at <= end.value && end.value + 2 <= |s|
    decreases |s| - at
  {
    if at + 1 >= |s| then None
    else if s[at] != 0xff then ScanEnd(s, at + 1)
    else if IsData(s[at + 1]) then ScanEnd(s, at + 2)
    else Some(at)
  }

  /** Where the item whose marker is at `m` ends; an error if it runs past the end. */
  function ItemEnd(s: Buffer, m: nat): (end: Result<nat, Error>)
    requires m + 2 <= |s|
    ensures end.Success? ==> m + 2 <= end.value <= |s|
  {
    if IsStandalone(s[m + 1]) then Success(m + 2)
    else if m + 4 > |s| then Failure(Truncated)
    else
      var length := ReadU16(s[m + 2..]);
      if length < 2 || m + 2 + length > |s| then Failure(SegmentPastEnd)
      else if s[m + 1] != SOS then Success(m + 2 + length)
      else
        match ScanEnd(s, m + 2 + length)
        case None => Failure(TruncatedScan)
        case Some(dataEnd) => Success(dataEnd)
  }

  /** What the walk meets at one place: EOI or an item, its marker at `m`, up to `end`. */
  datatype Next = Next(m: nat, end: nat)

  function NextItem(s: Buffer, at: nat): (r: Result<Next, Error>)
    requires at <= |s|
    ensures r.Success? ==> at <= r.value.m && r.value.m + 2 <= r.value.end <= |s|
  {
    if at == |s| then Failure(NoEoi)
    else if s[at] != 0xff then Failure(MarkerExpected)
    else
      var m := MarkerOffset(s, at);
      if m + 2 > |s| then Failure(Truncated)
      else if s[m + 1] == EOI then Success(Next(m, m + 2))
      else
        match ItemEnd(s, m)
        case Failure(e) => Failure(e)
        case Success(end) => Success(Next(m, end))
  }

  function ItemOf(s: Buffer, at: nat, next: Next): Item
    requires at <= next.m && next.m + 2 <= next.end <= |s|
  {
    Item(next.m - at, s[next.m + 1], s[next.m + 2..next.end])
  }

  function Parse(s: Buffer, at: nat, scans: nat): Result<Parsed, Error>
    requires at <= |s|
    decreases |s| - at
  {
    match NextItem(s, at)
    case Failure(e) => Failure(e)
    case Success(next) =>
      var item := ItemOf(s, at, next);
      if item.code != EOI then Then(item, Parse(s, next.end, Scans(scans, item)))
      else if scans == 0 then Failure(NoImageData)
      else Success(Parsed([], item.fill, s[next.end..]))
  }

  predicate StartsWithSoi(input: Buffer) {
    |input| >= 4 && input[0] == 0xff && input[1] == SOI
  }

  /** Parse, filter, print: what the stripper is for. */
  function Strip(input: Buffer): Result<Buffer, Error> {
    if !StartsWithSoi(input) then Failure(NoSoi)
    else
      match Parse(input, 2, 0)
      case Failure(e) => Failure(e)
      case Success(p) => Success(PrintImage(Image(CleanItems(p.items), 0)))
  }

  // ----- The walk itself -----

  function Prepend(kept: Buffer, rest: Result<Buffer, Error>): Result<Buffer, Error> {
    match rest
    case Failure(e) => Failure(e)
    case Success(bytes) => Success(kept + bytes)
  }

  /** The slice the walk copies for an item: all of it but the fill bytes, or nothing. */
  function Copied(s: Buffer, next: Next): Buffer
    requires next.m + 2 <= next.end <= |s|
  {
    if IsRemoved(s[next.m + 1]) then [] else s[next.m..next.end]
  }

  /** What the walk still outputs from `at` on: slices of the input. */
  function Walk(s: Buffer, at: nat, scans: nat): Result<Buffer, Error>
    requires at <= |s|
    decreases |s| - at
  {
    match NextItem(s, at)
    case Failure(e) => Failure(e)
    case Success(next) =>
      var item := ItemOf(s, at, next);
      if item.code != EOI then Prepend(Copied(s, next), Walk(s, next.end, Scans(scans, item)))
      else if scans == 0 then Failure(NoImageData)
      else Success(s[next.m..next.end])
  }

  lemma PrependTwice(a: Buffer, b: Buffer, rest: Result<Buffer, Error>)
    ensures Prepend(a + b, rest) == Prepend(a, Prepend(b, rest))
  {
    if rest.Success? {
      assert a + b + rest.value == a + (b + rest.value);
    }
  }

  /** Fill bytes may precede a marker: skips them. */
  method SkipFill(input: Buffer, offset: nat) returns (markerOffset: nat)
    requires offset < |input| && input[offset] == 0xff
    ensures markerOffset == MarkerOffset(input, offset)
  {
    markerOffset := offset;
    while markerOffset + 1 < |input| && input[markerOffset + 1] == 0xff
      invariant offset <= markerOffset < |input| && input[markerOffset] == 0xff
      invariant MarkerOffset(input, offset) == MarkerOffset(input, markerOffset)
    {
      markerOffset := markerOffset + 1;
    }
  }

  /** Skips the entropy-coded data that starts at `offset`; None when it is cut. */
  method SkipScan(input: Buffer, offset: nat) returns (end: Option<nat>)
    requires offset <= |input|
    ensures end == ScanEnd(input, offset)
  {
    var dataEnd := offset;
    while true
      invariant offset <= dataEnd <= |input|
      invariant ScanEnd(input, offset) == ScanEnd(input, dataEnd)
      decreases |input| - dataEnd
    {
      if dataEnd + 1 >= |input| {
        return None;
      }
      if input[dataEnd] == 0xff {
        var next := input[dataEnd + 1];
        if next != 0x00 && !(next >= 0xd0 && next <= 0xd7) {
          return Some(dataEnd);
        }
        dataEnd := dataEnd + 2;
      } else {
        dataEnd := dataEnd + 1;
      }
    }
  }

  /** Reads the length of the segment whose marker is at `m`, and the scan data of SOS. */
  method ReadItem(input: Buffer, m: nat) returns (r: Result<nat, Error>)
    requires m + 2 <= |input|
    ensures r == ItemEnd(input, m)
  {
    var marker := input[m + 1];
    if IsStandalone(marker) {
      return Success(m + 2);
    }
    if m + 4 > |input| {
      return Failure(Truncated);
    }
    var length := ReadU16(input[m + 2..]);
    if length < 2 || m + 2 + length > |input| {
      return Failure(SegmentPastEnd);
    }
    if marker != SOS {
      return Success(m + 2 + length);
    }
    var dataEnd := SkipScan(input, m + 2 + length);
    if dataEnd.None? {
      return Failure(TruncatedScan);
    }
    r := Success(dataEnd.value);
  }

  /** The loop after SOI: one turn for each item. */
  method CopyItems(input: Buffer) returns (r: Result<Buffer, Error>)
    requires |input| >= 2
    ensures r == Prepend(input[..2], Walk(input, 2, 0))
  {
    var kept := input[..2];  // the slices pushed so far, already joined
    var offset: nat, scans: nat := 2, 0;
    while offset < |input|
      invariant offset <= |input|
      invariant Prepend(kept, Walk(input, offset, scans)) == Prepend(input[..2], Walk(input, 2, 0))
    {
      if input[offset] != 0xff {
        return Failure(MarkerExpected);
      }
      var m := SkipFill(input, offset);
      if m + 1 >= |input| {
        return Failure(Truncated);
      }
      if input[m + 1] == EOI {
        return if scans == 0 then Failure(NoImageData) else Success(kept + input[m..m + 2]);
      }
      var end :- ReadItem(input, m);
      var item := ItemOf(input, offset, Next(m, end));
      PrependTwice(kept, Copied(input, Next(m, end)), Walk(input, end, Scans(scans, item)));
      kept := kept + Copied(input, Next(m, end));
      offset, scans := end, Scans(scans, item);
    }
    r := Failure(NoEoi);
  }

  method StripJpegMetadata(input: Buffer) returns (r: Result<Buffer, Error>)
    ensures r == Strip(input)
  {
    if |input| < 4 || input[0] != 0xff || input[1] != SOI {
      return Failure(NoSoi);
    }
    r := CopyItems(input);
    WalkIsStrip(input);
  }

  // ----- The slices the walk copies are the printed form of the items it keeps -----

  lemma NextItemBytes(s: Buffer, at: nat)
    requires at <= |s| && NextItem(s, at).Success?
    ensures
      var next := NextItem(s, at).value;
      s[next.m..next.end] == PrintItem(ItemOf(s, at, next).(fill := 0))
  {
    var next := NextItem(s, at).value;
    assert s[next.m..next.end] == [0xff, s[next.m + 1]] + s[next.m + 2..next.end];
  }

  lemma CleanThen(item: Item, items: seq<Item>)
    ensures PrintItems(CleanItems([item] + items))
         == (if IsRemoved(item.code) then [] else PrintItem(item.(fill := 0))) + PrintItems(CleanItems(items))
  {
    assert ([item] + items)[1..] == items;
    if !IsRemoved(item.code) {
      assert ([item.(fill := 0)] + CleanItems(items))[1..] == CleanItems(items);
    }
  }

  /** The output for what was parsed from here on. */
  function Output(p: Result<Parsed, Error>): Result<Buffer, Error> {
    match p
    case Failure(e) => Failure(e)
    case Success(parsed) => Success(PrintItems(CleanItems(parsed.items)) + PrintEoi(0))
  }

  lemma OutputThen(item: Item, bytes: Buffer, rest: Result<Parsed, Error>)
    requires bytes == if IsRemoved(item.code) then [] else PrintItem(item.(fill := 0))
    ensures Output(Then(item, rest)) == Prepend(bytes, Output(rest))
  {
    if rest.Success? {
      CleanThen(item, rest.value.items);
      PrependTwice(bytes, PrintItems(CleanItems(rest.value.items)), Success(PrintEoi(0)));
    }
  }

  lemma {:induction false} WalkIsPrint(s: Buffer, at: nat, scans: nat)
    requires at <= |s|
    ensures Walk(s, at, scans) == Output(Parse(s, at, scans))
    decreases |s| - at
  {
    if NextItem(s, at).Success? {
      var next := NextItem(s, at).value;
      var item := ItemOf(s, at, next);
      NextItemBytes(s, at);
      if item.code != EOI {
        WalkIsPrint(s, next.end, Scans(scans, item));
        OutputThen(item, Copied(s, next), Parse(s, next.end, Scans(scans, item)));
      } else {
        assert PrintItems([]) + PrintEoi(0) == s[next.m..next.end];
      }
    }
  }

  lemma WalkIsStrip(input: Buffer)
    requires StartsWithSoi(input)
    ensures Prepend(input[..2], Walk(input, 2, 0)) == Strip(input)
  {
    WalkIsPrint(input, 2, 0);
    assert input[..2] == [0xff, SOI];
  }
}
