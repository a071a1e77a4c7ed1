/** What the JPEG stripper does to a whole file, for every file. */
module JpegTheorems {
  import opened Wrappers
  import opened Bytes
  import opened Jpeg

  // ----- Printing, then parsing -----

  lemma {:induction false} MarkerOffsetOfFill(s: Buffer, at: nat, n: nat)
    requires At(s, at, Fill(n)) && at + n + 1 < |s|
    requires s[at + n] == 0xff && s[at + n + 1] != 0xff
    ensures s[at] == 0xff && MarkerOffset(s, at) == at + n
    decreases n
  {
    if n > 0 {
      assert s[at] == Fill(n)[0];
      AtJoin(s, at, [0xff], Fill(n - 1));
      MarkerOffsetOfFill(s, at + 1, n - 1);
    }
  }

  lemma {:induction false} FillOfMarkerOffset(s: Buffer, at: nat)
    requires at < |s| && s[at] == 0xff
    ensures At(s, at, Fill(MarkerOffset(s, at) - at))
    decreases |s| - at
  {
    if at + 1 < |s| && s[at + 1] == 0xff {
      FillOfMarkerOffset(s, at + 1);
      AtJoin(s, at, [0xff], Fill(MarkerOffset(s, at) - at - 1));
    }
  }

  /** The data of a scan ends where the next marker starts. */
  ghost predicate MarkerStarts(s: Buffer, at: nat) {
    at + 1 < |s| && s[at] == 0xff && !IsData(s[at + 1])
  }

  lemma {:induction false} ScanEndOfEntropy(s: Buffer, at: nat, end: nat)
    requires at <= end && MarkerStarts(s, end) && IsEntropy(s[at..end])
    ensures ScanEnd(s, at) == Some(end)
    decreases end - at
  {
    if at < end {
      var unit := if s[at] == 0xff then 2 else 1;
      assert s[at..end][unit..] == s[at + unit..end];
      ScanEndOfEntropy(s, at + unit, end);
    }
  }

  lemma {:induction false} EntropyOfScanEnd(s: Buffer, at: nat)
    requires at <= |s| && ScanEnd(s, at).Some?
    ensures MarkerStarts(s, ScanEnd(s, at).value)
    ensures IsEntropy(s[at..ScanEnd(s, at).value])
    decreases |s| - at
  {
    var end := ScanEnd(s, at).value;
    if at < end {
      var unit := if s[at] == 0xff then 2 else 1;
      EntropyOfScanEnd(s, at + unit);
      assert s[at..end][unit..] == s[at + unit..end];
    }
  }

  lemma ItemEndOfItem(s: Buffer, m: nat, item: Item)
    requires ValidItem(item) && At(s, m, [0xff, item.code] + item.rest)
    requires item.code == SOS ==> MarkerStarts(s, m + 2 + |item.rest|)
    ensures s[m] == 0xff && s[m + 1] == item.code && At(s, m + 2, item.rest)
    ensures ItemEnd(s, m) == Success(m + 2 + |item.rest|)
  {
    AtJoin(s, m, [0xff, item.code], item.rest);
    assert s[m..m + 2][0] == s[m] && s[m..m + 2][1] == s[m + 1];
    if !IsStandalone(item.code) {
      var end := m + 2 + |item.rest|;
      assert s[m + 2..][0] == item.rest[0] && s[m + 2..][1] == item.rest[1];
      if item.code == SOS {
        var length := ReadU16(item.rest);
        assert item.rest[length..] == s[m + 2 + length..end];
        ScanEndOfEntropy(s, m + 2 + length, end);
      }
    }
  }

  /** Where the parts of a printed item stand. */
  lemma ItemLayout(s: Buffer, at: nat, item: Item)
    ensures At(s, at, PrintItem(item)) <==>
      At(s, at, Fill(item.fill)) && At(s, at + item.fill, [0xff, item.code] + item.rest)
    ensures |PrintItem(item)| == item.fill + 2 + |item.rest|
  {
    var tail := [0xff, item.code] + item.rest;
    Assoc(Fill(item.fill), [0xff, item.code], item.rest);
    AtJoin(s, at, Fill(item.fill), tail);
  }

  lemma NextItemOfItem(s: Buffer, at: nat, item: Item)
    requires ValidItem(item) && At(s, at, PrintItem(item))
    requires item.code == SOS ==> MarkerStarts(s, at + |PrintItem(item)|)
    ensures NextItem(s, at) == Success(Next(at + item.fill, at + |PrintItem(item)|))
    ensures ItemOf(s, at, Next(at + item.fill, at + |PrintItem(item)|)) == item
  {
    ItemLayout(s, at, item);
    var m := at + item.fill;
    ItemEndOfItem(s, m, item);
    MarkerOffsetOfFill(s, at, item.fill);
    ItemBytes(s, m, item);
  }

  lemma ItemBytes(s: Buffer, m: nat, item: Item)
    requires At(s, m, [0xff, item.code] + item.rest)
    ensures s[m + 1] == item.code && s[m + 2..m + 2 + |item.rest|] == item.rest
  {
    AtJoin(s, m, [0xff, item.code], item.rest);
    assert s[m..m + 2][1] == s[m + 1];
  }

  /** Several items in front of what the rest of the input parses to. */
  ghost function ThenAll(items: seq<Item>, rest: Result<Parsed, Error>): Result<Parsed, Error> {
    match rest
    case Failure(e) => Failure(e)
    case Success(p) => Success(p.(items := items + p.items))
  }

  ghost predicate EndsWithScan(items: seq<Item>) {
    items != [] && items[|items| - 1].code == SOS
  }

  lemma PrintStartsMarker(s: Buffer, at: nat, item: Item)
    requires At(s, at, PrintItem(item)) && item.code != 0xff && !Absorbable(item)
    ensures MarkerStarts(s, at)
  {
    var bytes := PrintItem(item);
    assert bytes[0] == 0xff && !IsData(bytes[1]) by {
      if item.fill > 0 {
        assert bytes == [0xff] + (Fill(item.fill - 1) + [0xff, item.code] + item.rest);
      }
    }
    assert s[at..at + |bytes|][0] == s[at] && s[at..at + |bytes|][1] == s[at + 1];
  }

  /** A scan among the items, or at their end, ends where its data ends. */
  lemma ScanIsFollowed(items: seq<Item>, s: Buffer, at: nat)
    requires items != [] && ValidItems(items) && At(s, at, PrintItems(items)) && items[0].code == SOS
    requires EndsWithScan(items) ==> MarkerStarts(s, at + |PrintItems(items)|)
    ensures MarkerStarts(s, at + |PrintItem(items[0])|)
  {
    var others := items[1..];
    if others != [] {
      AtJoin(s, at, PrintItem(items[0]), PrintItems(others));
      AtJoin(s, at + |PrintItem(items[0])|, PrintItem(others[0]), PrintItems(others[1..]));
      PrintStartsMarker(s, at + |PrintItem(items[0])|, others[0]);
    }
  }

  /** Printed items are read back one by one, whatever follows them. */
  lemma {:induction false} ParseItems(items: seq<Item>, s: Buffer, at: nat, scans: nat,
                                      end: nat, total: nat, rest: Result<Parsed, Error>)
    requires ValidItems(items) && At(s, at, PrintItems(items))
    requires end == at + |PrintItems(items)| && total == scans + ScanCount(items)
    requires EndsWithScan(items) ==> MarkerStarts(s, end)
    requires rest == Parse(s, end, total)
    ensures Parse(s, at, scans) == ThenAll(items, rest)
    decreases |items|
  {
    if items == [] {
      NothingThen(rest);
    } else {
      var middle := at + |PrintItem(items[0])|;
      ParseFirst(items, s, at, scans, middle);
      ParseItems(items[1..], s, middle, Scans(scans, items[0]), end, total, rest);
      ThenThenAll(items, rest);
    }
  }

  lemma ParseItem(item: Item, s: Buffer, at: nat, scans: nat, end: nat)
    requires ValidItem(item) && At(s, at, PrintItem(item)) && end == at + |PrintItem(item)|
    requires item.code == SOS ==> MarkerStarts(s, end)
    ensures Parse(s, at, scans) == Then(item, Parse(s, end, Scans(scans, item)))
  {
    NextItemOfItem(s, at, item);
    ParseStep(s, at, scans, Next(at + item.fill, end), item);
  }

  lemma ParseStep(s: Buffer, at: nat, scans: nat, next: Next, item: Item)
    requires at <= |s| && NextItem(s, at) == Success(next)
    requires item == ItemOf(s, at, next) && item.code != EOI
    ensures Parse(s, at, scans) == Then(item, Parse(s, next.end, Scans(scans, item)))
  {
  }

  /** One item further back. */
  lemma ParseFirst(items: seq<Item>, s: Buffer, at: nat, scans: nat, middle: nat)
    requires items != [] && ValidItems(items) && At(s, at, PrintItems(items))
    requires EndsWithScan(items) ==> MarkerStarts(s, at + |PrintItems(items)|)
    requires middle == at + |PrintItem(items[0])|
    ensures At(s, middle, PrintItems(items[1..]))
    ensures Parse(s, at, scans) == Then(items[0], Parse(s, middle, Scans(scans, items[0])))
  {
    FirstItem(items, s, at, middle);
    ParseItem(items[0], s, at, scans, middle);
  }

  lemma FirstItem(items: seq<Item>, s: Buffer, at: nat, middle: nat)
    requires items != [] && ValidItems(items) && At(s, at, PrintItems(items))
    requires EndsWithScan(items) ==> MarkerStarts(s, at + |PrintItems(items)|)
    requires middle == at + |PrintItem(items[0])|
    ensures ValidItem(items[0]) && At(s, at, PrintItem(items[0])) && At(s, middle, PrintItems(items[1..]))
    ensures items[0].code == SOS ==> MarkerStarts(s, middle)
  {
    AtJoin(s, at, PrintItem(items[0]), PrintItems(items[1..]));
    if items[0].code == SOS {
      ScanIsFollowed(items, s, at);
    }
  }

  lemma NothingThen(rest: Result<Parsed, Error>)
    ensures ThenAll([], rest) == rest
  {
    if rest.Success? {
      assert [] + rest.value.items == rest.value.items;
    }
  }

  lemma ThenAllOnly(items: seq<Item>, rest: Parsed)
    requires rest.items == []
    ensures ThenAll(items, Success(rest)) == Success(Parsed(items, rest.eoiFill, rest.trailer))
  {
    assert items + [] == items;
  }

  lemma ThenThenAll(items: seq<Item>, rest: Result<Parsed, Error>)
    requires items != []
    ensures Then(items[0], ThenAll(items[1..], rest)) == ThenAll(items, rest)
  {
    if rest.Success? {
      assert [items[0]] + (items[1..] + rest.value.items) == items + rest.value.items;
    }
  }

  lemma ParseEoi(s: Buffer, at: nat, fill: nat, scans: nat)
    requires At(s, at, PrintEoi(fill)) && scans > 0
    ensures Parse(s, at, scans) == Success(Parsed([], fill, s[at + fill + 2..]))
  {
    AtJoin(s, at, Fill(fill), [0xff, EOI]);
    var m := at + fill;
    assert s[m..m + 2][0] == s[m] && s[m..m + 2][1] == s[m + 1];
    MarkerOffsetOfFill(s, at, fill);
  }

  lemma EoiStartsMarker(s: Buffer, at: nat, fill: nat)
    requires At(s, at, PrintEoi(fill))
    ensures MarkerStarts(s, at)
  {
    var bytes := PrintEoi(fill);
    assert bytes[0] == 0xff && !IsData(bytes[1]) by {
      if fill > 0 {
        assert bytes == [0xff] + (Fill(fill - 1) + [0xff, EOI]);
      }
    }
    assert s[at..at + |bytes|][0] == s[at] && s[at..at + |bytes|][1] == s[at + 1];
  }

  lemma ImageLayout(image: Image, trailer: Buffer)
    ensures
      var s := PrintImage(image) + trailer;
      var at := 2 + |PrintItems(image.items)|;
      && |s| >= 4 && s[0] == 0xff && s[1] == SOI
      && At(s, 2, PrintItems(image.items)) && At(s, at, PrintEoi(image.eoiFill))
      && s[at + image.eoiFill + 2..] == trailer
  {
    var items, eoi := PrintItems(image.items), PrintEoi(image.eoiFill);
    var s := PrintImage(image) + trailer;
    assert s == [0xff, SOI] + items + eoi + trailer;
  }

  /** A printed image, with anything appended, parses to itself. */
  lemma ParsePrint(image: Image, trailer: Buffer)
    requires ValidImage(image)
    ensures
      var s := PrintImage(image) + trailer;
      StartsWithSoi(s) && Parse(s, 2, 0) == Success(Parsed(image.items, image.eoiFill, trailer))
  {
    var s := PrintImage(image) + trailer;
    var at := 2 + |PrintItems(image.items)|;
    ImageLayout(image, trailer);
    EoiStartsMarker(s, at, image.eoiFill);
    ParseEoi(s, at, image.eoiFill, ScanCount(image.items));
    var rest := Parsed([], image.eoiFill, trailer);
    ParseItems(image.items, s, 2, 0, at, ScanCount(image.items), Success(rest));
    ThenAllOnly(image.items, rest);
  }

  // ----- Parsing, then printing -----

  lemma ItemOfIsPrinted(s: Buffer, at: nat)
    requires at <= |s| && NextItem(s, at).Success?
    ensures
      var next := NextItem(s, at).value;
      var bytes := PrintItem(ItemOf(s, at, next));
      At(s, at, bytes) && next.end == at + |bytes|
  {
    var next := NextItem(s, at).value;
    var item := ItemOf(s, at, next);
    FillOfMarkerOffset(s, at);
    NextItemBytes(s, at);
    ItemLayout(s, at, item);
    assert PrintItem(item.(fill := 0)) == [0xff, item.code] + item.rest;
  }

  lemma ItemOfIsValid(s: Buffer, at: nat)
    requires at <= |s| && NextItem(s, at).Success?
    ensures
      var next := NextItem(s, at).value;
      var item := ItemOf(s, at, next);
      && (item.code != EOI ==> ValidItem(item))
      && (item.code == EOI ==> item.rest == [])
      && (item.code == SOS ==> MarkerStarts(s, next.end))
  {
    var next := NextItem(s, at).value;
    if s[next.m + 1] != EOI {
      ItemEndIsValid(s, next.m, next.m - at);
    }
  }

  lemma ItemEndIsValid(s: Buffer, m: nat, fill: nat)
    requires m + 2 <= |s| && s[m] == 0xff && s[m + 1] != 0xff && s[m + 1] != EOI
    requires ItemEnd(s, m).Success?
    ensures ValidItem(Item(fill, s[m + 1], s[m + 2..ItemEnd(s, m).value]))
    ensures s[m + 1] == SOS ==> MarkerStarts(s, ItemEnd(s, m).value)
  {
    var code, end := s[m + 1], ItemEnd(s, m).value;
    if !IsStandalone(code) {
      var length := ReadU16(s[m + 2..]);
      var rest := s[m + 2..end];
      assert rest[0] == s[m + 2..][0] && rest[1] == s[m + 2..][1];
      if code == SOS {
        EntropyOfScanEnd(s, m + 2 + length);
        assert rest[length..] == s[m + 2 + length..end];
      }
    }
  }

  /** What the walk accepts are valid items, in a valid order, with a scan. */
  lemma {:induction false} ParseIsValid(s: Buffer, at: nat, scans: nat)
    requires at <= |s| && Parse(s, at, scans).Success?
    ensures
      var items := Parse(s, at, scans).value.items;
      && ValidItems(items) && scans + ScanCount(items) > 0
      && (MarkerStarts(s, at) && items != [] ==> !Absorbable(items[0]))
    decreases |s| - at
  {
    var next := NextItem(s, at).value;
    var item := ItemOf(s, at, next);
    ItemOfIsValid(s, at);
    if item.code != EOI {
      ParseIsValid(s, next.end, Scans(scans, item));
      var items, rest := Parse(s, at, scans).value.items, Parse(s, next.end, Scans(scans, item)).value.items;
      assert items == [item] + rest && items[1..] == rest;
    }
  }

  /** What the walk accepts is what it parses, printed, with something appended. */
  lemma {:induction false} ParseIsPrinted(s: Buffer, at: nat, scans: nat)
    requires at <= |s| && Parse(s, at, scans).Success?
    ensures s[at..] == PrintParsed(Parse(s, at, scans).value)
    decreases |s| - at
  {
    var next := NextItem(s, at).value;
    var item := ItemOf(s, at, next);
    ItemOfIsPrinted(s, at);
    assert s[at..] == PrintItem(item) + s[next.end..];
    if item.code != EOI {
      ParseIsPrinted(s, next.end, Scans(scans, item));
      PrintThen(item, Parse(s, next.end, Scans(scans, item)).value);
    } else {
      ItemOfIsValid(s, at);
      PrintEnd(item, s[next.end..]);
    }
  }

  ghost function PrintParsed(p: Parsed): Buffer {
    PrintItems(p.items) + PrintEoi(p.eoiFill) + p.trailer
  }

  lemma PrintThen(item: Item, rest: Parsed)
    ensures Then(item, Success(rest)).Success?
    ensures PrintItem(item) + PrintParsed(rest) == PrintParsed(Then(item, Success(rest)).value)
  {
    assert ([item] + rest.items)[1..] == rest.items;
  }

  lemma PrintEnd(item: Item, trailer: Buffer)
    requires item.code == EOI && item.rest == []
    ensures PrintItem(item) + trailer == PrintParsed(Parsed([], item.fill, trailer))
  {
    assert PrintItem(item) == PrintEoi(item.fill);
    assert PrintItems([]) + PrintEoi(item.fill) == PrintEoi(item.fill);
  }

  // ----- The main theorems -----

  /** Stripping is filter-then-print, whatever the fill bytes and the trailer. */
  lemma StripPrinted(image: Image, trailer: Buffer)
    requires ValidImage(image)
    ensures Strip(PrintImage(image) + trailer) == Success(PrintImage(CleanImage(image)))
  {
    ParsePrint(image, trailer);
  }

  lemma AcceptedIsPrinted(input: Buffer) returns (image: Image, trailer: Buffer)
    requires Strip(input).Success?
    ensures ValidImage(image) && input == PrintImage(image) + trailer
  {
    var p := Parse(input, 2, 0).value;
    ParseIsValid(input, 2, 0);
    ParseIsPrinted(input, 2, 0);
    image, trailer := Image(p.items, p.eoiFill), p.trailer;
    Assoc([0xff, SOI], PrintItems(p.items) + PrintEoi(p.eoiFill), p.trailer);
    assert input == [0xff, SOI] + input[2..];
  }

  /** The walk accepts exactly the printed images, and outputs exactly their cleaned form. */
  lemma StripExactly(input: Buffer, output: Buffer)
    ensures Strip(input) == Success(output) <==>
      exists image, trailer ::
        && ValidImage(image) && input == PrintImage(image) + trailer
        && output == PrintImage(CleanImage(image))
  {
    if Strip(input) == Success(output) {
      var image, trailer := AcceptedIsPrinted(input);
      StripPrinted(image, trailer);
    }
    forall image, trailer | ValidImage(image) && input == PrintImage(image) + trailer
      ensures Strip(input) == Success(PrintImage(CleanImage(image)))
    {
      StripPrinted(image, trailer);
    }
  }
}
