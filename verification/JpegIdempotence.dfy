/**
 Stripping an accepted JPEG again. T.81 has no marker 0x00, but the walk reads one as a segment; in
 the output it may stand right after a scan, whose data then takes it in. Everything here is about
 where exactly that matters.
 */
module JpegIdempotence {
  import opened Wrappers
  import opened Bytes
  import opened Jpeg
  import opened JpegTheorems
  import opened FileType

  // ----- Where the output can be read differently -----

  /** Whether what follows an item in the output still directly follows scan data. */
  predicate After(afterScan: bool, code: byte) {
    code == SOS || (afterScan && IsRestart(code))
  }

  predicate AfterAll(items: seq<Item>, afterScan: bool) {
    if items == [] then afterScan else AfterAll(items[1..], After(afterScan, items[0].code))
  }

  /** Some kept item with code 0x00 directly follows scan data, or only restart markers after it. */
  predicate Exposed(items: seq<Item>, afterScan: bool) {
    items != [] &&
    ((afterScan && items[0].code == 0) || Exposed(items[1..], After(afterScan, items[0].code)))
  }

  lemma {:induction false} ExposedWeakens(items: seq<Item>)
    ensures Exposed(items, false) ==> Exposed(items, true)
  {
    if items != [] && After(false, items[0].code) != After(true, items[0].code) {
      ExposedWeakens(items[1..]);
    }
  }

  // ----- How the output is read again: restart markers join the scan before them -----

  function Restarts(items: seq<Item>): (n: nat)
    ensures n <= |items|
  {
    if items != [] && IsRestart(items[0].code) then 1 + Restarts(items[1..]) else 0
  }

  function Absorb(items: seq<Item>): seq<Item>
    decreases |items|
  {
    if items == [] then []
    else if items[0].code == SOS then
      var n := 1 + Restarts(items[1..]);
      [items[0].(rest := items[0].rest + PrintItems(items[1..n]))] + Absorb(items[n..])
    else
      [items[0]] + Absorb(items[1..])
  }

  /** Items as the stripper leaves them: valid one by one, without fill bytes or metadata. */
  ghost predicate Bare(items: seq<Item>) {
    forall i | 0 <= i < |items| ::
      ValidItem(items[i]) && items[i].fill == 0 && !IsRemoved(items[i].code)
  }

  lemma {:induction false} CleanIsBare(items: seq<Item>)
    requires ValidItems(items)
    ensures Bare(CleanItems(items)) && ScanCount(CleanItems(items)) == ScanCount(items)
  {
    if items != [] {
      CleanIsBare(items[1..]);
      if !IsRemoved(items[0].code) {
        assert CleanItems(items)[1..] == CleanItems(items[1..]);
      }
    }
  }

  lemma {:induction false} BareIsClean(items: seq<Item>)
    requires Bare(items)
    ensures CleanItems(items) == items
  {
    if items != [] {
      BareIsClean(items[1..]);
    }
  }

  lemma {:induction false} PrintItemsJoin(a: seq<Item>, b: seq<Item>)
    ensures PrintItems(a + b) == PrintItems(a) + PrintItems(b)
  {
    if a == [] {
      assert a + b == b;
    } else {
      assert (a + b)[1..] == a[1..] + b;
      PrintItemsJoin(a[1..], b);
    }
  }

  lemma {:induction false} AbsorbPrints(items: seq<Item>)
    ensures PrintItems(Absorb(items)) == PrintItems(items)
    decreases |items|
  {
    if items != [] && items[0].code != SOS {
      AbsorbPrints(items[1..]);
      assert Absorb(items)[1..] == Absorb(items[1..]);
    } else if items != [] {
      var n := 1 + Restarts(items[1..]);
      AbsorbPrints(items[n..]);
      assert Absorb(items)[1..] == Absorb(items[n..]);
      PrintItemsJoin(items[1..n], items[n..]);
      assert items[1..n] + items[n..] == items[1..];
      PrintExtended(items[0], PrintItems(items[1..n]), PrintItems(items[n..]));
    }
  }

  lemma PrintExtended(item: Item, more: Buffer, tail: Buffer)
    ensures PrintItem(item.(rest := item.rest + more)) + tail == PrintItem(item) + (more + tail)
  {
  }

  lemma {:induction false} EntropyJoin(a: Buffer, b: Buffer)
    requires IsEntropy(a) && IsEntropy(b)
    ensures IsEntropy(a + b)
    decreases |a|
  {
    if a == [] {
      assert a + b == b;
    } else {
      var unit := if a[0] != 0xff then 1 else 2;
      assert (a + b)[unit..] == a[unit..] + b;
      EntropyJoin(a[unit..], b);
    }
  }

  lemma {:induction false} RestartsAreEntropy(items: seq<Item>, n: nat)
    requires Bare(items) && n <= Restarts(items)
    ensures IsEntropy(PrintItems(items[..n]))
    decreases n
  {
    if n > 0 {
      assert items[..n][1..] == items[1..][..n - 1];
      RestartsAreEntropy(items[1..], n - 1);
      assert PrintItem(items[0]) == [0xff, items[0].code];
      assert IsEntropy([0xff, items[0].code]) by {
        assert [0xff, items[0].code][2..] == [];
      }
      EntropyJoin([0xff, items[0].code], PrintItems(items[1..][..n - 1]));
    }
  }

  /** A scan may be extended with any entropy-coded data. */
  lemma ExtendScan(scan: Item, more: Buffer)
    requires ValidItem(scan) && scan.code == SOS && IsEntropy(more)
    ensures ValidItem(scan.(rest := scan.rest + more))
  {
    var length, rest := ReadU16(scan.rest), scan.rest + more;
    EntropyJoin(scan.rest[length..], more);
    DropJoin(scan.rest, more, length);
  }

  /** Skipping restart markers changes nothing about what may be exposed after them. */
  lemma {:induction false} SkipRestarts(items: seq<Item>)
    ensures
      var tail := items[Restarts(items)..];
      && Exposed(items, true) == Exposed(tail, true)
      && AfterAll(items, true) == AfterAll(tail, true)
      && (tail != [] ==> !IsRestart(tail[0].code))
      && ScanCount(items) == ScanCount(tail)
  {
    if items != [] && IsRestart(items[0].code) {
      SkipRestarts(items[1..]);
      assert items[Restarts(items)..] == items[1..][Restarts(items[1..])..];
    }
  }

  lemma {:induction false} AbsorbIsValid(items: seq<Item>)
    requires Bare(items) && !Exposed(items, false)
    ensures ValidItems(Absorb(items)) && Bare(Absorb(items))
    ensures Absorb(items) != [] <==> items != []
    ensures items != [] ==> Absorb(items)[0].code == items[0].code
    ensures ScanCount(Absorb(items)) == ScanCount(items)
    decreases |items|
  {
    if items != [] && items[0].code != SOS {
      AbsorbIsValid(items[1..]);
      assert Absorb(items)[1..] == Absorb(items[1..]);
    } else if items != [] {
      var n := Restarts(items[1..]);
      var tail := items[1 + n..];
      assert items[1..][n..] == tail && items[1..][..n] == items[1..1 + n];
      SkipRestarts(items[1..]);
      ExposedWeakens(tail);
      AbsorbIsValid(tail);
      RestartsAreEntropy(items[1..], n);
      ExtendScan(items[0], PrintItems(items[1..1 + n]));
      assert Absorb(items)[1..] == Absorb(tail);
    }
  }

  // ----- Idempotence -----

  ghost predicate Idempotent(image: Image) {
    var output := PrintImage(CleanImage(image));
    Strip(output) == Success(output)
  }

  /** Read again, the output has the same bytes and nothing left to remove. */
  lemma StripTwice(image: Image)
    requires ValidImage(image) && !Exposed(CleanItems(image.items), false)
    ensures
      var output := PrintImage(CleanImage(image));
      && Strip(output) == Success(output)
      && Parse(output, 2, 0).Success?
      && Bare(Parse(output, 2, 0).value.items)
  {
    var kept := CleanItems(image.items);
    var again := Image(Absorb(kept), 0);
    CleanIsBare(image.items);
    AbsorbIsValid(kept);
    AbsorbPrints(kept);
    BareIsClean(again.items);
    StripPrinted(again, []);
    ParsePrint(again, []);
    assert PrintImage(again) + [] == PrintImage(again);
  }

  /** With the codes T.81 defines, nothing is ever exposed. */
  lemma {:induction false} RealMarkersAreNotExposed(items: seq<Item>, afterScan: bool)
    requires forall i | 0 <= i < |items| :: items[i].code != 0
    ensures !Exposed(CleanItems(items), afterScan)
  {
    if items != [] {
      if IsRemoved(items[0].code) {
        RealMarkersAreNotExposed(items[1..], afterScan);
      } else {
        RealMarkersAreNotExposed(items[1..], After(afterScan, items[0].code));
        assert CleanItems(items)[1..] == CleanItems(items[1..]);
      }
    }
  }

  /** Stripping any accepted file of real markers a second time changes nothing. */
  lemma StripIsIdempotent(input: Buffer, output: Buffer)
    requires Strip(input) == Success(output)
    requires forall i | 0 <= i < |Parse(input, 2, 0).value.items| :: Parse(input, 2, 0).value.items[i].code != 0
    ensures Strip(output) == Success(output)
  {
    var p := Parse(input, 2, 0).value;
    ParseIsValid(input, 2, 0);
    RealMarkersAreNotExposed(p.items, false);
    StripTwice(Image(p.items, p.eoiFill));
  }

  // ----- Exactly which shapes are read back unchanged -----

  /** The same items up to their contents: what a reader of the markers sees. */
  ghost predicate SameShape(a: seq<Item>, b: seq<Item>) {
    |a| == |b| && forall i | 0 <= i < |a| :: a[i].fill == b[i].fill && a[i].code == b[i].code
  }

  /** A body whose four last bytes read as an empty APP1 segment. */
  const POISON: Buffer := [0, 6, 0xff, 0xe1, 0, 2]

  /** The first exposed item, given that body. */
  function Poison(items: seq<Item>, afterScan: bool): seq<Item> {
    if items == [] then []
    else if IsRemoved(items[0].code) then [items[0]] + Poison(items[1..], afterScan)
    else if afterScan && items[0].code == 0 then [items[0].(rest := POISON)] + items[1..]
    else [items[0]] + Poison(items[1..], After(afterScan, items[0].code))
  }

  lemma {:induction false} PoisonKeepsShape(items: seq<Item>, afterScan: bool)
    requires ValidItems(items)
    ensures SameShape(Poison(items, afterScan), items) && ValidItems(Poison(items, afterScan))
    ensures ScanCount(Poison(items, afterScan)) == ScanCount(items)
  {
    if items != [] {
      var poisoned := Poison(items, afterScan);
      if !IsRemoved(items[0].code) && afterScan && items[0].code == 0 {
        assert poisoned[1..] == items[1..];
      } else {
        var next := if IsRemoved(items[0].code) then afterScan else After(afterScan, items[0].code);
        PoisonKeepsShape(items[1..], next);
        assert poisoned[1..] == Poison(items[1..], next);
      }
    }
  }

  /** In the output, the poisoned item is the first exposed one. */
  lemma {:induction false} PoisonIsKept(items: seq<Item>, afterScan: bool) returns (i: nat)
    requires Exposed(CleanItems(items), afterScan)
    ensures
      var kept := CleanItems(Poison(items, afterScan));
      && i < |kept| && kept[i] == Item(0, 0, POISON)
      && AfterAll(kept[..i], afterScan) && !Exposed(kept[..i], afterScan)
  {
    var poisoned := Poison(items, afterScan);
    if IsRemoved(items[0].code) {
      i := PoisonIsKept(items[1..], afterScan);
      assert poisoned[1..] == Poison(items[1..], afterScan);
    } else if afterScan && items[0].code == 0 {
      i := 0;
      assert poisoned[0] == items[0].(rest := POISON);
    } else {
      var next := After(afterScan, items[0].code);
      assert CleanItems(items)[1..] == CleanItems(items[1..]);
      var j := PoisonIsKept(items[1..], next);
      i := j + 1;
      assert poisoned[1..] == Poison(items[1..], next);
      var kept := CleanItems(poisoned);
      assert kept[1..] == CleanItems(poisoned[1..]);
      assert kept[..i][1..] == kept[1..][..j];
    }
  }

  /** When the items end right after scan data, the last item of their second reading is that scan. */
  lemma {:induction false} AbsorbEndsWithScan(items: seq<Item>)
    requires AfterAll(items, false)
    ensures EndsWithScan(Absorb(items))
    decreases |items|
  {
    if items[0].code != SOS {
      AbsorbEndsWithScan(items[1..]);
    } else {
      var n := Restarts(items[1..]);
      var tail := items[1 + n..];
      assert items[1..][n..] == tail;
      SkipRestarts(items[1..]);
      if tail != [] {
        assert After(true, tail[0].code) == After(false, tail[0].code);
        AbsorbEndsWithScan(tail);
      }
    }
  }

  /** The second reading of a poisoned output: the scan takes the item in, up to its fake APP1. */
  lemma PoisonedReading(before: seq<Item>) returns (again: seq<Item>)
    requires Bare(before) && !Exposed(before, false) && AfterAll(before, false)
    ensures ValidItems(again) && EndsWithScan(again)
    ensures PrintItems(again) == PrintItems(before) + [0xff, 0, 0, 6]
  {
    AbsorbIsValid(before);
    AbsorbPrints(before);
    AbsorbEndsWithScan(before);
    var more: Buffer := [0xff, 0, 0, 6];
    assert IsEntropy(more) by {
      assert more[2..] == [0, 6] && [0, 6][1..] == [6] && [6][1..] == [];
    }
    again := ExtendLast(Absorb(before), more);
  }

  /** The last scan takes in more data. */
  lemma ExtendLast(items: seq<Item>, more: Buffer) returns (again: seq<Item>)
    requires ValidItems(items) && Bare(items) && EndsWithScan(items) && IsEntropy(more)
    ensures ValidItems(again) && EndsWithScan(again)
    ensures PrintItems(again) == PrintItems(items) + more
  {
    var last := |items| - 1;
    var scan := items[last];
    ExtendScan(scan, more);
    again := items[..last] + [scan.(rest := scan.rest + more)];
    ReplaceLast(items, again);
    ExtendLastPrints(items[..last], scan, more);
    assert items == items[..last] + [scan];
  }

  lemma ExtendLastPrints(items: seq<Item>, scan: Item, more: Buffer)
    ensures PrintItems(items + [scan.(rest := scan.rest + more)]) == PrintItems(items + [scan]) + more
  {
    var extended := scan.(rest := scan.rest + more);
    PrintItemsJoin(items, [scan]);
    PrintItemsJoin(items, [extended]);
    assert PrintItems([scan]) == PrintItem(scan) && PrintItems([extended]) == PrintItem(extended);
    PrintExtended(scan, more, []);
  }

  lemma {:induction false} ReplaceLast(items: seq<Item>, changed: seq<Item>)
    requires items != [] && |changed| == |items| && changed[..|items| - 1] == items[..|items| - 1]
    requires changed[|items| - 1].fill == items[|items| - 1].fill
    requires changed[|items| - 1].code == items[|items| - 1].code
    requires ValidItems(items) && ValidItem(changed[|items| - 1])
    ensures ValidItems(changed)
  {
    if |items| > 1 {
      assert items[0] == items[..|items| - 1][0] == changed[..|items| - 1][0] == changed[0];
      assert changed[1..][..|items| - 2] == items[1..][..|items| - 2] by {
        assert changed[1..][..|items| - 2] == changed[..|items| - 1][1..];
        assert items[1..][..|items| - 2] == items[..|items| - 1][1..];
      }
      assert changed[1] == changed[1..][0] && items[1] == items[1..][0];
      if |items| > 2 {
        assert changed[1..][..|items| - 2][0] == items[1..][..|items| - 2][0];
      }
      ReplaceLast(items[1..], changed[1..]);
    }
  }

  lemma {:induction false} CleaningShrinks(items: seq<Item>)
    ensures |PrintItems(CleanItems(items))| <= |PrintItems(items)|
    ensures (exists i | 0 <= i < |items| :: IsRemoved(items[i].code)) ==>
      |PrintItems(CleanItems(items))| < |PrintItems(items)|
  {
    if items != [] {
      CleaningShrinks(items[1..]);
      CleanThen(items[0], items[1..]);
      assert [items[0]] + items[1..] == items;
      assert forall i | 1 <= i < |items| :: items[i] == items[1..][i - 1];
    }
  }

  /** A file the walk returns unchanged has no metadata segment for it to remove. */
  lemma UnchangedHasNoMetadata(s: Buffer)
    requires Strip(s) == Success(s)
    ensures forall i | 0 <= i < |Parse(s, 2, 0).value.items| ::
      !IsRemoved(Parse(s, 2, 0).value.items[i].code)
  {
    var p := Parse(s, 2, 0).value;
    ParseIsPrinted(s, 2, 0);
    CleaningShrinks(p.items);
    assert s == [0xff, SOI] + s[2..];
  }

  /** An APP1 segment of length 2, where the walk looks for an item. */
  lemma FakeApp1(s: Buffer, at: nat, scans: nat)
    requires At(s, at, [0xff, 0xe1, 0, 2])
    ensures MarkerStarts(s, at)
    ensures
      var p := Parse(s, at, scans);
      p.Success? ==> p.value.items != [] && p.value.items[0].code == 0xe1
  {
    assert s[at..at + 4][0] == s[at] && s[at..at + 4][1] == s[at + 1];
    assert s[at..at + 4][2] == s[at + 2..][0] && s[at..at + 4][3] == s[at + 2..][1];
  }

  /** A poisoned output does not come back unchanged. */
  lemma PoisonedIsNotIdempotent(image: Image)
    requires ValidImage(image) && Exposed(CleanItems(image.items), false)
    ensures !Idempotent(Image(Poison(image.items, false), 0))
  {
    var items := Poison(image.items, false);
    PoisonKeepsShape(image.items, false);
    CleanIsBare(items);
    var i := PoisonIsKept(image.items, false);
    var kept := CleanItems(items);
    var again := PoisonedReading(kept[..i]);
    var output := PrintImage(CleanImage(Image(items, 0)));
    var end := 2 + |PrintItems(again)|;
    PoisonedLayout(kept, i, again, output);
    var total := ScanCount(again);
    FakeApp1(output, end, total);
    ParseItems(again, output, 2, 0, end, total, Parse(output, end, total));
    var p := Parse(output, 2, 0);
    assert p.Success? ==> |p.value.items| > |again| && p.value.items[|again|].code == 0xe1;
    if Strip(output) == Success(output) {
      UnchangedHasNoMetadata(output);
    }
  }

  lemma PoisonedLayout(kept: seq<Item>, i: nat, again: seq<Item>, output: Buffer)
    requires i < |kept| && kept[i] == Item(0, 0, POISON)
    requires PrintItems(again) == PrintItems(kept[..i]) + [0xff, 0, 0, 6]
    requires output == PrintImage(Image(kept, 0))
    ensures At(output, 2, PrintItems(again)) && At(output, 2 + |PrintItems(again)|, [0xff, 0xe1, 0, 2])
  {
    var start, app1, others: Buffer := [0xff, 0, 0, 6], [0xff, 0xe1, 0, 2], PrintItems(kept[i + 1..]);
    assert kept == kept[..i] + kept[i..] && kept[i..][1..] == kept[i + 1..];
    PrintItemsJoin(kept[..i], kept[i..]);
    assert PrintItem(kept[i]) == start + app1;
    Regroup([0xff, SOI], PrintItems(kept[..i]), start, app1, others, PrintEoi(0));
    AtAfter([0xff, SOI], PrintItems(again), app1 + (others + PrintEoi(0)));
    AtAfter([0xff, SOI] + PrintItems(again), app1, others + PrintEoi(0));
  }

  lemma Regroup(a: Buffer, p: Buffer, x: Buffer, y: Buffer, q: Buffer, e: Buffer)
    ensures a + ((p + ((x + y) + q)) + e) == a + (p + x) + y + (q + e)
    ensures a + ((p + ((x + y) + q)) + e) == a + (p + x) + (y + (q + e))
  {
  }

  /**
   Which outputs come back unchanged, by their markers alone: every image of a shape does if and
   only if the shape exposes no code 0x00 after a scan.
   */
  lemma IdempotentShapes(image: Image)
    requires ValidImage(image)
    ensures
      (forall other | ValidImage(other) && SameShape(other.items, image.items) :: Idempotent(other))
      <==> !Exposed(CleanItems(image.items), false)
  {
    if Exposed(CleanItems(image.items), false) {
      var other := Image(Poison(image.items, false), 0);
      PoisonKeepsShape(image.items, false);
      PoisonedIsNotIdempotent(image);
      assert ValidImage(other) && SameShape(other.items, image.items);
    } else {
      forall other | ValidImage(other) && SameShape(other.items, image.items)
        ensures Idempotent(other)
      {
        ExposedByShape(other.items, image.items, false);
        StripTwice(other);
      }
    }
  }

  lemma {:induction false} ExposedByShape(a: seq<Item>, b: seq<Item>, afterScan: bool)
    requires SameShape(a, b)
    ensures Exposed(CleanItems(a), afterScan) == Exposed(CleanItems(b), afterScan)
  {
    if a != [] {
      if IsRemoved(a[0].code) {
        ExposedByShape(a[1..], b[1..], afterScan);
      } else {
        ExposedByShape(a[1..], b[1..], After(afterScan, a[0].code));
        assert CleanItems(a)[1..] == CleanItems(a[1..]) && CleanItems(b)[1..] == CleanItems(b[1..]);
      }
    }
  }

  /** A concrete file of that kind: SOI, a scan, one fill byte, an item with code 0x00, EOI. */
  lemma ExposedExample()
    ensures
      var scan, zero := Item(0, SOS, [0, 2]), Item(1, 0, POISON);
      var image := Image([scan, zero], 0);
      && ValidImage(image)
      && Strip(PrintImage(image)).Success?
      && Strip(Strip(PrintImage(image)).value) != Strip(PrintImage(image))
  {
    var scan, zero := Item(0, SOS, [0, 2]), Item(1, 0, POISON);
    var image := Image([scan, zero], 0);
    assert image.items[1..] == [zero] && [zero][1..] == [];
    assert ScanCount(image.items) == Scans(ScanCount([zero]), scan);
    assert ValidImage(image);
    assert CleanItems([zero]) == [Item(0, 0, POISON)];
    assert CleanItems(image.items) == [scan, Item(0, 0, POISON)];
    assert CleanItems(image.items)[1..] == [Item(0, 0, POISON)];
    PoisonedIsNotIdempotent(image);
    assert Poison(image.items, false) == image.items;
    StripPrinted(image, []);
    assert PrintImage(image) + [] == PrintImage(image);
  }

  // ----- Slices, and the file type -----

  lemma {:induction false} WalkCopiesSlices(s: Buffer, at: nat, scans: nat) returns (cuts: seq<(nat, nat)>)
    requires at <= |s| && Walk(s, at, scans).Success?
    ensures InOrder(cuts, at, |s|) && (forall c <- cuts :: c.0 <= c.1 <= |s|)
    ensures Gather(s, cuts) == Walk(s, at, scans).value
    decreases |s| - at
  {
    var next := NextItem(s, at).value;
    var item := ItemOf(s, at, next);
    if item.code == EOI {
      cuts := [(next.m, next.end)];
    } else {
      var rest := WalkCopiesSlices(s, next.end, Scans(scans, item));
      var first := if IsRemoved(item.code) then (next.end, next.end) else (next.m, next.end);
      cuts := [first] + rest;
      assert cuts[1..] == rest;
    }
  }

  /** Every accepted output is made of slices of the input, in order. */
  lemma OutputIsSlices(input: Buffer, output: Buffer)
    requires Strip(input) == Success(output)
    ensures IsSlicesOf(output, input)
  {
    WalkIsStrip(input);
    var rest := WalkCopiesSlices(input, 2, 0);
    var cuts := [(0, 2)] + rest;
    assert cuts[1..] == rest;
    assert Gather(input, cuts) == output;
  }

  /** What is accepted is a JPEG file, and so is what comes out, whatever its codes. */
  lemma FileTypePreserved(input: Buffer, output: Buffer)
    requires Strip(input) == Success(output)
    ensures DetectFileType(input) == Some(JPEG) && DetectFileType(output) == Some(JPEG)
  {
    var kept := CleanItems(Parse(input, 2, 0).value.items);
    assert (PrintItems(kept) + PrintEoi(0))[0] == 0xff by {
      if kept != [] {
        ParseIsValid(input, 2, 0);
        CleanIsBare(Parse(input, 2, 0).value.items);
        assert PrintItem(kept[0])[0] == 0xff;
      }
    }
    assert Signature(JPEG) <= input && Signature(JPEG) <= output;
    DetectsBySignature(input, JPEG);
    DetectsBySignature(output, JPEG);
  }
}
