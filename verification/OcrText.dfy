/**
 The technical normalization of a page's text: Unicode NFC, then line endings. NFC is any function here that
 neither adds nor removes a carriage return; the pages of the rest of the model are in NFC already.
 */
module OcrText {

  const CR := '\r'
  const LF := '\n'

  /** "\r\n" and "\r" become "\n". */
  function NormalizeText(text: string): string {
    if text == [] then []
    else if text[0] != CR then [text[0]] + NormalizeText(text[1..])
    else if |text| > 1 && text[1] == LF then [LF] + NormalizeText(text[2..])
    else [LF] + NormalizeText(text[1..])
  }

  function NormalizePages(pages: seq<string>): seq<string> {
    seq(|pages|, i requires 0 <= i < |pages| => NormalizeText(pages[i]))
  }

  lemma {:induction false} NoCarriageReturnLeft(text: string)
    ensures CR !in NormalizeText(text)
  {
    if text != [] {
      NoCarriageReturnLeft(text[1..]);
      if |text| > 1 {
        NoCarriageReturnLeft(text[2..]);
      }
    }
  }

  lemma {:induction false} LineEndingsChangeExactly(text: string)
    ensures NormalizeText(text) == text <==> CR !in text
  {
    if CR in text {
      NoCarriageReturnLeft(text);
    } else if text != [] {
      LineEndingsChangeExactly(text[1..]);
    }
  }

  /** normalizeOcrText. */
  function NormalizeOcrText(nfc: string -> string, text: string): string {
    NormalizeText(nfc(text))
  }

  ghost predicate KeepsReturns(nfc: string -> string) {
    forall t: string :: CR in nfc(t) <==> CR in t
  }

  /** A text changes exactly when it holds a carriage return or is not in NFC. */
  lemma NormalizeChangesExactly(nfc: string -> string, text: string)
    requires KeepsReturns(nfc)
    ensures NormalizeOcrText(nfc, text) == text <==> CR !in text && nfc(text) == text
  {
    LineEndingsChangeExactly(nfc(text));
    NoCarriageReturnLeft(nfc(text));
  }
}
