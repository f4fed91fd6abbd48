/** Well-formed UTF-8 byte by byte: the syntax of section 4 of RFC 3629. */
module Utf8Table {
  import opened Prelude
  import opened Utf8

  predicate In(b: byte, low: int, high: int) {
    low <= b as int <= high
  }

  /** UTF8-2, UTF8-3 and UTF8-4 of the syntax. */
  predicate TwoOctets(a: byte, b: byte) {
    In(a, 0xC2, 0xDF) && In(b, 0x80, 0xBF)
  }

  predicate ThreeOctets(a: byte, b: byte, c: byte) {
    && In(c, 0x80, 0xBF)
    && ((a == 0xE0 && In(b, 0xA0, 0xBF)) || (In(a, 0xE1, 0xEC) && In(b, 0x80, 0xBF))
        || (a == 0xED && In(b, 0x80, 0x9F)) || (In(a, 0xEE, 0xEF) && In(b, 0x80, 0xBF)))
  }

  predicate FourOctets(a: byte, b: byte, c: byte, d: byte) {
    && In(c, 0x80, 0xBF) && In(d, 0x80, 0xBF)
    && ((a == 0xF0 && In(b, 0x90, 0xBF)) || (In(a, 0xF1, 0xF3) && In(b, 0x80, 0xBF))
        || (a == 0xF4 && In(b, 0x80, 0x8F)))
  }

  /** A sequence of characters. */
  predicate Octets(text: Bytes)
    decreases |text|
  {
    || text == []
    || (In(text[0], 0x00, 0x7F) && Octets(text[1..]))
    || (|text| >= 2 && TwoOctets(text[0], text[1]) && Octets(text[2..]))
    || (|text| >= 3 && ThreeOctets(text[0], text[1], text[2]) && Octets(text[3..]))
    || (|text| >= 4 && FourOctets(text[0], text[1], text[2], text[3]) && Octets(text[4..]))
  }

  lemma TwoAreLeading(text: Bytes)
    requires |text| >= 1 && In(text[0], 0xC0, 0xDF)
    ensures Leading(text).Some? <==> |text| >= 2 && TwoOctets(text[0], text[1])
  {
    if |text| >= 2 && LeadOf(text[0]).Multi? {
      assert text[1..2] == [text[1]];
      ContinueOne(text[0] as int % 32, text[1]);
    }
  }

  lemma ThreeAreLeading(text: Bytes)
    requires |text| >= 1 && In(text[0], 0xE0, 0xEF)
    ensures Leading(text).Some? <==> |text| >= 3 && ThreeOctets(text[0], text[1], text[2])
  {
    if |text| >= 3 {
      assert text[1..3] == [text[1], text[2]];
      ContinueTwo(text[0] as int % 16, text[1], text[2]);
    }
  }

  lemma FourAreLeading(text: Bytes)
    requires |text| >= 1 && In(text[0], 0xF0, 0xF4)
    ensures Leading(text).Some? <==> |text| >= 4 && FourOctets(text[0], text[1], text[2], text[3])
  {
    if |text| >= 4 {
      assert text[1..4] == [text[1], text[2], text[3]];
      ContinueThree(text[0] as int % 8, text[1], text[2], text[3]);
    }
  }

  lemma FirstCharacter(text: Bytes)
    requires text != []
    ensures Leading(text).Some? <==>
      || In(text[0], 0x00, 0x7F)
      || (|text| >= 2 && TwoOctets(text[0], text[1]))
      || (|text| >= 3 && ThreeOctets(text[0], text[1], text[2]))
      || (|text| >= 4 && FourOctets(text[0], text[1], text[2], text[3]))
  {
    if In(text[0], 0xC0, 0xDF) {
      TwoAreLeading(text);
    } else if In(text[0], 0xE0, 0xEF) {
      ThreeAreLeading(text);
    } else if In(text[0], 0xF0, 0xF4) {
      FourAreLeading(text);
    }
  }

  /** The concatenations of encoded scalar values are exactly the texts of the syntax. */
  lemma {:induction false} WellFormedIsSyntax(text: Bytes)
    ensures WellFormed(text) <==> Octets(text)
    decreases |text|
  {
    if text == [] {
      AsciiIsWellFormed(text);
    } else {
      WellFormedStep(text);
      FirstCharacter(text);
      if Width(text[0]) <= |text| {
        WellFormedIsSyntax(text[Width(text[0])..]);
      }
    }
  }
}
