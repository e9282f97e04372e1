/**
 * `generate_random_code`, the default primary key of a staff invitation:
 * the text of a fresh UUID4, upper-cased, with its hyphens removed, cut to
 * the requested length. The UUID text is an input.
 */
module Codes {
  import opened Text

  /** The default code length. */
  const DefaultCodeLength := 5

  predicate IsHexDigit(c: char)
  {
    '0' <= c <= '9' || 'a' <= c <= 'f' || 'A' <= c <= 'F'
  }

  predicate IsUpperHexDigit(c: char)
  {
    '0' <= c <= '9' || 'A' <= c <= 'F'
  }

  /** Positions of the four hyphens in the canonical 36-character UUID text. */
  predicate IsHyphenPosition(i: int)
  {
    i == 8 || i == 13 || i == 18 || i == 23
  }

  /** The text `str(uuid.uuid4())`: hex digits in groups of 8-4-4-4-12 joined by hyphens. */
  predicate IsUuidText(s: string)
  {
    |s| == 36 && forall i | 0 <= i < 36 :: if IsHyphenPosition(i) then s[i] == '-' else IsHexDigit(s[i])
  }

  /** `generate_random_code(length=5)` given the UUID text the call would draw. */
  function GenerateRandomCode(uuidText: string, length: int := DefaultCodeLength): (r: string)
    ensures '-' !in r
    ensures r <= RemoveAll(Upper(uuidText), "-")
  {
    var stripped := RemoveAll(Upper(uuidText), "-");
    RemoveCharKeeps(Upper(uuidText), '-');
    SliceTo(stripped, length)
  }

  /** A block of hex digits is upper-cased into upper-case hex digits and has no hyphen. */
  lemma UpperHexBlock(b: string)
    requires forall i | 0 <= i < |b| :: IsHexDigit(b[i])
    ensures forall i | 0 <= i < |Upper(b)| :: IsUpperHexDigit(Upper(b)[i])
    ensures '-' !in Upper(b)
  {
  }

  /** Upper-casing distributes over concatenation. */
  lemma UpperAppend(a: string, b: string)
    ensures Upper(a + b) == Upper(a) + Upper(b)
  {
  }

  /** Removing hyphens from two parts joined by a hyphen strips each part. */
  lemma StripJoin(a: string, b: string)
    ensures RemoveAll(a + "-" + b, "-") == RemoveAll(a, "-") + RemoveAll(b, "-")
  {
    RemoveCharAppend(a + "-", b, '-');
    RemoveCharAppend(a, "-", '-');
    assert RemoveAll("-", "-") == [];
  }

  /** Removing the hyphens that join five hyphen-free blocks concatenates the blocks. */
  lemma StripJoined(b0: string, b1: string, b2: string, b3: string, b4: string)
    requires '-' !in b0 && '-' !in b1 && '-' !in b2 && '-' !in b3 && '-' !in b4
    ensures RemoveAll(b0 + "-" + b1 + "-" + b2 + "-" + b3 + "-" + b4, "-") == b0 + b1 + b2 + b3 + b4
  {
    RemoveCharAbsent(b0, '-');
    RemoveCharAbsent(b1, '-');
    RemoveCharAbsent(b2, '-');
    RemoveCharAbsent(b3, '-');
    RemoveCharAbsent(b4, '-');
    var x1 := b0 + "-" + b1;
    StripJoin(b0, b1);
    var x2 := x1 + "-" + b2;
    StripJoin(x1, b2);
    var x3 := x2 + "-" + b3;
    StripJoin(x2, b3);
    StripJoin(x3, b4);
  }

  /** The UUID text upper-cased is its five upper-cased groups joined by hyphens. */
  lemma UpperUuidGroups(s: string)
    requires IsUuidText(s)
    ensures Upper(s) == Upper(s[..8]) + "-" + Upper(s[9..13]) + "-" + Upper(s[14..18]) + "-"
                        + Upper(s[19..23]) + "-" + Upper(s[24..])
  {
    var h := "-";
    assert s == s[..8] + h + s[9..13] + h + s[14..18] + h + s[19..23] + h + s[24..];
    assert Upper(h) == h;
    UpperAppend(s[..8] + h + s[9..13] + h + s[14..18] + h + s[19..23] + h, s[24..]);
    UpperAppend(s[..8] + h + s[9..13] + h + s[14..18] + h + s[19..23], h);
    UpperAppend(s[..8] + h + s[9..13] + h + s[14..18] + h, s[19..23]);
    UpperAppend(s[..8] + h + s[9..13] + h + s[14..18], h);
    UpperAppend(s[..8] + h + s[9..13] + h, s[14..18]);
    UpperAppend(s[..8] + h + s[9..13], h);
    UpperAppend(s[..8] + h, s[9..13]);
    UpperAppend(s[..8], h);
  }

  /** A UUID's text, upper-cased and stripped of hyphens, is 32 upper-case hex digits. */
  lemma StrippedUuid(s: string)
    requires IsUuidText(s)
    ensures |RemoveAll(Upper(s), "-")| == 32
    ensures forall i | 0 <= i < 32 :: IsUpperHexDigit(RemoveAll(Upper(s), "-")[i])
  {
    var b0, b1, b2, b3, b4 := Upper(s[..8]), Upper(s[9..13]), Upper(s[14..18]), Upper(s[19..23]), Upper(s[24..]);
    UpperUuidGroups(s);
    UpperHexBlock(s[..8]);
    UpperHexBlock(s[9..13]);
    UpperHexBlock(s[14..18]);
    UpperHexBlock(s[19..23]);
    UpperHexBlock(s[24..]);
    StripJoined(b0, b1, b2, b3, b4);
    var stripped := b0 + b1 + b2 + b3 + b4;
    forall i | 0 <= i < 32
      ensures IsUpperHexDigit(stripped[i])
    {
      if i < 8 {
        assert stripped[i] == b0[i];
      } else if i < 12 {
        assert stripped[i] == b1[i - 8];
      } else if i < 16 {
        assert stripped[i] == b2[i - 12];
      } else if i < 20 {
        assert stripped[i] == b3[i - 16];
      } else {
        assert stripped[i] == b4[i - 20];
      }
    }
  }

  /**
   * For a UUID's text, the code has min(length, 32) characters, all of them
   * upper-case hex digits, and is a prefix of the stripped, upper-cased text.
   */
  lemma CodeShape(uuidText: string, length: int)
    requires IsUuidText(uuidText)
    requires length >= 0
    ensures |GenerateRandomCode(uuidText, length)| == if length <= 32 then length else 32
    ensures forall i | 0 <= i < |GenerateRandomCode(uuidText, length)| ::
      IsUpperHexDigit(GenerateRandomCode(uuidText, length)[i])
  {
    StrippedUuid(uuidText);
  }

  /** The default code has five characters. */
  lemma DefaultCodeHasFiveCharacters(uuidText: string)
    requires IsUuidText(uuidText)
    ensures |GenerateRandomCode(uuidText)| == 5
  {
    StrippedUuid(uuidText);
  }

  /** A negative length counts from the right, as Python slicing does: -2 keeps 30 characters. */
  lemma NegativeLengthCountsFromRight(uuidText: string)
    requires IsUuidText(uuidText)
    ensures |GenerateRandomCode(uuidText, -2)| == 30
  {
    StrippedUuid(uuidText);
  }
}
