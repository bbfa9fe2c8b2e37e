/**
 How PostgreSQL reads the text of a UUID column (migrations/init.sql:114-116): 32 hexadecimal digits in upper or lower
 case, with a hyphen allowed after every fourth digit but the last, in braces or not. Several texts are one id.
 */
module Uuid {

  datatype Option<T> = None | Some(value: T)

  predicate IsHex(c: char) {
    '0' <= c <= '9' || 'a' <= c <= 'f' || 'A' <= c <= 'F'
  }

  function Lower(c: char): char {
    if 'A' <= c <= 'F' then (c as int + 32) as char else c
  }

  function Upper(c: char): char {
    if 'a' <= c <= 'f' then (c as int - 32) as char else c
  }

  /** The text after byte `i`, without the hyphen that may stand there. */
  function AfterHyphen(text: string, i: nat): string {
    if text != [] && text[0] == '-' && i % 2 == 1 && i < 15 then text[1..] else text
  }

  /** The digits of the bytes from `i` to 15, in lower case. */
  function Bytes(text: string, i: nat): Option<string>
    requires i <= 16
    decreases |text|
  {
    if i == 16 then if text == [] then Some("") else None
    else if |text| < 2 || !IsHex(text[0]) || !IsHex(text[1]) then None
    else
      match Bytes(AfterHyphen(text[2..], i), i + 1)
      case None => None
      case Some(digits) => Some([Lower(text[0]), Lower(text[1])] + digits)
  }

  /** The text without the braces around it, if it has them. */
  function Inside(text: string): string {
    if |text| >= 2 && text[0] == '{' && text[|text| - 1] == '}' then text[1..|text| - 1] else text
  }

  /** The id that a text stands for, if any. */
  function Canonical(text: string): Option<string> {
    Bytes(Inside(text), 0)
  }

  predicate ColonFree(s: string) {
    forall i :: 0 <= i < |s| ==> s[i] != ':'
  }

  lemma {:induction false} BytesAreColonFree(text: string, i: nat)
    requires i <= 16 && Bytes(text, i).Some?
    ensures ColonFree(text)
    decreases 16 - i
  {
    if i < 16 {
      var rest := AfterHyphen(text[2..], i);
      BytesAreColonFree(rest, i + 1);
      assert ColonFree(text[2..]) by {
        if rest != text[2..] {
          assert text[2..] == [text[2]] + rest && text[2] == '-';
        }
      }
      assert text == text[..2] + text[2..];
    }
  }

  lemma InsideColonFree(text: string)
    requires ColonFree(Inside(text))
    ensures ColonFree(text)
  {
    if Inside(text) != text {
      assert text == ['{'] + Inside(text) + ['}'];
    }
  }

  /** No text with a colon in it is an id. */
  lemma IdsAreColonFree(text: string)
    requires Canonical(text).Some?
    ensures ColonFree(text)
  {
    BytesAreColonFree(Inside(text), 0);
    InsideColonFree(text);
  }

  // Two spellings of one id

  function Uppers(text: string): string {
    seq(|text|, i requires 0 <= i < |text| => Upper(text[i]))
  }

  /** Two texts whose first bytes agree, and that agree after them, are read alike. */
  lemma BytesEqual(text: string, other: string, i: nat)
    requires i < 16 && |text| >= 2 && |other| >= 2
    requires IsHex(text[0]) == IsHex(other[0]) && IsHex(text[1]) == IsHex(other[1])
    requires Lower(text[0]) == Lower(other[0]) && Lower(text[1]) == Lower(other[1])
    requires Bytes(AfterHyphen(text[2..], i), i + 1) == Bytes(AfterHyphen(other[2..], i), i + 1)
    ensures Bytes(text, i) == Bytes(other, i)
  {
  }

  lemma UppersAt(text: string, i: nat)
    ensures AfterHyphen(Uppers(text), i) == Uppers(AfterHyphen(text, i))
    ensures |text| >= 2 ==> Uppers(text)[2..] == Uppers(text[2..])
  {
    if text != [] {
      assert Uppers(text)[1..] == Uppers(text[1..]);
    }
  }

  lemma {:induction false} UppersSameBytes(text: string, i: nat)
    requires i <= 16
    ensures Bytes(Uppers(text), i) == Bytes(text, i)
    decreases |text|
  {
    if i < 16 && |text| >= 2 {
      UppersAt(text, i);
      UppersAt(text[2..], i);
      UppersSameBytes(AfterHyphen(text[2..], i), i + 1);
      BytesEqual(text, Uppers(text), i);
    }
  }

  lemma UppersInside(text: string)
    ensures Inside(Uppers(text)) == Uppers(Inside(text))
  {
  }

  /** Upper case does not change the id. */
  lemma UppersSameId(text: string)
    ensures Canonical(Uppers(text)) == Canonical(text)
  {
    UppersInside(text);
    UppersSameBytes(Inside(text), 0);
  }

  function Repeated(n: nat): string {
    if n == 0 then "" else "ab" + Repeated(n - 1)
  }

  /** An id that is its own lower-case text. */
  lemma {:induction false} RepeatedIsId(n: nat)
    requires n <= 16
    ensures Bytes(Repeated(n), 16 - n) == Some(Repeated(n))
  {
    if n > 0 {
      assert Repeated(n)[2..] == Repeated(n - 1);
      RepeatedIsId(n - 1);
    }
  }

  /** An id with two spellings. */
  lemma TwoSpellings()
    ensures var text := Repeated(16);
            Uppers(text) != text && Canonical(Uppers(text)) == Canonical(text) == Some(text)
  {
    var text := Repeated(16);
    RepeatedIsId(16);
    UppersSameId(text);
    assert text[0] == 'a' && Uppers(text)[0] == 'A';
  }

  // Hyphens and braces

  /** The text with hyphens after bytes 3, 5, 7 and 9, as from byte `i`: the form 8-4-4-4-12 for a whole id. */
  function Hyphenated(text: string, i: nat): string
    decreases |text|
  {
    if |text| < 2 then text
    else text[..2] + (if i == 3 || i == 5 || i == 7 || i == 9 then "-" else "") + Hyphenated(text[2..], i + 1)
  }

  lemma NoHyphenAhead(text: string, i: nat)
    requires text == [] || IsHex(text[0])
    ensures AfterHyphen(text, i) == text
  {
  }

  lemma HyphenatedAt(text: string, i: nat)
    requires |text| >= 2 && forall j :: 0 <= j < |text| ==> IsHex(text[j])
    ensures var marked := Hyphenated(text, i);
            && |marked| >= 2 && marked[0] == text[0] && marked[1] == text[1]
            && (i < 15 ==> AfterHyphen(marked[2..], i) == Hyphenated(text[2..], i + 1))
            && (|text| == 2 && i >= 10 ==> marked[2..] == text[2..])
  {
    var rest := Hyphenated(text[2..], i + 1);
    var hyphen := if i == 3 || i == 5 || i == 7 || i == 9 then "-" else "";
    assert Hyphenated(text, i) == text[..2] + (hyphen + rest);
    assert Hyphenated(text, i)[2..] == hyphen + rest;
    assert rest != [] ==> IsHex(rest[0]);
    if hyphen == "-" {
      assert (hyphen + rest)[1..] == rest;
    } else {
      assert hyphen + rest == rest;
      NoHyphenAhead(rest, i);
    }
  }

  /** The hyphens of the usual form do not change the id. */
  lemma {:induction false} HyphensSameBytes(text: string, i: nat)
    requires i <= 16 && |text| == 2 * (16 - i) && forall j :: 0 <= j < |text| ==> IsHex(text[j])
    ensures Bytes(Hyphenated(text, i), i) == Bytes(text, i)
    decreases |text|
  {
    if i < 16 {
      HyphensSameBytes(text[2..], i + 1);
      HyphenatedAt(text, i);
      NoHyphenAhead(text[2..], i);
      BytesEqual(text, Hyphenated(text, i), i);
    }
  }

  /** So an id in the usual form is the id of its 32 digits. */
  lemma HyphensSameId(text: string)
    requires |text| == 32 && forall j :: 0 <= j < |text| ==> IsHex(text[j])
    ensures Canonical(Hyphenated(text, 0)) == Canonical(text)
  {
    assert Hyphenated(text, 0)[0] == text[0];
    assert Inside(text) == text && Inside(Hyphenated(text, 0)) == Hyphenated(text, 0);
    HyphensSameBytes(text, 0);
  }

  /** Neither do braces around the text. */
  lemma BracesSameId(text: string)
    requires Inside(text) == text
    ensures Canonical("{" + text + "}") == Canonical(text)
  {
    assert Inside("{" + text + "}") == text;
  }
}
