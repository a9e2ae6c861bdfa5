/** What the program asks of text fields: trimmed content and a size in UTF-8 bytes. */
module Text {

  /** White space as `trim` removes it. */
  predicate IsWhitespace(c: char) {
    c in {'\U{0009}', '\U{000A}', '\U{000B}', '\U{000C}', '\U{000D}', ' ', '\U{0085}', '\U{00A0}', '\U{1680}', '\U{2028}', '\U{2029}', '\U{202F}', '\U{205F}', '\U{3000}'}
    || '\U{2000}' <= c <= '\U{200A}'
  }

  function Trim(s: string): string {
    if s == "" then s
    else if IsWhitespace(s[0]) then Trim(s[1..])
    else if IsWhitespace(s[|s| - 1]) then Trim(s[..|s| - 1])
    else s
  }

  ghost predicate Blank(s: string) { forall i | 0 <= i < |s| :: IsWhitespace(s[i]) }

  lemma BlankAround(c: char, s: string)
    requires IsWhitespace(c) && Blank(s)
    ensures Blank([c] + s) && Blank(s + [c])
  {
  }

  lemma Around(s: string, c: char, front: string, middle: string, back: string)
    requires s == front + middle + back
    ensures [c] + s == ([c] + front) + middle + back && s + [c] == front + middle + (back + [c])
  {
  }

  /** Trimming takes white space off both ends, all of it and nothing else. */
  lemma {:induction false} TrimIs(s: string) returns (front: string, back: string)
    ensures s == front + Trim(s) + back && Blank(front) && Blank(back)
    ensures Trim(s) != "" ==> !IsWhitespace(Trim(s)[0]) && !IsWhitespace(Trim(s)[|Trim(s)| - 1])
    decreases |s|
  {
    front, back := "", "";
    if s != "" && IsWhitespace(s[0]) {
      front, back := TrimIs(s[1..]);
      Around(s[1..], s[0], front, Trim(s), back);
      BlankAround(s[0], front);
      front := [s[0]] + front;
    } else if s != "" && IsWhitespace(s[|s| - 1]) {
      front, back := TrimIs(s[..|s| - 1]);
      Around(s[..|s| - 1], s[|s| - 1], front, Trim(s), back);
      BlankAround(s[|s| - 1], back);
      back := back + [s[|s| - 1]];
    }
  }

  /** The white space of Unicode, by code point. */
  lemma WhitespaceIs(c: char)
    ensures IsWhitespace(c) <==>
      || 0x9 <= c as int <= 0xD || c as int == 0x20 || c as int == 0x85 || c as int == 0xA0 || c as int == 0x1680
      || 0x2000 <= c as int <= 0x200A || c as int == 0x2028 || c as int == 0x2029 || c as int == 0x202F || c as int == 0x205F
      || c as int == 0x3000
  {
  }

  /** One to four bytes a character, by code point. */
  lemma Utf8Of(s: string, c: char)
    ensures Utf8Length("") == 0
    ensures c as int <= 0x7F ==> Utf8Length(s + [c]) == Utf8Length(s) + 1
    ensures 0x80 <= c as int <= 0x7FF ==> Utf8Length(s + [c]) == Utf8Length(s) + 2
    ensures 0x800 <= c as int <= 0xFFFF ==> Utf8Length(s + [c]) == Utf8Length(s) + 3
    ensures 0x1_0000 <= c as int ==> Utf8Length(s + [c]) == Utf8Length(s) + 4
  {
    assert (s + [c])[..|s|] == s;
  }

  function Utf8Length(text: string): nat {
    if text == "" then 0
    else
      var c := text[|text| - 1] as int;
      Utf8Length(text[..|text| - 1]) + if c < 0x80 then 1 else if c < 0x800 then 2 else if c < 0x1_0000 then 3 else 4
  }
}
