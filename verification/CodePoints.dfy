/** Text as the languages of the repository see it: code points, lone surrogates included. */
module CodePoints {
  import opened Wrappers

  type CodePoint = c: int | 0 <= c < 0x11_0000
  type Text = seq<CodePoint>

  /** Where Python's `str.splitlines` breaks. */
  predicate IsLineBreak(c: CodePoint) {
    10 <= c <= 13 || 28 <= c <= 30 || c == 0x85 || c == 0x2028 || c == 0x2029
  }

  /** What Python's `str.strip` and `str.split` take for white space. */
  predicate IsWhiteSpace(c: CodePoint) {
    || IsLineBreak(c) || c == 9 || c == 31 || c == 32 || c == 0xA0 || c == 0x1680
    || 0x2000 <= c <= 0x200A || c == 0x202F || c == 0x205F || c == 0x3000
  }

  /** The value of a hexadecimal digit of either case. */
  function HexValue(c: CodePoint): Option<nat> {
    if 48 <= c <= 57 then Some(c - 48)
    else if 97 <= c <= 102 then Some(c - 97 + 10)
    else if 65 <= c <= 70 then Some(c - 65 + 10)
    else None
  }
}
