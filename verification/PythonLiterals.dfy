/** Python string literals as section 2.4.1 of the Python 3.13 Language Reference reads them: where a
    literal ends and what it denotes. */
module PythonLiterals {
  import opened CodePoints
  import opened Wrappers

  const NUL: CodePoint := 0
  const TAB: CodePoint := 9
  const LF: CodePoint := 10
  const CR: CodePoint := 13
  const QUOTE: CodePoint := 34
  const APOSTROPHE: CodePoint := 39
  const ZERO: CodePoint := 48
  const BACKSLASH: CodePoint := 92

  const TRIPLE: Text := [QUOTE, QUOTE, QUOTE]

  // ----- Source text -----

  /** Reading source turns a carriage return, with or without a line feed after it, into a line feed. */
  function NormalizeNewlines(s: Text): Text {
    if s == [] then []
    else if s[0] == CR then
      [LF] + (if |s| > 1 && s[1] == LF then NormalizeNewlines(s[2..]) else NormalizeNewlines(s[1..]))
    else [s[0]] + NormalizeNewlines(s[1..])
  }

  // ----- Escape sequences -----

  /** The value of exactly `n` leading hex digits. */
  function HexPrefix(s: Text, n: nat): (r: Option<nat>)
    ensures r.Some? ==> n <= |s|
  {
    if n == 0 then Some(0)
    else if |s| < n then None
    else
      match (HexPrefix(s, n - 1), HexValue(s[n - 1]))
      case (Some(v), Some(d)) => Some(v * 16 + d)
      case _ => None
  }

  predicate IsOctal(c: CodePoint) { 48 <= c <= 55 }

  /** Up to three octal digits. */
  function OctalLength(s: Text): (n: nat)
    ensures n <= |s| && n <= 3
  {
    if s == [] || !IsOctal(s[0]) then 0
    else if |s| == 1 || !IsOctal(s[1]) then 1
    else if |s| == 2 || !IsOctal(s[2]) then 2
    else 3
  }

  function OctalValue(s: Text): nat
    requires forall i | 0 <= i < |s| :: IsOctal(s[i])
  {
    if s == [] then 0
    else
      var last: int := s[|s| - 1];
      assert IsOctal(s[|s| - 1]);
      OctalValue(s[..|s| - 1]) * 8 + (last - 48)
  }

  /** One escape sequence: what it denotes and how many characters after the backslash it takes. */
  datatype Escape = Escape(text: Text, length: nat)

  function Hex(s: Text, digits: nat): (r: Option<Escape>)
    requires s != []
    ensures r.Some? ==> 1 <= r.value.length <= |s|
  {
    match HexPrefix(s[1..], digits)
    case None => None
    case Some(v) => if v < 0x11_0000 then Some(Escape([v], 1 + digits)) else None
  }

  /** The character an escape of a single letter or sign denotes. */
  function Simple(c: CodePoint): Option<Text> {
    if c == LF then Some([])                    // backslash at the end of a line
    else if c == BACKSLASH || c == APOSTROPHE || c == QUOTE then Some([c])
    else if c == 97 then Some([7])              // \a
    else if c == 98 then Some([8])              // \b
    else if c == 102 then Some([12])            // \f
    else if c == 110 then Some([LF])            // \n
    else if c == 114 then Some([CR])            // \r
    else if c == 116 then Some([TAB])           // \t
    else if c == 118 then Some([11])            // \v
    else None
  }

  /** What follows a backslash, or `None` if the literal is malformed. A sequence Python does not know
      stands for itself, backslash included. `\N{...}` needs the names of Unicode and is not known here. */
  function ReadEscape(s: Text): (r: Option<Escape>)
    requires s != []
    ensures r.Some? ==> 1 <= r.value.length <= |s|
  {
    if Simple(s[0]).Some? then Some(Escape(Simple(s[0]).value, 1))
    else if IsOctal(s[0]) then
      var digits := s[..OctalLength(s)];
      OctalDigits(s);
      if OctalValue(digits) < 0x11_0000 then Some(Escape([OctalValue(digits)], |digits|)) else None
    else if s[0] == 120 then Hex(s, 2)          // \xhh
    else if s[0] == 117 then Hex(s, 4)          // \uxxxx
    else if s[0] == 85 then Hex(s, 8)           // \Uxxxxxxxx
    else if s[0] == 78 then None                // \N{...}
    else Some(Escape([BACKSLASH, s[0]], 1))
  }

  lemma OctalDigits(s: Text)
    requires s != [] && IsOctal(s[0])
    ensures OctalLength(s) >= 1
    ensures forall i | 0 <= i < OctalLength(s) :: IsOctal(s[..OctalLength(s)][i])
  {
  }

  // ----- Literals -----

  datatype Scanned = Scanned(text: Text, rest: Text)

  function Prepend(t: Text, r: Option<Scanned>): Option<Scanned> {
    match r case None => None case Some(s) => Some(Scanned(t + s.text, s.rest))
  }

  /** Reads on inside a literal: up to the first delimiter that no backslash protects. The result is
      what the literal denotes and the source after it; `None` if there is a NUL, an unprotected line
      end in a single-quoted literal, a malformed escape, or no end. */
  function Scan(s: Text, delimiter: Text): Option<Scanned>
    requires delimiter == [QUOTE] || delimiter == TRIPLE
  {
    if delimiter <= s then Some(Scanned([], s[|delimiter|..]))
    else if s == [] || s[0] == NUL then None
    else if s[0] == LF && |delimiter| == 1 then None
    else if s[0] != BACKSLASH then Prepend([s[0]], Scan(s[1..], delimiter))
    else if |s| == 1 then None
    else
      match ReadEscape(s[1..])
      case None => None
      case Some(e) => Prepend(e.text, Scan(s[1 + e.length..], delimiter))
  }

  /** A triple-quoted literal at the start of the source, newlines normalized. */
  function ReadTripleQuoted(source: Text): Option<Scanned> {
    var s := NormalizeNewlines(source);
    if TRIPLE <= s then Scan(s[3..], TRIPLE) else None
  }

  /** A literal in single double-quotes at the start of the source; three of them open the other kind. */
  function ReadQuoted(source: Text): Option<Scanned> {
    var s := NormalizeNewlines(source);
    if s != [] && s[0] == QUOTE && !(TRIPLE <= s) then Scan(s[1..], [QUOTE]) else None
  }
}
