/** `escape_docstring_text` and `py_literal`: what they write is read back by Python as the text they
    were given. */
module DocstringEscape {
  import opened CodePoints
  import opened Wrappers
  import opened PythonLiterals

  // ----- str.replace -----

  /** `s.replace(old, new)`: occurrences from the left, none overlapping. */
  function Replace(s: Text, old_: Text, new_: Text): Text
    requires old_ != []
    decreases |s|
  {
    if s == [] then []
    else if old_ <= s then new_ + Replace(s[|old_|..], old_, new_)
    else [s[0]] + Replace(s[1..], old_, new_)
  }

  const ESCAPED_BACKSLASH: Text := [BACKSLASH, BACKSLASH]
  const ESCAPED_TRIPLE: Text := [BACKSLASH, QUOTE, BACKSLASH, QUOTE, BACKSLASH, QUOTE]
  const ESCAPED_NUL: Text := [BACKSLASH, 120, ZERO, ZERO]

  function EscapeDocstringText(text: Text): Text {
    Replace(Replace(Replace(text, [BACKSLASH], ESCAPED_BACKSLASH), TRIPLE, ESCAPED_TRIPLE), [NUL], ESCAPED_NUL)
  }

  // ----- One pass -----

  /** How much of the text the single pass takes at a time. */
  function Chunk(t: Text): nat
    requires t != []
    ensures 1 <= Chunk(t) <= |t|
  {
    if TRIPLE <= t then 3 else 1
  }

  /** What it writes for it. */
  function One(t: Text): Text
    requires t != []
  {
    if TRIPLE <= t then ESCAPED_TRIPLE
    else if t[0] == BACKSLASH then ESCAPED_BACKSLASH
    else if t[0] == NUL then ESCAPED_NUL
    else [t[0]]
  }

  /** The three passes in one: each character, or three quotes in a row, goes its own way. */
  function Escape1(t: Text): Text
    decreases |t|
  {
    if t == [] then [] else One(t) + Escape1(t[Chunk(t)..])
  }

  function Double(t: Text): Text { Replace(t, [BACKSLASH], ESCAPED_BACKSLASH) }
  function Quotes(t: Text): Text { Replace(t, TRIPLE, ESCAPED_TRIPLE) }
  function Nuls(t: Text): Text { Replace(t, [NUL], ESCAPED_NUL) }

  lemma StartsWithOne(c: CodePoint, s: Text)
    requires s != []
    ensures [c] <= s <==> s[0] == c
  {
    assert [c] <= s ==> [c][0] == s[0];
    assert s[0] == c ==> s[..1] == [c];
  }

  lemma DoubleStep(t: Text)
    requires t != []
    ensures Double(t) == (if t[0] == BACKSLASH then ESCAPED_BACKSLASH else [t[0]]) + Double(t[1..])
  {
    StartsWithOne(BACKSLASH, t);
  }

  lemma NulsStep(t: Text)
    requires t != []
    ensures Nuls(t) == (if t[0] == NUL then ESCAPED_NUL else [t[0]]) + Nuls(t[1..])
  {
    StartsWithOne(NUL, t);
  }

  lemma TripleMeans(s: Text)
    ensures TRIPLE <= s <==> |s| >= 3 && s[0] == QUOTE && s[1] == QUOTE && s[2] == QUOTE
  {
    if |s| >= 3 && s[0] == QUOTE && s[1] == QUOTE && s[2] == QUOTE {
      assert s[..3] == TRIPLE;
    }
  }

  /** Doubling backslashes neither makes nor breaks three quotes at the front. */
  lemma DoubleKeepsTriple(t: Text)
    ensures TRIPLE <= t <==> TRIPLE <= Double(t)
    ensures TRIPLE <= t ==> Double(t) == TRIPLE + Double(t[3..])
  {
    TripleMeans(t);
    TripleMeans(Double(t));
    if t != [] {
      DoubleStep(t);
      if t[0] == QUOTE && |t| > 1 {
        DoubleStep(t[1..]);
        if t[1] == QUOTE && |t| > 2 {
          DoubleStep(t[2..]);
          assert t[1..][1..] == t[2..] && t[2..][1..] == t[3..];
        }
      }
    }
  }

  lemma {:induction false} NulsConcat(a: Text, b: Text)
    ensures Nuls(a + b) == Nuls(a) + Nuls(b)
    decreases |a|
  {
    if a == [] {
      assert a + b == b;
    } else {
      NulsStep(a + b);
      NulsStep(a);
      assert (a + b)[1..] == a[1..] + b;
      NulsConcat(a[1..], b);
    }
  }

  lemma NulsLeaves(a: Text)
    requires NUL !in a
    ensures Nuls(a) == a
  {
    if a != [] {
      NulsStep(a);
      NulsLeaves(a[1..]);
    }
  }

  lemma QuotesStep(t: Text)
    requires t != [] && !(TRIPLE <= t)
    ensures Quotes(t) == [t[0]] + Quotes(t[1..])
  {
  }

  /** The three replacements do what the single pass does. */
  lemma {:induction false} ThreePassesAreOne(t: Text)
    ensures EscapeDocstringText(t) == Escape1(t)
    decreases |t|
  {
    if t == [] {
    } else if TRIPLE <= t {
      DoubleKeepsTriple(t);
      var d := Double(t);
      assert d[3..] == Double(t[3..]);
      NulsConcat(ESCAPED_TRIPLE, Quotes(Double(t[3..])));
      NulsLeaves(ESCAPED_TRIPLE);
      ThreePassesAreOne(t[3..]);
    } else {
      DoubleKeepsTriple(t);
      DoubleStep(t);
      var d, rest := Double(t), Double(t[1..]);
      QuotesStep(d);
      if t[0] == BACKSLASH {
        assert d[1..] == [BACKSLASH] + rest;
        QuotesStep(d[1..]);
        assert d[1..][1..] == rest;
        assert Quotes(d) == ESCAPED_BACKSLASH + Quotes(rest);
        NulsConcat(ESCAPED_BACKSLASH, Quotes(rest));
        NulsLeaves(ESCAPED_BACKSLASH);
      } else {
        assert d[1..] == rest;
        NulsStep([t[0]] + Quotes(rest));
        assert ([t[0]] + Quotes(rest))[1..] == Quotes(rest);
      }
      ThreePassesAreOne(t[1..]);
    }
  }

  // ----- Reading it back -----

  /** How many quotes the text ends with. */
  function TrailingQuotes(t: Text): (n: nat)
    ensures n <= |t|
  {
    if t == [] || t[|t| - 1] != QUOTE then 0 else 1 + TrailingQuotes(t[..|t| - 1])
  }

  lemma PrependPrepend(a: Text, b: Text, r: Option<Scanned>)
    ensures Prepend(a, Prepend(b, r)) == Prepend(a + b, r)
  {
    if r.Some? {
      assert a + (b + r.value.text) == (a + b) + r.value.text;
    }
  }

  lemma PrependNothing(r: Option<Scanned>)
    ensures Prepend([], r) == r
  {
    if r.Some? {
      assert [] + r.value.text == r.value.text;
    }
  }

  lemma ScanPlain(c: CodePoint, rest: Text)
    requires c != NUL && c != BACKSLASH && !(TRIPLE <= [c] + rest)
    ensures Scan([c] + rest, TRIPLE) == Prepend([c], Scan(rest, TRIPLE))
  {
    assert ([c] + rest)[1..] == rest;
  }

  lemma ScanSimple(c: CodePoint, rest: Text)
    requires c == BACKSLASH || c == QUOTE
    ensures Scan([BACKSLASH, c] + rest, TRIPLE) == Prepend([c], Scan(rest, TRIPLE))
  {
    var s := [BACKSLASH, c] + rest;
    assert s[1..] == [c] + rest && s[2..] == rest;
  }

  lemma TripleInSteps(rest: Text)
    ensures ESCAPED_TRIPLE + rest == [BACKSLASH, QUOTE] + ([BACKSLASH, QUOTE] + ([BACKSLASH, QUOTE] + rest))
  {
  }

  lemma EscapedTriple(rest: Text)
    ensures Scan(ESCAPED_TRIPLE + rest, TRIPLE) == Prepend(TRIPLE, Scan(rest, TRIPLE))
  {
    var one := [BACKSLASH, QUOTE] + rest;
    var two := [BACKSLASH, QUOTE] + one;
    ScanSimple(QUOTE, rest);
    ScanSimple(QUOTE, one);
    ScanSimple(QUOTE, two);
    TripleInSteps(rest);
    PrependThrice(Scan(rest, TRIPLE));
  }

  lemma PrependThrice(r: Option<Scanned>)
    ensures Prepend([QUOTE], Prepend([QUOTE], Prepend([QUOTE], r))) == Prepend(TRIPLE, r)
  {
    PrependPrepend([QUOTE], [QUOTE], r);
    PrependPrepend([QUOTE], [QUOTE] + [QUOTE], r);
    assert [QUOTE] + ([QUOTE] + [QUOTE]) == TRIPLE;
  }

  lemma EscapedNul(rest: Text)
    ensures Scan(ESCAPED_NUL + rest, TRIPLE) == Prepend([NUL], Scan(rest, TRIPLE))
  {
    var s := ESCAPED_NUL + rest;
    assert s[1..] == [120, ZERO, ZERO] + rest;
    assert s[1..][1..] == [ZERO, ZERO] + rest;
    assert HexPrefix([ZERO, ZERO] + rest, 1) == Some(0);
    assert HexPrefix([ZERO, ZERO] + rest, 2) == Some(0);
    assert ReadEscape(s[1..]) == Some(Escape([NUL], 3));
    assert s[4..] == rest;
  }

  lemma EscapeInFront(t: Text, tail: Text)
    requires t != []
    ensures Escape1(t) + tail == One(t) + (Escape1(t[Chunk(t)..]) + tail)
  {
  }

  /** Reading the escape of one chunk gives the chunk, unless a quote left alone meets a delimiter. */
  lemma ScanChunk(t: Text, tail: Text)
    requires t != []
    requires t[0] == QUOTE && !(TRIPLE <= t) ==> !(TRIPLE <= Escape1(t) + tail)
    ensures Scan(Escape1(t) + tail, TRIPLE) == Prepend(t[..Chunk(t)], Scan(Escape1(t[Chunk(t)..]) + tail, TRIPLE))
  {
    EscapeInFront(t, tail);
    ScanOne(t, Escape1(t[Chunk(t)..]) + tail);
  }

  lemma ScanOne(t: Text, rest: Text)
    requires t != []
    requires t[0] == QUOTE && !(TRIPLE <= t) ==> !(TRIPLE <= One(t) + rest)
    ensures Scan(One(t) + rest, TRIPLE) == Prepend(t[..Chunk(t)], Scan(rest, TRIPLE))
  {
    if TRIPLE <= t {
      assert t[..3] == TRIPLE;
      EscapedTriple(rest);
    } else {
      assert t[..1] == [t[0]];
      if t[0] == BACKSLASH {
        ScanSimple(BACKSLASH, rest);
      } else if t[0] == NUL {
        EscapedNul(rest);
      } else {
        TripleMeans([t[0]] + rest);
        ScanPlain(t[0], rest);
      }
    }
  }

  lemma HeadAfterEscape(t: Text, tail: Text)
    requires t != []
    ensures (Escape1(t) + tail) != []
    ensures (Escape1(t) + tail)[0] == QUOTE <==> t[0] == QUOTE && !(TRIPLE <= t)
    ensures t[0] == QUOTE && !(TRIPLE <= t) ==> (Escape1(t) + tail)[1..] == Escape1(t[1..]) + tail
  {
    EscapeInFront(t, tail);
    TripleMeans(t);
    assert One(t)[0] == QUOTE <==> t[0] == QUOTE && !(TRIPLE <= t);
  }

  /** How many quotes the text starts with. */
  function LeadingQuotes(s: Text): (n: nat)
    ensures n <= |s|
  {
    if s == [] || s[0] != QUOTE then 0 else 1 + LeadingQuotes(s[1..])
  }

  lemma {:induction false} LeadingMeans(s: Text, k: nat)
    ensures LeadingQuotes(s) >= k <==> |s| >= k && forall i | 0 <= i < k :: s[i] == QUOTE
  {
    if k > 0 && s != [] && s[0] == QUOTE {
      LeadingMeans(s[1..], k - 1);
      assert forall i | 0 < i < |s| :: s[i] == s[1..][i - 1];
    }
  }

  lemma TripleIsThree(s: Text)
    ensures TRIPLE <= s <==> LeadingQuotes(s) >= 3
  {
    LeadingMeans(s, 3);
    TripleMeans(s);
  }

  /** One or two quotes in front are left alone, and if they are the whole text they meet those of the
      tail. */
  lemma {:induction false} LeadingAfterEscape(t: Text, tail: Text)
    requires LeadingQuotes(t) < 3
    ensures LeadingQuotes(Escape1(t) + tail) ==
            if LeadingQuotes(t) == |t| then |t| + LeadingQuotes(tail) else LeadingQuotes(t)
  {
    if t == [] {
      assert Escape1(t) + tail == tail;
    } else {
      TripleIsThree(t);
      HeadAfterEscape(t, tail);
      if t[0] == QUOTE {
        LeadingAfterEscape(t[1..], tail);
      }
    }
  }

  lemma AllQuotes(t: Text)
    ensures LeadingQuotes(t) == |t| <==> TrailingQuotes(t) == |t|
  {
    LeadingMeans(t, |t|);
    AllTrailing(t);
  }

  lemma {:induction false} AllTrailing(t: Text)
    ensures TrailingQuotes(t) == |t| <==> forall i | 0 <= i < |t| :: t[i] == QUOTE
  {
    if t != [] {
      AllTrailing(t[..|t| - 1]);
    }
  }

  /** With a quote in front, but not three, three quotes appear after escaping only at the end. */
  lemma LoneQuotes(t: Text, tail: Text)
    requires t != [] && t[0] == QUOTE && !(TRIPLE <= t)
    ensures TRIPLE <= Escape1(t) + tail ==> TrailingQuotes(t) == |t| < 3 && tail != [] && tail[0] == QUOTE
  {
    TripleIsThree(t);
    TripleIsThree(Escape1(t) + tail);
    LeadingAfterEscape(t, tail);
    AllQuotes(t);
  }

  /** Escaped text followed by anything but a quote is read back as the text. In particular it holds no
      delimiter, no malformed escape, and no backslash that reaches into what follows. */
  lemma EscapedTextReadsBack(t: Text, tail: Text)
    requires tail == [] || tail[0] != QUOTE
    ensures Scan(EscapeDocstringText(t) + tail, TRIPLE) == Prepend(t, Scan(tail, TRIPLE))
  {
    ThreePassesAreOne(t);
    ReadsBack(t, tail);
  }

  lemma {:induction false} ReadsBack(t: Text, tail: Text)
    requires tail == [] || tail[0] != QUOTE
    ensures Scan(Escape1(t) + tail, TRIPLE) == Prepend(t, Scan(tail, TRIPLE))
    decreases |t|
  {
    if t == [] {
      assert Escape1(t) + tail == tail;
      PrependNothing(Scan(tail, TRIPLE));
    } else {
      if t[0] == QUOTE && !(TRIPLE <= t) {
        LoneQuotes(t, tail);
      }
      var n := Chunk(t);
      ScanChunk(t, tail);
      ReadsBack(t[n..], tail);
      PrependPrepend(t[..n], t[n..], Scan(tail, TRIPLE));
      assert t == t[..n] + t[n..];
    }
  }

  lemma {:induction false} TrailingOfRest(t: Text, n: nat)
    requires n <= |t|
    ensures TrailingQuotes(t[n..]) == if TrailingQuotes(t) <= |t| - n then TrailingQuotes(t) else |t| - n
    decreases |t|
  {
    if n < |t| && t[|t| - 1] == QUOTE {
      TrailingOfRest(t[..|t| - 1], n);
      assert t[n..][..|t| - n - 1] == t[..|t| - 1][n..];
    }
  }

  lemma {:induction false} TrailingAreQuotes(t: Text)
    ensures forall i | |t| - TrailingQuotes(t) <= i < |t| :: t[i] == QUOTE
  {
    if t != [] && t[|t| - 1] == QUOTE {
      TrailingAreQuotes(t[..|t| - 1]);
    }
  }

  lemma PrependIsWhole(a: Text, b: Text, r: Option<Scanned>, rest: Text)
    ensures Prepend(a, r) == Some(Scanned(a + b, rest)) <==> r == Some(Scanned(b, rest))
  {
    if r.Some? && a + r.value.text == a + b {
      assert (a + r.value.text)[|a|..] == r.value.text && (a + b)[|a|..] == b;
    }
  }

  /** Put right against the closing delimiter, escaped text is read back exactly if the number of quotes
      it ends with is a multiple of three: those are escaped in threes, one or two are left alone. */
  lemma {:induction false} AgainstTheDelimiter(t: Text, rest: Text)
    ensures Scan(Escape1(t) + (TRIPLE + rest), TRIPLE) == Some(Scanned(t, rest)) <==> TrailingQuotes(t) % 3 == 0
    decreases |t|
  {
    var tail := TRIPLE + rest;
    if t == [] {
      assert Escape1(t) + tail == tail && tail[3..] == rest;
    } else if IsOneOrTwoQuotes(t) {
      OneOrTwoQuotes(t, tail);
      EndsAtOnce(Escape1(t) + tail);
    } else {
      AgainstTheDelimiter(t[Chunk(t)..], rest);
      if t[0] == QUOTE && !(TRIPLE <= t) {
        LoneQuotes(t, tail);
      }
      FirstChunkIsRead(t, rest);
      SameTrailing(t);
    }
  }

  predicate IsOneOrTwoQuotes(t: Text) { 0 < TrailingQuotes(t) == |t| < 3 }

  lemma OneOrTwoQuotes(t: Text, tail: Text)
    requires IsOneOrTwoQuotes(t) && TRIPLE <= tail
    ensures TRIPLE <= Escape1(t) + tail
  {
    AllQuotes(t);
    LeadingAfterEscape(t, tail);
    TripleIsThree(tail);
    TripleIsThree(Escape1(t) + tail);
  }

  lemma EndsAtOnce(s: Text)
    requires TRIPLE <= s
    ensures Scan(s, TRIPLE) == Some(Scanned([], s[3..]))
  {
  }

  lemma FirstChunkIsRead(t: Text, rest: Text)
    requires t != []
    requires t[0] == QUOTE && !(TRIPLE <= t) ==> !(TRIPLE <= Escape1(t) + (TRIPLE + rest))
    ensures Scan(Escape1(t) + (TRIPLE + rest), TRIPLE) == Some(Scanned(t, rest)) <==>
            Scan(Escape1(t[Chunk(t)..]) + (TRIPLE + rest), TRIPLE) == Some(Scanned(t[Chunk(t)..], rest))
  {
    var n := Chunk(t);
    ScanChunk(t, TRIPLE + rest);
    PrependIsWhole(t[..n], t[n..], Scan(Escape1(t[n..]) + (TRIPLE + rest), TRIPLE), rest);
    assert t == t[..n] + t[n..];
  }

  lemma SameTrailing(t: Text)
    requires t != [] && !IsOneOrTwoQuotes(t)
    ensures TrailingQuotes(t[Chunk(t)..]) % 3 == TrailingQuotes(t) % 3
  {
    TrailingOfRest(t, Chunk(t));
    if TrailingQuotes(t) == |t| {
      ThreeAreTaken(t);
    } else {
      TrailingShort(t);
    }
  }

  lemma ThreeAreTaken(t: Text)
    requires TrailingQuotes(t) == |t| >= 3
    ensures Chunk(t) == 3
  {
    TrailingAreQuotes(t);
    TripleMeans(t);
  }

  /** If not all of the text is trailing quotes, its first chunk is not among them. */
  lemma TrailingShort(t: Text)
    requires t != [] && TrailingQuotes(t) < |t|
    ensures TrailingQuotes(t) <= |t| - Chunk(t)
  {
    TripleMeans(t);
    if TRIPLE <= t && TrailingQuotes(t) > |t| - 3 {
      TrailingMaximal(t);
    }
  }

  lemma {:induction false} TrailingMaximal(t: Text)
    ensures TrailingQuotes(t) < |t| ==> t[|t| - 1 - TrailingQuotes(t)] != QUOTE
  {
    if t != [] && t[|t| - 1] == QUOTE {
      TrailingMaximal(t[..|t| - 1]);
    }
  }

  // ----- Newlines -----

  /** How much of the text becomes the first character. */
  function Unit(t: Text): nat
    requires t != []
    ensures 1 <= Unit(t) <= |t|
  {
    if t[0] == CR && |t| > 1 && t[1] == LF then 2 else 1
  }

  lemma NormalizeUnit(t: Text)
    requires t != []
    ensures NormalizeNewlines(t) == [if t[0] == CR then LF else t[0]] + NormalizeNewlines(t[Unit(t)..])
  {
  }

  lemma SameUnit(a: Text, b: Text)
    requires a != [] && (b == [] || b[0] != LF || a[|a| - 1] != CR)
    ensures Unit(a + b) == Unit(a) && (a + b)[Unit(a)..] == a[Unit(a)..] + b
  {
  }

  lemma NormalizeUnitOfConcat(a: Text, b: Text)
    requires a != [] && (b == [] || b[0] != LF || a[|a| - 1] != CR)
    ensures NormalizeNewlines(a + b) == [if a[0] == CR then LF else a[0]] + NormalizeNewlines(a[Unit(a)..] + b)
  {
    SameUnit(a, b);
    NormalizeUnit(a + b);
  }

  lemma OneThenTwo(c: CodePoint, x: Text, y: Text)
    ensures [c] + (x + y) == [c] + x + y
  {
  }

  lemma {:induction false} NormalizeConcat(a: Text, b: Text)
    requires b == [] || b[0] != LF || a == [] || a[|a| - 1] != CR
    ensures NormalizeNewlines(a + b) == NormalizeNewlines(a) + NormalizeNewlines(b)
    decreases |a|
  {
    if a == [] {
      assert a + b == b;
    } else {
      NormalizeUnit(a);
      NormalizeUnitOfConcat(a, b);
      NormalizeConcat(a[Unit(a)..], b);
      OneThenTwo(if a[0] == CR then LF else a[0], NormalizeNewlines(a[Unit(a)..]), NormalizeNewlines(b));
    }
  }

  /** Normalizing leaves a text alone exactly if it has no carriage return. */
  lemma {:induction false} NormalizeFixes(t: Text)
    ensures CR !in NormalizeNewlines(t)
    ensures CR !in t ==> NormalizeNewlines(t) == t
    decreases |t|
  {
    if t != [] {
      NormalizeFixes(t[1..]);
      if |t| > 1 {
        NormalizeFixes(t[2..]);
      }
      assert t == [t[0]] + t[1..];
    }
  }

  lemma NormalizeStep(t: Text)
    requires t != [] && t[0] != CR
    ensures NormalizeNewlines(t) == [t[0]] + NormalizeNewlines(t[1..])
  {
  }

  lemma NormalizeTriple(t: Text)
    requires TRIPLE <= t
    ensures NormalizeNewlines(t) == TRIPLE + NormalizeNewlines(t[3..])
  {
    assert t == TRIPLE + t[3..];
    NormalizeConcat(TRIPLE, t[3..]);
    NormalizeFixes(TRIPLE);
  }

  lemma NormalizeHead(t: Text)
    requires t != []
    ensures NormalizeNewlines(t) != [] && (NormalizeNewlines(t)[0] == QUOTE <==> t[0] == QUOTE)
    ensures t[0] == QUOTE ==> NormalizeNewlines(t)[1..] == NormalizeNewlines(t[1..])
  {
  }

  lemma NormalizeNoTriple(t: Text)
    requires !(TRIPLE <= t)
    ensures !(TRIPLE <= NormalizeNewlines(t))
  {
    var n0 := NormalizeNewlines(t);
    TripleMeans(t);
    TripleMeans(n0);
    if TRIPLE <= n0 {
      NormalizeHead(t);
      assert n0[1..][0] == QUOTE;
      var n1 := NormalizeNewlines(t[1..]);
      assert n1[0] == QUOTE && n1[1] == QUOTE;
      NormalizeHead(t[1..]);
      NormalizeHead(t[1..][1..]);
    }
  }

  /** Escaping and normalizing newlines do not get in each other's way. */
  lemma {:induction false} NormalizeEscaped(t: Text)
    ensures NormalizeNewlines(Escape1(t)) == Escape1(NormalizeNewlines(t))
    decreases |t|, 1
  {
    if t == [] {
    } else if t[0] == CR {
      NormalizeCarriageReturn(t);
    } else {
      var n, one := Chunk(t), One(t);
      NormalizeEscaped(t[n..]);
      NormalizeConcat(one, Escape1(t[n..]));
      NormalizeFixes(one);
      NormalizedChunk(t);
    }
  }

  /** A chunk without a carriage return is the same chunk after normalizing. */
  lemma NormalizedChunk(t: Text)
    requires t != [] && t[0] != CR
    ensures Escape1(NormalizeNewlines(t)) == One(t) + Escape1(NormalizeNewlines(t[Chunk(t)..]))
  {
    var n := NormalizeNewlines(t);
    if TRIPLE <= t {
      NormalizeTriple(t);
      assert n[3..] == NormalizeNewlines(t[3..]);
    } else {
      NormalizeNoTriple(t);
      NormalizeStep(t);
      assert n[1..] == NormalizeNewlines(t[1..]);
    }
  }

  lemma {:induction false} NormalizeCarriageReturn(t: Text)
    requires t != [] && t[0] == CR
    ensures NormalizeNewlines(Escape1(t)) == Escape1(NormalizeNewlines(t))
    decreases |t|, 0
  {
    var n := if |t| > 1 && t[1] == LF then 2 else 1;
    var rest := NormalizeNewlines(t[n..]);
    assert NormalizeNewlines(Escape1(t)) == [LF] + NormalizeNewlines(Escape1(t[n..])) by { EscapedLineEnd(t, n); }
    NormalizeEscaped(t[n..]);
    assert NormalizeNewlines(t) == [LF] + rest;
    PlainUnit(LF, rest);
  }

  lemma PlainUnit(c: CodePoint, rest: Text)
    requires c != QUOTE && c != BACKSLASH && c != NUL
    ensures Escape1([c] + rest) == [c] + Escape1(rest)
  {
    TripleMeans([c] + rest);
    assert ([c] + rest)[1..] == rest;
  }

  /** The line end at the front of the escaped text is the one at the front of the text. */
  lemma EscapedLineEnd(t: Text, n: nat)
    requires t != [] && t[0] == CR && n == if |t| > 1 && t[1] == LF then 2 else 1
    ensures NormalizeNewlines(Escape1(t)) == [LF] + NormalizeNewlines(Escape1(t[n..]))
  {
    var e := Escape1(t);
    assert e == [CR] + Escape1(t[1..]) && e[1..] == Escape1(t[1..]) by { TripleMeans(t); }
    if |t| > 1 {
      SecondLineFeed(t[1..]);
      assert t[1..][1..] == t[2..];
    }
    assert e[n..] == Escape1(t[n..]);
  }

  lemma SecondLineFeed(u: Text)
    requires u != []
    ensures Escape1(u) != [] && (Escape1(u)[0] == LF <==> u[0] == LF)
    ensures u[0] == LF ==> Escape1(u)[1..] == Escape1(u[1..])
  {
    TripleMeans(u);
    assert One(u)[0] == LF <==> u[0] == LF;
  }

  lemma {:induction false} NormalizeKeepsTrailing(t: Text)
    ensures TrailingQuotes(NormalizeNewlines(t)) == TrailingQuotes(t)
    decreases |t|
  {
    if t != [] {
      var init, last := t[..|t| - 1], t[|t| - 1];
      assert t == init + [last];
      if last == QUOTE {
        NormalizeConcat(init, [last]);
        NormalizeKeepsTrailing(init);
        assert NormalizeNewlines(t) == NormalizeNewlines(init) + [QUOTE];
        assert NormalizeNewlines(t)[..|NormalizeNewlines(t)| - 1] == NormalizeNewlines(init);
      } else {
        NormalizeEndsAlike(t);
      }
    }
  }

  lemma {:induction false} NormalizeEndsAlike(t: Text)
    requires t != []
    ensures NormalizeNewlines(t) != []
    ensures var n := NormalizeNewlines(t); n[|n| - 1] == if t[|t| - 1] == CR then LF else t[|t| - 1]
    decreases |t|
  {
    var n := if t[0] == CR && |t| > 1 && t[1] == LF then 2 else 1;
    if |t| > n {
      NormalizeEndsAlike(t[n..]);
    }
  }

  // ----- The whole literal -----

  /** A text escaped and put between triple quotes is read back as itself, with nothing of what follows
      the literal swallowed, exactly if it has no carriage return and the number of quotes at its end is
      a multiple of three. */
  lemma DocstringRoundTrip(t: Text, rest: Text)
    ensures ReadTripleQuoted(TRIPLE + (EscapeDocstringText(t) + (TRIPLE + rest))) ==
            Some(Scanned(t, NormalizeNewlines(rest)))
            <==> CR !in t && TrailingQuotes(t) % 3 == 0
  {
    ThreePassesAreOne(t);
    var inner := Escape1(t) + (TRIPLE + rest);
    var n := NormalizeNewlines(t);
    NormalizeConcat(TRIPLE, inner);
    NormalizeConcat(Escape1(t), TRIPLE + rest);
    NormalizeConcat(TRIPLE, rest);
    NormalizeFixes(TRIPLE);
    NormalizeEscaped(t);
    var s := NormalizeNewlines(TRIPLE + inner);
    assert s[3..] == Escape1(n) + (TRIPLE + NormalizeNewlines(rest));
    AgainstTheDelimiter(n, NormalizeNewlines(rest));
    NormalizeKeepsTrailing(t);
    NormalizeFixes(t);
    if CR in t && ReadTripleQuoted(TRIPLE + inner) == Some(Scanned(t, NormalizeNewlines(rest))) {
      ScanTextHasNoCarriageReturn(n, NormalizeNewlines(rest));
    }
  }

  /** What is read from escaped text without carriage returns has none. */
  lemma {:induction false} ScanTextHasNoCarriageReturn(n: Text, rest: Text)
    requires CR !in n
    ensures var read := Scan(Escape1(n) + (TRIPLE + rest), TRIPLE);
            read.Some? ==> CR !in read.value.text
    decreases |n|
  {
    var tail := TRIPLE + rest;
    if n == [] {
      assert Escape1(n) + tail == tail;
    } else if n[0] == QUOTE && !(TRIPLE <= n) && TRIPLE <= Escape1(n) + tail {
    } else {
      ScanChunk(n, tail);
      ScanTextHasNoCarriageReturn(n[Chunk(n)..], rest);
    }
  }

  predicate IsBlank(s: Text) {
    forall i | 0 <= i < |s| :: s[i] == LF || s[i] == 32
  }

  /** White space between the text and the delimiter. */
  predicate IsIndent(s: Text) {
    s != [] && IsBlank(s)
  }

  lemma {:induction false} IndentEscapesToItself(indent: Text)
    requires IsBlank(indent)
    ensures Escape1(indent) == indent
  {
    if indent != [] {
      TripleMeans(indent);
      IndentEscapesToItself(indent[1..]);
      assert indent == [indent[0]] + indent[1..];
    }
  }

  /** Unless quotes meet, two texts are escaped apart from each other. */
  lemma {:induction false} EscapeConcat(a: Text, b: Text)
    requires a == [] || b == [] || a[|a| - 1] != QUOTE || b[0] != QUOTE
    ensures Escape1(a + b) == Escape1(a) + Escape1(b)
    decreases |a|
  {
    var s := a + b;
    if a == [] {
      assert s == b;
    } else {
      var n := Chunk(a);
      SameFirstChunk(a, b);
      assert s[n..] == a[n..] + b;
      EscapeConcat(a[n..], b);
      EscapeInFront(a, Escape1(b));
    }
  }

  lemma SameFirstChunk(a: Text, b: Text)
    requires a != [] && (b == [] || a[|a| - 1] != QUOTE || b[0] != QUOTE)
    ensures Chunk(a + b) == Chunk(a) && One(a + b) == One(a)
  {
    TripleMeans(a);
    TripleMeans(a + b);
  }

  /** With the closing delimiter on its own line any text without carriage returns comes back, however
      many quotes it ends with. */
  lemma DocstringOnItsOwnLine(t: Text, indent: Text, rest: Text)
    requires IsIndent(indent)
    ensures ReadTripleQuoted(TRIPLE + (EscapeDocstringText(t) + (indent + (TRIPLE + rest)))) ==
            Some(Scanned(t + indent, NormalizeNewlines(rest)))
            <==> CR !in t
  {
    IndentIsEscapedToo(t, indent, TRIPLE + rest);
    IndentIsPlain(t, indent);
    DocstringRoundTrip(t + indent, rest);
  }

  lemma IndentIsEscapedToo(t: Text, indent: Text, tail: Text)
    requires IsIndent(indent)
    ensures EscapeDocstringText(t) + (indent + tail) == EscapeDocstringText(t + indent) + tail
  {
    assert EscapeDocstringText(t + indent) == EscapeDocstringText(t) + indent by {
      ThreePassesAreOne(t);
      ThreePassesAreOne(t + indent);
      IndentEscapesToItself(indent);
      EscapeConcat(t, indent);
    }
    Associate(EscapeDocstringText(t), indent, tail);
  }

  lemma Associate(a: Text, b: Text, c: Text)
    ensures a + (b + c) == a + b + c
  {
  }

  lemma IndentIsPlain(t: Text, indent: Text)
    requires IsIndent(indent)
    ensures TrailingQuotes(t + indent) == 0
    ensures CR in t + indent <==> CR in t
  {
    assert (t + indent)[|t + indent| - 1] == indent[|indent| - 1];
  }

  /** The escaped text holds no NUL, which Python refuses to read at all. */
  lemma NoNul(t: Text)
    ensures NUL !in EscapeDocstringText(t)
  {
    ThreePassesAreOne(t);
    NoNul1(t);
  }

  lemma {:induction false} NoNul1(t: Text)
    ensures NUL !in Escape1(t)
    decreases |t|
  {
    if t != [] {
      NoNul1(t[Chunk(t)..]);
    }
  }

  // ----- py_literal -----

  function HexDigit(n: nat): CodePoint
    requires n < 16
  {
    if n < 10 then 48 + n else 97 + n - 10
  }

  /** How `json.dumps(..., ensure_ascii=False)` writes a character. */
  function JsonChar(c: CodePoint): Text {
    if c == BACKSLASH || c == QUOTE then [BACKSLASH, c]
    else if c == 8 then [BACKSLASH, 98]
    else if c == 12 then [BACKSLASH, 102]
    else if c == LF then [BACKSLASH, 110]
    else if c == CR then [BACKSLASH, 114]
    else if c == TAB then [BACKSLASH, 116]
    else if c < 32 then [BACKSLASH, 117, ZERO, ZERO, HexDigit(c / 16), HexDigit(c % 16)]
    else [c]
  }

  /** Nothing is escaped but quotes, backslashes and the control characters. */
  lemma JsonLeavesTheRest(c: CodePoint)
    ensures JsonChar(c) == [c] <==> c >= ' ' as int && c != '"' as int && c != '\\' as int
  {
  }

  function JsonBody(t: Text): Text {
    if t == [] then [] else JsonChar(t[0]) + JsonBody(t[1..])
  }

  function PyLiteral(t: Text): Text {
    [QUOTE] + JsonBody(t) + [QUOTE]
  }

  lemma ScanEscape(s: Text, e: Escape)
    requires |s| >= 2 && s[0] == BACKSLASH && ReadEscape(s[1..]) == Some(e)
    ensures Scan(s, [QUOTE]) == Prepend(e.text, Scan(s[1 + e.length..], [QUOTE]))
  {
  }

  lemma FourDigits(c: CodePoint, rest: Text)
    requires c < 32
    ensures HexPrefix([ZERO, ZERO, HexDigit(c / 16), HexDigit(c % 16)] + rest, 4) == Some(c)
  {
    var digits := [ZERO, ZERO, HexDigit(c / 16), HexDigit(c % 16)] + rest;
    assert HexPrefix(digits, 1) == Some(0);
    assert HexPrefix(digits, 2) == Some(0);
    assert HexPrefix(digits, 3) == Some(c / 16);
  }

  lemma ScanJsonHex(c: CodePoint, rest: Text)
    requires c < 32 && JsonChar(c) == [BACKSLASH, 117, ZERO, ZERO, HexDigit(c / 16), HexDigit(c % 16)]
    ensures Scan(JsonChar(c) + rest, [QUOTE]) == Prepend([c], Scan(rest, [QUOTE]))
  {
    var s := JsonChar(c) + rest;
    FourDigits(c, rest);
    assert s[1..][1..] == [ZERO, ZERO, HexDigit(c / 16), HexDigit(c % 16)] + rest;
    ScanEscape(s, Escape([c], 5));
    assert s[6..] == rest;
  }

  lemma ScanJsonShort(c: CodePoint, rest: Text)
    requires |JsonChar(c)| == 2
    ensures Scan(JsonChar(c) + rest, [QUOTE]) == Prepend([c], Scan(rest, [QUOTE]))
  {
    var s := JsonChar(c) + rest;
    assert Simple(s[1]) == Some([c]);
    ScanEscape(s, Escape([c], 1));
    assert s[2..] == rest;
  }

  lemma ScanJsonPlain(c: CodePoint, rest: Text)
    requires |JsonChar(c)| == 1
    ensures Scan(JsonChar(c) + rest, [QUOTE]) == Prepend([c], Scan(rest, [QUOTE]))
  {
    var s := [c] + rest;
    assert JsonChar(c) == [c] && s[1..] == rest;
    StartsWithOne(QUOTE, s);
  }

  lemma ScanJsonChar(c: CodePoint, rest: Text)
    ensures Scan(JsonChar(c) + rest, [QUOTE]) == Prepend([c], Scan(rest, [QUOTE]))
  {
    if |JsonChar(c)| == 1 {
      ScanJsonPlain(c, rest);
    } else if |JsonChar(c)| == 2 {
      ScanJsonShort(c, rest);
    } else {
      ScanJsonHex(c, rest);
    }
  }

  lemma {:induction false} ScanJsonBody(t: Text, rest: Text)
    ensures Scan(JsonBody(t) + ([QUOTE] + rest), [QUOTE]) == Some(Scanned(t, rest))
  {
    var tail := [QUOTE] + rest;
    if t == [] {
      assert JsonBody(t) + tail == tail && tail[1..] == rest;
    } else {
      JsonInFront(t, tail);
      ScanJsonChar(t[0], JsonBody(t[1..]) + tail);
      ScanJsonBody(t[1..], rest);
      PrependOne(t, rest);
    }
  }

  lemma JsonInFront(t: Text, tail: Text)
    requires t != []
    ensures JsonBody(t) + tail == JsonChar(t[0]) + (JsonBody(t[1..]) + tail)
  {
  }

  lemma PrependOne(t: Text, rest: Text)
    requires t != []
    ensures Prepend([t[0]], Some(Scanned(t[1..], rest))) == Some(Scanned(t, rest))
  {
    assert [t[0]] + t[1..] == t;
  }

  lemma {:induction false} JsonBodyIsOneLine(t: Text)
    ensures CR !in JsonBody(t) && LF !in JsonBody(t)
    ensures t != [] ==> JsonBody(t) != [] && JsonBody(t)[0] != QUOTE
  {
    if t != [] {
      JsonBodyIsOneLine(t[1..]);
    }
  }

  /** Normalizing newlines leaves a literal alone. */
  lemma LiteralThenNormalize(t: Text, rest: Text)
    ensures NormalizeNewlines(PyLiteral(t) + rest) == [QUOTE] + (JsonBody(t) + ([QUOTE] + NormalizeNewlines(rest)))
  {
    LiteralIsOneLine(t);
    NormalizeFixes(PyLiteral(t));
    NormalizeConcat(PyLiteral(t), rest);
    Regroup(JsonBody(t), NormalizeNewlines(rest));
  }

  lemma LiteralIsOneLine(t: Text)
    ensures CR !in PyLiteral(t) && PyLiteral(t)[|PyLiteral(t)| - 1] != CR
  {
    JsonBodyIsOneLine(t);
  }

  lemma Regroup(body: Text, rest: Text)
    ensures [QUOTE] + body + [QUOTE] + rest == [QUOTE] + (body + ([QUOTE] + rest))
  {
  }

  /** Only an empty literal with a quote after it looks like the start of a triple-quoted one. */
  lemma LooksTriple(t: Text, r: Text)
    ensures TRIPLE <= [QUOTE] + (JsonBody(t) + ([QUOTE] + r)) <==> t == [] && r != [] && r[0] == QUOTE
  {
    var s := [QUOTE] + (JsonBody(t) + ([QUOTE] + r));
    TripleMeans(s);
    JsonBodyIsOneLine(t);
    if t == [] {
      assert s == [QUOTE, QUOTE] + r;
    } else {
      assert s[1] == JsonBody(t)[0];
    }
  }

  /** A string written by `py_literal` is read back as itself, whatever it holds; only the empty literal
      must not be followed by a third quote. */
  lemma PyLiteralRoundTrip(t: Text, rest: Text)
    ensures ReadQuoted(PyLiteral(t) + rest) == Some(Scanned(t, NormalizeNewlines(rest)))
            <==> !(t == [] && rest != [] && rest[0] == QUOTE)
  {
    LiteralThenNormalize(t, rest);
    var r := NormalizeNewlines(rest);
    var inner := JsonBody(t) + ([QUOTE] + r);
    assert ([QUOTE] + inner)[1..] == inner;
    ScanJsonBody(t, r);
    LooksTriple(t, r);
    if rest != [] {
      NormalizeHead(rest);
    }
  }
}
