/** `build_method_docstring`: descriptions are escaped, collapsed, wrapped and put between triple quotes.
    Read back by Python, the docstring says the same words. */
module MethodDocstring {
  import opened CodePoints
  import opened DocstringEscape
  import opened PythonLiterals
  import opened Wrappers

  const SPACE: CodePoint := 32
  const LINE_LENGTH: nat := 120
  const INDENT: Text := [SPACE, SPACE, SPACE, SPACE, SPACE, SPACE, SPACE, SPACE]
  const ARGS: Text := [65, 114, 103, 115, 58]  // Args:
  const COLON: CodePoint := 58
  const PERIOD: CodePoint := 46

  // ----- Words -----

  /** How long the word is that the text starts with. */
  function WordEnd(t: Text): (n: nat)
    ensures n <= |t| && (t != [] && !IsWhiteSpace(t[0]) ==> n > 0)
  {
    if t == [] || IsWhiteSpace(t[0]) then 0 else 1 + WordEnd(t[1..])
  }

  /** `t.split()` */
  function Words(t: Text): seq<Text>
    decreases |t|
  {
    if t == [] then []
    else if IsWhiteSpace(t[0]) then Words(t[1..])
    else [t[..WordEnd(t)]] + Words(t[WordEnd(t)..])
  }

  predicate IsWord(w: Text) { w != [] && forall i | 0 <= i < |w| :: !IsWhiteSpace(w[i]) }

  ghost predicate AreWords(ws: seq<Text>) { forall i | 0 <= i < |ws| :: IsWord(ws[i]) }

  /** `sep.join(parts)` of a single character. */
  function JoinWith(parts: seq<Text>, separator: CodePoint): Text {
    if parts == [] then []
    else if |parts| == 1 then parts[0]
    else parts[0] + [separator] + JoinWith(parts[1..], separator)
  }

  predicate IsTerminal(c: CodePoint) { c == PERIOD || c == 33 || c == 63 }  // . ! ?

  /** `_with_period` */
  function WithPeriod(t: Text): Text {
    Stopped(JoinWith(Words(t), SPACE))
  }

  // ----- Wrapping -----

  /** The rest of `textwrap.fill` once `line` holds a word: a word goes on the line if it fits, and is never
      broken. `next` starts every further line. */
  function Wrap(words: seq<Text>, width: nat, line: Text, next: Text): seq<Text> {
    if words == [] then [line]
    else if |line| + 1 + |words[0]| <= width then Wrap(words[1..], width, line + [SPACE] + words[0], next)
    else [line] + Wrap(words[1..], width, next + words[0], next)
  }

  /** `textwrap.fill` of collapsed text, as lines. */
  function Fill(t: Text, first: Text, next: Text): seq<Text> {
    var words := Words(t);
    if words == [] then [] else Wrap(words[1..], LINE_LENGTH, first + words[0], next)
  }

  // ----- The docstring -----

  datatype Param = Param(name: Text, description: Text)

  function Documented(params: seq<Param>): seq<Param> {
    if params == [] then []
    else
      var earlier, last := Documented(params[..|params| - 1]), params[|params| - 1];
      if Words(last.description) == [] then earlier else earlier + [last]
  }

  function ParamPrefix(p: Param): Text { INDENT + [SPACE, SPACE, SPACE, SPACE] + p.name + [COLON, SPACE] }

  function ParamLines(p: Param): seq<Text> {
    Fill(WithPeriod(EscapeDocstringText(p.description)), ParamPrefix(p), INDENT + INDENT)
  }

  function ArgsLines(documented: seq<Param>): seq<Text> {
    if documented == [] then []
    else ArgsLines(documented[..|documented| - 1]) + ParamLines(documented[|documented| - 1])
  }

  /** The first lines, with the opening quotes, which stay if there is nothing to say. */
  function SummaryLines(summary: Text): seq<Text> {
    var lines := Fill(WithPeriod(EscapeDocstringText(summary)), INDENT + TRIPLE, INDENT);
    if lines == [] then [INDENT + TRIPLE] else lines
  }

  function BodyLines(summary: Text, params: seq<Param>): seq<Text> {
    var documented := Documented(params);
    if documented == [] then SummaryLines(summary)
    else SummaryLines(summary) + [[], INDENT + ARGS] + ArgsLines(documented)
  }

  /** The lines with the closing quotes on one of their own. */
  function Docstring(summary: Text, params: seq<Param>): Text {
    JoinWith(BodyLines(summary, params) + [INDENT + TRIPLE], LF)
  }

  lemma OneParamMore(documented: seq<Param>, k: nat, before: seq<Text>)
    requires k < |documented|
    ensures before + ArgsLines(documented[..k]) + ParamLines(documented[k]) == before + ArgsLines(documented[..k + 1])
  {
    assert documented[..k + 1][..k] == documented[..k];
  }

  /** The loop over the parameters. */
  method AppendParams(before: seq<Text>, documented: seq<Param>) returns (lines: seq<Text>)
    ensures lines == before + ArgsLines(documented)
  {
    lines := before;
    for k := 0 to |documented|
      invariant lines == before + ArgsLines(documented[..k])
    {
      OneParamMore(documented, k, before);
      lines := lines + ParamLines(documented[k]);
    }
    assert documented[..|documented|] == documented;
  }

  method BuildMethodDocstring(summary: Text, params: seq<Param>) returns (doc: Text)
    ensures doc == Docstring(summary, params)
  {
    var lines := SummaryLines(summary);
    var documented := Documented(params);
    if documented != [] {
      lines := lines + [[], INDENT + ARGS];
      lines := AppendParams(lines, documented);
    }
    lines := lines + [INDENT + TRIPLE];
    doc := JoinWith(lines, LF);
  }

  // ----- Words of composed text -----

  lemma {:induction false} WordsOfWord(w: Text, rest: Text)
    requires IsWord(w) && (rest == [] || IsWhiteSpace(rest[0]))
    ensures WordEnd(w + rest) == |w| && Words(w + rest) == [w] + Words(rest)
  {
    WordEndOf(w, rest);
    assert (w + rest)[..|w|] == w && (w + rest)[|w|..] == rest;
  }

  lemma {:induction false} WordEndOf(w: Text, rest: Text)
    requires (forall i | 0 <= i < |w| :: !IsWhiteSpace(w[i])) && (rest == [] || IsWhiteSpace(rest[0]))
    ensures WordEnd(w + rest) == |w|
  {
    if w == [] {
      assert w + rest == rest;
    } else {
      WordEndOf(w[1..], rest);
      assert (w + rest)[1..] == w[1..] + rest;
    }
  }

  lemma {:induction false} WordEndMeans(t: Text)
    ensures forall i | 0 <= i < WordEnd(t) :: !IsWhiteSpace(t[i])
    ensures WordEnd(t) < |t| ==> IsWhiteSpace(t[WordEnd(t)])
  {
    if t != [] && !IsWhiteSpace(t[0]) {
      WordEndMeans(t[1..]);
    }
  }

  lemma {:induction false} WordEndOfConcat(a: Text, b: Text)
    requires b == [] || IsWhiteSpace(b[0]) || (a != [] && IsWhiteSpace(a[|a| - 1]))
    ensures WordEnd(a + b) == WordEnd(a)
  {
    if a == [] {
      assert a + b == b;
    } else if !IsWhiteSpace(a[0]) {
      assert (a + b)[1..] == a[1..] + b;
      WordEndOfConcat(a[1..], b);
    }
  }

  lemma FirstWord(a: Text, b: Text)
    requires a != [] && !IsWhiteSpace(a[0])
    requires b == [] || IsWhiteSpace(a[|a| - 1]) || IsWhiteSpace(b[0])
    ensures Words(a + b) == [a[..WordEnd(a)]] + Words(a[WordEnd(a)..] + b)
  {
    WordEndOfConcat(a, b);
    SplitConcat(a, b, WordEnd(a));
  }

  lemma SplitConcat(a: Text, b: Text, n: nat)
    requires n <= |a|
    ensures (a + b)[..n] == a[..n] && (a + b)[n..] == a[n..] + b
  {
  }

  /** White space separates. */
  lemma {:induction false} WordsConcat(a: Text, b: Text)
    requires a == [] || b == [] || IsWhiteSpace(a[|a| - 1]) || IsWhiteSpace(b[0])
    ensures Words(a + b) == Words(a) + Words(b)
    decreases |a|
  {
    if a == [] {
      assert a + b == b;
    } else if IsWhiteSpace(a[0]) {
      assert (a + b)[1..] == a[1..] + b;
      WordsConcat(a[1..], b);
    } else {
      FirstWord(a, b);
      WordsConcat(a[WordEnd(a)..], b);
    }
  }

  lemma {:induction false} WordsAreWords(t: Text)
    ensures AreWords(Words(t))
    decreases |t|
  {
    if t != [] {
      if IsWhiteSpace(t[0]) {
        WordsAreWords(t[1..]);
      } else {
        WordEndMeans(t);
        WordsAreWords(t[WordEnd(t)..]);
      }
    }
  }

  lemma {:induction false} WordsOfJoin(ws: seq<Text>, separator: CodePoint)
    requires AreWords(ws) && IsWhiteSpace(separator)
    ensures Words(JoinWith(ws, separator)) == ws
  {
    if |ws| == 1 {
      WordsOfWord(ws[0], []);
      assert ws[0] + [] == ws[0];
    } else if ws != [] {
      var rest := JoinWith(ws[1..], separator);
      WordsOfJoin(ws[1..], separator);
      assert Words(ws[0] + ([separator] + rest)) == ws by {
        WordsOfWord(ws[0], [separator] + rest);
        assert ([separator] + rest)[1..] == rest;
        assert ws == [ws[0]] + ws[1..];
      }
      assert JoinWith(ws, separator) == ws[0] + ([separator] + rest);
    }
  }

  // ----- Escaping word by word -----

  function EscapeAll(parts: seq<Text>): (r: seq<Text>)
    ensures |r| == |parts|
    ensures forall i | 0 <= i < |parts| :: r[i] == Escape1(parts[i])
  {
    seq(|parts|, i requires 0 <= i < |parts| => Escape1(parts[i]))
  }

  lemma {:induction false} EscapedWordIsWord(w: Text)
    requires IsWord(w)
    ensures IsWord(Escape1(w))
    decreases |w|
  {
    var rest := w[Chunk(w)..];
    if rest != [] {
      EscapedWordIsWord(rest);
    }
  }

  lemma EscapeOne(c: CodePoint)
    requires c != QUOTE && c != BACKSLASH && c != NUL
    ensures Escape1([c]) == [c]
  {
    TripleMeans([c]);
    assert [c][1..] == [];
  }

  /** Escaping does not look across white space. */
  lemma EscapeAround(a: Text, c: CodePoint, b: Text)
    requires IsWhiteSpace(c)
    ensures Escape1(a + [c] + b) == Escape1(a) + [c] + Escape1(b)
  {
    EscapeOne(c);
    EscapeConcat(a, [c]);
    EscapeConcat(a + [c], b);
  }

  lemma {:induction false} WordsOfEscaped(t: Text)
    ensures Words(Escape1(t)) == EscapeAll(Words(t))
    decreases |t|
  {
    if t == [] {
    } else if IsWhiteSpace(t[0]) {
      BlankOfEscaped(t);
      WordsOfEscaped(t[1..]);
    } else {
      var w, rest := t[..WordEnd(t)], t[WordEnd(t)..];
      FirstSplit(t);
      EscapedWordThenRest(w, rest);
      WordsOfEscaped(rest);
      EscapeAllHead(w, Words(rest));
    }
  }

  lemma EscapeAllHead(w: Text, rest: seq<Text>)
    ensures EscapeAll([w] + rest) == [Escape1(w)] + EscapeAll(rest)
  {
  }

  lemma BlankOfEscaped(t: Text)
    requires t != [] && IsWhiteSpace(t[0])
    ensures Words(Escape1(t)) == Words(Escape1(t[1..]))
  {
    assert t == [t[0]] + t[1..];
    EscapeOne(t[0]);
    EscapeConcat([t[0]], t[1..]);
    var e := [t[0]] + Escape1(t[1..]);
    assert e[1..] == Escape1(t[1..]);
  }

  /** A text is its first word and a rest that starts with white space. */
  lemma FirstSplit(t: Text)
    requires t != [] && !IsWhiteSpace(t[0])
    ensures var w, rest := t[..WordEnd(t)], t[WordEnd(t)..];
            IsWord(w) && (rest == [] || IsWhiteSpace(rest[0])) && t == w + rest
  {
    WordEndMeans(t);
  }

  lemma EscapedWordThenRest(w: Text, rest: Text)
    requires IsWord(w) && (rest == [] || IsWhiteSpace(rest[0]))
    ensures Words(Escape1(w + rest)) == [Escape1(w)] + Words(Escape1(rest))
  {
    EscapeConcat(w, rest);
    EscapedWordIsWord(w);
    EscapedStartsAlike(rest);
    WordsOfWord(Escape1(w), Escape1(rest));
  }

  lemma EscapedStartsAlike(t: Text)
    requires t == [] || IsWhiteSpace(t[0])
    ensures Escape1(t) == [] || IsWhiteSpace(Escape1(t)[0])
  {
  }

  lemma {:induction false} JoinOfEscaped(parts: seq<Text>, separator: CodePoint)
    requires IsWhiteSpace(separator)
    ensures JoinWith(EscapeAll(parts), separator) == Escape1(JoinWith(parts, separator))
  {
    if |parts| > 1 {
      JoinOfEscaped(parts[1..], separator);
      assert EscapeAll(parts)[1..] == EscapeAll(parts[1..]);
      EscapeAround(parts[0], separator, JoinWith(parts[1..], separator));
    }
  }

  /** Escaping changes no full stop at the end. */
  lemma {:induction false} SameEnd(t: Text)
    requires t != []
    ensures Escape1(t) != []
    ensures IsTerminal(Escape1(t)[|Escape1(t)| - 1]) <==> IsTerminal(t[|t| - 1])
    decreases |t|
  {
    var rest := t[Chunk(t)..];
    if rest == [] {
      OneEnds(t);
    } else {
      SameEnd(rest);
      EndOfConcat(One(t), Escape1(rest));
      EndOfConcat(t[..Chunk(t)], rest);
      assert t == t[..Chunk(t)] + rest;
    }
  }

  lemma EndOfConcat(a: Text, b: Text)
    requires b != []
    ensures (a + b)[|a + b| - 1] == b[|b| - 1]
  {
  }

  lemma OneEnds(t: Text)
    requires t != [] && Chunk(t) == |t|
    ensures Escape1(t) == One(t)
    ensures IsTerminal(One(t)[|One(t)| - 1]) <==> IsTerminal(t[|t| - 1])
  {
    TripleMeans(t);
    assert t[Chunk(t)..] == [];
  }

  /** So escaping can as well come after collapsing and the period. */
  lemma PeriodOfEscaped(t: Text)
    ensures WithPeriod(EscapeDocstringText(t)) == Escape1(WithPeriod(t))
  {
    ThreePassesAreOne(t);
    WordsOfEscaped(t);
    JoinOfEscaped(Words(t), SPACE);
    StopOfEscaped(JoinWith(Words(t), SPACE));
  }

  /** A period at the end, unless there is one. */
  function Stopped(s: Text): Text {
    if s != [] && !IsTerminal(s[|s| - 1]) then s + [PERIOD] else s
  }

  /** White space is collapsed, and a period is added to what does not end in one, in `!` or in `?`. */
  lemma PeriodIsAdded(t: Text)
    ensures var s := JoinWith(Words(t), SPACE);
            var last := if s == [] then '.' as int else s[|s| - 1];
            WithPeriod(t) == if last == '.' as int || last == '!' as int || last == '?' as int then s
                             else s + ['.' as int]
  {
  }

  lemma StopOfEscaped(s: Text)
    ensures Stopped(Escape1(s)) == Escape1(Stopped(s))
  {
    if s != [] {
      SameEnd(s);
      EscapeOne(PERIOD);
      EscapeConcat(s, [PERIOD]);
    }
  }

  /** The words, with a period at the end of the last unless it ends a sentence. */
  function Sentence(ws: seq<Text>): seq<Text> {
    if ws == [] || ws[|ws| - 1] == [] then ws
    else
      var last := ws[|ws| - 1];
      if IsTerminal(last[|last| - 1]) then ws else ws[..|ws| - 1] + [last + [PERIOD]]
  }

  lemma {:induction false} JoinEndsInLast(ws: seq<Text>)
    requires AreWords(ws) && ws != []
    ensures JoinWith(ws, SPACE) != []
    ensures var s, last := JoinWith(ws, SPACE), ws[|ws| - 1]; s[|s| - 1] == last[|last| - 1]
    ensures JoinWith(ws, SPACE) + [PERIOD] == JoinWith(ws[..|ws| - 1] + [ws[|ws| - 1] + [PERIOD]], SPACE)
  {
    if |ws| > 1 {
      JoinEndsInLast(ws[1..]);
      var last := ws[|ws| - 1];
      var longer := ws[..|ws| - 1] + [last + [PERIOD]];
      assert longer[1..] == ws[1..][..|ws| - 2] + [last + [PERIOD]];
      var joined := JoinWith(ws[1..], SPACE);
      assert ws[0] + [SPACE] + joined + [PERIOD] == ws[0] + [SPACE] + (joined + [PERIOD]);
    }
  }

  lemma SentenceAreWords(ws: seq<Text>)
    requires AreWords(ws)
    ensures AreWords(Sentence(ws))
  {
  }

  lemma PeriodIsSentence(t: Text)
    ensures WithPeriod(t) == JoinWith(Sentence(Words(t)), SPACE)
  {
    WordsAreWords(t);
    if Words(t) != [] {
      JoinEndsInLast(Words(t));
    }
  }

  lemma WordsOfSentence(t: Text)
    ensures Words(WithPeriod(t)) == Sentence(Words(t))
  {
    WordsAreWords(t);
    SentenceAreWords(Words(t));
    PeriodIsSentence(t);
    WordsOfJoin(Sentence(Words(t)), SPACE);
  }

  // ----- Wrapping the escaped text wraps the text -----

  /** The lines of the text itself when its escaped form is wrapped after `lead` other characters. */
  function WrapAs(ws: seq<Text>, width: nat, lead: nat, line: Text, next: Text): (lines: seq<Text>)
    ensures lines != []
  {
    if ws == [] then [line]
    else if lead + |Escape1(line)| + 1 + |Escape1(ws[0])| <= width
    then WrapAs(ws[1..], width, lead, line + [SPACE] + ws[0], next)
    else [line] + WrapAs(ws[1..], width, 0, next + ws[0], next)
  }

  function FillAs(t: Text, lead: nat, first: Text, next: Text): seq<Text> {
    var ws := Words(t);
    if ws == [] then [] else WrapAs(ws[1..], LINE_LENGTH, lead, first + ws[0], next)
  }

  /** The lines with something in front of the first. */
  function Lead(pre: Text, lines: seq<Text>): seq<Text> {
    if lines == [] then [] else [pre + lines[0]] + lines[1..]
  }

  predicate IsPlain(t: Text) { QUOTE !in t && BACKSLASH !in t && NUL !in t && CR !in t }

  lemma {:induction false} PlainEscapesToItself(t: Text)
    requires IsPlain(t)
    ensures Escape1(t) == t
    decreases |t|
  {
    if t != [] {
      TripleMeans(t);
      PlainEscapesToItself(t[1..]);
      assert t == [t[0]] + t[1..];
    }
  }

  lemma PlainInFront(first: Text, w: Text)
    requires IsPlain(first)
    ensures Escape1(first + w) == first + Escape1(w)
  {
    PlainEscapesToItself(first);
    EscapeConcat(first, w);
  }

  lemma {:induction false} WrapOfEscaped(ws: seq<Text>, width: nat, pre: Text, line: Text, next: Text)
    requires IsPlain(next)
    ensures Wrap(EscapeAll(ws), width, pre + Escape1(line), next) ==
            Lead(pre, EscapeAll(WrapAs(ws, width, |pre|, line, next)))
  {
    if ws == [] {
      assert EscapeAll(ws) == [];
    } else {
      var rest := ws[1..];
      assert EscapeAll(ws)[1..] == EscapeAll(rest);
      if |pre| + |Escape1(line)| + 1 + |Escape1(ws[0])| <= width {
        EscapeAround(line, SPACE, ws[0]);
        WrapOfEscaped(rest, width, pre, line + [SPACE] + ws[0], next);
        assert pre + Escape1(line) + [SPACE] + Escape1(ws[0]) == pre + (Escape1(line) + [SPACE] + Escape1(ws[0]));
      } else {
        PlainInFront(next, ws[0]);
        WrapOfEscaped(rest, width, [], next + ws[0], next);
        assert [] + Escape1(next + ws[0]) == Escape1(next + ws[0]);
        WrapBreaks(pre, line, WrapAs(rest, width, 0, next + ws[0], next));
      }
    }
  }

  lemma WrapBreaks(pre: Text, line: Text, lines: seq<Text>)
    ensures [pre + Escape1(line)] + Lead([], EscapeAll(lines)) == Lead(pre, EscapeAll([line] + lines))
  {
    EscapeAllHead(line, lines);
    LeadNothing(EscapeAll(lines));
    LeadHead(pre, Escape1(line), EscapeAll(lines));
  }

  lemma LeadHead(pre: Text, line: Text, lines: seq<Text>)
    ensures Lead(pre, [line] + lines) == [pre + line] + lines
  {
    assert ([line] + lines)[1..] == lines;
  }

  lemma FillOfEscaped(t: Text, pre: Text, first: Text, next: Text)
    requires IsPlain(first) && IsPlain(next)
    ensures Fill(Escape1(t), pre + first, next) == Lead(pre, EscapeAll(FillAs(t, |pre|, first, next)))
  {
    var ws := Words(t);
    WordsOfEscaped(t);
    if ws != [] {
      assert EscapeAll(ws)[1..] == EscapeAll(ws[1..]);
      PlainInFront(first, ws[0]);
      assert pre + first + Escape1(ws[0]) == pre + (first + Escape1(ws[0]));
      WrapOfEscaped(ws[1..], LINE_LENGTH, pre, first + ws[0], next);
    }
  }

  // ----- The lines of the text -----

  function SummaryAs(summary: Text): seq<Text> {
    var lines := FillAs(WithPeriod(summary), |INDENT + TRIPLE|, [], INDENT);
    if lines == [] then [[]] else lines
  }

  function ParamAs(p: Param): seq<Text> {
    FillAs(WithPeriod(p.description), 0, ParamPrefix(p), INDENT + INDENT)
  }

  function ArgsAs(documented: seq<Param>): seq<Text> {
    if documented == [] then []
    else ArgsAs(documented[..|documented| - 1]) + ParamAs(documented[|documented| - 1])
  }

  function BodyAs(summary: Text, params: seq<Param>): seq<Text> {
    var documented := Documented(params);
    if documented == [] then SummaryAs(summary)
    else SummaryAs(summary) + [[], INDENT + ARGS] + ArgsAs(documented)
  }

  lemma EscapeAllConcat(a: seq<Text>, b: seq<Text>)
    ensures EscapeAll(a + b) == EscapeAll(a) + EscapeAll(b)
  {
  }

  lemma SummaryIsEscaped(summary: Text)
    ensures SummaryAs(summary) != []
    ensures SummaryLines(summary) == Lead(INDENT + TRIPLE, EscapeAll(SummaryAs(summary)))
  {
    var pre := INDENT + TRIPLE;
    PeriodOfEscaped(summary);
    FillOfEscaped(WithPeriod(summary), pre, [], INDENT);
    assert pre + [] == pre;
    assert Escape1([]) == [];
  }

  /** Names of parameters are identifiers. */
  predicate IsPlainName(name: Text) { IsWord(name) && IsPlain(name) }

  lemma ParamIsEscaped(p: Param)
    requires IsPlainName(p.name)
    ensures ParamLines(p) == EscapeAll(ParamAs(p))
  {
    PeriodOfEscaped(p.description);
    PrefixIsPlain(p);
    FillPlainly(WithPeriod(p.description), ParamPrefix(p), INDENT + INDENT);
  }

  lemma PrefixIsPlain(p: Param)
    requires IsPlainName(p.name)
    ensures IsPlain(ParamPrefix(p))
  {
  }

  lemma FillPlainly(t: Text, first: Text, next: Text)
    requires IsPlain(first) && IsPlain(next)
    ensures Fill(Escape1(t), first, next) == EscapeAll(FillAs(t, 0, first, next))
  {
    FillBehindNothing(t, [], first, next);
    LeadNothing(EscapeAll(FillAs(t, 0, first, next)));
  }

  lemma FillBehindNothing(t: Text, nothing: Text, first: Text, next: Text)
    requires IsPlain(first) && IsPlain(next) && nothing == []
    ensures Fill(Escape1(t), first, next) == Lead(nothing, EscapeAll(FillAs(t, 0, first, next)))
  {
    FillOfEscaped(t, nothing, first, next);
    assert nothing + first == first;
  }

  lemma LeadNothing(lines: seq<Text>)
    ensures Lead([], lines) == lines
  {
    if lines != [] {
      assert [] + lines[0] == lines[0];
    }
  }

  ghost predicate PlainNames(params: seq<Param>) { forall p | p in params :: IsPlainName(p.name) }

  lemma {:induction false} ArgsAreEscaped(documented: seq<Param>)
    requires PlainNames(documented)
    ensures ArgsLines(documented) == EscapeAll(ArgsAs(documented))
  {
    if documented != [] {
      var init, last := documented[..|documented| - 1], documented[|documented| - 1];
      assert last in documented;
      ArgsAreEscaped(init);
      ParamIsEscaped(last);
      EscapeAllConcat(ArgsAs(init), ParamAs(last));
    }
  }

  lemma {:induction false} DocumentedAmong(params: seq<Param>)
    ensures forall p | p in Documented(params) :: p in params
  {
    if params != [] {
      DocumentedAmong(params[..|params| - 1]);
    }
  }

  lemma LeadConcat(pre: Text, a: seq<Text>, b: seq<Text>)
    requires a != []
    ensures Lead(pre, a) + b == Lead(pre, a + b)
  {
  }

  lemma HeadingIsEscaped()
    ensures EscapeAll([[], INDENT + ARGS]) == [[], INDENT + ARGS]
  {
    PlainEscapesToItself(INDENT + ARGS);
    assert Escape1([]) == [];
  }

  lemma BodyIsEscaped(summary: Text, params: seq<Param>)
    requires PlainNames(params)
    ensures BodyAs(summary, params) != []
    ensures BodyLines(summary, params) == Lead(INDENT + TRIPLE, EscapeAll(BodyAs(summary, params)))
  {
    var documented := Documented(params);
    SummaryIsEscaped(summary);
    if documented != [] {
      var head, args := SummaryAs(summary), ArgsAs(documented);
      DocumentedAmong(params);
      ArgsAreEscaped(documented);
      HeadingIsEscaped();
      EscapeAllConcat(head, [[], INDENT + ARGS]);
      EscapeAllConcat(head + [[], INDENT + ARGS], args);
      LeadConcat(INDENT + TRIPLE, EscapeAll(head), [[], INDENT + ARGS]);
      LeadConcat(INDENT + TRIPLE, EscapeAll(head) + [[], INDENT + ARGS], EscapeAll(args));
    }
  }

  lemma JoinLead(pre: Text, lines: seq<Text>)
    requires lines != []
    ensures JoinWith(Lead(pre, lines), LF) == pre + JoinWith(lines, LF)
  {
    if |lines| > 1 {
      assert Lead(pre, lines)[1..] == lines[1..];
      assert pre + lines[0] + [LF] + JoinWith(lines[1..], LF) == pre + (lines[0] + [LF] + JoinWith(lines[1..], LF));
    }
  }

  lemma {:induction false} JoinConcat(a: seq<Text>, b: seq<Text>)
    requires a != [] && b != []
    ensures JoinWith(a + b, LF) == JoinWith(a, LF) + [LF] + JoinWith(b, LF)
  {
    if |a| == 1 {
      assert (a + b)[1..] == b;
    } else {
      assert (a + b)[1..] == a[1..] + b;
      JoinConcat(a[1..], b);
      var x, y := JoinWith(a[1..], LF), JoinWith(b, LF);
      assert a[0] + [LF] + (x + [LF] + y) == a[0] + [LF] + x + [LF] + y;
    }
  }

  /** The docstring is the text of the lines, escaped and put between quotes, the closing ones on a line of
      their own. */
  lemma DocIsEscaped(summary: Text, params: seq<Param>)
    requires PlainNames(params)
    ensures Docstring(summary, params) ==
            INDENT + (TRIPLE + (EscapeDocstringText(JoinWith(BodyAs(summary, params), LF)) + ([LF] + INDENT + TRIPLE)))
  {
    var lines := BodyAs(summary, params);
    var text := JoinWith(lines, LF);
    BodyIsEscaped(summary, params);
    JoinConcat(BodyLines(summary, params), [INDENT + TRIPLE]);
    JoinLead(INDENT + TRIPLE, EscapeAll(lines));
    JoinOfEscaped(lines, LF);
    ThreePassesAreOne(text);
    QuotesAround(Escape1(text));
  }

  lemma QuotesAround(x: Text)
    ensures INDENT + TRIPLE + x + [LF] + (INDENT + TRIPLE) == INDENT + (TRIPLE + (x + ([LF] + INDENT + TRIPLE)))
  {
  }

  // ----- What it says -----

  lemma WordsAround(a: Text, c: CodePoint, b: Text)
    requires IsWhiteSpace(c)
    ensures Words(a + [c] + b) == Words(a) + Words(b)
  {
    WordsConcat(a + [c], b);
    WordsConcat(a, [c]);
    assert Words([c]) == Words([c][1..]);
  }

  lemma {:induction false} BlankHasNoWords(t: Text)
    requires forall i | 0 <= i < |t| :: IsWhiteSpace(t[i])
    ensures Words(t) == []
    decreases |t|
  {
    if t != [] {
      BlankHasNoWords(t[1..]);
    }
  }

  lemma OneWord(w: Text)
    requires IsWord(w)
    ensures Words(w) == [w]
  {
    WordsOfWord(w, []);
    assert w + [] == w;
  }

  predicate IsMargin(t: Text) { forall i | 0 <= i < |t| :: t[i] == SPACE }

  lemma WordAfterMargin(next: Text, w: Text)
    requires IsMargin(next) && IsWord(w)
    ensures Words(next + w) == [w]
  {
    BlankHasNoWords(next);
    WordsConcat(next, w);
    OneWord(w);
  }

  /** Wrapping keeps the words. */
  lemma {:induction false} WordsOfWrap(ws: seq<Text>, width: nat, lead: nat, line: Text, next: Text)
    requires AreWords(ws) && IsMargin(next)
    ensures Words(JoinWith(WrapAs(ws, width, lead, line, next), LF)) == Words(line) + ws
  {
    if ws != [] {
      var w, rest := ws[0], ws[1..];
      assert ws == [w] + rest;
      if lead + |Escape1(line)| + 1 + |Escape1(w)| <= width {
        WordsOfWrap(rest, width, lead, line + [SPACE] + w, next);
        WordsAround(line, SPACE, w);
        OneWord(w);
      } else {
        var lines := WrapAs(rest, width, 0, next + w, next);
        WordsOfWrap(rest, width, 0, next + w, next);
        WordAfterMargin(next, w);
        assert ([line] + lines)[1..] == lines;
        WordsAround(line, LF, JoinWith(lines, LF));
      }
    }
  }

  lemma WordsOfFill(t: Text, lead: nat, first: Text, next: Text)
    requires (first == [] || IsWhiteSpace(first[|first| - 1])) && IsMargin(next) && Words(t) != []
    ensures Words(JoinWith(FillAs(t, lead, first, next), LF)) == Words(first) + Words(t)
  {
    var ws := Words(t);
    WordsAreWords(t);
    WordsAfter(first, ws[0]);
    WordsOfWrap(ws[1..], LINE_LENGTH, lead, first + ws[0], next);
    HeadAndTail(Words(first), ws);
  }

  lemma HeadAndTail(before: seq<Text>, ws: seq<Text>)
    requires ws != []
    ensures before + [ws[0]] + ws[1..] == before + ws
  {
  }

  lemma WordsAfter(first: Text, w: Text)
    requires (first == [] || IsWhiteSpace(first[|first| - 1])) && IsWord(w)
    ensures Words(first + w) == Words(first) + [w]
  {
    WordsConcat(first, w);
    OneWord(w);
  }

  function ParamWords(documented: seq<Param>): seq<Text> {
    if documented == [] then []
    else
      var last := documented[|documented| - 1];
      ParamWords(documented[..|documented| - 1]) + [last.name + [COLON]] + Sentence(Words(last.description))
  }

  /** The words of the summary, and, if any parameter has a description, `Args:` and for each of those its
      name, a colon and the words of the description. */
  function Said(summary: Text, params: seq<Param>): seq<Text> {
    var documented := Documented(params);
    if documented == [] then Sentence(Words(summary))
    else Sentence(Words(summary)) + [ARGS] + ParamWords(documented)
  }

  lemma SummarySays(summary: Text)
    ensures Words(JoinWith(SummaryAs(summary), LF)) == Sentence(Words(summary))
  {
    WordsOfSentence(summary);
    if Words(WithPeriod(summary)) != [] {
      WordsOfFill(WithPeriod(summary), |INDENT + TRIPLE|, [], INDENT);
    }
  }

  lemma PrefixSays(p: Param)
    requires IsPlainName(p.name)
    ensures Words(ParamPrefix(p)) == [p.name + [COLON]]
  {
    var margin := INDENT + [SPACE, SPACE, SPACE, SPACE];
    WordAfterMargin(margin, p.name + [COLON]);
    assert ParamPrefix(p) == margin + (p.name + [COLON]) + [SPACE] + [];
    WordsAround(margin + (p.name + [COLON]), SPACE, []);
  }

  lemma ParamSays(p: Param)
    requires IsPlainName(p.name) && Words(p.description) != []
    ensures ParamAs(p) != []
    ensures Words(JoinWith(ParamAs(p), LF)) == [p.name + [COLON]] + Sentence(Words(p.description))
  {
    WordsOfSentence(p.description);
    PrefixSays(p);
    WordsOfFill(WithPeriod(p.description), 0, ParamPrefix(p), INDENT + INDENT);
  }

  lemma WordsOfLines(a: seq<Text>, b: seq<Text>)
    ensures Words(JoinWith(a + b, LF)) == Words(JoinWith(a, LF)) + Words(JoinWith(b, LF))
  {
    if a == [] {
      assert a + b == b;
    } else if b == [] {
      assert a + b == a;
    } else {
      JoinConcat(a, b);
      WordsAround(JoinWith(a, LF), LF, JoinWith(b, LF));
    }
  }

  lemma {:induction false} ArgsSay(documented: seq<Param>)
    requires PlainNames(documented) && forall p | p in documented :: Words(p.description) != []
    ensures Words(JoinWith(ArgsAs(documented), LF)) == ParamWords(documented)
  {
    if documented != [] {
      var init, last := documented[..|documented| - 1], documented[|documented| - 1];
      assert last in documented;
      ArgsSay(init);
      ParamSays(last);
      WordsOfLines(ArgsAs(init), ParamAs(last));
    }
  }

  lemma {:induction false} DocumentedHaveWords(params: seq<Param>)
    ensures forall p | p in Documented(params) :: Words(p.description) != []
  {
    if params != [] {
      DocumentedHaveWords(params[..|params| - 1]);
    }
  }

  lemma HeadingSays()
    ensures Words(JoinWith([[], INDENT + ARGS], LF)) == [ARGS]
  {
    WordAfterMargin(INDENT, ARGS);
    assert [[], INDENT + ARGS][1..] == [INDENT + ARGS];
    WordsAround([], LF, INDENT + ARGS);
  }

  lemma BodySays(summary: Text, params: seq<Param>)
    requires PlainNames(params)
    ensures Words(JoinWith(BodyAs(summary, params), LF)) == Said(summary, params)
  {
    var documented := Documented(params);
    SummarySays(summary);
    if documented != [] {
      DocumentedAmong(params);
      DocumentedHaveWords(params);
      ArgsSay(documented);
      HeadingSays();
      WordsOfLines(SummaryAs(summary), [[], INDENT + ARGS]);
      WordsOfLines(SummaryAs(summary) + [[], INDENT + ARGS], ArgsAs(documented));
    }
  }

  // ----- No carriage return is left -----

  ghost predicate OnLines(lines: seq<Text>) { forall l | l in lines :: CR !in l }

  lemma {:induction false} JoinOnLines(lines: seq<Text>)
    requires OnLines(lines)
    ensures CR !in JoinWith(lines, LF)
  {
    if lines != [] {
      assert lines[0] in lines;
      JoinOnLines(lines[1..]);
    }
  }

  lemma {:induction false} WrapOnLines(ws: seq<Text>, width: nat, lead: nat, line: Text, next: Text)
    requires AreWords(ws) && CR !in line && CR !in next
    ensures OnLines(WrapAs(ws, width, lead, line, next))
  {
    if ws != [] {
      assert CR !in ws[0];
      if lead + |Escape1(line)| + 1 + |Escape1(ws[0])| <= width {
        WrapOnLines(ws[1..], width, lead, line + [SPACE] + ws[0], next);
      } else {
        WrapOnLines(ws[1..], width, 0, next + ws[0], next);
      }
    }
  }

  lemma FillOnLines(t: Text, lead: nat, first: Text, next: Text)
    requires CR !in first && CR !in next
    ensures OnLines(FillAs(t, lead, first, next))
  {
    var ws := Words(t);
    WordsAreWords(t);
    if ws != [] {
      assert CR !in ws[0];
      WrapOnLines(ws[1..], LINE_LENGTH, lead, first + ws[0], next);
    }
  }

  lemma {:induction false} ArgsOnLines(documented: seq<Param>)
    requires PlainNames(documented)
    ensures OnLines(ArgsAs(documented))
  {
    if documented != [] {
      var last := documented[|documented| - 1];
      assert last in documented;
      ArgsOnLines(documented[..|documented| - 1]);
      FillOnLines(WithPeriod(last.description), 0, ParamPrefix(last), INDENT + INDENT);
    }
  }

  lemma BodyOnLines(summary: Text, params: seq<Param>)
    requires PlainNames(params)
    ensures OnLines(BodyAs(summary, params))
  {
    FillOnLines(WithPeriod(summary), |INDENT + TRIPLE|, [], INDENT);
    DocumentedAmong(params);
    ArgsOnLines(Documented(params));
    assert CR !in INDENT + ARGS;
  }

  /** Whatever the descriptions hold, Python reads the docstring as one literal, with nothing of what
      follows swallowed, and it says just the words of the descriptions, in order. */
  lemma DocstringSaysTheSame(summary: Text, params: seq<Param>, rest: Text)
    requires PlainNames(params)
    ensures INDENT <= Docstring(summary, params)
    ensures Says(ReadTripleQuoted(Docstring(summary, params)[|INDENT|..] + rest),
                 Said(summary, params), NormalizeNewlines(rest))
  {
    DocstringReads(summary, params, rest);
    TextSays(summary, params);
  }

  lemma TextSays(summary: Text, params: seq<Param>)
    requires PlainNames(params)
    ensures Words(JoinWith(BodyAs(summary, params), LF) + ([LF] + INDENT)) == Said(summary, params)
  {
    BodySays(summary, params);
    WordsBeforeBlank(JoinWith(BodyAs(summary, params), LF), [LF] + INDENT);
  }

  /** The literal denotes a text of these words, and `rest` comes after it. */
  predicate Says(read: Option<Scanned>, words: seq<Text>, rest: Text) {
    read.Some? && Words(read.value.text) == words && read.value.rest == rest
  }

  lemma WordsBeforeBlank(text: Text, blank: Text)
    requires forall i | 0 <= i < |blank| :: IsWhiteSpace(blank[i])
    ensures Words(text + blank) == Words(text)
  {
    BlankHasNoWords(blank);
    WordsConcat(text, blank);
  }

  lemma DocstringReads(summary: Text, params: seq<Param>, rest: Text)
    requires PlainNames(params)
    ensures INDENT <= Docstring(summary, params)
    ensures ReadTripleQuoted(Docstring(summary, params)[|INDENT|..] + rest) ==
            Some(Scanned(JoinWith(BodyAs(summary, params), LF) + ([LF] + INDENT), NormalizeNewlines(rest)))
  {
    var text := JoinWith(BodyAs(summary, params), LF);
    assert CR !in text by {
      BodyOnLines(summary, params);
      JoinOnLines(BodyAs(summary, params));
    }
    DocIsEscaped(summary, params);
    EscapedReads(text, Docstring(summary, params), rest);
  }

  lemma EscapedReads(text: Text, doc: Text, rest: Text)
    requires CR !in text
    requires doc == INDENT + (TRIPLE + (EscapeDocstringText(text) + ([LF] + INDENT + TRIPLE)))
    ensures INDENT <= doc
    ensures ReadTripleQuoted(doc[|INDENT|..] + rest) ==
            Some(Scanned(text + ([LF] + INDENT), NormalizeNewlines(rest)))
  {
    var indent := [LF] + INDENT;
    SourceOf(EscapeDocstringText(text), indent, rest);
    DocstringOnItsOwnLine(text, indent, rest);
  }

  lemma SourceOf(escaped: Text, indent: Text, rest: Text)
    ensures var doc := INDENT + (TRIPLE + (escaped + (indent + TRIPLE)));
            INDENT <= doc && doc[|INDENT|..] + rest == TRIPLE + (escaped + (indent + (TRIPLE + rest)))
  {
    var inner := TRIPLE + (escaped + (indent + TRIPLE));
    assert (INDENT + inner)[|INDENT|..] == inner;
    assert inner + rest == TRIPLE + (escaped + (indent + (TRIPLE + rest)));
  }

  // ----- Line length -----

  ghost predicate FitsOrIsOneWord(l: Text, words: seq<Text>, first: Text, next: Text) {
    |l| <= 120 || exists w :: w in words && (l == first + w || l == next + w)
  }

  lemma {:induction false} WrapFits(all: seq<Text>, words: seq<Text>, line: Text, first: Text, next: Text)
    requires (forall w | w in words :: w in all) && FitsOrIsOneWord(line, all, first, next)
    ensures forall l | l in Wrap(words, LINE_LENGTH, line, next) :: FitsOrIsOneWord(l, all, first, next)
  {
    if words != [] {
      assert words[0] in all;
      if |line| + 1 + |words[0]| <= LINE_LENGTH {
        WrapFits(all, words[1..], line + [SPACE] + words[0], first, next);
      } else {
        WrapFits(all, words[1..], next + words[0], first, next);
      }
    }
  }

  /** The first word of `below`, after its indentation, would not have fitted on `line`. */
  ghost predicate WouldNotFit(line: Text, below: Text, words: seq<Text>, next: Text) {
    exists w :: w in words && next + w <= below && |line| + 1 + |w| > 120
  }

  ghost predicate AllFull(lines: seq<Text>, words: seq<Text>, next: Text) {
    forall k | 0 <= k < |lines| - 1 :: WouldNotFit(lines[k], lines[k + 1], words, next)
  }

  lemma {:induction false} WrapStarts(words: seq<Text>, line: Text, next: Text)
    ensures Wrap(words, LINE_LENGTH, line, next) != [] && line <= Wrap(words, LINE_LENGTH, line, next)[0]
  {
    if words != [] && |line| + 1 + |words[0]| <= LINE_LENGTH {
      WrapStarts(words[1..], line + [SPACE] + words[0], next);
    }
  }

  lemma {:induction false} WrapFills(all: seq<Text>, words: seq<Text>, line: Text, next: Text)
    requires forall w | w in words :: w in all
    ensures AllFull(Wrap(words, LINE_LENGTH, line, next), all, next)
  {
    if words != [] {
      var w, rest := words[0], words[1..];
      assert w in all;
      if |line| + 1 + |w| <= LINE_LENGTH {
        WrapFills(all, rest, line + [SPACE] + w, next);
      } else {
        var below := Wrap(rest, LINE_LENGTH, next + w, next);
        WrapFills(all, rest, next + w, next);
        WrapStarts(rest, next + w, next);
        assert WouldNotFit(line, below[0], all, next);
        OneLineMore(line, below, all, next);
      }
    }
  }

  lemma OneLineMore(line: Text, below: seq<Text>, words: seq<Text>, next: Text)
    requires AllFull(below, words, next) && below != [] && WouldNotFit(line, below[0], words, next)
    ensures AllFull([line] + below, words, next)
  {
    var lines := [line] + below;
    forall k | 0 <= k < |lines| - 1
      ensures WouldNotFit(lines[k], lines[k + 1], words, next)
    {
      assert k > 0 ==> WouldNotFit(below[k - 1], below[k], words, next);
    }
  }

  /** A line ends only where the next word would take it past the limit. */
  lemma LinesAreFull(t: Text, first: Text, next: Text)
    ensures AllFull(Fill(t, first, next), Words(t), next)
  {
    var words := Words(t);
    if words != [] {
      assert forall w | w in words[1..] :: w in words;
      WrapFills(words, words[1..], first + words[0], next);
    }
  }

  /** No line is longer than the limit, unless it holds a single word. */
  lemma LinesFit(t: Text, first: Text, next: Text)
    ensures forall l | l in Fill(t, first, next) :: FitsOrIsOneWord(l, Words(t), first, next)
  {
    var words := Words(t);
    if words != [] {
      WrapFits(words, words[1..], first + words[0], first, next);
    }
  }
}
