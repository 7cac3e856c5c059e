/**
 * What any `.nomai` text reads as: every value, token, header line, block line and body has one way to be written,
 * and the parser's answer is told from that writing alone, errors included.
 */
module NomaiGrammar {
  import opened Prelude
  import opened NomaiText
  import opened NomaiFields
  import opened NomaiTags
  import opened NomaiFormat
  import opened NomaiAttrs

  // ---- Whitespace around a text ----

  lemma {:induction false} TrimStartParts(s: string) returns (before: string)
    ensures s == before + TrimStart(s) && AllSpace(before) && (TrimStart(s) == "" || !IsSpace(TrimStart(s)[0]))
  {
    if s != "" && IsSpace(s[0]) {
      var rest := TrimStartParts(s[1..]);
      before := [s[0]] + rest;
      assert s == [s[0]] + s[1..];
    } else {
      before := "";
    }
  }

  lemma {:induction false} TrimEndParts(s: string) returns (after: string)
    ensures s == TrimEnd(s) + after && AllSpace(after) && (TrimEnd(s) == "" || !IsSpace(TrimEnd(s)[|TrimEnd(s)| - 1]))
  {
    if s != "" && IsSpace(s[|s| - 1]) {
      var rest := TrimEndParts(s[..|s| - 1]);
      after := rest + [s[|s| - 1]];
      assert s == s[..|s| - 1] + [s[|s| - 1]];
    } else {
      after := "";
    }
  }

  /** Trimming takes whitespace off both ends, all of it and nothing else. */
  lemma {:induction false} TrimIsCore(s: string) returns (before: string, after: string)
    ensures s == before + Trim(s) + after && AllSpace(before) && AllSpace(after) && Trimmed(Trim(s))
  {
    before := TrimStartParts(s);
    after := TrimEndParts(TrimStart(s));
    PlusAssociates(before, Trim(s), after);
    if Trim(s) != "" {
      assert TrimStart(s)[0] == Trim(s)[0];
    }
  }

  // ---- Values ----

  /** Between the outer quotes: any character but a backslash, or a backslash and the character after it. */
  predicate ValueSignsOk(xs: seq<Sign>) {
    forall i :: 0 <= i < |xs| && xs[i].Raw? ==> xs[i].c != '\\'
  }

  /** Only the backslash before a quote goes. */
  function ValueOf(xs: seq<Sign>): string {
    if xs == [] then ""
    else ValueOf(xs[..|xs| - 1]) + if xs[|xs| - 1] == Slashed('"') then ['"'] else SpellSign(xs[|xs| - 1])
  }

  /** A backslash nothing comes after. */
  function Alone(odd: bool): string {
    if odd then ['\\'] else ""
  }

  lemma {:induction false} ReadValueSign(out: string, x: Sign)
    requires x.Raw? ==> x.c != '\\'
    ensures ReadAll(Reader(out, false), SpellSign(x)) == Reader(out + (if x == Slashed('"') then ['"'] else SpellSign(x)), false)
  {
    if x.Raw? {
      ReadOne(Reader(out, false), x.c);
    } else {
      ReadTwo(Reader(out, false), '\\', x.c);
    }
  }

  lemma {:induction false} ReadValueSigns(xs: seq<Sign>)
    requires ValueSignsOk(xs)
    ensures ReadAll(Reader("", false), SpellSigns(xs)) == Reader(ValueOf(xs), false)
  {
    if xs != [] {
      var init, last := xs[..|xs| - 1], xs[|xs| - 1];
      ReadValueSigns(init);
      ReadAppend(Reader("", false), SpellSigns(init), SpellSign(last));
      ReadValueSign(ValueOf(init), last);
    }
  }

  lemma {:induction false} ReadValueText(xs: seq<Sign>, odd: bool)
    requires ValueSignsOk(xs)
    ensures Finish(ReadAll(Reader("", false), SpellSigns(xs) + Alone(odd))) == ValueOf(xs) + Alone(odd)
  {
    ReadValueSigns(xs);
    ReadAppend(Reader("", false), SpellSigns(xs), Alone(odd));
    if odd {
      ReadOne(Reader(ValueOf(xs), false), '\\');
    } else {
      assert ReadAll(Reader(ValueOf(xs), false), "") == Reader(ValueOf(xs), false);
      assert ValueOf(xs) + "" == ValueOf(xs);
    }
  }

  /** Any text is written in this way. */
  lemma {:induction false} TextIsSigns(s: string) returns (xs: seq<Sign>, odd: bool)
    ensures ValueSignsOk(xs) && s == SpellSigns(xs) + Alone(odd)
  {
    if s == "" {
      xs, odd := [], false;
    } else {
      var init, c := s[..|s| - 1], s[|s| - 1];
      var before, held := TextIsSigns(init);
      assert s == init + [c];
      if held {
        xs, odd := before + [Slashed(c)], false;
        SignsPush(before, Slashed(c));
        assert SpellSigns(before) + ['\\'] + [c] == SpellSigns(before) + ['\\', c];
      } else if c == '\\' {
        xs, odd := before, true;
        assert SpellSigns(before) + "" == SpellSigns(before);
      } else {
        xs, odd := before + [Raw(c)], false;
        SignsPush(before, Raw(c));
        assert SpellSigns(before) + "" == SpellSigns(before);
      }
    }
  }

  ghost predicate Quotes(inner: string, v: string) {
    exists xs, odd :: ValueSignsOk(xs) && inner == SpellSigns(xs) + Alone(odd) && v == ValueOf(xs) + Alone(odd)
  }

  lemma {:induction false} QuotesExactly(inner: string, v: string)
    ensures Quotes(inner, v) <==> v == Finish(ReadAll(Reader("", false), inner))
  {
    var xs, odd := TextIsSigns(inner);
    ReadValueText(xs, odd);
    if Quotes(inner, v) {
      var ys, last :| ValueSignsOk(ys) && inner == SpellSigns(ys) + Alone(last) && v == ValueOf(ys) + Alone(last);
      ReadValueText(ys, last);
    }
  }

  /** Main result: what a value reads as, for any text: bare text trimmed, or quoted text less its backslashes before quotes. */
  lemma {:induction false} ValueLanguage(value: string, v: string)
    ensures var s := Trim(value);
      Unescape(value) == Some(v) <==>
        if s == "" || s[0] != '"' then v == s else |s| >= 2 && s[|s| - 1] == '"' && Quotes(s[1..|s| - 1], v)
  {
    var s := Trim(value);
    if |s| >= 2 {
      QuotesExactly(s[1..|s| - 1], v);
    }
  }

  // ---- Tokens ----

  /** A part of a token: one character outside quotes, or a quoted string with its quotes. */
  datatype Bit = Bare(c: char) | Quoted(signs: seq<Sign>)

  /** Whitespace, and the token after it. */
  datatype Word = Word(gap: string, bits: seq<Bit>)

  /** What comes after the last whole token: whitespace, or a token whose last quote is never closed. */
  datatype End = Blank(gap: string) | Cut(gap: string, bits: seq<Bit>, signs: seq<Sign>, odd: bool)

  predicate BitOk(b: Bit) {
    match b
    case Bare(c) => !IsSpace(c) && c != '"'
    case Quoted(signs) => SignsOk(signs)
  }

  predicate BitsOk(bits: seq<Bit>) {
    forall i :: 0 <= i < |bits| ==> BitOk(bits[i])
  }

  predicate WordsOk(ws: seq<Word>) {
    forall i :: 0 <= i < |ws| ==> AllSpace(ws[i].gap) && (i > 0 ==> ws[i].gap != "") && ws[i].bits != [] && BitsOk(ws[i].bits)
  }

  predicate EndOk(ws: seq<Word>, end: End) {
    && AllSpace(end.gap)
    && (end.Cut? ==> (ws != [] ==> end.gap != "") && BitsOk(end.bits) && SignsOk(end.signs))
  }

  function SpellBit(b: Bit): string {
    match b
    case Bare(c) => [c]
    case Quoted(signs) => ['"'] + SpellSigns(signs) + ['"']
  }

  function SpellBits(bits: seq<Bit>): string {
    if bits == [] then "" else SpellBits(bits[..|bits| - 1]) + SpellBit(bits[|bits| - 1])
  }

  function SpellWords(ws: seq<Word>): string {
    if ws == [] then "" else SpellWords(ws[..|ws| - 1]) + (ws[|ws| - 1].gap + SpellBits(ws[|ws| - 1].bits))
  }

  function SpellCut(bits: seq<Bit>, signs: seq<Sign>, odd: bool): string {
    SpellBits(bits) + (['"'] + SpellSigns(signs) + Alone(odd))
  }

  function SpellEnd(end: End): string {
    if end.Blank? then end.gap else end.gap + SpellCut(end.bits, end.signs, end.odd)
  }

  function WordTexts(ws: seq<Word>): seq<string> {
    if ws == [] then [] else WordTexts(ws[..|ws| - 1]) + [SpellBits(ws[|ws| - 1].bits)]
  }

  function TokenTexts(ws: seq<Word>, end: End): seq<string> {
    if end.Blank? then WordTexts(ws) else WordTexts(ws) + [SpellCut(end.bits, end.signs, end.odd)]
  }

  // Reading what is written.

  lemma {:induction false} SplitSign(tokens: seq<string>, current: string, x: Sign)
    requires SignOk(x)
    ensures SplitAll(Inside(tokens, current, false), SpellSign(x)) == Inside(tokens, current + SpellSign(x), false)
  {
    if x.Raw? {
      SplitOne(Inside(tokens, current, false), x.c);
    } else {
      SplitTwo(Inside(tokens, current, false), '\\', x.c);
      assert current + ['\\'] + [x.c] == current + ['\\', x.c];
    }
  }

  lemma {:induction false} SplitSigns(tokens: seq<string>, current: string, xs: seq<Sign>)
    requires SignsOk(xs)
    ensures SplitAll(Inside(tokens, current, false), SpellSigns(xs)) == Inside(tokens, current + SpellSigns(xs), false)
  {
    if xs == [] {
      assert current + "" == current;
    } else {
      var init, last := xs[..|xs| - 1], xs[|xs| - 1];
      SplitSigns(tokens, current, init);
      SplitAppend(Inside(tokens, current, false), SpellSigns(init), SpellSign(last));
      SplitSign(tokens, current + SpellSigns(init), last);
      PlusAssociates(current, SpellSigns(init), SpellSign(last));
    }
  }

  /** Behind an opening quote and what follows it. */
  lemma {:induction false} SplitOpened(tokens: seq<string>, current: string, xs: seq<Sign>)
    requires SignsOk(xs)
    ensures SplitAll(Outside(tokens, current), ['"'] + SpellSigns(xs)) == Inside(tokens, current + (['"'] + SpellSigns(xs)), false)
  {
    SplitAppend(Outside(tokens, current), ['"'], SpellSigns(xs));
    SplitOne(Outside(tokens, current), '"');
    SplitSigns(tokens, current + ['"'], xs);
    PlusAssociates(current, ['"'], SpellSigns(xs));
  }

  lemma {:induction false} SplitBit(tokens: seq<string>, current: string, b: Bit)
    requires BitOk(b)
    ensures SplitAll(Outside(tokens, current), SpellBit(b)) == Outside(tokens, current + SpellBit(b))
  {
    match b
    case Bare(c) => SplitOne(Outside(tokens, current), c);
    case Quoted(signs) =>
      var quoted := ['"'] + SpellSigns(signs);
      SplitOpened(tokens, current, signs);
      SplitAppend(Outside(tokens, current), quoted, ['"']);
      SplitOne(Inside(tokens, current + quoted, false), '"');
      PlusAssociates(current, quoted, ['"']);
  }

  lemma {:induction false} SplitBits(tokens: seq<string>, current: string, bits: seq<Bit>)
    requires BitsOk(bits)
    ensures SplitAll(Outside(tokens, current), SpellBits(bits)) == Outside(tokens, current + SpellBits(bits))
  {
    if bits == [] {
      assert current + "" == current;
    } else {
      var init, last := bits[..|bits| - 1], bits[|bits| - 1];
      SplitBits(tokens, current, init);
      SplitAppend(Outside(tokens, current), SpellBits(init), SpellBit(last));
      SplitBit(tokens, current + SpellBits(init), last);
      PlusAssociates(current, SpellBits(init), SpellBit(last));
    }
  }

  /** Whitespace ends the open token, and more of it does nothing. */
  lemma {:induction false} SplitGap(tokens: seq<string>, current: string, gap: string)
    requires AllSpace(gap)
    ensures SplitAll(Outside(tokens, current), gap) ==
            if gap == "" || current == "" then Outside(tokens, current) else Outside(tokens + [current], "")
  {
    if gap != "" {
      SplitGap(tokens, current, gap[..|gap| - 1]);
    }
  }

  lemma {:induction false} BitsAreText(bits: seq<Bit>)
    ensures SpellBits(bits) == "" <==> bits == []
  {
  }

  lemma {:induction false} GapThenBits(tokens: seq<string>, current: string, gap: string, bits: seq<Bit>)
    requires AllSpace(gap) && BitsOk(bits) && (gap != "" || current == "")
    ensures SplitAll(Outside(tokens, current), gap + SpellBits(bits)) == Outside(Closed(Outside(tokens, current)), SpellBits(bits))
  {
    SplitAppend(Outside(tokens, current), gap, SpellBits(bits));
    SplitGap(tokens, current, gap);
    SplitBits(Closed(Outside(tokens, current)), "", bits);
    assert "" + SpellBits(bits) == SpellBits(bits);
  }

  /** The scanner behind written words: the last one is still open. */
  function Behind(ws: seq<Word>): Splitter {
    if ws == [] then Outside([], "") else Outside(WordTexts(ws[..|ws| - 1]), SpellBits(ws[|ws| - 1].bits))
  }

  lemma {:induction false} BehindCloses(ws: seq<Word>)
    requires WordsOk(ws)
    ensures Closed(Behind(ws)) == WordTexts(ws) && !Behind(ws).inQuote && !Behind(ws).held && (Behind(ws).current == "" <==> ws == [])
  {
    if ws != [] {
      BitsAreText(ws[|ws| - 1].bits);
    }
  }

  lemma {:induction false} SplitWords(ws: seq<Word>)
    requires WordsOk(ws)
    ensures SplitAll(Outside([], ""), SpellWords(ws)) == Behind(ws)
  {
    if ws != [] {
      var init, last := ws[..|ws| - 1], ws[|ws| - 1];
      SplitWords(init);
      BehindCloses(init);
      SplitAppend(Outside([], ""), SpellWords(init), last.gap + SpellBits(last.bits));
      GapThenBits(Behind(init).tokens, Behind(init).current, last.gap, last.bits);
    }
  }

  lemma {:induction false} SplitCut(tokens: seq<string>, current: string, signs: seq<Sign>, odd: bool)
    requires SignsOk(signs)
    ensures var t := SplitAll(Outside(tokens, current), ['"'] + SpellSigns(signs) + Alone(odd));
      t.tokens == tokens && t.current == current + (['"'] + SpellSigns(signs) + Alone(odd))
  {
    var quoted := ['"'] + SpellSigns(signs);
    SplitOpened(tokens, current, signs);
    SplitAppend(Outside(tokens, current), quoted, Alone(odd));
    PlusAssociates(current, quoted, Alone(odd));
    if odd {
      SplitOne(Inside(tokens, current + quoted, false), '\\');
    } else {
      assert quoted + "" == quoted;
    }
  }

  lemma {:induction false} SplitEnd(ws: seq<Word>, end: End)
    requires WordsOk(ws) && EndOk(ws, end)
    ensures Closed(SplitAll(Behind(ws), SpellEnd(end))) == TokenTexts(ws, end)
  {
    BehindCloses(ws);
    var tokens, current := Behind(ws).tokens, Behind(ws).current;
    if end.Blank? {
      SplitGap(tokens, current, end.gap);
    } else {
      var quoted := ['"'] + SpellSigns(end.signs) + Alone(end.odd);
      PlusAssociates(end.gap, SpellBits(end.bits), quoted);
      SplitAppend(Behind(ws), end.gap + SpellBits(end.bits), quoted);
      GapThenBits(tokens, current, end.gap, end.bits);
      SplitCut(WordTexts(ws), SpellBits(end.bits), end.signs, end.odd);
    }
  }

  ghost predicate Written(s: string, ws: seq<Word>, end: End) {
    WordsOk(ws) && EndOk(ws, end) && s == SpellWords(ws) + SpellEnd(end)
  }

  lemma {:induction false} WrittenTokensRead(s: string, ws: seq<Word>, end: End)
    requires Written(s, ws, end)
    ensures Tokens(s) == TokenTexts(ws, end)
  {
    SplitWords(ws);
    SplitAppend(Outside([], ""), SpellWords(ws), SpellEnd(end));
    SplitEnd(ws, end);
  }

  // Any text is written in words.

  lemma {:induction false} BitsPush(bits: seq<Bit>, b: Bit)
    ensures SpellBits(bits + [b]) == SpellBits(bits) + SpellBit(b)
  {
    assert (bits + [b])[..|bits|] == bits;
  }

  lemma {:induction false} WordsPush(ws: seq<Word>, w: Word)
    ensures SpellWords(ws + [w]) == SpellWords(ws) + (w.gap + SpellBits(w.bits))
  {
    assert (ws + [w])[..|ws|] == ws;
  }

  /** So far: whole words, then whitespace and the bits of a word, and perhaps an open quote. */
  datatype Progress = Progress(ws: seq<Word>, gap: string, bits: seq<Bit>, open: bool, signs: seq<Sign>, odd: bool)

  function Current(p: Progress): string {
    if p.open then SpellCut(p.bits, p.signs, p.odd) else SpellBits(p.bits)
  }

  ghost predicate Sound(p: Progress) {
    WordsOk(p.ws) && AllSpace(p.gap) && (p.ws != [] ==> p.gap != "") && BitsOk(p.bits) && SignsOk(p.signs)
  }

  function SpellProgress(p: Progress): string {
    SpellWords(p.ws) + p.gap + Current(p)
  }

  lemma {:induction false} CurrentGrows(p: Progress, q: Progress, text: string)
    requires p.ws == q.ws && p.gap == q.gap && Current(q) == Current(p) + text
    ensures SpellProgress(q) == SpellProgress(p) + text
  {
    PlusAssociates(SpellWords(p.ws) + p.gap, Current(p), text);
  }

  lemma {:induction false} QuoteOpens(bits: seq<Bit>)
    ensures SpellCut(bits, [], false) == SpellBits(bits) + ['"']
  {
    assert ['"'] + "" + "" == ['"'];
  }

  lemma {:induction false} BitJoins(p: Progress, b: Bit) returns (q: Progress)
    requires Sound(p) && BitOk(b)
    ensures q == p.(bits := p.bits + [b]) && Sound(q) && SpellBits(q.bits) == SpellBits(p.bits) + SpellBit(b)
  {
    q := p.(bits := p.bits + [b]);
    BitsPush(p.bits, b);
  }

  lemma {:induction false} GapGrows(ws: string, gap: string, c: char)
    ensures ws + gap + "" + [c] == ws + (gap + [c]) + ""
  {
    PlusAssociates(ws, gap, [c]);
    assert ws + gap + "" == ws + gap;
    assert ws + (gap + [c]) + "" == ws + (gap + [c]);
  }

  lemma {:induction false} AllSpacePush(gap: string, c: char)
    requires AllSpace(gap) && IsSpace(c)
    ensures AllSpace(gap + [c])
  {
  }

  lemma {:induction false} WordsOkPush(ws: seq<Word>, w: Word)
    requires WordsOk(ws) && AllSpace(w.gap) && (ws != [] ==> w.gap != "") && w.bits != [] && BitsOk(w.bits)
    ensures WordsOk(ws + [w])
  {
  }

  lemma {:induction false} NothingMore(s: string)
    ensures s + "" == s
  {
  }

  lemma {:induction false} LastWord(p: Progress) returns (ws: seq<Word>)
    requires Sound(p) && !p.open && p.bits != []
    ensures WordsOk(ws) && SpellWords(ws) == SpellProgress(p)
  {
    var w := Word(p.gap, p.bits);
    ws := p.ws + [w];
    WordsOkPush(p.ws, w);
    WordsPush(p.ws, w);
    PlusAssociates(SpellWords(p.ws), p.gap, SpellBits(p.bits));
  }

  lemma {:induction false} WordEnds(p: Progress, c: char) returns (q: Progress)
    requires Sound(p) && !p.open && p.bits != [] && IsSpace(c)
    ensures Sound(q) && SpellProgress(q) == SpellProgress(p) + [c] && !q.open
  {
    var ws := LastWord(p);
    q := Progress(ws, [c], [], false, [], false);
    NothingMore(SpellWords(ws) + [c]);
  }

  lemma {:induction false} SeenOutside(p: Progress, c: char) returns (q: Progress)
    requires Sound(p) && !p.open
    ensures Sound(q) && SpellProgress(q) == SpellProgress(p) + [c]
  {
    if c == '"' {
      q := p.(open := true, signs := [], odd := false);
      QuoteOpens(p.bits);
      CurrentGrows(p, q, [c]);
    } else if !IsSpace(c) {
      q := BitJoins(p, Bare(c));
      CurrentGrows(p, q, [c]);
    } else if p.bits == [] {
      q := p.(gap := p.gap + [c]);
      AllSpacePush(p.gap, c);
      GapGrows(SpellWords(p.ws), p.gap, c);
    } else {
      q := WordEnds(p, c);
    }
  }

  lemma {:induction false} OpenGrows(bits: seq<Bit>, signs: seq<Sign>, x: Sign)
    ensures SpellCut(bits, signs + [x], false) == SpellCut(bits, signs, false) + SpellSign(x)
  {
    SignsPush(signs, x);
    assert ['"'] + SpellSigns(signs + [x]) + "" == ['"'] + SpellSigns(signs) + "" + SpellSign(x);
    PlusAssociates(SpellBits(bits), ['"'] + SpellSigns(signs) + "", SpellSign(x));
  }

  lemma {:induction false} OpenHolds(bits: seq<Bit>, signs: seq<Sign>, c: char)
    ensures SpellCut(bits, signs, true) == SpellCut(bits, signs, false) + ['\\']
    ensures SpellCut(bits, signs, true) + [c] == SpellCut(bits, signs, false) + SpellSign(Slashed(c))
  {
    assert ['"'] + SpellSigns(signs) + ['\\'] == ['"'] + SpellSigns(signs) + "" + ['\\'];
    PlusAssociates(SpellBits(bits), ['"'] + SpellSigns(signs) + "", ['\\']);
    PlusAssociates(SpellCut(bits, signs, false), ['\\'], [c]);
    assert ['\\'] + [c] == ['\\', c];
  }

  lemma {:induction false} OpenCloses(bits: seq<Bit>, signs: seq<Sign>)
    ensures SpellBits(bits + [Quoted(signs)]) == SpellCut(bits, signs, false) + ['"']
  {
    BitsPush(bits, Quoted(signs));
    assert ['"'] + SpellSigns(signs) + "" == ['"'] + SpellSigns(signs);
    PlusAssociates(SpellBits(bits), ['"'] + SpellSigns(signs), ['"']);
  }

  lemma {:induction false} SeenInside(p: Progress, c: char) returns (q: Progress)
    requires Sound(p) && p.open
    ensures Sound(q) && SpellProgress(q) == SpellProgress(p) + [c]
  {
    OpenHolds(p.bits, p.signs, c);
    if p.odd {
      q := p.(signs := p.signs + [Slashed(c)], odd := false);
      OpenGrows(p.bits, p.signs, Slashed(c));
    } else if c == '\\' {
      q := p.(odd := true);
    } else if c == '"' {
      q := BitJoins(p, Quoted(p.signs));
      q := q.(open := false, signs := []);
      OpenCloses(p.bits, p.signs);
    } else {
      q := p.(signs := p.signs + [Raw(c)]);
      OpenGrows(p.bits, p.signs, Raw(c));
    }
    CurrentGrows(p, q, [c]);
  }

  lemma {:induction false} TextSeen(s: string) returns (p: Progress)
    ensures Sound(p) && s == SpellProgress(p)
  {
    if s == "" {
      p := Progress([], "", [], false, [], false);
    } else {
      var init, c := s[..|s| - 1], s[|s| - 1];
      var before := TextSeen(init);
      assert s == init + [c];
      if before.open {
        p := SeenInside(before, c);
      } else {
        p := SeenOutside(before, c);
      }
    }
  }

  /** Any text is some words and an end. */
  lemma {:induction false} TextIsWords(s: string) returns (ws: seq<Word>, end: End)
    ensures Written(s, ws, end)
  {
    var p := TextSeen(s);
    ws, end := EndOf(p);
  }

  lemma {:induction false} EndOf(p: Progress) returns (ws: seq<Word>, end: End)
    requires Sound(p)
    ensures Written(SpellProgress(p), ws, end)
  {
    if p.open {
      ws, end := p.ws, Cut(p.gap, p.bits, p.signs, p.odd);
      PlusAssociates(SpellWords(p.ws), p.gap, Current(p));
    } else if p.bits == [] {
      ws, end := p.ws, Blank(p.gap);
      NothingMore(SpellWords(p.ws) + p.gap);
    } else {
      ws := LastWord(p);
      end := Blank("");
      NothingMore(SpellWords(ws));
    }
  }

  /** Main result: what a text scans as, for any text: its words, and the token a last open quote leaves. */
  lemma {:induction false} TokenLanguage(s: string, tokens: seq<string>)
    ensures Tokens(s) == tokens <==> exists ws, end :: Written(s, ws, end) && tokens == TokenTexts(ws, end)
  {
    var ws, end := TextIsWords(s);
    WrittenTokensRead(s, ws, end);
    if exists vs, last :: Written(s, vs, last) && tokens == TokenTexts(vs, last) {
      var vs, last :| Written(s, vs, last) && tokens == TokenTexts(vs, last);
      WrittenTokensRead(s, vs, last);
    }
  }
}
