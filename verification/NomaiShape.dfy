/** What every parsed document looks like: its header and attribute texts sit on one line, its bodies are whole lines. */
module NomaiShape {
  import opened Prelude
  import opened NomaiText
  import opened NomaiFields
  import opened NomaiTags
  import opened NomaiFormat
  import opened NomaiAttrs

  // ---- The shape ----

  ghost predicate HeaderEntries(m: seq<Entry>) {
    && SortedKeys(m)
    && forall i :: 0 <= i < |m| ==> m[i].value.Str? && NoSpace(m[i].key) && FieldOf(m[i].key) == Custom && !Has(m[i].value.text, '\n')
  }

  ghost predicate OneLineEntries(m: seq<Entry>) {
    forall i :: 0 <= i < |m| ==> EntryOnOneLine(m[i])
  }

  ghost predicate Connected(kind: BlockType, attrs: seq<Entry>) {
    kind == Connection ==> HasKey(attrs, "target") && HasKey(attrs, "relation")
  }

  /** Empty, or newline-terminated lines of which the last is not blank. */
  predicate WholeLines(text: string) {
    text == "" || (text[|text| - 1] == '\n' && Pieces(text) != [] && Pieces(text)[|Pieces(text)| - 1] != "")
  }

  ghost predicate BlockShape(b: Block) {
    OneLineEntries(b.attrs) && Connected(b.kind, b.attrs) && WholeLines(b.text)
  }

  ghost predicate Shape(d: Doc) {
    && d.version == 1
    && !Has(d.title, '\n')
    && AllOneLine(d.tags)
    && HeaderEntries(d.attrs)
    && (d.source.Some? ==> !Has(d.source.value, '\n'))
    && forall i :: 0 <= i < |d.blocks| ==> BlockShape(d.blocks[i])
  }

  // ---- Text keeps to its line ----

  lemma {:induction false} SliceOneLine(s: string, from: nat, to: nat)
    requires from <= to <= |s| && !Has(s, '\n')
    ensures !Has(s[from..to], '\n')
  {
  }

  lemma {:induction false} JoinOneLine(a: string, b: string)
    ensures Has(a + b, '\n') <==> Has(a, '\n') || Has(b, '\n')
  {
    if Has(a, '\n') {
      var i :| 0 <= i < |a| && a[i] == '\n';
      assert (a + b)[i] == '\n';
    }
    if Has(b, '\n') {
      var i :| 0 <= i < |b| && b[i] == '\n';
      assert (a + b)[|a| + i] == '\n';
    }
  }

  lemma {:induction false} CharOneLine(c: char)
    ensures Has([c], '\n') <==> c == '\n'
  {
    assert [c][0] == c;
  }

  lemma {:induction false} PushOneLine(s: string, c: char)
    requires !Has(s, '\n') && c != '\n'
    ensures !Has(s + [c], '\n')
  {
  }

  lemma {:induction false} DropBlanksOneLine(s: string)
    requires !Has(s, '\n')
    ensures !Has(DropBlanks(s), '\n')
  {
    if s != "" && s[0] == ' ' {
      SliceOneLine(s, 1, |s|);
      DropBlanksOneLine(s[1..]);
    }
  }

  lemma {:induction false} ReadOneLine(r: Reader, s: string)
    requires !Has(r.out, '\n') && !Has(s, '\n')
    ensures !Has(ReadAll(r, s).out, '\n')
  {
    if s != "" {
      var init, c := s[..|s| - 1], s[|s| - 1];
      SliceOneLine(s, 0, |s| - 1);
      ReadOneLine(r, init);
      var t := ReadAll(r, init);
      PushOneLine(t.out, c);
      PushOneLine(t.out, '"');
      PushOneLine(t.out, '\\');
      PushOneLine(t.out + ['\\'], c);
      assert t.out + ['\\', c] == t.out + ['\\'] + [c] && t.out + "\"" == t.out + ['"'];
    }
  }

  lemma {:induction false} TrimOneLine(s: string)
    requires !Has(s, '\n')
    ensures !Has(Trim(s), '\n')
  {
    TrimMembers(s);
  }

  lemma {:induction false} UnescapeOneLine(value: string)
    requires !Has(value, '\n') && Unescape(value).Some?
    ensures !Has(Unescape(value).value, '\n')
  {
    var s := Trim(value);
    TrimOneLine(value);
    if s != "" && s[0] == '"' {
      SliceOneLine(s, 1, |s| - 1);
      var r := ReadAll(Reader("", false), s[1..|s| - 1]);
      ReadOneLine(Reader("", false), s[1..|s| - 1]);
      PushOneLine(r.out, '\\');
      assert r.out + "\\" == r.out + ['\\'];
    }
  }

  lemma {:induction false} ReadTagsOneLine(t: TagReader, s: string)
    requires AllOneLine(t.tags) && !Has(t.current, '\n') && !Has(s, '\n')
    ensures AllOneLine(ReadTags(t, s).tags) && !Has(ReadTags(t, s).current, '\n')
  {
    if s != "" {
      SliceOneLine(s, 0, |s| - 1);
      ReadTagsOneLine(t, s[..|s| - 1]);
      PushOneLine(ReadTags(t, s[..|s| - 1]).current, s[|s| - 1]);
    }
  }

  lemma {:induction false} ParseTagsOneLine(value: string)
    requires !Has(value, '\n') && ParseTags(value).Some?
    ensures AllOneLine(ParseTags(value).value)
  {
    TrimOneLine(value);
    ReadTagsOneLine(Between([], ""), Trim(value));
  }

  lemma {:induction false} SplitOneLine(t: Splitter, s: string)
    requires AllOneLine(t.tokens) && !Has(t.current, '\n') && !Has(s, '\n')
    ensures AllOneLine(SplitAll(t, s).tokens) && !Has(SplitAll(t, s).current, '\n')
  {
    if s != "" {
      SliceOneLine(s, 0, |s| - 1);
      SplitOneLine(t, s[..|s| - 1]);
      PushOneLine(SplitAll(t, s[..|s| - 1]).current, s[|s| - 1]);
    }
  }

  lemma {:induction false} TokensOneLine(s: string)
    requires !Has(s, '\n')
    ensures AllOneLine(Tokens(s))
  {
    SplitOneLine(Outside([], ""), s);
  }

  // ---- The header keeps its shape ----

  ghost predicate HeadShape(h: Head) {
    && (h.title.Some? ==> !Has(h.title.value, '\n'))
    && AllOneLine(h.tags)
    && HeaderEntries(h.attrs)
    && (h.source.Some? ==> !Has(h.source.value, '\n'))
  }

  lemma {:induction false} InsertHeaderEntry(m: seq<Entry>, key: string, text: string)
    requires HeaderEntries(m) && NoSpace(key) && FieldOf(key) == Custom && !Has(text, '\n')
    ensures HeaderEntries(Insert(m, key, Str(text)))
  {
    InsertIsMapUpdate(m, key, Str(text));
    var m' := Insert(m, key, Str(text));
    forall i | 0 <= i < |m'|
      ensures m'[i].value.Str? && NoSpace(m'[i].key) && FieldOf(m'[i].key) == Custom && !Has(m'[i].value.text, '\n')
    {
      assert m'[i] in m';
    }
  }

  lemma {:induction false} AssignKeepsShape(c: Codecs, h: Head, key: string, value: string, line: nat)
    requires HeadShape(h) && NoSpace(key) && !Has(value, '\n') && Assign(c, h, key, value, line).Ok?
    ensures HeadShape(Assign(c, h, key, value, line).value)
  {
    match FieldOf(key)
    case Version => {}
    case Id => {}
    case Title => UnescapeOneLine(value);
    case Created => {}
    case Updated => {}
    case Tags => ParseTagsOneLine(value);
    case SourceField => UnescapeOneLine(value);
    case Custom =>
      UnescapeOneLine(value);
      InsertHeaderEntry(h.attrs, key, Unescape(value).value);
  }

  lemma {:induction false} HeaderLineKeepsShape(c: Codecs, h: Head, rest: string, line: nat)
    requires HeadShape(h) && !Has(rest, '\n') && HeaderLine(c, h, rest, line).Ok?
    ensures HeadShape(HeaderLine(c, h, rest, line).value)
  {
    var k := FirstSpace(rest);
    SliceOneLine(rest, k + 1, |rest|);
    DropBlanksOneLine(rest[k + 1..]);
    AssignKeepsShape(c, h, rest[..k], DropBlanks(rest[k + 1..]), line);
  }

  lemma {:induction false} HeaderKeepsShape(c: Codecs, h: Head, lines: seq<string>, line: nat)
    requires HeadShape(h) && AllOneLine(lines) && Header(ReadsHeader(c), h, lines, line).Ok?
    ensures var end := Header(ReadsHeader(c), h, lines, line).value; HeadShape(end.head) && AllOneLine(end.rest)
    decreases |lines|
  {
    if lines != [] && !Starts(lines[0], '@') {
      if lines[0] == "" {
        HeaderKeepsShape(c, h, lines[1..], line + 1);
      } else {
        SliceOneLine(lines[0], 1, |lines[0]|);
        HeaderLineKeepsShape(c, h, lines[0][1..], line);
        HeaderKeepsShape(c, HeaderLine(c, h, lines[0][1..], line).value, lines[1..], line + 1);
      }
    }
  }

  // ---- Blocks ----

  ghost predicate BlockHeadShape(h: BlockHead) {
    OneLineEntries(h.attrs) && Connected(h.kind, h.attrs)
  }

  lemma {:induction false} AddTokenOneLine(m: seq<Entry>, token: string, line: nat)
    requires SortedKeys(m) && OneLineEntries(m) && !Has(token, '\n') && AddToken(m, token, line).Ok?
    ensures SortedKeys(AddToken(m, token, line).value) && OneLineEntries(AddToken(m, token, line).value)
  {
    var eq := FirstAt(token, '=');
    SliceOneLine(token, 0, eq);
    SliceOneLine(token, eq + 1, |token|);
    UnescapeOneLine(token[eq + 1..]);
    InsertIsMapUpdate(m, token[..eq], Str(Unescape(token[eq + 1..]).value));
    var m' := AddToken(m, token, line).value;
    forall i | 0 <= i < |m'|
      ensures EntryOnOneLine(m'[i])
    {
      assert m'[i] in m';
    }
  }

  lemma {:induction false} FromOneLine(tokens: seq<string>, line: nat)
    requires AllOneLine(tokens) && AttrsFrom(tokens, line).Ok?
    ensures SortedKeys(AttrsFrom(tokens, line).value) && OneLineEntries(AttrsFrom(tokens, line).value)
  {
    if tokens != [] {
      FromOneLine(tokens[..|tokens| - 1], line);
      AddTokenOneLine(AttrsFrom(tokens[..|tokens| - 1], line).value, tokens[|tokens| - 1], line);
    }
  }

  lemma {:induction false} ParseAttrsOneLine(s: string, line: nat)
    requires !Has(s, '\n') && ParseAttrs(s, line).Ok?
    ensures OneLineEntries(ParseAttrs(s, line).value)
  {
    TrimOneLine(s);
    if Trim(s) != "" {
      TokensOneLine(Trim(s));
      FromOneLine(Tokens(Trim(s)), line);
    }
  }

  lemma {:induction false} BlockValueOneLine(rest: string)
    requires !Has(rest, '\n')
    ensures !Has(SplitBlockHeader(rest).value, '\n')
  {
    var k := FirstSpace(rest);
    if k < |rest| {
      var after := rest[k..];
      SliceOneLine(rest, k, |rest|);
      TrimStartSuffix(after);
      SliceOneLine(after, |after| - |TrimStart(after)|, |after|);
    }
  }

  lemma {:induction false} BlockHeadIsShaped(rest: string, line: nat)
    requires !Has(rest, '\n') && ParseBlockHead(rest, line).Ok?
    ensures BlockHeadShape(ParseBlockHead(rest, line).value)
  {
    BlockValueOneLine(rest);
    ParseAttrsOneLine(SplitBlockHeader(rest).value, line);
  }

  ghost predicate RawShape<H>(good: H -> bool, raw: RawBlock<H>) {
    good(raw.head) && AllOneLine(raw.raws)
  }

  ghost predicate AllRaw<H>(good: H -> bool, raws: seq<RawBlock<H>>) {
    forall i :: 0 <= i < |raws| ==> RawShape(good, raws[i])
  }

  ghost predicate Makes<H>(headOf: BlockReader<H>, good: H -> bool) {
    forall s: string, n: nat {:trigger headOf(s, n)} :: !Has(s, '\n') && headOf(s, n).Ok? ==> good(headOf(s, n).value)
  }

  lemma {:induction false} BlocksStep<H>(headOf: BlockReader<H>, lines: seq<string>, line: nat, done: seq<RawBlock<H>>)
    requires lines != [] && Blocks(headOf, lines, line, done).Ok?
    ensures lines[0] == "" ==> Blocks(headOf, lines, line, done) == Blocks(headOf, lines[1..], line + 1, done)
    ensures lines[0] != "" ==>
      var k := BodySize(lines[1..]);
      && headOf(lines[0][1..], line).Ok?
      && Blocks(headOf, lines, line, done) ==
         Blocks(headOf, lines[1..][k..], line + 1 + k, done + [RawBlock(headOf(lines[0][1..], line).value, lines[1..][..k])])
  {
  }

  lemma {:induction false} AllRawPush<H>(good: H -> bool, raws: seq<RawBlock<H>>, raw: RawBlock<H>)
    requires AllRaw(good, raws) && RawShape(good, raw)
    ensures AllRaw(good, raws + [raw])
  {
  }

  lemma {:induction false} FirstRawShape<H>(headOf: BlockReader<H>, good: H -> bool, lines: seq<string>, line: nat, k: nat)
    requires Makes(headOf, good) && AllOneLine(lines) && lines != [] && lines[0] != "" && k < |lines|
    requires headOf(lines[0][1..], line).Ok?
    ensures RawShape(good, RawBlock(headOf(lines[0][1..], line).value, lines[1..][..k])) && AllOneLine(lines[1..][k..])
  {
    SliceOneLine(lines[0], 1, |lines[0]|);
  }

  /** Every block is made of a block line and of lines. */
  lemma {:induction false} BlocksKeepShape<H>(headOf: BlockReader<H>, good: H -> bool, lines: seq<string>, line: nat, done: seq<RawBlock<H>>)
    requires Makes(headOf, good) && AllOneLine(lines) && AllRaw(good, done) && Blocks(headOf, lines, line, done).Ok?
    ensures AllRaw(good, Blocks(headOf, lines, line, done).value)
    decreases |lines|
  {
    if lines != [] {
      BlocksStep(headOf, lines, line, done);
      if lines[0] == "" {
        BlocksKeepShape(headOf, good, lines[1..], line + 1, done);
      } else {
        var k := BodySize(lines[1..]);
        var raw := RawBlock(headOf(lines[0][1..], line).value, lines[1..][..k]);
        FirstRawShape(headOf, good, lines, line, k);
        AllRawPush(good, done, raw);
        BlocksKeepShape(headOf, good, lines[1..][k..], line + 1 + k, done + [raw]);
      }
    }
  }

  ghost function GoodHead(): BlockHead -> bool {
    (h: BlockHead) => BlockHeadShape(h)
  }

  lemma {:induction false} MakesGoodHeads()
    ensures Makes(ReadsBlock(), GoodHead())
  {
    forall s: string, n: nat | !Has(s, '\n') && ReadsBlock()(s, n).Ok?
      ensures GoodHead()(ReadsBlock()(s, n).value)
    {
      BlockHeadIsShaped(s, n);
    }
  }

  lemma {:induction false} StripBlankEnds(lines: seq<string>)
    ensures StripBlank(lines) <= lines
    ensures StripBlank(lines) != [] ==> StripBlank(lines)[|StripBlank(lines)| - 1] != ""
  {
    if lines != [] && lines[|lines| - 1] == "" {
      StripBlankEnds(lines[..|lines| - 1]);
    }
  }

  lemma {:induction false} UnlinesEnds(lines: seq<string>)
    requires lines != []
    ensures Unlines(lines) != "" && Unlines(lines)[|Unlines(lines)| - 1] == '\n'
  {
    if |lines| > 1 {
      UnlinesEnds(lines[1..]);
    }
  }

  lemma {:induction false} UnlinesAreWhole(lines: seq<string>)
    requires AllOneLine(lines) && (lines != [] ==> lines[|lines| - 1] != "")
    ensures WholeLines(Unlines(lines))
  {
    if lines != [] {
      UnlinesEnds(lines);
      PiecesReadBack(lines);
    }
  }

  lemma {:induction false} BodyIsWhole(raws: seq<string>)
    requires AllOneLine(raws)
    ensures WholeLines(Body(raws))
  {
    var lines := BodyLines(raws);
    forall i | 0 <= i < |lines|
      ensures !Has(lines[i], '\n')
    {
      assert lines[i] == BodyLine(raws[i]) && !Has(raws[i], '\n');
    }
    StripBlankEnds(lines);
    UnlinesAreWhole(StripBlank(lines));
  }

  lemma {:induction false} FinishAllIs(raws: seq<RawBlock<BlockHead>>)
    ensures |FinishAll(raws)| == |raws| && forall i :: 0 <= i < |raws| ==> FinishAll(raws)[i] == Finished(raws[i])
  {
    if raws != [] {
      FinishAllIs(raws[..|raws| - 1]);
    }
  }

  lemma {:induction false} FinishedShapes(raws: seq<RawBlock<BlockHead>>)
    requires AllRaw(GoodHead(), raws)
    ensures forall i :: 0 <= i < |FinishAll(raws)| ==> BlockShape(FinishAll(raws)[i])
  {
    FinishAllIs(raws);
    forall i | 0 <= i < |raws|
      ensures BlockShape(Finished(raws[i]))
    {
      assert RawShape(GoodHead(), raws[i]);
      BodyIsWhole(raws[i].raws);
    }
  }

  lemma {:induction false} LinesShape(c: Codecs, lines: seq<string>, d: Doc)
    requires AllOneLine(lines) && ParseLines(c, lines) == Ok(d)
    ensures Shape(d)
  {
    HeaderKeepsShape(c, NewHead(), lines, 1);
    var end := Header(ReadsHeader(c), NewHead(), lines, 1).value;
    MakesGoodHeads();
    BlocksKeepShape(ReadsBlock(), GoodHead(), end.rest, end.line, []);
    FinishedShapes(Blocks(ReadsBlock(), end.rest, end.line, []).value);
  }

  /** Main result: every parsed document has the shape. */
  lemma {:induction false} ParsedShape(c: Codecs, input: string, d: Doc)
    requires Parse(c, input) == Ok(d)
    ensures Shape(d)
  {
    LinesAreOneLine(input);
    LinesShape(c, Lines(input), d);
  }
}
