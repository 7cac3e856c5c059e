/** The parser and the renderer as the loops they are, proved against the functions of the format. */
module NomaiLoops {
  import opened Prelude
  import opened NomaiText
  import opened NomaiFields
  import opened NomaiTags
  import opened NomaiFormat
  import opened NomaiAttrs
  import opened NomaiRoundTrip

  // ---- Values ----

  lemma {:induction false} ReadNext(s: string, i: nat)
    requires i < |s|
    ensures ReadAll(Reader("", false), s[..i + 1]) == Read(ReadAll(Reader("", false), s[..i]), s[i])
  {
    assert s[..i + 1][..i] == s[..i];
  }

  /** Takes the character after a backslash together with it. */
  method UnescapeInner(inner: string) returns (out: string)
    ensures out == Finish(ReadAll(Reader("", false), inner))
  {
    out := "";
    var i := 0;
    while i < |inner|
      invariant i <= |inner|
      invariant i < |inner| ==> ReadAll(Reader("", false), inner[..i]) == Reader(out, false)
      invariant i == |inner| ==> Finish(ReadAll(Reader("", false), inner[..i])) == out
    {
      var c := inner[i];
      ReadNext(inner, i);
      i := i + 1;
      if c == '\\' {
        if i < |inner| {
          ReadNext(inner, i);
          if inner[i] == '"' {
            out := out + "\"";
          } else {
            out := out + ['\\', inner[i]];
          }
          i := i + 1;
        } else {
          out := out + "\\";
        }
      } else {
        out := out + [c];
      }
    }
    assert inner[..|inner|] == inner;
  }

  method UnescapeValue(value: string) returns (r: Option<string>)
    ensures r == Unescape(value)
  {
    var s := Trim(value);
    if s == "" || s[0] != '"' {
      return Some(s);
    }
    if s[|s| - 1] != '"' || |s| < 2 {
      return None;
    }
    var out := UnescapeInner(s[1..|s| - 1]);
    return Some(out);
  }

  // ---- Attribute tokens ----

  lemma {:induction false} SplitNext(s: string, i: nat)
    requires i < |s|
    ensures SplitAll(Outside([], ""), s[..i + 1]) == Split(SplitAll(Outside([], ""), s[..i]), s[i])
  {
    assert s[..i + 1][..i] == s[..i];
  }

  /** The scanner's variables agree with the splitter; at the very end a backslash may be left hanging. */
  ghost predicate Scanned(s: string, i: nat, tokens: seq<string>, current: string, inQuote: bool)
    requires i <= |s|
  {
    var t := SplitAll(Outside([], ""), s[..i]);
    t.tokens == tokens && t.current == current && t.inQuote == inQuote && (i < |s| ==> !t.held)
  }

  method SplitAttrTokens(s: string) returns (tokens: seq<string>)
    ensures tokens == Tokens(s)
  {
    tokens := [];
    var current, inQuote, i := "", false, 0;
    assert s[..0] == "";
    while i < |s|
      invariant i <= |s| && Scanned(s, i, tokens, current, inQuote)
    {
      var c := s[i];
      SplitNext(s, i);
      i := i + 1;
      if inQuote {
        current := current + [c];
        if c == '\\' {
          if i < |s| {
            SplitNext(s, i);
            current := current + [s[i]];
            i := i + 1;
          }
        } else if c == '"' {
          inQuote := false;
        }
      } else if c == '"' {
        current := current + [c];
        inQuote := true;
      } else if IsSpace(c) {
        if current != "" {
          tokens, current := tokens + [current], "";
        }
      } else {
        current := current + [c];
      }
    }
    assert s[..|s|] == s;
    if current != "" {
      tokens := tokens + [current];
    }
  }

  method ReadToken(m: seq<Entry>, token: string, line: nat) returns (r: Result<seq<Entry>, ParseError>)
    ensures r == AddToken(m, token, line)
  {
    var eq := FirstAt(token, '=');
    if eq == |token| {
      return Err(Syntax(line));
    }
    var value := UnescapeValue(token[eq + 1..]);
    if value.None? {
      return Err(InvalidValue(line, "block_attr"));
    }
    return Ok(Insert(m, token[..eq], Str(value.value)));
  }

  method ParseBlockAttrs(s: string, line: nat) returns (r: Result<seq<Entry>, ParseError>)
    ensures r == ParseAttrs(s, line)
  {
    var trimmed := Trim(s);
    if trimmed == "" {
      return Ok([]);
    }
    var tokens := SplitAttrTokens(trimmed);
    var out: seq<Entry> := [];
    for i := 0 to |tokens|
      invariant AttrsFrom(tokens[..i], line) == Ok(out)
    {
      AttrsFromNext(tokens, i, line);
      var next := ReadToken(out, tokens[i], line);
      if next.Err? {
        AttrsFromFails(tokens, i + 1, line);
        return Err(next.error);
      }
      out := next.value;
    }
    assert tokens[..|tokens|] == tokens;
    return Ok(out);
  }

  lemma {:induction false} AttrsFromNext(tokens: seq<string>, i: nat, line: nat)
    requires i < |tokens| && AttrsFrom(tokens[..i], line).Ok?
    ensures AttrsFrom(tokens[..i + 1], line) == AddToken(AttrsFrom(tokens[..i], line).value, tokens[i], line)
  {
    assert tokens[..i + 1][..i] == tokens[..i];
  }

  lemma {:induction false} AttrsFromFails(tokens: seq<string>, n: nat, line: nat)
    requires n <= |tokens| && AttrsFrom(tokens[..n], line).Err?
    ensures AttrsFrom(tokens, line) == AttrsFrom(tokens[..n], line)
  {
    if n == |tokens| {
      assert tokens[..n] == tokens;
    } else {
      assert tokens[..|tokens| - 1][..n] == tokens[..n];
      AttrsFromFails(tokens[..|tokens| - 1], n, line);
    }
  }

  // ---- Tags ----

  lemma {:induction false} ReadTagNext(s: string, i: nat)
    requires i < |s|
    ensures ReadTags(Between([], ""), s[..i + 1]) == ReadTag(ReadTags(Between([], ""), s[..i]), s[i])
  {
    assert s[..i + 1][..i] == s[..i];
  }

  ghost predicate TagsScanned(s: string, i: nat, tags: seq<string>, current: string, inQuote: bool)
    requires i <= |s|
  {
    var t := ReadTags(Between([], ""), s[..i]);
    t.tags == tags && t.current == current && t.inQuote == inQuote && (i < |s| ==> !t.held)
  }

  method ParseTagList(value: string) returns (r: Option<seq<string>>)
    ensures r == ParseTags(value)
  {
    var s := Trim(value);
    if s == "" {
      return Some([]);
    }
    var tags: seq<string> := [];
    var current, inQuote, i := "", false, 0;
    assert s[..0] == "";
    while i < |s|
      invariant i <= |s| && TagsScanned(s, i, tags, current, inQuote)
    {
      var c := s[i];
      ReadTagNext(s, i);
      i := i + 1;
      if inQuote {
        if c == '"' {
          inQuote := false;
        } else if c == '\\' {
          if i < |s| {
            ReadTagNext(s, i);
            current := current + [s[i]];
            i := i + 1;
          }
        } else {
          current := current + [c];
        }
      } else if c == '"' {
        if Trim(current) == "" {
          current := "";
        }
        inQuote := true;
      } else if c == ',' {
        tags, current := tags + [current], "";
      } else {
        current := current + [c];
      }
    }
    assert s[..|s|] == s;
    if inQuote {
      return None;
    }
    return Some(tags + [current]);
  }

  // ---- Rendering ----

  lemma {:induction false} UnlinesPush(lines: seq<string>, line: string)
    ensures Unlines(lines + [line]) == Unlines(lines) + line + "\n"
  {
    UnlinesAppend(lines, [line]);
    assert Unlines([line]) == line + "\n" by { UnlinesCons(line, []); assert [line] + [] == [line]; }
    PlusAssociates(Unlines(lines), line, "\n");
  }

  method RenderBlockBody(text: string) returns (out: string)
    ensures out == Unlines(RenderBody(text))
  {
    out := "";
    var pieces := Pieces(text);
    for i := 0 to |pieces|
      invariant out == Unlines(RenderBody(text)[..i])
    {
      RenderNext(RenderBody(text), i);
      assert RenderBody(text)[i] == RenderLine(pieces[i]);
      if Starts(pieces[i], '@') {
        out := out + ("\\" + pieces[i]) + "\n";
      } else {
        out := out + pieces[i] + "\n";
      }
    }
    assert RenderBody(text)[..|pieces|] == RenderBody(text);
  }

  lemma {:induction false} RenderNext(lines: seq<string>, i: nat)
    requires i < |lines|
    ensures Unlines(lines[..i + 1]) == Unlines(lines[..i]) + lines[i] + "\n"
  {
    assert lines[..i + 1] == lines[..i] + [lines[i]];
    UnlinesPush(lines[..i], lines[i]);
  }

  /** A block's line, key by key, and its body, behind a blank line. */
  method RenderBlock(b: Block) returns (out: string)
    ensures out == Unlines(BlockLines(b))
  {
    var line := "@" + TypeName(b.kind);
    var attrs := AttrsOf(b.attrs);
    for i := 0 to |b.attrs|
      invariant line == "@" + (TypeName(b.kind) + Spaced(attrs[..i]))
    {
      assert attrs[..i + 1][..i] == attrs[..i];
      SpacedRegroup("@", TypeName(b.kind), Spaced(attrs[..i]), b.attrs[i].key, Escape(b.attrs[i].value.text));
      line := line + " " + (b.attrs[i].key + "=" + Escape(b.attrs[i].value.text));
    }
    assert attrs[..|b.attrs|] == attrs;
    var body := RenderBlockBody(b.text);
    out := "\n" + line + "\n" + body;
    BlockUnlines(b);
  }

  lemma {:induction false} SpacedRegroup(mark: string, name: string, before: string, key: string, value: string)
    ensures mark + (name + before) + " " + (key + "=" + value) == mark + (name + (before + " " + (key + "=" + value)))
  {
  }

  lemma {:induction false} BlankFirst(line: string, body: string)
    ensures "" + "\n" + (line + "\n" + body) == "\n" + line + "\n" + body
  {
  }

  lemma {:induction false} TwoThenBody(a: string, b: string, body: seq<string>)
    ensures Unlines([a, b] + body) == a + "\n" + (b + "\n" + Unlines(body))
  {
    assert [a, b] + body == [a] + ([b] + body);
    UnlinesCons(a, [b] + body);
    UnlinesCons(b, body);
  }

  lemma {:induction false} BlockUnlines(b: Block)
    ensures Unlines(BlockLines(b)) == "\n" + BlockLine(b) + "\n" + Unlines(RenderBody(b.text))
  {
    TwoThenBody("", BlockLine(b), RenderBody(b.text));
    BlankFirst(BlockLine(b), Unlines(RenderBody(b.text)));
  }

  lemma {:induction false} AllBlockLinesPush(blocks: seq<Block>, b: Block)
    ensures AllBlockLines(blocks + [b]) == AllBlockLines(blocks) + BlockLines(b)
  {
    if blocks == [] {
      assert [] + [b] == [b];
      assert AllBlockLines([b]) == BlockLines(b) + AllBlockLines([b][1..]);
    } else {
      AllBlockLinesPush(blocks[1..], b);
      assert (blocks + [b])[0] == blocks[0] && (blocks + [b])[1..] == blocks[1..] + [b];
    }
  }

  method RenderFirst(c: Codecs, d: Doc) returns (out: string)
    ensures out == Unlines(FirstLines(c, d))
  {
    out := "";
    ghost var done: seq<string> := [];
    out, done := Push(out, done, KeyLine("format_version", Decimal(d.version)));
    out, done := Push(out, done, KeyLine("id", c.id.encode(d.id)));
    out, done := Push(out, done, KeyLine("title", Escape(d.title)));
    assert done == FirstLines(c, d);
  }

  lemma {:induction false} NextLine(before: seq<string>, lines: seq<string>, i: nat)
    requires i < |lines|
    ensures Unlines(before + lines[..i + 1]) == Unlines(before + lines[..i]) + lines[i] + "\n"
  {
    assert before + lines[..i + 1] == before + lines[..i] + [lines[i]];
    UnlinesPush(before + lines[..i], lines[i]);
  }

  method RenderAttrs(before: string, ghost lines: seq<string>, m: seq<Entry>) returns (out: string)
    requires before == Unlines(lines)
    ensures out == Unlines(lines + AttrLines(m))
  {
    out := before;
    ghost var attrs := AttrLines(m);
    assert lines + attrs[..0] == lines;
    for i := 0 to |m|
      invariant out == Unlines(lines + attrs[..i])
    {
      NextLine(lines, attrs, i);
      var line := KeyLine(m[i].key, Escape(m[i].value.text));
      assert line == attrs[i];
      out := out + line + "\n";
    }
    assert attrs[..|m|] == attrs;
  }

  method RenderHeader(c: Codecs, d: Doc) returns (out: string)
    ensures out == Unlines(HeaderLines(c, d))
  {
    out := RenderFirst(c, d);
    ghost var done := FirstLines(c, d);
    assert done + [] == done;
    if d.tags != [] {
      out, done := Push(out, done, KeyLine("tags", RenderTags(d.tags)));
    }
    assert done == FirstLines(c, d) + TagLines(d.tags);
    out := RenderAttrs(out, done, d.attrs);
    done := done + AttrLines(d.attrs);
    assert done + [] == done;
    if d.source.Some? {
      out, done := Push(out, done, KeyLine("source", Escape(d.source.value)));
    }
    out, done := Push(out, done, KeyLine("created_at", c.time.encode(d.created)));
    out, done := Push(out, done, KeyLine("updated_at", c.time.encode(d.updated)));
    assert done == HeaderLines(c, d);
  }

  method Push(out: string, ghost done: seq<string>, line: string) returns (out': string, ghost done': seq<string>)
    requires out == Unlines(done)
    ensures out' == out + line + "\n" && done' == done + [line] && out' == Unlines(done')
  {
    UnlinesPush(done, line);
    out', done' := out + line + "\n", done + [line];
  }

  lemma {:induction false} NextBlock(header: seq<string>, blocks: seq<Block>, i: nat)
    requires i < |blocks|
    ensures Unlines(header + AllBlockLines(blocks[..i + 1])) ==
            Unlines(header + AllBlockLines(blocks[..i])) + Unlines(BlockLines(blocks[i]))
  {
    assert blocks[..i + 1] == blocks[..i] + [blocks[i]];
    AllBlockLinesPush(blocks[..i], blocks[i]);
    UnlinesAppend(header + AllBlockLines(blocks[..i]), BlockLines(blocks[i]));
    LinesRegroup(header, AllBlockLines(blocks[..i]), BlockLines(blocks[i]));
  }

  lemma {:induction false} LinesRegroup(a: seq<string>, b: seq<string>, c: seq<string>)
    ensures a + (b + c) == a + b + c
  {
  }

  method RenderDocument(c: Codecs, d: Doc) returns (out: string)
    ensures out == Render(c, d)
  {
    out := RenderHeader(c, d);
    assert HeaderLines(c, d) + [] == HeaderLines(c, d);
    for i := 0 to |d.blocks|
      invariant out == Unlines(HeaderLines(c, d) + AllBlockLines(d.blocks[..i]))
    {
      var block := RenderBlock(d.blocks[i]);
      NextBlock(HeaderLines(c, d), d.blocks, i);
      out := out + block;
    }
    assert d.blocks[..|d.blocks|] == d.blocks;
  }

  // ---- Parsing ----

  lemma {:induction false} HeaderSkips<S>(step: HeaderReader<S>, h: S, lines: seq<string>, line: nat)
    requires lines != [] && lines[0] == ""
    ensures Header(step, h, lines, line) == Header(step, h, lines[1..], line + 1)
  {
  }

  lemma {:induction false} HeaderTakes<S>(step: HeaderReader<S>, h: S, lines: seq<string>, line: nat)
    requires lines != [] && Starts(lines[0], '#')
    ensures Header(step, h, lines, line) ==
            match step(h, lines[0][1..], line)
            case Err(e) => Err(e)
            case Ok(h') => Header(step, h', lines[1..], line + 1)
  {
  }

  /** The header phase; `rest` is the line iterator. */
  method ReadHeader(c: Codecs, lines: seq<string>) returns (r: Result<HeaderEnd<Head>, ParseError>)
    ensures r == Header(ReadsHeader(c), NewHead(), lines, 1)
  {
    var h, rest := NewHead(), lines;
    var line: nat := 1;
    ghost var step := ReadsHeader(c);
    while rest != [] && !Starts(rest[0], '@')
      invariant Header(step, NewHead(), lines, 1) == Header(step, h, rest, line)
      decreases |rest|
    {
      if rest[0] == "" {
        HeaderSkips(step, h, rest, line);
      } else if !Starts(rest[0], '#') {
        return Err(Syntax(line));
      } else {
        HeaderTakes(step, h, rest, line);
        var next := ReadHeaderLine(c, h, rest[0][1..], line);
        if next.Err? {
          return Err(next.error);
        }
        h := next.value;
      }
      rest, line := rest[1..], line + 1;
    }
    return Ok(HeaderEnd(h, rest, line));
  }

  method ReadHeaderLine(c: Codecs, h: Head, rest: string, line: nat) returns (r: Result<Head, ParseError>)
    ensures r == ReadsHeader(c)(h, rest, line)
  {
    var kv := SplitKeyValue(rest);
    if kv.None? {
      return Err(Syntax(line));
    }
    r := AssignField(c, h, kv.value.key, kv.value.value, line);
  }

  method AssignField(c: Codecs, h: Head, key: string, value: string, line: nat) returns (r: Result<Head, ParseError>)
    ensures r == Assign(c, h, key, value, line)
  {
    match FieldOf(key)
    case Version =>
      var v := ParseU32(value);
      r := if v.Some? then Ok(h.(version := v)) else Err(InvalidValue(line, "format_version"));
    case Id =>
      var v := c.id.decode(value);
      r := if v.Some? then Ok(h.(id := v)) else Err(InvalidValue(line, "id"));
    case Title =>
      var v := UnescapeValue(value);
      r := if v.Some? then Ok(h.(title := v)) else Err(InvalidValue(line, "title"));
    case Created =>
      var v := c.time.decode(value);
      r := if v.Some? then Ok(h.(created := v)) else Err(InvalidValue(line, "created_at"));
    case Updated =>
      var v := c.time.decode(value);
      r := if v.Some? then Ok(h.(updated := v)) else Err(InvalidValue(line, "updated_at"));
    case Tags =>
      var v := ParseTagList(value);
      r := if v.Some? then Ok(h.(tags := v.value)) else Err(InvalidValue(line, "tags"));
    case SourceField =>
      var v := UnescapeValue(value);
      r := if v.Some? then Ok(h.(source := v)) else Err(InvalidValue(line, "source"));
    case Custom =>
      var v := UnescapeValue(value);
      r := if v.Some? then Ok(h.(attrs := Insert(h.attrs, key, Str(v.value)))) else Err(InvalidValue(line, "attrs"));
  }

  method ReadBlockHead(rest: string, line: nat) returns (r: Result<BlockHead, ParseError>)
    ensures r == ParseBlockHead(rest, line)
  {
    var parts := SplitBlockHeader(rest);
    var kind := TypeOf(parts.key);
    if kind.None? {
      return Err(UnknownBlockType(line, parts.key));
    }
    var attrs := ParseBlockAttrs(parts.value, line);
    if attrs.Err? {
      return Err(attrs.error);
    }
    if kind.value == Connection {
      if !HasKey(attrs.value, "target") {
        return Err(MissingConnectionAttr(line, "target"));
      }
      if !HasKey(attrs.value, "relation") {
        return Err(MissingConnectionAttr(line, "relation"));
      }
    }
    return Ok(BlockHead(kind.value, attrs.value));
  }

  /** Moves the lines up to the next block line off the iterator. */
  method TakeBody(lines: seq<string>) returns (raws: seq<string>, rest: seq<string>)
    ensures lines == raws + rest && |raws| == BodySize(lines)
  {
    raws, rest := [], lines;
    while rest != [] && !Starts(rest[0], '@')
      invariant lines == raws + rest && BodySize(lines) == |raws| + BodySize(rest)
      decreases |rest|
    {
      raws, rest := raws + [rest[0]], rest[1..];
    }
  }

  /** Unescapes the raw lines, drops blank ones at the end and joins the rest. */
  method FinishBody(raws: seq<string>) returns (text: string)
    ensures text == Body(raws)
  {
    var body: seq<string> := [];
    for i := 0 to |raws|
      invariant body == BodyLines(raws)[..i]
    {
      body := body + [BodyLine(raws[i])];
    }
    assert BodyLines(raws)[..|raws|] == BodyLines(raws);
    while body != [] && body[|body| - 1] == ""
      invariant StripBlank(body) == StripBlank(BodyLines(raws))
      decreases |body|
    {
      body := body[..|body| - 1];
    }
    text := "";
    for i := 0 to |body|
      invariant text == Unlines(body[..i])
    {
      RenderNext(body, i);
      text := text + body[i] + "\n";
    }
    assert body[..|body|] == body;
  }

  method FinishBlock(head: BlockHead, raws: seq<string>) returns (b: Block)
    ensures b == Finished(RawBlock(head, raws))
  {
    var text := FinishBody(raws);
    b := Block(head.kind, text, head.attrs);
  }

  lemma {:induction false} BlocksSkip<H>(headOf: BlockReader<H>, lines: seq<string>, line: nat, done: seq<RawBlock<H>>)
    requires lines != [] && lines[0] == ""
    ensures Blocks(headOf, lines, line, done) == Blocks(headOf, lines[1..], line + 1, done)
  {
  }

  lemma {:induction false} BlocksTake<H>(headOf: BlockReader<H>, lines: seq<string>, rest: seq<string>, line: nat, done: seq<RawBlock<H>>, raw: RawBlock<H>)
    requires lines != [] && Starts(lines[0], '@') && headOf(lines[0][1..], line) == Ok(raw.head)
    requires lines[1..] == raw.raws + rest && |raw.raws| == BodySize(lines[1..])
    ensures Blocks(headOf, lines, line, done) == Blocks(headOf, rest, line + 1 + |raw.raws|, done + [raw])
  {
    assert lines == [lines[0]] + (raw.raws + rest);
    BlocksCons(headOf, lines[0], raw.raws, rest, line, done, raw.head);
  }

  lemma {:induction false} BlocksStop<H>(headOf: BlockReader<H>, lines: seq<string>, line: nat, done: seq<RawBlock<H>>)
    requires lines != [] && lines[0] != ""
    requires !Starts(lines[0], '@') || headOf(lines[0][1..], line).Err?
    ensures Blocks(headOf, lines, line, done) == Err(if Starts(lines[0], '@') then headOf(lines[0][1..], line).error else Syntax(line))
  {
  }

  lemma {:induction false} FinishPush(raws: seq<RawBlock<BlockHead>>, raw: RawBlock<BlockHead>)
    ensures FinishAll(raws + [raw]) == FinishAll(raws) + [Finished(raw)]
  {
    assert (raws + [raw])[..|raws|] == raws;
  }

  /** Names the block line a fact about a reader is wanted for. */
  predicate Asked(rest: string, line: nat) { true }

  /** The reader is the parser of block lines, wherever that is asked. */
  ghost predicate Agrees(headOf: BlockReader<BlockHead>) {
    forall rest: string, line: nat {:trigger Asked(rest, line)} :: Asked(rest, line) ==> headOf(rest, line) == ParseBlockHead(rest, line)
  }

  lemma {:induction false} ReadsBlockAgrees()
    ensures Agrees(ReadsBlock())
  {
  }

  /** Reads the block the iterator stands at; `raw` is what the format's functions make of it. */
  method ReadBlock(ghost headOf: BlockReader<BlockHead>, lines: seq<string>, line: nat)
      returns (r: Result<Block, ParseError>, ghost raw: RawBlock<BlockHead>, rest: seq<string>)
    requires Agrees(headOf) && lines != [] && lines[0] != ""
    ensures r.Err? ==> headOf(lines[0][1..], line) == Err(r.error)
    ensures r.Ok? ==> headOf(lines[0][1..], line) == Ok(raw.head) && r.value == Finished(raw)
    ensures lines[1..] == raw.raws + rest && |raw.raws| == BodySize(lines[1..])
  {
    assert Asked(lines[0][1..], line);
    var body;
    body, rest := TakeBody(lines[1..]);
    raw := RawBlock(BlockHead(Claim, []), body);
    var head := ReadBlockHead(lines[0][1..], line);
    if head.Err? {
      r := Err(head.error);
    } else {
      raw := RawBlock(head.value, body);
      var block := FinishBlock(head.value, body);
      r := Ok(block);
    }
  }

  type Outcome = Result<seq<RawBlock<BlockHead>>, ParseError>

  /** With the iterator at `rest` and `raws` read, the block phase will come to `goal`. */
  ghost predicate Heading<H(!new)>(goal: Result<seq<RawBlock<H>>, ParseError>, headOf: BlockReader<H>, rest: seq<string>, line: nat, raws: seq<RawBlock<H>>) {
    goal == Blocks(headOf, rest, line, raws)
  }

  lemma {:induction false} PassesBlock<H(!new)>(goal: Result<seq<RawBlock<H>>, ParseError>, headOf: BlockReader<H>, lines: seq<string>, line: nat,
                                                raws: seq<RawBlock<H>>, raw: RawBlock<H>, rest: seq<string>)
    requires Heading(goal, headOf, lines, line, raws) && lines != [] && Starts(lines[0], '@')
    requires headOf(lines[0][1..], line) == Ok(raw.head) && lines[1..] == raw.raws + rest && |raw.raws| == BodySize(lines[1..])
    ensures Heading(goal, headOf, rest, line + (|lines| - |rest|), raws + [raw])
  {
    LinesUsed(lines, raw.raws, rest);
    BlocksTake(headOf, lines, rest, line, raws, raw);
  }

  lemma {:induction false} LinesUsed(lines: seq<string>, raws: seq<string>, rest: seq<string>)
    requires lines != [] && lines[1..] == raws + rest
    ensures |lines| - |rest| == 1 + |raws|
  {
    assert |lines[1..]| == |lines| - 1;
  }

  lemma {:induction false} PassesBlank<H(!new)>(goal: Result<seq<RawBlock<H>>, ParseError>, headOf: BlockReader<H>, lines: seq<string>, line: nat,
                                                raws: seq<RawBlock<H>>)
    requires Heading(goal, headOf, lines, line, raws) && lines != [] && lines[0] == ""
    ensures Heading(goal, headOf, lines[1..], line + 1, raws)
  {
    BlocksSkip(headOf, lines, line, raws);
  }

  lemma {:induction false} Stops<H(!new)>(goal: Result<seq<RawBlock<H>>, ParseError>, headOf: BlockReader<H>, lines: seq<string>, line: nat,
                                          raws: seq<RawBlock<H>>, e: ParseError)
    requires Heading(goal, headOf, lines, line, raws) && lines != [] && lines[0] != ""
    requires if Starts(lines[0], '@') then headOf(lines[0][1..], line) == Err(e) else e == Syntax(line)
    ensures goal == Err(e)
  {
    BlocksStop(headOf, lines, line, raws);
  }

  lemma {:induction false} Ends<H(!new)>(goal: Result<seq<RawBlock<H>>, ParseError>, headOf: BlockReader<H>, line: nat, raws: seq<RawBlock<H>>)
    requires Heading(goal, headOf, [], line, raws)
    ensures goal == Ok(raws)
  {
  }

  /** The iterator as it is at the start. */
  lemma {:induction false} Starting<H(!new)>(headOf: BlockReader<H>, lines: seq<string>, first: nat) returns (goal: Result<seq<RawBlock<H>>, ParseError>)
    ensures goal == Blocks(headOf, lines, first, []) && Heading(goal, headOf, lines, first, [])
  {
    goal := Blocks(headOf, lines, first, []);
  }

  /** A line that is not blank: a block, with the iterator moved behind it, or an error. */
  method ReadOne(ghost goal: Outcome, ghost headOf: BlockReader<BlockHead>, lines: seq<string>, line: nat, ghost raws: seq<RawBlock<BlockHead>>)
      returns (r: Result<Block, ParseError>, rest: seq<string>, ghost raw: RawBlock<BlockHead>)
    requires Agrees(headOf) && Heading(goal, headOf, lines, line, raws) && lines != [] && lines[0] != ""
    ensures |rest| < |lines|
    ensures r.Err? ==> goal == Err(r.error)
    ensures r.Ok? ==> Heading(goal, headOf, rest, line + (|lines| - |rest|), raws + [raw]) && r.value == Finished(raw)
  {
    if !Starts(lines[0], '@') {
      Stops(goal, headOf, lines, line, raws, Syntax(line));
      raw := RawBlock(BlockHead(Claim, []), []);
      return Err(Syntax(line)), lines[1..], raw;
    }
    r, raw, rest := ReadBlock(headOf, lines, line);
    if r.Err? {
      Stops(goal, headOf, lines, line, raws, r.error);
    } else {
      PassesBlock(goal, headOf, lines, line, raws, raw, rest);
    }
  }

  ghost predicate Made(blocks: seq<Block>, raws: seq<RawBlock<BlockHead>>) {
    blocks == FinishAll(raws)
  }

  lemma {:induction false} MadeNext(blocks: seq<Block>, raws: seq<RawBlock<BlockHead>>, b: Block, raw: RawBlock<BlockHead>)
    requires Made(blocks, raws) && b == Finished(raw)
    ensures Made(blocks + [b], raws + [raw])
  {
    FinishPush(raws, raw);
  }

  function FinishOutcome(goal: Outcome): Result<seq<Block>, ParseError> {
    match goal
    case Err(e) => Err(e)
    case Ok(raws) => Ok(FinishAll(raws))
  }

  /** Reads on from `lines` until the iterator is empty or a line is refused. */
  method ReadOn(ghost goal: Outcome, ghost headOf: BlockReader<BlockHead>, lines: seq<string>, first: nat) returns (r: Result<seq<Block>, ParseError>)
    requires Agrees(headOf) && Heading(goal, headOf, lines, first, [])
    ensures r == FinishOutcome(goal)
  {
    var blocks: seq<Block> := [];
    ghost var raws: seq<RawBlock<BlockHead>> := [];
    var rest := lines;
    var line: nat := first;
    while rest != []
      invariant Heading(goal, headOf, rest, line, raws)
      invariant Made(blocks, raws)
      decreases |rest|
    {
      if rest[0] == "" {
        PassesBlank(goal, headOf, rest, line, raws);
        rest, line := rest[1..], line + 1;
      } else {
        var block, after;
        ghost var raw;
        block, after, raw := ReadOne(goal, headOf, rest, line, raws);
        if block.Err? {
          return Err(block.error);
        }
        MadeNext(blocks, raws, block.value, raw);
        blocks, raws := blocks + [block.value], raws + [raw];
        line := line + (|rest| - |after|);
        rest := after;
      }
    }
    Ends(goal, headOf, line, raws);
    r := Ok(blocks);
  }

  /** The block phase over lines numbered from `first`; `rest` is the line iterator. */
  method ReadBlocks(lines: seq<string>, first: nat) returns (r: Result<seq<Block>, ParseError>)
    ensures r == FinishOutcome(Blocks(ReadsBlock(), lines, first, []))
  {
    ghost var goal := Starting(ReadsBlock(), lines, first);
    ReadsBlockAgrees();
    r := ReadOn(goal, ReadsBlock(), lines, first);
  }

  method ParseDocument(c: Codecs, input: string) returns (r: Result<Doc, ParseError>)
    ensures r == Parse(c, input)
  {
    if input == "" {
      return Err(EmptyInput);
    }
    var header := ReadHeader(c, Lines(input));
    if header.Err? {
      return Err(header.error);
    }
    var h := header.value.head;
    var lacking := Lacks(h);
    if lacking.Some? {
      return Err(lacking.value);
    }
    var blocks := ReadBlocks(header.value.rest, header.value.line);
    if blocks.Err? {
      return Err(blocks.error);
    }
    return Ok(Assemble(h, blocks.value));
  }
}
