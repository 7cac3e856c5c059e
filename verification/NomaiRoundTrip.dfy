/** Rendering a document and parsing the text: what comes back, and exactly when it is the document. */
module NomaiRoundTrip {
  import opened Prelude
  import opened NomaiText
  import opened NomaiFields
  import opened NomaiTags
  import opened NomaiFormat
  import opened NomaiAttrs
  import opened NomaiShape

  // ---- One header line ----

  /** Keys whose values are trimmed before anything else. */
  predicate Trims(key: string) {
    match FieldOf(key)
    case Title => true
    case Tags => true
    case SourceField => true
    case Custom => true
    case _ => false
  }

  lemma {:induction false} DropBlanksTrim(s: string)
    ensures Trim(DropBlanks(s)) == Trim(s)
  {
    if s != "" && s[0] == ' ' {
      DropBlanksTrim(s[1..]);
    }
  }

  lemma {:induction false} FirstSpaceAt(key: string, value: string)
    requires NoSpace(key)
    ensures FirstSpace(key + " " + value) == |key|
  {
    var s := key + " " + value;
    assert s[|key|] == ' ';
    assert forall j :: 0 <= j < |key| ==> s[j] == key[j];
  }

  lemma {:induction false} KeyValueReadBack(key: string, value: string)
    requires NoSpace(key)
    ensures SplitKeyValue(key + " " + value) == Some(KeyValue(key, DropBlanks(value)))
  {
    FirstSpaceAt(key, value);
    var s := key + " " + value;
    assert s[..|key|] == key && s[|key| + 1..] == value;
  }

  lemma {:induction false} AssignTrims(c: Codecs, h: Head, key: string, a: string, b: string, line: nat)
    requires Trims(key) && Trim(a) == Trim(b)
    ensures Assign(c, h, key, a, line) == Assign(c, h, key, b, line)
  {
    assert Unescape(a) == Unescape(b);
    assert ParseTags(a) == ParseTags(b);
  }

  lemma {:induction false} StripPrefixed(prefix: string, s: string)
    requires prefix != "" && prefix[|prefix| - 1] != '\r'
    ensures StripCr(prefix + s) == prefix + StripCr(s)
  {
    if s == "" {
      assert prefix + s == prefix;
    } else {
      assert (prefix + s)[..|prefix + s| - 1] == prefix + s[..|s| - 1];
    }
  }

  lemma {:induction false} StripKeyLine(key: string, value: string)
    ensures StripCr(KeyLine(key, value)) == KeyLine(key, StripCr(value))
  {
    var prefix := "#" + key + " ";
    assert KeyLine(key, value) == prefix + value && KeyLine(key, StripCr(value)) == prefix + StripCr(value);
    StripPrefixed(prefix, value);
  }

  lemma {:induction false} KeyLineIs(key: string, value: string)
    ensures Starts(KeyLine(key, value), '#') && KeyLine(key, value)[1..] == key + " " + value
  {
  }

  /** A written value line is read as its value, whatever the line break took. */
  lemma {:induction false} ValueLineReads(c: Codecs, h: Head, key: string, value: string, line: nat)
    requires NoSpace(key) && Trims(key)
    ensures Starts(StripCr(KeyLine(key, value)), '#')
    ensures ReadsHeader(c)(h, StripCr(KeyLine(key, value))[1..], line) == Assign(c, h, key, value, line)
  {
    StripKeyLine(key, value);
    KeyLineIs(key, StripCr(value));
    KeyValueReadBack(key, StripCr(value));
    DropBlanksTrim(StripCr(value));
    TrimStripCr(value);
    AssignTrims(c, h, key, DropBlanks(StripCr(value)), value, line);
  }

  lemma {:induction false} PlainLineReads(c: Codecs, h: Head, key: string, value: string, line: nat)
    requires NoSpace(key) && IsLine(value) && !Starts(value, ' ')
    ensures Starts(StripCr(KeyLine(key, value)), '#')
    ensures ReadsHeader(c)(h, StripCr(KeyLine(key, value))[1..], line) == Assign(c, h, key, value, line)
  {
    StripKeyLine(key, value);
    KeyLineIs(key, value);
    KeyValueReadBack(key, value);
  }

  // ---- Feeding header lines ----

  predicate AllHash(lines: seq<string>) {
    forall i :: 0 <= i < |lines| ==> Starts(lines[i], '#')
  }

  function Feed<S>(step: HeaderReader<S>, h: S, lines: seq<string>, line: nat): Result<S, ParseError>
    requires AllHash(lines)
    decreases |lines|
  {
    if lines == [] then Ok(h)
    else
      match step(h, lines[0][1..], line)
      case Err(e) => Err(e)
      case Ok(h') => Feed(step, h', lines[1..], line + 1)
  }

  lemma {:induction false} HeadAndTail<T>(a: seq<T>, b: seq<T>)
    requires a != []
    ensures (a + b)[0] == a[0] && (a + b)[1..] == a[1..] + b
  {
  }

  lemma {:induction false} AllHashAppend(a: seq<string>, b: seq<string>)
    requires AllHash(a) && AllHash(b)
    ensures AllHash(a + b)
  {
  }

  lemma {:induction false} FeedAppend<S>(step: HeaderReader<S>, h: S, a: seq<string>, b: seq<string>, line: nat)
    requires AllHash(a) && AllHash(b)
    ensures AllHash(a + b)
    ensures Feed(step, h, a + b, line) ==
      match Feed(step, h, a, line)
      case Err(e) => Err(e)
      case Ok(mid) => Feed(step, mid, b, line + |a|)
    decreases |a|
  {
    AllHashAppend(a, b);
    if a == [] {
      assert a + b == b;
    } else {
      HeadAndTail(a, b);
      if step(h, a[0][1..], line).Ok? {
        FeedAppend(step, step(h, a[0][1..], line).value, a[1..], b, line + 1);
      }
    }
  }

  lemma {:induction false} FeedJoin<S>(step: HeaderReader<S>, h: S, a: seq<string>, b: seq<string>, line: nat, mid: S, end: S)
    requires AllHash(a) && AllHash(b) && Feed(step, h, a, line) == Ok(mid) && Feed(step, mid, b, line + |a|) == Ok(end)
    ensures AllHash(a + b) && Feed(step, h, a + b, line) == Ok(end)
  {
    FeedAppend(step, h, a, b, line);
  }

  lemma {:induction false} HeaderFeeds<S>(step: HeaderReader<S>, h: S, lines: seq<string>, rest: seq<string>, line: nat)
    requires AllHash(lines)
    ensures Header(step, h, lines + rest, line) ==
      match Feed(step, h, lines, line)
      case Err(e) => Err(e)
      case Ok(end) => Header(step, end, rest, line + |lines|)
    decreases |lines|
  {
    if lines == [] {
      assert lines + rest == rest;
    } else {
      HeadAndTail(lines, rest);
      if step(h, lines[0][1..], line).Ok? {
        HeaderFeeds(step, step(h, lines[0][1..], line).value, lines[1..], rest, line + 1);
      }
    }
  }

  lemma {:induction false} FeedSingle<S>(step: HeaderReader<S>, h: S, x: string, line: nat)
    requires Starts(x, '#')
    ensures Feed(step, h, [x], line) == step(h, x[1..], line)
  {
    assert [x][1..] == [];
  }

  /** Feeding line by line, the heads in between given. */
  lemma {:induction false} FeedMany<S>(step: HeaderReader<S>, heads: seq<S>, lines: seq<string>, line: nat)
    requires |heads| == |lines| + 1 && AllHash(lines)
    requires forall i :: 0 <= i < |lines| ==> step(heads[i], lines[i][1..], line + i) == Ok(heads[i + 1])
    ensures Feed(step, heads[0], lines, line) == Ok(heads[|lines|])
    decreases |lines|
  {
    if lines != [] {
      forall i | 0 <= i < |lines| - 1
        ensures step(heads[1..][i], lines[1..][i][1..], line + 1 + i) == Ok(heads[1..][i + 1])
      {
        assert step(heads[i + 1], lines[i + 1][1..], line + (i + 1)) == Ok(heads[i + 2]);
      }
      assert step(heads[0], lines[0][1..], line + 0) == Ok(heads[1]);
      FeedMany(step, heads[1..], lines[1..], line + 1);
    }
  }

  lemma {:induction false} FeedThree<S>(step: HeaderReader<S>, x: string, y: string, z: string, line: nat, h: S, h1: S, h2: S, h3: S)
    requires Starts(x, '#') && Starts(y, '#') && Starts(z, '#')
    requires step(h, x[1..], line) == Ok(h1) && step(h1, y[1..], line + 1) == Ok(h2) && step(h2, z[1..], line + 2) == Ok(h3)
    ensures AllHash([x, y, z]) && Feed(step, h, [x, y, z], line) == Ok(h3)
  {
    FeedMany(step, [h, h1, h2, h3], [x, y, z], line);
  }

  lemma {:induction false} FeedTwo<S>(step: HeaderReader<S>, x: string, y: string, line: nat, h: S, h1: S, h2: S)
    requires Starts(x, '#') && Starts(y, '#')
    requires step(h, x[1..], line) == Ok(h1) && step(h1, y[1..], line + 1) == Ok(h2)
    ensures AllHash([x, y]) && Feed(step, h, [x, y], line) == Ok(h2)
  {
    FeedMany(step, [h, h1, h2], [x, y], line);
  }

  // ---- What the header reads as ----

  function RereadEntries(m: seq<Entry>): seq<Entry> {
    seq(|m|, i requires 0 <= i < |m| => Entry(m[i].key, Str(Reread(m[i].value.text))))
  }

  function RereadSource(source: Option<string>): Option<string> {
    if source.Some? then Some(Reread(source.value)) else None
  }

  /** The document with its header values as they read after being written, under tags read as `tags`. */
  function RereadDoc(d: Doc, tags: seq<string>): Doc {
    d.(title := Reread(d.title), tags := tags, attrs := RereadEntries(d.attrs), source := RereadSource(d.source))
  }

  function HeadOf(d: Doc): Head {
    Head(Some(d.version), Some(d.id), Some(d.title), d.tags, d.attrs, d.source, Some(d.created), Some(d.updated))
  }

  /** The fixed keys are told apart, and hold no whitespace. */
  lemma {:induction false} FixedKeys()
    ensures FieldOf("format_version") == Version && FieldOf("id") == Id && FieldOf("title") == Title
    ensures FieldOf("created_at") == Created && FieldOf("updated_at") == Updated && FieldOf("tags") == Tags && FieldOf("source") == SourceField
    ensures NoSpace("format_version") && NoSpace("id") && NoSpace("title") && NoSpace("created_at") && NoSpace("updated_at")
    ensures NoSpace("tags") && NoSpace("source")
  {
  }

  lemma {:induction false} OneReads()
    ensures ParseU32(Decimal(1)) == Some(1) && Decimal(1) == "1"
  {
    assert Decimal(1) == "1";
    assert "1"[..0] == "";
    assert Digits("1") == Some(1);
  }

  lemma {:induction false} VersionReads(c: Codecs, h: Head, line: nat)
    ensures Starts(StripCr(KeyLine("format_version", Decimal(1))), '#')
    ensures ReadsHeader(c)(h, StripCr(KeyLine("format_version", Decimal(1)))[1..], line) == Ok(h.(version := Some(1)))
  {
    FixedKeys();
    OneReads();
    PlainLineReads(c, h, "format_version", Decimal(1), line);
  }

  lemma {:induction false} IdReads(c: Codecs, h: Head, id: nat, line: nat)
    requires Faithful(c.id)
    ensures Starts(StripCr(KeyLine("id", c.id.encode(id))), '#')
    ensures ReadsHeader(c)(h, StripCr(KeyLine("id", c.id.encode(id)))[1..], line) == Ok(h.(id := Some(id)))
  {
    FixedKeys();
    PlainLineReads(c, h, "id", c.id.encode(id), line);
  }

  lemma {:induction false} TitleReads(c: Codecs, h: Head, value: string, title: string, line: nat)
    requires Unescape(value) == Some(title)
    ensures Starts(StripCr(KeyLine("title", value)), '#')
    ensures ReadsHeader(c)(h, StripCr(KeyLine("title", value))[1..], line) == Ok(h.(title := Some(title)))
  {
    FixedKeys();
    ValueLineReads(c, h, "title", value, line);
  }

  lemma {:induction false} StrippedThree(x: string, y: string, z: string)
    ensures Stripped([x, y, z]) == [StripCr(x), StripCr(y), StripCr(z)]
  {
  }

  lemma {:induction false} StrippedTwo(x: string, y: string)
    ensures Stripped([x, y]) == [StripCr(x), StripCr(y)]
  {
  }

  /** The first lines of a header whose title line carries `value`. */
  function TitleLines(c: Codecs, d: Doc, value: string): seq<string> {
    [KeyLine("format_version", Decimal(1)), KeyLine("id", c.id.encode(d.id)), KeyLine("title", value)]
  }

  lemma {:induction false} TitleLinesFeed(c: Codecs, d: Doc, value: string, title: string, h: Head, line: nat)
    requires Faithful(c.id) && Unescape(value) == Some(title)
    ensures AllHash(Stripped(TitleLines(c, d, value)))
    ensures Feed(ReadsHeader(c), h, Stripped(TitleLines(c, d, value)), line) ==
            Ok(h.(version := Some(1), id := Some(d.id), title := Some(title)))
  {
    var h1 := h.(version := Some(1));
    var h2 := h1.(id := Some(d.id));
    var x, y, z := KeyLine("format_version", Decimal(1)), KeyLine("id", c.id.encode(d.id)), KeyLine("title", value);
    VersionReads(c, h, line);
    IdReads(c, h1, d.id, line + 1);
    TitleReads(c, h2, value, title, line + 2);
    StrippedThree(x, y, z);
    FeedThree(ReadsHeader(c), StripCr(x), StripCr(y), StripCr(z), line, h, h1, h2, h2.(title := Some(title)));
  }

  lemma {:induction false} FirstLinesFeed(c: Codecs, d: Doc, h: Head, line: nat)
    requires d.version == 1 && Faithful(c.id)
    ensures AllHash(Stripped(FirstLines(c, d)))
    ensures Feed(ReadsHeader(c), h, Stripped(FirstLines(c, d)), line) ==
            Ok(h.(version := Some(1), id := Some(d.id), title := Some(Reread(d.title))))
  {
    EscapingIsExact(d.title);
    assert FirstLines(c, d) == TitleLines(c, d, Escape(d.title));
    TitleLinesFeed(c, d, Escape(d.title), Reread(d.title), h, line);
  }

  lemma {:induction false} TagLinesFeed(c: Codecs, tags: seq<string>, h: Head, line: nat)
    requires h.tags == []
    ensures AllHash(Stripped(TagLines(tags)))
    ensures Feed(ReadsHeader(c), h, Stripped(TagLines(tags)), line) ==
      match ParseTags(RenderTags(tags))
      case None => Err(InvalidValue(line, "tags"))
      case Some(read) => Ok(h.(tags := read))
  {
    if tags == [] {
      TrimKeeps("");
      assert h.(tags := []) == h;
    } else {
      FixedKeys();
      ValueLineReads(c, h, "tags", RenderTags(tags), line);
      FeedSingle(ReadsHeader(c), h, StripCr(KeyLine("tags", RenderTags(tags))), line);
      assert Stripped(TagLines(tags)) == [StripCr(KeyLine("tags", RenderTags(tags)))];
    }
  }

  lemma {:induction false} RereadSorted(m: seq<Entry>)
    requires SortedKeys(m)
    ensures SortedKeys(RereadEntries(m))
  {
  }

  lemma {:induction false} CustomReads(c: Codecs, h: Head, key: string, text: string, line: nat)
    requires NoSpace(key) && FieldOf(key) == Custom
    ensures Starts(StripCr(KeyLine(key, Escape(text))), '#')
    ensures ReadsHeader(c)(h, StripCr(KeyLine(key, Escape(text)))[1..], line) == Ok(h.(attrs := Insert(h.attrs, key, Str(Reread(text)))))
  {
    EscapingIsExact(text);
    ValueLineReads(c, h, key, Escape(text), line);
  }

  /** The attribute lines as they are read. */
  function AttrRaws(m: seq<Entry>): seq<string> {
    if m == [] then []
    else
      var e := m[|m| - 1];
      AttrRaws(m[..|m| - 1]) + [StripCr(KeyLine(e.key, Escape(e.value.text)))]
  }

  lemma {:induction false} AttrRawsAre(m: seq<Entry>)
    ensures Stripped(AttrLines(m)) == AttrRaws(m)
    decreases |m|
  {
    if m != [] {
      var init, e := m[..|m| - 1], m[|m| - 1];
      AttrRawsAre(init);
      assert AttrLines(m) == AttrLines(init) + [KeyLine(e.key, Escape(e.value.text))];
      StrippedAppend(AttrLines(init), [KeyLine(e.key, Escape(e.value.text))]);
      assert Stripped([KeyLine(e.key, Escape(e.value.text))]) == [StripCr(KeyLine(e.key, Escape(e.value.text)))];
    }
  }

  lemma {:induction false} RereadPush(init: seq<Entry>, last: Entry)
    ensures RereadEntries(init + [last]) == RereadEntries(init) + [Entry(last.key, Str(Reread(last.value.text)))]
  {
  }

  function WithAttrs(h: Head, m: seq<Entry>): Head {
    h.(attrs := m)
  }

  lemma {:induction false} AttrLineFeeds(c: Codecs, h: Head, init: seq<Entry>, last: Entry, line: nat)
    requires HeaderEntries(init + [last])
    ensures Starts(StripCr(KeyLine(last.key, Escape(last.value.text))), '#')
    ensures ReadsHeader(c)(WithAttrs(h, RereadEntries(init)), StripCr(KeyLine(last.key, Escape(last.value.text)))[1..], line) ==
            Ok(WithAttrs(h, RereadEntries(init + [last])))
  {
    assert (init + [last])[|init|] == last;
    CustomReads(c, WithAttrs(h, RereadEntries(init)), last.key, last.value.text, line);
    RereadSorted(init + [last]);
    RereadPush(init, last);
    InsertLast(RereadEntries(init), Entry(last.key, Str(Reread(last.value.text))));
  }

  lemma {:induction false} FeedPush<S>(step: HeaderReader<S>, h: S, lines: seq<string>, x: string, line: nat, mid: S, end: S)
    requires AllHash(lines) && Starts(x, '#')
    requires Feed(step, h, lines, line) == Ok(mid) && step(mid, x[1..], line + |lines|) == Ok(end)
    ensures AllHash(lines + [x]) && Feed(step, h, lines + [x], line) == Ok(end)
  {
    FeedSingle(step, mid, x, line + |lines|);
    FeedJoin(step, h, lines, [x], line, mid, end);
  }

  lemma {:induction false} AttrRawsFeed(c: Codecs, h: Head, m: seq<Entry>, line: nat)
    requires HeaderEntries(m)
    ensures AllHash(AttrRaws(m)) && Feed(ReadsHeader(c), WithAttrs(h, []), AttrRaws(m), line) == Ok(WithAttrs(h, RereadEntries(m)))
    decreases |m|
  {
    if m == [] {
      assert RereadEntries(m) == [];
    } else {
      var init, last := m[..|m| - 1], m[|m| - 1];
      assert m == init + [last];
      AttrRawsFeed(c, h, init, line);
      AttrLineFeeds(c, h, init, last, line + |AttrRaws(init)|);
      FeedPush(ReadsHeader(c), WithAttrs(h, []), AttrRaws(init), StripCr(KeyLine(last.key, Escape(last.value.text))), line,
               WithAttrs(h, RereadEntries(init)), WithAttrs(h, RereadEntries(m)));
    }
  }

  lemma {:induction false} AttrLinesFeed(c: Codecs, h: Head, m: seq<Entry>, line: nat)
    requires h.attrs == [] && HeaderEntries(m)
    ensures AllHash(Stripped(AttrLines(m)))
    ensures Feed(ReadsHeader(c), h, Stripped(AttrLines(m)), line) == Ok(WithAttrs(h, RereadEntries(m)))
  {
    AttrRawsAre(m);
    AttrRawsFeed(c, h, m, line);
    assert WithAttrs(h, []) == h;
  }

  lemma {:induction false} SourceLinesFeed(c: Codecs, source: Option<string>, h: Head, line: nat)
    requires h.source.None?
    ensures AllHash(Stripped(SourceLines(source)))
    ensures Feed(ReadsHeader(c), h, Stripped(SourceLines(source)), line) == Ok(h.(source := RereadSource(source)))
  {
    if source.None? {
      assert h.(source := None) == h;
    } else {
      FixedKeys();
      EscapingIsExact(source.value);
      ValueLineReads(c, h, "source", Escape(source.value), line);
      FeedSingle(ReadsHeader(c), h, StripCr(KeyLine("source", Escape(source.value))), line);
      assert Stripped(SourceLines(source)) == [StripCr(KeyLine("source", Escape(source.value)))];
    }
  }

  lemma {:induction false} LastLinesFeed(c: Codecs, d: Doc, h: Head, line: nat)
    requires Faithful(c.time)
    ensures AllHash(Stripped(LastLines(c, d)))
    ensures Feed(ReadsHeader(c), h, Stripped(LastLines(c, d)), line) == Ok(h.(created := Some(d.created), updated := Some(d.updated)))
  {
    var h1 := h.(created := Some(d.created));
    var x, y := KeyLine("created_at", c.time.encode(d.created)), KeyLine("updated_at", c.time.encode(d.updated));
    FixedKeys();
    PlainLineReads(c, h, "created_at", c.time.encode(d.created), line);
    PlainLineReads(c, h1, "updated_at", c.time.encode(d.updated), line + 1);
    StrippedTwo(x, y);
    FeedTwo(ReadsHeader(c), StripCr(x), StripCr(y), line, h, h1, h1.(updated := Some(d.updated)));
  }

  /** The head after the fixed first lines and the tags, and after each further group of lines. */
  function Tagged(d: Doc, tags: seq<string>): Head {
    Head(Some(d.version), Some(d.id), Some(Reread(d.title)), tags, [], None, None, None)
  }

  function Attributed(d: Doc, tags: seq<string>): Head {
    Head(Some(d.version), Some(d.id), Some(Reread(d.title)), tags, RereadEntries(d.attrs), None, None, None)
  }

  function Sourced(d: Doc, tags: seq<string>): Head {
    Head(Some(d.version), Some(d.id), Some(Reread(d.title)), tags, RereadEntries(d.attrs), RereadSource(d.source), None, None)
  }

  lemma {:induction false} ToTags(c: Codecs, d: Doc)
    requires d.version == 1 && Faithful(c.id)
    ensures var lines := Stripped(FirstLines(c, d)) + Stripped(TagLines(d.tags));
      && AllHash(lines)
      && Feed(ReadsHeader(c), NewHead(), lines, 1) ==
         match ParseTags(RenderTags(d.tags))
         case None => Err(InvalidValue(4, "tags"))
         case Some(tags) => Ok(Tagged(d, tags))
  {
    var first := Stripped(FirstLines(c, d));
    FirstLinesFeed(c, d, NewHead(), 1);
    TagLinesFeed(c, d.tags, Tagged(d, []), 1 + |first|);
    FeedAppend(ReadsHeader(c), NewHead(), first, Stripped(TagLines(d.tags)), 1);
  }

  lemma {:induction false} ToAttributed(c: Codecs, d: Doc, tags: seq<string>, before: seq<string>)
    requires HeaderEntries(d.attrs)
    requires AllHash(before) && Feed(ReadsHeader(c), NewHead(), before, 1) == Ok(Tagged(d, tags))
    ensures AllHash(before + Stripped(AttrLines(d.attrs)))
    ensures Feed(ReadsHeader(c), NewHead(), before + Stripped(AttrLines(d.attrs)), 1) == Ok(Attributed(d, tags))
  {
    AttrLinesFeed(c, Tagged(d, tags), d.attrs, 1 + |before|);
    FeedJoin(ReadsHeader(c), NewHead(), before, Stripped(AttrLines(d.attrs)), 1, Tagged(d, tags), Attributed(d, tags));
  }

  lemma {:induction false} ToSourced(c: Codecs, d: Doc, tags: seq<string>, before: seq<string>)
    requires AllHash(before) && Feed(ReadsHeader(c), NewHead(), before, 1) == Ok(Attributed(d, tags))
    ensures AllHash(before + Stripped(SourceLines(d.source)))
    ensures Feed(ReadsHeader(c), NewHead(), before + Stripped(SourceLines(d.source)), 1) == Ok(Sourced(d, tags))
  {
    SourceLinesFeed(c, d.source, Attributed(d, tags), 1 + |before|);
    FeedJoin(ReadsHeader(c), NewHead(), before, Stripped(SourceLines(d.source)), 1, Attributed(d, tags), Sourced(d, tags));
  }

  lemma {:induction false} ToTimed(c: Codecs, d: Doc, tags: seq<string>, before: seq<string>)
    requires Faithful(c.time)
    requires AllHash(before) && Feed(ReadsHeader(c), NewHead(), before, 1) == Ok(Sourced(d, tags))
    ensures AllHash(before + Stripped(LastLines(c, d)))
    ensures Feed(ReadsHeader(c), NewHead(), before + Stripped(LastLines(c, d)), 1) == Ok(HeadOf(RereadDoc(d, tags)))
  {
    LastLinesFeed(c, d, Sourced(d, tags), 1 + |before|);
    FeedJoin(ReadsHeader(c), NewHead(), before, Stripped(LastLines(c, d)), 1, Sourced(d, tags), HeadOf(RereadDoc(d, tags)));
  }

  lemma {:induction false} HeaderLinesParts(c: Codecs, d: Doc)
    ensures Stripped(HeaderLines(c, d)) == Stripped(FirstLines(c, d)) + Stripped(TagLines(d.tags)) + Stripped(AttrLines(d.attrs)) +
      Stripped(SourceLines(d.source)) + Stripped(LastLines(c, d))
  {
    var f, t, a, s, l := FirstLines(c, d), TagLines(d.tags), AttrLines(d.attrs), SourceLines(d.source), LastLines(c, d);
    StrippedAppend(f, t);
    StrippedAppend(f + t, a);
    StrippedAppend(f + t + a, s);
    StrippedAppend(f + t + a + s, l);
  }

  lemma {:induction false} KeyLinesHash(lines: seq<string>)
    requires forall i :: 0 <= i < |lines| ==> |lines[i]| >= 2 && lines[i][0] == '#'
    ensures AllHash(Stripped(lines))
  {
  }

  lemma {:induction false} RestHash(c: Codecs, d: Doc)
    ensures AllHash(Stripped(AttrLines(d.attrs))) && AllHash(Stripped(SourceLines(d.source))) && AllHash(Stripped(LastLines(c, d)))
  {
    KeyLinesHash(AttrLines(d.attrs));
    KeyLinesHash(SourceLines(d.source));
    KeyLinesHash(LastLines(c, d));
  }

  lemma {:induction false} StaysRefused<S>(step: HeaderReader<S>, h: S, before: seq<string>, more: seq<string>, line: nat, e: ParseError)
    requires AllHash(before) && AllHash(more) && Feed(step, h, before, line) == Err(e)
    ensures AllHash(before + more) && Feed(step, h, before + more, line) == Err(e)
  {
    FeedAppend(step, h, before, more, line);
  }

  lemma {:induction false} HeaderAccepted(c: Codecs, d: Doc, tags: seq<string>, before: seq<string>)
    requires HeaderEntries(d.attrs) && Faithful(c.time)
    requires AllHash(before) && Feed(ReadsHeader(c), NewHead(), before, 1) == Ok(Tagged(d, tags))
    ensures var lines := before + Stripped(AttrLines(d.attrs)) + Stripped(SourceLines(d.source)) + Stripped(LastLines(c, d));
      AllHash(lines) && Feed(ReadsHeader(c), NewHead(), lines, 1) == Ok(HeadOf(RereadDoc(d, tags)))
  {
    ToAttributed(c, d, tags, before);
    ToSourced(c, d, tags, before + Stripped(AttrLines(d.attrs)));
    ToTimed(c, d, tags, before + Stripped(AttrLines(d.attrs)) + Stripped(SourceLines(d.source)));
  }

  lemma {:induction false} HeaderRefuses(c: Codecs, d: Doc, before: seq<string>, e: ParseError)
    requires AllHash(before) && Feed(ReadsHeader(c), NewHead(), before, 1) == Err(e)
    ensures var lines := before + Stripped(AttrLines(d.attrs)) + Stripped(SourceLines(d.source)) + Stripped(LastLines(c, d));
      AllHash(lines) && Feed(ReadsHeader(c), NewHead(), lines, 1) == Err(e)
  {
    RestHash(c, d);
    var a, b, l := Stripped(AttrLines(d.attrs)), Stripped(SourceLines(d.source)), Stripped(LastLines(c, d));
    StaysRefused(ReadsHeader(c), NewHead(), before, a, 1, e);
    StaysRefused(ReadsHeader(c), NewHead(), before + a, b, 1, e);
    StaysRefused(ReadsHeader(c), NewHead(), before + a + b, l, 1, e);
  }

  /** What the written header reads as: an error for tags that do not parse, and otherwise every value reread. */
  lemma {:induction false} HeaderLinesFeed(c: Codecs, d: Doc)
    requires d.version == 1 && HeaderEntries(d.attrs) && Faithful(c.id) && Faithful(c.time)
    ensures AllHash(Stripped(HeaderLines(c, d)))
    ensures Feed(ReadsHeader(c), NewHead(), Stripped(HeaderLines(c, d)), 1) ==
      match ParseTags(RenderTags(d.tags))
      case None => Err(InvalidValue(4, "tags"))
      case Some(tags) => Ok(HeadOf(RereadDoc(d, tags)))
  {
    var first := Stripped(FirstLines(c, d)) + Stripped(TagLines(d.tags));
    HeaderLinesParts(c, d);
    ToTags(c, d);
    match ParseTags(RenderTags(d.tags))
    case None => HeaderRefuses(c, d, first, InvalidValue(4, "tags"));
    case Some(tags) => HeaderAccepted(c, d, tags, first);
  }

  ghost predicate HeaderSurvives(d: Doc) {
    && ValueSurvives(d.title) && TagsOk(d.tags)
    && (forall i :: 0 <= i < |d.attrs| ==> ValueSurvives(d.attrs[i].value.text))
    && (d.source.Some? ==> ValueSurvives(d.source.value))
  }

  lemma {:induction false} EntriesReread(m: seq<Entry>)
    requires HeaderEntries(m)
    ensures RereadEntries(m) == m <==> forall i :: 0 <= i < |m| ==> ValueSurvives(m[i].value.text)
  {
    forall i | 0 <= i < |m|
      ensures RereadEntries(m)[i] == m[i] <==> ValueSurvives(m[i].value.text)
    {
      EscapingIsExact(m[i].value.text);
    }
  }

  /** The header comes back exactly when its values and its tags do. */
  lemma {:induction false} HeaderIsExact(d: Doc)
    requires HeaderEntries(d.attrs)
    ensures ParseTags(RenderTags(d.tags)).Some? && RereadDoc(d, ParseTags(RenderTags(d.tags)).value) == d <==> HeaderSurvives(d)
  {
    EscapingIsExact(d.title);
    TagsAreExact(d.tags);
    EntriesReread(d.attrs);
    if d.source.Some? {
      EscapingIsExact(d.source.value);
    }
  }

  // ---- Block lines ----

  lemma {:induction false} TypeReadsBack(t: BlockType)
    ensures TypeOf(TypeName(t)) == Some(t) && NoSpace(TypeName(t)) && TypeName(t) != "" && TypeName(t)[|TypeName(t)| - 1] != '\r'
  {
  }

  lemma {:induction false} TrimStartTwice(s: string)
    ensures TrimStart(TrimStart(s)) == TrimStart(s)
  {
    if s != "" && IsSpace(s[0]) {
      TrimStartTwice(s[1..]);
    }
  }

  lemma {:induction false} BlockHeadSplits(name: string, s: string)
    requires NoSpace(name) && (s == "" || s[0] == ' ')
    ensures SplitBlockHeader(name + s) == KeyValue(name, TrimStart(s))
  {
    if s == "" {
      assert name + s == name;
      assert FirstSpace(name) == |name|;
    } else {
      FirstSpaceAt(name, s[1..]);
      assert name + s == name + " " + s[1..];
      assert (name + s)[..|name|] == name && (name + s)[|name|..] == s;
    }
  }

  lemma {:induction false} StripBlockLine(b: Block)
    ensures StripCr(BlockLine(b)) == "@" + (TypeName(b.kind) + StripCr(Spaced(AttrsOf(b.attrs))))
  {
    var name, s := TypeName(b.kind), Spaced(AttrsOf(b.attrs));
    TypeReadsBack(b.kind);
    PlusAssociates("@", name, s);
    PlusAssociates("@", name, StripCr(s));
    StripPrefixed("@" + name, s);
  }

  lemma {:induction false} SpacedStripped(attrs: seq<Attr>)
    ensures StripCr(Spaced(attrs)) == "" || StripCr(Spaced(attrs))[0] == ' '
  {
    if attrs != [] {
      SpacedStarts(attrs);
    }
  }

  lemma {:induction false} AttrsTrim(a: string, b: string, line: nat)
    requires Trim(a) == Trim(b)
    ensures ParseAttrs(a, line) == ParseAttrs(b, line)
  {
  }

  /** A written block line reads as its type and whatever its attribute text parses to. */
  lemma {:induction false} BlockLineReads(b: Block, line: nat)
    ensures Starts(StripCr(BlockLine(b)), '@')
    ensures SplitBlockHeader(StripCr(BlockLine(b))[1..]).key == TypeName(b.kind)
    ensures ParseAttrs(SplitBlockHeader(StripCr(BlockLine(b))[1..]).value, line) == ParseAttrs(Spaced(AttrsOf(b.attrs)), line)
  {
    var name, s := TypeName(b.kind), StripCr(Spaced(AttrsOf(b.attrs)));
    StripBlockLine(b);
    assert StripCr(BlockLine(b))[1..] == name + s;
    TypeReadsBack(b.kind);
    SpacedStripped(AttrsOf(b.attrs));
    BlockHeadSplits(name, s);
    TrimStartTwice(s);
    TrimStripCr(Spaced(AttrsOf(b.attrs)));
    AttrsTrim(TrimStart(s), Spaced(AttrsOf(b.attrs)), line);
  }

  /** A block line comes back exactly when its attributes do. */
  lemma {:induction false} BlockHeadIsExact(b: Block, line: nat)
    requires Connected(b.kind, b.attrs)
    ensures ParseBlockHead(StripCr(BlockLine(b))[1..], line) == Ok(BlockHead(b.kind, b.attrs)) <==> AttrsSurvive(b.attrs)
  {
    BlockLineReads(b, line);
    TypeReadsBack(b.kind);
    AttrsAreExact(b.attrs, line);
  }

  // ---- Bodies ----

  /** A written line as the block phase sees it. */
  function Raw(line: string): string {
    StripCr(RenderLine(line))
  }

  lemma {:induction false} BodyLineIsExact(line: string)
    ensures !Starts(Raw(line), '@')
    ensures BodyLine(Raw(line)) == line <==> BodyLineOk(line)
  {
    if Starts(line, '@') {
      var written := "\\" + line;
      assert written[1..] == line && written[|written| - 1] == line[|line| - 1];
      if line[|line| - 1] == '\r' {
        assert |BodyLine(Raw(line))| < |line|;
      }
    } else if line != "" && line[|line| - 1] == '\r' {
      assert |BodyLine(Raw(line))| < |line|;
    }
  }

  function Raws(text: string): seq<string> {
    Stripped(RenderBody(text))
  }

  lemma {:induction false} RawsAre(text: string)
    ensures |Raws(text)| == |Pieces(text)| && forall i :: 0 <= i < |Raws(text)| ==> Raws(text)[i] == Raw(Pieces(text)[i])
    ensures forall i :: 0 <= i < |Raws(text)| ==> !Starts(Raws(text)[i], '@')
  {
    forall i | 0 <= i < |Raws(text)|
      ensures Raws(text)[i] == Raw(Pieces(text)[i]) && !Starts(Raws(text)[i], '@')
    {
      BodyLineIsExact(Pieces(text)[i]);
    }
  }

  lemma {:induction false} BodyLinesAreExact(text: string)
    ensures BodyLines(Raws(text)) == Pieces(text) <==> forall i :: 0 <= i < |Pieces(text)| ==> BodyLineOk(Pieces(text)[i])
  {
    var pieces := Pieces(text);
    RawsAre(text);
    forall i | 0 <= i < |pieces|
      ensures BodyLines(Raws(text))[i] == pieces[i] <==> BodyLineOk(pieces[i])
    {
      BodyLineIsExact(pieces[i]);
    }
  }

  lemma {:induction false} BlanksStrip(lines: seq<string>)
    ensures StripBlank(lines + [""]) == StripBlank(lines)
  {
    assert (lines + [""])[..|lines|] == lines;
  }

  lemma {:induction false} NothingStripped(lines: seq<string>)
    requires lines == [] || lines[|lines| - 1] != ""
    ensures StripBlank(lines) == lines
  {
  }

  /** As many lines survive stripping as there were pieces only if they are the pieces. */
  lemma {:induction false} BodyFromLines(lines: seq<string>, text: string)
    requires WholeLines(text) && AllOneLine(lines) && |lines| == |Pieces(text)|
    ensures Unlines(StripBlank(lines)) == text <==> lines == Pieces(text)
  {
    PiecesSpell(text);
    StripBlankEnds(lines);
    if lines == Pieces(text) {
      NothingStripped(lines);
    }
    if Unlines(StripBlank(lines)) == text {
      PiecesReadBack(StripBlank(lines));
    }
  }

  lemma {:induction false} RawOneLine(line: string)
    requires !Has(line, '\n')
    ensures !Has(BodyLine(Raw(line)), '\n')
  {
    var written := RenderLine(line);
    if Starts(line, '@') {
      JoinOneLine("\\", line);
    }
    SliceOneLine(written, 0, if StripCr(written) == written then |written| else |written| - 1);
    assert Raw(line) == written[..|Raw(line)|];
    if |Raw(line)| >= 2 {
      SliceOneLine(Raw(line), 1, |Raw(line)|);
    }
  }

  lemma {:induction false} BodyLinesOneLine(text: string)
    ensures AllOneLine(BodyLines(Raws(text))) && |BodyLines(Raws(text))| == |Pieces(text)|
  {
    PiecesHaveNoNewline(text);
    RawsAre(text);
    forall i | 0 <= i < |Pieces(text)|
      ensures !Has(BodyLines(Raws(text))[i], '\n')
    {
      RawOneLine(Pieces(text)[i]);
    }
  }

  lemma {:induction false} BodyLinesPush(raws: seq<string>)
    ensures BodyLines(raws + [""]) == BodyLines(raws) + [""]
  {
  }

  /** A body of whole lines comes back, also with the separating blank line behind it, exactly when its lines do. */
  lemma {:induction false} BodyIsExact(text: string)
    requires WholeLines(text)
    ensures Body(Raws(text)) == text <==> BodyOk(text)
    ensures Body(Raws(text) + [""]) == Body(Raws(text))
  {
    BodyLinesOneLine(text);
    BodyFromLines(BodyLines(Raws(text)), text);
    BodyLinesAreExact(text);
    BodyLinesPush(Raws(text));
    BlanksStrip(BodyLines(Raws(text)));
  }

  // ---- The block phase ----

  /** A block line and the raw lines of its body. */
  datatype Chunk = Chunk(line: string, body: seq<string>)

  ghost predicate Separate(k: Chunk) {
    Starts(k.line, '@') && forall i :: 0 <= i < |k.body| ==> !Starts(k.body[i], '@')
  }

  function Flat(chunks: seq<Chunk>): seq<string> {
    if chunks == [] then [] else [chunks[0].line] + (chunks[0].body + Flat(chunks[1..]))
  }

  predicate Marked(chunks: seq<Chunk>) {
    forall i :: 0 <= i < |chunks| ==> chunks[i].line != ""
  }

  function Behind<T>(done: seq<T>, more: Result<seq<T>, ParseError>): Result<seq<T>, ParseError> {
    match more
    case Err(e) => Err(e)
    case Ok(items) => Ok(done + items)
  }

  lemma {:induction false} BehindTwice<T>(done: seq<T>, x: T, more: Result<seq<T>, ParseError>)
    ensures Behind(done + [x], more) == Behind(done, Behind([x], more))
  {
    if more.Ok? {
      assert done + [x] + more.value == done + ([x] + more.value);
    }
  }

  function ReadChunks<H>(headOf: BlockReader<H>, chunks: seq<Chunk>, line: nat): Result<seq<RawBlock<H>>, ParseError>
    requires Marked(chunks)
    decreases |chunks|
  {
    if chunks == [] then Ok([])
    else
      match headOf(chunks[0].line[1..], line)
      case Err(e) => Err(e)
      case Ok(head) => Behind([RawBlock(head, chunks[0].body)], ReadChunks(headOf, chunks[1..], line + 1 + |chunks[0].body|))
  }

  lemma {:induction false} BodySizeIs(body: seq<string>, rest: seq<string>)
    requires forall i :: 0 <= i < |body| ==> !Starts(body[i], '@')
    requires rest == [] || Starts(rest[0], '@')
    ensures BodySize(body + rest) == |body|
  {
    if body == [] {
      assert body + rest == rest;
    } else {
      assert (body + rest)[1..] == body[1..] + rest && (body + rest)[0] == body[0];
      BodySizeIs(body[1..], rest);
    }
  }

  lemma {:induction false} BlocksCons<H>(headOf: BlockReader<H>, x: string, body: seq<string>, rest: seq<string>, line: nat,
                                         done: seq<RawBlock<H>>, head: H)
    requires Starts(x, '@') && headOf(x[1..], line) == Ok(head) && BodySize(body + rest) == |body|
    ensures Blocks(headOf, [x] + (body + rest), line, done) == Blocks(headOf, rest, line + 1 + |body|, done + [RawBlock(head, body)])
  {
    assert ([x] + (body + rest))[1..] == body + rest;
    assert (body + rest)[..|body|] == body && (body + rest)[|body|..] == rest;
  }

  lemma {:induction false} BlocksFail<H>(headOf: BlockReader<H>, x: string, more: seq<string>, line: nat, done: seq<RawBlock<H>>)
    requires Starts(x, '@') && headOf(x[1..], line).Err?
    ensures Blocks(headOf, [x] + more, line, done) == Err(headOf(x[1..], line).error)
  {
  }

  lemma {:induction false} FlatStarts(chunks: seq<Chunk>)
    requires forall i :: 0 <= i < |chunks| ==> Separate(chunks[i])
    ensures Flat(chunks) == [] || Starts(Flat(chunks)[0], '@')
  {
    if chunks != [] {
      assert Separate(chunks[0]);
    }
  }

  lemma {:induction false} OneChunk<H>(headOf: BlockReader<H>, k: Chunk, rest: seq<string>, line: nat, done: seq<RawBlock<H>>)
    requires Separate(k) && (rest == [] || Starts(rest[0], '@'))
    ensures Blocks(headOf, [k.line] + (k.body + rest), line, done) ==
      match headOf(k.line[1..], line)
      case Err(e) => Err(e)
      case Ok(head) => Blocks(headOf, rest, line + 1 + |k.body|, done + [RawBlock(head, k.body)])
  {
    if headOf(k.line[1..], line).Err? {
      BlocksFail(headOf, k.line, k.body + rest, line, done);
    } else {
      BodySizeIs(k.body, rest);
      BlocksCons(headOf, k.line, k.body, rest, line, done, headOf(k.line[1..], line).value);
    }
  }

  /** The block phase splits its lines back into the chunks they were made of. */
  lemma {:induction false} BlocksSplit<H>(headOf: BlockReader<H>, chunks: seq<Chunk>, line: nat, done: seq<RawBlock<H>>)
    requires Marked(chunks) && forall i :: 0 <= i < |chunks| ==> Separate(chunks[i])
    ensures Blocks(headOf, Flat(chunks), line, done) == Behind(done, ReadChunks(headOf, chunks, line))
    decreases |chunks|
  {
    if chunks == [] {
      assert done + [] == done;
    } else {
      var k, more := chunks[0], chunks[1..];
      assert Separate(k) && forall i :: 0 <= i < |more| ==> more[i] == chunks[i + 1];
      FlatStarts(more);
      OneChunk(headOf, k, Flat(more), line, done);
      var head := headOf(k.line[1..], line);
      if head.Ok? {
        BlocksSplit(headOf, more, line + 1 + |k.body|, done + [RawBlock(head.value, k.body)]);
        BehindTwice(done, RawBlock(head.value, k.body), ReadChunks(headOf, more, line + 1 + |k.body|));
      }
    }
  }

  /** Where a chunk's line stands, the first chunk's being number `line`. */
  function NumberOf(chunks: seq<Chunk>, line: nat, i: nat): nat
    requires i <= |chunks|
  {
    line + |Flat(chunks[..i])|
  }

  lemma {:induction false} NumberNext(chunks: seq<Chunk>, line: nat, i: nat)
    requires i < |chunks|
    ensures NumberOf(chunks, line, i + 1) == NumberOf(chunks[1..], line + 1 + |chunks[0].body|, i)
    ensures NumberOf(chunks, line, 0) == line
  {
    assert chunks[..i + 1][1..] == chunks[1..][..i] && chunks[..i + 1][0] == chunks[0];
    assert chunks[..0] == [];
  }

  /** What a chunk's own line reads as, where it stands. */
  function HeadAt<H>(headOf: BlockReader<H>, chunks: seq<Chunk>, line: nat, i: nat): Result<H, ParseError>
    requires i < |chunks| && Marked(chunks)
  {
    headOf(chunks[i].line[1..], NumberOf(chunks, line, i))
  }

  ghost predicate FirstFailing<H>(headOf: BlockReader<H>, chunks: seq<Chunk>, line: nat, i: nat)
    requires Marked(chunks)
  {
    i < |chunks| && HeadAt(headOf, chunks, line, i).Err? && forall j: nat :: j < i ==> HeadAt(headOf, chunks, line, j).Ok?
  }

  ghost predicate ChunkGives<H>(headOf: BlockReader<H>, chunks: seq<Chunk>, line: nat, i: nat, raw: RawBlock<H>)
    requires i < |chunks| && Marked(chunks)
  {
    HeadAt(headOf, chunks, line, i) == Ok(raw.head) && raw.raws == chunks[i].body
  }

  ghost predicate ChunksAnswer<H>(headOf: BlockReader<H>, chunks: seq<Chunk>, line: nat, r: Result<seq<RawBlock<H>>, ParseError>)
    requires Marked(chunks)
  {
    match r
    case Ok(raws) => |raws| == |chunks| && forall i: nat :: i < |chunks| ==> ChunkGives(headOf, chunks, line, i, raws[i])
    case Err(e) => exists i: nat :: FirstFailing(headOf, chunks, line, i) && HeadAt(headOf, chunks, line, i) == Err(e)
  }

  lemma {:induction false} HeadNext<H>(headOf: BlockReader<H>, chunks: seq<Chunk>, line: nat, i: nat)
    requires i + 1 < |chunks| && Marked(chunks)
    ensures Marked(chunks[1..]) && HeadAt(headOf, chunks, line, i + 1) == HeadAt(headOf, chunks[1..], line + 1 + |chunks[0].body|, i)
  {
    NumberNext(chunks, line, i);
  }

  lemma {:induction false} LaterFails<H>(headOf: BlockReader<H>, chunks: seq<Chunk>, line: nat, i: nat)
    requires chunks != [] && Marked(chunks) && Marked(chunks[1..]) && HeadAt(headOf, chunks, line, 0).Ok?
    requires FirstFailing(headOf, chunks[1..], line + 1 + |chunks[0].body|, i)
    ensures FirstFailing(headOf, chunks, line, i + 1)
    ensures HeadAt(headOf, chunks, line, i + 1) == HeadAt(headOf, chunks[1..], line + 1 + |chunks[0].body|, i)
  {
    HeadNext(headOf, chunks, line, i);
    forall j: nat | j < i + 1
      ensures HeadAt(headOf, chunks, line, j).Ok?
    {
      if j > 0 {
        HeadNext(headOf, chunks, line, j - 1);
      }
    }
  }

  lemma {:induction false} LaterGive<H>(headOf: BlockReader<H>, chunks: seq<Chunk>, line: nat, raw: RawBlock<H>, more: seq<RawBlock<H>>)
    requires chunks != [] && Marked(chunks) && Marked(chunks[1..]) && ChunkGives(headOf, chunks, line, 0, raw)
    requires ChunksAnswer(headOf, chunks[1..], line + 1 + |chunks[0].body|, Ok(more))
    ensures ChunksAnswer(headOf, chunks, line, Ok([raw] + more))
  {
    forall i: nat | i < |chunks|
      ensures ChunkGives(headOf, chunks, line, i, ([raw] + more)[i])
    {
      if i > 0 {
        HeadNext(headOf, chunks, line, i - 1);
        assert ChunkGives(headOf, chunks[1..], line + 1 + |chunks[0].body|, i - 1, more[i - 1]);
      }
    }
  }

  lemma {:induction false} ReadChunksAnswers<H>(headOf: BlockReader<H>, chunks: seq<Chunk>, line: nat)
    requires Marked(chunks)
    ensures ChunksAnswer(headOf, chunks, line, ReadChunks(headOf, chunks, line))
    decreases |chunks|
  {
    if chunks != [] {
      var k, more := chunks[0], chunks[1..];
      NumberNext(chunks, line, 0);
      ReadChunksAnswers(headOf, more, line + 1 + |k.body|);
      var head := headOf(k.line[1..], line);
      if head.Err? {
        assert FirstFailing(headOf, chunks, line, 0);
      } else {
        match ReadChunks(headOf, more, line + 1 + |k.body|)
        case Err(e) =>
          var i: nat :| FirstFailing(headOf, more, line + 1 + |k.body|, i) && HeadAt(headOf, more, line + 1 + |k.body|, i) == Err(e);
          LaterFails(headOf, chunks, line, i);
        case Ok(raws) =>
          LaterGive(headOf, chunks, line, RawBlock(head.value, k.body), raws);
      }
    }
  }

  lemma {:induction false} LinesAreChunks(lines: seq<string>) returns (chunks: seq<Chunk>)
    requires lines == [] || Starts(lines[0], '@')
    ensures Flat(chunks) == lines && Marked(chunks) && forall i :: 0 <= i < |chunks| ==> Separate(chunks[i])
    decreases |lines|
  {
    if lines == [] {
      chunks := [];
    } else {
      var k := BodySize(lines[1..]);
      BodySizeSplits(lines[1..]);
      var body, rest := lines[1..][..k], lines[1..][k..];
      var more := LinesAreChunks(rest);
      chunks := [Chunk(lines[0], body)] + more;
      assert chunks[1..] == more && lines[1..] == body + rest && lines == [lines[0]] + lines[1..];
    }
  }

  lemma {:induction false} BodySizeSplits(lines: seq<string>)
    ensures var k := BodySize(lines);
      (k == |lines| || Starts(lines[k], '@')) && forall i :: 0 <= i < k ==> !Starts(lines[i], '@')
  {
    if lines != [] && !Starts(lines[0], '@') {
      BodySizeSplits(lines[1..]);
      assert forall i :: 1 <= i < |lines| ==> lines[i] == lines[1..][i - 1];
    }
  }

  /** Main result: any lines of the block phase are block lines, each with its body, read where they stand up to the first that fails. */
  lemma {:induction false} BlockPhaseAnswers<H>(headOf: BlockReader<H>, lines: seq<string>, line: nat) returns (chunks: seq<Chunk>)
    requires lines == [] || Starts(lines[0], '@')
    ensures Flat(chunks) == lines && Marked(chunks) && forall i :: 0 <= i < |chunks| ==> Separate(chunks[i])
    ensures ChunksAnswer(headOf, chunks, line, Blocks(headOf, lines, line, []))
  {
    chunks := LinesAreChunks(lines);
    BlocksSplit(headOf, chunks, line, []);
    ReadChunksAnswers(headOf, chunks, line);
    NothingDone(ReadChunks(headOf, chunks, line));
  }

  lemma {:induction false} NothingDone<T>(r: Result<seq<T>, ParseError>)
    ensures Behind([], r) == r
  {
    if r.Ok? {
      assert [] + r.value == r.value;
    }
  }

  ghost predicate HeadReads<H>(headOf: BlockReader<H>, k: Chunk, head: H)
    requires k.line != ""
  {
    exists n: nat {:trigger headOf(k.line[1..], n)} :: headOf(k.line[1..], n) == Ok(head)
  }

  lemma {:induction false} ChunksRead<H>(headOf: BlockReader<H>, chunks: seq<Chunk>, line: nat, raws: seq<RawBlock<H>>)
    requires Marked(chunks) && ReadChunks(headOf, chunks, line) == Ok(raws)
    ensures |raws| == |chunks|
    ensures forall i :: 0 <= i < |raws| ==> raws[i].raws == chunks[i].body && HeadReads(headOf, chunks[i], raws[i].head)
    decreases |chunks|
  {
    if chunks != [] {
      var more := chunks[1..];
      ChunksRead(headOf, more, line + 1 + |chunks[0].body|, raws[1..]);
      assert HeadReads(headOf, chunks[0], raws[0].head);
      forall i | 1 <= i < |raws|
        ensures raws[i].raws == chunks[i].body && HeadReads(headOf, chunks[i], raws[i].head)
      {
        assert raws[i] == raws[1..][i - 1] && chunks[i] == more[i - 1];
      }
    }
  }

  ghost predicate AlwaysReads<H>(headOf: BlockReader<H>, k: Chunk, head: H)
    requires k.line != ""
  {
    forall n: nat {:trigger headOf(k.line[1..], n)} :: headOf(k.line[1..], n) == Ok(head)
  }

  lemma {:induction false} ChunksAllRead<H>(headOf: BlockReader<H>, chunks: seq<Chunk>, raws: seq<RawBlock<H>>, line: nat)
    requires |raws| == |chunks| && Marked(chunks)
    requires forall i :: 0 <= i < |chunks| ==> raws[i].raws == chunks[i].body && AlwaysReads(headOf, chunks[i], raws[i].head)
    ensures ReadChunks(headOf, chunks, line) == Ok(raws)
    decreases |chunks|
  {
    if chunks != [] {
      var more := chunks[1..];
      forall i | 0 <= i < |more|
        ensures raws[1..][i].raws == more[i].body && AlwaysReads(headOf, more[i], raws[1..][i].head)
      {
        assert raws[1..][i] == raws[i + 1] && more[i] == chunks[i + 1];
      }
      ChunksAllRead(headOf, more, raws[1..], line + 1 + |chunks[0].body|);
      assert AlwaysReads(headOf, chunks[0], raws[0].head);
      assert raws == [raws[0]] + raws[1..];
    }
  }

  // ---- The blocks of a document ----

  /** All but the last block are followed by a blank line, which the reader first takes for part of the body. */
  function ChunkOf(b: Block, last: bool): Chunk {
    Chunk(StripCr(BlockLine(b)), Raws(b.text) + if last then [] else [""])
  }

  function ChunksOf(blocks: seq<Block>): seq<Chunk> {
    seq(|blocks|, i requires 0 <= i < |blocks| => ChunkOf(blocks[i], i == |blocks| - 1))
  }

  lemma {:induction false} ChunkSeparate(b: Block, last: bool)
    ensures Separate(ChunkOf(b, last))
  {
    BlockLineReads(b, 0);
    RawsAre(b.text);
  }

  lemma {:induction false} ChunkBody(b: Block, last: bool)
    requires WholeLines(b.text)
    ensures Body(ChunkOf(b, last).body) == b.text <==> BodyOk(b.text)
  {
    BodyIsExact(b.text);
    assert Raws(b.text) + [] == Raws(b.text);
  }

  lemma {:induction false} StrippedBlock(b: Block)
    ensures Stripped(BlockLines(b)) == ["", StripCr(BlockLine(b))] + Raws(b.text)
  {
    StrippedAppend(["", BlockLine(b)], RenderBody(b.text));
    StrippedTwo("", BlockLine(b));
  }

  lemma {:induction false} AllStrippedStart(blocks: seq<Block>)
    requires blocks != []
    ensures Stripped(AllBlockLines(blocks)) ==
            ["", StripCr(BlockLine(blocks[0]))] + Raws(blocks[0].text) + Stripped(AllBlockLines(blocks[1..]))
  {
    StrippedBlock(blocks[0]);
    StrippedAppend(BlockLines(blocks[0]), AllBlockLines(blocks[1..]));
  }

  lemma {:induction false} LastRegroup(line: string, body: seq<string>)
    ensures (["", line] + body + [])[1..] == [line] + (body + [] + [])
  {
  }

  lemma {:induction false} InnerRegroup(line: string, body: seq<string>, after: seq<string>)
    requires after != [] && after[0] == ""
    ensures (["", line] + body + after)[1..] == [line] + (body + [""] + after[1..])
  {
  }

  lemma {:induction false} FlatChunksCons(blocks: seq<Block>)
    requires blocks != []
    ensures Flat(ChunksOf(blocks)) == [StripCr(BlockLine(blocks[0]))]
              + (Raws(blocks[0].text) + (if blocks[1..] == [] then [] else [""]) + Flat(ChunksOf(blocks[1..])))
  {
    assert ChunksOf(blocks)[1..] == ChunksOf(blocks[1..]);
    assert ChunksOf(blocks)[0] == ChunkOf(blocks[0], |blocks| == 1);
  }

  /** Behind the first blank line the written blocks are their chunks. */
  lemma {:induction false} BlocksAreChunks(blocks: seq<Block>)
    requires blocks != []
    ensures Stripped(AllBlockLines(blocks)) != [] && Stripped(AllBlockLines(blocks))[1..] == Flat(ChunksOf(blocks))
    decreases |blocks|
  {
    var b, more := blocks[0], blocks[1..];
    AllStrippedStart(blocks);
    FlatChunksCons(blocks);
    if more == [] {
      LastRegroup(StripCr(BlockLine(b)), Raws(b.text));
    } else {
      AllStrippedStart(more);
      BlocksAreChunks(more);
      InnerRegroup(StripCr(BlockLine(b)), Raws(b.text), Stripped(AllBlockLines(more)));
    }
  }

  /** One written block came back. */
  lemma {:induction false} BlockCameBack(b: Block, last: bool, raw: RawBlock<BlockHead>)
    requires BlockShape(b) && raw.raws == ChunkOf(b, last).body && ChunkOf(b, last).line != ""
    requires HeadReads(ReadsBlock(), ChunkOf(b, last), raw.head) && Finished(raw) == b
    ensures BlockOk(b)
  {
    ChunkBody(b, last);
    var n: nat :| ReadsBlock()(ChunkOf(b, last).line[1..], n) == Ok(raw.head);
    assert raw.head == BlockHead(b.kind, b.attrs);
    BlockHeadIsExact(b, n);
  }

  lemma {:induction false} BlockComesBack(b: Block, last: bool)
    requires BlockOk(b)
    ensures ChunkOf(b, last).line != "" && AlwaysReads(ReadsBlock(), ChunkOf(b, last), BlockHead(b.kind, b.attrs))
    ensures Body(ChunkOf(b, last).body) == b.text
  {
    ChunkSeparate(b, last);
    ChunkBody(b, last);
    forall n: nat
      ensures ReadsBlock()(ChunkOf(b, last).line[1..], n) == Ok(BlockHead(b.kind, b.attrs))
    {
      BlockHeadIsExact(b, n);
    }
  }

  lemma {:induction false} ChunksSeparate(blocks: seq<Block>)
    ensures Marked(ChunksOf(blocks)) && forall i :: 0 <= i < |ChunksOf(blocks)| ==> Separate(ChunksOf(blocks)[i])
  {
    forall i | 0 <= i < |blocks|
      ensures Separate(ChunksOf(blocks)[i]) && ChunksOf(blocks)[i].line != ""
    {
      ChunkSeparate(blocks[i], i == |blocks| - 1);
    }
  }

  ghost predicate BlocksShaped(blocks: seq<Block>) {
    forall i :: 0 <= i < |blocks| ==> BlockShape(blocks[i])
  }

  ghost predicate BlocksOk(blocks: seq<Block>) {
    forall i :: 0 <= i < |blocks| ==> BlockOk(blocks[i])
  }

  lemma {:induction false} AllCame(blocks: seq<Block>, raws: seq<RawBlock<BlockHead>>, line: nat)
    requires BlocksShaped(blocks) && Marked(ChunksOf(blocks))
    requires ReadChunks(ReadsBlock(), ChunksOf(blocks), line) == Ok(raws) && FinishAll(raws) == blocks
    ensures BlocksOk(blocks)
  {
    ChunksRead(ReadsBlock(), ChunksOf(blocks), line, raws);
    FinishAllIs(raws);
    forall i | 0 <= i < |blocks|
      ensures BlockOk(blocks[i])
    {
      BlockCameBack(blocks[i], i == |blocks| - 1, raws[i]);
    }
  }

  function RawsOf(blocks: seq<Block>): seq<RawBlock<BlockHead>> {
    seq(|blocks|, i requires 0 <= i < |blocks| => RawBlock(BlockHead(blocks[i].kind, blocks[i].attrs), ChunksOf(blocks)[i].body))
  }

  lemma {:induction false} AllCome(blocks: seq<Block>, line: nat)
    requires BlocksOk(blocks) && Marked(ChunksOf(blocks))
    ensures ReadChunks(ReadsBlock(), ChunksOf(blocks), line) == Ok(RawsOf(blocks)) && FinishAll(RawsOf(blocks)) == blocks
  {
    var chunks, raws := ChunksOf(blocks), RawsOf(blocks);
    forall i | 0 <= i < |chunks|
      ensures raws[i].raws == chunks[i].body && AlwaysReads(ReadsBlock(), chunks[i], raws[i].head) && Finished(raws[i]) == blocks[i]
    {
      BlockComesBack(blocks[i], i == |blocks| - 1);
    }
    ChunksAllRead(ReadsBlock(), chunks, raws, line);
    FinishAllIs(raws);
  }

  /** What the block phase makes of the written blocks. */
  ghost predicate BlocksComeBack(blocks: seq<Block>, lines: seq<string>, line: nat) {
    var r := Blocks(ReadsBlock(), lines, line, []);
    r.Ok? && FinishAll(r.value) == blocks
  }

  /** Main result for the second half: the blocks come back, whatever their number, exactly when each does. */
  lemma {:induction false} BlocksAreExact(blocks: seq<Block>, line: nat)
    requires BlocksShaped(blocks)
    ensures BlocksComeBack(blocks, Flat(ChunksOf(blocks)), line) <==> BlocksOk(blocks)
  {
    var chunks := ChunksOf(blocks);
    ChunksSeparate(blocks);
    BlocksSplit(ReadsBlock(), chunks, line, []);
    var read := ReadChunks(ReadsBlock(), chunks, line);
    if read.Ok? {
      assert [] + read.value == read.value;
      if FinishAll(read.value) == blocks {
        AllCame(blocks, read.value, line);
      }
    }
    if BlocksOk(blocks) {
      AllCome(blocks, line);
    }
  }

  // ---- The whole document ----

  lemma {:induction false} QuotedOneLine(v: string)
    requires !Has(v, '\n')
    ensures !Has(Quote(v), '\n')
  {
    EscapedOneLine(v);
    QuoteParts(v);
    JoinOneLine(['"'], EscapeQuotes(v));
    PushOneLine(['"'] + EscapeQuotes(v), '"');
    CharOneLine('"');
  }

  lemma {:induction false} EscapeOneLine(v: string)
    requires !Has(v, '\n')
    ensures !Has(Escape(v), '\n')
  {
    QuotedOneLine(v);
  }

  lemma {:induction false} EscapedOneLine(s: string)
    requires !Has(s, '\n')
    ensures !Has(EscapeQuotes(s), '\n')
  {
    if s != "" {
      SliceOneLine(s, 0, |s| - 1);
      EscapedOneLine(s[..|s| - 1]);
      JoinOneLine(EscapeQuotes(s[..|s| - 1]), EscapeChar(s[|s| - 1]));
    }
  }

  lemma {:induction false} KeyLineOneLine(key: string, value: string)
    requires NoSpace(key) && !Has(value, '\n')
    ensures !Has(KeyLine(key, value), '\n')
  {
    JoinOneLine("#", key + " " + value);
    JoinOneLine(key + " ", value);
    JoinOneLine(key, " ");
  }

  lemma {:induction false} RenderTagsOneLine(tags: seq<string>)
    requires AllOneLine(tags)
    ensures !Has(RenderTags(tags), '\n')
  {
    if tags != [] {
      var init, last := tags[..|tags| - 1], tags[|tags| - 1];
      RenderTagsOneLine(init);
      QuotedOneLine(last);
      if init != [] {
        JoinOneLine(RenderTags(init) + ",", RenderTag(last));
        JoinOneLine(RenderTags(init), ",");
      }
    }
  }

  lemma {:induction false} AllOneLineAppend(a: seq<string>, b: seq<string>)
    requires AllOneLine(a) && AllOneLine(b)
    ensures AllOneLine(a + b)
  {
  }

  lemma {:induction false} AttrLinesOneLine(m: seq<Entry>)
    requires HeaderEntries(m)
    ensures AllOneLine(AttrLines(m))
  {
    forall i | 0 <= i < |m|
      ensures !Has(KeyLine(m[i].key, Escape(m[i].value.text)), '\n')
    {
      EscapeOneLine(m[i].value.text);
      KeyLineOneLine(m[i].key, Escape(m[i].value.text));
    }
  }

  lemma {:induction false} FirstLinesOneLine(c: Codecs, d: Doc)
    requires d.version == 1 && !Has(d.title, '\n') && Faithful(c.id)
    ensures AllOneLine(FirstLines(c, d))
  {
    FixedKeys();
    OneReads();
    EscapeOneLine(d.title);
    KeyLineOneLine("format_version", Decimal(1));
    KeyLineOneLine("id", c.id.encode(d.id));
    KeyLineOneLine("title", Escape(d.title));
  }

  lemma {:induction false} OtherLinesOneLine(c: Codecs, d: Doc)
    requires AllOneLine(d.tags) && (d.source.Some? ==> !Has(d.source.value, '\n')) && Faithful(c.time)
    ensures AllOneLine(TagLines(d.tags)) && AllOneLine(SourceLines(d.source)) && AllOneLine(LastLines(c, d))
  {
    FixedKeys();
    RenderTagsOneLine(d.tags);
    KeyLineOneLine("tags", RenderTags(d.tags));
    if d.source.Some? {
      EscapeOneLine(d.source.value);
      KeyLineOneLine("source", Escape(d.source.value));
    }
    KeyLineOneLine("created_at", c.time.encode(d.created));
    KeyLineOneLine("updated_at", c.time.encode(d.updated));
  }

  lemma {:induction false} TokenOneLine(a: Attr)
    requires !Has(a.key, '\n') && !Has(a.value, '\n')
    ensures !Has(Token(a), '\n')
  {
    EscapeOneLine(a.value);
    JoinOneLine(a.key + "=", Escape(a.value));
    JoinOneLine(a.key, "=");
  }

  lemma {:induction false} SpacedOneLine(attrs: seq<Attr>)
    requires forall i :: 0 <= i < |attrs| ==> !Has(attrs[i].key, '\n') && !Has(attrs[i].value, '\n')
    ensures !Has(Spaced(attrs), '\n')
  {
    if attrs != [] {
      var init, last := attrs[..|attrs| - 1], attrs[|attrs| - 1];
      SpacedOneLine(init);
      TokenOneLine(last);
      JoinOneLine(Spaced(init) + " ", Token(last));
      JoinOneLine(Spaced(init), " ");
    }
  }

  lemma {:induction false} BlockLineOneLine(b: Block)
    requires OneLineEntries(b.attrs)
    ensures !Has(BlockLine(b), '\n')
  {
    TypeReadsBack(b.kind);
    forall i | 0 <= i < |AttrsOf(b.attrs)|
      ensures !Has(AttrsOf(b.attrs)[i].key, '\n') && !Has(AttrsOf(b.attrs)[i].value, '\n')
    {
      assert EntryOnOneLine(b.attrs[i]);
    }
    SpacedOneLine(AttrsOf(b.attrs));
    JoinOneLine(TypeName(b.kind), Spaced(AttrsOf(b.attrs)));
    JoinOneLine("@", TypeName(b.kind) + Spaced(AttrsOf(b.attrs)));
  }

  lemma {:induction false} BodyOneLine(text: string)
    ensures AllOneLine(RenderBody(text))
  {
    PiecesHaveNoNewline(text);
    forall i | 0 <= i < |RenderBody(text)|
      ensures !Has(RenderBody(text)[i], '\n')
    {
      JoinOneLine("\\", Pieces(text)[i]);
    }
  }

  lemma {:induction false} AllBlockLinesOneLine(blocks: seq<Block>)
    requires BlocksShaped(blocks)
    ensures AllOneLine(AllBlockLines(blocks))
  {
    if blocks != [] {
      assert BlockShape(blocks[0]);
      BlockLineOneLine(blocks[0]);
      BodyOneLine(blocks[0].text);
      AllOneLineAppend(["", BlockLine(blocks[0])], RenderBody(blocks[0].text));
      AllBlockLinesOneLine(blocks[1..]);
      AllOneLineAppend(BlockLines(blocks[0]), AllBlockLines(blocks[1..]));
    }
  }

  lemma {:induction false} RenderLinesOneLine(c: Codecs, d: Doc)
    requires Shape(d) && Faithful(c.id) && Faithful(c.time)
    ensures AllOneLine(RenderLines(c, d))
  {
    FirstLinesOneLine(c, d);
    OtherLinesOneLine(c, d);
    AttrLinesOneLine(d.attrs);
    AllBlockLinesOneLine(d.blocks);
    var f, t, a, s, l := FirstLines(c, d), TagLines(d.tags), AttrLines(d.attrs), SourceLines(d.source), LastLines(c, d);
    AllOneLineAppend(f, t);
    AllOneLineAppend(f + t, a);
    AllOneLineAppend(f + t + a, s);
    AllOneLineAppend(f + t + a + s, l);
    AllOneLineAppend(HeaderLines(c, d), AllBlockLines(d.blocks));
  }

  lemma {:induction false} HeaderStops<S>(step: HeaderReader<S>, h: S, lines: seq<string>, line: nat)
    requires |lines| >= 2 && lines[0] == "" && Starts(lines[1], '@')
    ensures Header(step, h, lines, line) == Ok(HeaderEnd(h, lines[1..], line + 1))
  {
    assert lines[1..][0] == lines[1];
  }

  /** The header phase ends at the first block line. */
  lemma {:induction false} HeaderEnds<S>(step: HeaderReader<S>, h: S, blocks: seq<Block>, line: nat)
    ensures var r := Header(step, h, Stripped(AllBlockLines(blocks)), line);
      r.Ok? && r.value.head == h && r.value.rest == Flat(ChunksOf(blocks))
  {
    if blocks != [] {
      AllStrippedStart(blocks);
      BlockLineReads(blocks[0], 0);
      HeaderStops(step, h, Stripped(AllBlockLines(blocks)), line);
      BlocksAreChunks(blocks);
    } else {
      assert Stripped(AllBlockLines(blocks)) == [] && Flat(ChunksOf(blocks)) == [];
    }
  }

  lemma {:induction false} Assembled(c: Codecs, d: Doc, lines: seq<string>, end: HeaderEnd<Head>, read: Doc)
    requires Header(ReadsHeader(c), NewHead(), lines, 1) == Ok(end) && end.head == HeadOf(read) && read.version == 1
    requires read.blocks == d.blocks
    ensures ParseLines(c, lines) == Ok(d) <==> read == d && BlocksComeBack(d.blocks, end.rest, end.line)
  {
  }

  lemma {:induction false} HeaderRefused(c: Codecs, lines: seq<string>, after: seq<string>)
    requires AllHash(lines) && Feed(ReadsHeader(c), NewHead(), lines, 1).Err?
    ensures ParseLines(c, lines + after).Err?
  {
    HeaderFeeds(ReadsHeader(c), NewHead(), lines, after, 1);
  }

  lemma {:induction false} HeaderRead(c: Codecs, d: Doc, lines: seq<string>, read: Doc)
    requires AllHash(lines) && Feed(ReadsHeader(c), NewHead(), lines, 1) == Ok(HeadOf(read))
    requires BlocksShaped(d.blocks) && read.version == 1 && read.blocks == d.blocks
    ensures ParseLines(c, lines + Stripped(AllBlockLines(d.blocks))) == Ok(d) <==> read == d && BlocksOk(d.blocks)
  {
    var after := Stripped(AllBlockLines(d.blocks));
    HeaderFeeds(ReadsHeader(c), NewHead(), lines, after, 1);
    HeaderEnds(ReadsHeader(c), HeadOf(read), d.blocks, 1 + |lines|);
    var end := Header(ReadsHeader(c), HeadOf(read), after, 1 + |lines|).value;
    BlocksAreExact(d.blocks, end.line);
    Assembled(c, d, lines + after, end, read);
  }

  /** What the lines of a rendered document parse to, as far as the document itself is concerned. */
  lemma {:induction false} RenderedLinesParse(c: Codecs, d: Doc)
    requires Shape(d) && Faithful(c.id) && Faithful(c.time)
    ensures ParseLines(c, Stripped(RenderLines(c, d))) == Ok(d) <==> HeaderSurvives(d) && BlocksOk(d.blocks)
  {
    var lines := Stripped(HeaderLines(c, d));
    StrippedAppend(HeaderLines(c, d), AllBlockLines(d.blocks));
    HeaderLinesFeed(c, d);
    HeaderIsExact(d);
    var read := ParseTags(RenderTags(d.tags));
    if read.Some? {
      HeaderRead(c, d, lines, RereadDoc(d, read.value));
    } else {
      HeaderRefused(c, lines, Stripped(AllBlockLines(d.blocks)));
    }
  }

  /** When tags parse and every block comes back, the rendering parses to the document with its header values reread. */
  lemma {:induction false} RenderedParsesTo(c: Codecs, d: Doc, tags: seq<string>)
    requires Shape(d) && BlocksOk(d.blocks) && ParseTags(RenderTags(d.tags)) == Some(tags) && Faithful(c.id) && Faithful(c.time)
    ensures Parse(c, Render(c, d)) == Ok(RereadDoc(d, tags))
  {
    RenderLinesOneLine(c, d);
    LinesReadBack(RenderLines(c, d));
    StrippedAppend(HeaderLines(c, d), AllBlockLines(d.blocks));
    HeaderLinesFeed(c, d);
    HeaderRead(c, RereadDoc(d, tags), Stripped(HeaderLines(c, d)), RereadDoc(d, tags));
    RenderedIsNotEmpty(c, d);
  }

  lemma {:induction false} WellFormedIs(d: Doc)
    ensures WellFormed(d) <==> Shape(d) && HeaderSurvives(d) && BlocksOk(d.blocks)
  {
    if WellFormed(d) {
      forall i | 0 <= i < |d.blocks|
        ensures BlockShape(d.blocks[i])
      {
        assert BlockOk(d.blocks[i]);
      }
    }
  }

  /** Main result: for every document, it survives rendering and parsing if and only if it is well-formed. */
  lemma {:induction false} RoundTripIsExact(c: Codecs, d: Doc)
    requires Faithful(c.id) && Faithful(c.time)
    ensures Parse(c, Render(c, d)) == Ok(d) <==> WellFormed(d)
  {
    WellFormedIs(d);
    if Shape(d) {
      RenderLinesOneLine(c, d);
      LinesReadBack(RenderLines(c, d));
      RenderedLinesParse(c, d);
      RenderedIsNotEmpty(c, d);
    } else if Parse(c, Render(c, d)) == Ok(d) {
      ParsedShape(c, Render(c, d), d);
    }
  }

  lemma {:induction false} RenderedIsNotEmpty(c: Codecs, d: Doc)
    ensures Render(c, d) != ""
  {
    assert RenderLines(c, d)[0] == HeaderLines(c, d)[0];
  }

  /** A parsed document already has the shape: it survives exactly when its values, tags, attributes and bodies do. */
  lemma {:induction false} ParsedSurvivesExactly(c: Codecs, input: string, d: Doc)
    requires Faithful(c.id) && Faithful(c.time) && Parse(c, input) == Ok(d)
    ensures Parse(c, Render(c, d)) == Ok(d) <==>
      && HeaderSurvives(d)
      && forall i :: 0 <= i < |d.blocks| ==> AttrsSurvive(d.blocks[i].attrs) && BodyOk(d.blocks[i].text)
  {
    ParsedShape(c, input, d);
    RoundTripIsExact(c, d);
    WellFormedIs(d);
    forall i | 0 <= i < |d.blocks|
      ensures BlockOk(d.blocks[i]) <==> AttrsSurvive(d.blocks[i].attrs) && BodyOk(d.blocks[i].text)
    {
      assert BlockShape(d.blocks[i]);
    }
  }

  function Strokes(n: nat): string {
    seq(n, i requires 0 <= i < n => 'i')
  }

  /** Codecs that read back what they write exist. */
  lemma {:induction false} SomeCodecIsFaithful() returns (codec: Codec)
    ensures Faithful(codec)
  {
    codec := Codec((n: nat) => Strokes(n), (s: string) => Some(|s|));
    forall n: nat
      ensures codec.decode(codec.encode(n)) == Some(n) && IsLine(codec.encode(n)) && !Starts(codec.encode(n), ' ')
    {
      assert |Strokes(n)| == n && forall i :: 0 <= i < n ==> Strokes(n)[i] == 'i';
    }
  }

  // ---- Not every parsed document survives ----

  function Bare(id: nat, title: string, created: nat, updated: nat): Doc {
    Doc(1, id, title, [], [], None, created, updated, [])
  }

  lemma {:induction false} BareHead(d: Doc)
    requires d == Bare(d.id, d.title, d.created, d.updated)
    ensures NewHead().(version := Some(1), id := Some(d.id), title := Some(d.title))
              .(created := Some(d.created), updated := Some(d.updated)) == HeadOf(d)
  {
  }

  lemma {:induction false} BareLinesFeed(c: Codecs, d: Doc, value: string)
    requires Faithful(c.id) && Faithful(c.time) && Unescape(value) == Some(d.title)
    requires d == Bare(d.id, d.title, d.created, d.updated)
    ensures var lines := Stripped(TitleLines(c, d, value)) + Stripped(LastLines(c, d));
      AllHash(lines) && Feed(ReadsHeader(c), NewHead(), lines, 1) == Ok(HeadOf(d))
  {
    var first, last := Stripped(TitleLines(c, d, value)), Stripped(LastLines(c, d));
    var h := NewHead().(version := Some(1), id := Some(d.id), title := Some(d.title));
    TitleLinesFeed(c, d, value, d.title, NewHead(), 1);
    LastLinesFeed(c, d, h, 1 + |first|);
    BareHead(d);
    FeedJoin(ReadsHeader(c), NewHead(), first, last, 1, h, HeadOf(d));
  }

  lemma {:induction false} WithoutBlocksRead(c: Codecs, d: Doc, lines: seq<string>)
    requires AllHash(lines) && Feed(ReadsHeader(c), NewHead(), lines, 1) == Ok(HeadOf(d)) && d.blocks == [] && d.version == 1
    ensures ParseLines(c, lines) == Ok(d)
  {
    assert AllBlockLines(d.blocks) == [];
    assert lines + Stripped(AllBlockLines(d.blocks)) == lines;
    HeaderRead(c, d, lines, d);
  }

  lemma {:induction false} TitleLinesParse(c: Codecs, d: Doc, value: string)
    requires Faithful(c.id) && Faithful(c.time) && Unescape(value) == Some(d.title)
    requires d == Bare(d.id, d.title, d.created, d.updated)
    ensures ParseLines(c, Stripped(TitleLines(c, d, value)) + Stripped(LastLines(c, d))) == Ok(d)
  {
    BareLinesFeed(c, d, value);
    WithoutBlocksRead(c, d, Stripped(TitleLines(c, d, value)) + Stripped(LastLines(c, d)));
  }

  lemma {:induction false} TitleLinesOneLine(c: Codecs, d: Doc, value: string)
    requires Faithful(c.id) && Faithful(c.time) && !Has(value, '\n')
    ensures AllOneLine(TitleLines(c, d, value) + LastLines(c, d))
  {
    FixedKeys();
    OneReads();
    KeyLineOneLine("format_version", Decimal(1));
    KeyLineOneLine("id", c.id.encode(d.id));
    KeyLineOneLine("title", value);
    KeyLineOneLine("created_at", c.time.encode(d.created));
    KeyLineOneLine("updated_at", c.time.encode(d.updated));
    AllOneLineAppend(TitleLines(c, d, value), LastLines(c, d));
  }

  lemma {:induction false} TitleTextParses(c: Codecs, d: Doc, value: string)
    requires Faithful(c.id) && Faithful(c.time) && !Has(value, '\n') && Unescape(value) == Some(d.title)
    requires d == Bare(d.id, d.title, d.created, d.updated)
    ensures Parse(c, Unlines(TitleLines(c, d, value) + LastLines(c, d))) == Ok(d)
  {
    var lines := TitleLines(c, d, value) + LastLines(c, d);
    TitleLinesOneLine(c, d, value);
    LinesReadBack(lines);
    StrippedAppend(TitleLines(c, d, value), LastLines(c, d));
    TitleLinesParse(c, d, value);
    assert lines[0] != "";
  }

  lemma {:induction false} BareRereads(c: Codecs, d: Doc)
    requires Faithful(c.id) && Faithful(c.time) && d == Bare(d.id, d.title, d.created, d.updated) && !Has(d.title, '\n')
    ensures Parse(c, Render(c, d)) == Ok(d.(title := Reread(d.title)))
  {
    TrimKeeps("");
    assert RereadEntries([]) == [];
    RenderedParsesTo(c, d, []);
  }

  /** Parsing, rendering and parsing again can change a document: a bare title `a\"b` gains a backslash. */
  lemma {:induction false} ParsedNeedNotSurvive(c: Codecs, id: nat, created: nat, updated: nat) returns (input: string, d: Doc)
    requires Faithful(c.id) && Faithful(c.time)
    ensures Parse(c, input) == Ok(d)
    ensures Parse(c, Render(c, d)).Ok? && Parse(c, Render(c, d)) != Ok(d)
  {
    var title := SomeTitleGainsBackslash();
    input, d := TitleChanges(c, title, id, created, updated);
  }

  lemma {:induction false} SomeTitleGainsBackslash() returns (title: string)
    ensures Unescape(title) == Some(title) && Unescape(Escape(title)) != Some(title) && !Has(title, '\n')
  {
    BareEscapedQuoteGainsBackslash();
    title := "a\\\"b";
  }

  /** A title that reads as itself but does not survive escaping. */
  lemma {:induction false} TitleChanges(c: Codecs, title: string, id: nat, created: nat, updated: nat) returns (input: string, d: Doc)
    requires Faithful(c.id) && Faithful(c.time) && !Has(title, '\n')
    requires Unescape(title) == Some(title) && Unescape(Escape(title)) != Some(title)
    ensures Parse(c, input) == Ok(d)
    ensures Parse(c, Render(c, d)).Ok? && Parse(c, Render(c, d)) != Ok(d)
  {
    d := Bare(id, title, created, updated);
    input := Unlines(TitleLines(c, d, title) + LastLines(c, d));
    TitleTextParses(c, d, title);
    BareRereads(c, d);
    EscapingIsExact(title);
    assert d.(title := Reread(d.title)).title != d.title;
  }
}
