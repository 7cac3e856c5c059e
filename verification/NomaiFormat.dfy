/**
 * The `.nomai` document: a header of `#key value` lines and typed blocks `@type key=value ...` with bodies.
 * Ids and instants are numbers; how they are written is a codec the caller supplies.
 */
module NomaiFormat {
  import opened Prelude
  import opened NomaiText
  import opened NomaiFields
  import opened NomaiTags

  datatype BlockType = Claim | Evidence | Question | Source | Note | Connection | Image

  /** A JSON value: a string, or anything else by the text it displays as. */
  datatype Json = Str(text: string) | Other(text: string)

  /** An attribute map is its entries in key order, as a B-tree map holds them. */
  datatype Entry = Entry(key: string, value: Json)

  datatype Block = Block(kind: BlockType, text: string, attrs: seq<Entry>)

  datatype Doc = Doc(version: nat, id: nat, title: string, tags: seq<string>, attrs: seq<Entry>, source: Option<string>,
                     created: nat, updated: nat, blocks: seq<Block>)

  datatype ParseError =
    | EmptyInput
    | MissingHeader(name: string)
    | UnsupportedVersion(version: nat)
    | UnknownBlockType(line: nat, name: string)
    | MissingConnectionAttr(line: nat, name: string)
    | InvalidValue(line: nat, name: string)
    | Syntax(line: nat)

  datatype Codec = Codec(encode: nat -> string, decode: string -> Option<nat>)

  datatype Codecs = Codecs(id: Codec, time: Codec)

  // ---- Block types ----

  function TypeName(t: BlockType): string {
    match t
    case Claim => "claim"
    case Evidence => "evidence"
    case Question => "question"
    case Source => "source"
    case Note => "note"
    case Connection => "connection"
    case Image => "image"
  }

  function TypeOf(s: string): Option<BlockType> {
    match s
    case "claim" => Some(Claim)
    case "evidence" => Some(Evidence)
    case "question" => Some(Question)
    case "source" => Some(Source)
    case "note" => Some(Note)
    case "connection" => Some(Connection)
    case "image" => Some(Image)
    case _ => None
  }

  // ---- Attribute maps ----

  /** Order of the keys: by code point, which is also the order of their UTF-8 bytes. */
  predicate Less(a: string, b: string) {
    b != "" && (a == "" || a[0] < b[0] || (a[0] == b[0] && Less(a[1..], b[1..])))
  }

  ghost predicate SortedKeys(m: seq<Entry>) {
    forall i, j :: 0 <= i < j < |m| ==> Less(m[i].key, m[j].key)
  }

  function Insert(m: seq<Entry>, key: string, value: Json): seq<Entry> {
    if m == [] || Less(m[|m| - 1].key, key) then m + [Entry(key, value)]
    else if m[|m| - 1].key == key then m[..|m| - 1] + [Entry(key, value)]
    else Insert(m[..|m| - 1], key, value) + [m[|m| - 1]]
  }

  predicate HasKey(m: seq<Entry>, key: string) {
    exists i :: 0 <= i < |m| && m[i].key == key
  }

  // ---- Header lines ----

  function FirstSpace(s: string): (k: nat)
    ensures k <= |s| && (k < |s| ==> IsSpace(s[k])) && forall j :: 0 <= j < k ==> !IsSpace(s[j])
  {
    if s == "" || IsSpace(s[0]) then 0
    else
      var k := FirstSpace(s[1..]);
      assert forall j :: 1 <= j < |s| ==> s[j] == s[1..][j - 1];
      k + 1
  }

  function DropBlanks(s: string): string {
    if s != "" && s[0] == ' ' then DropBlanks(s[1..]) else s
  }

  datatype KeyValue = KeyValue(key: string, value: string)

  function SplitKeyValue(s: string): Option<KeyValue> {
    var k := FirstSpace(s);
    if k == |s| then None else Some(KeyValue(s[..k], DropBlanks(s[k + 1..])))
  }

  datatype Field = Version | Id | Title | Created | Updated | Tags | SourceField | Custom

  /** Every key that is not reserved is the document's own. */
  function FieldOf(key: string): Field {
    match key
    case "format_version" => Version
    case "id" => Id
    case "title" => Title
    case "created_at" => Created
    case "updated_at" => Updated
    case "tags" => Tags
    case "source" => SourceField
    case _ => Custom
  }

  predicate IsDigit(c: char) { '0' <= c <= '9' }

  function Digits(s: string): Option<nat> {
    if s == "" then Some(0)
    else if !IsDigit(s[|s| - 1]) then None
    else
      match Digits(s[..|s| - 1])
      case None => None
      case Some(n) => Some(10 * n + (s[|s| - 1] as int - '0' as int))
  }

  /** `parse::<u32>`: an optional plus sign, at least one digit, no overflow. */
  function ParseU32(s: string): Option<nat> {
    var digits := if s != "" && s[0] == '+' then s[1..] else s;
    if digits == "" then None
    else
      match Digits(digits)
      case Some(n) => if n < 0x1_0000_0000 then Some(n) else None
      case None => None
  }

  function Decimal(n: nat): string {
    if n < 10 then ['0' + n as char] else Decimal(n / 10) + ['0' + (n % 10) as char]
  }

  /** The header read so far. */
  datatype Head = Head(version: Option<nat>, id: Option<nat>, title: Option<string>, tags: seq<string>, attrs: seq<Entry>,
                       source: Option<string>, created: Option<nat>, updated: Option<nat>)

  function Assign(c: Codecs, h: Head, key: string, value: string, line: nat): Result<Head, ParseError> {
    match FieldOf(key)
    case Version => (match ParseU32(value) case Some(v) => Ok(h.(version := Some(v))) case None => Err(InvalidValue(line, "format_version")))
    case Id => (match c.id.decode(value) case Some(v) => Ok(h.(id := Some(v))) case None => Err(InvalidValue(line, "id")))
    case Title => (match Unescape(value) case Some(v) => Ok(h.(title := Some(v))) case None => Err(InvalidValue(line, "title")))
    case Created => (match c.time.decode(value) case Some(v) => Ok(h.(created := Some(v))) case None => Err(InvalidValue(line, "created_at")))
    case Updated => (match c.time.decode(value) case Some(v) => Ok(h.(updated := Some(v))) case None => Err(InvalidValue(line, "updated_at")))
    case Tags => (match ParseTags(value) case Some(v) => Ok(h.(tags := v)) case None => Err(InvalidValue(line, "tags")))
    case SourceField => (match Unescape(value) case Some(v) => Ok(h.(source := Some(v))) case None => Err(InvalidValue(line, "source")))
    case Custom => (match Unescape(value) case Some(v) => Ok(h.(attrs := Insert(h.attrs, key, Str(v)))) case None => Err(InvalidValue(line, "attrs")))
  }

  /** One header line, its `#` taken off. */
  function HeaderLine(c: Codecs, h: Head, rest: string, line: nat): Result<Head, ParseError> {
    match SplitKeyValue(rest)
    case None => Err(Syntax(line))
    case Some(kv) => Assign(c, h, kv.key, kv.value, line)
  }

  /** What a line means to a phase: the line without its mark, and its number. */
  type HeaderReader<!S> = (S, string, nat) -> Result<S, ParseError>
  type BlockReader<!H> = (string, nat) -> Result<H, ParseError>

  function ReadsHeader(c: Codecs): HeaderReader<Head> {
    (h: Head, rest: string, line: nat) => HeaderLine(c, h, rest, line)
  }

  datatype HeaderEnd<S> = HeaderEnd(head: S, rest: seq<string>, line: nat)

  predicate Starts(s: string, c: char) {
    s != "" && s[0] == c
  }

  /** Lines up to the first block; `line` numbers the first of them. */
  function Header<S>(step: HeaderReader<S>, h: S, lines: seq<string>, line: nat): Result<HeaderEnd<S>, ParseError>
    decreases |lines|
  {
    if lines == [] || Starts(lines[0], '@') then Ok(HeaderEnd(h, lines, line))
    else if lines[0] == "" then Header(step, h, lines[1..], line + 1)
    else if !Starts(lines[0], '#') then Err(Syntax(line))
    else
      match step(h, lines[0][1..], line)
      case Err(e) => Err(e)
      case Ok(h') => Header(step, h', lines[1..], line + 1)
  }

  /** The first required key that is missing, in the order they are checked. */
  function Lacks(h: Head): Option<ParseError> {
    if h.version.None? then Some(MissingHeader("format_version"))
    else if h.version.value != 1 then Some(UnsupportedVersion(h.version.value))
    else if h.id.None? then Some(MissingHeader("id"))
    else if h.title.None? then Some(MissingHeader("title"))
    else if h.created.None? then Some(MissingHeader("created_at"))
    else if h.updated.None? then Some(MissingHeader("updated_at"))
    else None
  }

  // ---- Blocks ----

  /** One `key=value` token. */
  function AddToken(m: seq<Entry>, token: string, line: nat): Result<seq<Entry>, ParseError> {
    var eq := FirstAt(token, '=');
    if eq == |token| then Err(Syntax(line))
    else
      match Unescape(token[eq + 1..])
      case None => Err(InvalidValue(line, "block_attr"))
      case Some(v) => Ok(Insert(m, token[..eq], Str(v)))
  }

  function AttrsFrom(tokens: seq<string>, line: nat): Result<seq<Entry>, ParseError> {
    if tokens == [] then Ok([])
    else
      match AttrsFrom(tokens[..|tokens| - 1], line)
      case Err(e) => Err(e)
      case Ok(m) => AddToken(m, tokens[|tokens| - 1], line)
  }

  function ParseAttrs(s: string, line: nat): Result<seq<Entry>, ParseError> {
    if Trim(s) == "" then Ok([]) else AttrsFrom(Tokens(Trim(s)), line)
  }

  datatype BlockHead = BlockHead(kind: BlockType, attrs: seq<Entry>)

  function SplitBlockHeader(s: string): KeyValue {
    var k := FirstSpace(s);
    if k == |s| then KeyValue(s, "") else KeyValue(s[..k], TrimStart(s[k..]))
  }

  /** A block line, its `@` taken off. */
  function ParseBlockHead(rest: string, line: nat): Result<BlockHead, ParseError> {
    var parts := SplitBlockHeader(rest);
    match TypeOf(parts.key)
    case None => Err(UnknownBlockType(line, parts.key))
    case Some(kind) =>
      match ParseAttrs(parts.value, line)
      case Err(e) => Err(e)
      case Ok(attrs) =>
        if kind == Connection && !HasKey(attrs, "target") then Err(MissingConnectionAttr(line, "target"))
        else if kind == Connection && !HasKey(attrs, "relation") then Err(MissingConnectionAttr(line, "relation"))
        else Ok(BlockHead(kind, attrs))
  }

  /** Lines before the next block line. */
  function BodySize(lines: seq<string>): (k: nat)
    ensures k <= |lines|
  {
    if lines == [] || Starts(lines[0], '@') then 0 else 1 + BodySize(lines[1..])
  }

  /** An escaped leading `@` loses its backslash. */
  function BodyLine(raw: string): string {
    if |raw| >= 2 && raw[0] == '\\' && raw[1] == '@' then raw[1..] else raw
  }

  function BodyLines(raws: seq<string>): seq<string> {
    seq(|raws|, i requires 0 <= i < |raws| => BodyLine(raws[i]))
  }

  function StripBlank(lines: seq<string>): seq<string> {
    if lines != [] && lines[|lines| - 1] == "" then StripBlank(lines[..|lines| - 1]) else lines
  }

  function Body(raws: seq<string>): string {
    Unlines(StripBlank(BodyLines(raws)))
  }

  /** A block whose body is still its raw lines. */
  datatype RawBlock<H> = RawBlock(head: H, raws: seq<string>)

  function Blocks<H>(headOf: BlockReader<H>, lines: seq<string>, line: nat, done: seq<RawBlock<H>>): Result<seq<RawBlock<H>>, ParseError>
    decreases |lines|
  {
    if lines == [] then Ok(done)
    else if lines[0] == "" then Blocks(headOf, lines[1..], line + 1, done)
    else if !Starts(lines[0], '@') then Err(Syntax(line))
    else
      match headOf(lines[0][1..], line)
      case Err(e) => Err(e)
      case Ok(head) =>
        var k := BodySize(lines[1..]);
        Blocks(headOf, lines[1..][k..], line + 1 + k, done + [RawBlock(head, lines[1..][..k])])
  }

  function ReadsBlock(): BlockReader<BlockHead> {
    (rest: string, line: nat) => ParseBlockHead(rest, line)
  }

  function Finished(raw: RawBlock<BlockHead>): Block {
    Block(raw.head.kind, Body(raw.raws), raw.head.attrs)
  }

  function FinishAll(raws: seq<RawBlock<BlockHead>>): seq<Block> {
    if raws == [] then [] else FinishAll(raws[..|raws| - 1]) + [Finished(raws[|raws| - 1])]
  }

  function NewHead(): Head {
    Head(None, None, None, [], [], None, None, None)
  }

  function Assemble(h: Head, blocks: seq<Block>): Doc
    requires Lacks(h).None?
  {
    Doc(h.version.value, h.id.value, h.title.value, h.tags, h.attrs, h.source, h.created.value, h.updated.value, blocks)
  }

  function ParseLines(c: Codecs, lines: seq<string>): Result<Doc, ParseError> {
    match Header(ReadsHeader(c), NewHead(), lines, 1)
    case Err(e) => Err(e)
    case Ok(end) =>
      if Lacks(end.head).Some? then Err(Lacks(end.head).value)
      else
        match Blocks(ReadsBlock(), end.rest, end.line, [])
        case Err(e) => Err(e)
        case Ok(raws) => Ok(Assemble(end.head, FinishAll(raws)))
  }

  function Parse(c: Codecs, input: string): Result<Doc, ParseError> {
    if input == "" then Err(EmptyInput) else ParseLines(c, Lines(input))
  }

  // ---- Rendering ----

  function KeyLine(key: string, value: string): string {
    "#" + (key + " " + value)
  }

  function AttrLines(m: seq<Entry>): seq<string> {
    seq(|m|, i requires 0 <= i < |m| => KeyLine(m[i].key, Escape(m[i].value.text)))
  }

  function FirstLines(c: Codecs, d: Doc): seq<string> {
    [KeyLine("format_version", Decimal(d.version)), KeyLine("id", c.id.encode(d.id)), KeyLine("title", Escape(d.title))]
  }

  function TagLines(tags: seq<string>): seq<string> {
    if tags == [] then [] else [KeyLine("tags", RenderTags(tags))]
  }

  function SourceLines(source: Option<string>): seq<string> {
    if source.None? then [] else [KeyLine("source", Escape(source.value))]
  }

  function LastLines(c: Codecs, d: Doc): seq<string> {
    [KeyLine("created_at", c.time.encode(d.created)), KeyLine("updated_at", c.time.encode(d.updated))]
  }

  function HeaderLines(c: Codecs, d: Doc): seq<string> {
    FirstLines(c, d) + TagLines(d.tags) + AttrLines(d.attrs) + SourceLines(d.source) + LastLines(c, d)
  }

  function AttrsOf(m: seq<Entry>): seq<Attr> {
    seq(|m|, i requires 0 <= i < |m| => Attr(m[i].key, m[i].value.text))
  }

  function BlockLine(b: Block): string {
    "@" + (TypeName(b.kind) + Spaced(AttrsOf(b.attrs)))
  }

  function RenderLine(line: string): string {
    if Starts(line, '@') then "\\" + line else line
  }

  function RenderBody(text: string): seq<string> {
    var pieces := Pieces(text);
    seq(|pieces|, i requires 0 <= i < |pieces| => RenderLine(pieces[i]))
  }

  function BlockLines(b: Block): seq<string> {
    ["", BlockLine(b)] + RenderBody(b.text)
  }

  function AllBlockLines(blocks: seq<Block>): seq<string> {
    if blocks == [] then [] else BlockLines(blocks[0]) + AllBlockLines(blocks[1..])
  }

  function RenderLines(c: Codecs, d: Doc): seq<string> {
    HeaderLines(c, d) + AllBlockLines(d.blocks)
  }

  function Render(c: Codecs, d: Doc): string {
    Unlines(RenderLines(c, d))
  }

  // ---- Well-formed documents ----

  predicate HeaderValueOk(v: string) {
    ValueSurvives(v) && !Has(v, '\n')
  }

  predicate BodyLineOk(line: string) {
    && !(|line| >= 2 && line[0] == '\\' && line[1] == '@')
    && (line == "" || line[|line| - 1] != '\r')
  }

  /** Empty, or newline-terminated lines of which the last is not blank. */
  predicate BodyOk(text: string) {
    text == "" || (
      && text[|text| - 1] == '\n'
      && Pieces(text) != [] && Pieces(text)[|Pieces(text)| - 1] != ""
      && forall i :: 0 <= i < |Pieces(text)| ==> BodyLineOk(Pieces(text)[i]))
  }

  predicate HeaderEntryOk(e: Entry) {
    e.value.Str? && NoSpace(e.key) && FieldOf(e.key) == Custom && HeaderValueOk(e.value.text)
  }

  /** Block attributes that come back: every value survives by itself, and the scanner finds the tokens written. */
  ghost predicate AttrsSurvive(m: seq<Entry>) {
    && SortedKeys(m)
    && (forall i :: 0 <= i < |m| ==> m[i].value.Str? && !Has(m[i].key, '=') && ValueSurvives(m[i].value.text))
    && Scans(AttrsOf(m))
  }

  predicate EntryOnOneLine(e: Entry) {
    !Has(e.key, '\n') && !Has(e.value.text, '\n')
  }

  ghost predicate BlockOk(b: Block) {
    && AttrsSurvive(b.attrs) && (forall i :: 0 <= i < |b.attrs| ==> EntryOnOneLine(b.attrs[i]))
    && (b.kind == Connection ==> HasKey(b.attrs, "target") && HasKey(b.attrs, "relation"))
    && BodyOk(b.text)
  }

  predicate TagsWritable(tags: seq<string>) {
    TagsOk(tags) && forall i :: 0 <= i < |tags| ==> !Has(tags[i], '\n')
  }

  ghost predicate WellFormed(d: Doc) {
    && d.version == 1
    && HeaderValueOk(d.title)
    && TagsWritable(d.tags)
    && SortedKeys(d.attrs) && (forall i :: 0 <= i < |d.attrs| ==> HeaderEntryOk(d.attrs[i]))
    && (d.source.Some? ==> HeaderValueOk(d.source.value))
    && (forall i :: 0 <= i < |d.blocks| ==> BlockOk(d.blocks[i]))
  }

  /** What is written is read back, and sits on one line after a blank. */
  ghost predicate Faithful(codec: Codec) {
    forall x: nat {:trigger codec.encode(x)} ::
      codec.decode(codec.encode(x)) == Some(x) && IsLine(codec.encode(x)) && !Starts(codec.encode(x), ' ')
  }
}
