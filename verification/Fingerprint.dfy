/** The byte string fed to the hasher that fingerprints the ordinary affinity rows, and why it is injective. */
module Fingerprint {
  import opened Prelude
  import opened SignalTables

  type Byte = b: int | 0 <= b < 256
  type Bytes = seq<Byte>

  const TWO_64: int := 0x1_0000_0000_0000_0000
  const TWO_63: int := 0x8000_0000_0000_0000

  function Pow256(width: nat): nat {
    if width == 0 then 1 else 256 * Pow256(width - 1)
  }

  function LittleEndian(n: nat, width: nat): (r: Bytes)
    ensures |r| == width
  {
    if width == 0 then [] else [n % 256] + LittleEndian(n / 256, width - 1)
  }

  function FromLittleEndian(bs: Bytes): nat {
    if bs == [] then 0 else bs[0] + 256 * FromLittleEndian(bs[1..])
  }

  lemma {:induction false} LittleEndianRoundTrip(n: nat, width: nat)
    requires n < Pow256(width)
    ensures FromLittleEndian(LittleEndian(n, width)) == n
  {
    if width > 0 {
      LittleEndianRoundTrip(n / 256, width - 1);
      assert LittleEndian(n, width)[1..] == LittleEndian(n / 256, width - 1);
    }
  }

  lemma {:induction false} EightBytesAreEnough()
    ensures Pow256(8) == TWO_64
  {
    assert Pow256(2) == 0x1_0000;
    assert Pow256(4) == 0x1_0000 * Pow256(2);
    assert Pow256(6) == 0x1_0000 * Pow256(4);
    assert Pow256(8) == 0x1_0000 * Pow256(6);
  }

  /** One hashed value: a length-prefixed text, a tagged optional text, a 64-bit integer or one byte. */
  datatype Field = TextField(text: Bytes) | OptionalField(optional: Option<Bytes>) | IntField(int64: int) | ByteField(byte: Byte)

  ghost predicate FieldFits(f: Field) {
    match f
    case TextField(t) => |t| < TWO_64
    case OptionalField(o) => o.Some? ==> |o.value| < TWO_64
    case IntField(n) => -TWO_63 <= n < TWO_63
    case ByteField(_) => true
  }

  predicate SameShape(f: Field, g: Field) {
    && f.TextField? == g.TextField?
    && f.OptionalField? == g.OptionalField?
    && f.IntField? == g.IntField?
  }

  /** Two's complement, little endian. */
  function Int64Bytes(n: int): Bytes {
    LittleEndian(n % TWO_64, 8)
  }

  function TextBytes(t: Bytes): Bytes {
    Int64Bytes(|t|) + t
  }

  function FieldBytes(f: Field): Bytes {
    match f
    case TextField(t) => TextBytes(t)
    case OptionalField(None) => [0]
    case OptionalField(Some(t)) => [1] + TextBytes(t)
    case IntField(n) => Int64Bytes(n)
    case ByteField(b) => [b]
  }

  lemma {:induction false} ConcatCancels(a: Bytes, x: Bytes, b: Bytes, y: Bytes)
    requires |a| == |b| && a + x == b + y
    ensures a == b && x == y
  {
    assert a == (a + x)[..|a|] && b == (b + y)[..|b|];
    assert x == (a + x)[|a|..] && y == (b + y)[|b|..];
  }

  lemma {:induction false} Int64RoundTrip(n: int)
    ensures FromLittleEndian(Int64Bytes(n)) == n % TWO_64
  {
    EightBytesAreEnough();
    LittleEndianRoundTrip(n % TWO_64, 8);
  }

  lemma {:induction false} WrapDetermines(n: int, m: int)
    requires n % TWO_64 == m % TWO_64
    requires (0 <= n < TWO_64 && 0 <= m < TWO_64) || (-TWO_63 <= n < TWO_63 && -TWO_63 <= m < TWO_63)
    ensures n == m
  {
  }

  lemma {:induction false} Int64Cancels(n: int, x: Bytes, m: int, y: Bytes)
    requires Int64Bytes(n) + x == Int64Bytes(m) + y
    requires (0 <= n < TWO_64 && 0 <= m < TWO_64) || (-TWO_63 <= n < TWO_63 && -TWO_63 <= m < TWO_63)
    ensures n == m && x == y
  {
    ConcatCancels(Int64Bytes(n), x, Int64Bytes(m), y);
    Int64RoundTrip(n);
    Int64RoundTrip(m);
    WrapDetermines(n, m);
  }

  lemma {:induction false} TextCancels(t: Bytes, x: Bytes, u: Bytes, y: Bytes)
    requires TextBytes(t) + x == TextBytes(u) + y && |t| < TWO_64 && |u| < TWO_64
    ensures t == u && x == y
  {
    assert TextBytes(t) + x == Int64Bytes(|t|) + (t + x);
    assert TextBytes(u) + y == Int64Bytes(|u|) + (u + y);
    Int64Cancels(|t|, t + x, |u|, u + y);
    ConcatCancels(t, x, u, y);
  }

  lemma {:induction false} Regroup(a: Bytes, b: Bytes, x: Bytes)
    ensures (a + b) + x == a + (b + x)
  {
  }

  lemma {:induction false} OptionalCancels(o: Option<Bytes>, x: Bytes, p: Option<Bytes>, y: Bytes)
    requires FieldFits(OptionalField(o)) && FieldFits(OptionalField(p))
    requires FieldBytes(OptionalField(o)) + x == FieldBytes(OptionalField(p)) + y
    ensures o == p && x == y
  {
    var restO := if o.Some? then TextBytes(o.value) else [];
    var restP := if p.Some? then TextBytes(p.value) else [];
    var tagO: Bytes := if o.Some? then [1] else [0];
    var tagP: Bytes := if p.Some? then [1] else [0];
    assert FieldBytes(OptionalField(o)) == tagO + restO && FieldBytes(OptionalField(p)) == tagP + restP;
    Regroup(tagO, restO, x);
    Regroup(tagP, restP, y);
    ConcatCancels(tagO, restO + x, tagP, restP + y);
    assert tagO[0] == tagP[0];
    if o.Some? {
      TextCancels(o.value, x, p.value, y);
    } else {
      assert [] + x == x && [] + y == y;
    }
  }

  lemma {:induction false} FieldCancels(f: Field, x: Bytes, g: Field, y: Bytes)
    requires FieldFits(f) && FieldFits(g) && SameShape(f, g)
    requires FieldBytes(f) + x == FieldBytes(g) + y
    ensures f == g && x == y
  {
    match f
    case TextField(t) => TextCancels(t, x, g.text, y);
    case OptionalField(o) => OptionalCancels(o, x, g.optional, y);
    case IntField(n) => Int64Cancels(n, x, g.int64, y);
    case ByteField(b) => ConcatCancels([b], x, [g.byte], y);
  }

  function FieldsBytes(fs: seq<Field>): Bytes {
    if fs == [] then [] else FieldBytes(fs[0]) + FieldsBytes(fs[1..])
  }

  ghost predicate FieldsFit(fs: seq<Field>) {
    fs == [] || (FieldFits(fs[0]) && FieldsFit(fs[1..]))
  }

  ghost predicate SameShapes(fs: seq<Field>, gs: seq<Field>) {
    |fs| == |gs| && (fs == [] || (SameShape(fs[0], gs[0]) && SameShapes(fs[1..], gs[1..])))
  }

  lemma {:induction false} FieldsSplit(fs: seq<Field>, x: Bytes)
    requires fs != []
    ensures FieldsBytes(fs) + x == FieldBytes(fs[0]) + (FieldsBytes(fs[1..]) + x)
    ensures fs == [fs[0]] + fs[1..]
  {
    Regroup(FieldBytes(fs[0]), FieldsBytes(fs[1..]), x);
  }

  lemma {:induction false} FieldsCancel(fs: seq<Field>, x: Bytes, gs: seq<Field>, y: Bytes)
    requires FieldsFit(fs) && FieldsFit(gs) && SameShapes(fs, gs)
    requires FieldsBytes(fs) + x == FieldsBytes(gs) + y
    ensures fs == gs && x == y
  {
    if fs == [] {
      assert x == [] + x && y == [] + y;
    } else {
      FieldsSplit(fs, x);
      FieldsSplit(gs, y);
      FieldCancels(fs[0], FieldsBytes(fs[1..]) + x, gs[0], FieldsBytes(gs[1..]) + y);
      FieldsCancel(fs[1..], x, gs[1..], y);
    }
  }

  // ---- Rows ----

  /** How ids, texts and instants are spelled in the table. */
  datatype Spelling = Spelling(id: Id -> Bytes, text: Text -> Bytes, time: Time -> Bytes)

  /** Distinct values have distinct spellings. */
  ghost predicate Faithful(sp: Spelling) {
    && (forall a, b :: sp.id(a) == sp.id(b) ==> a == b)
    && (forall a, b :: sp.text(a) == sp.text(b) ==> a == b)
    && (forall a, b :: sp.time(a) == sp.time(b) ==> a == b)
  }

  ghost predicate IdFits(sp: Spelling, id: Id) {
    |sp.id(id)| < TWO_64
  }

  ghost predicate TextFits(sp: Spelling, text: Text) {
    |sp.text(text)| < TWO_64
  }

  ghost predicate TimeFits(sp: Spelling, time: Time) {
    |sp.time(time)| < TWO_64
  }

  /** The column types of the count and the dimension hold the values, and the length prefixes what the row spells. */
  ghost predicate RowFits(sp: Spelling, id: Id, a: Affinity) {
    && a.count < 256 && a.dim < TWO_63
    && IdFits(sp, id) && IdFits(sp, a.key.entry)
    && (a.key.block.Some? ==> IdFits(sp, a.key.block.value)) && (a.key.chunk.Some? ==> IdFits(sp, a.key.chunk.value))
    && TextFits(sp, a.key.hash) && TextFits(sp, a.raw) && TextFits(sp, a.effective) && TextFits(sp, a.key.model)
    && TimeFits(sp, a.last) && TimeFits(sp, a.created) && TimeFits(sp, a.updated)
  }

  function SpellOptional(sp: Spelling, id: Option<Id>): Option<Bytes> {
    if id.Some? then Some(sp.id(id.value)) else None
  }

  function RowFields(sp: Spelling, id: Id, a: Affinity): seq<Field> {
    [TextField(sp.id(id)), TextField(sp.text(a.key.hash)), TextField(sp.text(a.raw)), TextField(sp.text(a.effective)),
     TextField(sp.text(a.key.model)), IntField(a.dim), TextField(sp.id(a.key.entry)),
     OptionalField(SpellOptional(sp, a.key.block)), OptionalField(SpellOptional(sp, a.key.chunk)),
     ByteField(a.count % 256), TextField(sp.time(a.last)), TextField(sp.time(a.created)), TextField(sp.time(a.updated))]
  }

  lemma {:induction false} RowFieldsDetermine(sp: Spelling, id: Id, a: Affinity, jd: Id, b: Affinity)
    requires Faithful(sp) && a.count < 256 && b.count < 256 && RowFields(sp, id, a) == RowFields(sp, jd, b)
    ensures id == jd && a == b
  {
    var f, g := RowFields(sp, id, a), RowFields(sp, jd, b);
    assert f[0] == g[0] && f[1] == g[1] && f[2] == g[2] && f[3] == g[3] && f[4] == g[4] && f[5] == g[5] && f[6] == g[6];
    assert f[7] == g[7] && f[8] == g[8] && f[9] == g[9] && f[10] == g[10] && f[11] == g[11] && f[12] == g[12];
  }

  lemma {:induction false} FitPointwise(fs: seq<Field>)
    requires forall i :: 0 <= i < |fs| ==> FieldFits(fs[i])
    ensures FieldsFit(fs)
  {
    if fs != [] {
      FitPointwise(fs[1..]);
    }
  }

  lemma {:induction false} ShapesPointwise(fs: seq<Field>, gs: seq<Field>)
    requires |fs| == |gs| && forall i :: 0 <= i < |fs| ==> SameShape(fs[i], gs[i])
    ensures SameShapes(fs, gs)
  {
    if fs != [] {
      ShapesPointwise(fs[1..], gs[1..]);
    }
  }

  lemma {:induction false} RowFieldsFit(sp: Spelling, id: Id, a: Affinity)
    requires RowFits(sp, id, a)
    ensures FieldsFit(RowFields(sp, id, a))
  {
    var f := RowFields(sp, id, a);
    assert FieldFits(f[7]) && FieldFits(f[8]) && FieldFits(f[9]);
    FitPointwise(f);
  }

  /** One row's bytes determine the row and where the next row starts. */
  lemma {:induction false} RowCancels(sp: Spelling, id: Id, a: Affinity, x: Bytes, jd: Id, b: Affinity, y: Bytes)
    requires Faithful(sp) && RowFits(sp, id, a) && RowFits(sp, jd, b)
    requires FieldsBytes(RowFields(sp, id, a)) + x == FieldsBytes(RowFields(sp, jd, b)) + y
    ensures id == jd && a == b && x == y
  {
    RowFieldsFit(sp, id, a);
    RowFieldsFit(sp, jd, b);
    RowShapes(sp, id, a, jd, b);
    FieldsCancel(RowFields(sp, id, a), x, RowFields(sp, jd, b), y);
    RowFieldsDetermine(sp, id, a, jd, b);
  }

  lemma {:induction false} RowShapes(sp: Spelling, id: Id, a: Affinity, jd: Id, b: Affinity)
    ensures SameShapes(RowFields(sp, id, a), RowFields(sp, jd, b))
  {
    ShapesPointwise(RowFields(sp, id, a), RowFields(sp, jd, b));
  }

  /** The row count and every value that occurs fit the bytes they are written in. */
  ghost predicate TableFits(sp: Spelling, rows: map<Id, Affinity>) {
    |rows| < TWO_64 && forall i :: i in rows ==> RowFits(sp, i, rows[i])
  }

  /** `ORDER BY id`: each row with its id. */
  function RowsBytes(sp: Spelling, rows: map<Id, Affinity>, order: seq<Id>): Bytes
    requires forall i :: i in order ==> i in rows
  {
    if order == [] then []
    else FieldsBytes(RowFields(sp, order[0], rows[order[0]])) + RowsBytes(sp, rows, order[1..])
  }

  const TAG: Bytes := [110, 111, 109, 97, 105, 45, 113, 117, 101, 114, 121, 45, 97, 102, 102, 105, 110, 105, 116, 105, 101, 115, 45, 118, 49]

  /** Everything the hasher sees: the tag, the row count, and the rows by id. */
  function Preimage(sp: Spelling, rows: map<Id, Affinity>): Bytes {
    AscendingMembers(rows.Keys);
    TAG + (Int64Bytes(|rows|) + RowsBytes(sp, rows, Ascending(rows.Keys)))
  }

  lemma {:induction false} FirstRowCancels(sp: Spelling, rows1: map<Id, Affinity>, order1: seq<Id>, rows2: map<Id, Affinity>, order2: seq<Id>)
    requires Faithful(sp) && order1 != [] && order2 != []
    requires (forall i :: i in order1 ==> i in rows1) && forall i :: i in order2 ==> i in rows2
    requires RowFits(sp, order1[0], rows1[order1[0]]) && RowFits(sp, order2[0], rows2[order2[0]])
    requires RowsBytes(sp, rows1, order1) == RowsBytes(sp, rows2, order2)
    ensures order1[0] == order2[0] && rows1[order1[0]] == rows2[order2[0]]
    ensures RowsBytes(sp, rows1, order1[1..]) == RowsBytes(sp, rows2, order2[1..])
  {
    RowCancels(sp, order1[0], rows1[order1[0]], RowsBytes(sp, rows1, order1[1..]),
               order2[0], rows2[order2[0]], RowsBytes(sp, rows2, order2[1..]));
  }

  lemma {:induction false} RowsDetermined(sp: Spelling, rows1: map<Id, Affinity>, order1: seq<Id>, rows2: map<Id, Affinity>, order2: seq<Id>)
    requires Faithful(sp) && |order1| == |order2|
    requires forall i :: i in order1 ==> i in rows1 && RowFits(sp, i, rows1[i])
    requires forall i :: i in order2 ==> i in rows2 && RowFits(sp, i, rows2[i])
    requires RowsBytes(sp, rows1, order1) == RowsBytes(sp, rows2, order2)
    ensures order1 == order2 && forall i :: i in order1 ==> rows1[i] == rows2[i]
  {
    if order1 != [] {
      FirstRowCancels(sp, rows1, order1, rows2, order2);
      RowsDetermined(sp, rows1, order1[1..], rows2, order2[1..]);
      assert order1 == [order1[0]] + order1[1..] && order2 == [order2[0]] + order2[1..];
    }
  }

  /** The row count and the rows are read off the bytes. */
  lemma {:induction false} CountAndRowsCancel(n: nat, x: Bytes, m: nat, y: Bytes)
    requires TAG + (Int64Bytes(n) + x) == TAG + (Int64Bytes(m) + y) && n < TWO_64 && m < TWO_64
    ensures n == m && x == y
  {
    ConcatCancels(TAG, Int64Bytes(n) + x, TAG, Int64Bytes(m) + y);
    Int64Cancels(n, x, m, y);
  }

  lemma {:induction false} SameRows(rows1: map<Id, Affinity>, rows2: map<Id, Affinity>)
    requires Ascending(rows1.Keys) == Ascending(rows2.Keys) && forall i :: i in Ascending(rows1.Keys) && i in rows1 && i in rows2 ==> rows1[i] == rows2[i]
    ensures rows1 == rows2
  {
    AscendingMembers(rows1.Keys);
    AscendingMembers(rows2.Keys);
    forall i
      ensures i in rows1.Keys <==> i in rows2.Keys
    {
      assert i in rows1.Keys <==> i in Ascending(rows1.Keys);
    }
  }

  /** Main result: two tables that feed the hasher the same bytes are the same table. */
  lemma {:induction false} PreimageIsInjective(sp: Spelling, rows1: map<Id, Affinity>, rows2: map<Id, Affinity>)
    requires Faithful(sp) && TableFits(sp, rows1) && TableFits(sp, rows2)
    requires Preimage(sp, rows1) == Preimage(sp, rows2)
    ensures rows1 == rows2
  {
    var o1, o2 := Ascending(rows1.Keys), Ascending(rows2.Keys);
    AscendingMembers(rows1.Keys);
    AscendingMembers(rows2.Keys);
    CountAndRowsCancel(|rows1|, RowsBytes(sp, rows1, o1), |rows2|, RowsBytes(sp, rows2, o2));
    assert |rows1.Keys| == |rows1| && |rows2.Keys| == |rows2|;
    RowsDetermined(sp, rows1, o1, rows2, o2);
    SameRows(rows1, rows2);
  }

  // ---- Such spellings and tables exist ----

  function Ones(n: nat): Bytes {
    if n == 0 then [] else [1] + Ones(n - 1)
  }

  lemma {:induction false} OnesSize(n: nat)
    ensures |Ones(n)| == n && forall b :: b in Ones(n) ==> b == 1
  {
    if n > 0 {
      OnesSize(n - 1);
    }
  }

  function SignedOnes(t: Time): Bytes {
    if t >= 0 then Ones(t) else [0] + Ones(-t)
  }

  function Unary(): Spelling {
    Spelling((n: Id) => Ones(n), (n: Text) => Ones(n), (t: Time) => SignedOnes(t))
  }

  lemma {:induction false} SignedOnesTell(t: Time)
    ensures 0 in SignedOnes(t) <==> t < 0
    ensures |SignedOnes(t)| == if t < 0 then 1 - t else t
  {
    OnesSize(if t >= 0 then t else -t);
    if t < 0 {
      assert SignedOnes(t)[0] == 0;
    }
  }

  /** A faithful spelling and a table with a row that fits it. */
  lemma {:induction false} SomeTableFits(key: Key, count: nat) returns (sp: Spelling, rows: map<Id, Affinity>)
    requires count < 256 && key.entry < 100 && key.hash < 100 && key.model < 100 && key.block.None? && key.chunk.None?
    ensures Faithful(sp) && TableFits(sp, rows) && |rows| == 1
  {
    sp := Unary();
    rows := map[7 := Affinity(key, 1, 2, 3, count, 10, 10, 10)];
    forall a, b | sp.id(a) == sp.id(b)
      ensures a == b
    {
      OnesSize(a);
      OnesSize(b);
    }
    forall a, b | sp.text(a) == sp.text(b)
      ensures a == b
    {
      OnesSize(a);
      OnesSize(b);
    }
    forall a, b | sp.time(a) == sp.time(b)
      ensures a == b
    {
      SignedOnesTell(a);
      SignedOnesTell(b);
    }
    forall n: nat | n < 100
      ensures |Ones(n)| < TWO_64
    {
      OnesSize(n);
    }
    assert RowFits(sp, 7, rows[7]);
  }
}
