/**
 * What the splitter's chunks are made of, for every text: whole paragraphs that fit, whole sentences of the others,
 * and cuts of sentences that are too large; and that no other packing of these pieces needs fewer chunks.
 */
module ChunkPacking {
  import opened Utf8
  import opened Chunking

  // ---- Sentences and paragraphs, by what they rejoin to ----

  /** The pieces, the separator between them. */
  function Rejoin(pieces: seq<string>, sep: string): string {
    if pieces == [] then ""
    else if |pieces| == 1 then pieces[0]
    else pieces[0] + sep + Rejoin(pieces[1..], sep)
  }

  predicate PairAt(s: string, k: nat, a: char, b: char) {
    k + 1 < |s| && s[k] == a && s[k + 1] == b
  }

  ghost predicate HasPair(s: string, a: char, b: char) {
    exists k: nat :: PairAt(s, k, a, b)
  }

  predicate EndsIn(s: string, c: char) {
    s != "" && s[|s| - 1] == c
  }

  /** The pieces rejoin to the text with one space, all but the last end in a period, and none contains a period and a space. */
  ghost predicate SentenceSplit(pieces: seq<string>, s: string) {
    && pieces != [] && Rejoin(pieces, " ") == s
    && (forall i :: 0 <= i < |pieces| - 1 ==> EndsIn(pieces[i], '.'))
    && (forall i :: 0 <= i < |pieces| ==> !HasPair(pieces[i], '.', ' '))
  }

  /** The pieces rejoin to the text with a blank line; none contains one, and none but the last ends in a newline. */
  ghost predicate ParagraphSplit(pieces: seq<string>, s: string) {
    && pieces != [] && Rejoin(pieces, "\n\n") == s
    && (forall i :: 0 <= i < |pieces| - 1 ==> !EndsIn(pieces[i], '\n'))
    && (forall i :: 0 <= i < |pieces| ==> !HasPair(pieces[i], '\n', '\n'))
  }

  /** Nothing is left behind a final separator. */
  function WithoutEmptyEnd(pieces: seq<string>): seq<string>
    requires pieces != []
  {
    if pieces[|pieces| - 1] == "" then pieces[..|pieces| - 1] else pieces
  }

  lemma {:induction false} NoPairBefore(s: string, a: char, b: char, k: nat)
    requires FirstPair(s, a, b) == k
    ensures k == |s| ==> !HasPair(s, a, b)
    ensures !HasPair(s[..k], a, b)
    ensures a != b && k < |s| ==> !HasPair(s[..k + 1], a, b)
    ensures a == b && k < |s| ==> !EndsIn(s[..k], a)
  {
    forall j: nat
      ensures j < k ==> !PairAt(s, j, a, b)
      ensures !PairAt(s[..k], j, a, b)
    {
      assert j + 1 < k ==> s[..k][j] == s[j] && s[..k][j + 1] == s[j + 1];
    }
    if k < |s| {
      NoPairThrough(s, a, b, k);
      assert k > 0 ==> s[..k][k - 1] == s[k - 1];
      assert k > 0 ==> !PairAt(s, k - 1, a, b);
    }
  }

  lemma {:induction false} NoPairThrough(s: string, a: char, b: char, k: nat)
    requires FirstPair(s, a, b) == k < |s|
    ensures a != b ==> !HasPair(s[..k + 1], a, b)
  {
    var head := s[..k + 1];
    forall j: nat
      ensures a != b ==> !PairAt(head, j, a, b)
    {
      assert j + 1 < k + 1 ==> head[j] == s[j] && head[j + 1] == s[j + 1];
    }
  }

  lemma {:induction false} RejoinCons(head: string, rest: seq<string>, sep: string)
    requires rest != []
    ensures Rejoin([head] + rest, sep) == head + sep + Rejoin(rest, sep)
  {
    assert ([head] + rest)[1..] == rest;
  }

  lemma {:induction false} SplitCons(head: string, rest: seq<string>, tail: string, s: string)
    requires EndsIn(head, '.') && !HasPair(head, '.', ' ') && SentenceSplit(rest, tail) && s == head + " " + tail
    ensures SentenceSplit([head] + rest, s)
  {
    RejoinCons(head, rest, " ");
    var all := [head] + rest;
    forall i | 0 <= i < |all|
      ensures !HasPair(all[i], '.', ' ') && (i < |all| - 1 ==> EndsIn(all[i], '.'))
    {
      assert i > 0 ==> all[i] == rest[i - 1];
    }
  }

  /** Main result: the sentences of a text are the pieces of its sentence split, nothing left behind a final one. */
  lemma {:induction false} SentencesAre(s: string) returns (pieces: seq<string>)
    ensures SentenceSplit(pieces, s) && Sentences(s) == WithoutEmptyEnd(pieces)
    decreases |s|
  {
    var k := FirstPair(s, '.', ' ');
    NoPairBefore(s, '.', ' ', k);
    if k < |s| {
      var head, tail := s[..k + 1], s[k + 2..];
      var rest := SentencesAre(tail);
      pieces := [head] + rest;
      assert s == head + " " + tail;
      assert head[|head| - 1] == '.';
      SplitCons(head, rest, tail, s);
      FrontStays(head, rest);
    } else {
      pieces := [s];
    }
  }

  lemma {:induction false} FrontStays(head: string, rest: seq<string>)
    requires rest != []
    ensures WithoutEmptyEnd([head] + rest) == [head] + WithoutEmptyEnd(rest)
  {
    var all := [head] + rest;
    assert all[|all| - 1] == rest[|rest| - 1];
    assert all[..|all| - 1] == [head] + rest[..|rest| - 1];
  }

  lemma {:induction false} ParagraphCons(head: string, rest: seq<string>, tail: string, s: string)
    requires !EndsIn(head, '\n') && !HasPair(head, '\n', '\n') && ParagraphSplit(rest, tail) && s == head + "\n\n" + tail
    ensures ParagraphSplit([head] + rest, s)
  {
    RejoinCons(head, rest, "\n\n");
    var all := [head] + rest;
    forall i | 0 <= i < |all|
      ensures !HasPair(all[i], '\n', '\n') && (i < |all| - 1 ==> !EndsIn(all[i], '\n'))
    {
      assert i > 0 ==> all[i] == rest[i - 1];
    }
  }

  /** The paragraphs of a text are its paragraph split. */
  lemma {:induction false} ParagraphsAre(s: string)
    ensures ParagraphSplit(Paragraphs(s), s)
    decreases |s|
  {
    var k := FirstPair(s, '\n', '\n');
    NoPairBefore(s, '\n', '\n', k);
    if k < |s| {
      assert s == s[..k] + "\n\n" + s[k + 2..];
      ParagraphsAre(s[k + 2..]);
      ParagraphCons(s[..k], Paragraphs(s[k + 2..]), s[k + 2..], s);
    }
  }

  // ---- There is one such split ----

  lemma {:induction false} FirstSentence(pieces: seq<string>, s: string)
    requires SentenceSplit(pieces, s)
    ensures |pieces| == 1 ==> FirstPair(s, '.', ' ') == |s| && pieces[0] == s
    ensures |pieces| > 1 ==>
      var k := FirstPair(s, '.', ' ');
      k < |s| && pieces[0] == s[..k + 1] && SentenceSplit(pieces[1..], s[k + 2..])
  {
    assert !PairAt(pieces[0], FirstPair(s, '.', ' '), '.', ' ');
    if |pieces| > 1 {
      var head, rest := pieces[0], Rejoin(pieces[1..], " ");
      assert s == head + " " + rest && EndsIn(head, '.');
      FirstPairEndsHead(head, rest, s);
      assert s[|head| + 1..] == rest;
      forall i | 0 <= i < |pieces[1..]|
        ensures !HasPair(pieces[1..][i], '.', ' ') && (i < |pieces[1..]| - 1 ==> EndsIn(pieces[1..][i], '.'))
      {
        assert pieces[1..][i] == pieces[i + 1];
      }
    }
  }

  lemma {:induction false} FirstPairEndsHead(head: string, rest: string, s: string)
    requires s == head + " " + rest && EndsIn(head, '.') && !HasPair(head, '.', ' ')
    ensures FirstPair(s, '.', ' ') == |head| - 1 && s[..|head|] == head
  {
    forall j: nat | j < |head| - 1
      ensures !(s[j] == '.' && s[j + 1] == ' ')
    {
      assert !PairAt(head, j, '.', ' ');
    }
    FirstPairAt(s, '.', ' ', |head| - 1);
  }

  /** No other pieces rejoin to the text in this way. */
  lemma {:induction false} SentenceSplitIsUnique(a: seq<string>, b: seq<string>, s: string)
    requires SentenceSplit(a, s) && SentenceSplit(b, s)
    ensures a == b
    decreases |s|
  {
    FirstSentence(a, s);
    FirstSentence(b, s);
    if |a| > 1 {
      SentenceSplitIsUnique(a[1..], b[1..], s[FirstPair(s, '.', ' ') + 2..]);
      assert a == [a[0]] + a[1..] && b == [b[0]] + b[1..];
    } else {
      assert a == [s] && b == [s];
    }
  }

  lemma {:induction false} FirstParagraph(pieces: seq<string>, s: string)
    requires ParagraphSplit(pieces, s)
    ensures |pieces| == 1 ==> FirstPair(s, '\n', '\n') == |s| && pieces[0] == s
    ensures |pieces| > 1 ==>
      var k := FirstPair(s, '\n', '\n');
      k < |s| && pieces[0] == s[..k] && ParagraphSplit(pieces[1..], s[k + 2..])
  {
    assert !PairAt(pieces[0], FirstPair(s, '\n', '\n'), '\n', '\n');
    if |pieces| > 1 {
      var head, rest := pieces[0], Rejoin(pieces[1..], "\n\n");
      assert s == head + "\n\n" + rest && !EndsIn(head, '\n');
      BlankLineEndsHead(head, rest, s);
      assert s[|head| + 2..] == rest;
      forall i | 0 <= i < |pieces[1..]|
        ensures !HasPair(pieces[1..][i], '\n', '\n') && (i < |pieces[1..]| - 1 ==> !EndsIn(pieces[1..][i], '\n'))
      {
        assert pieces[1..][i] == pieces[i + 1];
      }
    }
  }

  lemma {:induction false} BlankLineEndsHead(head: string, rest: string, s: string)
    requires s == head + "\n\n" + rest && !EndsIn(head, '\n') && !HasPair(head, '\n', '\n')
    ensures FirstPair(s, '\n', '\n') == |head| && s[..|head|] == head
  {
    forall j: nat | j < |head|
      ensures !(s[j] == '\n' && s[j + 1] == '\n')
    {
      assert !PairAt(head, j, '\n', '\n');
    }
    FirstPairAt(s, '\n', '\n', |head|);
  }

  lemma {:induction false} ParagraphSplitIsUnique(a: seq<string>, b: seq<string>, s: string)
    requires ParagraphSplit(a, s) && ParagraphSplit(b, s)
    ensures a == b
    decreases |s|
  {
    FirstParagraph(a, s);
    FirstParagraph(b, s);
    if |a| > 1 {
      ParagraphSplitIsUnique(a[1..], b[1..], s[FirstPair(s, '\n', '\n') + 2..]);
      assert a == [a[0]] + a[1..] && b == [b[0]] + b[1..];
    } else {
      assert a == [s] && b == [s];
    }
  }

  // ---- Hard cuts are as long as they can be ----

  /** Consecutive cuts: the next one's first character did not fit any more. */
  predicate CutsFull(cuts: seq<string>, target: nat) {
    && (forall i :: 0 <= i < |cuts| ==> cuts[i] != "")
    && forall i :: 0 <= i < |cuts| - 1 ==> FullAt(cuts, i, target)
  }

  predicate FullAt(cuts: seq<string>, i: nat, target: nat)
    requires i + 1 < |cuts|
  {
    cuts[i + 1] != "" && Bytes(cuts[i]) + CharBytes(cuts[i + 1][0]) > target
  }

  lemma {:induction false} CutsFullStep(p: Packer, c: char, target: nat)
    requires CutsFull(Flush(p).chunks, target) && (p.current == "" ==> p.chunks == [])
    ensures var q := Cut(p, c, target); CutsFull(Flush(q).chunks, target) && q.current != ""
  {
    var before, q := Flush(p).chunks, Cut(p, c, target);
    if p.current != "" && Bytes(p.current) + CharBytes(c) <= target {
      LastCutGrows(p.chunks, p.current, c, target);
    } else {
      assert "" + [c] == [c];
      assert Flush(q).chunks == before + [[c]];
      NewCut(before, c, target);
    }
  }

  lemma {:induction false} LastCutGrows(cuts: seq<string>, last: string, c: char, target: nat)
    requires last != "" && CutsFull(cuts + [last], target)
    ensures CutsFull(cuts + [last + [c]], target)
  {
    var before, after := cuts + [last], cuts + [last + [c]];
    forall i | 0 <= i < |cuts|
      ensures FullAt(after, i, target) && after[i] != ""
    {
      assert FullAt(before, i, target) && after[i] == before[i];
    }
  }

  lemma {:induction false} NewCut(cuts: seq<string>, c: char, target: nat)
    requires CutsFull(cuts, target) && (cuts != [] ==> Bytes(cuts[|cuts| - 1]) + CharBytes(c) > target)
    ensures CutsFull(cuts + [[c]], target)
  {
    var after := cuts + [[c]];
    forall i | 0 <= i < |cuts|
      ensures FullAt(after, i, target)
    {
      assert i < |cuts| - 1 ==> FullAt(cuts, i, target);
    }
  }

  lemma {:induction false} CutsFullAll(s: string, target: nat)
    ensures var p := Cuts(Packer([], ""), s, target); CutsFull(Flush(p).chunks, target) && (p.current == "" ==> p.chunks == [])
  {
    if s != "" {
      CutsFullAll(s[..|s| - 1], target);
      CutsFullStep(Cuts(Packer([], ""), s[..|s| - 1], target), s[|s| - 1], target);
    }
  }

  /** Every cut but the last was as long as the target allows. */
  lemma {:induction false} HardSplitIsFull(s: string, target: nat)
    ensures CutsFull(HardSplit(s, target), target) && Concat(HardSplit(s, target)) == s && AllBounded(HardSplit(s, target), target)
  {
    CutsFullAll(s, target);
    HardSplitHolds(s, target);
    HardSplitBounded(s, target);
  }

  // ---- What is packed ----

  /** A piece that is never cut further; `opens`: it must begin a chunk, otherwise `sep` joins it to what is before. */
  datatype Atom = Atom(text: string, sep: string, opens: bool)

  function CutAtoms(cuts: seq<string>): seq<Atom> {
    seq(|cuts|, i requires 0 <= i < |cuts| => Atom(cuts[i], " ", true))
  }

  /** A sentence begins a chunk when it is the paragraph's first or the one before it was cut. */
  function SentenceAtoms(sentences: seq<string>, target: nat): seq<Atom> {
    if sentences == [] then []
    else
      var init, last := sentences[..|sentences| - 1], sentences[|sentences| - 1];
      SentenceAtoms(init, target) +
      if Bytes(last) > target then CutAtoms(HardSplit(last, target)) else [Atom(last, " ", AfterCut(init, target))]
  }

  /** Nothing stands before, or the last sentence before was cut. */
  predicate AfterCut(sentences: seq<string>, target: nat) {
    sentences == [] || Bytes(sentences[|sentences| - 1]) > target
  }

  /** Nothing stands before, or the last paragraph before ended in a sentence that was cut. */
  predicate AfterCutParagraph(paras: seq<string>, target: nat) {
    paras == [] || (Bytes(paras[|paras| - 1]) > target && AfterCut(Sentences(paras[|paras| - 1]), target))
  }

  /** Paragraphs that fit, whole; the sentences of the others, whole when they fit; and the cuts of those that do not. */
  function Atoms(paras: seq<string>, target: nat): seq<Atom> {
    if paras == [] then []
    else
      var init, last := paras[..|paras| - 1], paras[|paras| - 1];
      Atoms(init, target) +
      if Bytes(last) > target then SentenceAtoms(Sentences(last), target) else [Atom(last, "\n\n", AfterCutParagraph(init, target))]
  }

  /** A group as one chunk. */
  function Together(group: seq<Atom>): string {
    if group == [] then "" else Joined(Together(group[..|group| - 1]), group[|group| - 1].sep, group[|group| - 1].text)
  }

  /** Nonempty groups that no opening atom extends, within the target unless they are one atom. */
  predicate GroupOk(group: seq<Atom>, target: nat) {
    && group != []
    && (forall j :: 0 < j < |group| ==> !group[j].opens)
    && (|group| > 1 ==> Bytes(Together(group)) <= target)
  }

  predicate GroupsOk(groups: seq<seq<Atom>>, target: nat) {
    forall i :: 0 <= i < |groups| ==> GroupOk(groups[i], target)
  }

  predicate Solid(atoms: seq<Atom>) {
    forall i :: 0 <= i < |atoms| ==> atoms[i].text != ""
  }

  // ---- The packer over atoms ----

  function AddAtom(p: Packer, a: Atom, target: nat): Packer {
    if a.opens || !Fits(p, a.sep, a.text, target) then Flush(p).(current := a.text)
    else p.(current := Joined(p.current, a.sep, a.text))
  }

  function AddAtoms(p: Packer, atoms: seq<Atom>, target: nat): Packer {
    if atoms == [] then p else AddAtom(AddAtoms(p, atoms[..|atoms| - 1], target), atoms[|atoms| - 1], target)
  }

  lemma {:induction false} AddAtomsAppend(p: Packer, a: seq<Atom>, b: seq<Atom>, target: nat)
    ensures AddAtoms(p, a + b, target) == AddAtoms(AddAtoms(p, a, target), b, target)
  {
    if b == [] {
      assert a + b == a;
    } else {
      assert (a + b)[..|a + b| - 1] == a + b[..|b| - 1];
      AddAtomsAppend(p, a, b[..|b| - 1], target);
    }
  }

  lemma {:induction false} AddAtomsOne(p: Packer, a: Atom, target: nat)
    ensures AddAtoms(p, [a], target) == AddAtom(p, a, target)
  {
    assert [a][..0] == [];
    assert AddAtoms(p, [], target) == p;
  }

  /** The same chunks; behind a cut the atoms keep the last cut open where the splitter has closed it. */
  ghost predicate Alike(p: Packer, q: Packer, closed: bool) {
    Flush(p) == Flush(q) && (closed <==> p.current == "") && (!closed ==> p == q)
  }

  lemma {:induction false} AlikeCuts(q: Packer, cuts: seq<string>, target: nat)
    requires forall i :: 0 <= i < |cuts| ==> cuts[i] != ""
    ensures Flush(AddAtoms(q, CutAtoms(cuts), target)) == Packer(Flush(q).chunks + cuts, "")
  {
    if cuts == [] {
      assert AddAtoms(q, CutAtoms(cuts), target) == q;
      assert Flush(q).chunks + cuts == Flush(q).chunks;
    } else {
      var init, last := cuts[..|cuts| - 1], cuts[|cuts| - 1];
      AlikeCuts(q, init, target);
      assert CutAtoms(cuts) == CutAtoms(init) + [Atom(last, " ", true)];
      AddAtomsAppend(q, CutAtoms(init), [Atom(last, " ", true)], target);
      AddAtomsOne(AddAtoms(q, CutAtoms(init), target), Atom(last, " ", true), target);
      assert Flush(q).chunks + init + [last] == Flush(q).chunks + cuts;
    }
  }

  lemma {:induction false} AlikeSentence(p: Packer, q: Packer, s: string, closed: bool, target: nat)
    requires Alike(p, q, closed) && s != ""
    ensures var atoms := if Bytes(s) > target then CutAtoms(HardSplit(s, target)) else [Atom(s, " ", closed)];
      Alike(AddSentence(p, s, target), AddAtoms(q, atoms, target), Bytes(s) > target)
  {
    BytesPositive(p.current);
    if Bytes(s) > target {
      HardSplitIsFull(s, target);
      AlikeCuts(q, HardSplit(s, target), target);
      assert !Fits(p, " ", s, target);
    } else {
      AddAtomsOne(q, Atom(s, " ", closed), target);
      AlikeWhole(p, q, " ", s, closed, target);
    }
  }

  /** A piece that fits the target goes the same way. */
  lemma {:induction false} AlikeWhole(p: Packer, q: Packer, sep: string, piece: string, closed: bool, target: nat)
    requires Alike(p, q, closed) && piece != "" && Bytes(piece) <= target
    ensures var p' := if Fits(p, sep, piece, target) then p.(current := Joined(p.current, sep, piece)) else Flush(p).(current := piece);
      p' == AddAtom(q, Atom(piece, sep, closed), target) && Alike(p', AddAtom(q, Atom(piece, sep, closed), target), false)
  {
    if closed {
      assert Bytes("") == 0;
      assert Flush(p) == p;
    }
    var p' := if Fits(p, sep, piece, target) then p.(current := Joined(p.current, sep, piece)) else Flush(p).(current := piece);
    assert p'.current != "";
  }

  lemma {:induction false} AlikeSentences(p: Packer, q: Packer, sentences: seq<string>, target: nat)
    requires Alike(p, q, true) && forall i :: 0 <= i < |sentences| ==> sentences[i] != ""
    ensures Alike(AddSentences(p, sentences, target), AddAtoms(q, SentenceAtoms(sentences, target), target), AfterCut(sentences, target))
  {
    if sentences == [] {
      assert AddAtoms(q, SentenceAtoms(sentences, target), target) == q;
    } else {
      var init, last := sentences[..|sentences| - 1], sentences[|sentences| - 1];
      AlikeSentences(p, q, init, target);
      AlikeSentence(AddSentences(p, init, target), AddAtoms(q, SentenceAtoms(init, target), target), last, AfterCut(init, target), target);
      AddAtomsAppend(q, SentenceAtoms(init, target),
                     if Bytes(last) > target then CutAtoms(HardSplit(last, target)) else [Atom(last, " ", AfterCut(init, target))], target);
    }
  }

  lemma {:induction false} SentencesSolid(s: string)
    ensures forall i :: 0 <= i < |Sentences(s)| ==> Sentences(s)[i] != ""
    ensures s != "" ==> Sentences(s) != []
  {
    var pieces := SentencesAre(s);
    forall i | 0 <= i < |Sentences(s)|
      ensures Sentences(s)[i] != ""
    {
      assert i < |pieces| - 1 ==> EndsIn(pieces[i], '.');
    }
  }

  lemma {:induction false} AlikeParagraph(p: Packer, q: Packer, para: string, closed: bool, target: nat)
    requires Alike(p, q, closed) && para != ""
    ensures var atoms := if Bytes(para) > target then SentenceAtoms(Sentences(para), target) else [Atom(para, "\n\n", closed)];
      Alike(AddParagraph(p, para, target), AddAtoms(q, atoms, target), Bytes(para) > target && AfterCut(Sentences(para), target))
  {
    if Bytes(para) > target {
      SentencesSolid(para);
      assert Alike(Flush(p), q, true);
      AlikeSentences(Flush(p), q, Sentences(para), target);
    } else {
      AddAtomsOne(q, Atom(para, "\n\n", closed), target);
      AlikeWhole(p, q, "\n\n", para, closed, target);
    }
  }

  lemma {:induction false} AlikeParagraphs(paras: seq<string>, target: nat)
    requires forall i :: 0 <= i < |paras| ==> paras[i] != ""
    ensures Alike(AddParagraphs(Packer([], ""), paras, target), AddAtoms(Packer([], ""), Atoms(paras, target), target),
                  AfterCutParagraph(paras, target))
  {
    if paras != [] {
      var init, last := paras[..|paras| - 1], paras[|paras| - 1];
      AlikeParagraphs(init, target);
      AlikeParagraph(AddParagraphs(Packer([], ""), init, target), AddAtoms(Packer([], ""), Atoms(init, target), target), last,
                     AfterCutParagraph(init, target), target);
      AddAtomsAppend(Packer([], ""), Atoms(init, target),
                     if Bytes(last) > target then SentenceAtoms(Sentences(last), target) else [Atom(last, "\n\n", AfterCutParagraph(init, target))], target);
    }
  }

  lemma {:induction false} NonEmptyHolds(paras: seq<string>)
    ensures forall i :: 0 <= i < |NonEmpty(paras)| ==> NonEmpty(paras)[i] != ""
    ensures forall para :: para in NonEmpty(paras) <==> para in paras && para != ""
  {
    if paras != [] {
      NonEmptyHolds(paras[..|paras| - 1]);
      assert paras == paras[..|paras| - 1] + [paras[|paras| - 1]];
    }
  }

  /** The atoms of a text larger than the target. */
  function AtomsOf(text: string, target: nat): seq<Atom> {
    Atoms(NonEmpty(Paragraphs(text)), target)
  }

  /** The splitter packs the atoms. */
  lemma {:induction false} ChunksPackAtoms(text: string, target: nat)
    requires Bytes(text) > target
    ensures ChunkText(text, target) == Flush(AddAtoms(Packer([], ""), AtomsOf(text, target), target)).chunks
  {
    SkipEmpty(Packer([], ""), Paragraphs(text), target);
    NonEmptyHolds(Paragraphs(text));
    AlikeParagraphs(NonEmpty(Paragraphs(text)), target);
  }

  // ---- No packing of the atoms needs fewer chunks ----

  lemma {:induction false} AddAtomsPush(p: Packer, atoms: seq<Atom>, a: Atom, target: nat)
    ensures AddAtoms(p, atoms + [a], target) == AddAtom(AddAtoms(p, atoms, target), a, target)
  {
    assert (atoms + [a])[..|atoms|] == atoms;
  }

  lemma {:induction false} AtomsOpen(atoms: seq<Atom>, target: nat)
    requires Solid(atoms) && atoms != []
    ensures AddAtoms(Packer([], ""), atoms, target).current != ""
  {
  }

  lemma {:induction false} AtomOpensGroup(p: Packer, a: Atom, target: nat, started: nat, load: nat)
    requires a.text != "" && NotBehind(p, started, load)
    ensures NotBehind(AddAtom(p, a, target), started + 1, Bytes(a.text))
  {
    JoinedBytes(p.current, a.sep, a.text);
    BytesPositive(p.current);
  }

  lemma {:induction false} AtomExtendsGroup(p: Packer, a: Atom, target: nat, started: nat, group: string)
    requires a.text != "" && !a.opens && group != "" && Bytes(Joined(group, a.sep, a.text)) <= target
    requires NotBehind(p, started, Bytes(group)) && p.current != ""
    ensures NotBehind(AddAtom(p, a, target), started, Bytes(Joined(group, a.sep, a.text)))
  {
    JoinedBytes(p.current, a.sep, a.text);
    JoinedBytes(group, a.sep, a.text);
    BytesPositive(p.current);
  }

  lemma {:induction false} TogetherPush(group: seq<Atom>, a: Atom)
    ensures Together(group + [a]) == Joined(Together(group), a.sep, a.text)
    ensures a.text != "" ==> Together(group + [a]) != ""
  {
    assert (group + [a])[..|group|] == group;
  }

  lemma {:induction false} TogetherSolid(group: seq<Atom>)
    requires group != [] && group[|group| - 1].text != ""
    ensures Together(group) != ""
  {
  }

  function LoadOf(groups: seq<seq<Atom>>): nat {
    if groups == [] then 0 else Bytes(Together(groups[|groups| - 1]))
  }

  lemma {:induction false} SolidPrefix(atoms: seq<Atom>, a: Atom)
    requires Solid(atoms + [a])
    ensures Solid(atoms) && a.text != ""
  {
    assert (atoms + [a])[|atoms|] == a;
    assert forall i :: 0 <= i < |atoms| ==> atoms[i] == (atoms + [a])[i];
  }

  lemma {:induction false} GroupsPrefix(before: seq<seq<Atom>>, last: seq<Atom>, target: nat)
    requires GroupsOk(before + [last], target)
    ensures GroupsOk(before, target) && GroupOk(last, target)
  {
    assert forall i :: 0 <= i < |before| ==> (before + [last])[i] == before[i];
    assert (before + [last])[|before|] == last;
  }

  lemma {:induction false} GroupShrinks(init: seq<Atom>, a: Atom, target: nat)
    requires GroupOk(init + [a], target) && init != []
    ensures GroupOk(init, target) && !a.opens && Bytes(Joined(Together(init), a.sep, a.text)) <= target
  {
    var group := init + [a];
    TogetherPush(init, a);
    assert group[|init|] == a;
    assert forall j :: 0 < j < |init| ==> group[j] == init[j];
    JoinedBytes(Together(init), a.sep, a.text);
  }

  /** The packer is never behind an admissible grouping of the atoms. */
  lemma {:induction false} AtomsNotBehind(groups: seq<seq<Atom>>, target: nat)
    requires GroupsOk(groups, target) && Solid(Concat(groups))
    ensures NotBehind(AddAtoms(Packer([], ""), Concat(groups), target), |groups|, LoadOf(groups))
    decreases |Concat(groups)|, |groups|
  {
    if groups != [] {
      var before, last := groups[..|groups| - 1], groups[|groups| - 1];
      assert groups == before + [last];
      GroupsPrefix(before, last, target);
      var init, a := last[..|last| - 1], last[|last| - 1];
      assert last == init + [a];
      AtomsStep(before, init, a, target);
    }
  }

  lemma {:induction false} AtomsStep(before: seq<seq<Atom>>, init: seq<Atom>, a: Atom, target: nat)
    requires var groups := before + [init + [a]]; GroupsOk(groups, target) && Solid(Concat(groups))
    ensures var groups := before + [init + [a]];
      NotBehind(AddAtoms(Packer([], ""), Concat(groups), target), |groups|, LoadOf(groups))
    decreases |Concat(before + [init + [a]])|, 0
  {
    var atoms := Concat(before) + init;
    var q := AddAtoms(Packer([], ""), atoms, target);
    GroupItems(before, init, a);
    SolidPrefix(atoms, a);
    AddAtomsPush(Packer([], ""), atoms, a, target);
    TogetherPush(init, a);
    GroupsPrefix(before, init + [a], target);
    if init == [] {
      assert atoms == Concat(before);
      AtomsNotBehind(before, target);
      AtomOpensGroup(q, a, target, |before|, LoadOf(before));
    } else {
      ConcatPush(before, init);
      GroupShrinks(init, a, target);
      GroupsKept(before, init, target);
      AtomsNotBehind(before + [init], target);
      AtomsOpen(atoms, target);
      assert atoms[|atoms| - 1] == init[|init| - 1];
      TogetherSolid(init);
      AtomExtendsGroup(q, a, target, |before| + 1, Together(init));
    }
  }

  lemma {:induction false} GroupsKept(before: seq<seq<Atom>>, last: seq<Atom>, target: nat)
    requires GroupsOk(before, target) && GroupOk(last, target)
    ensures GroupsOk(before + [last], target)
  {
  }

  lemma {:induction false} CutAtomsSolid(cuts: seq<string>)
    requires forall i :: 0 <= i < |cuts| ==> cuts[i] != ""
    ensures Solid(CutAtoms(cuts))
  {
  }

  lemma {:induction false} SentenceAtomsSolid(sentences: seq<string>, target: nat)
    requires forall i :: 0 <= i < |sentences| ==> sentences[i] != ""
    ensures Solid(SentenceAtoms(sentences, target))
  {
    if sentences != [] {
      var init, last := sentences[..|sentences| - 1], sentences[|sentences| - 1];
      SentenceAtomsSolid(init, target);
      HardSplitIsFull(last, target);
      CutAtomsSolid(HardSplit(last, target));
    }
  }

  lemma {:induction false} AtomsSolid(paras: seq<string>, target: nat)
    requires forall i :: 0 <= i < |paras| ==> paras[i] != ""
    ensures Solid(Atoms(paras, target))
  {
    if paras != [] {
      var init, last := paras[..|paras| - 1], paras[|paras| - 1];
      AtomsSolid(init, target);
      SentencesSolid(last);
      SentenceAtomsSolid(Sentences(last), target);
    }
  }

  /** Main result: for every text above the target, no admissible grouping of its atoms has fewer groups than there are chunks. */
  lemma {:induction false} NoFewerChunks(text: string, target: nat, groups: seq<seq<Atom>>)
    requires Bytes(text) > target && Concat(groups) == AtomsOf(text, target) && GroupsOk(groups, target)
    ensures |ChunkText(text, target)| <= |groups|
  {
    ChunksPackAtoms(text, target);
    NonEmptyHolds(Paragraphs(text));
    AtomsSolid(NonEmpty(Paragraphs(text)), target);
    AtomsNotBehind(groups, target);
  }

  // ---- The chunks are such a grouping ----

  ghost predicate Groups(p: Packer, groups: seq<seq<Atom>>, atoms: seq<Atom>, target: nat) {
    && Concat(groups) == atoms && GroupsOk(groups, target)
    && |Flush(p).chunks| == |groups|
    && forall i :: 0 <= i < |groups| ==> Together(groups[i]) == Flush(p).chunks[i]
  }

  lemma {:induction false} GroupExtends(p: Packer, groups: seq<seq<Atom>>, atoms: seq<Atom>, a: Atom, target: nat)
      returns (more: seq<seq<Atom>>)
    requires Groups(p, groups, atoms, target) && p.current != "" && a.text != "" && !a.opens && Fits(p, a.sep, a.text, target)
    ensures Groups(p.(current := Joined(p.current, a.sep, a.text)), more, atoms + [a], target)
  {
    var n := |groups| - 1;
    more := groups[..n] + [groups[n] + [a]];
    TogetherPush(groups[n], a);
    assert groups == groups[..n] + [groups[n]];
    ConcatPush(groups[..n], groups[n]);
    GroupItems(groups[..n], groups[n], a);
    GroupsPrefix(groups[..n], groups[n], target);
    GroupGrows(groups[n], a, target, p.current);
    GroupsKept(groups[..n], groups[n] + [a], target);
    MoreTogether(p, groups, more, a);
  }

  lemma {:induction false} GroupGrows(group: seq<Atom>, a: Atom, target: nat, current: string)
    requires GroupOk(group, target) && !a.opens && Together(group) == current
    requires Bytes(current) + ((if current == "" then 0 else Bytes(a.sep)) + Bytes(a.text)) <= target
    ensures GroupOk(group + [a], target)
  {
    TogetherPush(group, a);
    JoinedBytes(current, a.sep, a.text);
    assert forall j :: 0 < j < |group| ==> (group + [a])[j] == group[j];
  }

  lemma {:induction false} MoreTogether(p: Packer, groups: seq<seq<Atom>>, more: seq<seq<Atom>>, a: Atom)
    requires groups != [] && |Flush(p).chunks| == |groups| && p.current != "" && a.text != ""
    requires forall i :: 0 <= i < |groups| ==> Together(groups[i]) == Flush(p).chunks[i]
    requires more == groups[..|groups| - 1] + [groups[|groups| - 1] + [a]]
    ensures var chunks := Flush(p.(current := Joined(p.current, a.sep, a.text))).chunks;
      |chunks| == |more| && forall i :: 0 <= i < |more| ==> Together(more[i]) == chunks[i]
  {
    TogetherPush(groups[|groups| - 1], a);
  }

  lemma {:induction false} GroupOpens(p: Packer, groups: seq<seq<Atom>>, atoms: seq<Atom>, a: Atom, target: nat)
    requires Groups(p, groups, atoms, target) && a.text != ""
    ensures Groups(Flush(p).(current := a.text), groups + [[a]], atoms + [a], target)
  {
    TogetherPush([], a);
    assert [] + [a] == [a];
    ConcatPush(groups, [a]);
    GroupsKept(groups, [a], target);
  }

  lemma {:induction false} AtomGroups(atoms: seq<Atom>, target: nat) returns (groups: seq<seq<Atom>>)
    requires Solid(atoms)
    ensures Groups(AddAtoms(Packer([], ""), atoms, target), groups, atoms, target)
  {
    if atoms == [] {
      groups := [];
    } else {
      var init, a := atoms[..|atoms| - 1], atoms[|atoms| - 1];
      assert atoms == init + [a];
      var q := AddAtoms(Packer([], ""), init, target);
      var before := AtomGroups(init, target);
      if !a.opens && q.current != "" && Fits(q, a.sep, a.text, target) {
        groups := GroupExtends(q, before, init, a, target);
      } else {
        groups := before + [[a]];
        GroupOpens(q, before, init, a, target);
        assert q.current == "" ==> Flush(q) == q;
      }
    }
  }

  /** Main result: and the chunks are themselves such a grouping, so they are as few as can be. */
  lemma {:induction false} ChunksAreGroups(text: string, target: nat) returns (groups: seq<seq<Atom>>)
    requires Bytes(text) > target
    ensures Concat(groups) == AtomsOf(text, target) && GroupsOk(groups, target)
    ensures |groups| == |ChunkText(text, target)|
    ensures forall i :: 0 <= i < |groups| ==> ChunkText(text, target)[i] == Together(groups[i])
  {
    ChunksPackAtoms(text, target);
    NonEmptyHolds(Paragraphs(text));
    AtomsSolid(NonEmpty(Paragraphs(text)), target);
    groups := AtomGroups(AtomsOf(text, target), target);
  }

  // ---- Only sentences above the target are cut ----

  /** A whole paragraph, a whole sentence of an oversized one, or a cut of an oversized sentence. */
  ghost predicate WholeOrCut(text: string, a: Atom, target: nat) {
    exists para :: para in Paragraphs(text) && (WholeParagraph(para, a, target) || FromSentence(para, a, target))
  }

  predicate WholeParagraph(para: string, a: Atom, target: nat) {
    para != "" && Bytes(para) <= target && a.text == para
  }

  ghost predicate FromSentence(para: string, a: Atom, target: nat) {
    && Bytes(para) > target
    && exists s :: s in Sentences(para) && (if Bytes(s) <= target then a.text == s else a.opens && a.text in HardSplit(s, target))
  }

  lemma {:induction false} SentenceAtomsFrom(para: string, sentences: seq<string>, target: nat)
    requires Bytes(para) > target && forall s :: s in sentences ==> s in Sentences(para)
    ensures forall a :: a in SentenceAtoms(sentences, target) ==> FromSentence(para, a, target)
  {
    if sentences != [] {
      var init, last := sentences[..|sentences| - 1], sentences[|sentences| - 1];
      SentenceAtomsFrom(para, init, target);
      assert last in sentences;
    }
  }

  lemma {:induction false} AtomsFrom(text: string, paras: seq<string>, target: nat)
    requires forall para :: para in paras ==> para in Paragraphs(text) && para != ""
    ensures forall a :: a in Atoms(paras, target) ==> WholeOrCut(text, a, target)
  {
    if paras != [] {
      var init, last := paras[..|paras| - 1], paras[|paras| - 1];
      assert last in paras && forall para :: para in init ==> para in paras;
      AtomsFrom(text, init, target);
      if Bytes(last) > target {
        SentenceAtomsFrom(last, Sentences(last), target);
      } else {
        assert WholeParagraph(last, Atom(last, "\n\n", AfterCutParagraph(init, target)), target);
      }
    }
  }

  /** Every atom is a whole paragraph, a whole sentence, or a cut of a sentence above the target. */
  lemma {:induction false} OnlyLongSentencesAreCut(text: string, target: nat)
    ensures forall a :: a in AtomsOf(text, target) ==> WholeOrCut(text, a, target)
  {
    NonEmptyHolds(Paragraphs(text));
    AtomsFrom(text, NonEmpty(Paragraphs(text)), target);
  }

  /** A text that fits is one chunk; an empty one has none. */
  lemma {:induction false} FittingTextIsWhole(text: string, target: nat)
    requires Bytes(text) <= target
    ensures ChunkText(text, target) == if text == "" then [] else [text]
  {
  }

  // ---- One paragraph of sentences that fit ----

  lemma {:induction false} RejoinPush(pieces: seq<string>, piece: string, sep: string)
    requires pieces != []
    ensures Rejoin(pieces + [piece], sep) == Rejoin(pieces, sep) + sep + piece
  {
    var all := pieces + [piece];
    if |pieces| == 1 {
      assert all[1..] == [piece];
    } else {
      assert all[1..] == pieces[1..] + [piece];
      RejoinPush(pieces[1..], piece, sep);
      RejoinMoves(pieces[0], sep, Rejoin(pieces[1..], sep), piece);
    }
  }

  lemma {:induction false} RejoinMoves(head: string, sep: string, rest: string, piece: string)
    ensures head + sep + (rest + sep + piece) == head + sep + rest + sep + piece
  {
  }

  /** Sentences as atoms; only the first of the paragraph must begin a chunk. */
  function Flagged(sentences: seq<string>, from: nat): seq<Atom> {
    seq(|sentences|, i requires 0 <= i < |sentences| => Atom(sentences[i], " ", from + i == 0))
  }

  lemma {:induction false} FlaggedPush(sentences: seq<string>, s: string, from: nat)
    ensures Flagged(sentences + [s], from) == Flagged(sentences, from) + [Atom(s, " ", from + |sentences| == 0)]
  {
  }

  lemma {:induction false} FlaggedAppend(a: seq<string>, b: seq<string>)
    ensures Flagged(a + b, 0) == Flagged(a, 0) + Flagged(b, |a|)
  {
  }

  predicate AllWithin(sentences: seq<string>, target: nat) {
    forall i :: 0 <= i < |sentences| ==> sentences[i] != "" && Bytes(sentences[i]) <= target
  }

  lemma {:induction false} FittingSentenceAtoms(sentences: seq<string>, target: nat)
    requires AllWithin(sentences, target)
    ensures SentenceAtoms(sentences, target) == Flagged(sentences, 0)
  {
    if sentences != [] {
      var init, last := sentences[..|sentences| - 1], sentences[|sentences| - 1];
      FittingSentenceAtoms(init, target);
      FlaggedPush(init, last, 0);
      assert sentences == init + [last];
    }
  }

  lemma {:induction false} FlaggedTogether(sentences: seq<string>, from: nat)
    requires forall i :: 0 <= i < |sentences| ==> sentences[i] != ""
    ensures Together(Flagged(sentences, from)) == Rejoin(sentences, " ")
    ensures sentences != [] ==> Rejoin(sentences, " ") != ""
  {
    if sentences != [] {
      var init, last := sentences[..|sentences| - 1], sentences[|sentences| - 1];
      assert sentences == init + [last];
      FlaggedTogether(init, from);
      FlaggedPush(init, last, from);
      TogetherPush(Flagged(init, from), Atom(last, " ", from + |init| == 0));
      if init != [] {
        RejoinPush(init, last, " ");
      }
    }
  }

  /** The groups as atoms, empty ones left out. */
  function FlaggedGroups(groups: seq<seq<string>>): seq<seq<Atom>> {
    if groups == [] then []
    else
      var init, last := groups[..|groups| - 1], groups[|groups| - 1];
      FlaggedGroups(init) + if last == [] then [] else [Flagged(last, |Concat(init)|)]
  }

  lemma {:induction false} FlaggedGroupsHold(groups: seq<seq<string>>, target: nat)
    requires forall i :: 0 <= i < |groups| ==> Bytes(Rejoin(groups[i], " ")) <= target
    requires AllWithin(Concat(groups), target)
    ensures Concat(FlaggedGroups(groups)) == Flagged(Concat(groups), 0) && |FlaggedGroups(groups)| <= |groups|
    ensures GroupsOk(FlaggedGroups(groups), target)
  {
    if groups != [] {
      var init, last := groups[..|groups| - 1], groups[|groups| - 1];
      WithinSplits(Concat(init), last, target);
      FlaggedGroupsHold(init, target);
      FlaggedAppend(Concat(init), last);
      if last == [] {
        assert Concat(init) + last == Concat(init) && FlaggedGroups(groups) == FlaggedGroups(init);
      } else {
        assert FlaggedGroups(groups) == FlaggedGroups(init) + [Flagged(last, |Concat(init)|)];
        ConcatPush(FlaggedGroups(init), Flagged(last, |Concat(init)|));
        FlaggedTogether(last, |Concat(init)|);
        GroupsKept(FlaggedGroups(init), Flagged(last, |Concat(init)|), target);
      }
    }
  }

  lemma {:induction false} WithinSplits(a: seq<string>, b: seq<string>, target: nat)
    requires AllWithin(a + b, target)
    ensures AllWithin(a, target) && AllWithin(b, target)
  {
    assert forall i :: 0 <= i < |a| ==> a[i] == (a + b)[i];
    assert forall i :: 0 <= i < |b| ==> b[i] == (a + b)[|a| + i];
  }

  /** A text of one paragraph above the target, whose sentences all fit. */
  ghost predicate OneParagraph(text: string, target: nat) {
    !HasPair(text, '\n', '\n') && Bytes(text) > target && AllWithin(Sentences(text), target)
  }

  lemma {:induction false} OneParagraphAtoms(text: string, target: nat)
    requires OneParagraph(text, target)
    ensures AtomsOf(text, target) == Flagged(Sentences(text), 0)
  {
    assert ParagraphSplit([text], text);
    ParagraphsAre(text);
    ParagraphSplitIsUnique([text], Paragraphs(text), text);
    BytesPositive(text);
    assert NonEmpty([text]) == [text] by { assert [text][..0] == []; }
    assert Atoms([text], target) == SentenceAtoms(Sentences(text), target) by { assert [text][..0] == []; }
    FittingSentenceAtoms(Sentences(text), target);
  }

  /** Main result: its chunks are as few as any in-order grouping of its sentences, joined by one space, that fits. */
  lemma {:induction false} SentencesPackOptimally(text: string, target: nat, groups: seq<seq<string>>)
    requires OneParagraph(text, target) && Concat(groups) == Sentences(text)
    requires forall i :: 0 <= i < |groups| ==> Bytes(Rejoin(groups[i], " ")) <= target
    ensures |ChunkText(text, target)| <= |groups|
  {
    OneParagraphAtoms(text, target);
    FlaggedGroupsHold(groups, target);
    NoFewerChunks(text, target, FlaggedGroups(groups));
  }

  function TextsOf(group: seq<Atom>): seq<string> {
    seq(|group|, i requires 0 <= i < |group| => group[i].text)
  }

  function AllTexts(groups: seq<seq<Atom>>): seq<seq<string>> {
    seq(|groups|, i requires 0 <= i < |groups| => TextsOf(groups[i]))
  }

  lemma {:induction false} AllTextsConcat(groups: seq<seq<Atom>>)
    ensures Concat(AllTexts(groups)) == TextsOf(Concat(groups))
  {
    if groups != [] {
      var init, last := groups[..|groups| - 1], groups[|groups| - 1];
      assert AllTexts(groups) == AllTexts(init) + [TextsOf(last)];
      AllTextsConcat(init);
      ConcatPush(AllTexts(init), TextsOf(last));
      assert TextsOf(Concat(init) + last) == TextsOf(Concat(init)) + TextsOf(last);
    }
  }

  lemma {:induction false} TogetherRejoins(group: seq<Atom>)
    requires forall j :: 0 <= j < |group| ==> group[j].text != "" && group[j].sep == " "
    ensures Together(group) == Rejoin(TextsOf(group), " ")
    ensures group != [] ==> Together(group) != ""
  {
    if group != [] {
      var init, last := group[..|group| - 1], group[|group| - 1];
      TogetherRejoins(init);
      assert TextsOf(group) == TextsOf(init) + [last.text];
      if init != [] {
        RejoinPush(TextsOf(init), last.text, " ");
      }
    }
  }

  lemma {:induction false} MemberOfConcat<T>(groups: seq<seq<T>>, i: nat, j: nat)
    requires i < |groups| && j < |groups[i]|
    ensures groups[i][j] in Concat(groups)
  {
    if i < |groups| - 1 {
      MemberOfConcat(groups[..|groups| - 1], i, j);
    }
  }

  /** Main result: and they are such a grouping themselves. */
  lemma {:induction false} ChunksAreSentences(text: string, target: nat) returns (groups: seq<seq<string>>)
    requires OneParagraph(text, target)
    ensures Concat(groups) == Sentences(text) && |groups| == |ChunkText(text, target)|
    ensures forall i :: 0 <= i < |groups| ==> groups[i] != [] && ChunkText(text, target)[i] == Rejoin(groups[i], " ")
  {
    var atoms := ChunksAreGroups(text, target);
    OneParagraphAtoms(text, target);
    groups := AllTexts(atoms);
    AllTextsConcat(atoms);
    assert TextsOf(Flagged(Sentences(text), 0)) == Sentences(text);
    forall i | 0 <= i < |groups|
      ensures groups[i] != [] && ChunkText(text, target)[i] == Rejoin(groups[i], " ")
    {
      assert GroupOk(atoms[i], target);
      forall j | 0 <= j < |atoms[i]|
        ensures atoms[i][j].text != "" && atoms[i][j].sep == " "
      {
        MemberOfConcat(atoms, i, j);
      }
      TogetherRejoins(atoms[i]);
    }
  }
}
