/**
 * Channels: an append-only message log with a read cursor per (channel, subscriber) kept by the server.
 * Messages are rows keyed by `seq`; the ghost history remembers every message ever sent, the ones purged,
 * and what each subscription has been handed since it began.
 */
module Channels {
  import opened Prelude
  import opened Utf8

  const CHANNEL_NAME_MAX: nat := 128
  const CHANNEL_LIMIT_MAX: nat := 200
  /** The largest row id SQLite hands out. */
  const MAX_ROWID: nat := 0x7FFF_FFFF_FFFF_FFFF

  datatype Error = Validation | Storage

  datatype Message = Message(channel: string, sender: string, text: string, attrs: AttrsValue)

  datatype Row = Row(rowid: nat, message: Message)

  type Subscription = (string, string)

  /** `lastSeq` is the AUTOINCREMENT counter: it outlives deleted rows. */
  datatype Log = Log(messages: map<nat, Message>, lastSeq: nat, cursors: map<Subscription, nat>)

  datatype Batch = Batch(items: seq<Row>, latest: nat, cursor: nat)

  // ---- Operations ----

  predicate ValidName(name: string) {
    name != "" && Bytes(name) <= CHANNEL_NAME_MAX
  }

  function NameOr(name: Option<string>): string {
    if name.Some? then name.value else ""
  }

  function Send(log: Log, channel: string, text: string, sender: Option<string>, attrs: Option<AttrsValue>): Result<(Log, Row), Error> {
    if !ValidName(channel) || text == "" || (sender.Some? && !ValidName(sender.value)) || AttrsOr(attrs) == NotObject then Err(Validation)
    else if log.lastSeq >= MAX_ROWID then Err(Storage)
    else
      var row := Row(log.lastSeq + 1, Message(channel, NameOr(sender), text, AttrsOr(attrs)));
      Ok((log.(messages := log.messages[row.rowid := row.message], lastSeq := row.rowid), row))
  }

  function After(messages: map<nat, Message>, channel: string, from: nat): set<nat> {
    set q | q in messages && messages[q].channel == channel && q > from
  }

  function InChannel(messages: map<nat, Message>, channel: string): set<nat> {
    set q | q in messages && messages[q].channel == channel
  }

  function Last(s: seq<nat>, limit: nat): seq<nat> {
    if |s| <= limit then s else s[|s| - limit..]
  }

  /** `seq > from ORDER BY seq LIMIT limit`. */
  function Page(messages: map<nat, Message>, channel: string, from: nat, limit: nat): seq<nat> {
    First(Ascending(After(messages, channel, from)), limit)
  }

  function LatestSeq(messages: map<nat, Message>, channel: string): nat {
    var live := InChannel(messages, channel);
    if live == {} then 0 else Greatest(live)
  }

  function CursorOf(cursors: map<Subscription, nat>, sub: Subscription): nat {
    if sub in cursors then cursors[sub] else 0
  }

  function WriteCursor(cursors: map<Subscription, nat>, sub: Subscription, q: nat): map<Subscription, nat> {
    cursors[sub := if sub in cursors && cursors[sub] > q then cursors[sub] else q]
  }

  function Rows(messages: map<nat, Message>, seqs: seq<nat>): seq<Row>
    requires forall q :: q in seqs ==> q in messages
  {
    seq(|seqs|, i requires 0 <= i < |seqs| => Row(seqs[i], messages[seqs[i]]))
  }

  lemma {:induction false} PageLive(messages: map<nat, Message>, channel: string, from: nat, limit: nat)
    ensures forall q :: q in Page(messages, channel, from, limit) ==> q in After(messages, channel, from)
    ensures forall i, j :: 0 <= i < j < |Page(messages, channel, from, limit)| ==>
      Page(messages, channel, from, limit)[i] < Page(messages, channel, from, limit)[j]
  {
    AscendingMembers(After(messages, channel, from));
    AscendingOrdered(After(messages, channel, from));
  }

  lemma {:induction false} TailLive(messages: map<nat, Message>, channel: string, limit: nat)
    ensures forall q :: q in Last(Ascending(InChannel(messages, channel)), limit) ==> q in InChannel(messages, channel)
  {
    AscendingMembers(InChannel(messages, channel));
  }

  /** What a subscriber is handed next. */
  function SubscriberPage(log: Log, sub: Subscription, limit: nat): (seqs: seq<nat>)
    ensures forall q :: q in seqs ==> q in log.messages
  {
    PageLive(log.messages, sub.0, CursorOf(log.cursors, sub), limit);
    Page(log.messages, sub.0, CursorOf(log.cursors, sub), limit)
  }

  function LastOr(seqs: seq<nat>, otherwise: nat): nat {
    if seqs == [] then otherwise else seqs[|seqs| - 1]
  }

  function ReadAs(log: Log, sub: Subscription, limit: nat): (Log, Batch) {
    var seqs := SubscriberPage(log, sub, limit);
    var cursor := LastOr(seqs, CursorOf(log.cursors, sub));
    (if seqs == [] then log else log.(cursors := WriteCursor(log.cursors, sub, cursor)),
     Batch(Rows(log.messages, seqs), LatestSeq(log.messages, sub.0), cursor))
  }

  function ReadSince(log: Log, channel: string, since: nat, limit: nat): Batch {
    PageLive(log.messages, channel, since, limit);
    var seqs := Page(log.messages, channel, since, limit);
    Batch(Rows(log.messages, seqs), LatestSeq(log.messages, channel), LastOr(seqs, 0))
  }

  function ReadTail(log: Log, channel: string, limit: nat): Batch {
    TailLive(log.messages, channel, limit);
    var seqs := Last(Ascending(InChannel(log.messages, channel)), limit);
    Batch(Rows(log.messages, seqs), LatestSeq(log.messages, channel), LastOr(seqs, 0))
  }

  ghost predicate Given(batch: Batch, q: nat) {
    exists i :: 0 <= i < |batch.items| && batch.items[i].rowid == q
  }

  /** A live message of the channel, as it was sent. */
  ghost predicate Stored(messages: map<nat, Message>, channel: string, row: Row) {
    row.rowid in messages && row.message == messages[row.rowid] && row.message.channel == channel
  }

  ghost predicate IsLatest(messages: map<nat, Message>, channel: string, latest: nat) {
    && (latest != 0 ==> latest in messages && messages[latest].channel == channel)
    && (forall q :: q in messages && messages[q].channel == channel ==> q <= latest)
  }

  /** The first `limit` live messages of the channel above a position: stored, ascending, and with no gap. */
  ghost predicate HandsOut(messages: map<nat, Message>, channel: string, from: nat, limit: nat, batch: Batch) {
    && |batch.items| == Min(limit, |set q | q in messages && messages[q].channel == channel && q > from|)
    && (forall i :: 0 <= i < |batch.items| ==> Stored(messages, channel, batch.items[i]) && batch.items[i].rowid > from)
    && (forall i, j :: 0 <= i < j < |batch.items| ==> batch.items[i].rowid < batch.items[j].rowid)
    && (forall i, q :: 0 <= i < |batch.items| && q in messages && messages[q].channel == channel && q > from && !Given(batch, q)
          ==> batch.items[i].rowid < q)
    && IsLatest(messages, channel, batch.latest)
  }

  lemma {:induction false} LatestSeqIs(messages: map<nat, Message>, channel: string)
    ensures IsLatest(messages, channel, LatestSeq(messages, channel))
  {
    forall q | q in messages && messages[q].channel == channel
      ensures q in InChannel(messages, channel)
    {
    }
  }

  /** A live message of the channel that is not on the page comes after all that are. */
  lemma {:induction false} LeftOutComesAfter(all: seq<nat>, page: seq<nat>, i: nat, q: nat)
    requires page <= all && i < |page| && q in all && q !in page
    requires forall k, l :: 0 <= k < l < |all| ==> all[k] < all[l]
    ensures page[i] < q
  {
    var k :| 0 <= k < |all| && all[k] == q;
    assert k >= |page|;
  }

  lemma {:induction false} PageIsGiven(messages: map<nat, Message>, page: seq<nat>, batch: Batch, q: nat)
    requires forall p :: p in page ==> p in messages
    requires batch.items == Rows(messages, page) && q in page
    ensures Given(batch, q)
  {
    var k :| 0 <= k < |page| && page[k] == q;
    assert batch.items[k].rowid == q;
  }

  lemma {:induction false} PageHandsOut(messages: map<nat, Message>, channel: string, from: nat, limit: nat, batch: Batch)
    requires forall q :: q in Page(messages, channel, from, limit) ==> q in messages
    requires batch.items == Rows(messages, Page(messages, channel, from, limit)) && batch.latest == LatestSeq(messages, channel)
    ensures HandsOut(messages, channel, from, limit, batch)
  {
    var above := After(messages, channel, from);
    var all, page := Ascending(above), Page(messages, channel, from, limit);
    AscendingMembers(above);
    AscendingOrdered(above);
    PageLive(messages, channel, from, limit);
    LatestSeqIs(messages, channel);
    assert above == set q | q in messages && messages[q].channel == channel && q > from;
    forall i | 0 <= i < |batch.items|
      ensures Stored(messages, channel, batch.items[i]) && batch.items[i].rowid > from
    {
      assert page[i] in above;
    }
    forall q | q in page
      ensures Given(batch, q)
    {
      PageIsGiven(messages, page, batch, q);
    }
    forall i, q | 0 <= i < |batch.items| && q in messages && messages[q].channel == channel && q > from && !Given(batch, q)
      ensures batch.items[i].rowid < q
    {
      assert q in above;
      LeftOutComesAfter(all, page, i, q);
    }
  }

  /** Main result: a read from a given position hands out the first messages above it and writes no cursor. */
  lemma {:induction false} ReadSinceHandsOut(log: Log, channel: string, since: nat, limit: nat)
    ensures var batch := ReadSince(log, channel, since, limit);
      && HandsOut(log.messages, channel, since, limit, batch)
      && batch.cursor == if batch.items == [] then 0 else batch.items[|batch.items| - 1].rowid
  {
    PageLive(log.messages, channel, since, limit);
    PageHandsOut(log.messages, channel, since, limit, ReadSince(log, channel, since, limit));
  }

  /** Main result: a subscriber's read goes on from its cursor, moves that cursor to the last message, and no other. */
  lemma {:induction false} ReadAsHandsOut(log: Log, sub: Subscription, limit: nat)
    ensures var (after, batch) := ReadAs(log, sub, limit);
      && HandsOut(log.messages, sub.0, CursorOf(log.cursors, sub), limit, batch)
      && batch.cursor == (if batch.items == [] then CursorOf(log.cursors, sub) else batch.items[|batch.items| - 1].rowid)
      && CursorOf(after.cursors, sub) == batch.cursor
      && after.messages == log.messages && after.lastSeq == log.lastSeq
      && forall other: Subscription :: other != sub ==> CursorOf(after.cursors, other) == CursorOf(log.cursors, other)
  {
    PageLive(log.messages, sub.0, CursorOf(log.cursors, sub), limit);
    PageHandsOut(log.messages, sub.0, CursorOf(log.cursors, sub), limit, ReadAs(log, sub, limit).1);
  }

  ghost predicate Numbered(log: Log) {
    forall q :: q in log.messages ==> q <= log.lastSeq
  }

  /** Names are counted in bytes, a text must not be empty, attributes must be an object, and numbers run out. */
  lemma {:induction false} SendAcceptsExactly(log: Log, channel: string, text: string, sender: Option<string>, attrs: Option<AttrsValue>)
    ensures Send(log, channel, text, sender, attrs).Ok? <==>
      && channel != "" && Bytes(channel) <= 128 && text != ""
      && (sender.Some? ==> sender.value != "" && Bytes(sender.value) <= 128)
      && attrs != Some(NotObject) && log.lastSeq < 0x7FFF_FFFF_FFFF_FFFF
  {
  }

  /**
   * Main result: the newest message of the channel is then the one sent, with its text, sender and attributes;
   * what the channel held before it and what any other channel holds is read as before.
   */
  lemma {:induction false} SentIsReadBack(log: Log, channel: string, text: string, sender: Option<string>, attrs: Option<AttrsValue>, limit: nat)
    requires Numbered(log) && Send(log, channel, text, sender, attrs).Ok? && limit > 0
    ensures var (after, row) := Send(log, channel, text, sender, attrs).value; var items := ReadTail(after, channel, limit).items;
      && Numbered(after) && items != [] && items[|items| - 1] == row
      && row.message.channel == channel && row.message.text == text
      && row.message.sender == (if sender.Some? then sender.value else "")
      && row.message.attrs == (if attrs.Some? then attrs.value else Object(0))
      && ReadTail(after, channel, limit).latest == row.rowid
      && (forall q :: q in after.messages <==> q in log.messages || q == row.rowid)
      && (forall q :: q in log.messages ==> q < row.rowid && after.messages[q] == log.messages[q])
      && after.cursors == log.cursors
  {
    var (after, row) := Send(log, channel, text, sender, attrs).value;
    assert Stored(after.messages, channel, row) && forall q :: q in after.messages ==> q <= row.rowid;
    NewestIsReadLast(after, channel, limit, row);
  }

  lemma {:induction false} NewestIsReadLast(log: Log, channel: string, limit: nat, row: Row)
    requires Stored(log.messages, channel, row) && limit > 0
    requires forall q :: q in log.messages ==> q <= row.rowid
    ensures var batch := ReadTail(log, channel, limit);
      batch.items != [] && batch.items[|batch.items| - 1] == row && batch.latest == row.rowid
  {
    var live := InChannel(log.messages, channel);
    assert row.rowid in live && IsGreatest(live, row.rowid);
    LatestIsLast(live);
    AscendingMembers(live);
    TailItems(log, channel, limit, |Ascending(live)| - 1);
    TailIsStored(log, channel, limit);
  }

  lemma {:induction false} TailIsStored(log: Log, channel: string, limit: nat)
    ensures forall row :: row in ReadTail(log, channel, limit).items ==> Stored(log.messages, channel, row)
  {
    TailLive(log.messages, channel, limit);
    var seqs := Last(Ascending(InChannel(log.messages, channel)), limit);
    forall row | row in ReadTail(log, channel, limit).items
      ensures Stored(log.messages, channel, row)
    {
      var i :| 0 <= i < |seqs| && ReadTail(log, channel, limit).items[i] == row;
      assert seqs[i] in seqs;
    }
  }

  /** The tail's items are the last live numbers. */
  lemma {:induction false} TailItems(log: Log, channel: string, limit: nat, k: nat)
    requires k < |Ascending(InChannel(log.messages, channel))|
    ensures var all := Ascending(InChannel(log.messages, channel)); var items := ReadTail(log, channel, limit).items;
      && |items| <= |all|
      && (k >= |all| - |items| ==>
            items[k - (|all| - |items|)].rowid == all[k] && Given(ReadTail(log, channel, limit), all[k]))
  {
    TailLive(log.messages, channel, limit);
    var all := Ascending(InChannel(log.messages, channel));
    var items := ReadTail(log, channel, limit).items;
    if k >= |all| - |items| {
      assert items[k - (|all| - |items|)].rowid == all[k];
    }
  }

  lemma {:induction false} TailSkipsOlder(log: Log, channel: string, limit: nat, i: nat, q: nat)
    requires i < |ReadTail(log, channel, limit).items| && q in InChannel(log.messages, channel)
    requires !Given(ReadTail(log, channel, limit), q)
    ensures q < ReadTail(log, channel, limit).items[i].rowid
  {
    var all := Ascending(InChannel(log.messages, channel));
    AscendingMembers(InChannel(log.messages, channel));
    AscendingOrdered(InChannel(log.messages, channel));
    var k :| 0 <= k < |all| && all[k] == q;
    var skipped := |all| - |ReadTail(log, channel, limit).items|;
    TailItems(log, channel, limit, skipped + i);
    TailItems(log, channel, limit, k);
  }

  lemma {:induction false} LatestIsLast(live: set<nat>)
    requires live != {}
    ensures Ascending(live) != [] && Ascending(live)[|Ascending(live)| - 1] == Greatest(live)
  {
    var all := Ascending(live);
    AscendingMembers(live);
    AscendingOrdered(live);
    assert Greatest(live) in all && all[|all| - 1] in live;
  }

  lemma {:induction false} TailAscends(log: Log, channel: string, limit: nat)
    ensures var items := ReadTail(log, channel, limit).items;
      forall i, j :: 0 <= i < j < |items| ==> items[i].rowid < items[j].rowid
  {
    var all, items := Ascending(InChannel(log.messages, channel)), ReadTail(log, channel, limit).items;
    AscendingOrdered(InChannel(log.messages, channel));
    forall i, j | 0 <= i < j < |items|
      ensures items[i].rowid < items[j].rowid
    {
      var skipped: nat := |all| - |items|;
      TailItems(log, channel, limit, skipped + i);
      TailItems(log, channel, limit, skipped + j);
    }
  }

  /** A read without a position gives the newest messages, ascending and as many as asked for, up to the latest. */
  lemma {:induction false} TailIsNewest(log: Log, channel: string, limit: nat)
    requires limit > 0
    ensures var batch := ReadTail(log, channel, limit);
      && |batch.items| == Min(limit, |InChannel(log.messages, channel)|)
      && (forall i, j :: 0 <= i < j < |batch.items| ==> batch.items[i].rowid < batch.items[j].rowid)
      && (forall row :: row in batch.items ==> Stored(log.messages, channel, row))
      && (forall i, q :: 0 <= i < |batch.items| && q in InChannel(log.messages, channel) && !Given(batch, q) ==> q < batch.items[i].rowid)
      && batch.cursor == batch.latest && IsLatest(log.messages, channel, batch.latest)
  {
    var live := InChannel(log.messages, channel);
    AscendingMembers(live);
    if live != {} {
      LatestIsLast(live);
    }
    var batch := ReadTail(log, channel, limit);
    TailAscends(log, channel, limit);
    TailIsStored(log, channel, limit);
    LatestSeqIs(log.messages, channel);
    forall i: nat, q: nat | i < |batch.items| && q in live && !Given(batch, q)
      ensures q < batch.items[i].rowid
    {
      TailSkipsOlder(log, channel, limit, i, q);
    }
  }

  function Recv(log: Log, channel: string, subscriber: Option<string>, since: Option<int>, limit: nat): Result<(Log, Batch), Error> {
    if !ValidName(channel) || (subscriber.Some? && since.Some?) || limit == 0 || limit > CHANNEL_LIMIT_MAX then Err(Validation)
    else if since.Some? then (if since.value < 0 then Err(Validation) else Ok((log, ReadSince(log, channel, since.value, limit))))
    else if subscriber.None? then Ok((log, ReadTail(log, channel, limit)))
    else if !ValidName(subscriber.value) then Err(Validation)
    else Ok(ReadAs(log, (channel, subscriber.value), limit))
  }

  /** Main result: which reads are served, and what each of the three kinds hands out and moves. */
  lemma {:induction false} RecvServesExactly(log: Log, channel: string, subscriber: Option<string>, since: Option<int>, limit: nat)
    ensures var r := Recv(log, channel, subscriber, since, limit);
      && (r.Ok? <==>
            && channel != "" && Bytes(channel) <= 128 && 1 <= limit <= 200
            && (subscriber.Some? ==> since.None? && subscriber.value != "" && Bytes(subscriber.value) <= 128)
            && (since.Some? ==> since.value >= 0))
      && (r.Ok? && subscriber.Some? ==>
            HandsOut(log.messages, channel, CursorOf(log.cursors, (channel, subscriber.value)), limit, r.value.1)
            && CursorOf(r.value.0.cursors, (channel, subscriber.value)) == r.value.1.cursor)
      && (r.Ok? && since.Some? ==> r.value.0 == log && HandsOut(log.messages, channel, since.value, limit, r.value.1))
      && (r.Ok? && subscriber.None? && since.None? ==> r.value.0 == log && r.value.1.cursor == r.value.1.latest)
  {
    if Recv(log, channel, subscriber, since, limit).Ok? {
      if subscriber.Some? {
        ReadAsHandsOut(log, (channel, subscriber.value), limit);
      } else if since.Some? {
        ReadSinceHandsOut(log, channel, since.value, limit);
      } else {
        TailIsNewest(log, channel, limit);
      }
    }
  }

  function Below(messages: map<nat, Message>, channel: string, bound: int): set<nat> {
    set q | q in messages && messages[q].channel == channel && q < bound
  }

  /** Cursors are left alone: one behind the bound never rewinds. */
  function Purge(log: Log, channel: string, before: int): Result<(Log, nat), Error> {
    if !ValidName(channel) || before <= 0 then Err(Validation)
    else Ok((log.(messages := log.messages - Below(log.messages, channel, before)), |Below(log.messages, channel, before)|))
  }

  function Unsubscribe(log: Log, channel: string, subscriber: string): Result<(Log, nat), Error> {
    if !ValidName(channel) || !ValidName(subscriber) then Err(Validation)
    else Ok((log.(cursors := log.cursors - {(channel, subscriber)}), if (channel, subscriber) in log.cursors then 1 else 0))
  }

  // ---- Whole runs ----

  /** `sent`: every message ever, by seq. `delivered`: what each live subscription was handed, in order. */
  datatype World = World(log: Log, sent: map<nat, Message>, purged: set<nat>, delivered: map<Subscription, seq<nat>>)

  datatype Op =
    | DoSend(channel: string, text: string, sender: Option<string>, attrs: Option<AttrsValue>)
    | DoRecv(channel: string, subscriber: Option<string>, since: Option<int>, limit: nat)
    | DoPurge(channel: string, before: int)
    | DoUnsubscribe(channel: string, sub: string)

  function DeliveredTo(delivered: map<Subscription, seq<nat>>, sub: Subscription): seq<nat> {
    if sub in delivered then delivered[sub] else []
  }

  function Seqs(items: seq<Row>): seq<nat> {
    seq(|items|, i requires 0 <= i < |items| => items[i].rowid)
  }

  /** A subscriber read that returned something extends the subscription; other reads leave no trace. */
  function NoteBatch(delivered: map<Subscription, seq<nat>>, channel: string, subscriber: Option<string>, items: seq<Row>): map<Subscription, seq<nat>> {
    if subscriber.None? || items == [] then delivered
    else delivered[(channel, subscriber.value) := DeliveredTo(delivered, (channel, subscriber.value)) + Seqs(items)]
  }

  function Next(w: World, op: Op): World {
    match op
    case DoSend(channel, text, sender, attrs) =>
      (match Send(w.log, channel, text, sender, attrs)
       case Ok((log, row)) => w.(log := log, sent := w.sent[row.rowid := row.message])
       case Err(_) => w)
    case DoRecv(channel, subscriber, since, limit) =>
      (match Recv(w.log, channel, subscriber, since, limit)
       case Ok((log, batch)) => w.(log := log, delivered := NoteBatch(w.delivered, channel, subscriber, batch.items))
       case Err(_) => w)
    case DoPurge(channel, before) =>
      (match Purge(w.log, channel, before)
       case Ok((log, _)) => w.(log := log, purged := w.purged + Below(w.log.messages, channel, before))
       case Err(_) => w)
    case DoUnsubscribe(channel, sub) =>
      (match Unsubscribe(w.log, channel, sub)
       case Ok((log, _)) => w.(log := log, delivered := w.delivered - {(channel, sub)})
       case Err(_) => w)
  }

  const EMPTY_WORLD := World(Log(map[], 0, map[]), map[], {}, map[])

  ghost predicate Run(ws: seq<World>, ops: seq<Op>) {
    && |ws| == |ops| + 1
    && ws[0] == EMPTY_WORLD
    && forall i :: 0 <= i < |ops| ==> ws[i + 1] == Next(ws[i], ops[i])
  }

  // ---- Exactly once ----

  /** Every message ever sent is live or purged, never both; numbers run up to the counter. */
  ghost predicate Accounted(w: World) {
    && w.sent.Keys == w.log.messages.Keys + w.purged
    && w.log.messages.Keys !! w.purged
    && (forall q :: q in w.log.messages ==> w.log.messages[q] == w.sent[q])
    && (forall q :: q in w.sent ==> 1 <= q <= w.log.lastSeq)
  }

  ghost predicate Increasing(s: seq<nat>) {
    forall i, j :: 0 <= i < j < |s| ==> s[i] < s[j]
  }

  /** What one subscription was handed: ascending messages of its channel, up to exactly its cursor. */
  ghost predicate Handed(sent: map<nat, Message>, channel: string, got: seq<nat>, cursor: nat) {
    && Increasing(got)
    && (forall q :: q in got ==> q in sent && sent[q].channel == channel && q <= cursor)
    && cursor == LastOr(got, 0)
  }

  /** Nothing live at or below the cursor is missing. */
  ghost predicate NothingSkipped(messages: map<nat, Message>, channel: string, got: seq<nat>, cursor: nat) {
    forall q :: q in messages && messages[q].channel == channel && q <= cursor ==> q in got
  }

  ghost predicate Kept(w: World, sub: Subscription) {
    && (sub in w.log.cursors <==> sub in w.delivered)
    && (sub in w.delivered ==> w.delivered[sub] != [])
    && Handed(w.sent, sub.0, DeliveredTo(w.delivered, sub), CursorOf(w.log.cursors, sub))
    && NothingSkipped(w.log.messages, sub.0, DeliveredTo(w.delivered, sub), CursorOf(w.log.cursors, sub))
  }

  ghost predicate ExactlyOnce(w: World) {
    Accounted(w) && forall sub :: Kept(w, sub)
  }

  lemma {:induction false} SendKeeps(w: World, channel: string, text: string, sender: Option<string>, attrs: Option<AttrsValue>, sub: Subscription)
    requires Accounted(w) && Kept(w, sub)
    ensures var w' := Next(w, DoSend(channel, text, sender, attrs)); Accounted(w') && Kept(w', sub)
  {
    var got, cursor := DeliveredTo(w.delivered, sub), CursorOf(w.log.cursors, sub);
    assert cursor <= w.log.lastSeq by {
      if got != [] {
        assert got[|got| - 1] in got;
      }
    }
  }

  lemma {:induction false} PurgeKeeps(w: World, channel: string, before: int, sub: Subscription)
    requires Accounted(w) && Kept(w, sub)
    ensures var w' := Next(w, DoPurge(channel, before)); Accounted(w') && Kept(w', sub)
  {
  }

  lemma {:induction false} UnsubscribeKeeps(w: World, channel: string, subscriber: string, sub: Subscription)
    requires Accounted(w) && Kept(w, sub)
    ensures var w' := Next(w, DoUnsubscribe(channel, subscriber)); Accounted(w') && Kept(w', sub)
  {
    var w' := Next(w, DoUnsubscribe(channel, subscriber));
    if sub == (channel, subscriber) && w' != w {
      assert sub !in w'.log.cursors && sub !in w'.delivered;
      forall q | q in w'.log.messages
        ensures q > 0
      {
        assert q in w.sent;
      }
    }
  }

  /** After an unsubscribe the next read hands out the channel's live messages from the first one on, delivered before or not. */
  lemma {:induction false} UnsubscribeStartsOver(w: World, channel: string, subscriber: string, limit: nat)
    requires Accounted(w) && ValidName(channel) && ValidName(subscriber)
    ensures SubscriberPage(Next(w, DoUnsubscribe(channel, subscriber)).log, (channel, subscriber), limit) ==
            First(Ascending(InChannel(w.log.messages, channel)), limit)
  {
    forall q | q in w.log.messages
      ensures q > 0
    {
      assert q in w.sent;
    }
    assert After(w.log.messages, channel, 0) == InChannel(w.log.messages, channel);
  }

  lemma {:induction false} SeqsOfRows(messages: map<nat, Message>, seqs: seq<nat>)
    requires forall q :: q in seqs ==> q in messages
    ensures Seqs(Rows(messages, seqs)) == seqs
  {
  }

  /** A page reaches from the old position to its own last message without a gap. */
  lemma {:induction false} PageHasNoGap(messages: map<nat, Message>, channel: string, from: nat, limit: nat)
    ensures var page := Page(messages, channel, from, limit);
      forall q :: q in After(messages, channel, from) && q <= LastOr(page, from) ==> q in page
  {
    var all := Ascending(After(messages, channel, from));
    AscendingMembers(After(messages, channel, from));
    AscendingOrdered(After(messages, channel, from));
    forall q | q in After(messages, channel, from) && q <= LastOr(First(all, limit), from)
      ensures q in First(all, limit)
    {
      var i :| 0 <= i < |all| && all[i] == q;
      if i >= |First(all, limit)| && First(all, limit) != [] {
        assert all[|First(all, limit)| - 1] < all[i];
      }
    }
  }

  lemma {:induction false} ExtendHanded(sent: map<nat, Message>, channel: string, got: seq<nat>, cursor: nat, page: seq<nat>)
    requires Handed(sent, channel, got, cursor) && Increasing(page) && page != []
    requires forall q :: q in page ==> q in sent && sent[q].channel == channel && q > cursor
    ensures Handed(sent, channel, got + page, page[|page| - 1])
    ensures page[|page| - 1] > cursor
  {
    assert page[|page| - 1] in page;
    forall i, j | 0 <= i < j < |got + page|
      ensures (got + page)[i] < (got + page)[j]
    {
      if i < |got| <= j {
        assert got[i] in got && page[j - |got|] in page;
      }
    }
    forall q | q in page
      ensures q <= page[|page| - 1]
    {
      var k :| 0 <= k < |page| && page[k] == q;
    }
  }

  lemma {:induction false} ReadKeeps(w: World, reader: Subscription, limit: nat)
    requires Accounted(w) && Kept(w, reader)
    ensures var r := ReadAs(w.log, reader, limit);
      var w' := w.(log := r.0, delivered := NoteBatch(w.delivered, reader.0, Some(reader.1), r.1.items));
      Accounted(w') && Kept(w', reader)
  {
    var page := SubscriberPage(w.log, reader, limit);
    var from := CursorOf(w.log.cursors, reader);
    PageLive(w.log.messages, reader.0, from, limit);
    PageHasNoGap(w.log.messages, reader.0, from, limit);
    SeqsOfRows(w.log.messages, page);
    if page != [] {
      ExtendHanded(w.sent, reader.0, DeliveredTo(w.delivered, reader), from, page);
      var got := DeliveredTo(w.delivered, reader) + page;
      forall q | q in w.log.messages && w.log.messages[q].channel == reader.0 && q <= page[|page| - 1]
        ensures q in got
      {
        assert q <= from || q in After(w.log.messages, reader.0, from);
      }
    }
  }

  lemma {:induction false} RecvKeeps(w: World, channel: string, subscriber: Option<string>, since: Option<int>, limit: nat, sub: Subscription)
    requires Accounted(w) && Kept(w, sub)
    ensures var w' := Next(w, DoRecv(channel, subscriber, since, limit)); Accounted(w') && Kept(w', sub)
  {
    if subscriber.Some? && sub == (channel, subscriber.value) {
      ReadKeeps(w, sub, limit);
    }
  }

  lemma {:induction false} StepKeeps(w: World, op: Op)
    requires ExactlyOnce(w)
    ensures ExactlyOnce(Next(w, op))
  {
    forall sub: Subscription
      ensures Accounted(Next(w, op)) && Kept(Next(w, op), sub)
    {
      assert Kept(w, sub);
      match op
      case DoSend(channel, text, sender, attrs) => SendKeeps(w, channel, text, sender, attrs, sub);
      case DoRecv(channel, subscriber, since, limit) => RecvKeeps(w, channel, subscriber, since, limit, sub);
      case DoPurge(channel, before) => PurgeKeeps(w, channel, before, sub);
      case DoUnsubscribe(channel, subscriber) => UnsubscribeKeeps(w, channel, subscriber, sub);
    }
    assert Kept(Next(w, op), ("", ""));
  }

  /** Main result: at every moment of every run, each subscription has been handed each live message up to its cursor. */
  lemma {:induction false} RunsDeliverExactlyOnce(ws: seq<World>, ops: seq<Op>, i: nat)
    requires Run(ws, ops) && i < |ws|
    ensures ExactlyOnce(ws[i])
  {
    if i > 0 {
      RunsDeliverExactlyOnce(ws, ops, i - 1);
      StepKeeps(ws[i - 1], ops[i - 1]);
    }
  }

  /** Read off at one message: handed out exactly once, or purged before it could be; either way never handed again. */
  lemma {:induction false} OnceOrPurged(ws: seq<World>, ops: seq<Op>, i: nat, sub: Subscription, q: nat)
    requires Run(ws, ops) && i < |ws|
    requires q in ws[i].sent && ws[i].sent[q].channel == sub.0 && q <= CursorOf(ws[i].log.cursors, sub)
    ensures var got := DeliveredTo(ws[i].delivered, sub);
      (exists k :: 0 <= k < |got| && got[k] == q && forall j :: 0 <= j < |got| && got[j] == q ==> j == k) || (q !in got && q in ws[i].purged)
    ensures forall limit :: q !in SubscriberPage(ws[i].log, sub, limit)
  {
    RunsDeliverExactlyOnce(ws, ops, i);
    assert Kept(ws[i], sub);
    forall limit: nat
      ensures q !in SubscriberPage(ws[i].log, sub, limit)
    {
      PageLive(ws[i].log.messages, sub.0, CursorOf(ws[i].log.cursors, sub), limit);
    }
    var got := DeliveredTo(ws[i].delivered, sub);
    if q in got {
      var k :| 0 <= k < |got| && got[k] == q;
    }
  }

  /** A send takes a number no message ever had, even after purges. */
  lemma {:induction false} NeverReused(w: World, channel: string, text: string, sender: Option<string>, attrs: Option<AttrsValue>)
    requires ExactlyOnce(w) && Send(w.log, channel, text, sender, attrs).Ok?
    ensures var row := Send(w.log, channel, text, sender, attrs).value.1;
      row.rowid !in w.sent && forall q :: q in w.sent ==> q < row.rowid
  {
  }

  predicate Ends(op: Op, sub: Subscription) {
    op.DoUnsubscribe? && (op.channel, op.sub) == sub
  }

  lemma {:induction false} StepMonotone(w: World, op: Op, sub: Subscription)
    requires ExactlyOnce(w) && !Ends(op, sub)
    ensures CursorOf(w.log.cursors, sub) <= CursorOf(Next(w, op).log.cursors, sub)
    ensures DeliveredTo(w.delivered, sub) <= DeliveredTo(Next(w, op).delivered, sub)
    ensures w.sent.Keys <= Next(w, op).sent.Keys && forall q :: q in w.sent ==> Next(w, op).sent[q] == w.sent[q]
  {
    assert Kept(w, sub);
  }

  /** Within one subscription the cursor never goes back and what was handed out only grows; sent messages never change. */
  lemma {:induction false} SubscriptionMonotone(ws: seq<World>, ops: seq<Op>, i: nat, j: nat, sub: Subscription)
    requires Run(ws, ops) && i <= j < |ws| && forall k :: i <= k < j ==> !Ends(ops[k], sub)
    ensures CursorOf(ws[i].log.cursors, sub) <= CursorOf(ws[j].log.cursors, sub)
    ensures DeliveredTo(ws[i].delivered, sub) <= DeliveredTo(ws[j].delivered, sub)
    ensures ws[i].sent.Keys <= ws[j].sent.Keys && forall q :: q in ws[i].sent ==> ws[j].sent[q] == ws[i].sent[q]
    decreases j - i
  {
    if i < j {
      SubscriptionMonotone(ws, ops, i, j - 1, sub);
      RunsDeliverExactlyOnce(ws, ops, j - 1);
      StepMonotone(ws[j - 1], ops[j - 1], sub);
    }
  }

  // ---- Catching up ----

  function Pending(log: Log, sub: Subscription): set<nat> {
    After(log.messages, sub.0, CursorOf(log.cursors, sub))
  }

  /** After a subscriber read the returned cursor trails the latest message exactly when something is still undelivered. */
  lemma {:induction false} CursorTrailsIffPending(log: Log, sub: Subscription, limit: nat)
    requires limit > 0
    ensures var (log', batch) := ReadAs(log, sub, limit);
      batch.cursor < batch.latest <==> After(log.messages, sub.0, batch.cursor) != {}
  {
    var (log', batch) := ReadAs(log, sub, limit);
    if batch.cursor < batch.latest {
      assert batch.latest in After(log.messages, sub.0, batch.cursor);
    } else {
      assert forall q :: q in After(log.messages, sub.0, batch.cursor) ==> q in InChannel(log.messages, sub.0);
    }
  }

  function Above(s: set<nat>, bound: nat): set<nat> {
    set q | q in s && q > bound
  }

  lemma {:induction false} AboveLeast(s: set<nat>, q: nat)
    requires s != {} && q in s
    ensures Above(s, q) == if q == Least(s) then s - {Least(s)} else Above(s - {Least(s)}, q)
  {
  }

  lemma {:induction false} Shifted(head: nat, tail: seq<nat>, k: nat)
    requires 1 < k <= |tail| + 1
    ensures ([head] + tail)[k - 1] == tail[k - 2] && ([head] + tail)[k..] == tail[k - 1..]
  {
  }

  lemma {:induction false} AscendingSplit(s: set<nat>, k: nat, q: nat)
    requires 0 < k <= |Ascending(s)| && Ascending(s)[k - 1] == q
    ensures Ascending(Above(s, q)) == Ascending(s)[k..]
  {
    var rest := s - {Least(s)};
    AscendingMembers(s);
    AscendingMembers(rest);
    assert q in s;
    AboveLeast(s, q);
    if k > 1 {
      Shifted(Least(s), Ascending(rest), k);
      assert q in rest;
      AscendingSplit(rest, k - 1, q);
    }
  }

  lemma {:induction false} ReadAdvances(log: Log, sub: Subscription, limit: nat)
    requires limit > 0
    ensures var log' := ReadAs(log, sub, limit).0; var all := Ascending(Pending(log, sub));
      && log'.messages == log.messages
      && Seqs(ReadAs(log, sub, limit).1.items) == First(all, limit)
      && Ascending(Pending(log', sub)) == all[|First(all, limit)|..]
  {
    var from, page := CursorOf(log.cursors, sub), SubscriberPage(log, sub, limit);
    var log' := ReadAs(log, sub, limit).0;
    PageLive(log.messages, sub.0, from, limit);
    SeqsOfRows(log.messages, page);
    if page != [] {
      assert page[|page| - 1] in page;
      AscendingSplit(Pending(log, sub), |page|, page[|page| - 1]);
      assert Pending(log', sub) == Above(Pending(log, sub), page[|page| - 1]);
    }
  }

  /** `n` reads in a row by one subscriber, nothing in between: the log then, and everything handed out. */
  function Reads(log: Log, sub: Subscription, limit: nat, n: nat): (Log, seq<nat>) {
    if n == 0 then (log, [])
    else
      var (before, got) := Reads(log, sub, limit, n - 1);
      var (after, batch) := ReadAs(before, sub, limit);
      (after, got + Seqs(batch.items))
  }

  lemma {:induction false} ReadsHandOut(log: Log, sub: Subscription, limit: nat, n: nat)
    requires limit > 0
    ensures var all := Ascending(Pending(log, sub)); var (after, got) := Reads(log, sub, limit, n);
      got == First(all, n * limit) && Ascending(Pending(after, sub)) == all[|First(all, n * limit)|..]
  {
    var all := Ascending(Pending(log, sub));
    if n > 0 {
      ReadsHandOut(log, sub, limit, n - 1);
      var (before, got) := Reads(log, sub, limit, n - 1);
      ReadAdvances(before, sub, limit);
      OneRoundMore(all, limit, n);
    }
  }

  lemma {:induction false} OneRoundMore(all: seq<nat>, limit: nat, n: nat)
    requires n > 0
    ensures var got := First(all, (n - 1) * limit); var more := First(all[|got|..], limit);
      got + more == First(all, n * limit) && all[|got|..][|more|..] == all[|First(all, n * limit)|..]
  {
    assert n * limit == (n - 1) * limit + limit;
    FirstTwice(all, (n - 1) * limit, limit);
  }

  lemma {:induction false} FirstTwice(all: seq<nat>, a: nat, b: nat)
    ensures var rest := all[|First(all, a)|..];
      First(all, a) + First(rest, b) == First(all, a + b) && rest[|First(rest, b)|..] == all[|First(all, a + b)|..]
  {
    if |all| <= a {
      assert all[|all|..] == [];
    } else if |all| <= a + b {
      assert all[..a] + all[a..] == all;
    } else {
      assert all[..a] + all[a..][..b] == all[..a + b];
      assert all[a..][b..] == all[a + b..];
    }
  }

  /** Main result: with nothing sent or purged, ceil(n / limit) reads hand out all n pending messages in order, and no fewer do. */
  lemma {:induction false} ReadsDrain(log: Log, sub: Subscription, limit: nat, rounds: nat)
    requires limit > 0
    ensures var pending := Pending(log, sub); var (after, got) := Reads(log, sub, limit, rounds);
      && (Pending(after, sub) == {} <==> rounds >= (|pending| + limit - 1) / limit)
      && (Pending(after, sub) == {} ==> got == Ascending(pending))
  {
    ReadsHandOut(log, sub, limit, rounds);
    var (after, got) := Reads(log, sub, limit, rounds);
    DrainedWhen(Pending(log, sub), Pending(after, sub), got, limit, rounds);
  }

  /** Taking so many leaves nothing exactly when there are no more. */
  lemma {:induction false} DrainedWhen(pending: set<nat>, left: set<nat>, got: seq<nat>, limit: nat, rounds: nat)
    requires limit > 0 && got == First(Ascending(pending), rounds * limit)
    requires Ascending(left) == Ascending(pending)[|got|..]
    ensures left == {} <==> rounds >= (|pending| + limit - 1) / limit
    ensures left == {} ==> got == Ascending(pending)
  {
    AscendingMembers(pending);
    AscendingMembers(left);
    assert left == {} <==> |left| == 0;
    CeilReached(|pending|, limit, rounds);
  }

  lemma {:induction false} CeilReached(n: nat, limit: nat, k: nat)
    requires limit > 0
    ensures k * limit >= n <==> k >= (n + limit - 1) / limit
  {
    var c := (n + limit - 1) / limit;
    assert n + limit - 1 == c * limit + (n + limit - 1) % limit;
    if k >= c {
      assert k * limit >= c * limit by { MulMonotone(c, k, limit); }
    } else {
      assert k * limit <= (c - 1) * limit by { MulMonotone(k, c - 1, limit); }
      assert (c - 1) * limit == c * limit - limit;
    }
  }

  lemma {:induction false} MulMonotone(a: nat, b: nat, m: nat)
    requires a <= b
    ensures a * m <= b * m
  {
  }

  // ---- The service ----

  lemma {:induction false} KeysLost<K, V>(m: map<K, V>, gone: set<K>)
    requires gone <= m.Keys
    ensures |m - gone| + |gone| == |m|
  {
    assert (m - gone).Keys == m.Keys - gone && m.Keys == (m.Keys - gone) + gone;
    assert |m.Keys| == |m| && |(m - gone).Keys| == |m - gone|;
  }

  class ChannelService {
    var log: Log

    constructor ()
      ensures log == EMPTY_WORLD.log
    {
      log := EMPTY_WORLD.log;
    }

    method Append(channel: string, text: string, sender: Option<string>, attrs: Option<AttrsValue>) returns (r: Result<Row, Error>)
      modifies this
      ensures match Send(old(log), channel, text, sender, attrs)
        case Ok((after, row)) => log == after && r == Ok(row)
        case Err(e) => log == old(log) && r == Err(e)
    {
      if !ValidName(channel) || text == "" {
        return Err(Validation);
      }
      var from := "";
      if sender.Some? {
        if !ValidName(sender.value) {
          return Err(Validation);
        }
        from := sender.value;
      }
      var members := if attrs.Some? then attrs.value else Object(0);
      if members == NotObject {
        return Err(Validation);
      }
      if log.lastSeq >= MAX_ROWID {
        return Err(Storage);
      }
      var q := log.lastSeq + 1;
      log := log.(messages := log.messages[q := Message(channel, from, text, members)], lastSeq := q);
      return Ok(Row(q, log.messages[q]));
    }

    /** Copies the selected rows out, in the order given. */
    method Collect(seqs: seq<nat>) returns (items: seq<Row>)
      requires forall q :: q in seqs ==> q in log.messages
      ensures items == Rows(log.messages, seqs)
    {
      items := [];
      for i := 0 to |seqs|
        invariant items == Rows(log.messages, seqs)[..i]
      {
        items := items + [Row(seqs[i], log.messages[seqs[i]])];
      }
    }

    method Receive(channel: string, subscriber: Option<string>, since: Option<int>, limit: nat) returns (r: Result<Batch, Error>)
      modifies this
      ensures match Recv(old(log), channel, subscriber, since, limit)
        case Ok((after, batch)) => log == after && r == Ok(batch)
        case Err(e) => log == old(log) && r == Err(e)
    {
      if !ValidName(channel) || (subscriber.Some? && since.Some?) || limit == 0 || limit > CHANNEL_LIMIT_MAX {
        return Err(Validation);
      }
      if since.Some? && since.value < 0 {
        return Err(Validation);
      }
      if subscriber.Some? && !ValidName(subscriber.value) {
        return Err(Validation);
      }
      var items, cursor;
      if subscriber.Some? {
        var sub := (channel, subscriber.value);
        var from := CursorOf(log.cursors, sub);
        PageLive(log.messages, channel, from, limit);
        items := Collect(Page(log.messages, channel, from, limit));
        if items == [] {
          cursor := from;
        } else {
          cursor := items[|items| - 1].rowid;
          log := log.(cursors := WriteCursor(log.cursors, sub, cursor));
        }
      } else {
        if since.Some? {
          PageLive(log.messages, channel, since.value, limit);
          items := Collect(Page(log.messages, channel, since.value, limit));
        } else {
          TailLive(log.messages, channel, limit);
          items := Collect(Last(Ascending(InChannel(log.messages, channel)), limit));
        }
        cursor := if items == [] then 0 else items[|items| - 1].rowid;
      }
      return Ok(Batch(items, LatestSeq(log.messages, channel), cursor));
    }

    /** What is left of the channel is exactly what it held from the bound on; everything else stays. */
    method PurgeBefore(channel: string, before: int) returns (r: Result<nat, Error>)
      modifies this
      ensures match Purge(old(log), channel, before)
        case Ok((after, n)) => log == after && r == Ok(n)
        case Err(e) => log == old(log) && r == Err(e)
      ensures r.Ok? <==> channel != "" && Bytes(channel) <= 128 && before > 0
      ensures r.Ok? ==> forall q :: q in log.messages <==> q in old(log).messages && (old(log).messages[q].channel == channel ==> q >= before)
      ensures r.Ok? ==> forall q :: q in log.messages ==> log.messages[q] == old(log).messages[q]
      ensures r.Ok? ==> |log.messages| + r.value == |old(log).messages|
      ensures log.cursors == old(log).cursors && log.lastSeq == old(log).lastSeq
    {
      if !ValidName(channel) || before <= 0 {
        return Err(Validation);
      }
      var gone := Below(log.messages, channel, before);
      KeysLost(log.messages, gone);
      log := log.(messages := log.messages - gone);
      return Ok(|gone|);
    }

    /** The subscriber's next page starts from the channel's beginning; every other subscription stands where it stood. */
    method EndSubscription(channel: string, subscriber: string) returns (r: Result<nat, Error>)
      modifies this
      ensures match Unsubscribe(old(log), channel, subscriber)
        case Ok((after, n)) => log == after && r == Ok(n)
        case Err(e) => log == old(log) && r == Err(e)
      ensures r.Ok? <==> ValidName(channel) && subscriber != "" && Bytes(subscriber) <= 128
      ensures r.Ok? ==> (r.value == 1 <==> (channel, subscriber) in old(log).cursors) && r.value <= 1
      ensures r.Ok? ==> forall limit: nat :: SubscriberPage(log, (channel, subscriber), limit) == Page(log.messages, channel, 0, limit)
      ensures forall sub: Subscription :: sub != (channel, subscriber) ==> CursorOf(log.cursors, sub) == CursorOf(old(log).cursors, sub)
      ensures log.messages == old(log).messages && log.lastSeq == old(log).lastSeq
    {
      if !ValidName(channel) || !ValidName(subscriber) {
        return Err(Validation);
      }
      r := Ok(if (channel, subscriber) in log.cursors then 1 else 0);
      log := log.(cursors := log.cursors - {(channel, subscriber)});
    }
  }
}
