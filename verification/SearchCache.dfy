/**
 * The daemon's search cache. A lookup is four asynchronous moments (load the generation, look, compute, store)
 * between which mutations, bumps and clears by other tasks may fall.
 */
module SearchCaching {
  import opened Prelude

  /** The generation is a `u64`. */
  const GENERATIONS: nat := 0x1_0000_0000_0000_0000

  type Tid = nat

  datatype Rpc = Semantic | Fulltext | Hybrid

  /** Everything hashed into a key, by name; hashing is taken to be collision free. */
  datatype Question = Question(rpc: Rpc, query: nat, limit: nat, blockType: Option<nat>, tag: Option<nat>, weights: Option<nat>)

  datatype Key = Key(generation: nat, question: Question)

  /** What the store answers to a question at one of its versions. */
  datatype Answer = Answer(version: nat, question: Question)

  datatype Tally = Tally(total: nat, semantic: nat, fulltext: nat, hybrid: nat)

  datatype Cache = Cache(entries: map<Key, Answer>, generation: nat, hits: Tally, misses: Tally)

  datatype Phase =
    | Loaded
    | CountingHit(value: Answer)
    | CountingMiss
    | Computing
    | Computed(value: Answer)
    | Returned(value: Answer)
    | Failed

  /** `born`: bumps when the generation was loaded; `since`: the version then; `awaiting`: mutations not yet bumped then. */
  datatype Task = Task(key: Key, born: nat, since: nat, awaiting: nat, phase: Phase)

  /** `published[b]`: the version of the store at bump number `b`. */
  datatype World = World(cache: Cache, version: nat, awaiting: nat, bumps: nat, published: map<nat, nat>, tasks: map<Tid, Task>)

  // ---- The cache ----

  function AddTotal(t: Tally): Tally {
    t.(total := t.total + 1)
  }

  function AddRpc(t: Tally, rpc: Rpc): Tally {
    match rpc
    case Semantic => t.(semantic := t.semantic + 1)
    case Fulltext => t.(fulltext := t.fulltext + 1)
    case Hybrid => t.(hybrid := t.hybrid + 1)
  }

  function Bumped(c: Cache): Cache {
    c.(generation := (c.generation + 1) % GENERATIONS)
  }

  /** Does not bump: after it every lookup misses whatever its generation. */
  function Cleared(c: Cache): Cache {
    c.(entries := map[])
  }

  function Looked(c: Cache, key: Key): (Cache, Option<Answer>) {
    if key in c.entries then (c.(hits := AddTotal(c.hits)), Some(c.entries[key]))
    else (c.(misses := AddTotal(c.misses)), None)
  }

  function Stored(c: Cache, key: Key, value: Answer): Cache {
    c.(entries := c.entries[key := value])
  }

  // ---- Steps ----

  datatype Op =
    | Mutate
    | Publish
    | ExtraBump
    | Clear
    | Begin(t: Tid, question: Question)
    | Look(t: Tid)
    | Count(t: Tid)
    | Compute(t: Tid)
    | FailCompute(t: Tid)
    | StoreResult(t: Tid)

  predicate In(w: World, t: Tid, loaded: bool, counting: bool, computing: bool, computed: bool) {
    && t in w.tasks
    && match w.tasks[t].phase
       case Loaded => loaded
       case CountingHit(_) => counting
       case CountingMiss => counting
       case Computing => computing
       case Computed(_) => computed
       case _ => false
  }

  predicate Enabled(w: World, op: Op) {
    match op
    case Publish => w.awaiting > 0
    case Begin(t, _) => t !in w.tasks
    case Look(t) => In(w, t, true, false, false, false)
    case Count(t) => In(w, t, false, true, false, false)
    case Compute(t) => In(w, t, false, false, true, false)
    case FailCompute(t) => In(w, t, false, false, true, false)
    case StoreResult(t) => In(w, t, false, false, false, true)
    case _ => true
  }

  function WithBump(w: World): World {
    w.(cache := Bumped(w.cache), bumps := w.bumps + 1, published := w.published[w.bumps + 1 := w.version])
  }

  function SetPhase(w: World, t: Tid, phase: Phase): World
    requires t in w.tasks
  {
    w.(tasks := w.tasks[t := w.tasks[t].(phase := phase)])
  }

  function Next(w: World, op: Op): World
    requires Enabled(w, op)
  {
    match op
    case Mutate => w.(version := w.version + 1, awaiting := w.awaiting + 1)
    case Publish => WithBump(w).(awaiting := w.awaiting - 1)
    case ExtraBump => WithBump(w)
    case Clear => w.(cache := Cleared(w.cache))
    case Begin(t, question) =>
      w.(tasks := w.tasks[t := Task(Key(w.cache.generation, question), w.bumps, w.version, w.awaiting, Loaded)])
    case Look(t) =>
      var (cache, found) := Looked(w.cache, w.tasks[t].key);
      SetPhase(w, t, if found.Some? then CountingHit(found.value) else CountingMiss).(cache := cache)
    case Count(t) =>
      var rpc := w.tasks[t].key.question.rpc;
      if w.tasks[t].phase.CountingHit? then
        SetPhase(w, t, Returned(w.tasks[t].phase.value)).(cache := w.cache.(hits := AddRpc(w.cache.hits, rpc)))
      else
        SetPhase(w, t, Computing).(cache := w.cache.(misses := AddRpc(w.cache.misses, rpc)))
    case Compute(t) => SetPhase(w, t, Computed(Answer(w.version, w.tasks[t].key.question)))
    case FailCompute(t) => SetPhase(w, t, Failed)
    case StoreResult(t) =>
      SetPhase(w, t, Returned(w.tasks[t].phase.value)).(cache := Stored(w.cache, w.tasks[t].key, w.tasks[t].phase.value))
  }

  const START := World(Cache(map[], 0, Tally(0, 0, 0, 0), Tally(0, 0, 0, 0)), 0, 0, 0, map[0 := 0], map[])

  ghost predicate Run(ws: seq<World>, ops: seq<Op>) {
    && |ws| == |ops| + 1
    && ws[0] == START
    && forall i :: 0 <= i < |ops| ==> Enabled(ws[i], ops[i]) && ws[i + 1] == Next(ws[i], ops[i])
  }

  // ---- Freshness ----

  /** The bump log is complete, and versions in it only grow. */
  ghost predicate Logged(published: map<nat, nat>, bumps: nat, version: nat) {
    && (forall b: nat :: b in published <==> b <= bumps)
    && (forall a, b :: a in published && b in published && a <= b ==> published[a] <= published[b])
    && published[bumps] <= version
  }

  /** An answer stored under bump `b`: to that question, from a version no older than the one `b` published. */
  ghost predicate Fresh(published: map<nat, nat>, version: nat, b: nat, question: Question, value: Answer) {
    b in published && value.question == question && published[b] <= value.version <= version
  }

  ghost predicate EntriesFresh(entries: map<Key, Answer>, published: map<nat, nat>, version: nat) {
    forall k :: k in entries ==> Fresh(published, version, k.generation, k.question, entries[k])
  }

  function ValueOf(phase: Phase): Option<Answer> {
    match phase
    case CountingHit(v) => Some(v)
    case Computed(v) => Some(v)
    case Returned(v) => Some(v)
    case _ => None
  }

  ghost predicate TaskFresh(published: map<nat, nat>, version: nat, t: Task) {
    && t.born in published && t.key.generation == t.born
    && t.since <= version && t.since <= published[t.born] + t.awaiting
    && (ValueOf(t.phase).Some? ==> Fresh(published, version, t.born, t.key.question, ValueOf(t.phase).value))
  }

  ghost predicate TasksFresh(tasks: map<Tid, Task>, published: map<nat, nat>, version: nat) {
    forall t :: t in tasks ==> TaskFresh(published, version, tasks[t])
  }

  ghost predicate AllFresh(w: World) {
    && Logged(w.published, w.bumps, w.version)
    && w.version <= w.published[w.bumps] + w.awaiting
    && w.cache.generation == w.bumps % GENERATIONS
    && EntriesFresh(w.cache.entries, w.published, w.version)
    && TasksFresh(w.tasks, w.published, w.version)
  }

  /** A later version and a longer bump log spoil nothing. */
  lemma {:induction false} StaysFresh(entries: map<Key, Answer>, tasks: map<Tid, Task>, published: map<nat, nat>, version: nat,
                                      published': map<nat, nat>, version': nat)
    requires EntriesFresh(entries, published, version) && TasksFresh(tasks, published, version)
    requires version <= version' && forall b :: b in published ==> b in published' && published'[b] == published[b]
    ensures EntriesFresh(entries, published', version') && TasksFresh(tasks, published', version')
  {
    forall k | k in entries
      ensures Fresh(published', version', k.generation, k.question, entries[k])
    {
      assert Fresh(published, version, k.generation, k.question, entries[k]);
    }
    forall t | t in tasks
      ensures TaskFresh(published', version', tasks[t])
    {
      assert TaskFresh(published, version, tasks[t]);
    }
  }

  lemma {:induction false} TaskSet(tasks: map<Tid, Task>, published: map<nat, nat>, version: nat, t: Tid, task: Task)
    requires TasksFresh(tasks, published, version) && TaskFresh(published, version, task)
    ensures TasksFresh(tasks[t := task], published, version)
  {
  }

  lemma {:induction false} BumpLogged(published: map<nat, nat>, bumps: nat, version: nat)
    requires Logged(published, bumps, version)
    ensures Logged(published[bumps + 1 := version], bumps + 1, version)
  {
    forall b | b in published
      ensures published[b] <= version
    {
      assert published[b] <= published[bumps];
    }
  }

  lemma {:induction false} NextGeneration(b: nat)
    requires b + 1 < GENERATIONS
    ensures b % GENERATIONS == b && (b % GENERATIONS + 1) % GENERATIONS == (b + 1) % GENERATIONS
  {
  }

  lemma {:induction false} BumpKeeps(w: World, awaiting: nat)
    requires AllFresh(w) && w.bumps + 1 < GENERATIONS
    ensures AllFresh(WithBump(w).(awaiting := awaiting))
  {
    NextGeneration(w.bumps);
    BumpLogged(w.published, w.bumps, w.version);
    StaysFresh(w.cache.entries, w.tasks, w.published, w.version, w.published[w.bumps + 1 := w.version], w.version);
  }

  /** The step a task takes leaves it fresh. */
  lemma {:induction false} TaskStepFresh(w: World, op: Op, t: Tid)
    requires AllFresh(w) && Enabled(w, op) && w.bumps < GENERATIONS
    requires op == Look(t) || op == Count(t) || op == Compute(t) || op == FailCompute(t) || op == StoreResult(t)
    ensures TaskFresh(w.published, w.version, Next(w, op).tasks[t])
  {
    var task := w.tasks[t];
    assert TaskFresh(w.published, w.version, task);
    if op.Look? && task.key in w.cache.entries {
      assert Fresh(w.published, w.version, task.key.generation, task.key.question, w.cache.entries[task.key]);
    }
    assert w.published[task.born] <= w.published[w.bumps];
  }

  lemma {:induction false} StepKeepsFresh(w: World, op: Op)
    requires AllFresh(w) && Enabled(w, op) && Next(w, op).bumps < GENERATIONS
    ensures AllFresh(Next(w, op))
  {
    match op
    case Mutate =>
      StaysFresh(w.cache.entries, w.tasks, w.published, w.version, w.published, w.version + 1);
    case Publish => BumpKeeps(w, w.awaiting - 1);
    case ExtraBump => BumpKeeps(w, w.awaiting);
    case Clear =>
    case Begin(t, question) => TaskSet(w.tasks, w.published, w.version, t, Next(w, op).tasks[t]);
    case _ =>
      TaskStepFresh(w, op, op.t);
      TaskSet(w.tasks, w.published, w.version, op.t, Next(w, op).tasks[op.t]);
  }

  lemma {:induction false} RunStep(ws: seq<World>, ops: seq<Op>, i: nat)
    requires Run(ws, ops) && 0 < i < |ws|
    ensures Enabled(ws[i - 1], ops[i - 1]) && ws[i] == Next(ws[i - 1], ops[i - 1])
  {
  }

  lemma {:induction false} BumpsGrow(ws: seq<World>, ops: seq<Op>, i: nat, j: nat)
    requires Run(ws, ops) && i <= j < |ws|
    ensures ws[i].bumps <= ws[j].bumps
    decreases j - i
  {
    if i < j {
      BumpsGrow(ws, ops, i, j - 1);
      assert ws[j] == Next(ws[j - 1], ops[j - 1]);
    }
  }

  /** Main result: in every run, until the counter itself wraps, every cached answer is at least as new as its generation. */
  lemma {:induction false} RunsStayFresh(ws: seq<World>, ops: seq<Op>, i: nat)
    requires Run(ws, ops) && i < |ws| && ws[i].bumps < GENERATIONS
    ensures AllFresh(ws[i])
  {
    if i > 0 {
      BumpsGrow(ws, ops, i - 1, i);
      RunsStayFresh(ws, ops, i - 1);
      StepKeepsFresh(ws[i - 1], ops[i - 1]);
    }
  }

  /** Nothing awaits its bump: a hit under the current generation is what a compute would answer now. */
  lemma {:induction false} HitEqualsFreshCompute(ws: seq<World>, ops: seq<Op>, i: nat, question: Question)
    requires Run(ws, ops) && i < |ws| && ws[i].bumps < GENERATIONS
    requires ws[i].awaiting == 0 && Key(ws[i].cache.generation, question) in ws[i].cache.entries
    ensures ws[i].cache.entries[Key(ws[i].cache.generation, question)] == Answer(ws[i].version, question)
  {
    RunsStayFresh(ws, ops, i);
    var w, key := ws[i], Key(ws[i].cache.generation, question);
    assert Fresh(w.published, w.version, key.generation, question, w.cache.entries[key]);
  }

  /**
   * A lookup, hit or miss, answers from a version within its own lifetime, save for mutations that were still
   * awaiting their bump when it began; with none of those it is as good as a compute at some moment of it.
   */
  lemma {:induction false} LookupsLinearize(ws: seq<World>, ops: seq<Op>, i: nat, t: Tid)
    requires Run(ws, ops) && i < |ws| && ws[i].bumps < GENERATIONS
    requires t in ws[i].tasks && ws[i].tasks[t].phase.Returned?
    ensures var task := ws[i].tasks[t]; var value := task.phase.value;
      && value.question == task.key.question
      && task.since <= value.version + task.awaiting && value.version <= ws[i].version
      && (task.awaiting == 0 ==> task.since <= value.version <= ws[i].version)
  {
    RunsStayFresh(ws, ops, i);
    assert TaskFresh(ws[i].published, ws[i].version, ws[i].tasks[t]);
  }

  /** One uninterrupted lookup that computes. */
  lemma {:induction false} ColdLookup(question: Question) returns (ws: seq<World>, ops: seq<Op>)
    ensures Run(ws, ops) && |ws| == 6
    ensures ws[5].cache.entries == map[Key(0, question) := Answer(0, question)] && ws[5].cache.generation == 0
    ensures ws[5].awaiting == 0 && ws[5].version == 0 && 1 !in ws[5].tasks
  {
    var w1 := Next(START, Begin(0, question));
    var w2 := Next(w1, Look(0));
    assert Run([START, w1, w2], [Begin(0, question), Look(0)]);
    ws, ops := MissComputes([START, w1, w2], [Begin(0, question), Look(0)], question);
  }

  /** A lookup that has found nothing goes on alone. */
  lemma {:induction false} MissComputes(ws: seq<World>, ops: seq<Op>, question: Question) returns (ws': seq<World>, ops': seq<Op>)
    requires Run(ws, ops) && |ws| == 3
    requires 0 in ws[2].tasks && ws[2].tasks[0].key == Key(0, question) && ws[2].tasks[0].phase == CountingMiss
    requires ws[2].cache.entries == map[] && ws[2].cache.generation == 0 && ws[2].awaiting == 0 && ws[2].version == 0 && 1 !in ws[2].tasks
    ensures Run(ws', ops') && |ws'| == 6
    ensures ws'[5].cache.entries == map[Key(0, question) := Answer(0, question)] && ws'[5].cache.generation == 0
    ensures ws'[5].awaiting == 0 && ws'[5].version == 0 && 1 !in ws'[5].tasks
  {
    var w3 := Next(ws[2], Count(0));
    var w4 := Next(w3, Compute(0));
    var w5 := Next(w4, StoreResult(0));
    Extend(ws, ops, Count(0));
    Extend(ws + [w3], ops + [Count(0)], Compute(0));
    Extend(ws + [w3] + [w4], ops + [Count(0)] + [Compute(0)], StoreResult(0));
    ws', ops' := ws + [w3] + [w4] + [w5], ops + [Count(0)] + [Compute(0)] + [StoreResult(0)];
  }

  lemma {:induction false} Extend(ws: seq<World>, ops: seq<Op>, op: Op)
    requires Run(ws, ops) && Enabled(ws[|ops|], op)
    ensures Run(ws + [Next(ws[|ops|], op)], ops + [op])
  {
  }

  /** A lookup that loaded its generation before a bump may hit an answer older than the store, with nothing awaiting. */
  lemma {:induction false} SlowLookupMayHitOldAnswer(question: Question) returns (ws: seq<World>, ops: seq<Op>)
    ensures Run(ws, ops) && |ws| == 10
    ensures ws[9].awaiting == 0 && ws[9].version == 1
    ensures 1 in ws[9].tasks && ws[9].tasks[1].phase == CountingHit(Answer(0, question))
  {
    ws, ops := ColdLookup(question);
    var w6 := Next(ws[5], Begin(1, question));
    Extend(ws, ops, Begin(1, question));
    var w7 := Next(w6, Mutate);
    Extend(ws + [w6], ops + [Begin(1, question)], Mutate);
    var w8 := Next(w7, Publish);
    Extend(ws + [w6] + [w7], ops + [Begin(1, question)] + [Mutate], Publish);
    assert w8.cache.entries == ws[5].cache.entries && w8.tasks[1].key == Key(0, question) && w8.tasks[1].phase == Loaded;
    Extend(ws + [w6] + [w7] + [w8], ops + [Begin(1, question)] + [Mutate] + [Publish], Look(1));
    ws := ws + [w6] + [w7] + [w8] + [Next(w8, Look(1))];
    ops := ops + [Begin(1, question)] + [Mutate] + [Publish] + [Look(1)];
  }

  // ---- Exactly which hits are current ----

  ghost predicate Reachable(w: World) {
    exists ws, ops :: Run(ws, ops) && ws[|ops|] == w
  }

  lemma {:induction false} ReachStart()
    ensures Reachable(START)
  {
    assert Run([START], []);
  }

  lemma {:induction false} ReachNext(w: World, op: Op)
    requires Reachable(w) && Enabled(w, op)
    ensures Reachable(Next(w, op))
  {
    var ws, ops :| Run(ws, ops) && ws[|ops|] == w;
    Extend(ws, ops, op);
    assert (ws + [Next(w, op)])[|ops + [op]|] == Next(w, op);
  }

  /** The same mutations and bumps have happened. */
  ghost predicate SameLog(a: World, b: World) {
    && a.version == b.version && a.awaiting == b.awaiting && a.bumps == b.bumps && a.published == b.published
    && a.cache.generation == b.cache.generation
  }

  predicate Environment(op: Op) {
    op.Mutate? || op.Publish? || op.ExtraBump?
  }

  /** What tasks and clears do leaves the log alone; what the environment does depends on the log alone. */
  lemma {:induction false} LogStep(a: World, b: World, op: Op)
    requires SameLog(a, b) && Enabled(a, op)
    ensures !Environment(op) ==> SameLog(Next(a, op), b)
    ensures Environment(op) ==> Enabled(b, op) && SameLog(Next(a, op), Next(b, op))
    ensures Environment(op) ==> Next(b, op).tasks == b.tasks && Next(b, op).cache.entries == b.cache.entries
  {
  }

  /** The same log, with nothing asked yet. */
  lemma {:induction false} Unasked(ws: seq<World>, ops: seq<Op>, i: nat) returns (e: World)
    requires Run(ws, ops) && i < |ws|
    ensures Reachable(e) && SameLog(ws[i], e) && e.tasks == map[] && e.cache.entries == map[]
  {
    if i == 0 {
      ReachStart();
      e := START;
    } else {
      e := Unasked(ws, ops, i - 1);
      LogStep(ws[i - 1], e, ops[i - 1]);
      if Environment(ops[i - 1]) {
        ReachNext(e, ops[i - 1]);
        e := Next(e, ops[i - 1]);
      }
    }
  }

  /** Task 0 has stored the answer of bump `b`, and task 1 has loaded the generation of bump `b`. */
  ghost predicate Poised(w: World, b: nat, question: Question, answer: Answer) {
    && Key(b, question) in w.cache.entries && w.cache.entries[Key(b, question)] == answer
    && 1 in w.tasks && w.tasks[1].key == Key(b, question) && w.tasks[1].born == b && w.tasks[1].phase == Loaded
  }

  /** Nothing asked yet: one lookup misses. */
  lemma {:induction false} FirstMiss(e: World, question: Question) returns (w: World)
    requires Reachable(e) && e.tasks == map[] && e.cache.entries == map[] && e.cache.generation == e.bumps
    ensures Reachable(w) && SameLog(e, w) && w.cache.entries == map[]
    ensures w.tasks.Keys == {0} && w.tasks[0].key == Key(e.bumps, question) && w.tasks[0].phase == Computing
  {
    var w1 := Next(e, Begin(0, question));
    ReachNext(e, Begin(0, question));
    var w2 := Next(w1, Look(0));
    ReachNext(w1, Look(0));
    w := Next(w2, Count(0));
    ReachNext(w2, Count(0));
  }

  lemma {:induction false} FirstAnswer(e: World, question: Question) returns (w: World)
    requires Reachable(e) && e.cache.entries == map[]
    requires e.tasks.Keys == {0} && e.tasks[0].key == Key(e.bumps, question) && e.tasks[0].phase == Computing
    ensures Reachable(w) && SameLog(e, w) && w.tasks.Keys == {0} && w.cache.entries == map[Key(e.bumps, question) := Answer(e.version, question)]
  {
    var w1 := Next(e, Compute(0));
    ReachNext(e, Compute(0));
    w := Next(w1, StoreResult(0));
    ReachNext(w1, StoreResult(0));
  }

  /** Right after bump `b`: one lookup computes, another begins. */
  lemma {:induction false} Poise(e: World, question: Question) returns (w: World)
    requires Reachable(e) && e.tasks == map[] && e.cache.entries == map[] && e.cache.generation == e.bumps
    ensures Reachable(w) && SameLog(e, w) && Poised(w, e.bumps, question, Answer(e.version, question))
  {
    var missed := FirstMiss(e, question);
    var answered := FirstAnswer(missed, question);
    w := Next(answered, Begin(1, question));
    ReachNext(answered, Begin(1, question));
  }

  lemma {:induction false} StaysPoised(a: World, b: World, op: Op, bump: nat, question: Question, answer: Answer) returns (w: World)
    requires Reachable(b) && SameLog(a, b) && Enabled(a, op) && Poised(b, bump, question, answer)
    ensures Reachable(w) && SameLog(Next(a, op), w) && Poised(w, bump, question, answer)
  {
    LogStep(a, b, op);
    if Environment(op) {
      ReachNext(b, op);
      w := Next(b, op);
    } else {
      w := b;
    }
  }

  lemma {:induction false} NewBump(w: World, op: Op, b: nat)
    requires AllFresh(w) && Enabled(w, op) && Next(w, op).bumps < GENERATIONS && b in Next(w, op).published && b !in w.published
    ensures Next(w, op).bumps == b && Next(w, op).published[b] == Next(w, op).version && Next(w, op).cache.generation == b
  {
    assert op.Publish? || op.ExtraBump?;
    NextGeneration(w.bumps);
  }

  lemma {:induction false} BumpIsLast(ws: seq<World>, ops: seq<Op>, i: nat, b: nat)
    requires Run(ws, ops) && i < |ws| && ws[i].bumps < GENERATIONS && b in ws[i].published && (i == 0 || b !in ws[i - 1].published)
    ensures ws[i].bumps == b && ws[i].published[b] == ws[i].version && ws[i].cache.generation == b
  {
    if i > 0 {
      BumpsGrow(ws, ops, i - 1, i);
      RunsStayFresh(ws, ops, i - 1);
      RunStep(ws, ops, i);
      NewBump(ws[i - 1], ops[i - 1], b);
    }
  }

  lemma {:induction false} LogKeeps(w: World, op: Op, b: nat)
    requires AllFresh(w) && Enabled(w, op) && b in w.published
    ensures b in Next(w, op).published && Next(w, op).published[b] == w.published[b]
  {
  }

  lemma {:induction false} BumpStays(ws: seq<World>, ops: seq<Op>, i: nat, b: nat)
    requires Run(ws, ops) && 0 < i < |ws| && ws[i].bumps < GENERATIONS && b in ws[i - 1].published
    ensures ws[i - 1].bumps < GENERATIONS && Enabled(ws[i - 1], ops[i - 1]) && ws[i] == Next(ws[i - 1], ops[i - 1])
    ensures b in ws[i].published && ws[i].published[b] == ws[i - 1].published[b]
  {
    BumpsGrow(ws, ops, i - 1, i);
    RunsStayFresh(ws, ops, i - 1);
    RunStep(ws, ops, i);
    LogKeeps(ws[i - 1], ops[i - 1], b);
  }

  /** For every log and every bump in it, a run with that log has a lookup poised on the answer of that bump. */
  lemma {:induction false} PoisedRun(ws: seq<World>, ops: seq<Op>, i: nat, b: nat, question: Question) returns (w: World)
    requires Run(ws, ops) && i < |ws| && ws[i].bumps < GENERATIONS && b in ws[i].published
    ensures Reachable(w) && SameLog(ws[i], w) && Poised(w, b, question, Answer(ws[i].published[b], question))
    decreases i
  {
    if i > 0 && b in ws[i - 1].published {
      BumpStays(ws, ops, i, b);
      w := PoisedRun(ws, ops, i - 1, b, question);
      w := StaysPoised(ws[i - 1], w, ops[i - 1], b, question, Answer(ws[i].published[b], question));
    } else {
      BumpIsLast(ws, ops, i, b);
      var e := Unasked(ws, ops, i);
      w := Poise(e, question);
    }
  }

  /** Under the log of `w`, whatever else happened, a hit by a lookup born at bump `b` is the current answer. */
  ghost predicate HitsAreCurrent(w: World, b: nat, question: Question) {
    forall v, t :: Reachable(v) && SameLog(w, v) && HitBy(v, t, b, question) ==> v.tasks[t].phase.value == Answer(w.version, question)
  }

  ghost predicate HitBy(w: World, t: Tid, b: nat, question: Question) {
    t in w.tasks && w.tasks[t].born == b && w.tasks[t].key.question == question && w.tasks[t].phase.CountingHit?
  }

  lemma {:induction false} ReachedFresh(w: World)
    requires Reachable(w) && w.bumps < GENERATIONS
    ensures AllFresh(w)
  {
    var ws, ops :| Run(ws, ops) && ws[|ops|] == w;
    RunsStayFresh(ws, ops, |ops|);
  }

  lemma {:induction false} OldHitExists(w: World, b: nat, question: Question) returns (v: World)
    requires Reachable(w) && w.bumps < GENERATIONS && b in w.published
    ensures Reachable(v) && SameLog(w, v) && HitBy(v, 1, b, question) && v.tasks[1].phase.value == Answer(w.published[b], question)
  {
    var ws, ops :| Run(ws, ops) && ws[|ops|] == w;
    var u := PoisedRun(ws, ops, |ops|, b, question);
    ReachNext(u, Look(1));
    v := Next(u, Look(1));
  }

  lemma {:induction false} HitIsCurrent(w: World, v: World, t: Tid, b: nat, question: Question)
    requires Reachable(v) && SameLog(w, v) && w.bumps < GENERATIONS && HitBy(v, t, b, question)
    requires b in w.published && w.published[b] == w.version
    ensures v.tasks[t].phase.value == Answer(w.version, question)
  {
    ReachedFresh(v);
    assert TaskFresh(v.published, v.version, v.tasks[t]);
  }

  /** Main result: a hit is sure to be current exactly when nothing changed since the bump its lookup was born at. */
  lemma {:induction false} HitsCurrentExactlyWhen(w: World, b: nat, question: Question)
    requires Reachable(w) && w.bumps < GENERATIONS && b in w.published
    ensures HitsAreCurrent(w, b, question) <==> w.published[b] == w.version
  {
    if w.published[b] == w.version {
      forall v, t | Reachable(v) && SameLog(w, v) && HitBy(v, t, b, question)
        ensures v.tasks[t].phase.value == Answer(w.version, question)
      {
        HitIsCurrent(w, v, t, b, question);
      }
    } else {
      var v := OldHitExists(w, b, question);
      assert HitBy(v, 1, b, question);
    }
  }

  /** Failures are never stored: a failing compute leaves the cache alone and its task without an answer. */
  lemma {:induction false} OnlyAnswersStored(w: World, op: Op, k: Key)
    requires Enabled(w, op) && k in Next(w, op).cache.entries
    ensures (k in w.cache.entries && Next(w, op).cache.entries[k] == w.cache.entries[k])
      || (op.StoreResult? && w.tasks[op.t].key == k && w.tasks[op.t].phase == Computed(Next(w, op).cache.entries[k]))
  {
  }

  // ---- Counters ----

  function ByRpc(t: Tally): nat {
    t.semantic + t.fulltext + t.hybrid
  }

  function Hitting(tasks: map<Tid, Task>): set<Tid> {
    set t | t in tasks && tasks[t].phase.CountingHit?
  }

  function Missing(tasks: map<Tid, Task>): set<Tid> {
    set t | t in tasks && tasks[t].phase.CountingMiss?
  }

  /** Each total is the sum over the RPCs, plus the lookups between their two increments. */
  ghost predicate Counted(hits: Tally, misses: Tally, tasks: map<Tid, Task>) {
    && hits.total == ByRpc(hits) + |Hitting(tasks)|
    && misses.total == ByRpc(misses) + |Missing(tasks)|
  }

  ghost predicate Tallied(w: World) {
    Counted(w.cache.hits, w.cache.misses, w.tasks)
  }

  lemma SizeWith(s: set<Tid>, t: Tid)
    ensures |s + {t}| == |s| + (if t in s then 0 else 1) && |s - {t}| == |s| - (if t in s then 1 else 0)
  {
    if t in s {
      assert s + {t} == s;
    } else {
      assert s - {t} == s;
    }
  }

  function One(b: bool): nat { if b then 1 else 0 }

  predicate IsHitting(tasks: map<Tid, Task>, t: Tid) { t in tasks && tasks[t].phase.CountingHit? }

  predicate IsMissing(tasks: map<Tid, Task>, t: Tid) { t in tasks && tasks[t].phase.CountingMiss? }

  lemma {:induction false} HittingSet(tasks: map<Tid, Task>, t: Tid, task: Task)
    ensures Hitting(tasks[t := task]) == if task.phase.CountingHit? then Hitting(tasks) + {t} else Hitting(tasks) - {t}
  {
  }

  lemma {:induction false} MissingSet(tasks: map<Tid, Task>, t: Tid, task: Task)
    ensures Missing(tasks[t := task]) == if task.phase.CountingMiss? then Missing(tasks) + {t} else Missing(tasks) - {t}
  {
  }

  /** How a change of one task's phase moves the two in-between counts. */
  lemma {:induction false} PhaseCounts(tasks: map<Tid, Task>, t: Tid, task: Task)
    ensures |Hitting(tasks[t := task])| == |Hitting(tasks)| + One(task.phase.CountingHit?) - One(IsHitting(tasks, t))
    ensures |Missing(tasks[t := task])| == |Missing(tasks)| + One(task.phase.CountingMiss?) - One(IsMissing(tasks, t))
  {
    HittingSet(tasks, t, task);
    MissingSet(tasks, t, task);
    SizeWith(Hitting(tasks), t);
    SizeWith(Missing(tasks), t);
  }

  lemma {:induction false} TaskStepTallies(w: World, op: Op, t: Tid)
    requires Tallied(w) && Enabled(w, op)
    requires op == Look(t) || op == Count(t)
    ensures Tallied(Next(w, op))
  {
    var w' := Next(w, op);
    assert w'.tasks == w.tasks[t := w'.tasks[t]];
    PhaseCounts(w.tasks, t, w'.tasks[t]);
  }

  lemma {:induction false} StepKeepsTallies(w: World, op: Op)
    requires Tallied(w) && Enabled(w, op)
    ensures Tallied(Next(w, op))
  {
    var w' := Next(w, op);
    if op.Look? || op.Count? {
      TaskStepTallies(w, op, op.t);
    } else if op.Begin? || op.Compute? || op.FailCompute? || op.StoreResult? {
      assert w'.tasks == w.tasks[op.t := w'.tasks[op.t]];
      PhaseCounts(w.tasks, op.t, w'.tasks[op.t]);
    } else {
      assert w'.tasks == w.tasks;
    }
  }

  lemma {:induction false} StartTallied()
    ensures Tallied(START)
  {
    assert Hitting(map[]) == {} && Missing(map[]) == {};
  }

  lemma {:induction false} RunsStayTallied(ws: seq<World>, ops: seq<Op>, i: nat)
    requires Run(ws, ops) && i < |ws|
    ensures Tallied(ws[i])
  {
    if i == 0 {
      StartTallied();
    } else {
      RunsStayTallied(ws, ops, i - 1);
      RunStep(ws, ops, i);
      StepKeepsTallies(ws[i - 1], ops[i - 1]);
    }
  }

  function CountOf(t: Tally, rpc: Rpc): nat {
    match rpc
    case Semantic => t.semantic
    case Fulltext => t.fulltext
    case Hybrid => t.hybrid
  }

  /** The steps at which a lookup of the RPC that found something, or found nothing, was counted. */
  function CountedAt(ws: seq<World>, ops: seq<Op>, n: nat, rpc: Rpc, hit: bool): set<int>
    requires n <= |ops| && |ws| == |ops| + 1
  {
    set i | 0 <= i < n && ops[i].Count? && ops[i].t in ws[i].tasks && ws[i].tasks[ops[i].t].key.question.rpc == rpc
            && ws[i].tasks[ops[i].t].phase.CountingHit? == hit
  }

  /** Main result: over any run each counter of an RPC is the number of its lookups that were counted there. */
  lemma {:induction false} CountersCountLookups(ws: seq<World>, ops: seq<Op>, n: nat, rpc: Rpc)
    requires Run(ws, ops) && n <= |ops|
    ensures CountOf(ws[n].cache.hits, rpc) == |CountedAt(ws, ops, n, rpc, true)|
    ensures CountOf(ws[n].cache.misses, rpc) == |CountedAt(ws, ops, n, rpc, false)|
  {
    if n == 0 {
      assert CountedAt(ws, ops, 0, rpc, true) == {} && CountedAt(ws, ops, 0, rpc, false) == {};
    } else {
      CountersCountLookups(ws, ops, n - 1, rpc);
      RunStep(ws, ops, n);
      StepCounts(ws[n - 1], ops[n - 1], rpc);
      CountedPush(ws, ops, n, rpc, true);
      CountedPush(ws, ops, n, rpc, false);
    }
  }

  predicate Counts(w: World, op: Op, rpc: Rpc, hit: bool) {
    op.Count? && op.t in w.tasks && w.tasks[op.t].key.question.rpc == rpc && w.tasks[op.t].phase.CountingHit? == hit
  }

  lemma {:induction false} CountedPush(ws: seq<World>, ops: seq<Op>, n: nat, rpc: Rpc, hit: bool)
    requires 0 < n <= |ops| && |ws| == |ops| + 1
    ensures |CountedAt(ws, ops, n, rpc, hit)| == |CountedAt(ws, ops, n - 1, rpc, hit)| + if Counts(ws[n - 1], ops[n - 1], rpc, hit) then 1 else 0
  {
    var before := CountedAt(ws, ops, n - 1, rpc, hit);
    assert CountedAt(ws, ops, n, rpc, hit) == if Counts(ws[n - 1], ops[n - 1], rpc, hit) then before + {n - 1} else before;
    assert n - 1 !in before;
  }

  lemma {:induction false} StepCounts(w: World, op: Op, rpc: Rpc)
    requires Enabled(w, op)
    ensures CountOf(Next(w, op).cache.hits, rpc) == CountOf(w.cache.hits, rpc) + if Counts(w, op, rpc, true) then 1 else 0
    ensures CountOf(Next(w, op).cache.misses, rpc) == CountOf(w.cache.misses, rpc) + if Counts(w, op, rpc, false) then 1 else 0
  {
  }

  // ---- The object ----

  class SearchCache {
    var state: Cache

    /** No entry is keyed by a generation still to come. */
    ghost predicate Bounded()
      reads this
    {
      forall k :: k in state.entries ==> k.generation <= state.generation
    }

    constructor ()
      ensures state == START.cache && Bounded()
    {
      state := START.cache;
    }

    /** Until the counter wraps nothing cached can be found under the new generation, and nothing cached is lost. */
    method BumpGeneration()
      modifies this
      ensures state == Bumped(old(state)) && state.entries == old(state).entries
      ensures old(Bounded()) && old(state).generation + 1 < GENERATIONS ==>
        Bounded() && forall question :: Looked(state, Key(state.generation, question)).1 == None
    {
      state := state.(generation := (state.generation + 1) % GENERATIONS);
    }

    /** Afterwards every lookup misses, whatever generation it loaded. */
    method ClearAll() returns (cleared: nat)
      modifies this
      ensures forall key :: Looked(state, key).1 == None
      ensures cleared == |old(state).entries| && state == old(state).(entries := state.entries) && Bounded()
    {
      cleared := |state.entries|;
      state := state.(entries := map[]);
    }

    /** The look and both counter increments, for a task nobody interrupts: the entries stay, one lookup is counted. */
    method Find(key: Key) returns (found: Option<Answer>)
      modifies this
      ensures found == Looked(old(state), key).1
      ensures state == if found.Some? then Looked(old(state), key).0.(hits := AddRpc(AddTotal(old(state).hits), key.question.rpc))
                       else Looked(old(state), key).0.(misses := AddRpc(AddTotal(old(state).misses), key.question.rpc))
      ensures found == (if key in old(state).entries then Some(old(state).entries[key]) else None) && state.entries == old(state).entries
      ensures forall rpc ::
        && CountOf(state.hits, rpc) == CountOf(old(state).hits, rpc) + (if found.Some? && rpc == key.question.rpc then 1 else 0)
        && CountOf(state.misses, rpc) == CountOf(old(state).misses, rpc) + (if found.None? && rpc == key.question.rpc then 1 else 0)
    {
      if key in state.entries {
        found := Some(state.entries[key]);
        BumpCounter(key.question.rpc, true);
      } else {
        found := None;
        BumpCounter(key.question.rpc, false);
      }
    }

    /** One more hit or miss, in total and over the RPCs together; a total that was the sum of its RPCs still is. */
    method BumpCounter(rpc: Rpc, hit: bool)
      modifies this
      ensures state == if hit then old(state).(hits := AddRpc(AddTotal(old(state).hits), rpc))
                       else old(state).(misses := AddRpc(AddTotal(old(state).misses), rpc))
      ensures state.hits.total + state.misses.total == old(state).hits.total + old(state).misses.total + 1
      ensures ByRpc(state.hits) - state.hits.total == ByRpc(old(state).hits) - old(state).hits.total
      ensures ByRpc(state.misses) - state.misses.total == ByRpc(old(state).misses) - old(state).misses.total
    {
      if hit {
        state := state.(hits := state.hits.(total := state.hits.total + 1));
        state := state.(hits := AddRpc(state.hits, rpc));
      } else {
        state := state.(misses := state.misses.(total := state.misses.total + 1));
        state := state.(misses := AddRpc(state.misses, rpc));
      }
    }

    /** A kept answer is what the next lookup of its key finds, other keys find what they found, and an error leaves no trace. */
    method Settle(key: Key, result: Result<Answer, nat>) returns (r: Result<Answer, nat>)
      modifies this
      ensures r == result && (result.Err? ==> state == old(state))
      ensures result.Ok? ==> Looked(state, key).1 == Some(result.value)
      ensures forall other :: other != key ==> Looked(state, other).1 == Looked(old(state), other).1
      ensures state == old(state).(entries := state.entries)
      ensures old(Bounded()) && key.generation <= state.generation ==> Bounded()
    {
      if result.Ok? {
        state := state.(entries := state.entries[key := result.value]);
      }
      r := result;
    }
  }
}
