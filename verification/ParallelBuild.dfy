/**
 * The parallel index build (src/am/build_parallel.c): workers fill two buffers each, a leader
 * merges the ready ones into segments. Each read or write of a status flag or of the counter
 * of finished workers is a step of its own, and the steps of workers and leader interleave
 * freely. Emptying a buffer and marking it empty is one step, since only the leader reads a
 * ready buffer.
 */
module ParallelBuild {
  import opened ItemPointers
  import opened Sequences
  import opened Wrappers

  /** A heap tuple; `terms` is 0 when its text is null or yields no term. */
  datatype Tuple = Tuple(ctid: ItemPointer, terms: nat)

  datatype Status = Empty | Filling | Ready

  datatype Buffer = Buffer(status: Status, docs: seq<Tuple>)

  /** Where a worker stands; it holds the tuple it has fetched until it has put it into a buffer. */
  datatype Pc = Start | Scan | Got(tuple: Tuple) | Wait(tuple: Tuple) | Put(tuple: Tuple) | Finished | Done

  datatype Worker = Worker(active: nat, pc: Pc)

  /** Where the leader stands in its loop, with the buffers it found ready. */
  datatype Leader =
    | Sampling(next: nat, ready: seq<nat>)
    | Checking(ready: seq<nat>)
    | Merging(ready: seq<nat>, allDone: bool)
    | Clearing(ready: seq<nat>, k: nat, allDone: bool)
    | Exited

  /** Worker w owns buffers 2w and 2w + 1. `scanned` collects the documents put into buffers. */
  datatype State = State(heap: seq<Tuple>, threshold: nat, remaining: seq<Tuple>, workers: seq<Worker>,
                         buffers: seq<Buffer>, leader: Leader, workersDone: nat, segments: seq<multiset<Tuple>>,
                         scanned: multiset<Tuple>)

  function Postings(docs: seq<Tuple>): nat {
    if docs == [] then 0 else docs[0].terms + Postings(docs[1..])
  }

  ghost predicate Init(s: State, n: nat) {
    && s.remaining == s.heap && s.workers == seq(n, _ => Worker(0, Start))
    && s.buffers == seq(2 * n, _ => Buffer(Empty, []))
    && s.leader == Sampling(0, []) && s.workersDone == 0 && s.segments == [] && s.scanned == multiset{}
  }

  function SetStatus(s: State, i: nat, status: Status): State
    requires i < |s.buffers|
  {
    s.(buffers := s.buffers[i := s.buffers[i].(status := status)])
  }

  function SetWorker(s: State, w: nat, worker: Worker): State
    requires w < |s.workers|
  {
    s.(workers := s.workers[w := worker])
  }

  function ActiveBuffer(s: State, w: nat): nat
    requires w < |s.workers|
  {
    2 * w + s.workers[w].active
  }

  function OtherBuffer(s: State, w: nat): nat
    requires w < |s.workers| && s.workers[w].active <= 1
  {
    2 * w + 1 - s.workers[w].active
  }

  /** tp_worker_process_document: a tuple without terms leaves the buffer alone. */
  function Process(s: State, i: nat, t: Tuple): State
    requires i < |s.buffers|
  {
    if t.terms == 0 then s
    else s.(buffers := s.buffers[i := s.buffers[i].(docs := s.buffers[i].docs + [t])], scanned := s.scanned + multiset{t})
  }

  /** The next step of worker w (tp_parallel_build_worker_main), None when it must wait or is done. */
  function WorkerNext(s: State, w: nat): Option<State>
    requires w < |s.workers| && |s.buffers| == 2 * |s.workers| && s.workers[w].active <= 1
  {
    var me := s.workers[w];
    var active, other := ActiveBuffer(s, w), OtherBuffer(s, w);
    match me.pc
    case Start => Some(SetWorker(SetStatus(s, active, Filling), w, Worker(me.active, Scan)))
    case Scan =>
      if s.remaining != [] then
        Some(SetWorker(s, w, Worker(me.active, Got(s.remaining[0]))).(remaining := s.remaining[1..]))
      else if s.buffers[active].docs != [] then
        Some(SetWorker(SetStatus(s, active, Ready), w, Worker(me.active, Finished)))
      else Some(SetWorker(SetStatus(s, active, Empty), w, Worker(me.active, Finished)))
    case Got(t) =>
      if Postings(s.buffers[active].docs) >= s.threshold then
        Some(SetWorker(SetStatus(s, active, Ready), w, Worker(me.active, Wait(t))))
      else Some(SetWorker(s, w, Worker(me.active, Put(t))))
    case Wait(t) =>
      if s.buffers[other].status != Empty then None
      else Some(SetWorker(SetStatus(s, other, Filling), w, Worker(1 - me.active, Put(t))))
    case Put(t) => Some(SetWorker(Process(s, active, t), w, Worker(me.active, Scan)))
    case Finished => Some(SetWorker(s, w, Worker(me.active, Done)).(workersDone := s.workersDone + 1))
    case Done => None
  }

  /** The documents of the given buffers. */
  ghost function DocsIn(buffers: seq<Buffer>, ready: seq<nat>): multiset<Tuple> {
    if ready == [] then multiset{}
    else DocsIn(buffers, ready[..|ready| - 1])
         + if ready[|ready| - 1] < |buffers| then multiset(buffers[ready[|ready| - 1]].docs) else multiset{}
  }

  /** The next step of the leader (tp_leader_process_buffers). */
  ghost function LeaderNext(s: State): Option<State> {
    match s.leader
    case Sampling(next, ready) =>
      if next < |s.buffers| then
        Some(s.(leader := Sampling(next + 1, if s.buffers[next].status == Ready then ready + [next] else ready)))
      else Some(s.(leader := Checking(ready)))
    case Checking(ready) =>
      var allDone := s.workersDone >= |s.workers|;
      if |ready| > 0 && (allDone || |ready| >= |s.workers|) then Some(s.(leader := Merging(ready, allDone)))
      else if allDone then Some(s.(leader := Exited))
      else Some(s.(leader := Sampling(0, [])))
    case Merging(ready, allDone) =>
      var docs := DocsIn(s.buffers, ready);
      Some(s.(leader := Clearing(ready, 0, allDone),
          segments := if docs == multiset{} then s.segments else s.segments + [docs]))
    case Clearing(ready, k, allDone) =>
      if k < |ready| then
        if ready[k] < |s.buffers| then
          Some(s.(leader := Clearing(ready, k + 1, allDone), buffers := s.buffers[ready[k] := Buffer(Empty, [])]))
        else None
      else if allDone then Some(s.(leader := Exited))
      else Some(s.(leader := Sampling(0, [])))
    case Exited => None
  }

  ghost predicate WorkerStep(s: State, t: State, w: nat) {
    && w < |s.workers| && |s.buffers| == 2 * |s.workers| && s.workers[w].active <= 1
    && WorkerNext(s, w) == Some(t)
  }

  ghost predicate LeaderStep(s: State, t: State) {
    LeaderNext(s) == Some(t)
  }

  ghost predicate Step(s: State, t: State) {
    LeaderStep(s, t) || exists w :: WorkerStep(s, t, w)
  }

  ghost predicate Run(states: seq<State>) {
    states != [] && forall i :: 0 <= i < |states| - 1 ==> Step(states[i], states[i + 1])
  }

  // ---------- what every step keeps ----------

  /** A buffer that is not being filled, as its worker sees it. */
  predicate Resting(b: Buffer) {
    b.status != Filling
  }

  ghost predicate WorkerOk(s: State, w: nat)
    requires w < |s.workers| && |s.buffers| == 2 * |s.workers|
  {
    && s.workers[w].active <= 1
    && Resting(s.buffers[OtherBuffer(s, w)])
    && match s.workers[w].pc
       case Start => s.buffers[ActiveBuffer(s, w)].status == Empty
       case Scan => s.buffers[ActiveBuffer(s, w)].status == Filling
       case Got(t) => s.buffers[ActiveBuffer(s, w)].status == Filling
       case Put(t) => s.buffers[ActiveBuffer(s, w)].status == Filling
       case _ => Resting(s.buffers[ActiveBuffer(s, w)])
  }

  ghost predicate WorkersOk(s: State) {
    && |s.buffers| == 2 * |s.workers|
    && (forall w :: 0 <= w < |s.workers| ==> WorkerOk(s, w))
    && (forall i :: 0 <= i < |s.buffers| && s.buffers[i].status == Empty ==> s.buffers[i].docs == [])
  }

  ghost predicate AllReady(buffers: seq<Buffer>, ready: seq<nat>) {
    && (forall j, k :: 0 <= j < k < |ready| ==> ready[j] != ready[k])
    && (forall k :: 0 <= k < |ready| ==> ready[k] < |buffers| && buffers[ready[k]].status == Ready)
  }

  /** Every buffer on the leader's list is ready and stays so until the leader clears it. */
  ghost predicate LeaderOk(s: State) {
    match s.leader
    case Sampling(next, ready) => AllReady(s.buffers, ready) && forall k :: 0 <= k < |ready| ==> ready[k] < next
    case Checking(ready) => AllReady(s.buffers, ready)
    case Merging(ready, allDone) => AllReady(s.buffers, ready)
    case Clearing(ready, k, allDone) =>
      k <= |ready| && AllReady(s.buffers, ready[k..]) && forall i, j :: 0 <= i < j < |ready| ==> ready[i] != ready[j]
    case Exited => true
  }

  ghost function ToSet(list: seq<nat>): set<nat> {
    set i | i in list
  }

  /** Buffers already written to a segment but not yet cleared. */
  ghost function Pending(s: State): set<nat> {
    if s.leader.Clearing? && s.leader.k <= |s.leader.ready| then ToSet(s.leader.ready[s.leader.k..]) else {}
  }

  /** The documents in the first n buffers, leaving out the given ones. */
  ghost function Held(buffers: seq<Buffer>, without: set<nat>, n: nat): multiset<Tuple>
    requires n <= |buffers|
  {
    if n == 0 then multiset{}
    else Held(buffers, without, n - 1) + if n - 1 in without then multiset{} else multiset(buffers[n - 1].docs)
  }

  ghost function Written(segments: seq<multiset<Tuple>>): multiset<Tuple> {
    if segments == [] then multiset{} else Written(segments[..|segments| - 1]) + segments[|segments| - 1]
  }

  /** The documents with terms among some tuples. */
  ghost function Documents(tuples: seq<Tuple>): multiset<Tuple> {
    if tuples == [] then multiset{}
    else (if tuples[0].terms > 0 then multiset{tuples[0]} else multiset{}) + Documents(tuples[1..])
  }

  ghost function InHand(pc: Pc): multiset<Tuple> {
    match pc
    case Got(t) => if t.terms > 0 then multiset{t} else multiset{}
    case Wait(t) => if t.terms > 0 then multiset{t} else multiset{}
    case Put(t) => if t.terms > 0 then multiset{t} else multiset{}
    case _ => multiset{}
  }

  ghost function Hands(workers: seq<Worker>): multiset<Tuple> {
    if workers == [] then multiset{} else Hands(workers[..|workers| - 1]) + InHand(workers[|workers| - 1].pc)
  }

  ghost function DoneCount(workers: seq<Worker>): nat {
    if workers == [] then 0
    else DoneCount(workers[..|workers| - 1]) + if workers[|workers| - 1].pc.Done? then 1 else 0
  }

  /** None lost, none twice: scanned documents lie in segments or in buffers not yet written. */
  ghost predicate Conserved(s: State) {
    && s.scanned == Written(s.segments) + Held(s.buffers, Pending(s), |s.buffers|)
    && Documents(s.heap) == s.scanned + Hands(s.workers) + Documents(s.remaining)
  }

  ghost predicate Inv(s: State) {
    WorkersOk(s) && LeaderOk(s) && Conserved(s) && s.workersDone == DoneCount(s.workers)
  }

  // ---------- who may touch which buffer ----------

  /** A worker changes only its own buffers, and none that is ready; other workers stay where they are. */
  lemma WorkerTouchesOwn(s: State, t: State, w: nat)
    requires WorkersOk(s) && WorkerStep(s, t, w)
    ensures |t.buffers| == |s.buffers| && |t.workers| == |s.workers| && t.leader == s.leader && t.segments == s.segments
    ensures forall i :: 0 <= i < |s.buffers| && t.buffers[i] != s.buffers[i] ==>
              i / 2 == w && s.buffers[i].status != Ready
    ensures forall v :: 0 <= v < |s.workers| && v != w ==> t.workers[v] == s.workers[v]
  {
    assert WorkerOk(s, w);
  }

  /** The leader changes only ready buffers, emptying them, and no worker. */
  lemma LeaderTouchesReady(s: State, t: State)
    requires LeaderOk(s) && LeaderStep(s, t)
    ensures |t.buffers| == |s.buffers| && t.workers == s.workers && t.scanned == s.scanned && t.remaining == s.remaining
    ensures forall i :: 0 <= i < |s.buffers| && t.buffers[i] != s.buffers[i] ==>
                          s.buffers[i].status == Ready && t.buffers[i] == Buffer(Empty, [])
  {
    if s.leader.Clearing? && s.leader.k < |s.leader.ready| {
      var ready, k := s.leader.ready, s.leader.k;
      assert ready[k..][0] == ready[k];
    }
  }

  /** A buffer being filled changes only by its worker's steps, a ready one only by the leader's. */
  lemma BufferOwnership(s: State, t: State, i: nat)
    requires WorkersOk(s) && LeaderOk(s) && Step(s, t) && i < |s.buffers|
    ensures i < |t.buffers|
    ensures t.buffers[i] != s.buffers[i] && s.buffers[i].status == Filling ==> WorkerStep(s, t, i / 2)
    ensures t.buffers[i] != s.buffers[i] && s.buffers[i].status == Ready ==> LeaderStep(s, t)
  {
    hide WorkersOk, LeaderOk, LeaderNext, WorkerNext;
    if LeaderStep(s, t) {
      LeaderTouchesReady(s, t);
    } else {
      var w :| WorkerStep(s, t, w);
      WorkerTouchesOwn(s, t, w);
    }
  }

  // ---------- sums over buffers and workers ----------

  ghost function Share(buffers: seq<Buffer>, without: set<nat>, i: nat): multiset<Tuple>
    requires i < |buffers|
  {
    if i in without then multiset{} else multiset(buffers[i].docs)
  }

  lemma HeldLast(buffers: seq<Buffer>, without: set<nat>, n: nat)
    requires 0 < n <= |buffers|
    ensures Held(buffers, without, n) == Held(buffers, without, n - 1) + Share(buffers, without, n - 1)
  {
  }

  /** Buffers before position n that count as before leave the sum alone. */
  lemma {:induction false} HeldSame(buffers: seq<Buffer>, without: set<nat>, i: nat, b: Buffer, without': set<nat>,
                                    n: nat)
    requires n <= i < |buffers|
    requires forall j :: 0 <= j < |buffers| && j != i ==> (j in without' <==> j in without)
    ensures Held(buffers[i := b], without', n) == Held(buffers, without, n)
  {
    if n > 0 {
      HeldSame(buffers, without, i, b, without', n - 1);
      SameShare(buffers, without, i, b, without', n - 1);
    }
  }

  /** Changing one buffer, or whether it counts, changes the sum by that buffer's share. */
  lemma {:induction false} HeldUpdate(buffers: seq<Buffer>, without: set<nat>, i: nat, b: Buffer, without': set<nat>,
                                      n: nat)
    requires i < n <= |buffers|
    requires forall j :: 0 <= j < |buffers| && j != i ==> (j in without' <==> j in without)
    ensures Held(buffers[i := b], without', n) + Share(buffers, without, i) ==
            Held(buffers, without, n) + Share(buffers[i := b], without', i)
  {
    hide Held, Share;
    HeldLast(buffers, without, n);
    HeldLast(buffers[i := b], without', n);
    var mine, mine' := Share(buffers, without, i), Share(buffers[i := b], without', i);
    if i == n - 1 {
      HeldSame(buffers, without, i, b, without', n - 1);
      AddSwap(Held(buffers, without, n - 1), mine', mine);
    } else {
      HeldUpdate(buffers, without, i, b, without', n - 1);
      SameShare(buffers, without, i, b, without', n - 1);
      var last := Share(buffers, without, n - 1);
      AddSwap(Held(buffers[i := b], without', n - 1), last, mine);
      AddSwap(Held(buffers, without, n - 1), last, mine');
    }
  }

  lemma SameShare(buffers: seq<Buffer>, without: set<nat>, i: nat, b: Buffer, without': set<nat>, j: nat)
    requires i < |buffers| && j < |buffers| && j != i && (j in without' <==> j in without)
    ensures Share(buffers[i := b], without', j) == Share(buffers, without, j)
  {
  }

  lemma HeldAppend(buffers: seq<Buffer>, without: set<nat>, i: nat, b: Buffer, t: Tuple)
    requires i < |buffers| && i !in without && b.docs == buffers[i].docs + [t]
    ensures Held(buffers[i := b], without, |buffers|) == Held(buffers, without, |buffers|) + multiset{t}
  {
    hide Held;
    HeldUpdate(buffers, without, i, b, without, |buffers|);
    AppendDocs(buffers[i].docs, t);
    var docs := multiset(buffers[i].docs);
    assert Held(buffers, without, |buffers|) + (docs + multiset{t}) ==
           Held(buffers, without, |buffers|) + multiset{t} + docs;
    CancelAdd(Held(buffers[i := b], without, |buffers|), Held(buffers, without, |buffers|) + multiset{t}, docs);
  }

  /** Leaving out one buffer more. */
  lemma HeldTake(buffers: seq<Buffer>, without: set<nat>, i: nat)
    requires i < |buffers| && i !in without
    ensures Held(buffers, without, |buffers|) == Held(buffers, without + {i}, |buffers|) + multiset(buffers[i].docs)
  {
    hide Held;
    HeldUpdate(buffers, without, i, buffers[i], without + {i}, |buffers|);
    assert buffers[i := buffers[i]] == buffers;
  }

  /** Emptying a buffer that was left out, and counting it again. */
  lemma HeldClear(buffers: seq<Buffer>, without: set<nat>, i: nat)
    requires i < |buffers| && i in without
    ensures Held(buffers[i := Buffer(Empty, [])], without - {i}, |buffers|) == Held(buffers, without, |buffers|)
  {
    hide Held;
    HeldUpdate(buffers, without, i, Buffer(Empty, []), without - {i}, |buffers|);
    var cleared := buffers[i := Buffer(Empty, [])];
    assert Share(buffers, without, i) == multiset{} && Share(cleared, without - {i}, i) == multiset([]);
    CancelAdd(Held(cleared, without - {i}, |buffers|), Held(buffers, without, |buffers|), multiset{});
  }

  lemma AppendDocs(docs: seq<Tuple>, t: Tuple)
    ensures multiset(docs + [t]) == multiset(docs) + multiset{t}
  {
  }

  lemma AddSwap<T>(a: multiset<T>, b: multiset<T>, c: multiset<T>)
    ensures a + b + c == a + c + b
  {
  }

  lemma {:induction false} HandsUpdate(workers: seq<Worker>, w: nat, worker: Worker)
    requires w < |workers|
    ensures Hands(workers[w := worker]) + InHand(workers[w].pc) == Hands(workers) + InHand(worker.pc)
  {
    hide InHand;
    var n := |workers| - 1;
    if w == n {
      assert workers[w := worker][..n] == workers[..n];
      AddSwap(Hands(workers[..n]), InHand(worker.pc), InHand(workers[w].pc));
    } else {
      HandsUpdate(workers[..n], w, worker);
      assert workers[w := worker][..n] == workers[..n][w := worker];
      var last := InHand(workers[n].pc);
      AddSwap(Hands(workers[..n][w := worker]), last, InHand(workers[w].pc));
      AddSwap(Hands(workers[..n]), last, InHand(worker.pc));
    }
  }

  lemma {:induction false} DoneUpdate(workers: seq<Worker>, w: nat, worker: Worker)
    requires w < |workers|
    ensures DoneCount(workers[w := worker]) + (if workers[w].pc.Done? then 1 else 0) ==
            DoneCount(workers) + (if worker.pc.Done? then 1 else 0)
  {
    var n := |workers| - 1;
    if w == n {
      assert workers[w := worker][..n] == workers[..n];
    } else {
      DoneUpdate(workers[..n], w, worker);
      assert workers[w := worker][..n] == workers[..n][w := worker];
    }
  }

  /** Taking the documents of a list of distinct buffers out of the sum. */
  lemma {:induction false} HeldTakeAll(buffers: seq<Buffer>, ready: seq<nat>)
    requires AllReady(buffers, ready)
    ensures Held(buffers, {}, |buffers|) == Held(buffers, ToSet(ready), |buffers|) + DocsIn(buffers, ready)
  {
    hide Held;
    if ready == [] {
      assert ToSet(ready) == {};
    } else {
      var n := |ready| - 1;
      var before, i := ready[..n], ready[n];
      PrefixReady(buffers, ready);
      HeldTakeAll(buffers, before);
      HeldTake(buffers, ToSet(before), i);
      AddSwap(Held(buffers, ToSet(ready), |buffers|), multiset(buffers[i].docs), DocsIn(buffers, before));
    }
  }

  lemma PrefixReady(buffers: seq<Buffer>, ready: seq<nat>)
    requires AllReady(buffers, ready) && ready != []
    ensures var n := |ready| - 1;
            && AllReady(buffers, ready[..n]) && ready[n] < |buffers| && ready[n] !in ready[..n]
            && ToSet(ready) == ToSet(ready[..n]) + {ready[n]}
  {
    var n := |ready| - 1;
    assert forall k :: 0 <= k < n ==> ready[..n][k] == ready[k];
    assert ready == ready[..n] + [ready[n]];
  }

  // ---------- worker steps keep the invariant ----------

  lemma ReadyKept(buffers: seq<Buffer>, buffers': seq<Buffer>, ready: seq<nat>)
    requires AllReady(buffers, ready) && |buffers'| == |buffers|
    requires forall i :: 0 <= i < |buffers| && buffers'[i] != buffers[i] ==> buffers[i].status != Ready
    ensures AllReady(buffers', ready)
  {
  }

  lemma WorkerKeepsLeaderOk(s: State, t: State, w: nat)
    requires WorkersOk(s) && LeaderOk(s) && WorkerStep(s, t, w)
    ensures LeaderOk(t) && Pending(t) == Pending(s)
  {
    WorkerTouchesOwn(s, t, w);
    hide WorkersOk, WorkerStep, AllReady;
    match s.leader
    case Sampling(next, ready) => ReadyKept(s.buffers, t.buffers, ready);
    case Checking(ready) => ReadyKept(s.buffers, t.buffers, ready);
    case Merging(ready, allDone) => ReadyKept(s.buffers, t.buffers, ready);
    case Clearing(ready, k, allDone) => ReadyKept(s.buffers, t.buffers, ready[k..]);
    case Exited =>
  }

  lemma WorkerKeepsWorkersOk(s: State, t: State, w: nat)
    requires WorkersOk(s) && WorkerStep(s, t, w)
    ensures WorkersOk(t)
  {
    WorkerTouchesOwn(s, t, w);
    OwnStaysOk(s, t, w);
    hide WorkerStep, WorkerOk;
    forall v | 0 <= v < |t.workers| && v != w
      ensures WorkerOk(t, v)
    {
      OtherStaysOk(s, t, w, v);
    }
  }

  lemma OwnStaysOk(s: State, t: State, w: nat)
    requires WorkersOk(s) && WorkerStep(s, t, w) && |t.buffers| == |s.buffers| && |t.workers| == |s.workers|
    ensures WorkerOk(t, w)
    ensures forall i :: 0 <= i < |t.buffers| && t.buffers[i].status == Empty ==> t.buffers[i].docs == []
  {
    assert WorkerOk(s, w);
  }

  lemma OtherStaysOk(s: State, t: State, w: nat, v: nat)
    requires WorkersOk(s) && v < |s.workers| == |t.workers| && v != w && |t.buffers| == |s.buffers|
    requires forall i :: 0 <= i < |s.buffers| && t.buffers[i] != s.buffers[i] ==>
               i / 2 == w && s.buffers[i].status != Ready
    requires t.workers[v] == s.workers[v]
    ensures WorkerOk(t, v)
  {
    assert WorkerOk(s, v);
    assert ActiveBuffer(s, v) / 2 == v && OtherBuffer(s, v) / 2 == v;
  }

  lemma {:induction false} HeldAllSame(buffers: seq<Buffer>, buffers': seq<Buffer>, without: set<nat>, n: nat)
    requires n <= |buffers| == |buffers'|
    requires forall i :: 0 <= i < |buffers| ==> buffers'[i].docs == buffers[i].docs
    ensures Held(buffers', without, n) == Held(buffers, without, n)
  {
    if n > 0 { HeldAllSame(buffers, buffers', without, n - 1); }
  }

  /** A filling buffer is not pending. */
  lemma FillingNotPending(s: State, i: nat)
    requires LeaderOk(s) && i < |s.buffers| && s.buffers[i].status != Ready
    ensures i !in Pending(s)
  {
  }

  // Case by case: what one worker step does to the three places a document can be.

  /** A step that moves no document. */
  ghost predicate Quiet(s: State, t: State, w: nat) {
    && t.scanned == s.scanned && t.remaining == s.remaining && t.heap == s.heap && w < |s.workers| == |t.workers|
    && t.workers == s.workers[w := t.workers[w]] && InHand(t.workers[w].pc) == InHand(s.workers[w].pc)
    && |t.buffers| == |s.buffers| && (forall i :: 0 <= i < |s.buffers| ==> t.buffers[i].docs == s.buffers[i].docs)
    && t.workersDone == s.workersDone + (if s.workers[w].pc.Finished? then 1 else 0)
    && (t.workers[w].pc.Done? <==> s.workers[w].pc.Finished?) && !s.workers[w].pc.Done?
  }

  lemma StartStep(s: State, t: State, w: nat)
    requires WorkersOk(s) && WorkerStep(s, t, w) && (s.workers[w].pc.Start? || s.workers[w].pc.Finished?)
    ensures Quiet(s, t, w)
  {
    assert WorkerOk(s, w);
  }

  lemma GotStep(s: State, t: State, w: nat)
    requires WorkersOk(s) && WorkerStep(s, t, w) && s.workers[w].pc.Got?
    ensures Quiet(s, t, w)
  {
    hide Postings;
    assert WorkerOk(s, w);
  }

  lemma WaitStep(s: State, t: State, w: nat)
    requires WorkersOk(s) && WorkerStep(s, t, w) && s.workers[w].pc.Wait?
    ensures Quiet(s, t, w)
  {
    assert WorkerOk(s, w);
  }

  lemma QuietStep(s: State, t: State, w: nat)
    requires WorkersOk(s) && WorkerStep(s, t, w) && !s.workers[w].pc.Scan? && !s.workers[w].pc.Put?
    ensures Quiet(s, t, w)
  {
    if s.workers[w].pc.Start? || s.workers[w].pc.Finished? {
      StartStep(s, t, w);
    } else if s.workers[w].pc.Got? {
      GotStep(s, t, w);
    } else if s.workers[w].pc.Wait? {
      WaitStep(s, t, w);
    }
  }

  lemma ScanStep(s: State, t: State, w: nat)
    requires WorkersOk(s) && WorkerStep(s, t, w) && s.workers[w].pc.Scan?
    ensures t.scanned == s.scanned && t.heap == s.heap && t.workersDone == s.workersDone && |t.workers| == |s.workers|
    ensures t.workers == s.workers[w := t.workers[w]] && !t.workers[w].pc.Done?
    ensures |t.buffers| == |s.buffers| && forall i :: 0 <= i < |s.buffers| ==> t.buffers[i].docs == s.buffers[i].docs
    ensures InHand(s.workers[w].pc) == multiset{}
    ensures Documents(s.remaining) == InHand(t.workers[w].pc) + Documents(t.remaining)
  {
    assert WorkerOk(s, w);
  }

  lemma PutStep(s: State, t: State, w: nat)
    requires WorkersOk(s) && LeaderOk(s) && WorkerStep(s, t, w) && s.workers[w].pc.Put?
    ensures t.remaining == s.remaining && t.heap == s.heap && t.workersDone == s.workersDone && |t.workers| == |s.workers|
    ensures t.workers == s.workers[w := t.workers[w]] && InHand(t.workers[w].pc) == multiset{} && !t.workers[w].pc.Done?
    ensures t.scanned == s.scanned + InHand(s.workers[w].pc) && |t.buffers| == |s.buffers|
    ensures Held(t.buffers, Pending(s), |t.buffers|) == Held(s.buffers, Pending(s), |s.buffers|) + InHand(s.workers[w].pc)
  {
    assert WorkerOk(s, w);
    var i, tuple := ActiveBuffer(s, w), s.workers[w].pc.tuple;
    FillingNotPending(s, i);
    if tuple.terms > 0 {
      HeldAppend(s.buffers, Pending(s), i, t.buffers[i], tuple);
      assert t.buffers == s.buffers[i := t.buffers[i]];
    }
  }

  lemma Rebalance(scanned: multiset<Tuple>, hands: multiset<Tuple>, hands': multiset<Tuple>, gone: multiset<Tuple>,
                  more: multiset<Tuple>, rest: multiset<Tuple>, rest': multiset<Tuple>)
    requires hands' + gone == hands + more && rest + gone == rest' + more
    ensures scanned + hands + rest == scanned + hands' + rest'
  {
    forall x
      ensures (scanned + hands + rest)[x] == (scanned + hands' + rest')[x]
    {
      assert (hands' + gone)[x] == (hands + more)[x] && (rest + gone)[x] == (rest' + more)[x];
    }
  }

  lemma PutBalance(scanned: multiset<Tuple>, mine: multiset<Tuple>, hands: multiset<Tuple>, hands': multiset<Tuple>,
                   rest: multiset<Tuple>, written: multiset<Tuple>, held: multiset<Tuple>)
    requires hands' + mine == hands && scanned == written + held
    ensures scanned + hands + rest == scanned + mine + hands' + rest
    ensures scanned + mine == written + (held + mine)
  {
    forall x
      ensures (scanned + hands + rest)[x] == (scanned + mine + hands' + rest)[x]
    {
      assert (hands' + mine)[x] == hands[x];
    }
  }

  lemma WorkerKeepsConserved(s: State, t: State, w: nat)
    requires WorkersOk(s) && LeaderOk(s) && WorkerStep(s, t, w) && Conserved(s) && Pending(t) == Pending(s)
    requires t.segments == s.segments && w < |s.workers|
    ensures Conserved(t)
  {
    if s.workers[w].pc.Put? {
      PutConserves(s, t, w);
    } else if s.workers[w].pc.Scan? {
      ScanStep(s, t, w);
      MoveConserves(s, t, w);
    } else {
      QuietStep(s, t, w);
      MoveConserves(s, t, w);
    }
  }

  lemma PutConserves(s: State, t: State, w: nat)
    requires WorkersOk(s) && LeaderOk(s) && WorkerStep(s, t, w) && Conserved(s) && Pending(t) == Pending(s)
    requires t.segments == s.segments && w < |s.workers| && s.workers[w].pc.Put?
    ensures Conserved(t)
  {
    hide WorkerStep, WorkersOk, LeaderOk, Pending, Hands, Held, Documents, InHand, Written;
    PutStep(s, t, w);
    HandsUpdate(s.workers, w, t.workers[w]);
    PutBalance(s.scanned, InHand(s.workers[w].pc), Hands(s.workers), Hands(t.workers), Documents(s.remaining),
               Written(s.segments), Held(s.buffers, Pending(s), |s.buffers|));
  }

  lemma MoveConserves(s: State, t: State, w: nat)
    requires Conserved(s) && Pending(t) == Pending(s) && t.segments == s.segments && w < |s.workers| == |t.workers|
    requires t.scanned == s.scanned && t.heap == s.heap && t.workers == s.workers[w := t.workers[w]]
    requires |t.buffers| == |s.buffers| && forall i :: 0 <= i < |s.buffers| ==> t.buffers[i].docs == s.buffers[i].docs
    requires Documents(s.remaining) + InHand(s.workers[w].pc) == Documents(t.remaining) + InHand(t.workers[w].pc)
    ensures Conserved(t)
  {
    hide Pending, Hands, Held, Documents, InHand, Written;
    HandsUpdate(s.workers, w, t.workers[w]);
    HeldAllSame(s.buffers, t.buffers, Pending(s), |s.buffers|);
    Rebalance(s.scanned, Hands(s.workers), Hands(t.workers), InHand(s.workers[w].pc), InHand(t.workers[w].pc),
              Documents(s.remaining), Documents(t.remaining));
  }

  lemma WorkerKeepsCount(s: State, t: State, w: nat)
    requires WorkersOk(s) && LeaderOk(s) && WorkerStep(s, t, w) && s.workersDone == DoneCount(s.workers) &&
             w < |s.workers|
    ensures t.workersDone == DoneCount(t.workers)
  {
    if s.workers[w].pc.Put? {
      PutStep(s, t, w);
    } else if s.workers[w].pc.Scan? {
      ScanStep(s, t, w);
    } else {
      QuietStep(s, t, w);
    }
    hide WorkerStep, WorkersOk, LeaderOk;
    DoneUpdate(s.workers, w, t.workers[w]);
  }

  /** Every step of a worker keeps the invariant. */
  lemma WorkerKeepsInv(s: State, t: State, w: nat)
    requires Inv(s) && WorkerStep(s, t, w)
    ensures Inv(t)
  {
    WorkerExists(s, t, w);
    hide WorkerStep, WorkersOk, LeaderOk, Conserved, DoneCount;
    WorkerTouchesOwn(s, t, w);
    WorkerKeepsWorkersOk(s, t, w);
    WorkerKeepsLeaderOk(s, t, w);
    WorkerKeepsConserved(s, t, w);
    WorkerKeepsCount(s, t, w);
  }

  lemma WorkerExists(s: State, t: State, w: nat)
    requires WorkerStep(s, t, w)
    ensures w < |s.workers|
  {
  }

  // ---------- leader steps keep the invariant ----------

  lemma SampleStep(s: State, t: State)
    requires LeaderOk(s) && LeaderStep(s, t) && s.leader.Sampling?
    ensures LeaderOk(t)
  {
  }

  lemma LeaderKeepsLeaderOk(s: State, t: State)
    requires LeaderOk(s) && LeaderStep(s, t)
    ensures LeaderOk(t)
  {
    if s.leader.Sampling? {
      SampleStep(s, t);
    } else if s.leader.Clearing? && s.leader.k < |s.leader.ready| {
      ClearStep(s, t);
    } else if s.leader.Merging? {
      assert s.leader.ready[0..] == s.leader.ready;
    }
  }

  lemma ClearStep(s: State, t: State)
    requires LeaderOk(s) && LeaderStep(s, t) && s.leader.Clearing? && s.leader.k < |s.leader.ready|
    ensures LeaderOk(t)
    ensures var i := s.leader.ready[s.leader.k];
            i < |s.buffers| && i in Pending(s) && Pending(t) == Pending(s) - {i} && s.buffers[i].status == Ready
            && t == s.(leader := t.leader, buffers := s.buffers[i := Buffer(Empty, [])])
  {
    var ready, k := s.leader.ready, s.leader.k;
    var rest := ready[k..];
    assert rest[0] == ready[k] && rest[1..] == ready[k + 1..];
    assert rest == [ready[k]] + ready[k + 1..];
    assert forall j :: 0 <= j < |ready| - k - 1 ==> rest[1..][j] == rest[j + 1];
  }

  lemma LeaderKeepsWorkersOk(s: State, t: State)
    requires WorkersOk(s) && LeaderOk(s) && LeaderStep(s, t)
    ensures WorkersOk(t)
  {
    LeaderTouchesReady(s, t);
    hide LeaderStep, LeaderOk, WorkerOk;
    forall w | 0 <= w < |t.workers|
      ensures WorkerOk(t, w)
    {
      RestStaysOk(s, t, w);
    }
  }

  /** What the leader does to ready buffers does not disturb their worker. */
  lemma RestStaysOk(s: State, t: State, w: nat)
    requires w < |s.workers| && |s.buffers| == 2 * |s.workers| && WorkerOk(s, w)
    requires t.workers == s.workers && |t.buffers| == |s.buffers|
    requires forall i :: 0 <= i < |s.buffers| && t.buffers[i] != s.buffers[i] ==>
                           s.buffers[i].status == Ready && t.buffers[i] == Buffer(Empty, [])
    ensures WorkerOk(t, w)
  {
  }

  lemma MergeShape(s: State, t: State)
    requires LeaderOk(s) && LeaderStep(s, t) && s.leader.Merging?
    ensures AllReady(s.buffers, s.leader.ready) && Pending(s) == {} && Pending(t) == ToSet(s.leader.ready)
    ensures t.buffers == s.buffers && t.scanned == s.scanned && t.heap == s.heap && t.workers == s.workers
    ensures t.remaining == s.remaining
    ensures var docs := DocsIn(s.buffers, s.leader.ready);
            t.segments == if docs == multiset{} then s.segments else s.segments + [docs]
  {
    hide DocsIn;
    assert s.leader.ready[0..] == s.leader.ready;
  }

  lemma MergeStep(s: State, t: State)
    requires LeaderOk(s) && LeaderStep(s, t) && s.leader.Merging? && Conserved(s)
    ensures Conserved(t)
  {
    hide Held, DocsIn, Written, Hands, Documents, LeaderOk, LeaderStep, Pending, AllReady, ToSet;
    MergeShape(s, t);
    var ready := s.leader.ready;
    var docs := DocsIn(s.buffers, ready);
    HeldTakeAll(s.buffers, ready);
    WrittenMore(s.segments, docs);
    MergeBalance(Written(s.segments), Held(s.buffers, ToSet(ready), |s.buffers|), docs);
  }

  lemma MergeBalance(written: multiset<Tuple>, rest: multiset<Tuple>, docs: multiset<Tuple>)
    ensures written + (rest + docs) == (written + docs) + rest
  {
  }

  lemma WrittenMore(segments: seq<multiset<Tuple>>, docs: multiset<Tuple>)
    ensures Written(segments + [docs]) == Written(segments) + docs
    ensures Written(segments) + multiset{} == Written(segments)
  {
  }

  lemma LeaderKeepsConserved(s: State, t: State)
    requires LeaderOk(s) && LeaderStep(s, t) && Conserved(s)
    ensures Conserved(t)
  {
    if s.leader.Merging? {
      MergeStep(s, t);
    } else if s.leader.Clearing? && s.leader.k < |s.leader.ready| {
      ClearStep(s, t);
      HeldClear(s.buffers, Pending(s), s.leader.ready[s.leader.k]);
    } else {
      QuietLeader(s, t);
    }
  }

  lemma QuietLeader(s: State, t: State)
    requires LeaderOk(s) && LeaderStep(s, t) && !s.leader.Merging?
    requires !(s.leader.Clearing? && s.leader.k < |s.leader.ready|)
    ensures t == s.(leader := t.leader) && Pending(t) == Pending(s) == {}
  {
  }

  /** Every step of the leader keeps the invariant. */
  lemma LeaderKeepsInv(s: State, t: State)
    requires Inv(s) && LeaderStep(s, t)
    ensures Inv(t)
  {
    LeaderKeepsWorkersOk(s, t);
    LeaderKeepsLeaderOk(s, t);
    LeaderKeepsConserved(s, t);
    LeaderKeepsCount(s, t);
  }

  lemma LeaderKeepsCount(s: State, t: State)
    requires LeaderStep(s, t)
    ensures t.workersDone == s.workersDone && t.workers == s.workers
  {
  }

  // ---------- whole runs ----------

  lemma {:induction false} NothingHeld(buffers: seq<Buffer>, n: nat)
    requires n <= |buffers| && forall i :: 0 <= i < n ==> buffers[i].docs == []
    ensures Held(buffers, {}, n) == multiset{}
  {
    if n > 0 { NothingHeld(buffers, n - 1); }
  }

  lemma {:induction false} NoHands(workers: seq<Worker>)
    requires forall w :: 0 <= w < |workers| ==> workers[w].pc == Start
    ensures Hands(workers) == multiset{} && DoneCount(workers) == 0
  {
    if workers != [] { NoHands(workers[..|workers| - 1]); }
  }

  lemma InitIsInv(s: State, n: nat)
    requires Init(s, n)
    ensures Inv(s)
  {
    NothingHeld(s.buffers, |s.buffers|);
    NoHands(s.workers);
  }

  /**
   * At every state of every interleaving: the scanned documents are partitioned between the
   * written segments and the buffers not yet written, and nothing of the heap is lost.
   */
  lemma {:induction false} RunKeepsInv(states: seq<State>, n: nat, i: nat)
    requires Run(states) && Init(states[0], n) && i < |states|
    ensures Inv(states[i])
  {
    if i == 0 {
      InitIsInv(states[0], n);
    } else {
      RunKeepsInv(states, n, i - 1);
      var s, t := states[i - 1], states[i];
      assert Step(s, t);
      hide Inv;
      if LeaderStep(s, t) {
        LeaderKeepsInv(s, t);
      } else {
        var w :| WorkerStep(s, t, w);
        WorkerKeepsInv(s, t, w);
      }
    }
  }

  // ---------- how full a buffer gets ----------

  /** The number of postings of a buffer: that of its tuples' terms, one after another. */
  lemma {:induction false} PostingsAdd(docs: seq<Tuple>, t: Tuple)
    ensures Postings(docs + [t]) == Postings(docs) + t.terms && Postings([]) == 0
  {
    if docs == [] {
      assert docs + [t] == [t] && [t][1..] == [];
    } else {
      assert (docs + [t])[1..] == docs[1..] + [t];
      PostingsAdd(docs[1..], t);
    }
  }

  /** The threshold was not reached before the last tuple of the buffer, unless it was the first one. */
  ghost predicate NotOverfull(docs: seq<Tuple>, threshold: nat) {
    |docs| <= 1 || Postings(docs[..|docs| - 1]) < threshold
  }

  ghost predicate HasRoom(docs: seq<Tuple>, threshold: nat) {
    docs == [] || Postings(docs) < threshold
  }

  ghost predicate BuffersBounded(s: State) {
    && |s.buffers| == 2 * |s.workers|
    && (forall i :: 0 <= i < |s.buffers| ==> NotOverfull(s.buffers[i].docs, s.threshold))
    && (forall w :: 0 <= w < |s.workers| && s.workers[w].pc.Put? && ActiveBuffer(s, w) < |s.buffers| ==>
                      HasRoom(s.buffers[ActiveBuffer(s, w)].docs, s.threshold))
  }

  lemma OneMoreFits(docs: seq<Tuple>, t: Tuple, threshold: nat)
    requires HasRoom(docs, threshold)
    ensures NotOverfull(docs + [t], threshold)
  {
    assert (docs + [t])[..|docs|] == docs;
  }

  lemma WorkerKeepsBounded(s: State, t: State, w: nat)
    requires WorkersOk(s) && BuffersBounded(s) && WorkerStep(s, t, w)
    ensures BuffersBounded(t)
  {
    WorkerTouchesOwn(s, t, w);
    if s.workers[w].pc.Put? {
      PutFills(s, t, w);
    } else {
      MoveKeepsDocs(s, t, w);
    }
    hide NotOverfull, HasRoom, Postings, WorkerNext, WorkersOk;
    forall v | 0 <= v < |t.workers| && t.workers[v].pc.Put? && ActiveBuffer(t, v) < |t.buffers|
      ensures HasRoom(t.buffers[ActiveBuffer(t, v)].docs, t.threshold)
    {
      if v != w { OthersActiveSame(s, t, w, v); }
    }
  }

  lemma OthersActiveSame(s: State, t: State, w: nat, v: nat)
    requires WorkersOk(s) && WorkerStep(s, t, w) && v < |s.workers| && v != w
    ensures |t.workers| == |s.workers| && |t.buffers| == |s.buffers| && t.workers[v] == s.workers[v]
    ensures ActiveBuffer(t, v) == ActiveBuffer(s, v) < |s.buffers| &&
            t.buffers[ActiveBuffer(t, v)] == s.buffers[ActiveBuffer(s, v)]
  {
    WorkerTouchesOwn(s, t, w);
    assert WorkerOk(s, v);
    hide WorkerNext, WorkersOk;
    assert ActiveBuffer(s, v) / 2 == v;
  }

  /** Any step but putting a tuple leaves what is in the buffers; a tuple is put only where there is room. */
  lemma MoveKeepsDocs(s: State, t: State, w: nat)
    requires WorkersOk(s) && WorkerStep(s, t, w) && !s.workers[w].pc.Put?
    ensures |t.buffers| == |s.buffers| && |t.workers| == |s.workers| && t.threshold == s.threshold
    ensures forall i :: 0 <= i < |s.buffers| ==> t.buffers[i].docs == s.buffers[i].docs
    ensures t.workers[w].active <= 1 && ActiveBuffer(t, w) < |t.buffers|
    ensures t.workers[w].pc.Put? ==> HasRoom(t.buffers[ActiveBuffer(t, w)].docs, s.threshold)
  {
    OtherIsEmpty(s, w);
    hide Postings, WorkersOk;
    EmptyHasRoom(s.threshold);
  }

  lemma PutFills(s: State, t: State, w: nat)
    requires WorkersOk(s) && BuffersBounded(s) && WorkerStep(s, t, w) && s.workers[w].pc.Put?
    ensures |t.buffers| == |s.buffers| && |t.workers| == |s.workers| && t.threshold == s.threshold
    ensures forall i :: 0 <= i < |s.buffers| ==> NotOverfull(t.buffers[i].docs, s.threshold)
    ensures !t.workers[w].pc.Put?
  {
    OtherIsEmpty(s, w);
    hide Postings, WorkersOk, NotOverfull, HasRoom;
    OneMoreFits(s.buffers[ActiveBuffer(s, w)].docs, s.workers[w].pc.tuple, s.threshold);
  }

  lemma OtherIsEmpty(s: State, w: nat)
    requires WorkersOk(s) && w < |s.workers|
    ensures s.workers[w].active <= 1 && OtherBuffer(s, w) < |s.buffers|
    ensures s.buffers[OtherBuffer(s, w)].status == Empty ==> s.buffers[OtherBuffer(s, w)].docs == []
  {
    assert WorkerOk(s, w);
  }

  lemma EmptyHasRoom(threshold: nat)
    ensures HasRoom([], threshold)
  {
  }

  lemma LeaderKeepsBounded(s: State, t: State)
    requires WorkersOk(s) && LeaderOk(s) && BuffersBounded(s) && LeaderStep(s, t)
    ensures BuffersBounded(t)
  {
    hide Postings;
    LeaderTouchesReady(s, t);
    assert t.threshold == s.threshold;
    forall v | 0 <= v < |t.workers| && t.workers[v].pc.Put? && ActiveBuffer(t, v) < |t.buffers|
      ensures HasRoom(t.buffers[ActiveBuffer(t, v)].docs, t.threshold)
    {
      assert WorkerOk(s, v);
    }
  }

  /** At every state of every interleaving: no buffer takes a tuple once it has reached the threshold. */
  lemma {:induction false} RunKeepsBounded(states: seq<State>, n: nat, i: nat)
    requires Run(states) && Init(states[0], n) && i < |states|
    ensures BuffersBounded(states[i])
  {
    if i > 0 {
      RunKeepsBounded(states, n, i - 1);
      RunKeepsInv(states, n, i - 1);
      var s, t := states[i - 1], states[i];
      assert Step(s, t);
      hide BuffersBounded, WorkersOk, LeaderOk, Conserved;
      if LeaderStep(s, t) {
        LeaderKeepsBounded(s, t);
      } else {
        var w :| WorkerStep(s, t, w);
        WorkerKeepsBounded(s, t, w);
      }
    }
  }

  /** A worker hands a buffer over only when it has reached the threshold, or at the end if it is not empty. */
  lemma HandedOverFull(s: State, t: State, w: nat, i: nat)
    requires WorkersOk(s) && WorkerStep(s, t, w) && i < |s.buffers| == |t.buffers|
    requires s.buffers[i].status != Ready && t.buffers[i].status == Ready
    ensures t.buffers[i].docs == s.buffers[i].docs
    ensures Postings(s.buffers[i].docs) >= s.threshold || (s.remaining == [] && s.buffers[i].docs != [])
  {
    assert WorkerOk(s, w);
  }

  // ---------- when the leader merges ----------

  /** A round of merging has a buffer for every worker, unless all workers were done when the leader checked. */
  ghost predicate EnoughToMerge(s: State) {
    match s.leader
    case Merging(ready, allDone) => ready != [] && (|ready| >= |s.workers| || (allDone && s.workersDone >= |s.workers|))
    case Clearing(ready, k, allDone) =>
      ready != [] && (|ready| >= |s.workers| || (allDone && s.workersDone >= |s.workers|))
    case _ => true
  }

  lemma StepKeepsEnough(s: State, t: State)
    requires WorkersOk(s) && EnoughToMerge(s) && Step(s, t)
    ensures EnoughToMerge(t)
  {
    if !LeaderStep(s, t) {
      var w :| WorkerStep(s, t, w);
      WorkerTouchesOwn(s, t, w);
    }
  }

  /** At every state of every interleaving the leader merges no smaller round; and it merges when it has enough. */
  lemma {:induction false} RunMergesEnough(states: seq<State>, n: nat, i: nat)
    requires Run(states) && Init(states[0], n) && i < |states|
    ensures EnoughToMerge(states[i])
  {
    if i > 0 {
      RunMergesEnough(states, n, i - 1);
      RunKeepsInv(states, n, i - 1);
      assert Step(states[i - 1], states[i]);
      StepKeepsEnough(states[i - 1], states[i]);
    }
  }

  /** A leader that finds a ready buffer of every worker merges them, and one that finds any after all are done. */
  lemma EnoughIsMerged(s: State, t: State)
    requires LeaderStep(s, t) && s.leader.Checking? && s.leader.ready != []
    requires |s.leader.ready| >= |s.workers| || s.workersDone >= |s.workers|
    ensures t.leader == Merging(s.leader.ready, s.workersDone >= |s.workers|)
  {
  }

  // ---------- what is lost when the leader leaves ----------

  /** A worker past its scan has seen the whole heap handed out. */
  ghost predicate Drained(s: State) {
    forall w :: 0 <= w < |s.workers| && (s.workers[w].pc.Finished? || s.workers[w].pc.Done?) ==> s.remaining == []
  }

  /** Only a worker that finds the heap handed out finishes, and the heap never grows back. */
  lemma WorkerDrains(s: State, t: State, w: nat)
    requires WorkersOk(s) && WorkerStep(s, t, w)
    ensures w < |s.workers| == |t.workers| && t.heap == s.heap && (s.remaining == [] ==> t.remaining == [])
    ensures t.workers[w].pc.Finished? ==> t.remaining == []
    ensures t.workers[w].pc.Done? ==> s.workers[w].pc.Finished?
    ensures forall v :: 0 <= v < |s.workers| && v != w ==> t.workers[v] == s.workers[v]
  {
    hide Postings;
    assert WorkerOk(s, w);
  }

  lemma StepKeepsDrained(s: State, t: State)
    requires Inv(s) && Drained(s) && Step(s, t)
    ensures Drained(t) && t.heap == s.heap && |t.workers| == |s.workers|
  {
    hide Conserved, DoneCount, LeaderOk, WorkersOk, WorkerStep;
    if LeaderStep(s, t) {
      assert t.workers == s.workers && t.remaining == s.remaining && t.heap == s.heap;
    } else {
      var w :| WorkerStep(s, t, w);
      WorkerDrains(s, t, w);
    }
  }

  lemma {:induction false} RunKeepsDrained(states: seq<State>, n: nat, i: nat)
    requires Run(states) && Init(states[0], n) && i < |states|
    ensures Drained(states[i]) && states[i].heap == states[0].heap && |states[i].workers| == n
  {
    if i > 0 {
      RunKeepsDrained(states, n, i - 1);
      RunKeepsInv(states, n, i - 1);
      assert Step(states[i - 1], states[i]);
      hide Inv, Drained, Step;
      StepKeepsDrained(states[i - 1], states[i]);
    }
  }

  /** The leader has its list of ready buffers, and now reads that every worker is done. */
  ghost predicate LastCheck(s: State) {
    s.leader.Checking? && s.workersDone >= |s.workers|
  }

  /** The leader acts on having read that every worker is done. */
  predicate Leaving(leader: Leader) {
    leader.Exited? || ((leader.Merging? || leader.Clearing?) && leader.allDone)
  }

  lemma WorkerLeavesLeader(s: State, t: State)
    requires Step(s, t)
    ensures LeaderStep(s, t) || t.leader == s.leader
  {
    hide Postings, LeaderStep;
  }

  lemma LeavingStarts(s: State, t: State)
    requires Step(s, t) && Leaving(t.leader) && !Leaving(s.leader)
    ensures LastCheck(s)
  {
    WorkerLeavesLeader(s, t);
    hide Step;
  }

  /** A leader that leaves has made its last check before. */
  lemma {:induction false} LeaderLeaves(states: seq<State>, n: nat, j: nat) returns (i: nat)
    requires Run(states) && Init(states[0], n) && j < |states| && Leaving(states[j].leader)
    ensures i < j && LastCheck(states[i])
  {
    assert j > 0;
    assert Step(states[j - 1], states[j]);
    hide Step;
    if Leaving(states[j - 1].leader) {
      i := LeaderLeaves(states, n, j - 1);
    } else {
      LeavingStarts(states[j - 1], states[j]);
      i := j - 1;
    }
  }

  lemma {:induction false} DoneAtMost(workers: seq<Worker>)
    ensures DoneCount(workers) <= |workers|
    ensures DoneCount(workers) == |workers| ==> forall w :: 0 <= w < |workers| ==> workers[w].pc == Done
  {
    if workers != [] {
      var n := |workers| - 1;
      DoneAtMost(workers[..n]);
      assert forall w :: 0 <= w < n ==> workers[..n][w] == workers[w];
    }
  }

  ghost predicate Listed(ready: seq<nat>, i: nat) {
    i in ready
  }

  /** What the leader has done to the buffers since its last check at s, where its list was `ready`. */
  ghost predicate Since(s: State, t: State, ready: seq<nat>) {
    && t.workers == s.workers && t.remaining == s.remaining && |t.buffers| == |s.buffers|
    && (forall i :: 0 <= i < |s.buffers| && !Listed(ready, i) ==> t.buffers[i] == s.buffers[i])
    && match t.leader
       case Sampling(next, list) => false
       case Checking(list) => list == ready && t.workersDone >= |t.workers| && t.buffers == s.buffers
       case Merging(list, allDone) => list == ready && allDone
       case Clearing(list, k, allDone) =>
         list == ready && allDone && k <= |ready|
         && forall j :: 0 <= j < k ==> ready[j] < |t.buffers| && t.buffers[ready[j]].docs == []
       case Exited => forall i :: 0 <= i < |t.buffers| && Listed(ready, i) ==> t.buffers[i].docs == []
  }

  lemma OnlyLeaderSteps(s: State, t: State)
    requires Step(s, t) && forall v :: 0 <= v < |s.workers| ==> s.workers[v].pc == Done
    ensures LeaderStep(s, t)
  {
    hide LeaderStep;
  }

  lemma SinceWorkers(s: State, t: State, ready: seq<nat>)
    requires Since(s, t, ready)
    ensures t.workers == s.workers
  {
  }

  lemma SinceStep(s: State, t: State, u: State, ready: seq<nat>)
    requires Since(s, t, ready) && LeaderStep(t, u)
    ensures Since(s, u, ready)
  {
    hide DocsIn;
    if t.leader.Clearing? && t.leader.k < |ready| {
      assert Listed(ready, ready[t.leader.k]);
    }
  }

  lemma SinceStart(s: State)
    requires LastCheck(s)
    ensures Since(s, s, s.leader.ready)
  {
  }

  lemma {:induction false} SinceLastCheck(states: seq<State>, n: nat, i: nat, j: nat)
    requires Run(states) && Init(states[0], n) && i <= j < |states| && LastCheck(states[i])
    requires forall v :: 0 <= v < |states[i].workers| ==> states[i].workers[v].pc == Done
    ensures Since(states[i], states[j], states[i].leader.ready)
  {
    hide Init, Since, LeaderStep, Step;
    if i == j {
      SinceStart(states[i]);
    } else {
      SinceLastCheck(states, n, i, j - 1);
      var s, t := states[j - 1], states[j];
      assert Step(s, t);
      SinceWorkers(states[i], s, states[i].leader.ready);
      OnlyLeaderSteps(s, t);
      SinceStep(states[i], s, t, states[i].leader.ready);
    }
  }

  lemma SumNothing(a: multiset<Tuple>, docs: seq<Tuple>)
    ensures a + multiset(docs) == multiset{} <==> a == multiset{} && docs == []
  {
    assert |a + multiset(docs)| == |a| + |docs|;
  }

  lemma {:induction false} HeldNothing(buffers: seq<Buffer>, n: nat)
    requires n <= |buffers|
    ensures Held(buffers, {}, n) == multiset{} <==> forall i :: 0 <= i < n ==> buffers[i].docs == []
  {
    if n > 0 {
      HeldNothing(buffers, n - 1);
      SumNothing(Held(buffers, {}, n - 1), buffers[n - 1].docs);
    }
  }

  lemma {:induction false} DoneHoldNothing(workers: seq<Worker>)
    requires forall w :: 0 <= w < |workers| ==> workers[w].pc == Done
    ensures Hands(workers) == multiset{}
  {
    if workers != [] { DoneHoldNothing(workers[..|workers| - 1]); }
  }

  /** At the last check, every buffer with documents is on the list sampled before it. */
  ghost predicate ListedAll(s: State)
    requires s.leader.Checking?
  {
    forall i :: 0 <= i < |s.buffers| && s.buffers[i].docs != [] ==> Listed(s.leader.ready, i)
  }

  lemma AddNothing(a: multiset<Tuple>, b: multiset<Tuple>)
    ensures a == a + b <==> b == multiset{}
  {
    if a == a + b {
      assert |a + b| == |a| + |b|;
    }
  }

  lemma ExitBalance(s: State, t: State, ready: seq<nat>)
    requires Since(s, t, ready) && Conserved(t) && t.leader.Exited? && t.remaining == []
    requires forall w :: 0 <= w < |t.workers| ==> t.workers[w].pc == Done
    ensures Written(t.segments) == Documents(t.heap) <==>
            forall i :: 0 <= i < |s.buffers| && s.buffers[i].docs != [] ==> Listed(ready, i)
  {
    hide Written, Held, Documents, Hands, Listed;
    DoneHoldNothing(t.workers);
    NoDocuments();
    HeldNothing(t.buffers, |t.buffers|);
    AddNothing(Written(t.segments), Held(t.buffers, {}, |t.buffers|));
  }

  lemma NoDocuments()
    ensures Documents([]) == multiset{}
  {
  }

  /**
   * The exact condition for a complete index: when the leader leaves, the segments hold every
   * document of the heap if and only if, at its last check, no buffer had become ready since
   * the leader sampled it.
   */
  lemma ExitCompleteIff(states: seq<State>, n: nat, j: nat) returns (i: nat)
    requires Run(states) && n > 0 && Init(states[0], n) && j < |states| && states[j].leader.Exited?
    ensures i < j && LastCheck(states[i])
    ensures Written(states[j].segments) == Documents(states[j].heap) <==> ListedAll(states[i])
  {
    i := LeaderLeaves(states, n, j);
    RunKeepsInv(states, n, i);
    RunKeepsInv(states, n, j);
    RunKeepsDrained(states, n, i);
    var s, t := states[i], states[j];
    DoneAtMost(s.workers);
    SinceLastCheck(states, n, i, j);
    hide Run, Init, WorkersOk, LeaderOk, Conserved, Written, Documents;
    assert s.workers[0].pc == Done;
    ExitBalance(s, t, s.leader.ready);
  }

  lemma RunJoin(before: seq<State>, after: seq<State>)
    requires Run(before) && Run(after) && before[|before| - 1] == after[0]
    ensures Run(before + after[1..])
    ensures var all := before + after[1..]; all[0] == before[0] && all[|all| - 1] == after[|after| - 1]
  {
    hide Step;
  }

  /** The only worker scans the only tuple, finds nothing more and is done, whatever the leader does. */
  lemma WorkerRuns(s: State, doc: Tuple) returns (states: seq<State>)
    requires s.workers == [Worker(0, Start)] && s.remaining == [doc] && doc.terms == 1 && s.threshold > 0
    requires s.buffers == [Buffer(Empty, []), Buffer(Empty, [])] && s.workersDone == 0
    ensures Run(states) && states[0] == s
    ensures var t := states[|states| - 1];
            t.leader == s.leader && t.segments == s.segments && t.heap == s.heap && t.workersDone == |t.workers| == 1
  {
    var s1 := SetWorker(SetStatus(s, 0, Filling), 0, Worker(0, Scan));
    var s2 := SetWorker(s1, 0, Worker(0, Got(doc))).(remaining := s1.remaining[1..]);
    var s3 := SetWorker(s2, 0, Worker(0, Put(doc)));
    var s4 := SetWorker(Process(s3, 0, doc), 0, Worker(0, Scan));
    var s5 := SetWorker(SetStatus(s4, 0, Ready), 0, Worker(0, Finished));
    var s6 := SetWorker(s5, 0, Worker(0, Done)).(workersDone := 1);
    states := [s, s1, s2, s3, s4, s5, s6];
    assert WorkerStep(s, s1, 0) && WorkerStep(s1, s2, 0) && WorkerStep(s2, s3, 0);
    assert WorkerStep(s3, s4, 0) && WorkerStep(s4, s5, 0) && WorkerStep(s5, s6, 0);
  }

  /** The buffer of the only worker becomes ready between the leader's sampling and its last check. */
  lemma LeaderMissesBuffer() returns (states: seq<State>)
    ensures Run(states) && Init(states[0], 1) && states[|states| - 1].leader.Exited?
    ensures Written(states[|states| - 1].segments) == multiset{}
    ensures Documents(states[|states| - 1].heap) == multiset{Tuple(ItemPointer(0, 1), 1)}
  {
    hide WorkerStep;
    var doc := Tuple(ItemPointer(0, 1), 1);
    var empty := Buffer(Empty, []);
    var s0 := State([doc], 10, [doc], [Worker(0, Start)], [empty, empty], Sampling(0, []), 0, [], multiset{});
    var s1 := s0.(leader := Sampling(1, []));
    var s2 := s1.(leader := Sampling(2, []));
    var s3 := s2.(leader := Checking([]));
    assert LeaderStep(s0, s1) && LeaderStep(s1, s2) && LeaderStep(s2, s3);
    var ran := WorkerRuns(s3, doc);
    RunJoin([s0, s1, s2, s3], ran);
    var before := [s0, s1, s2, s3] + ran[1..];
    var s9 := before[|before| - 1];
    var s10 := s9.(leader := Exited);
    assert LeaderStep(s9, s10);
    RunJoin(before, [s9, s10]);
    states := before + [s9, s10][1..];
  }
}
