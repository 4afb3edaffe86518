/**
 * When the parallel build can go on (src/am/build_parallel.c): the leader merges once it finds as many
 * ready buffers as there are workers, which is meant to keep workers with two full buffers going.
 * With workers that have nothing more to do it need not find that many, and then nothing moves.
 */
module ParallelProgress {
  import opened ItemPointers
  import opened ParallelBuild
  import opened Sequences
  import opened Wrappers

  /** A worker cannot take a step exactly when it is done, or waits for a buffer that the leader has not emptied. */
  lemma BlockedIff(s: State, w: nat)
    requires WorkersOk(s) && w < |s.workers|
    ensures s.workers[w].active <= 1 && OtherBuffer(s, w) < |s.buffers|
    ensures WorkerNext(s, w) == None <==>
            s.workers[w].pc.Done? || (s.workers[w].pc.Wait? && s.buffers[OtherBuffer(s, w)].status == Ready)
  {
    assert WorkerOk(s, w);
  }

  /** The ready buffers among the first n, in order. */
  function ReadyBelow(buffers: seq<Buffer>, n: nat): seq<nat>
    requires n <= |buffers|
  {
    if n == 0 then [] else ReadyBelow(buffers, n - 1) + if buffers[n - 1].status == Ready then [n - 1] else []
  }

  function ReadyBuffers(s: State): seq<nat> {
    ReadyBelow(s.buffers, |s.buffers|)
  }

  lemma {:induction false} ReadyAreListed(buffers: seq<Buffer>, n: nat)
    requires n <= |buffers|
    ensures forall i: nat :: i in ReadyBelow(buffers, n) <==> i < n && buffers[i].status == Ready
  {
    if n > 0 { ReadyAreListed(buffers, n - 1); }
  }

  ghost predicate NoWorkerMoves(s: State) {
    |s.buffers| == 2 * |s.workers| &&
    forall w :: 0 <= w < |s.workers| ==> s.workers[w].active <= 1 && WorkerNext(s, w) == None
  }

  ghost predicate SomeoneWaits(s: State) {
    exists w :: 0 <= w < |s.workers| && s.workers[w].pc.Wait?
  }

  /** A worker waits, none can move, and the leader looks for more ready buffers than there are. */
  ghost predicate Stuck(s: State) {
    && Inv(s) && NoWorkerMoves(s) && SomeoneWaits(s) && |ReadyBuffers(s)| < |s.workers|
    && (s.leader.Sampling? || s.leader.Checking?)
  }

  // ---------- stuck is stuck for good ----------

  /** The leader's list is no longer than the list of all ready buffers. */
  lemma NoMoreThanReady(s: State, ready: seq<nat>)
    requires AllReady(s.buffers, ready)
    ensures |ready| <= |ReadyBuffers(s)|
  {
    ReadyAreListed(s.buffers, |s.buffers|);
    assert Distinct(ready);
    DistinctCount(ready);
    var all := ReadyBuffers(s);
    forall x
      ensures multiset(ready)[x] <= multiset(all)[x]
    {
      if x in multiset(ready) { assert x in ready && x in all; }
    }
    assert multiset(ready) <= multiset(all);
    FewerInAll(multiset(ready), multiset(all));
  }

  lemma FewerInAll(part: multiset<nat>, all: multiset<nat>)
    requires part <= all
    ensures |part| <= |all|
  {
    assert all == part + (all - part);
  }

  lemma NotAllDone(s: State)
    requires Inv(s) && SomeoneWaits(s)
    ensures s.workersDone < |s.workers|
  {
    DoneAtMost(s.workers);
  }

  lemma StuckStep(s: State, t: State)
    requires Stuck(s) && Step(s, t)
    ensures Stuck(t) && t.buffers == s.buffers && t.workers == s.workers && t.segments == s.segments &&
            t.remaining == s.remaining
  {
    hide Inv, ReadyBelow;
    if w :| WorkerStep(s, t, w) {
      assert false;
    }
    LeaderKeepsInv(s, t);
    LooksOnly(s, t);
  }

  lemma LooksOnly(s: State, t: State)
    requires Stuck(s) && LeaderStep(s, t)
    ensures t.buffers == s.buffers && t.workers == s.workers && t.segments == s.segments && t.remaining == s.remaining
    ensures t.leader.Sampling? || t.leader.Checking?
    ensures NoWorkerMoves(t) && SomeoneWaits(t)
  {
    hide ReadyBelow, WorkersOk, Conserved;
    NotAllDone(s);
    if s.leader.Checking? {
      NoMoreThanReady(s, s.leader.ready);
    }
    assert s.leader.Checking? ==> t.leader == Sampling(0, []);
    SameWorkers(s, t);
  }

  lemma SameWorkers(s: State, t: State)
    requires NoWorkerMoves(s) && SomeoneWaits(s)
    requires t == s.(leader := t.leader)
    ensures NoWorkerMoves(t) && SomeoneWaits(t)
  {
    forall w | 0 <= w < |t.workers|
      ensures t.workers[w].active <= 1 && WorkerNext(t, w) == None
    {
      assert WorkerNext(s, w) == None;
    }
  }

  /** From a stuck state nothing is ever written or scanned again. */
  lemma {:induction false} StuckForever(states: seq<State>, i: nat)
    requires Run(states) && Stuck(states[0]) && i < |states|
    ensures Stuck(states[i]) && states[i].buffers == states[0].buffers && states[i].workers == states[0].workers
    ensures states[i].segments == states[0].segments && states[i].remaining == states[0].remaining
  {
    hide Stuck;
    if i > 0 {
      StuckForever(states, i - 1);
      assert Step(states[i - 1], states[i]);
      StuckStep(states[i - 1], states[i]);
    }
  }

  // ---------- and otherwise the leader merges ----------

  /** A whole round of sampling, while nobody else moves. */
  lemma {:induction false} LeaderSamples(s: State, next: nat) returns (states: seq<State>)
    requires next <= |s.buffers| && s.leader == Sampling(next, ReadyBelow(s.buffers, next))
    ensures Run(states) && states[0] == s && states[|states| - 1] == s.(leader := Checking(ReadyBuffers(s)))
    decreases |s.buffers| - next
  {
    if next == |s.buffers| {
      var t := s.(leader := Checking(ReadyBuffers(s)));
      assert LeaderStep(s, t);
      states := [s, t];
    } else {
      var t := s.(leader := Sampling(next + 1, ReadyBelow(s.buffers, next + 1)));
      assert ReadyBelow(s.buffers, next) + [] == ReadyBelow(s.buffers, next);
      assert LeaderStep(s, t);
      var rest := LeaderSamples(t, next + 1);
      RunJoin([s, t], rest);
      states := [s, t] + rest[1..];
    }
  }

  ghost predicate MergesAfter(s: State, states: seq<State>) {
    Run(states) && states[0] == s && states[|states| - 1].leader.Merging?
  }

  lemma EnoughMerges(s: State) returns (states: seq<State>)
    requires s.leader == Sampling(0, []) && 0 < |s.workers| <= |ReadyBuffers(s)|
    ensures MergesAfter(s, states)
  {
    states := LeaderSamples(s, 0);
    var t := states[|states| - 1];
    var u := t.(leader := Merging(ReadyBuffers(s), t.workersDone >= |t.workers|));
    assert LeaderStep(t, u);
    RunJoin(states, [t, u]);
    states := states + [t, u][1..];
  }

  /**
   * The exact condition: when no worker can move and one waits, a leader that starts to look will
   * merge if and only if there are at least as many ready buffers as workers.
   */
  lemma MergesIffEnough(s: State)
    requires Inv(s) && NoWorkerMoves(s) && SomeoneWaits(s) && s.leader == Sampling(0, [])
    ensures (exists states: seq<State> :: MergesAfter(s, states)) <==> |ReadyBuffers(s)| >= |s.workers|
  {
    hide Inv, NoWorkerMoves, ReadyBuffers;
    if |ReadyBuffers(s)| >= |s.workers| {
      var states := EnoughMerges(s);
      assert MergesAfter(s, states);
    } else {
      forall states: seq<State>
        ensures !MergesAfter(s, states)
      {
        NeverMerges(s, states);
      }
    }
  }

  lemma NeverMerges(s: State, states: seq<State>)
    requires Stuck(s)
    ensures !MergesAfter(s, states)
  {
    hide Inv, NoWorkerMoves, ReadyBuffers;
    if Run(states) && states[0] == s {
      StuckForever(states, |states| - 1);
    }
  }

  /** One worker alone never gets stuck. */
  lemma OneWorkerGoesOn(s: State)
    requires |s.workers| == 1
    ensures !Stuck(s)
  {
    if Inv(s) && NoWorkerMoves(s) && SomeoneWaits(s) {
      BlockedIff(s, 0);
      ReadyAreListed(s.buffers, |s.buffers|);
      assert OtherBuffer(s, 0) in ReadyBuffers(s);
    }
  }

  // ---------- two workers can ----------

  function Doc(i: nat): Tuple {
    Tuple(ItemPointer(0, i), 1)
  }

  const NOTHING := Buffer(Empty, [])

  /** Two workers, four documents, a threshold of one posting. */
  ghost const AT_START := State([Doc(1), Doc(2), Doc(3), Doc(4)], 1, [Doc(1), Doc(2), Doc(3), Doc(4)],
                                [Worker(0, Start), Worker(0, Start)], [NOTHING, NOTHING, NOTHING, NOTHING],
                                Sampling(0, []), 0, [], multiset{})

  /** The first worker fills its first buffer; the leader has already looked at it. */
  ghost const FIRST_SEEN := State(AT_START.heap, 1, [Doc(2), Doc(3), Doc(4)],
                                  [Worker(0, Scan), Worker(0, Start)],
                                  [Buffer(Filling, [Doc(1)]), NOTHING, NOTHING, NOTHING],
                                  Sampling(1, []), 0, [], multiset{Doc(1)})

  /** The first buffer is full, and it fills the second. */
  ghost const SECOND_FILLING := State(AT_START.heap, 1, [Doc(3), Doc(4)],
                                      [Worker(1, Scan), Worker(0, Start)],
                                      [Buffer(Ready, [Doc(1)]), Buffer(Filling, [Doc(2)]), NOTHING, NOTHING],
                                      Sampling(1, []), 0, [], multiset{Doc(1)} + multiset{Doc(2)})

  /** Both its buffers are full, and it waits for the first. */
  ghost const BOTH_FULL := State(AT_START.heap, 1, [Doc(4)],
                                 [Worker(1, Wait(Doc(3))), Worker(0, Start)],
                                 [Buffer(Ready, [Doc(1)]), Buffer(Ready, [Doc(2)]), NOTHING, NOTHING],
                                 Sampling(1, []), 0, [], multiset{Doc(1)} + multiset{Doc(2)})

  /** The second worker takes the last document and is done. */
  ghost const SECOND_DONE := State(AT_START.heap, 1, [],
                                   [Worker(1, Wait(Doc(3))), Worker(0, Done)],
                                   [Buffer(Ready, [Doc(1)]), Buffer(Ready, [Doc(2)]), Buffer(Ready, [Doc(4)]), NOTHING],
                                   Sampling(1, []), 1, [], multiset{Doc(1)} + multiset{Doc(2)} + multiset{Doc(4)})

  /** The leader has merged the two ready buffers it saw, and starts to look again. */
  ghost const LEFT_WAITING := State(AT_START.heap, 1, [],
                                    [Worker(1, Wait(Doc(3))), Worker(0, Done)],
                                    [Buffer(Ready, [Doc(1)]), NOTHING, NOTHING, NOTHING],
                                    Sampling(0, []), 1, [multiset{Doc(2), Doc(4)}], SECOND_DONE.scanned)

  lemma RunToFirstSeen() returns (states: seq<State>)
    ensures Run(states) && states[0] == AT_START && states[|states| - 1] == FIRST_SEEN
  {
    var s0 := AT_START;
    var s1 := SetWorker(SetStatus(s0, 0, Filling), 0, Worker(0, Scan));
    var s2 := SetWorker(s1, 0, Worker(0, Got(Doc(1)))).(remaining := [Doc(2), Doc(3), Doc(4)]);
    var s3 := SetWorker(s2, 0, Worker(0, Put(Doc(1))));
    var s4 := SetWorker(Process(s3, 0, Doc(1)), 0, Worker(0, Scan));
    states := [s0, s1, s2, s3, s4, FIRST_SEEN];
    assert WorkerStep(s0, s1, 0) && WorkerStep(s1, s2, 0) && WorkerStep(s2, s3, 0) && WorkerStep(s3, s4, 0);
    assert s4.buffers[0].docs == [Doc(1)];
    assert s4.buffers == FIRST_SEEN.buffers && s4.workers == FIRST_SEEN.workers && s4.scanned == FIRST_SEEN.scanned;
    assert LeaderStep(s4, FIRST_SEEN);
  }

  lemma RunToSecondFilling() returns (states: seq<State>)
    ensures Run(states) && states[0] == FIRST_SEEN && states[|states| - 1] == SECOND_FILLING
  {
    var s0 := FIRST_SEEN;
    var s1 := SetWorker(s0, 0, Worker(0, Got(Doc(2)))).(remaining := [Doc(3), Doc(4)]);
    var s2 := SetWorker(SetStatus(s1, 0, Ready), 0, Worker(0, Wait(Doc(2))));
    var s3 := SetWorker(SetStatus(s2, 1, Filling), 0, Worker(1, Put(Doc(2))));
    var s4 := SetWorker(Process(s3, 1, Doc(2)), 0, Worker(1, Scan));
    assert s4.buffers[1].docs == [Doc(2)];
    assert s4.buffers == SECOND_FILLING.buffers && s4.workers == SECOND_FILLING.workers &&
           s4.scanned == SECOND_FILLING.scanned;
    states := [s0, s1, s2, s3, SECOND_FILLING];
    assert WorkerStep(s0, s1, 0) && WorkerStep(s1, s2, 0) && WorkerStep(s2, s3, 0) && WorkerStep(s3, SECOND_FILLING, 0);
  }

  lemma RunToBothFull() returns (states: seq<State>)
    ensures Run(states) && states[0] == SECOND_FILLING && states[|states| - 1] == BOTH_FULL
  {
    var s0 := SECOND_FILLING;
    var s1 := SetWorker(s0, 0, Worker(1, Got(Doc(3)))).(remaining := [Doc(4)]);
    var s2 := SetWorker(SetStatus(s1, 1, Ready), 0, Worker(1, Wait(Doc(3))));
    assert s2.buffers == BOTH_FULL.buffers && s2.workers == BOTH_FULL.workers && s2.scanned == BOTH_FULL.scanned;
    states := [s0, s1, BOTH_FULL];
    assert WorkerStep(s0, s1, 0) && WorkerStep(s1, BOTH_FULL, 0);
  }

  lemma RunToSecondDone() returns (states: seq<State>)
    ensures Run(states) && states[0] == BOTH_FULL && states[|states| - 1] == SECOND_DONE
  {
    var s0 := BOTH_FULL;
    var s1 := SetWorker(SetStatus(s0, 2, Filling), 1, Worker(0, Scan));
    var s2 := SetWorker(s1, 1, Worker(0, Got(Doc(4)))).(remaining := []);
    var s3 := SetWorker(s2, 1, Worker(0, Put(Doc(4))));
    var s4 := SetWorker(Process(s3, 2, Doc(4)), 1, Worker(0, Scan));
    var s5 := SetWorker(SetStatus(s4, 2, Ready), 1, Worker(0, Finished));
    var s6 := SetWorker(s5, 1, Worker(0, Done)).(workersDone := 1);
    assert s1.remaining[1..] == [];
    assert s4.buffers[2].docs == [Doc(4)];
    assert s6.buffers == SECOND_DONE.buffers && s6.workers == SECOND_DONE.workers && s6.scanned == SECOND_DONE.scanned;
    states := [s0, s1, s2, s3, s4, s5, SECOND_DONE];
    assert WorkerStep(s0, s1, 1) && WorkerStep(s1, s2, 1) && WorkerStep(s2, s3, 1);
    assert WorkerStep(s3, s4, 1) && WorkerStep(s4, s5, 1) && WorkerStep(s5, SECOND_DONE, 1);
  }

  lemma RunToChecked() returns (states: seq<State>)
    ensures Run(states) && states[0] == SECOND_DONE && states[|states| - 1] == SECOND_DONE.(leader := Checking([1, 2]))
  {
    hide Inv;
    var s0 := SECOND_DONE;
    var s1 := s0.(leader := Sampling(2, [1]));
    var s2 := s0.(leader := Sampling(3, [1, 2]));
    var s3 := s0.(leader := Sampling(4, [1, 2]));
    var s4 := s0.(leader := Checking([1, 2]));
    assert [] + [1] == [1] && [1] + [2] == [1, 2];
    states := [s0, s1, s2, s3, s4];
    assert LeaderStep(s0, s1) && LeaderStep(s1, s2) && LeaderStep(s2, s3) && LeaderStep(s3, s4);
  }

  lemma RunToLeftWaiting() returns (states: seq<State>)
    ensures Run(states) && states[0] == SECOND_DONE.(leader := Checking([1, 2])) && states[|states| - 1] == LEFT_WAITING
  {
    var s0 := SECOND_DONE.(leader := Checking([1, 2]));
    var s1 := s0.(leader := Merging([1, 2], false));
    var s2 := s0.(leader := Clearing([1, 2], 0, false), segments := [multiset{Doc(2), Doc(4)}]);
    var s3 := s2.(leader := Clearing([1, 2], 1, false), buffers := s2.buffers[1 := NOTHING]);
    var s4 := s3.(leader := Clearing([1, 2], 2, false), buffers := s3.buffers[2 := NOTHING]);
    MergedDocs(s1.buffers);
    hide DocsIn;
    assert [] + [multiset{Doc(2), Doc(4)}] == [multiset{Doc(2), Doc(4)}] && s4.buffers == LEFT_WAITING.buffers;
    states := [s0, s1, s2, s3, s4, LEFT_WAITING];
    assert LeaderStep(s0, s1) && LeaderStep(s1, s2);
    assert LeaderStep(s2, s3) && LeaderStep(s3, s4) && LeaderStep(s4, LEFT_WAITING);
  }

  lemma MergedDocs(buffers: seq<Buffer>)
    requires |buffers| > 2 && buffers[1].docs == [Doc(2)] && buffers[2].docs == [Doc(4)]
    ensures DocsIn(buffers, [1, 2]) == multiset{Doc(2), Doc(4)}
  {
    assert [1, 2][..1] == [1] && [1][..0] == [];
    assert DocsIn(buffers, []) == multiset{};
    assert DocsIn(buffers, [1]) == multiset{Doc(2)};
  }

  /**
   * A run that gets stuck with two workers. The leader looks at the first buffer before it is full and at
   * the second afterwards, merges the second with a buffer of the other worker, and then waits for two
   * ready buffers where only the first one can be. Two of the four documents are never written.
   */
  lemma TwoWorkersGetStuck() returns (states: seq<State>)
    ensures Run(states) && Init(states[0], 2) && Stuck(states[|states| - 1])
    ensures Documents(states[0].heap) == multiset{Doc(1), Doc(2), Doc(3), Doc(4)}
    ensures Written(states[|states| - 1].segments) == multiset{Doc(2), Doc(4)}
  {
    states := RunToFirstSeen();
    var filling, full, done, checked, waiting := RunParts();
    FourDocuments();
    StartsRight();
    LeftIsStuck();
    hide Run, Stuck, Documents, Init;
    RunJoin(states, filling);
    states := states + filling[1..];
    RunJoin(states, full);
    states := states + full[1..];
    RunJoin(states, done);
    states := states + done[1..];
    RunJoin(states, checked);
    states := states + checked[1..];
    RunJoin(states, waiting);
    states := states + waiting[1..];
    RunKeepsInv(states, 2, |states| - 1);
  }

  lemma RunParts() returns (filling: seq<State>, full: seq<State>, done: seq<State>, checked: seq<State>,
                              waiting: seq<State>)
    ensures Run(filling) && filling[0] == FIRST_SEEN && filling[|filling| - 1] == SECOND_FILLING
    ensures Run(full) && full[0] == SECOND_FILLING && full[|full| - 1] == BOTH_FULL
    ensures Run(done) && done[0] == BOTH_FULL && done[|done| - 1] == SECOND_DONE
    ensures Run(waiting) && waiting[|waiting| - 1] == LEFT_WAITING
    ensures Run(checked) && checked[0] == SECOND_DONE && checked[|checked| - 1] == waiting[0]
  {
    filling := RunToSecondFilling();
    full := RunToBothFull();
    done := RunToSecondDone();
    checked := RunToChecked();
    waiting := RunToLeftWaiting();
  }

  lemma StartsRight()
    ensures Init(AT_START, 2)
  {
  }

  lemma FourDocuments()
    ensures Documents(AT_START.heap) == multiset{Doc(1), Doc(2), Doc(3), Doc(4)}
    ensures Written(LEFT_WAITING.segments) == multiset{Doc(2), Doc(4)}
  {
  }

  lemma LeftIsStuck()
    ensures Inv(LEFT_WAITING) ==> Stuck(LEFT_WAITING)
  {
    hide Inv;
    var s := LEFT_WAITING;
    assert s.workers[0].pc.Wait?;
    assert ReadyBelow(s.buffers, 1) == [0];
    assert ReadyBelow(s.buffers, 2) == [0] && ReadyBelow(s.buffers, 3) == [0] && ReadyBelow(s.buffers, 4) == [0];
  }
}
