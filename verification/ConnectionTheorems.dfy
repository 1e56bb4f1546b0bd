/** What the close protocol guarantees in every run, and exactly when no answer can be lost. */
module ConnectionTheorems {
  import opened Options
  import opened Counting
  import opened Connection

  /** The descriptor is never closed twice, and `alive` is only dropped by the closer. */
  lemma ClosedAtMostOnce(batches: seq<nat>, moves: seq<nat>)
    requires |batches| > 0
    ensures
      var s := Run(batches, Init(), moves);
      s.closes <= 1 && (s.closes == 1 ==> s.fdClosed && s.peerClosed && !s.alive)
  {
    RunInv(batches, moves);
  }

  /** When the peer has closed and every job and the loop's own tryFinalize are done, the
      descriptor has been closed exactly once and no job is pending. */
  lemma ClosedExactlyOnce(batches: seq<nat>, moves: seq<nat>)
    requires |batches| > 0
    requires forall t :: 0 <= t < |Run(batches, Init(), moves).threads| ==>
               Run(batches, Init(), moves).threads[t].End?
    ensures
      var s := Run(batches, Init(), moves);
      s.closes == 1 && s.pending == 0 && !s.alive && s.answered + s.lost + s.late == Sum(batches, 0)
  {
    RunInv(batches, moves);
    var s := Run(batches, Init(), moves);
    NobodyCounts(s.threads, Counted);
    NobodyCounts(s.threads, Closing);
    NobodyCounts(s.threads, Unanswered);
  }

  /** If no tryFinalize finds the pending count at zero between the closing of the peer and the
      last dispatch of that batch, no answer is lost and the close comes after all of them. */
  lemma ResponsesFirst(batches: seq<nat>, moves: seq<nat>)
    requires |batches| > 0 && !Run(batches, Init(), moves).early
    ensures
      var s := Run(batches, Init(), moves);
      s.lost == 0 && s.late == 0 && (s.closes > 0 || !s.alive ==> s.answered == Sum(batches, 0))
  {
    RunInv(batches, moves);
    var s := Run(batches, Init(), moves);
    DecidedPeer(batches, s);
    if s.closes > 0 || !s.alive {
      assert AllAnswered(s);
      forall t | 0 <= t < |s.threads| ensures !Unanswered(s.threads[t]) { assert !Owing(s.threads[t]); }
      NobodyCounts(s.threads, Unanswered);
      assert ToCome(batches, s.threads[0]) == 0;
    }
  }

  // ------------------------------------------------------------------ when no run can lose an answer

  /** The final read finds no message, or finds the only message of the connection. */
  predicate SafeBatches(batches: seq<nat>) {
    |batches| > 0 &&
    var last := batches[|batches| - 1];
    last == 0 || (last == 1 && Sum(batches, 0) == 1)
  }

  lemma {:induction false} NeverEarly(batches: seq<nat>, moves: seq<nat>)
    requires SafeBatches(batches)
    ensures !Run(batches, Init(), moves).early
    decreases |moves|
  {
    if moves != [] {
      var n := |moves| - 1;
      NeverEarly(batches, moves[..n]);
      RunInv(batches, moves[..n]);
      NotEarlyStep(batches, Run(batches, Init(), moves[..n]), moves[n]);
    }
  }

  lemma NotEarlyStep(batches: seq<nat>, s: State, t: nat)
    requires SafeBatches(batches) && Inv(batches, s) && !s.early
    ensures !Step(batches, s, t).early
  {
    if t < |s.threads| && s.threads[t].AskPending? { assert Past(s.threads[t]); }
  }

  // ------------------------------------------------------------------ a run that loses an answer

  /** A set of states that no step leaves. The runs below are built inside any such set. */
  ghost predicate Closed(batches: seq<nat>, p: State -> bool) {
    forall s, t: nat {:trigger Step(batches, s, t)} :: p(s) ==> p(Step(batches, s, t))
  }

  lemma Extend(batches: seq<nat>, p: State -> bool, s: State, t: nat)
    requires Closed(batches, p) && p(s)
    ensures p(Step(batches, s, t))
  {}

  function Jobs(pc: Pc, j: nat): (r: seq<Pc>) { [pc] + seq(j, _ => Answer) }

  /** The loop at `pc` after handing out `j` jobs that have not started. */
  function Waiting(pc: Pc, j: nat, peer: bool): State {
    State(j, peer, false, true, 0, None, Jobs(pc, j), 0, 0, 0, false)
  }

  lemma JobsMove(pc: Pc, next: Pc, j: nat)
    ensures Jobs(pc, j)[0 := next] + [] == Jobs(next, j)
    ensures Jobs(pc, j)[0 := next] + [Answer] == Jobs(next, j + 1)
  {}

  lemma DispatchOne(batches: seq<nat>, p: State -> bool, b: nat, k: nat, j: nat, peer: bool)
    requires Closed(batches, p) && p(Waiting(Dispatch(b, k), j, peer)) && k > 0
    ensures p(Waiting(Dispatch(b, k - 1), j + 1, peer))
  {
    var s := Waiting(Dispatch(b, k), j, peer);
    Extend(batches, p, s, 0);
    JobsMove(Dispatch(b, k), Submit(b, k), j);
    var s1 := Waiting(Submit(b, k), j, peer).(pending := j + 1);
    assert Step(batches, s, 0) == s1;
    Extend(batches, p, s1, 0);
    JobsMove(Submit(b, k), Dispatch(b, k - 1), j);
    assert Step(batches, s1, 0) == Waiting(Dispatch(b, k - 1), j + 1, peer);
  }

  lemma {:induction false} DispatchMany(batches: seq<nat>, p: State -> bool, b: nat, k: nat, n: nat, j: nat, peer: bool)
    requires Closed(batches, p) && p(Waiting(Dispatch(b, k), j, peer)) && n <= k
    ensures p(Waiting(Dispatch(b, k - n), j + n, peer))
    decreases n
  {
    if n > 0 {
      DispatchOne(batches, p, b, k, j, peer);
      DispatchMany(batches, p, b, k - 1, n - 1, j + 1, peer);
    }
  }

  lemma LoopMove(batches: seq<nat>, p: State -> bool, pc: Pc, next: Pc, j: nat, peer: bool)
    requires Closed(batches, p) && p(Waiting(pc, j, peer)) && LoopPc(pc)
    requires !MoreToCome(pc) && !pc.Submit? && next == NextPc(batches, Waiting(pc, j, peer), 0)
    ensures p(Waiting(next, j, peer || pc.Mark?))
  {
    Extend(batches, p, Waiting(pc, j, peer), 0);
    JobsMove(pc, next, j);
  }

  lemma ReadOne(batches: seq<nat>, p: State -> bool, b: nat, j: nat)
    requires Closed(batches, p) && b + 1 < |batches| && p(Waiting(Read(b), j, false))
    ensures p(Waiting(Read(b + 1), j + batches[b], false))
  {
    StartBatch(batches, p, b, j);
    DispatchMany(batches, p, b, batches[b], batches[b], j, false);
    LoopMove(batches, p, Dispatch(b, 0), Read(b + 1), j + batches[b], false);
  }

  lemma StartBatch(batches: seq<nat>, p: State -> bool, b: nat, j: nat)
    requires Closed(batches, p) && b + 1 < |batches| && p(Waiting(Read(b), j, false))
    ensures p(Waiting(Dispatch(b, batches[b]), j, false))
  {
    LoopMove(batches, p, Read(b), Dispatch(b, batches[b]), j, false);
  }

  /** The loop hands out everything before the final read while no job starts. */
  lemma {:induction false} ReadUpToLast(batches: seq<nat>, p: State -> bool, b: nat, j: nat)
    requires Closed(batches, p) && b < |batches| && p(Waiting(Read(b), j, false))
    ensures Sum(batches, b) >= batches[|batches| - 1]
    ensures p(Waiting(Read(|batches| - 1), j + Sum(batches, b) - batches[|batches| - 1], false))
    decreases |batches| - b
  {
    if b + 1 < |batches| {
      ReadOne(batches, p, b, j);
      ReadUpToLast(batches, p, b + 1, j + batches[b]);
    }
  }

  /** The final read marks the peer as closed before it dispatches. */
  lemma FinalRead(batches: seq<nat>, p: State -> bool, b: nat, j: nat)
    requires Closed(batches, p) && b + 1 == |batches| && p(Waiting(Read(b), j, false))
    ensures p(Waiting(Dispatch(b, batches[b]), j, true))
  {
    LoopMove(batches, p, Read(b), Mark(b), j, false);
    LoopMove(batches, p, Mark(b), Dispatch(b, batches[b]), j, false);
  }

  lemma AtFinalRead(batches: seq<nat>, p: State -> bool)
    requires Closed(batches, p) && p(Init()) && |batches| > 0
    ensures batches[|batches| - 1] <= Sum(batches, 0)
    ensures p(Waiting(Dispatch(|batches| - 1, batches[|batches| - 1]), Sum(batches, 0) - batches[|batches| - 1], true))
  {
    assert Init() == Waiting(Read(0), 0, false);
    ReadUpToLast(batches, p, 0, 0);
    FinalRead(batches, p, |batches| - 1, Sum(batches, 0) - batches[|batches| - 1]);
  }

  /** The final read finds at least one message, and all but the last one are handed out. */
  lemma BeforeLastDispatch(batches: seq<nat>, p: State -> bool)
    requires Closed(batches, p) && p(Init()) && |batches| > 0 && batches[|batches| - 1] > 0
    ensures Sum(batches, 0) > 0
    ensures p(Waiting(Dispatch(|batches| - 1, 1), Sum(batches, 0) - 1, true))
  {
    AtFinalRead(batches, p);
    AllButOne(batches, p, |batches| - 1, batches[|batches| - 1], Sum(batches, 0) - batches[|batches| - 1],
              Sum(batches, 0) - 1);
  }

  lemma AllButOne(batches: seq<nat>, p: State -> bool, b: nat, k: nat, j: nat, total: nat)
    requires Closed(batches, p) && p(Waiting(Dispatch(b, k), j, true)) && k > 0 && total == j + (k - 1)
    ensures p(Waiting(Dispatch(b, 1), total, true))
  {
    DispatchMany(batches, p, b, k, k - 1, j, true);
  }

  /** The loop has one message left to dispatch, the peer has closed, and nobody has closed yet. */
  predicate Calm(s: State, t: nat) {
    && 0 < t < |s.threads| && s.threads[0].Dispatch? && s.threads[0].k > 0
    && s.alive && s.closes == 0 && !s.fdClosed && s.peerClosed
  }

  /** Job `t` has locked the connection and seen it alive. */
  lemma LockedAlive(batches: seq<nat>, p: State -> bool, s: State, t: nat)
    requires Closed(batches, p) && p(s) && 0 <= t < |s.threads| && s.threads[t].Answer? && s.mutex.None? && s.alive
    ensures p(s.(mutex := Some(t), threads := s.threads[t := Send]))
  {
    Extend(batches, p, s, t);
    var s1 := s.(mutex := Some(t), threads := s.threads[t := AskAlive]);
    assert Step(batches, s, t) == s1;
    Extend(batches, p, s1, t);
    assert Step(batches, s1, t) == s1.(threads := s.threads[t := Send]);
  }

  /** Job `t` sends its answer and unlocks. */
  lemma SendAnswer(batches: seq<nat>, p: State -> bool, s: State, t: nat)
    requires Closed(batches, p) && p(s) && Calm(s, t) && s.threads[t].Send?
    ensures p(s.(mutex := None, threads := s.threads[t := Finish], answered := s.answered + 1))
  {
    Extend(batches, p, s, t);
    var s1 := s.(threads := s.threads[t := Unlock], answered := s.answered + 1);
    assert Step(batches, s, t) == s1;
    Extend(batches, p, s1, t);
    assert Step(batches, s1, t) == s1.(mutex := None, threads := s.threads[t := Finish]);
  }

  /** Job `t` gives up its count and sees that the peer closed. */
  lemma GiveUpCount(batches: seq<nat>, p: State -> bool, s: State, t: nat)
    requires Closed(batches, p) && p(s) && Calm(s, t) && s.threads[t].Finish?
    ensures p(s.(pending := s.pending - 1, threads := s.threads[t := AskPending]))
  {
    Extend(batches, p, s, t);
    var s1 := s.(pending := s.pending - 1, threads := s.threads[t := AskPeer]);
    assert Step(batches, s, t) == s1;
    Extend(batches, p, s1, t);
    assert Step(batches, s1, t) == s1.(threads := s.threads[t := AskPending]);
  }

  lemma AnswerJob(batches: seq<nat>, p: State -> bool, s: State, t: nat)
    requires Closed(batches, p) && p(s) && Calm(s, t) && s.threads[t].Answer? && s.mutex.None?
    ensures p(s.(pending := s.pending - 1, threads := s.threads[t := AskPending], answered := s.answered + 1))
  {
    LockedAlive(batches, p, s, t);
    var s1 := s.(mutex := Some(t), threads := s.threads[t := Send]);
    SendAnswer(batches, p, s1, t);
    var s2 := s.(threads := s.threads[t := Finish], answered := s.answered + 1);
    assert s1.(mutex := None, threads := s1.threads[t := Finish], answered := s1.answered + 1) == s2;
    GiveUpCount(batches, p, s2, t);
    assert s2.threads[t := AskPending] == s.threads[t := AskPending];
  }

  /** Job `t` has decided to close although one message is still to be dispatched. */
  ghost predicate Hasty(p: State -> bool, s: State, t: nat) {
    && p(s) && Calm(s, t) && s.threads[t].CasClosed? && s.mutex.None?
  }

  /** The jobs 1 .. n run one after another; the last of them decides to close. */
  lemma {:induction false} RunJobs(batches: seq<nat>, p: State -> bool, s: State, n: nat) returns (z: State)
    requires Closed(batches, p) && p(s) && Calm(s, n) && s.mutex.None? && s.pending == n
    requires forall t :: 0 < t <= n ==> s.threads[t].Answer?
    ensures Hasty(p, z, 1)
    decreases n
  {
    AnswerJob(batches, p, s, n);
    var s1 := s.(pending := s.pending - 1, threads := s.threads[n := AskPending], answered := s.answered + 1);
    Extend(batches, p, s1, n);
    if n == 1 {
      z := Step(batches, s1, n);
      assert z.threads == s.threads[n := CasClosed];
    } else {
      var s2 := s1.(threads := s.threads[n := End]);
      assert Step(batches, s1, n) == s2;
      z := RunJobs(batches, p, s2, n - 1);
    }
  }

  /** Job `t` closes: three steps that leave every other thread where it is. */
  lemma CloseJob(batches: seq<nat>, p: State -> bool, s: State, t: nat) returns (z: State)
    requires Closed(batches, p) && p(s) && 0 <= t < |s.threads| && s.threads[t].CasClosed? && !s.fdClosed
    ensures p(z) && z.threads == s.threads[t := End] && z.mutex == s.mutex
    ensures !z.alive && z.closes > 0
  {
    Extend(batches, p, s, t);
    z := Step(batches, s, t);
    assert z.threads == s.threads[t := Kill];
    Extend(batches, p, z, t);
    z := Step(batches, z, t);
    assert z.threads == s.threads[t := Close];
    Extend(batches, p, z, t);
    z := Step(batches, z, t);
    assert z.threads == s.threads[t := End];
  }

  /** The loop dispatches one more message. */
  lemma OneMore(batches: seq<nat>, p: State -> bool, s: State) returns (z: State)
    requires Closed(batches, p) && p(s) && |s.threads| > 0 && MoreToCome(s.threads[0])
    ensures p(z) && |z.threads| == |s.threads| + 1 && z.threads[|s.threads|] == Answer
    ensures forall t :: 0 < t < |s.threads| ==> z.threads[t] == s.threads[t]
    ensures z.mutex == s.mutex && z.alive == s.alive && z.closes == s.closes && z.fdClosed == s.fdClosed
  {
    var pc, n := s.threads[0], |s.threads|;
    Extend(batches, p, s, 0);
    z := Step(batches, s, 0);
    assert z.threads == s.threads[0 := Submit(pc.b, pc.k)];
    Extend(batches, p, z, 0);
    z := Step(batches, z, 0);
  }

  /** The descriptor is closed, then the last message is dispatched: its answer is given up. */
  lemma LoseOne(batches: seq<nat>, p: State -> bool, s: State, t: nat) returns (z: State)
    requires Closed(batches, p) && Hasty(p, s, t)
    ensures p(z) && z.lost > 0
  {
    var n := |s.threads|;
    z := CloseJob(batches, p, s, t);
    z := OneMore(batches, p, z);
    Extend(batches, p, z, n);
    z := Step(batches, z, n);
    assert z.threads[n] == AskAlive;
    Extend(batches, p, z, n);
    z := Step(batches, z, n);
  }

  /** The last message is dispatched and its job sees the connection alive; then the descriptor is
      closed, and the answer is written to it. */
  lemma SendLate(batches: seq<nat>, p: State -> bool, s: State, t: nat) returns (z: State)
    requires Closed(batches, p) && Hasty(p, s, t)
    ensures p(z) && z.late > 0
  {
    var n := |s.threads|;
    z := OneMore(batches, p, s);
    LockedAlive(batches, p, z, n);
    z := CloseJob(batches, p, z.(mutex := Some(n), threads := z.threads[n := Send]), t);
    Extend(batches, p, z, n);
    z := Step(batches, z, n);
  }

  /** For every connection that is not safe, all jobs handed out before the last dispatch may
      finish first, and one of them decides to close. */
  lemma HastyRun(batches: seq<nat>, p: State -> bool) returns (z: State)
    requires Closed(batches, p) && p(Init()) && |batches| > 0 && !SafeBatches(batches)
    ensures Hasty(p, z, 1)
  {
    var j := Sum(batches, 0) - 1;
    LastBelowSum(batches, 0);
    BeforeLastDispatch(batches, p);
    z := RunJobs(batches, p, Waiting(Dispatch(|batches| - 1, 1), j, true), j);
  }

  /** Some run of the connection ends in `s`. */
  ghost predicate Reachable(batches: seq<nat>, s: State) {
    exists moves :: Run(batches, Init(), moves) == s
  }

  lemma ReachableClosed(batches: seq<nat>)
    ensures Reachable(batches, Init()) && Closed(batches, s => Reachable(batches, s))
  {
    assert Run(batches, Init(), []) == Init();
    forall s, t: nat | Reachable(batches, s) ensures Reachable(batches, Step(batches, s, t)) {
      var moves :| Run(batches, Init(), moves) == s;
      var more := moves + [t];
      assert more[..|more| - 1] == moves;
      assert Run(batches, Init(), more) == Step(batches, s, t);
    }
  }

  /** A run that loses an answer, for every connection that is not safe. */
  lemma LosingRun(batches: seq<nat>) returns (moves: seq<nat>)
    requires |batches| > 0 && !SafeBatches(batches)
    ensures Run(batches, Init(), moves).lost > 0
  {
    var p := s => Reachable(batches, s);
    ReachableClosed(batches);
    var z := HastyRun(batches, p);
    z := LoseOne(batches, p, z, 1);
    moves :| Run(batches, Init(), moves) == z;
  }

  /** A run that writes to the closed descriptor, for every connection that is not safe. */
  lemma LateRun(batches: seq<nat>) returns (moves: seq<nat>)
    requires |batches| > 0 && !SafeBatches(batches)
    ensures Run(batches, Init(), moves).late > 0
  {
    var p := s => Reachable(batches, s);
    ReachableClosed(batches);
    var z := HastyRun(batches, p);
    z := SendLate(batches, p, z, 1);
    moves :| Run(batches, Init(), moves) == z;
  }

  lemma {:induction false} LastBelowSum(batches: seq<nat>, b: nat)
    requires b < |batches|
    ensures batches[|batches| - 1] <= Sum(batches, b)
    decreases |batches| - b
  {
    if b + 1 < |batches| { LastBelowSum(batches, b + 1); }
  }

  /** No run gives up an answer if and only if the final read finds no message, or the only message
      of the whole connection. */
  lemma NoAnswerLostIff(batches: seq<nat>)
    requires |batches| > 0
    ensures (forall moves :: Run(batches, Init(), moves).lost == 0) <==> SafeBatches(batches)
  {
    if SafeBatches(batches) {
      forall moves ensures Run(batches, Init(), moves).lost == 0 {
        NeverEarly(batches, moves);
        ResponsesFirst(batches, moves);
      }
    } else {
      var moves := LosingRun(batches);
      assert Run(batches, Init(), moves).lost != 0;
    }
  }

  /** No run writes an answer to the closed descriptor under exactly the same condition. */
  lemma NoSendAfterCloseIff(batches: seq<nat>)
    requires |batches| > 0
    ensures (forall moves :: Run(batches, Init(), moves).late == 0) <==> SafeBatches(batches)
  {
    if SafeBatches(batches) {
      forall moves ensures Run(batches, Init(), moves).late == 0 {
        NeverEarly(batches, moves);
        ResponsesFirst(batches, moves);
      }
    } else {
      var moves := LateRun(batches);
      assert Run(batches, Init(), moves).late != 0;
    }
  }

  // ------------------------------------------------------------------ one answer at a time

  /** Inside `safeSend`, with the lock. */
  predicate Sending(pc: Pc) { pc.AskAlive? || pc.Send? || pc.Unlock? }

  /** Exactly the holder of `writeMutex` is sending. */
  ghost predicate Locked(s: State) {
    && (s.mutex.Some? ==> s.mutex.value < |s.threads|)
    && forall t :: 0 <= t < |s.threads| ==> (Sending(s.threads[t]) <==> s.mutex == Some(t))
  }

  lemma StepLocked(batches: seq<nat>, s: State, t: nat)
    requires Locked(s)
    ensures Locked(Step(batches, s, t))
  {
    if t < |s.threads| {
      StepThreads(batches, s, t);
      assert Sending(s.threads[t]) <==> s.mutex == Some(t);
    }
  }

  lemma {:induction false} RunLocked(batches: seq<nat>, moves: seq<nat>)
    ensures Locked(Run(batches, Init(), moves))
    decreases |moves|
  {
    if moves != [] {
      RunLocked(batches, moves[..|moves| - 1]);
      StepLocked(batches, Run(batches, Init(), moves[..|moves| - 1]), moves[|moves| - 1]);
    }
  }

  /** In every run no two jobs are inside `safeSend` at the same time: the bytes of two answers are
      never mixed, and nobody writes without the lock. */
  lemma SendsExclusive(batches: seq<nat>, moves: seq<nat>, t: nat, u: nat)
    requires t < |Run(batches, Init(), moves).threads| && u < |Run(batches, Init(), moves).threads|
    requires Sending(Run(batches, Init(), moves).threads[t])
    ensures Run(batches, Init(), moves).mutex == Some(t)
    ensures Sending(Run(batches, Init(), moves).threads[u]) ==> u == t
  {
    RunLocked(batches, moves);
  }

  // ------------------------------------------------------------------ every connection is finished

  /** The operations a thread has still to perform, with those of the jobs it has to hand out. */
  function Ahead(batches: seq<nat>, pc: Pc): nat {
    match pc
    case Read(b) => 12 * ToCome(batches, pc) + Reads(batches, b) + 8
    case Mark(b) => 12 * ToCome(batches, pc) + Reads(batches, b) + 7
    case Dispatch(b, k) => 12 * ToCome(batches, pc) + Reads(batches, b) + 6
    case Submit(b, k) => 12 * ToCome(batches, pc) + Reads(batches, b) + 5
    case Answer => 10
    case AskAlive => 9
    case Send => 8
    case Unlock => 7
    case Finish => 6
    case AskPeer => 5
    case AskPending => 4
    case CasClosed => 3
    case Kill => 2
    case Close => 1
    case End => 0
  }

  function Reads(batches: seq<nat>, b: nat): nat { if b < |batches| then 3 * (|batches| - b) else 0 }

  function Work(batches: seq<nat>, threads: seq<Pc>): nat {
    if threads == [] then 0
    else Work(batches, threads[..|threads| - 1]) + Ahead(batches, threads[|threads| - 1])
  }

  lemma {:induction false} WorkUpdate(batches: seq<nat>, threads: seq<Pc>, t: nat, pc: Pc)
    requires t < |threads|
    ensures Work(batches, threads[t := pc]) == Work(batches, threads) - Ahead(batches, threads[t]) + Ahead(batches, pc)
    decreases |threads|
  {
    var n := |threads| - 1;
    if t < n {
      assert threads[t := pc][..n] == threads[..n][t := pc];
      WorkUpdate(batches, threads[..n], t, pc);
    } else {
      assert threads[t := pc][..n] == threads[..n];
    }
  }

  lemma WorkAppend(batches: seq<nat>, threads: seq<Pc>, pc: Pc)
    ensures Work(batches, threads + [pc]) == Work(batches, threads) + Ahead(batches, pc)
  {
    assert (threads + [pc])[..|threads|] == threads;
  }

  /** The thread is not done and does not wait for the lock. */
  predicate CanMove(s: State, t: nat) {
    t < |s.threads| && !s.threads[t].End? && !(s.threads[t].Answer? && s.mutex.Some?)
  }

  lemma AheadShrinks(batches: seq<nat>, s: State, t: nat)
    requires Inv(batches, s) && CanMove(s, t)
    ensures
      var pc, next := s.threads[t], NextPc(batches, s, t);
      Ahead(batches, next) + (if pc.Submit? then 10 else 0) < Ahead(batches, pc)
  {
    if t == 0 { LoopStep(batches, s); }
  }

  /** Every operation brings the connection nearer to its end. */
  lemma StepWorks(batches: seq<nat>, s: State, t: nat)
    requires Inv(batches, s) && CanMove(s, t)
    ensures Work(batches, Step(batches, s, t).threads) < Work(batches, s.threads)
  {
    var next := NextPc(batches, s, t);
    AheadShrinks(batches, s, t);
    WorkUpdate(batches, s.threads, t, next);
    if s.threads[t].Submit? {
      WorkAppend(batches, s.threads[t := next], Answer);
    } else {
      assert s.threads[t := next] + [] == s.threads[t := next];
    }
  }

  ghost predicate AllDone(s: State) { forall t :: 0 <= t < |s.threads| ==> s.threads[t].End? }

  /** As long as something is to be done, somebody can do it: the lock blocks nobody for ever. */
  lemma SomebodyCanMove(s: State) returns (t: nat)
    requires Locked(s) && !AllDone(s)
    ensures CanMove(s, t)
  {
    t :| 0 <= t < |s.threads| && !s.threads[t].End?;
    if !CanMove(s, t) { t := s.mutex.value; }
  }

  lemma {:induction false} FinishFrom(batches: seq<nat>, moves: seq<nat>) returns (more: seq<nat>)
    requires |batches| > 0
    ensures moves <= more && AllDone(Run(batches, Init(), more))
    decreases Work(batches, Run(batches, Init(), moves).threads)
  {
    var s := Run(batches, Init(), moves);
    more := moves;
    if !AllDone(s) {
      RunInv(batches, moves);
      RunLocked(batches, moves);
      var t := SomebodyCanMove(s);
      StepWorks(batches, s, t);
      more := moves + [t];
      assert more[..|moves|] == moves;
      more := FinishFrom(batches, more);
    }
  }

  /** Every run of every connection can go on until all messages are answered for and the descriptor
      is closed, exactly once. */
  lemma AlwaysCloses(batches: seq<nat>, moves: seq<nat>) returns (more: seq<nat>)
    requires |batches| > 0
    ensures moves <= more
    ensures
      var z := Run(batches, Init(), more);
      z.closes == 1 && z.pending == 0 && z.answered + z.lost + z.late == Sum(batches, 0)
  {
    more := FinishFrom(batches, moves);
    ClosedExactlyOnce(batches, more);
  }

  /** The moves of a run that are not waiting. */
  function Moved(batches: seq<nat>, moves: seq<nat>): nat
    decreases |moves|
  {
    if moves == [] then 0
    else
      var n := |moves| - 1;
      Moved(batches, moves[..n]) + if CanMove(Run(batches, Init(), moves[..n]), moves[n]) then 1 else 0
  }

  /** And it takes a bounded number of operations, whatever the schedule. */
  lemma {:induction false} BoundedWork(batches: seq<nat>, moves: seq<nat>)
    requires |batches| > 0
    ensures Moved(batches, moves) + Work(batches, Run(batches, Init(), moves).threads)
         <= 12 * Sum(batches, 0) + 3 * |batches| + 8
    decreases |moves|
  {
    if moves == [] {
      StartWork(batches);
    } else {
      var n := |moves| - 1;
      BoundedWork(batches, moves[..n]);
      RunInv(batches, moves[..n]);
      StepCounts(batches, Run(batches, Init(), moves[..n]), moves[n]);
    }
  }

  lemma StartWork(batches: seq<nat>)
    requires |batches| > 0
    ensures Work(batches, Init().threads) == 12 * Sum(batches, 0) + 3 * |batches| + 8
  {
    assert [Read(0)][..0] == [];
  }

  lemma StepCounts(batches: seq<nat>, s: State, t: nat)
    requires Inv(batches, s)
    ensures Work(batches, Step(batches, s, t).threads) + (if CanMove(s, t) then 1 else 0) <= Work(batches, s.threads)
  {
    if CanMove(s, t) {
      StepWorks(batches, s, t);
    } else if t < |s.threads| {
      assert s.threads[t := s.threads[t]] + [] == s.threads;
    }
  }
}
