/** Closing a connection (`Connection` in include/EventLoop.hpp): the event loop dispatches one
    job per message, workers answer, and whoever finds the peer gone and no job pending closes
    the descriptor. One atomic operation per step; the pool runs the jobs in any interleaving.

    `batches` are the numbers of complete messages found at each readable event; the last event
    is the one that finds the peer closed. `answered`, `lost`, `late` and `early` are history
    variables: answers written in time, answers given up because the connection was dead, answers
    written to a descriptor that was already closed, and whether a decision to close came too early. */
module Connection {
  import opened Options
  import opened Counting

  /** The next operation of a thread. Thread 0 is the event loop, the others are jobs. */
  datatype Pc =
    | Read(b: nat)                 // readable event b
    | Mark(b: nat)                 // peerClosed = true
    | Dispatch(b: nat, k: nat)     // k messages left: pendingJobs += 1
    | Submit(b: nat, k: nat)       // hand the job to the pool
    | Answer                       // a job before its safeSend: lock writeMutex
    | AskAlive                     // load alive
    | Send                         // write to the descriptor
    | Unlock                       // unlock writeMutex
    | Finish                       // pendingJobs -= 1
    | AskPeer                      // tryFinalize: load peerClosed
    | AskPending                   // load pendingJobs
    | CasClosed                    // CAS fdClosed
    | Kill                         // alive = false
    | Close                        // close(fd)
    | End

  datatype State = State(
    pending: int, peerClosed: bool, fdClosed: bool, alive: bool, closes: nat, mutex: Option<nat>,
    threads: seq<Pc>, answered: nat, lost: nat, late: nat, early: bool)

  function Init(): State {
    State(0, false, false, true, 0, None, [Read(0)], 0, 0, 0, false)
  }

  /** Where thread `t` goes next. */
  function NextPc(batches: seq<nat>, s: State, t: nat): Pc
    requires t < |s.threads|
  {
    var pc := s.threads[t];
    match pc
    case Read(b) =>
      if b + 1 < |batches| then Dispatch(b, batches[b])
      else if b < |batches| then Mark(b)
      else End
    case Mark(b) => if b < |batches| then Dispatch(b, batches[b]) else End
    case Dispatch(b, k) => if k > 0 then Submit(b, k) else if b + 1 < |batches| then Read(b + 1) else AskPeer
    case Submit(b, k) => if k > 0 then Dispatch(b, k - 1) else End
    case Answer => if s.mutex.None? then AskAlive else pc
    case AskAlive => if s.alive then Send else Unlock
    case Send => Unlock
    case Unlock => Finish
    case Finish => AskPeer
    case AskPeer => if s.peerClosed then AskPending else End
    case AskPending => if s.pending == 0 then CasClosed else End
    case CasClosed => if s.fdClosed then End else Kill
    case Kill => Close
    case Close => End
    case End => End
  }

  /** The last batch still has messages to dispatch. */
  predicate MoreToCome(pc: Pc) { pc.Dispatch? && pc.k > 0 }

  function Step(batches: seq<nat>, s: State, t: nat): (z: State)
    ensures |s.threads| <= |z.threads|
  {
    if t >= |s.threads| then s
    else
      var pc, next := s.threads[t], NextPc(batches, s, t);
      State(s.pending + (if MoreToCome(pc) then 1 else if pc.Finish? then -1 else 0),
            s.peerClosed || pc.Mark?,
            s.fdClosed || pc.CasClosed?,
            s.alive && !pc.Kill?,
            s.closes + (if pc.Close? then 1 else 0),
            if pc.Answer? && s.mutex.None? then Some(t) else if pc.Unlock? then None else s.mutex,
            s.threads[t := next] + (if pc.Submit? then [Answer] else []),
            s.answered + (if pc.Send? && s.closes == 0 then 1 else 0),
            s.lost + (if pc.AskAlive? && !s.alive then 1 else 0),
            s.late + (if pc.Send? && s.closes > 0 then 1 else 0),
            s.early || (pc.AskPending? && s.pending == 0 && MoreToCome(s.threads[0])))
  }

  function Run(batches: seq<nat>, s: State, moves: seq<nat>): (z: State)
    ensures |s.threads| <= |z.threads|
    decreases |moves|
  {
    if moves == [] then s else Step(batches, Run(batches, s, moves[..|moves| - 1]), moves[|moves| - 1])
  }

  // ------------------------------------------------------------------ invariant

  /** A job that has not given up its count in `pendingJobs`. */
  predicate Owing(pc: Pc) { pc.Answer? || pc.AskAlive? || pc.Send? || pc.Unlock? || pc.Finish? }

  /** Holding one count of `pendingJobs`. */
  predicate Counted(pc: Pc) { Owing(pc) || pc.Submit? }

  predicate LoopPc(pc: Pc) { pc.Read? || pc.Mark? || pc.Dispatch? || pc.Submit? }

  /** Has won the right to close and not yet closed. */
  predicate Closing(pc: Pc) { pc.Kill? || pc.Close? }

  predicate Checking(pc: Pc) { pc.AskPeer? || pc.AskPending? || pc.CasClosed? }

  predicate Unanswered(pc: Pc) { pc.Answer? || pc.AskAlive? || pc.Send? }

  /** The messages from batch `b` on. */
  function Sum(batches: seq<nat>, b: nat): nat
    decreases |batches| - b
  {
    if b < |batches| then batches[b] + Sum(batches, b + 1) else 0
  }

  /** The messages the loop has still to submit. */
  function ToCome(batches: seq<nat>, pc: Pc): nat {
    match pc
    case Read(b) => Sum(batches, b)
    case Mark(b) => Sum(batches, b)
    case Dispatch(b, k) => k + Sum(batches, b + 1)
    case Submit(b, k) => k + Sum(batches, b + 1)
    case _ => 0
  }

  ghost predicate LoopOk(batches: seq<nat>, s: State)
    requires |s.threads| > 0
  {
    match s.threads[0]
    case Read(b) => b < |batches| && !s.peerClosed
    case Mark(b) => b + 1 == |batches| && !s.peerClosed
    case Dispatch(b, k) => b < |batches| && k <= batches[b] && (s.peerClosed <==> b + 1 == |batches|)
    case Submit(b, k) => b < |batches| && 0 < k <= batches[b] && (s.peerClosed <==> b + 1 == |batches|)
    case _ => s.peerClosed && !Owing(s.threads[0])
  }

  /** Has seen that the peer closed, or has closed. */
  predicate Past(pc: Pc) { pc.AskPending? || pc.CasClosed? || pc.Kill? || pc.Close? }

  ghost predicate Basic(batches: seq<nat>, s: State) {
    && |batches| > 0 && |s.threads| > 0
    && LoopOk(batches, s)
    && (s.fdClosed ==> s.peerClosed)
    && (forall t :: 0 <= t < |s.threads| ==> Past(s.threads[t]) ==> s.peerClosed)
    && (forall t :: 0 < t < |s.threads| ==> !LoopPc(s.threads[t]))
    && s.pending == Count(s.threads, Counted)
    && s.closes + Count(s.threads, Closing) == B(s.fdClosed)
    && (s.alive <==> s.closes == 0 && forall t :: 0 <= t < |s.threads| ==> !s.threads[t].Close?)
    && |s.threads| - 1 + ToCome(batches, s.threads[0]) == Sum(batches, 0)
    && s.answered + s.lost + s.late + Count(s.threads, Unanswered) == |s.threads| - 1
  }

  /** Somebody will still look whether to close. */
  ghost predicate Watched(s: State)
    requires |s.threads| > 0
  {
    || s.fdClosed || LoopPc(s.threads[0])
    || exists t :: 0 <= t < |s.threads| && (Owing(s.threads[t]) || Checking(s.threads[t]))
  }

  /** The loop is past its last dispatch and every job past its answer. */
  ghost predicate AllAnswered(s: State)
    requires |s.threads| > 0
  {
    && !s.threads[0].Read? && !s.threads[0].Mark? && !s.threads[0].Submit? && !MoreToCome(s.threads[0])
    && forall t :: 0 <= t < |s.threads| ==> !Owing(s.threads[t])
  }

  /** Somebody has found no pending job after the peer closed. */
  ghost predicate Decided(s: State) {
    s.fdClosed || exists t :: 0 <= t < |s.threads| && s.threads[t].CasClosed?
  }

  /** Unless it happened too early, a decision to close comes after all answers. */
  ghost predicate Orderly(s: State)
    requires |s.threads| > 0
  {
    !s.early ==> s.lost == 0 && s.late == 0 && (Decided(s) ==> AllAnswered(s))
  }

  ghost predicate Inv(batches: seq<nat>, s: State) {
    Basic(batches, s) && Watched(s) && Orderly(s)
  }

  // ------------------------------------------------------------------ preservation

  lemma StepCount(batches: seq<nat>, s: State, t: nat, f: Pc -> bool)
    requires t < |s.threads|
    ensures Count(Step(batches, s, t).threads, f)
         == Count(s.threads, f) - B(f(s.threads[t])) + B(f(NextPc(batches, s, t)))
            + (if s.threads[t].Submit? then B(f(Answer)) else 0)
  {
    var next := NextPc(batches, s, t);
    CountUpdate(s.threads, t, next, f);
    if s.threads[t].Submit? {
      CountAppend(s.threads[t := next], Answer, f);
    } else {
      assert s.threads[t := next] + [] == s.threads[t := next];
    }
  }

  lemma StepThreads(batches: seq<nat>, s: State, t: nat)
    requires t < |s.threads|
    ensures
      var z := Step(batches, s, t);
      && |z.threads| == |s.threads| + B(s.threads[t].Submit?)
      && z.threads[t] == NextPc(batches, s, t)
      && (forall u :: 0 <= u < |s.threads| && u != t ==> z.threads[u] == s.threads[u])
      && (s.threads[t].Submit? ==> z.threads[|s.threads|] == Answer)
  {}

  lemma LoopStep(batches: seq<nat>, s: State)
    requires Basic(batches, s)
    ensures LoopOk(batches, Step(batches, s, 0))
    ensures ToCome(batches, NextPc(batches, s, 0)) == ToCome(batches, s.threads[0]) - B(s.threads[0].Submit?)
  {
    StepThreads(batches, s, 0);
  }

  lemma StepLoop(batches: seq<nat>, s: State, t: nat)
    requires Basic(batches, s) && t < |s.threads|
    ensures LoopOk(batches, Step(batches, s, t))
    ensures forall u :: 0 < u < |Step(batches, s, t).threads| ==> !LoopPc(Step(batches, s, t).threads[u])
    ensures |Step(batches, s, t).threads| - 1 + ToCome(batches, Step(batches, s, t).threads[0]) == Sum(batches, 0)
  {
    StepThreads(batches, s, t);
    if t == 0 { LoopStep(batches, s); }
  }

  /** How a step of thread `t` changes its share of each count. */
  lemma NextCounted(batches: seq<nat>, s: State, t: nat)
    requires Basic(batches, s) && t < |s.threads|
    ensures
      var pc, next, z := s.threads[t], NextPc(batches, s, t), Step(batches, s, t);
      && z.pending - s.pending == B(Counted(next)) - B(Counted(pc)) + B(pc.Submit?)
      && z.answered + z.lost + z.late - s.answered - s.lost - s.late == B(Unanswered(pc)) - B(Unanswered(next))
      && B(z.fdClosed) - B(s.fdClosed) == z.closes - s.closes + B(Closing(next)) - B(Closing(pc))
      && (next.Close? <==> pc.Kill?)
  {}

  lemma StepPending(batches: seq<nat>, s: State, t: nat)
    requires Basic(batches, s) && t < |s.threads|
    ensures
      var z := Step(batches, s, t);
      && z.pending == Count(z.threads, Counted)
      && z.answered + z.lost + z.late + Count(z.threads, Unanswered) == |z.threads| - 1
      && z.closes + Count(z.threads, Closing) == B(z.fdClosed)
  {
    NextCounted(batches, s, t);
    StepThreads(batches, s, t);
    StepCount(batches, s, t, Counted);
    StepCount(batches, s, t, Unanswered);
    StepCount(batches, s, t, Closing);
  }

  lemma StepClosing(batches: seq<nat>, s: State, t: nat)
    requires Basic(batches, s) && t < |s.threads|
    ensures
      var z := Step(batches, s, t);
      z.alive <==> z.closes == 0 && forall u :: 0 <= u < |z.threads| ==> !z.threads[u].Close?
  {
    var z := Step(batches, s, t);
    StepThreads(batches, s, t);
    NextCounted(batches, s, t);
    StepPending(batches, s, t);
    if s.threads[t].Close? {
      CountPositive(s.threads, Closing);
      assert Closing(s.threads[t]);
    }
  }

  lemma StepBasic(batches: seq<nat>, s: State, t: nat)
    requires Basic(batches, s) && t < |s.threads|
    ensures Basic(batches, Step(batches, s, t))
  {
    var z := Step(batches, s, t);
    StepLoop(batches, s, t);
    StepPending(batches, s, t);
    StepClosing(batches, s, t);
    StepPast(batches, s, t);
  }

  lemma StepPast(batches: seq<nat>, s: State, t: nat)
    requires Basic(batches, s) && t < |s.threads|
    ensures
      var z := Step(batches, s, t);
      (z.fdClosed ==> z.peerClosed) && forall u :: 0 <= u < |z.threads| ==> Past(z.threads[u]) ==> z.peerClosed
  {
    var z := Step(batches, s, t);
    StepThreads(batches, s, t);
    assert Past(s.threads[t]) ==> s.peerClosed;
    forall u | 0 <= u < |z.threads| ensures Past(z.threads[u]) ==> z.peerClosed {
      if u < |s.threads| && u != t { assert Past(s.threads[u]) ==> s.peerClosed; }
    }
  }

  /** If only thread `t` watches and nobody has closed, it goes on watching. */
  lemma LastWatcher(batches: seq<nat>, s: State, t: nat)
    requires Basic(batches, s) && Watched(s) && t < |s.threads|
    requires forall u :: 0 <= u < |s.threads| && u != t ==> !Owing(s.threads[u]) && !Checking(s.threads[u])
    ensures
      var z, next := Step(batches, s, t), NextPc(batches, s, t);
      z.fdClosed || LoopPc(z.threads[0]) || Owing(next) || Checking(next)
  {
    StepThreads(batches, s, t);
    CountPositive(s.threads, Counted);
    DecidedPeer(batches, s);
  }

  lemma StepWatched(batches: seq<nat>, s: State, t: nat)
    requires Basic(batches, s) && Watched(s) && t < |s.threads|
    ensures Watched(Step(batches, s, t))
  {
    var z := Step(batches, s, t);
    StepThreads(batches, s, t);
    if w :| 0 <= w < |s.threads| && w != t && (Owing(s.threads[w]) || Checking(s.threads[w])) {
      assert z.threads[w] == s.threads[w];
    } else {
      LastWatcher(batches, s, t);
    }
  }

  lemma NothingPending(batches: seq<nat>, s: State, t: nat)
    requires Basic(batches, s) && t < |s.threads| && s.threads[t].AskPending? && s.pending == 0
    requires !MoreToCome(s.threads[0])
    ensures AllAnswered(s)
  {
    CountPositive(s.threads, Counted);
    forall u | 0 <= u < |s.threads| ensures !Owing(s.threads[u]) { assert !Counted(s.threads[u]); }
    assert Past(s.threads[t]);
  }

  lemma AllAnsweredStable(batches: seq<nat>, s: State, t: nat)
    requires Basic(batches, s) && t < |s.threads| && AllAnswered(s) && s.peerClosed
    ensures AllAnswered(Step(batches, s, t))
  {
    StepThreads(batches, s, t);
  }

  lemma StepOrderly(batches: seq<nat>, s: State, t: nat)
    requires Basic(batches, s) && Orderly(s) && t < |s.threads|
    ensures Orderly(Step(batches, s, t))
  {
    var z := Step(batches, s, t);
    StepThreads(batches, s, t);
    if !z.early {
      if s.threads[t].AskPending? && s.pending == 0 { NothingPending(batches, s, t); }
      DecidedPeer(batches, s);
      if AllAnswered(s) && s.peerClosed { AllAnsweredStable(batches, s, t); }
      assert Decided(s) || (s.threads[t].AskPending? && s.pending == 0) ==> AllAnswered(s) && s.peerClosed;
      if Decided(z) && !z.fdClosed {
        var u :| 0 <= u < |z.threads| && z.threads[u].CasClosed?;
        if u != t { assert s.threads[u].CasClosed?; }
      }
      if s.threads[t].CasClosed? { assert Decided(s); }
    }
  }

  lemma DecidedPeer(batches: seq<nat>, s: State)
    requires Basic(batches, s)
    ensures (Decided(s) || exists t :: 0 <= t < |s.threads| && s.threads[t].AskPending?) ==> s.peerClosed
    ensures !s.alive || s.closes > 0 ==> s.fdClosed
  {
    CountPositive(s.threads, Closing);
    if t :| 0 <= t < |s.threads| && s.threads[t].Close? { assert Closing(s.threads[t]); }
  }

  lemma StepInv(batches: seq<nat>, s: State, t: nat)
    requires Inv(batches, s)
    ensures Inv(batches, Step(batches, s, t))
  {
    if t < |s.threads| {
      StepBasic(batches, s, t);
      StepWatched(batches, s, t);
      StepOrderly(batches, s, t);
    }
  }

  lemma {:induction false} RunInv(batches: seq<nat>, moves: seq<nat>)
    requires |batches| > 0
    ensures Inv(batches, Run(batches, Init(), moves))
    decreases |moves|
  {
    if moves != [] {
      RunInv(batches, moves[..|moves| - 1]);
      StepInv(batches, Run(batches, Init(), moves[..|moves| - 1]), moves[|moves| - 1]);
    }
  }
}
