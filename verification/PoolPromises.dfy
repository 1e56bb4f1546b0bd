/** What clients and the machine may rely on in every run of the pool: a job is refused only because
    of a shutdown, the number of spinning workers is limited, a push pays for a wake-up only if it must,
    and one call performs the shutdown. */
module PoolPromises {
  import opened Options
  import opened Ring
  import opened Counting
  import opened TaskQueue
  import opened QueueBase
  import PT = PoolTheorems

  // ------------------------------------------------------------------ refusals

  ghost predicate Honest(s: Pool) {
    && (forall t :: 0 <= t < |s.thr| && s.thr[t].Abort? ==> s.shutdown)
    && (forall j :: 0 <= j < |s.status| && s.status[j].Refused? ==> s.shutdown)
  }

  lemma NextAbort(s: Pool, m: Move)
    requires Ready(s) && m.t < |s.thr|
    ensures NextPc(s, m).Abort? ==> s.shutdown
  {}

  lemma ActHonest(s: Pool, m: Move, next: Pc)
    requires Ready(s) && m.t < |s.thr| && Honest(s) && (next.Abort? ==> s.shutdown)
    ensures Honest(Act(s, m, next))
  {
    ActThreads(s, m, next);
  }

  lemma RingHonest(s: Pool, t: nat, spurious: bool)
    requires Ready(s) && t < |s.thr| && Honest(s)
    ensures Honest(RingMove(s, t, spurious))
  {
    assert RingMove(s, t, spurious).thr == s.thr;
  }

  lemma AdvanceHonest(s: Pool, m: Move)
    requires Ready(s) && Honest(s)
    ensures Honest(Advance(s, m))
  {
    if m.t < |s.thr| {
      NextAbort(s, m);
      ActHonest(s, m, NextPc(s, m));
      RingHonest(s, m.t, m.flip);
    }
  }

  lemma {:induction false} RunHonest(s: Pool, moves: seq<Move>)
    requires Ready(s) && Honest(s)
    ensures Honest(RunAll(s, moves))
    decreases |moves|
  {
    if moves != [] {
      RunHonest(s, moves[..|moves| - 1]);
      AdvanceHonest(RunAll(s, moves[..|moves| - 1]), moves[|moves| - 1]);
    }
  }

  /** In every reachable state: a push gives up, and a submission is refused, only after a shutdown
      has begun. A full ring alone refuses nothing. */
  lemma RefusedOnlyByShutdown(s: Pool)
    requires PT.Reachable(s)
    ensures forall t :: 0 <= t < |s.thr| && s.thr[t].Abort? ==> s.shutdown
    ensures forall j :: 0 <= j < |s.status| && s.status[j].Refused? ==> s.shutdown
  {
    var n, workers, clients, maxSpinners, moves :| PT.IsRun(n, workers, clients, maxSpinners, moves, s);
    RunHonest(Start(n, workers, clients, maxSpinners), moves);
  }

  // ------------------------------------------------------------------ spinning workers

  predicate InSpinLoop(pc: Pc) { pc.Spin? }

  lemma {:induction false} FewerThan(thr: seq<Pc>)
    ensures Count(thr, InSpinLoop) <= Count(thr, Spinning)
  {
    if thr != [] { FewerThan(thr[..|thr| - 1]); }
  }

  lemma NextSpin(s: Pool, m: Move)
    requires Ready(s) && m.t < |s.thr|
    ensures NextPc(s, m).Spin? ==> s.thr[m.t].Spin? || s.spinners < s.maxSpinners
  {}

  lemma ActSpin(s: Pool, m: Move, next: Pc)
    requires Ready(s) && m.t < |s.thr| && Counters(s) && Count(s.thr, InSpinLoop) <= s.maxSpinners
    requires next.Spin? ==> s.thr[m.t].Spin? || s.spinners < s.maxSpinners
    ensures Count(Act(s, m, next).thr, InSpinLoop) <= s.maxSpinners == Act(s, m, next).maxSpinners
  {
    FewerThan(s.thr);
    ActCount(s, m, next, InSpinLoop);
  }

  lemma AdvanceSpin(s: Pool, m: Move)
    requires Base(s) && Counters(s) && Count(s.thr, InSpinLoop) <= s.maxSpinners
    ensures Count(Advance(s, m).thr, InSpinLoop) <= s.maxSpinners == Advance(s, m).maxSpinners
  {
    AdvanceCases(s, m);
    if Acts(s, m) {
      NextSpin(s, m);
      ActSpin(s, m, NextPc(s, m));
    } else if Rings(s, m) {
      RingSpin(s, m.t, m.flip);
    }
  }

  lemma RingSpin(s: Pool, t: nat, spurious: bool)
    requires Ready(s) && t < |s.thr|
    ensures RingMove(s, t, spurious).thr == s.thr && RingMove(s, t, spurious).maxSpinners == s.maxSpinners
  {}

  lemma {:induction false} RunSpin(s: Pool, moves: seq<Move>)
    requires PT.Inv(s) && Count(s.thr, InSpinLoop) <= s.maxSpinners
    ensures Count(RunAll(s, moves).thr, InSpinLoop) <= RunAll(s, moves).maxSpinners == s.maxSpinners
    decreases |moves|
  {
    if moves != [] {
      RunSpin(s, moves[..|moves| - 1]);
      PT.RunInv(s, moves[..|moves| - 1]);
      AdvanceSpin(RunAll(s, moves[..|moves| - 1]), moves[|moves| - 1]);
    }
  }

  /** At most maxSpinners workers are ever in the spin loop at once. */
  lemma SpinnersLimited(n: nat, workers: nat, clients: nat, maxSpinners: nat, moves: seq<Move>)
    requires n >= 2 && workers >= 1
    ensures Count(RunAll(Start(n, workers, clients, maxSpinners), moves).thr, InSpinLoop) <= maxSpinners
  {
    var s := Start(n, workers, clients, maxSpinners);
    PT.StartInv(n, workers, clients, maxSpinners);
    NobodyCounts(s.thr, InSpinLoop);
    RunSpin(s, moves);
  }

  // ------------------------------------------------------------------ the price of a push

  lemma NextWake(s: Pool, m: Move)
    requires Ready(s) && m.t < |s.thr|
    ensures s.thr[m.t].AskSleepers? ==>
              var next := Advance(s, m).thr[m.t];
              (next.AskSpinners? <==> s.sleepers > 0) && (next.Accept? <==> s.sleepers <= 0)
    ensures s.thr[m.t].AskSpinners? ==>
              var next := Advance(s, m).thr[m.t];
              (next.WakeLock? <==> s.spinners == 0) && (next.Accept? <==> s.spinners != 0)
  {}

  /** A push that has placed its job goes on to look for spinners exactly when some worker is asleep or
      about to be, and takes the lock exactly when then no worker is counted as spinning. */
  lemma WakesOnlyIfNeeded(s: Pool, m: Move)
    requires PT.Reachable(s) && m.t < |s.thr|
    ensures Ready(s)
    ensures s.thr[m.t].AskSleepers? ==>
              var next := Advance(s, m).thr[m.t];
              && (next.AskSpinners? <==> exists w :: 0 <= w < |s.thr| && Sleeping(s.thr[w]))
              && (next.Accept? <==> !next.AskSpinners?)
    ensures s.thr[m.t].AskSpinners? ==>
              var next := Advance(s, m).thr[m.t];
              && (next.WakeLock? <==> !exists w :: 0 <= w < |s.thr| && Spinning(s.thr[w]))
              && (next.Accept? <==> !next.WakeLock?)
  {
    PT.ReachableInv(s);
    CountPositive(s.thr, Sleeping);
    CountPositive(s.thr, Spinning);
    NextWake(s, m);
  }

  // ------------------------------------------------------------------ one shutdown

  /** Past the compare-and-swap of `ThreadPool::shutdown`. */
  predicate Closer(pc: Pc) { pc.CloseStore? || pc.CloseLock? || pc.CloseUnlock? || pc.CloseNotify? || pc.CloseJoin? }

  ghost predicate OneCloser(s: Pool) {
    && (forall t :: 0 <= t < |s.thr| && Closer(s.thr[t]) ==> s.shuttingDown)
    && (forall t, u :: 0 <= t < |s.thr| && 0 <= u < |s.thr| && Closer(s.thr[t]) && Closer(s.thr[u]) ==> t == u)
  }

  lemma NextCloser(s: Pool, m: Move)
    requires Ready(s) && m.t < |s.thr|
    ensures Closer(NextPc(s, m)) ==> Closer(s.thr[m.t]) || (s.thr[m.t].CloseCas? && !s.shuttingDown)
  {}

  lemma ActCloser(s: Pool, m: Move, next: Pc)
    requires Ready(s) && m.t < |s.thr| && OneCloser(s)
    requires Closer(next) ==> Closer(s.thr[m.t]) || (s.thr[m.t].CloseCas? && !s.shuttingDown)
    ensures OneCloser(Act(s, m, next))
  {
    ActThreads(s, m, next);
  }

  lemma RingCloser(s: Pool, t: nat, spurious: bool)
    requires Ready(s) && t < |s.thr| && OneCloser(s)
    ensures OneCloser(RingMove(s, t, spurious))
  {
    assert RingMove(s, t, spurious).thr == s.thr;
  }

  lemma AdvanceCloser(s: Pool, m: Move)
    requires Ready(s) && OneCloser(s)
    ensures OneCloser(Advance(s, m))
  {
    if m.t < |s.thr| {
      NextCloser(s, m);
      ActCloser(s, m, NextPc(s, m));
      RingCloser(s, m.t, m.flip);
    }
  }

  lemma {:induction false} RunCloser(s: Pool, moves: seq<Move>)
    requires Ready(s) && OneCloser(s)
    ensures OneCloser(RunAll(s, moves))
    decreases |moves|
  {
    if moves != [] {
      RunCloser(s, moves[..|moves| - 1]);
      AdvanceCloser(RunAll(s, moves[..|moves| - 1]), moves[|moves| - 1]);
    }
  }

  /** However many threads call `shutdown`, at most one of them closes the queue and joins the workers;
      the others return at once. */
  lemma ShutdownOnce(s: Pool, t: nat, u: nat)
    requires PT.Reachable(s) && t < |s.thr| && u < |s.thr| && Closer(s.thr[t]) && Closer(s.thr[u])
    ensures t == u && s.shuttingDown
  {
    var n, workers, clients, maxSpinners, moves :| PT.IsRun(n, workers, clients, maxSpinners, moves, s);
    RunCloser(Start(n, workers, clients, maxSpinners), moves);
  }
}
