/**
 * The webhook protocol with one worker that may crash between any two writes: what the rows of one
 * (event, endpoint) pair look like.
 */
module WebhooksSolo {
  import opened Basics
  import opened Webhooks

  /** Only the newest row of a chain can still be open or have succeeded. */
  ghost predicate ChainShape(rows: Rows) {
    forall k :: k in rows && Next(k) in rows ==> rows[k] == FAILED || rows[k] == ABANDONED
  }

  predicate Terminal(status: Status) {
    status == DELIVERED || status == EXHAUSTED || status == ABANDONED
  }

  ghost predicate Holds(rows: Rows, k: Key, status: Status) {
    k in rows && rows[k] == status
  }

  ghost predicate ResumeOk(rows: Rows, k: Key, resume: Resume) {
    resume.ToRecover? ==> AllStatus(rows, resume.stale, IN_FLIGHT) && Distinct(resume.stale) && k !in resume.stale
  }

  /** A failing attempt's row is in flight, or already delivered when it was the reset that was rejected. */
  ghost predicate Closing(rows: Rows, k: Key, resume: Resume) {
    && (Holds(rows, k, IN_FLIGHT) || (resume.ToDue? && Holds(rows, k, DELIVERED)))
    && ResumeOk(rows, k, resume)
  }

  /** Nobody else writes, so what the worker read is still so. */
  ghost predicate SoloPc(rows: Rows, pc: Pc) {
    match pc
    case Recovering(stale) => AllStatus(rows, stale, IN_FLIGHT) && Distinct(stale)
    case Promoting(failed) => AllStatus(rows, failed, FAILED) && Distinct(failed)
    case PromoteRead(k, _, failed) =>
      Holds(rows, k, FAILED) && AllStatus(rows, failed, FAILED) && Distinct(failed) && k !in failed
    case Giving(k, _) => Holds(rows, k, PENDING)
    case Checked(k, _) => Holds(rows, k, PENDING)
    case Claimed(k, _) => Holds(rows, k, IN_FLIGHT)
    case Answered(k, _) => Holds(rows, k, IN_FLIGHT)
    case Resetting(k, _) => Holds(rows, k, DELIVERED)
    case FailCount(k, resume) => Closing(rows, k, resume)
    case FailDisable(k, resume) => Closing(rows, k, resume)
    case FailSweep(k, resume) => Closing(rows, k, resume)
    case FailWrite(k, status, resume) => Closing(rows, k, resume) && status != IN_FLIGHT && status != DELIVERED
    case _ => true
  }

  ghost predicate Solo(s: State, w: nat) {
    s.workers.Keys == {w}
  }

  ghost predicate SoloInv(c: Config, s: State, w: nat) {
    Solo(s, w) && RowsOk(c, s.rows) && ChainShape(s.rows) && SoloPc(s.rows, s.workers[w])
  }

  /** Rows that are finished stay as they are. */
  ghost predicate TerminalStays(before: Rows, after: Rows) {
    forall k :: k in before && Terminal(before[k]) ==> k in after && after[k] == before[k]
  }

  lemma InsertFirst(c: Config, rows: Rows, k: Key)
    requires RowsOk(c, rows) && ChainShape(rows) && k.attempt == 1
    ensures ChainShape(Upsert(rows, k)) && TerminalStays(rows, Upsert(rows, k))
  {
    assert Previous(Next(k)) == k;
    forall j | j in Upsert(rows, k) && Next(j) in Upsert(rows, k)
      ensures Upsert(rows, k)[j] == FAILED || Upsert(rows, k)[j] == ABANDONED
    {
      assert Next(j) == k ==> j.attempt == 0;
    }
  }

  lemma InsertNext(c: Config, rows: Rows, k: Key)
    requires RowsOk(c, rows) && ChainShape(rows) && Holds(rows, k, FAILED)
    ensures ChainShape(Upsert(rows, Next(k))) && TerminalStays(rows, Upsert(rows, Next(k)))
  {
    var n := Next(k);
    assert Previous(Next(n)) == n;
    forall j | j in Upsert(rows, n) && Next(j) in Upsert(rows, n)
      ensures Upsert(rows, n)[j] == FAILED || Upsert(rows, n)[j] == ABANDONED
    {
      if Next(j) == n { assert j == k; }
    }
  }

  /** Rewriting the newest row of a chain, or abandoning a failed one, keeps the shape. */
  lemma Close(rows: Rows, k: Key, status: Status)
    requires ChainShape(rows) && k in rows && rows[k] != ABANDONED
    requires rows[k] == FAILED ==> status == ABANDONED
    ensures ChainShape(SetStatus(rows, k, status))
    ensures status != rows[k] ==> (TerminalStays(rows, SetStatus(rows, k, status)) <==> !Terminal(rows[k]))
  {
  }

  lemma Sweep(rows: Rows, endpoint: nat)
    requires ChainShape(rows)
    ensures ChainShape(AbandonPending(rows, endpoint)) && TerminalStays(rows, AbandonPending(rows, endpoint))
  {
  }

  /** The final write of a failure is about to replace DELIVERED. */
  ghost predicate Overwrites(rows: Rows, pc: Pc) {
    pc.FailWrite? && Holds(rows, pc.k, DELIVERED)
  }

  /** Each move of the worker, as a change of rows and position. */
  ghost predicate Keeps(s: State, s': State, w: nat) {
    && w in s.workers && s'.workers.Keys == s.workers.Keys && w in s'.workers
    && ChainShape(s'.rows) && SoloPc(s'.rows, s'.workers[w])
    && (TerminalStays(s.rows, s'.rows) <==> !Overwrites(s.rows, s.workers[w]))
  }

  lemma ListSurvivesSet(rows: Rows, keys: seq<Key>, status: Status, k: Key, changed: Status)
    requires AllStatus(rows, keys, status) && k !in keys
    ensures AllStatus(SetStatus(rows, k, changed), keys, status)
  {
  }

  lemma ListSurvivesUpsert(rows: Rows, keys: seq<Key>, status: Status, k: Key)
    requires AllStatus(rows, keys, status)
    ensures AllStatus(Upsert(rows, k), keys, status)
  {
  }

  lemma ListSurvivesSweep(rows: Rows, k: Key, resume: Resume, endpoint: nat)
    requires Closing(rows, k, resume)
    ensures Closing(AbandonPending(rows, endpoint), k, resume)
  {
  }

  lemma CountMoves(c: Config, s: State, w: nat, choice: Choice)
    requires SoloInv(c, s, w) && (s.workers[w].FailCount? || s.workers[w].FailDisable? || s.workers[w].Resetting?)
    ensures Keeps(s, Act(c, s, w, s.workers[w], choice), w)
  {
    hide ChainShape, RowsOk, Holds, Closing;
    var s' := Act(c, s, w, s.workers[w], choice);
    assert s'.rows == s.rows;
    if s.workers[w].Resetting? { StillClosing(s.rows, s.workers[w].k, s.workers[w].due); }
  }

  lemma StillClosing(rows: Rows, k: Key, due: seq<Key>)
    requires Holds(rows, k, IN_FLIGHT) || Holds(rows, k, DELIVERED)
    ensures Closing(rows, k, ToDue(due))
  {
  }

  lemma SweepMoves(c: Config, s: State, w: nat, choice: Choice)
    requires SoloInv(c, s, w) && s.workers[w].FailSweep?
    ensures Keeps(s, Act(c, s, w, s.workers[w], choice), w)
  {
    hide ChainShape, RowsOk, Holds, Closing, AbandonPending, TerminalStays;
    var pc := s.workers[w];
    Sweep(s.rows, pc.k.endpoint);
    ListSurvivesSweep(s.rows, pc.k, pc.resume, pc.k.endpoint);
  }

  lemma FinalMoves(c: Config, s: State, w: nat, choice: Choice)
    requires SoloInv(c, s, w) && s.workers[w].FailWrite?
    ensures Keeps(s, Act(c, s, w, s.workers[w], choice), w)
  {
    hide ChainShape, RowsOk, TerminalStays, AllStatus, SetStatus, Distinct;
    var pc := s.workers[w];
    Close(s.rows, pc.k, pc.status);
    if pc.resume.ToRecover? { ListSurvivesSet(s.rows, pc.resume.stale, IN_FLIGHT, pc.k, pc.status); }
  }

  lemma SendMoves(c: Config, s: State, w: nat, choice: Choice)
    requires SoloInv(c, s, w) && (s.workers[w].Sending? || s.workers[w].Claimed?)
    ensures Keeps(s, Act(c, s, w, s.workers[w], choice), w)
  {
    hide ChainShape, RowsOk;
    assert Act(c, s, w, s.workers[w], choice).rows == s.rows;
  }

  lemma RowMoves(c: Config, s: State, w: nat, choice: Choice)
    requires SoloInv(c, s, w) && (s.workers[w].Giving? || s.workers[w].Checked? || s.workers[w].Answered?)
    ensures Keeps(s, Act(c, s, w, s.workers[w], choice), w)
  {
    hide ChainShape, RowsOk, TerminalStays;
    var pc := s.workers[w];
    var status := if pc.Giving? then ABANDONED else if pc.Checked? then IN_FLIGHT else DELIVERED;
    Close(s.rows, pc.k, status);
    TerminalSame(s.rows);
    if pc.Answered? { StillClosing(s.rows, pc.k, pc.due); }
  }

  lemma TerminalSame(rows: Rows)
    ensures TerminalStays(rows, rows)
  {
  }

  lemma PromoteMoves(c: Config, s: State, w: nat, choice: Choice)
    requires SoloInv(c, s, w) && s.workers[w].PromoteRead?
    ensures Keeps(s, Act(c, s, w, s.workers[w], choice), w)
  {
    hide ChainShape, RowsOk, TerminalStays, AllStatus, SetStatus, Upsert, Distinct;
    var pc := s.workers[w];
    if pc.enabled {
      InsertNext(c, s.rows, pc.k);
      ListSurvivesUpsert(s.rows, pc.failed, FAILED, Next(pc.k));
    } else {
      Close(s.rows, pc.k, ABANDONED);
      ListSurvivesSet(s.rows, pc.failed, FAILED, pc.k, ABANDONED);
    }
  }

  lemma EnqueueMoves(c: Config, s: State, w: nat, choice: Choice)
    requires SoloInv(c, s, w) && PcOk(c, s.rows, s.workers[w]) && s.workers[w].Enqueueing?
    ensures Keeps(s, Act(c, s, w, s.workers[w], choice), w)
  {
    var unfanned := s.workers[w].unfanned;
    if unfanned != [] { InsertFirst(c, s.rows, unfanned[0]); }
    hide ChainShape, RowsOk, AllStatus, Upsert, Distinct;
    assert unfanned == [] ==> Act(c, s, w, s.workers[w], choice).rows == s.rows;
  }

  lemma ListMoves(c: Config, s: State, w: nat, choice: Choice)
    requires SoloInv(c, s, w) && (s.workers[w].Idle? || s.workers[w].Recovering? || s.workers[w].Promoting?)
    ensures Keeps(s, Act(c, s, w, s.workers[w], choice), w)
  {
    hide ChainShape, RowsOk;
    var pc := s.workers[w];
    assert Act(c, s, w, pc, choice).rows == s.rows;
    if pc.Recovering? && pc.stale != [] { Uncons(s.rows, pc.stale, IN_FLIGHT); }
    if pc.Promoting? && pc.failed != [] { Uncons(s.rows, pc.failed, FAILED); }
    hide AllStatus, Distinct;
  }

  lemma Uncons(rows: Rows, keys: seq<Key>, status: Status)
    requires AllStatus(rows, keys, status) && Distinct(keys) && keys != []
    ensures Holds(rows, keys[0], status)
    ensures AllStatus(rows, keys[1..], status) && Distinct(keys[1..]) && keys[0] !in keys[1..]
  {
  }

  /** Every step keeps the chain shape, and finished rows too unless it is the final write of a failure on a DELIVERED row. */
  lemma StepKeepsSolo(c: Config, s: State, w: nat, v: nat, choice: Choice)
    requires SoloInv(c, s, w) && Inv(c, s)
    ensures SoloInv(c, Step(c, s, v, choice), w)
    ensures TerminalStays(s.rows, Step(c, s, v, choice).rows) <==>
            !(v == w && !choice.Crash? && !choice.Toggle? && Overwrites(s.rows, s.workers[w]))
  {
    StepKeepsInv(c, s, v, choice);
    TerminalSame(s.rows);
    hide Act, TerminalStays;
    if v == w && !choice.Crash? && !choice.Toggle? {
      ActKeeps(c, s, w, choice);
    }
  }

  lemma ActKeeps(c: Config, s: State, w: nat, choice: Choice)
    requires SoloInv(c, s, w) && Inv(c, s)
    ensures Keeps(s, Act(c, s, w, s.workers[w], choice), w)
  {
    assert PcOk(c, s.rows, s.workers[w]);
    hide Act, SoloInv, Keeps, Inv;
    match s.workers[w]
    case Idle => ListMoves(c, s, w, choice);
    case Recovering(_) => ListMoves(c, s, w, choice);
    case Promoting(_) => ListMoves(c, s, w, choice);
    case Enqueueing(_) => EnqueueMoves(c, s, w, choice);
    case PromoteRead(_, _, _) => PromoteMoves(c, s, w, choice);
    case Sending(_) => SendMoves(c, s, w, choice);
    case Claimed(_, _) => SendMoves(c, s, w, choice);
    case Giving(_, _) => RowMoves(c, s, w, choice);
    case Checked(_, _) => RowMoves(c, s, w, choice);
    case Answered(_, _) => RowMoves(c, s, w, choice);
    case Resetting(_, _) => CountMoves(c, s, w, choice);
    case FailCount(_, _) => CountMoves(c, s, w, choice);
    case FailDisable(_, _) => CountMoves(c, s, w, choice);
    case FailSweep(_, _) => SweepMoves(c, s, w, choice);
    case FailWrite(_, _, _) => FinalMoves(c, s, w, choice);
  }

  lemma {:induction false} RunKeepsSolo(c: Config, s: State, w: nat, steps: Schedule)
    requires Initial(s) && Solo(s, w)
    ensures SoloInv(c, Run(c, s, steps), w)
    decreases |steps|
  {
    hide Step;
    if steps != [] {
      var last := steps[|steps| - 1];
      var before := steps[..|steps| - 1];
      RunKeepsSolo(c, s, w, before);
      RunKeepsInv(c, s, before);
      StepKeepsSolo(c, Run(c, s, before), w, last.0, last.1);
    }
  }

  /**
   * One worker, crashing anywhere: every row before the last of its chain is FAILED or ABANDONED,
   * so only the last can be PENDING, IN_FLIGHT, DELIVERED or EXHAUSTED.
   */
  lemma OnlyLastIsOpen(c: Config, s: State, w: nat, steps: Schedule, k: Key, later: Key)
    requires Initial(s) && Solo(s, w)
    requires k in Run(c, s, steps).rows && later in Run(c, s, steps).rows
    requires k.event == later.event && k.endpoint == later.endpoint && k.attempt < later.attempt
    ensures Run(c, s, steps).rows[k] == FAILED || Run(c, s, steps).rows[k] == ABANDONED
  {
    hide Run, SoloPc, RowsOk;
    RunKeepsSolo(c, s, w, steps);
    EarlierAttempts(c, Run(c, s, steps).rows, later, k.attempt + 1);
    assert later.(attempt := k.attempt + 1) == Next(k);
  }

  /** A chain is delivered at most once, and nothing is queued for it afterwards. */
  lemma DeliveredOnce(c: Config, s: State, w: nat, steps: Schedule, k: Key, other: Key)
    requires Initial(s) && Solo(s, w)
    requires k in Run(c, s, steps).rows && Run(c, s, steps).rows[k] == DELIVERED
    requires other in Run(c, s, steps).rows && other.event == k.event && other.endpoint == k.endpoint && other != k
    ensures other.attempt < k.attempt
    ensures Run(c, s, steps).rows[other] == FAILED || Run(c, s, steps).rows[other] == ABANDONED
  {
    if other.attempt > k.attempt {
      OnlyLastIsOpen(c, s, w, steps, k, other);
    } else {
      OnlyLastIsOpen(c, s, w, steps, other, k);
    }
  }

  // ---------------------------------------------------------------- when finished rows stay

  /** The store accepted every reset of a failure counter that followed a delivery. */
  predicate ResetsAccepted(c: Config, s: State, w: nat, steps: Schedule) {
    steps != [] ==>
      var before := Run(c, s, steps[..|steps| - 1]);
      var last := steps[|steps| - 1];
      && ResetsAccepted(c, s, w, steps[..|steps| - 1])
      && !(last.0 == w && last.1.WriteFails? && w in before.workers && before.workers[w].Resetting?)
  }

  /** The failure the worker is closing, if any, is of a row in flight. */
  ghost predicate NothingToOverwrite(rows: Rows, pc: Pc) {
    pc.FailCount? || pc.FailDisable? || pc.FailSweep? || pc.FailWrite? ==> Holds(rows, pc.k, IN_FLIGHT)
  }

  lemma StepOverwritesNothing(c: Config, s: State, w: nat, v: nat, choice: Choice)
    requires SoloInv(c, s, w) && NothingToOverwrite(s.rows, s.workers[w])
    requires !(v == w && choice.WriteFails? && s.workers[w].Resetting?)
    ensures w in Step(c, s, v, choice).workers && NothingToOverwrite(Step(c, s, v, choice).rows, Step(c, s, v, choice).workers[w])
  {
    hide ChainShape, RowsOk, Act;
    if v == w && !choice.Crash? && !choice.Toggle? {
      ActOverwritesNothing(c, s, w, choice);
      hide NothingToOverwrite;
    }
  }

  lemma ActOverwritesNothing(c: Config, s: State, w: nat, choice: Choice)
    requires SoloInv(c, s, w) && NothingToOverwrite(s.rows, s.workers[w])
    requires !(choice.WriteFails? && s.workers[w].Resetting?)
    ensures var s' := Act(c, s, w, s.workers[w], choice);
            w in s'.workers && NothingToOverwrite(s'.rows, s'.workers[w])
  {
    var pc := s.workers[w];
    hide Act, NothingToOverwrite, SoloInv;
    if pc.FailCount? || pc.FailDisable? || pc.FailSweep? || pc.FailWrite? {
      FailureOverwritesNothing(c, s, w, choice);
    } else if pc.Recovering? || pc.Claimed? || pc.Answered? {
      RowOverwritesNothing(c, s, w, choice);
    } else {
      OtherOverwritesNothing(c, s, w, choice);
    }
  }

  lemma RowOverwritesNothing(c: Config, s: State, w: nat, choice: Choice)
    requires SoloInv(c, s, w) && (s.workers[w].Recovering? || s.workers[w].Claimed? || s.workers[w].Answered?)
    ensures var s' := Act(c, s, w, s.workers[w], choice);
            w in s'.workers && NothingToOverwrite(s'.rows, s'.workers[w])
  {
    hide ChainShape, RowsOk;
    var pc := s.workers[w];
    if pc.Recovering? && pc.stale != [] { Uncons(s.rows, pc.stale, IN_FLIGHT); }
    hide AllStatus, Distinct;
  }

  lemma OtherOverwritesNothing(c: Config, s: State, w: nat, choice: Choice)
    requires SoloInv(c, s, w) && !(choice.WriteFails? && s.workers[w].Resetting?)
    requires s.workers[w].Idle? || s.workers[w].Enqueueing? || s.workers[w].Promoting? || s.workers[w].PromoteRead? ||
             s.workers[w].Sending? || s.workers[w].Giving? || s.workers[w].Checked? || s.workers[w].Resetting?
    ensures var s' := Act(c, s, w, s.workers[w], choice);
            w in s'.workers && NothingToOverwrite(s'.rows, s'.workers[w])
  {
    hide Holds, SoloPc, ChainShape, RowsOk, AllStatus, Distinct, Upsert, SetStatus, AbandonPending;
  }

  lemma FailureOverwritesNothing(c: Config, s: State, w: nat, choice: Choice)
    requires w in s.workers && NothingToOverwrite(s.rows, s.workers[w])
    requires s.workers[w].FailCount? || s.workers[w].FailDisable? || s.workers[w].FailSweep? || s.workers[w].FailWrite?
    ensures var s' := Act(c, s, w, s.workers[w], choice);
            w in s'.workers && NothingToOverwrite(s'.rows, s'.workers[w])
  {
  }

  lemma {:induction false} AcceptedResets(c: Config, s: State, w: nat, steps: Schedule)
    requires Initial(s) && Solo(s, w) && ResetsAccepted(c, s, w, steps)
    ensures var t := Run(c, s, steps); w in t.workers && NothingToOverwrite(t.rows, t.workers[w])
    decreases |steps|
  {
    hide Step, NothingToOverwrite;
    if steps == [] {
      IdleOverwritesNothing(s.rows, s.workers[w]);
    } else {
      var last := steps[|steps| - 1];
      var before := steps[..|steps| - 1];
      AcceptedResets(c, s, w, before);
      RunKeepsSolo(c, s, w, before);
      StepOverwritesNothing(c, Run(c, s, before), w, last.0, last.1);
    }
  }

  lemma IdleOverwritesNothing(rows: Rows, pc: Pc)
    requires pc == Idle
    ensures NothingToOverwrite(rows, pc)
  {
  }

  lemma AcceptedPrefix(c: Config, s: State, w: nat, steps: Schedule)
    requires ResetsAccepted(c, s, w, steps) && steps != []
    ensures ResetsAccepted(c, s, w, steps[..|steps| - 1])
  {
  }

  /** As long as no reset after a delivery is rejected, DELIVERED, EXHAUSTED and ABANDONED rows never change again. */
  lemma {:induction false} TerminalForever(c: Config, s: State, w: nat, steps: Schedule, more: Schedule)
    requires Initial(s) && Solo(s, w) && ResetsAccepted(c, s, w, steps + more)
    ensures TerminalStays(Run(c, s, steps).rows, Run(c, s, steps + more).rows)
    decreases |more|
  {
    hide Step, ResetsAccepted, TerminalStays;
    if more == [] {
      assert steps + more == steps;
      TerminalSame(Run(c, s, steps).rows);
    } else {
      var last := more[|more| - 1];
      var init := more[..|more| - 1];
      assert (steps + more)[..|steps + more| - 1] == steps + init;
      AcceptedPrefix(c, s, w, steps + more);
      TerminalForever(c, s, w, steps, init);
      AcceptedResets(c, s, w, steps + init);
      RunKeepsSolo(c, s, w, steps + init);
      RunKeepsInv(c, s, steps + init);
      StepKeepsSolo(c, Run(c, s, steps + init), w, last.0, last.1);
      TerminalTwice(Run(c, s, steps).rows, Run(c, s, steps + init).rows, Run(c, s, steps + more).rows);
    }
  }

  lemma TerminalTwice(a: Rows, b: Rows, c: Rows)
    requires TerminalStays(a, b) && TerminalStays(b, c)
    ensures TerminalStays(a, c)
  {
  }

  /** Along the run, step by step, no finished row changed. */
  ghost predicate KeptThroughout(c: Config, s: State, steps: Schedule) {
    steps != [] ==>
      var init := steps[..|steps| - 1];
      KeptThroughout(c, s, init) && TerminalStays(Run(c, s, init).rows, Run(c, s, steps).rows)
  }

  /** No failure's final write found its row DELIVERED, which takes a rejected reset before it. */
  ghost predicate NeverOverwrites(c: Config, s: State, w: nat, steps: Schedule) {
    steps != [] ==>
      var init := steps[..|steps| - 1];
      var last := steps[|steps| - 1];
      var before := Run(c, s, init);
      && NeverOverwrites(c, s, w, init)
      && !(last.0 == w && !last.1.Crash? && !last.1.Toggle? && w in before.workers && Overwrites(before.rows, before.workers[w]))
  }

  /** Finished rows stay as they are throughout a run if and only if no failure overwrites a delivery. */
  lemma {:induction false} TerminalExactly(c: Config, s: State, w: nat, steps: Schedule)
    requires Initial(s) && Solo(s, w)
    ensures KeptThroughout(c, s, steps) <==> NeverOverwrites(c, s, w, steps)
    decreases |steps|
  {
    hide Step, TerminalStays, Overwrites;
    if steps != [] {
      var init := steps[..|steps| - 1];
      var last := steps[|steps| - 1];
      TerminalExactly(c, s, w, init);
      RunKeepsSolo(c, s, w, init);
      RunKeepsInv(c, s, init);
      StepKeepsSolo(c, Run(c, s, init), w, last.0, last.1);
    }
  }
}
