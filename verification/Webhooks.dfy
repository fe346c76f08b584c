/**
 * The webhook delivery protocol (packages/webhooks/src/dispatcher.ts) as a state machine: every
 * database access of every worker is one step, and a worker may crash between any two of them.
 */
module Webhooks {
  import opened Basics

  /** The unique key of a delivery row; retrying is an insert, so it also names the row. */
  datatype Key = Key(event: nat, endpoint: nat, attempt: nat)

  datatype Status = PENDING | IN_FLIGHT | DELIVERED | FAILED | EXHAUSTED | ABANDONED

  type Rows = map<Key, Status>

  /** Where a worker resumes after `finalizeFailure`. */
  datatype Resume = ToRecover(stale: seq<Key>) | ToDue(due: seq<Key>)

  /** A worker's position between two database accesses, with what it has read so far. */
  datatype Pc =
    | Idle
    | Recovering(stale: seq<Key>)
    | Enqueueing(unfanned: seq<Key>)
    | Promoting(failed: seq<Key>)
    | PromoteRead(k: Key, enabled: bool, failed: seq<Key>)
    | Sending(due: seq<Key>)
    | Giving(k: Key, due: seq<Key>)
    | Checked(k: Key, due: seq<Key>)
    | Claimed(k: Key, due: seq<Key>)
    | Answered(k: Key, due: seq<Key>)
    | Resetting(k: Key, due: seq<Key>)
    | FailCount(k: Key, resume: Resume)
    | FailDisable(k: Key, resume: Resume)
    | FailSweep(k: Key, resume: Resume)
    | FailWrite(k: Key, status: Status, resume: Resume)

  datatype State = State(
    rows: Rows,
    enabled: map<nat, bool>,
    failures: map<nat, nat>,
    workers: map<nat, Pc>,
    sent: seq<Key>)

  /** What the world supplies to one step: query answers, an HTTP answer, or an outside change. */
  datatype Choice =
    | Crash
    | Toggle(endpoint: nat, enabled: bool)
    | Query(keys: seq<Key>)
    | Blocked
    | Http(success: bool)
    | WriteFails
    | Go

  /** Fixed settings: the retry budget of each endpoint and when repeated failure disables it. */
  datatype Config = Config(maxAttempts: nat -> int, disableAfter: int)

  function Next(k: Key): Key {
    k.(attempt := k.attempt + 1)
  }

  function Previous(k: Key): Key {
    k.(attempt := if k.attempt == 0 then 0 else k.attempt - 1)
  }

  // ---------------------------------------------------------------- the writes

  /** `upsert` with an empty update: the insert happens only when the key is free. */
  function Upsert(rows: Rows, k: Key): Rows {
    if k in rows then rows else rows[k := PENDING]
  }

  function SetStatus(rows: Rows, k: Key, status: Status): Rows {
    if k in rows then rows[k := status] else rows
  }

  /** `updateMany where endpoint, PENDING -> ABANDONED`. */
  function AbandonPending(rows: Rows, endpoint: nat): (r: Rows)
    ensures r.Keys == rows.Keys
  {
    map k | k in rows :: if k.endpoint == endpoint && rows[k] == PENDING then ABANDONED else rows[k]
  }

  function Back(resume: Resume): Pc {
    match resume
    case ToRecover(stale) => Recovering(stale)
    case ToDue(due) => Sending(due)
  }

  predicate AllStatus(rows: Rows, keys: seq<Key>, status: Status) {
    forall i :: 0 <= i < |keys| ==> keys[i] in rows && rows[keys[i]] == status
  }

  predicate FirstAttempts(keys: seq<Key>) {
    forall i :: 0 <= i < |keys| ==> keys[i].attempt == 1
  }

  predicate Usable(s: State, endpoint: nat) {
    endpoint in s.enabled && s.enabled[endpoint]
  }

  function At(s: State, w: nat, pc: Pc): State {
    s.(workers := s.workers[w := pc])
  }

  function FailureStatus(c: Config, k: Key, disabled: bool): Status {
    if k.attempt >= c.maxAttempts(k.endpoint) then EXHAUSTED
    else if disabled then ABANDONED
    else FAILED
  }

  // ---------------------------------------------------------------- one step

  // The two writes of `finalizeSuccess` stand inside the `try` around the HTTP call, so a rejected one
  // leads to `finalizeFailure`. A rejected write anywhere else ends the poll, which is a crash here.

  /** One access by worker w; a choice that does not fit the position changes nothing. */
  function Step(c: Config, s: State, w: nat, choice: Choice): State {
    if w !in s.workers then s
    else match choice
      case Crash => At(s, w, Idle)
      case Toggle(endpoint, enabled) => s.(enabled := s.enabled[endpoint := enabled])
      case _ => Act(c, s, w, s.workers[w], choice)
  }

  function Act(c: Config, s: State, w: nat, pc: Pc, choice: Choice): State {
    match pc
    case Idle =>
      if choice.Query? && AllStatus(s.rows, choice.keys, IN_FLIGHT) && Distinct(choice.keys)
      then At(s, w, Recovering(choice.keys)) else s
    case Recovering(stale) =>
      if stale != [] then At(s, w, FailCount(stale[0], ToRecover(stale[1..])))
      else if choice.Query? && FirstAttempts(choice.keys) then At(s, w, Enqueueing(choice.keys)) else s
    case Enqueueing(unfanned) =>
      if unfanned != [] then At(s.(rows := Upsert(s.rows, unfanned[0])), w, Enqueueing(unfanned[1..]))
      else if choice.Query? && AllStatus(s.rows, choice.keys, FAILED) && Distinct(choice.keys)
      then At(s, w, Promoting(choice.keys)) else s
    case Promoting(failed) =>
      if failed != [] then At(s, w, PromoteRead(failed[0], Usable(s, failed[0].endpoint), failed[1..]))
      else if choice.Query? && AllStatus(s.rows, choice.keys, PENDING) && Distinct(choice.keys)
      then At(s, w, Sending(choice.keys)) else s
    case PromoteRead(k, enabled, failed) =>
      At(s.(rows := if enabled then Upsert(s.rows, Next(k)) else SetStatus(s.rows, k, ABANDONED)), w, Promoting(failed))
    case Sending(due) => ReadDue(s, w, due)
    case Giving(k, due) => At(s.(rows := SetStatus(s.rows, k, ABANDONED)), w, Sending(due))
    case Checked(k, due) =>
      if k in s.rows && s.rows[k] == PENDING
      then At(s.(rows := SetStatus(s.rows, k, IN_FLIGHT)), w, Claimed(k, due))
      else At(s, w, Sending(due))
    case Claimed(k, due) =>
      if choice.Http? then
        At(s.(sent := s.sent + [k]), w, if choice.success then Answered(k, due) else FailCount(k, ToDue(due)))
      else if choice.Blocked? then At(s, w, FailCount(k, ToDue(due)))
      else s
    case Answered(k, due) =>
      if choice.WriteFails? then At(s, w, FailCount(k, ToDue(due)))
      else At(s.(rows := SetStatus(s.rows, k, DELIVERED)), w, Resetting(k, due))
    case Resetting(k, due) =>
      if choice.WriteFails? then At(s, w, FailCount(k, ToDue(due)))
      else At(s.(failures := s.failures[k.endpoint := 0]), w, Sending(due))
    case FailCount(k, resume) => CountFailure(c, s, w, k, resume)
    case FailDisable(k, resume) =>
      At(s.(enabled := s.enabled[k.endpoint := false]), w, FailSweep(k, resume))
    case FailSweep(k, resume) =>
      At(s.(rows := AbandonPending(s.rows, k.endpoint)), w, FailWrite(k, FailureStatus(c, k, true), resume))
    case FailWrite(k, status, resume) => At(s.(rows := SetStatus(s.rows, k, status)), w, Back(resume))
  }

  /** `attemptDelivery` up to the claim: skip a row that is no longer PENDING, give up on a lost endpoint. */
  function ReadDue(s: State, w: nat, due: seq<Key>): State {
    if due == [] then At(s, w, Idle)
    else
      var k := due[0];
      if k !in s.rows || s.rows[k] != PENDING then At(s, w, Sending(due[1..]))
      else if !Usable(s, k.endpoint) then At(s, w, Giving(k, due[1..]))
      else At(s, w, Checked(k, due[1..]))
  }

  /** The first write of `finalizeFailure`, which decides how the failure ends. */
  function CountFailure(c: Config, s: State, w: nat, k: Key, resume: Resume): State {
    var e := k.endpoint;
    var n := if e in s.failures then s.failures[e] + 1 else 1;
    var s' := s.(failures := s.failures[e := n]);
    if k.attempt < c.maxAttempts(e) && n >= c.disableAfter then At(s', w, FailDisable(k, resume))
    else At(s', w, FailWrite(k, FailureStatus(c, k, false), resume))
  }

  /** A schedule: which worker steps, and what the world answers. */
  type Schedule = seq<(nat, Choice)>

  function Run(c: Config, s: State, steps: Schedule): State
    decreases |steps|
  {
    if steps == [] then s
    else var last := steps[|steps| - 1]; Step(c, Run(c, s, steps[..|steps| - 1]), last.0, last.1)
  }

  /** No deliveries yet, every worker idle. */
  predicate Initial(s: State) {
    s.rows == map[] && s.sent == [] && forall w :: w in s.workers ==> s.workers[w] == Idle
  }

  // ---------------------------------------------------------------- any number of workers

  predicate WithinBudget(c: Config, k: Key) {
    1 <= k.attempt && (k.attempt == 1 || k.attempt <= c.maxAttempts(k.endpoint))
  }

  /** Attempts of a chain are 1..k, within the budget, and a FAILED row has budget left. */
  ghost predicate RowsOk(c: Config, rows: Rows) {
    && NoGaps(rows)
    && forall k :: k in rows ==> WithinBudget(c, k) && (rows[k] == FAILED ==> k.attempt < c.maxAttempts(k.endpoint))
  }

  ghost predicate NoGaps(rows: Rows) {
    forall k {:trigger Previous(k)} :: k in rows && k.attempt > 1 ==> Previous(k) in rows
  }

  ghost predicate AllRetryable(c: Config, rows: Rows, keys: seq<Key>) {
    forall i :: 0 <= i < |keys| ==> keys[i] in rows && keys[i].attempt < c.maxAttempts(keys[i].endpoint)
  }

  /** What a worker has read stays usable, whatever the others do meanwhile. */
  ghost predicate PcOk(c: Config, rows: Rows, pc: Pc) {
    match pc
    case Enqueueing(unfanned) => FirstAttempts(unfanned)
    case Promoting(failed) => AllRetryable(c, rows, failed)
    case PromoteRead(k, _, failed) => AllRetryable(c, rows, [k]) && AllRetryable(c, rows, failed)
    case FailWrite(k, status, _) =>
      status != PENDING && (status == FAILED ==> k.attempt < c.maxAttempts(k.endpoint))
    case _ => true
  }

  ghost predicate WorkersOk(c: Config, s: State) {
    forall w :: w in s.workers ==> PcOk(c, s.rows, s.workers[w])
  }

  /** The row was claimed: it exists and will never be PENDING again. */
  ghost predicate Taken(rows: Rows, k: Key) {
    k in rows && rows[k] != PENDING
  }

  /** Sent rows were claimed, each was sent once, and a claim not yet used has not been sent. */
  ghost predicate SendsOk(s: State) {
    && Distinct(s.sent)
    && (forall k :: k in s.sent ==> Taken(s.rows, k))
    && (forall w :: w in s.workers && s.workers[w].Claimed? ==> Taken(s.rows, s.workers[w].k) && s.workers[w].k !in s.sent)
    && (forall v, w :: v in s.workers && w in s.workers && v != w && s.workers[v].Claimed? && s.workers[w].Claimed? ==>
          s.workers[v].k != s.workers[w].k)
  }

  ghost predicate Inv(c: Config, s: State) {
    RowsOk(c, s.rows) && WorkersOk(c, s) && SendsOk(s)
  }

  /** Rows are never removed and never become PENDING again. */
  ghost predicate Evolves(before: Rows, after: Rows) {
    forall k :: k in before ==> k in after && (before[k] != PENDING ==> after[k] != PENDING)
  }

  lemma PcSurvives(c: Config, before: Rows, after: Rows, pc: Pc)
    requires PcOk(c, before, pc) && Evolves(before, after)
    ensures PcOk(c, after, pc)
  {
  }

  /** A step that only rewrites rows and moves w keeps the send discipline. */
  lemma SendsSurvive(s: State, s': State, w: nat)
    requires SendsOk(s) && w in s.workers && w in s'.workers && Evolves(s.rows, s'.rows) && s'.sent == s.sent
    requires s'.workers == s.workers[w := s'.workers[w]] && !s'.workers[w].Claimed?
    ensures SendsOk(s')
  {
  }

  lemma WorkersSurvive(c: Config, s: State, s': State, w: nat)
    requires WorkersOk(c, s) && w in s.workers && Evolves(s.rows, s'.rows)
    requires w in s'.workers && s'.workers == s.workers[w := s'.workers[w]] && PcOk(c, s'.rows, s'.workers[w])
    ensures WorkersOk(c, s')
  {
    forall v | v in s'.workers ensures PcOk(c, s'.rows, s'.workers[v]) {
      if v != w { PcSurvives(c, s.rows, s'.rows, s.workers[v]); }
    }
  }

  lemma Quiet(c: Config, s: State, s': State, w: nat)
    requires Inv(c, s) && w in s.workers && w in s'.workers
    requires Evolves(s.rows, s'.rows) && RowsOk(c, s'.rows) && s'.sent == s.sent
    requires s'.workers == s.workers[w := s'.workers[w]] && !s'.workers[w].Claimed? && PcOk(c, s'.rows, s'.workers[w])
    ensures Inv(c, s')
  {
    WorkersSurvive(c, s, s', w);
    SendsSurvive(s, s', w);
  }

  lemma UpsertKeeps(c: Config, rows: Rows, k: Key)
    requires RowsOk(c, rows) && WithinBudget(c, k) && (k.attempt > 1 ==> Previous(k) in rows)
    ensures RowsOk(c, Upsert(rows, k)) && Evolves(rows, Upsert(rows, k))
  {
  }

  lemma SetStatusKeeps(c: Config, rows: Rows, k: Key, status: Status)
    requires RowsOk(c, rows) && status != PENDING
    requires status == FAILED ==> k.attempt < c.maxAttempts(k.endpoint)
    ensures RowsOk(c, SetStatus(rows, k, status)) && Evolves(rows, SetStatus(rows, k, status))
  {
  }

  lemma AbandonKeeps(c: Config, rows: Rows, endpoint: nat)
    requires RowsOk(c, rows)
    ensures RowsOk(c, AbandonPending(rows, endpoint)) && Evolves(rows, AbandonPending(rows, endpoint))
  {
  }

  lemma PromoteKeeps(c: Config, s: State, w: nat)
    requires Inv(c, s) && w in s.workers && s.workers[w].PromoteRead?
    ensures Inv(c, Act(c, s, w, s.workers[w], Go))
  {
    var pc := s.workers[w];
    var s' := Act(c, s, w, pc, Go);
    assert PcOk(c, s.rows, pc);
    assert [pc.k][0] == pc.k;
    if pc.enabled {
      assert Previous(Next(pc.k)) == pc.k;
      UpsertKeeps(c, s.rows, Next(pc.k));
    } else {
      SetStatusKeeps(c, s.rows, pc.k, ABANDONED);
    }
    PcSurvives(c, s.rows, s'.rows, Promoting(pc.failed));
    Quiet(c, s, s', w);
  }

  lemma EnqueueKeeps(c: Config, s: State, w: nat)
    requires Inv(c, s) && w in s.workers && s.workers[w].Enqueueing? && s.workers[w].unfanned != []
    ensures Inv(c, Act(c, s, w, s.workers[w], Go))
  {
    var unfanned := s.workers[w].unfanned;
    assert PcOk(c, s.rows, s.workers[w]);
    UpsertKeeps(c, s.rows, unfanned[0]);
    Quiet(c, s, Act(c, s, w, s.workers[w], Go), w);
  }

  lemma CountKeeps(c: Config, s: State, w: nat)
    requires Inv(c, s) && w in s.workers && (s.workers[w].FailCount? || s.workers[w].FailDisable? || s.workers[w].Resetting?)
    ensures Inv(c, Act(c, s, w, s.workers[w], Go))
  {
    hide RowsOk, SendsOk, WorkersOk;
    var s' := Act(c, s, w, s.workers[w], Go);
    assert s'.rows == s.rows && s'.sent == s.sent;
    Quiet(c, s, s', w);
  }

  lemma SweepKeeps(c: Config, s: State, w: nat)
    requires Inv(c, s) && w in s.workers && s.workers[w].FailSweep?
    ensures Inv(c, Act(c, s, w, s.workers[w], Go))
  {
    hide RowsOk, SendsOk, WorkersOk, Evolves, AbandonPending;
    AbandonKeeps(c, s.rows, s.workers[w].k.endpoint);
    Quiet(c, s, Act(c, s, w, s.workers[w], Go), w);
  }

  lemma FinalKeeps(c: Config, s: State, w: nat)
    requires Inv(c, s) && w in s.workers && s.workers[w].FailWrite?
    ensures Inv(c, Act(c, s, w, s.workers[w], Go))
  {
    var pc := s.workers[w];
    assert PcOk(c, s.rows, pc);
    hide RowsOk, SendsOk, WorkersOk, Evolves, SetStatus;
    SetStatusKeeps(c, s.rows, pc.k, pc.status);
    Quiet(c, s, Act(c, s, w, pc, Go), w);
  }

  /** The claim is a compare-and-set, so no two workers hold one row, and it was not sent before. */
  lemma ClaimKeeps(c: Config, s: State, w: nat)
    requires Inv(c, s) && w in s.workers && s.workers[w].Checked?
    ensures Inv(c, Act(c, s, w, s.workers[w], Go))
  {
    var k := s.workers[w].k;
    var s' := Act(c, s, w, s.workers[w], Go);
    if k in s.rows && s.rows[k] == PENDING {
      SetStatusKeeps(c, s.rows, k, IN_FLIGHT);
      WorkersSurvive(c, s, s', w);
      assert forall v :: v in s.workers && s.workers[v].Claimed? ==> s.workers[v].k != k;
    } else {
      Quiet(c, s, s', w);
    }
  }

  lemma SendKeeps(c: Config, s: State, w: nat, choice: Choice)
    requires Inv(c, s) && w in s.workers && s.workers[w].Claimed? && choice.Http?
    ensures Inv(c, Act(c, s, w, s.workers[w], choice))
  {
    hide RowsOk;
    var s' := Act(c, s, w, s.workers[w], choice);
    WorkersSurvive(c, s, s', w);
    hide WorkersOk;
    assert s'.rows == s.rows && s'.sent == s.sent + [s.workers[w].k];
  }

  lemma WriteRowKeeps(c: Config, s: State, w: nat)
    requires Inv(c, s) && w in s.workers && (s.workers[w].Giving? || s.workers[w].Answered?)
    ensures Inv(c, Act(c, s, w, s.workers[w], Go))
  {
    var pc := s.workers[w];
    SetStatusKeeps(c, s.rows, pc.k, if pc.Giving? then ABANDONED else DELIVERED);
    Quiet(c, s, Act(c, s, w, pc, Go), w);
  }

  lemma ReadKeeps(c: Config, s: State, w: nat, pc: Pc)
    requires Inv(c, s) && w in s.workers && !pc.Claimed? && PcOk(c, s.rows, pc)
    ensures Inv(c, At(s, w, pc))
  {
    Quiet(c, s, At(s, w, pc), w);
  }

  lemma SnapshotRetryable(c: Config, rows: Rows, keys: seq<Key>)
    requires RowsOk(c, rows) && AllStatus(rows, keys, FAILED)
    ensures AllRetryable(c, rows, keys)
  {
  }

  /** Every step of every worker keeps the invariant. */
  lemma StepKeepsInv(c: Config, s: State, w: nat, choice: Choice)
    requires Inv(c, s)
    ensures Inv(c, Step(c, s, w, choice))
  {
    if w in s.workers {
      var pc := s.workers[w];
      assert PcOk(c, s.rows, pc);
      if choice.Crash? {
        ReadKeeps(c, s, w, Idle);
      } else if choice.Toggle? {
      } else {
        ActKeepsInv(c, s, w, choice);
      }
    }
  }

  lemma ActKeepsInv(c: Config, s: State, w: nat, choice: Choice)
    requires Inv(c, s) && w in s.workers
    ensures Inv(c, Act(c, s, w, s.workers[w], choice))
  {
    hide Inv, At, AbandonPending, SetStatus, Upsert, ReadDue, CountFailure;
    match s.workers[w]
    case Idle => QueueKeeps(c, s, w, choice);
    case Recovering(_) => QueueKeeps(c, s, w, choice);
    case Enqueueing(_) => QueueKeeps(c, s, w, choice);
    case Promoting(_) => QueueKeeps(c, s, w, choice);
    case PromoteRead(_, _, _) => PromoteKeeps(c, s, w);
    case Sending(due) => ReadDueKeeps(c, s, w, due);
    case Giving(_, _) => WriteRowKeeps(c, s, w);
    case Answered(k, due) => if choice.WriteFails? { ReadKeeps(c, s, w, FailCount(k, ToDue(due))); } else { WriteRowKeeps(c, s, w); }
    case Checked(_, _) => ClaimKeeps(c, s, w);
    case Claimed(k, due) =>
      if choice.Http? { SendKeeps(c, s, w, choice); }
      if choice.Blocked? { ReadKeeps(c, s, w, FailCount(k, ToDue(due))); }
    case Resetting(k, due) => if choice.WriteFails? { ReadKeeps(c, s, w, FailCount(k, ToDue(due))); } else { CountKeeps(c, s, w); }
    case FailCount(_, _) => CountKeeps(c, s, w);
    case FailDisable(_, _) => CountKeeps(c, s, w);
    case FailSweep(_, _) => SweepKeeps(c, s, w);
    case FailWrite(_, _, _) => FinalKeeps(c, s, w);
  }

  lemma ReadDueKeeps(c: Config, s: State, w: nat, due: seq<Key>)
    requires Inv(c, s) && w in s.workers
    ensures Inv(c, ReadDue(s, w, due))
  {
    hide Inv, At;
    ReadKeeps(c, s, w, Idle);
    if due != [] {
      ReadKeeps(c, s, w, Sending(due[1..]));
      ReadKeeps(c, s, w, Giving(due[0], due[1..]));
      ReadKeeps(c, s, w, Checked(due[0], due[1..]));
    }
  }

  lemma QueueKeeps(c: Config, s: State, w: nat, choice: Choice)
    requires Inv(c, s) && w in s.workers
    requires s.workers[w].Idle? || s.workers[w].Recovering? || s.workers[w].Enqueueing? || s.workers[w].Promoting?
    ensures Inv(c, Act(c, s, w, s.workers[w], choice))
  {
    var pc := s.workers[w];
    assert PcOk(c, s.rows, pc);
    hide Inv, At, Upsert;
    match pc
    case Idle => if choice.Query? { ReadKeeps(c, s, w, Recovering(choice.keys)); }
    case Recovering(stale) =>
      if stale != [] {
        ReadKeeps(c, s, w, FailCount(stale[0], ToRecover(stale[1..])));
      } else if choice.Query? && FirstAttempts(choice.keys) {
        ReadKeeps(c, s, w, Enqueueing(choice.keys));
      }
    case Enqueueing(unfanned) =>
      if unfanned != [] {
        EnqueueKeeps(c, s, w);
      } else if choice.Query? && AllStatus(s.rows, choice.keys, FAILED) && Distinct(choice.keys) {
        RowsOfInv(c, s);
        SnapshotRetryable(c, s.rows, choice.keys);
        ReadKeeps(c, s, w, Promoting(choice.keys));
      }
    case Promoting(failed) =>
      if failed != [] {
        ReadKeeps(c, s, w, PromoteRead(failed[0], Usable(s, failed[0].endpoint), failed[1..]));
      } else if choice.Query? {
        ReadKeeps(c, s, w, Sending(choice.keys));
      }
  }

  lemma RowsOfInv(c: Config, s: State)
    requires Inv(c, s)
    ensures RowsOk(c, s.rows)
  {
  }

  lemma {:induction false} RunKeepsInv(c: Config, s: State, steps: Schedule)
    requires Initial(s)
    ensures Inv(c, Run(c, s, steps))
    decreases |steps|
  {
    hide Step;
    if steps != [] {
      var last := steps[|steps| - 1];
      RunKeepsInv(c, s, steps[..|steps| - 1]);
      StepKeepsInv(c, Run(c, s, steps[..|steps| - 1]), last.0, last.1);
    }
  }

  /** Any number of workers, any interleaving, any crashes: each row is sent at most once. */
  lemma SentAtMostOnce(c: Config, s: State, steps: Schedule)
    requires Initial(s)
    ensures Distinct(Run(c, s, steps).sent)
  {
    RunKeepsInv(c, s, steps);
  }

  lemma {:induction false} EarlierAttempts(c: Config, rows: Rows, k: Key, j: nat)
    requires RowsOk(c, rows) && k in rows && 1 <= j <= k.attempt
    ensures k.(attempt := j) in rows
    decreases k.attempt - j
  {
    if j == k.attempt {
      assert k.(attempt := j) == k;
    } else {
      EarlierAttempts(c, rows, k, j + 1);
      assert Previous(k.(attempt := j + 1)) == k.(attempt := j);
    }
  }

  /** Each chain's attempts are exactly 1..n with n at most max(1, maxAttempts). */
  lemma AttemptsWithoutGaps(c: Config, s: State, steps: Schedule, k: Key)
    requires Initial(s) && k in Run(c, s, steps).rows
    ensures 1 <= k.attempt && (k.attempt == 1 || k.attempt <= c.maxAttempts(k.endpoint))
    ensures forall j :: 1 <= j <= k.attempt ==> k.(attempt := j) in Run(c, s, steps).rows
  {
    RunKeepsInv(c, s, steps);
    var rows := Run(c, s, steps).rows;
    forall j | 1 <= j <= k.attempt ensures k.(attempt := j) in rows {
      EarlierAttempts(c, rows, k, j);
    }
  }
}
