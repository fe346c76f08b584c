/**
 * `IdempotencyService.execute` (apps/api/src/common/idempotency.service.ts:36-120) as an interleaved
 * protocol: each database access and each handler outcome is one step of one caller, any caller may
 * crash between steps, and any write may fail.
 */
module Idempotency {
  import opened Basics

  datatype Response = Response(status: int, body: nat)
  /** Merchant, endpoint and client key together. */
  type Key = nat
  type BodyHash = nat

  datatype Row = Row(hash: BodyHash, response: Option<Response>)

  datatype Pc =
    | Arrived
    | Absent
    | Running
    | Failed
    | Succeeded(response: Response)
    | Returned(response: Response)
    | Replayed(response: Response)
    | KeyReused
    | InFlight
    | Thrown
    | Crashed

  datatype Caller = Caller(key: Key, hash: BodyHash, pc: Pc)

  /** What the handler did, in order; no program variable, only the history. */
  datatype Event = Started(key: Key) | Finished(key: Key, hash: BodyHash, response: Response)

  datatype State = State(rows: map<Key, Row>, callers: map<nat, Caller>, log: seq<Event>)

  datatype Choice =
    | Arrive(key: Key, hash: BodyHash)
    | Proceed
    | HandlerThrows
    | HandlerReturns(response: Response)
    | WriteFails
    | Crash

  function Move(s: State, c: nat, pc: Pc): State
    requires c in s.callers
  {
    s.(callers := s.callers[c := s.callers[c].(pc := pc)])
  }

  /** One step of caller c; a choice that does not fit changes nothing. */
  function Step(s: State, c: nat, choice: Choice): State {
    if c !in s.callers then
      if choice.Arrive? then s.(callers := s.callers[c := Caller(choice.key, choice.hash, Arrived)]) else s
    else if choice.Crash? then Move(s, c, Crashed)
    else
      var k := s.callers[c].key;
      match s.callers[c].pc
      case Arrived => if choice.Proceed? then Move(s, c, Lookup(s, s.callers[c])) else s
      case Absent =>
        if choice.WriteFails? || (choice.Proceed? && k in s.rows) then Move(s, c, InFlight)
        else if choice.Proceed? then
          Move(s.(rows := s.rows[k := Row(s.callers[c].hash, None)], log := s.log + [Started(k)]), c, Running)
        else s
      case Running =>
        if choice.HandlerThrows? then Move(s, c, Failed)
        else if choice.HandlerReturns? then
          Move(s.(log := s.log + [Finished(k, s.callers[c].hash, choice.response)]), c, Succeeded(choice.response))
        else s
      case Failed =>
        if choice.WriteFails? then Move(s, c, Thrown)
        else if choice.Proceed? then Move(s.(rows := s.rows - {k}), c, Thrown)
        else s
      case Succeeded(response) =>
        if choice.WriteFails? || (choice.Proceed? && k !in s.rows) then Move(s, c, Thrown)
        else if choice.Proceed? then
          Move(s.(rows := s.rows[k := s.rows[k].(response := Some(response))]), c, Returned(response))
        else s
      case _ => s
  }

  /** The first read: replay, reject, or nothing there yet. */
  function Lookup(s: State, caller: Caller): Pc {
    if caller.key !in s.rows then Absent
    else
      var row := s.rows[caller.key];
      if row.hash != caller.hash then KeyReused
      else if row.response.Some? then Replayed(row.response.value)
      else InFlight
  }

  type Schedule = seq<(nat, Choice)>

  function Run(s: State, steps: Schedule): State
    decreases |steps|
  {
    if steps == [] then s
    else var last := steps[|steps| - 1]; Step(Run(s, steps[..|steps| - 1]), last.0, last.1)
  }

  const EMPTY: State := State(map[], map[], [])

  // ---------------------------------------------------------------- the invariant

  /** The caller holds the key: its handler runs, or has ended and the row is not yet settled. */
  predicate Holds(caller: Caller) {
    caller.pc.Running? || caller.pc.Failed? || caller.pc.Succeeded?
  }

  /** At most one caller holds a key, and its unfinished row is there under its own hash. */
  ghost predicate HoldersOk(s: State) {
    && (forall c :: c in s.callers && Holds(s.callers[c]) ==>
          s.callers[c].key in s.rows && s.rows[s.callers[c].key] == Row(s.callers[c].hash, None))
    && (forall c, d :: c in s.callers && d in s.callers && c != d && Holds(s.callers[c]) && Holds(s.callers[d]) ==>
          s.callers[c].key != s.callers[d].key)
  }

  /** After a success for a key nothing starts or succeeds for it. */
  ghost predicate LogOk(log: seq<Event>) {
    forall i, j :: 0 <= i < j < |log| && log[i].Finished? ==> log[j].key != log[i].key
  }

  /** A success keeps its row forever, and only the caller that succeeded can still hold the key. */
  ghost predicate SuccessKept(s: State) {
    forall i :: 0 <= i < |s.log| && s.log[i].Finished? ==>
      && s.log[i].key in s.rows && s.rows[s.log[i].key].hash == s.log[i].hash
      && (s.rows[s.log[i].key].response.Some? ==> s.rows[s.log[i].key].response.value == s.log[i].response)
  }

  ghost predicate HoldersAfterSuccess(s: State) {
    && (forall c :: c in s.callers && (s.callers[c].pc.Running? || s.callers[c].pc.Failed?) ==> !EverFinished(s.log, s.callers[c].key))
    && (forall c :: c in s.callers && s.callers[c].pc.Succeeded? ==>
          Finished(s.callers[c].key, s.callers[c].hash, s.callers[c].pc.response) in s.log)
  }

  ghost predicate EverFinished(log: seq<Event>, k: Key) {
    exists i :: 0 <= i < |log| && log[i].Finished? && log[i].key == k
  }

  /** Stored and replayed responses are those of a success with the same key and hash. */
  ghost predicate ResponsesOk(s: State) {
    && (forall k :: k in s.rows && s.rows[k].response.Some? ==> Finished(k, s.rows[k].hash, s.rows[k].response.value) in s.log)
    && (forall c :: c in s.callers && (s.callers[c].pc.Replayed? || s.callers[c].pc.Returned?) ==>
          Finished(s.callers[c].key, s.callers[c].hash, s.callers[c].pc.response) in s.log)
  }

  ghost predicate Inv(s: State) {
    HoldersOk(s) && LogOk(s.log) && SuccessKept(s) && HoldersAfterSuccess(s) && ResponsesOk(s)
  }

  /** A caller that moves without touching rows or log and without taking the key. */
  lemma MoveKeeps(s: State, c: nat, pc: Pc)
    requires Inv(s) && c in s.callers
    requires !Holds(Caller(s.callers[c].key, s.callers[c].hash, pc)) || (pc.Failed? && s.callers[c].pc.Running?)
    requires pc.Replayed? || pc.Returned? ==> Finished(s.callers[c].key, s.callers[c].hash, pc.response) in s.log
    ensures Inv(Move(s, c, pc))
  {
    var s' := Move(s, c, pc);
    assert s'.log == s.log && s'.rows == s.rows;
    assert s'.callers == s.callers[c := s.callers[c].(pc := pc)];
    hide Move, LogOk, EverFinished;
    assert HoldersOk(s') by { hide SuccessKept, HoldersAfterSuccess, ResponsesOk; }
    assert SuccessKept(s') by { hide HoldersOk, HoldersAfterSuccess, ResponsesOk; }
    assert ResponsesOk(s') by { hide HoldersOk, HoldersAfterSuccess, SuccessKept; }
    assert HoldersAfterSuccess(s') by { hide HoldersOk, SuccessKept, ResponsesOk; }
  }

  lemma ArriveKeeps(s: State, c: nat, k: Key, hash: BodyHash)
    requires Inv(s) && c !in s.callers
    ensures Inv(s.(callers := s.callers[c := Caller(k, hash, Arrived)]))
  {
    hide LogOk, EverFinished;
  }

  lemma NeverFinished(s: State, k: Key)
    requires Inv(s) && k !in s.rows
    ensures !EverFinished(s.log, k)
  {
  }

  lemma LogGrows(log: seq<Event>, e: Event)
    requires LogOk(log) && !EverFinished(log, e.key)
    ensures LogOk(log + [e])
    ensures forall k :: EverFinished(log + [e], k) <==> EverFinished(log, k) || (e.Finished? && e.key == k)
  {
    var longer := log + [e];
    assert longer[|log|] == e;
    forall k ensures EverFinished(longer, k) <==> EverFinished(log, k) || (e.Finished? && e.key == k) {
      if EverFinished(log, k) {
        var i :| 0 <= i < |log| && log[i].Finished? && log[i].key == k;
        assert longer[i] == log[i];
      }
    }
  }

  /** Claiming a free key. */
  lemma ClaimKeeps(s: State, c: nat)
    requires Inv(s) && c in s.callers && s.callers[c].pc.Absent? && s.callers[c].key !in s.rows
    ensures Inv(Step(s, c, Proceed))
  {
    hide LogOk, EverFinished;
    var k := s.callers[c].key;
    var s' := Step(s, c, Proceed);
    NeverFinished(s, k);
    LogGrows(s.log, Started(k));
    assert forall e :: e in s.log ==> e in s'.log;
    assert s'.callers == s.callers[c := s.callers[c].(pc := Running)];
    assert s'.rows == s.rows[k := Row(s.callers[c].hash, None)];
    assert s'.log == s.log + [Started(k)];
    hide Step;
    assert HoldersOk(s') by { hide SuccessKept, HoldersAfterSuccess, ResponsesOk; }
    assert SuccessKept(s') by { hide HoldersOk, HoldersAfterSuccess, ResponsesOk; }
    assert ResponsesOk(s') by { hide HoldersOk, HoldersAfterSuccess, SuccessKept; }
    assert HoldersAfterSuccess(s') by { hide HoldersOk, SuccessKept, ResponsesOk; }
  }

  /** The handler returns while its caller holds the key. */
  lemma ReturnKeeps(s: State, c: nat, response: Response)
    requires Inv(s) && c in s.callers && s.callers[c].pc.Running?
    ensures Inv(Step(s, c, HandlerReturns(response)))
  {
    var k := s.callers[c].key;
    var e := Finished(k, s.callers[c].hash, response);
    var s' := Step(s, c, HandlerReturns(response));
    LogGrows(s.log, e);
    assert s'.log[|s.log|] == e && s'.rows == s.rows;
    assert forall x :: x in s.log ==> x in s'.log;
    assert s'.callers == s.callers[c := s.callers[c].(pc := Succeeded(response))];
    hide LogOk, EverFinished;
  }

  /** Releasing the key after a failure removes only the failed caller's own row. */
  lemma ReleaseKeeps(s: State, c: nat)
    requires Inv(s) && c in s.callers && s.callers[c].pc.Failed?
    ensures Inv(Step(s, c, Proceed))
  {
    var k := s.callers[c].key;
    var s' := Step(s, c, Proceed);
    assert s'.callers == s.callers[c := s.callers[c].(pc := Thrown)];
    assert forall i :: 0 <= i < |s.log| && s.log[i].Finished? ==> s.log[i].key != k;
    hide LogOk, EverFinished;
  }

  lemma FinishedOnce(s: State, k: Key, hash: BodyHash, response: Response, i: nat)
    requires LogOk(s.log) && Finished(k, hash, response) in s.log && i < |s.log| && s.log[i].Finished? && s.log[i].key == k
    ensures s.log[i] == Finished(k, hash, response)
  {
  }

  /** Storing the response of the success. */
  lemma CompleteKeeps(s: State, c: nat)
    requires Inv(s) && c in s.callers && s.callers[c].pc.Succeeded?
    ensures Inv(Step(s, c, Proceed))
  {
    var k := s.callers[c].key;
    var response := s.callers[c].pc.response;
    var s' := Step(s, c, Proceed);
    assert s'.callers == s.callers[c := s.callers[c].(pc := Returned(response))];
    forall i | 0 <= i < |s.log| && s.log[i].Finished? && s.log[i].key == k
      ensures s.log[i] == Finished(k, s.callers[c].hash, response)
    {
      FinishedOnce(s, k, s.callers[c].hash, response, i);
    }
    hide LogOk, EverFinished;
  }

  lemma StepKeepsInv(s: State, c: nat, choice: Choice)
    requires Inv(s)
    ensures Inv(Step(s, c, choice))
  {
    if c !in s.callers {
      if choice.Arrive? { ArriveKeeps(s, c, choice.key, choice.hash); }
    } else {
      var caller := s.callers[c];
      var looked := Lookup(s, caller);
      if caller.pc.Arrived? { LookupFinds(s, caller); }
      if caller.pc.Absent? && caller.key !in s.rows { ClaimKeeps(s, c); }
      if caller.pc.Running? && choice.HandlerReturns? { ReturnKeeps(s, c, choice.response); }
      if caller.pc.Failed? { ReleaseKeeps(s, c); }
      if caller.pc.Succeeded? { CompleteKeeps(s, c); }
      MoveKeeps(s, c, Crashed);
      MoveKeeps(s, c, InFlight);
      MoveKeeps(s, c, Thrown);
      if caller.pc.Running? { MoveKeeps(s, c, Failed); }
      if caller.pc.Arrived? { MoveKeeps(s, c, looked); }
      hide Inv, Move, Lookup;
    }
  }

  lemma LookupFinds(s: State, caller: Caller)
    requires Inv(s)
    ensures !Lookup(s, caller).Running? && !Lookup(s, caller).Failed? && !Lookup(s, caller).Succeeded? && !Lookup(s, caller).Returned?
    ensures Lookup(s, caller).Replayed? ==> Finished(caller.key, caller.hash, Lookup(s, caller).response) in s.log
  {
  }

  lemma {:induction false} RunKeepsInv(steps: Schedule)
    ensures Inv(Run(EMPTY, steps))
    decreases |steps|
  {
    if steps != [] {
      hide Step, Inv;
      var last := steps[|steps| - 1];
      RunKeepsInv(steps[..|steps| - 1]);
      StepKeepsInv(Run(EMPTY, steps[..|steps| - 1]), last.0, last.1);
    }
  }

  // ---------------------------------------------------------------- what callers can rely on

  /** At most one handler runs at a time for a key. */
  lemma OneHandlerAtATime(steps: Schedule, c: nat, d: nat)
    requires var s := Run(EMPTY, steps);
             c in s.callers && d in s.callers && s.callers[c].pc.Running? && s.callers[d].pc.Running? && s.callers[c].key == s.callers[d].key
    ensures c == d
  {
    RunKeepsInv(steps);
  }

  /** At most one handler ever succeeds for a key, and none starts after it. */
  lemma OneSuccessEver(steps: Schedule, i: nat, j: nat)
    requires var log := Run(EMPTY, steps).log; i < |log| && j < |log| && log[i].Finished? && log[j].key == log[i].key
    ensures j <= i && (Run(EMPTY, steps).log[j].Finished? ==> j == i)
  {
    RunKeepsInv(steps);
  }

  /** Every answer, first or replayed, is the one success of that key, given to the same body hash. */
  lemma ReplayIsTheSuccess(steps: Schedule, c: nat)
    requires var s := Run(EMPTY, steps); c in s.callers && (s.callers[c].pc.Replayed? || s.callers[c].pc.Returned?)
    ensures var s := Run(EMPTY, steps); Finished(s.callers[c].key, s.callers[c].hash, s.callers[c].pc.response) in s.log
  {
    RunKeepsInv(steps);
  }

  /** Two answers for one key never differ. */
  lemma AnswersAgree(steps: Schedule, c: nat, d: nat)
    requires var s := Run(EMPTY, steps);
             c in s.callers && d in s.callers && s.callers[c].key == s.callers[d].key &&
             (s.callers[c].pc.Replayed? || s.callers[c].pc.Returned?) && (s.callers[d].pc.Replayed? || s.callers[d].pc.Returned?)
    ensures var s := Run(EMPTY, steps);
            s.callers[c].pc.response == s.callers[d].pc.response && s.callers[c].hash == s.callers[d].hash
  {
    RunKeepsInv(steps);
    var s := Run(EMPTY, steps);
    ReplayIsTheSuccess(steps, c);
    ReplayIsTheSuccess(steps, d);
    var i :| 0 <= i < |s.log| && s.log[i] == Finished(s.callers[c].key, s.callers[c].hash, s.callers[c].pc.response);
    FinishedOnce(s, s.callers[d].key, s.callers[d].hash, s.callers[d].pc.response, i);
  }

  /**
   * While a handler holds a key, nobody else gets in: a caller that arrives is told the request is in
   * flight, or that the key was used for another body; one that read before loses the insert; and
   * neither leaves a trace.
   */
  lemma OthersAreTurnedAway(steps: Schedule, c: nat, d: nat)
    requires var s := Run(EMPTY, steps);
             c in s.callers && d in s.callers && c != d && s.callers[c].key == s.callers[d].key && Holds(s.callers[c])
    ensures var s := Run(EMPTY, steps);
            var s' := Step(s, d, Proceed);
            && (s.callers[d].pc == Arrived ==>
                  s' == s.(callers := s.callers[d := s.callers[d].(pc := if s.callers[d].hash == s.callers[c].hash then InFlight else KeyReused)]))
            && (s.callers[d].pc == Absent ==> s' == s.(callers := s.callers[d := s.callers[d].(pc := InFlight)]))
  {
    RunKeepsInv(steps);
    hide Run, LogOk, SuccessKept, HoldersAfterSuccess, ResponsesOk;
  }

  /** Once a success is stored every later caller is answered from it, or refused for another body. */
  lemma StoredIsReplayed(steps: Schedule, d: nat, i: nat)
    requires var s := Run(EMPTY, steps);
             && d in s.callers && s.callers[d].pc == Arrived && i < |s.log| && s.log[i].Finished? && s.log[i].key == s.callers[d].key
             && s.callers[d].key in s.rows && s.rows[s.callers[d].key].response.Some?
    ensures var s := Run(EMPTY, steps);
            Step(s, d, Proceed) == s.(callers := s.callers[d := s.callers[d].(pc :=
                                     if s.callers[d].hash == s.log[i].hash then Replayed(s.log[i].response) else KeyReused)])
  {
    RunKeepsInv(steps);
    hide Run, LogOk, HoldersOk, HoldersAfterSuccess, ResponsesOk;
  }

  // ---------------------------------------------------------------- the code, for a caller left alone

  /** How the handler ends. */
  datatype Answer = Throws | Returns(response: Response)

  function AloneSteps(c: nat, k: Key, hash: BodyHash, answer: Answer): Schedule {
    [(c, Arrive(k, hash)), (c, Proceed), (c, Proceed), (c, if answer.Throws? then HandlerThrows else HandlerReturns(answer.response)), (c, Proceed)]
  }

  class IdempotencyService {
    var rows: map<Key, Row>

    constructor ()
      ensures rows == map[]
    {
      rows := map[];
    }

    /** `execute` for a caller nobody interleaves with: exactly its own five steps of the protocol. */
    method Execute(k: Key, hash: BodyHash, answer: Answer, ghost s: State, ghost c: nat) returns (outcome: Pc)
      requires s.rows == rows && c !in s.callers
      modifies this`rows
      ensures rows == Run(s, AloneSteps(c, k, hash, answer)).rows
      ensures c in Run(s, AloneSteps(c, k, hash, answer)).callers && outcome == Run(s, AloneSteps(c, k, hash, answer)).callers[c].pc
      ensures outcome == if k in old(rows) then Lookup(s, Caller(k, hash, Arrived)) else if answer.Throws? then Thrown else Returned(answer.response)
    {
      RunFive(s, c, k, hash, answer);
      if k in rows {
        var row := rows[k];
        if row.hash != hash { return KeyReused; }
        if row.response.Some? { return Replayed(row.response.value); }
        return InFlight;
      }
      rows := rows[k := Row(hash, None)];
      if answer.Throws? {
        rows := rows - {k};
        return Thrown;
      }
      rows := rows[k := rows[k].(response := Some(answer.response))];
      return Returned(answer.response);
    }
  }

  /** After a success a repeat with the same body is replayed and one with another body is refused. */
  lemma RetryAfterSuccess(s: State, c: nat, d: nat, k: Key, hash: BodyHash, hash': BodyHash, response: Response, answer: Answer)
    requires k !in s.rows && c !in s.callers && d !in s.callers && c != d
    ensures var first := Run(s, AloneSteps(c, k, hash, Returns(response)));
            var second := Run(first, AloneSteps(d, k, hash', answer));
            && second.rows == first.rows && d in second.callers
            && second.callers[d].pc == if hash' == hash then Replayed(response) else KeyReused
  {
    hide Step, AloneSteps;
    RunFive(s, c, k, hash, Returns(response));
    var first := Run(s, AloneSteps(c, k, hash, Returns(response)));
    AloneCallers(s, c, k, hash, Returns(response), d);
    RunFive(first, d, k, hash', answer);
    hide Run;
  }

  /** After a failure the key is free again: a repeat runs its handler, whatever its body. */
  lemma RetryAfterFailure(s: State, c: nat, d: nat, k: Key, hash: BodyHash, hash': BodyHash, response: Response)
    requires k !in s.rows && c !in s.callers && d !in s.callers && c != d
    ensures var first := Run(s, AloneSteps(c, k, hash, Throws));
            var second := Run(first, AloneSteps(d, k, hash', Returns(response)));
            && d in second.callers && second.callers[d].pc == Returned(response)
            && second.rows == s.rows[k := Row(hash', Some(response))]
  {
    hide Step, AloneSteps;
    RunFive(s, c, k, hash, Throws);
    var first := Run(s, AloneSteps(c, k, hash, Throws));
    AloneCallers(s, c, k, hash, Throws, d);
    RunFive(first, d, k, hash', Returns(response));
    hide Run;
  }

  lemma StepCallers(s: State, c: nat, choice: Choice, d: nat)
    requires d != c
    ensures d in Step(s, c, choice).callers <==> d in s.callers
  {
  }

  lemma AloneCallers(s: State, c: nat, k: Key, hash: BodyHash, answer: Answer, d: nat)
    requires d != c
    ensures d in Run(s, AloneSteps(c, k, hash, answer)).callers <==> d in s.callers
  {
    hide Step;
    RunAlone(s, c, k, hash, answer);
    var handler := if answer.Throws? then HandlerThrows else HandlerReturns(answer.response);
    var s1 := Step(s, c, Arrive(k, hash));
    var s2 := Step(s1, c, Proceed);
    var s3 := Step(s2, c, Proceed);
    var s4 := Step(s3, c, handler);
    StepCallers(s, c, Arrive(k, hash), d);
    StepCallers(s1, c, Proceed, d);
    StepCallers(s2, c, Proceed, d);
    StepCallers(s3, c, handler, d);
    StepCallers(s4, c, Proceed, d);
  }

  lemma RunSnoc(s: State, steps: Schedule, c: nat, choice: Choice)
    ensures Run(s, steps + [(c, choice)]) == Step(Run(s, steps), c, choice)
  {
    assert (steps + [(c, choice)])[..|steps|] == steps;
  }

  lemma RunFive(s: State, c: nat, k: Key, hash: BodyHash, answer: Answer)
    requires c !in s.callers
    ensures var end := Run(s, AloneSteps(c, k, hash, answer));
            && c in end.callers
            && (k in s.rows ==> end.rows == s.rows && end.callers[c].pc == Lookup(s, Caller(k, hash, Arrived)))
            && (k !in s.rows && answer.Throws? ==> end.rows == s.rows && end.callers[c].pc == Thrown)
            && (k !in s.rows && answer.Returns? ==>
                  end.rows == s.rows[k := Row(hash, Some(answer.response))] && end.callers[c].pc == Returned(answer.response))
  {
    RunAlone(s, c, k, hash, answer);
    hide Run, AloneSteps;
    var caller := Caller(k, hash, Arrived);
    var s1 := Step(s, c, Arrive(k, hash));
    assert s1 == s.(callers := s.callers[c := caller]);
    var s2 := Step(s1, c, Proceed);
    assert s2 == Move(s1, c, Lookup(s, caller));
  }

  lemma RunAlone(s: State, c: nat, k: Key, hash: BodyHash, answer: Answer)
    ensures var handler := if answer.Throws? then HandlerThrows else HandlerReturns(answer.response);
            Run(s, AloneSteps(c, k, hash, answer)) ==
            Step(Step(Step(Step(Step(s, c, Arrive(k, hash)), c, Proceed), c, Proceed), c, handler), c, Proceed)
  {
    hide Step;
    var steps := AloneSteps(c, k, hash, answer);
    RunSnoc(s, [], c, Arrive(k, hash));
    RunSnoc(s, steps[..1], c, Proceed);
    RunSnoc(s, steps[..2], c, Proceed);
    RunSnoc(s, steps[..3], c, steps[3].1);
    RunSnoc(s, steps[..4], c, Proceed);
    assert steps[..1] == [] + [(c, Arrive(k, hash))];
    assert steps[..2] == steps[..1] + [steps[1]] && steps[..3] == steps[..2] + [steps[2]];
    assert steps[..4] == steps[..3] + [steps[3]] && steps == steps[..4] + [steps[4]];
  }
}
