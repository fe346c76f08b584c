/** A run of one worker in which the store rejects the reset after a delivery. */
module WebhookInputs {
  import opened Basics
  import opened Webhooks
  import opened WebhooksSolo
  import opened WebhookWorker

  const PATIENT: Config := Config(_ => 5, 50)
  const FIRST: Key := Key(1, 1, 1)
  const SECOND: Key := Key(1, 1, 2)
  const FRESH: State := Lone(map[], map[], Idle, [])

  /** One worker and one enabled endpoint. */
  function Lone(rows: Rows, failures: map<nat, nat>, pc: Pc, sent: seq<Key>): State {
    State(rows, map[1 := true], failures, map[0 := pc], sent)
  }

  lemma Then(s: State, steps: Schedule, choice: Choice) returns (longer: Schedule)
    ensures longer == steps + [(0, choice)] && Run(PATIENT, s, longer) == Step(PATIENT, Run(PATIENT, s, steps), 0, choice)
  {
    hide Step;
    longer := steps + [(0, choice)];
    assert longer[..|longer| - 1] == steps;
  }

  /** From the end of the promotions to the claim of one due row. */
  lemma ToSending(s: State, steps: Schedule, rows: Rows, failures: map<nat, nat>, sent: seq<Key>, k: Key) returns (longer: Schedule)
    requires Run(PATIENT, s, steps) == Lone(rows, failures, Promoting([]), sent) && k in rows && rows[k] == PENDING && k.endpoint == 1
    ensures Run(PATIENT, s, longer) == Lone(rows[k := IN_FLIGHT], failures, Claimed(k, []), sent)
    ensures steps <= longer
  {
    hide Run, Step;
    var c := PATIENT;
    BeginsSending(c, Lone(rows, failures, Promoting([]), sent), [k]);
    longer := Then(s, steps, Query([k]));
    assert [k][1..] == [];
    ReadsDue(c, Lone(rows, failures, Sending([k]), sent), [k]);
    longer := Then(s, longer, Go);
    WritesStatus(c, Lone(rows, failures, Checked(k, []), sent), Checked(k, []));
    longer := Then(s, longer, Go);
  }

  /** Poll one: the event's row is queued, sent and delivered. */
  lemma Delivers() returns (steps: Schedule)
    ensures Run(PATIENT, FRESH, steps) == Lone(map[FIRST := DELIVERED], map[], Resetting(FIRST, []), [FIRST])
  {
    hide Run, Step;
    var c := PATIENT;
    steps := Starts();
    BeginsRecovery(c, FRESH, []);
    steps := Then(FRESH, steps, Query([]));
    BeginsEnqueue(c, Lone(map[], map[], Recovering([]), []), [FIRST]);
    steps := Then(FRESH, steps, Query([FIRST]));
    Enqueues(c, Lone(map[], map[], Enqueueing([FIRST] + []), []), FIRST, []);
    assert [FIRST] + [] == [FIRST];
    steps := Then(FRESH, steps, Go);
    var rows: Rows := map[FIRST := PENDING];
    assert Upsert(map[], FIRST) == rows;
    BeginsPromotion(c, Lone(rows, map[], Enqueueing([]), []), []);
    steps := Then(FRESH, steps, Query([]));
    steps := ToSending(FRESH, steps, rows, map[], [], FIRST);
    assert rows[FIRST := IN_FLIGHT] == map[FIRST := IN_FLIGHT];
    Answers(c, Lone(map[FIRST := IN_FLIGHT], map[], Claimed(FIRST, []), []), FIRST, []);
    steps := Then(FRESH, steps, Http(true));
    assert [] + [FIRST] == [FIRST];
    WritesStatus(c, Lone(map[FIRST := IN_FLIGHT], map[], Answered(FIRST, []), [FIRST]), Answered(FIRST, []));
    steps := Then(FRESH, steps, Go);
    assert map[FIRST := IN_FLIGHT][FIRST := DELIVERED] == map[FIRST := DELIVERED];
  }

  lemma Starts() returns (steps: Schedule)
    ensures Run(PATIENT, FRESH, steps) == FRESH
  {
    steps := [];
  }

  /** The rejected reset closes the delivered row as a failure. */
  lemma Undelivers(steps: Schedule) returns (longer: Schedule)
    requires Run(PATIENT, FRESH, steps) == Lone(map[FIRST := DELIVERED], map[], Resetting(FIRST, []), [FIRST])
    ensures steps <= longer && Run(PATIENT, FRESH, longer) == Lone(map[FIRST := FAILED], map[1 := 1], Idle, [FIRST])
  {
    hide Run, Step;
    var c := PATIENT;
    Rejects(c, Lone(map[FIRST := DELIVERED], map[], Resetting(FIRST, []), [FIRST]), FIRST, []);
    longer := Then(FRESH, steps, WriteFails);
    Counts(c, Lone(map[FIRST := DELIVERED], map[], FailCount(FIRST, ToDue([])), [FIRST]), FIRST, ToDue([]));
    longer := Then(FRESH, longer, Go);
    assert Failing(map[], 1) == map[1 := 1];
    WritesFailure(c, Lone(map[FIRST := DELIVERED], map[1 := 1], FailWrite(FIRST, FAILED, ToDue([])), [FIRST]), FIRST, FAILED, ToDue([]));
    longer := Then(FRESH, longer, Go);
    assert map[FIRST := DELIVERED][FIRST := FAILED] == map[FIRST := FAILED];
    EndsPoll(c, Lone(map[FIRST := FAILED], map[1 := 1], Sending([]), [FIRST]));
    longer := Then(FRESH, longer, Go);
  }

  /** The next poll promotes it and sends the same event to the same endpoint again. */
  lemma SendsAgain(steps: Schedule) returns (longer: Schedule)
    requires Run(PATIENT, FRESH, steps) == Lone(map[FIRST := FAILED], map[1 := 1], Idle, [FIRST])
    ensures steps <= longer && Run(PATIENT, FRESH, longer).sent == [FIRST, SECOND]
  {
    hide Run, Step;
    var c := PATIENT;
    var rows: Rows, f: map<nat, nat> := map[FIRST := FAILED], map[1 := 1];
    BeginsRecovery(c, Lone(rows, f, Idle, [FIRST]), []);
    longer := Then(FRESH, steps, Query([]));
    BeginsEnqueue(c, Lone(rows, f, Recovering([]), [FIRST]), []);
    longer := Then(FRESH, longer, Query([]));
    BeginsPromotion(c, Lone(rows, f, Enqueueing([]), [FIRST]), [FIRST]);
    longer := Then(FRESH, longer, Query([FIRST]));
    NextRetry(c, Lone(rows, f, Promoting([FIRST][0..]), [FIRST]), [FIRST], 0);
    assert [FIRST][0..] == [FIRST] && [FIRST][1..] == [];
    longer := Then(FRESH, longer, Go);
    Promotes(c, Lone(rows, f, PromoteRead(FIRST, true, []), [FIRST]), FIRST, true, []);
    longer := Then(FRESH, longer, Go);
    var both: Rows := map[FIRST := FAILED, SECOND := PENDING];
    assert Upsert(rows, Next(FIRST)) == both;
    longer := ToSending(FRESH, longer, both, f, [FIRST], SECOND);
    Answers(c, Lone(both[SECOND := IN_FLIGHT], f, Claimed(SECOND, []), [FIRST]), SECOND, []);
    longer := Then(FRESH, longer, Http(true));
    assert [FIRST] + [SECOND] == [FIRST, SECOND];
  }

  /** One worker, no crash: a row is recorded as DELIVERED, then as FAILED, and its event is sent a second time. */
  lemma RejectedResetResends()
    ensures exists before, between, after ::
              && before <= between <= after
              && Initial(FRESH) && Solo(FRESH, 0)
              && Run(PATIENT, FRESH, before).rows == map[FIRST := DELIVERED]
              && Run(PATIENT, FRESH, between).rows == map[FIRST := FAILED]
              && Run(PATIENT, FRESH, after).sent == [FIRST, SECOND]
  {
    var before := Delivers();
    var between := Undelivers(before);
    var after := SendsAgain(between);
    hide Run;
  }
}
