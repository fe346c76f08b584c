/**
 * `WebhookDispatcher` (packages/webhooks/src/dispatcher.ts:58-358) as one worker's code. The process
 * dies when `budget`, the number of writes it survives, is used up; a success write may also be
 * rejected. Every method extends a recorded schedule of the protocol in module Webhooks, so each poll
 * cycle, finished or not, is one of its runs.
 */
module WebhookWorker {
  import opened Basics
  import opened Webhooks
  import opened WebhooksSolo

  datatype Event = Event(id: nat, merchant: MerchantId, kind: nat)
  datatype Endpoint = Endpoint(id: nat, merchant: MerchantId, kinds: set<nat>)
  /** Which of the two writes after a successful call the store rejects, if any. */
  datatype Fault = NoFault | RowRejected | ResetRejected
  datatype Answer = Responded(success: bool, fault: Fault) | BlockedUrl
  datatype Sent = Delivered | Failed | Exhausted | Abandoned
  datatype Summary = Summary(delivered: nat, failed: nat, exhausted: nat, abandoned: nat)

  /** The call succeeded and both writes after it went through. */
  predicate Accepted(answer: Answer) {
    answer == Responded(true, NoFault)
  }

  /** `findMany`: the first n rows in creation order with the status, among those the clock makes ready. */
  function Select(rows: Rows, order: seq<Key>, status: Status, ready: set<Key>, n: nat): (keys: seq<Key>)
    ensures |keys| <= n
    decreases |order|
  {
    if order == [] then []
    else
      var init := order[..|order| - 1];
      var last := order[|order| - 1];
      var keys := Select(rows, init, status, ready, n);
      if |keys| < n && last in rows && rows[last] == status && last in ready then keys + [last] else keys
  }

  lemma {:induction false} SelectMeaning(rows: Rows, order: seq<Key>, status: Status, ready: set<Key>, n: nat)
    requires Distinct(order)
    ensures var keys := Select(rows, order, status, ready, n);
            && Distinct(keys) && AllStatus(rows, keys, status)
            && (forall k :: k in keys ==> k in order && k in ready)
            && (|keys| < n ==> forall k :: k in order && k in rows && rows[k] == status && k in ready ==> k in keys)
            && forall i, j :: 0 <= i < j < |order| && order[j] in keys && order[i] in rows && rows[order[i]] == status && order[i] in ready ==>
                 order[i] in keys
    decreases |order|
  {
    if order != [] {
      SelectMeaning(rows, order[..|order| - 1], status, ready, n);
      assert order == order[..|order| - 1] + [order[|order| - 1]];
    }
  }

  /** The insertion order names every row once. */
  ghost predicate Lists(order: seq<Key>, rows: Rows) {
    Distinct(order) && forall k :: k in order <==> k in rows
  }

  lemma SameKeys(order: seq<Key>, rows: Rows, rows': Rows)
    requires Lists(order, rows) && rows'.Keys == rows.Keys
    ensures Lists(order, rows')
  {
    assert forall k :: k in rows' <==> k in rows'.Keys;
  }

  lemma NewKey(order: seq<Key>, rows: Rows, k: Key)
    requires Lists(order, rows)
    ensures Lists(if k in rows then order else order + [k], Upsert(rows, k))
  {
  }

  lemma EvolvesSame(rows: Rows)
    ensures Evolves(rows, rows)
  {
  }

  lemma EvolvesBySet(rows: Rows, k: Key, status: Status)
    requires status != PENDING
    ensures Evolves(rows, rows[k := status])
  {
  }

  lemma EvolvesBySweep(rows: Rows, endpoint: nat)
    ensures Evolves(rows, AbandonPending(rows, endpoint))
  {
  }

  /** Every other row is as it was, or was pending and given up with its endpoint. */
  ghost predicate OthersKept(before: Rows, after: Rows, k: Key) {
    forall j :: j in before && j != k ==> j in after && (after[j] == before[j] || (before[j] == PENDING && after[j] == ABANDONED))
  }

  lemma KeptSame(rows: Rows, k: Key)
    ensures OthersKept(rows, rows, k)
  {
  }

  lemma KeptBySet(rows: Rows, k: Key, status: Status)
    ensures OthersKept(rows, rows[k := status], k)
  {
  }

  lemma KeptTwice(a: Rows, b: Rows, c: Rows, k: Key)
    requires OthersKept(a, b, k) && OthersKept(b, c, k)
    ensures OthersKept(a, c, k)
  {
  }

  /** How many of the listed rows have the status. */
  function StatusCount(rows: Rows, keys: seq<Key>, status: Status): nat {
    if keys == [] then 0
    else
      var k := keys[|keys| - 1];
      StatusCount(rows, keys[..|keys| - 1], status) + if k in rows && rows[k] == status then 1 else 0
  }

  lemma {:induction false} CountElsewhere(before: Rows, after: Rows, keys: seq<Key>, k: Key, status: Status)
    requires OthersKept(before, after, k) && k !in keys && (forall j :: j in keys ==> j in before) && status != PENDING && status != ABANDONED
    ensures StatusCount(after, keys, status) == StatusCount(before, keys, status)
  {
    if keys != [] {
      assert keys[|keys| - 1] in keys;
      CountElsewhere(before, after, keys[..|keys| - 1], k, status);
    }
  }

  lemma CountOneMore(before: Rows, after: Rows, due: seq<Key>, i: nat, status: Status)
    requires i < |due| && Distinct(due) && OthersKept(before, after, due[i]) && (forall j :: j in due ==> j in before)
    requires status != PENDING && status != ABANDONED
    ensures StatusCount(after, due[..i + 1], status) ==
            StatusCount(before, due[..i], status) + if due[i] in after && after[due[i]] == status then 1 else 0
  {
    assert due[..i + 1][..i] == due[..i];
    CountElsewhere(before, after, due[..i], due[i], status);
  }

  /** The answer names the status the row was left with. */
  predicate NamesStatus(result: Option<Sent>, status: Status) {
    && (status == DELIVERED <==> result == Some(Delivered))
    && (status == FAILED <==> result == Some(Failed))
    && (status == EXHAUSTED <==> result == Some(Exhausted))
  }

  lemma NamesDelivered()
    ensures NamesStatus(Some(Delivered), DELIVERED)
  {
  }

  /** The counters say how the listed rows ended. */
  ghost predicate Tallied(rows: Rows, keys: seq<Key>, summary: Summary) {
    && summary.delivered == StatusCount(rows, keys, DELIVERED)
    && summary.failed == StatusCount(rows, keys, FAILED)
    && summary.exhausted == StatusCount(rows, keys, EXHAUSTED)
  }

  lemma NothingTallied(rows: Rows)
    ensures Tallied(rows, [], Summary(0, 0, 0, 0))
  {
  }

  lemma TalliedOneMore(before: Rows, after: Rows, due: seq<Key>, i: nat, summary: Summary, result: Option<Sent>)
    requires i < |due| && Distinct(due) && OthersKept(before, after, due[i]) && (forall j :: j in due ==> j in before)
    requires Tallied(before, due[..i], summary) && due[i] in after && NamesStatus(result, after[due[i]])
    ensures Tallied(after, due[..i + 1], Tally(summary, result))
  {
    hide StatusCount, OthersKept, Distinct;
    CountOneMore(before, after, due, i, DELIVERED);
    CountOneMore(before, after, due, i, FAILED);
    CountOneMore(before, after, due, i, EXHAUSTED);
  }

  /** Rows the sending phase has not come to: still pending, or given up with their endpoint. */
  ghost predicate Untried(rows: Rows, due: seq<Key>, i: nat) {
    forall j :: i <= j < |due| ==> due[j] in rows && (rows[due[j]] == PENDING || rows[due[j]] == ABANDONED)
  }

  lemma UntriedStays(before: Rows, after: Rows, due: seq<Key>, i: nat)
    requires i < |due| && Distinct(due) && OthersKept(before, after, due[i]) && Untried(before, due, i)
    ensures Untried(after, due, i + 1)
  {
  }

  lemma EvolvesTwice(a: Rows, b: Rows, c: Rows)
    requires Evolves(a, b) && Evolves(b, c)
    ensures Evolves(a, c)
  {
  }

  predicate Subscribed(endpoint: Endpoint, event: Event, enabled: map<nat, bool>) {
    && endpoint.merchant == event.merchant
    && endpoint.id in enabled && enabled[endpoint.id]
    && (endpoint.kinds == {} || event.kind in endpoint.kinds)
  }

  /** The attempt-1 keys one event fans out to, from endpoint j on. */
  function Targets(event: Event, endpoints: seq<Endpoint>, enabled: map<nat, bool>, j: nat): (keys: seq<Key>)
    requires j <= |endpoints|
    ensures FirstAttempts(keys)
    decreases |endpoints| - j
  {
    if j == |endpoints| then []
    else
      var rest := Targets(event, endpoints, enabled, j + 1);
      if Subscribed(endpoints[j], event, enabled) then [Key(event.id, endpoints[j].id, 1)] + rest else rest
  }

  function AllTargets(events: seq<Event>, endpoints: seq<Endpoint>, enabled: map<nat, bool>): (keys: seq<Key>)
    ensures FirstAttempts(keys)
  {
    if events == [] then [] else Targets(events[0], endpoints, enabled, 0) + AllTargets(events[1..], endpoints, enabled)
  }

  /** No delivery row yet, and the merchant has an enabled endpoint. */
  predicate Waiting(event: Event, rows: Rows, endpoints: seq<Endpoint>, enabled: map<nat, bool>) {
    && (forall k :: k in rows ==> k.event != event.id)
    && exists i :: 0 <= i < |endpoints| && endpoints[i].merchant == event.merchant &&
                   endpoints[i].id in enabled && enabled[endpoints[i].id]
  }

  function Unfanned(events: seq<Event>, rows: Rows, endpoints: seq<Endpoint>, enabled: map<nat, bool>, n: nat): (r: seq<Event>)
    ensures |r| <= n
    decreases |events|
  {
    if events == [] then []
    else
      var init := events[..|events| - 1];
      var r := Unfanned(init, rows, endpoints, enabled, n);
      var last := events[|events| - 1];
      if |r| < n && Waiting(last, rows, endpoints, enabled) then r + [last] else r
  }

  // ---------------------------------------------------------------- what a poll owes to new events

  predicate On(enabled: map<nat, bool>, endpoint: nat) {
    endpoint in enabled && enabled[endpoint]
  }

  /** The endpoint is the event's merchant's, and takes its kind; no list of kinds means all of them. */
  predicate Takes(endpoint: Endpoint, event: Event) {
    endpoint.merchant == event.merchant && (endpoint.kinds == {} || event.kind in endpoint.kinds)
  }

  /** No delivery of the event exists, and its merchant has an endpoint that is on. */
  ghost predicate IsNew(event: Event, rows: Rows, endpoints: seq<Endpoint>, enabled: map<nat, bool>) {
    && (forall k :: k in rows ==> k.event != event.id)
    && exists endpoint :: endpoint in endpoints && endpoint.merchant == event.merchant && On(enabled, endpoint.id)
  }

  ghost function NewBefore(events: seq<Event>, i: nat, rows: Rows, endpoints: seq<Endpoint>, enabled: map<nat, bool>): set<nat>
    requires i <= |events|
  {
    set j: nat | j < i && IsNew(events[j], rows, endpoints, enabled)
  }

  /** The event is new and fewer than n new ones come before it. */
  ghost predicate HasTurn(events: seq<Event>, i: nat, rows: Rows, endpoints: seq<Endpoint>, enabled: map<nat, bool>, n: nat) {
    i < |events| && IsNew(events[i], rows, endpoints, enabled) && |NewBefore(events, i, rows, endpoints, enabled)| < n
  }

  /** The key is the first attempt of an event whose turn it is, at an endpoint that is on and takes it. */
  ghost predicate Owed(events: seq<Event>, rows: Rows, endpoints: seq<Endpoint>, enabled: map<nat, bool>, n: nat, k: Key) {
    exists i: nat, endpoint :: HasTurn(events, i, rows, endpoints, enabled, n) && endpoint in endpoints && On(enabled, endpoint.id)
                               && Takes(endpoint, events[i]) && k == Key(events[i].id, endpoint.id, 1)
  }

  /** Exactly the owed rows were added, each PENDING; no row was changed. */
  ghost predicate FannedOut(events: seq<Event>, endpoints: seq<Endpoint>, enabled: map<nat, bool>, n: nat, before: Rows, after: Rows) {
    && Grows(before, after)
    && (forall k :: k in after && k !in before <==> Owed(events, before, endpoints, enabled, n, k))
    && forall k :: k in after && k !in before ==> after[k] == PENDING
  }

  lemma WaitingIsNew(event: Event, rows: Rows, endpoints: seq<Endpoint>, enabled: map<nat, bool>)
    ensures Waiting(event, rows, endpoints, enabled) <==> IsNew(event, rows, endpoints, enabled)
  {
    if IsNew(event, rows, endpoints, enabled) {
      var endpoint :| endpoint in endpoints && endpoint.merchant == event.merchant && On(enabled, endpoint.id);
      var i :| 0 <= i < |endpoints| && endpoints[i] == endpoint;
    }
  }

  lemma NewBeforeNext(events: seq<Event>, i: nat, rows: Rows, endpoints: seq<Endpoint>, enabled: map<nat, bool>)
    requires i < |events|
    ensures |NewBefore(events, i + 1, rows, endpoints, enabled)| ==
            |NewBefore(events, i, rows, endpoints, enabled)| + if IsNew(events[i], rows, endpoints, enabled) then 1 else 0
  {
    hide IsNew;
    var before := NewBefore(events, i, rows, endpoints, enabled);
    assert NewBefore(events, i + 1, rows, endpoints, enabled) == if IsNew(events[i], rows, endpoints, enabled) then before + {i} else before;
  }

  lemma NewBeforePrefix(events: seq<Event>, n: nat, i: nat, rows: Rows, endpoints: seq<Endpoint>, enabled: map<nat, bool>)
    requires i <= n <= |events|
    ensures NewBefore(events[..n], i, rows, endpoints, enabled) == NewBefore(events, i, rows, endpoints, enabled)
  {
    hide IsNew;
  }

  /** The query's answer: in their order, exactly the new events among whose predecessors fewer than n are new. */
  lemma {:induction false} UnfannedMeaning(events: seq<Event>, rows: Rows, endpoints: seq<Endpoint>, enabled: map<nat, bool>, n: nat) returns (places: seq<nat>)
    ensures var r := Unfanned(events, rows, endpoints, enabled, n);
            && |places| == |r| && (forall a, b :: 0 <= a < b < |places| ==> places[a] < places[b])
            && (forall a :: 0 <= a < |places| ==> places[a] < |events| && r[a] == events[places[a]])
            && (forall i: nat :: i in places <==> HasTurn(events, i, rows, endpoints, enabled, n))
            && |r| == (if |NewBefore(events, |events|, rows, endpoints, enabled)| < n then |NewBefore(events, |events|, rows, endpoints, enabled)| else n)
    decreases |events|
  {
    hide IsNew, Waiting;
    if events == [] {
      places := [];
      assert NewBefore(events, 0, rows, endpoints, enabled) == {};
    } else {
      var m := |events| - 1;
      var init, last := events[..m], events[m];
      places := UnfannedMeaning(init, rows, endpoints, enabled, n);
      var before := places;
      WaitingIsNew(last, rows, endpoints, enabled);
      NewBeforeNext(events, m, rows, endpoints, enabled);
      NewBeforePrefix(events, m, m, rows, endpoints, enabled);
      if HasTurn(events, m, rows, endpoints, enabled, n) { places := places + [m]; }
      forall i: nat ensures i in places <==> HasTurn(events, i, rows, endpoints, enabled, n) {
        if i < m { NewBeforePrefix(events, m, i, rows, endpoints, enabled); }
        assert i in before <==> HasTurn(init, i, rows, endpoints, enabled, n);
      }
    }
  }

  /** Rows were added for these keys only, each PENDING. */
  ghost predicate AddedOnly(before: Rows, after: Rows, keys: seq<Key>) {
    forall k :: k in after && k !in before ==> k in keys && after[k] == PENDING
  }

  lemma AddedNone(rows: Rows)
    ensures AddedOnly(rows, rows, [])
  {
  }

  lemma AddedMore(a: Rows, b: Rows, c: Rows, keys: seq<Key>, more: seq<Key>)
    requires AddedOnly(a, b, keys) && AddedOnly(b, c, more) && Grows(b, c)
    ensures AddedOnly(a, c, keys + more)
  {
  }

  lemma {:induction false} AllTargetsAre(chosen: seq<Event>, endpoints: seq<Endpoint>, enabled: map<nat, bool>, k: Key)
    ensures k in AllTargets(chosen, endpoints, enabled) <==>
            exists a, endpoint :: 0 <= a < |chosen| && endpoint in endpoints && On(enabled, endpoint.id)
                                  && Takes(endpoint, chosen[a]) && k == Key(chosen[a].id, endpoint.id, 1)
    decreases |chosen|
  {
    hide On, Takes;
    if chosen != [] {
      TargetsAre(chosen[0], endpoints, enabled, k);
      AllTargetsAre(chosen[1..], endpoints, enabled, k);
      assert forall a :: 0 < a < |chosen| ==> chosen[a] == chosen[1..][a - 1];
      hide AllTargets, Targets;
      assert AllTargets(chosen, endpoints, enabled) == Targets(chosen[0], endpoints, enabled, 0) + AllTargets(chosen[1..], endpoints, enabled) by { AllTargetsFirst(chosen, endpoints, enabled); }
      if k in AllTargets(chosen[1..], endpoints, enabled) {
        var a, endpoint :| 0 <= a < |chosen[1..]| && endpoint in endpoints && On(enabled, endpoint.id) && Takes(endpoint, chosen[1..][a]) && k == Key(chosen[1..][a].id, endpoint.id, 1);
        assert chosen[a + 1] == chosen[1..][a];
      }
    }
  }

  lemma AllTargetsFirst(chosen: seq<Event>, endpoints: seq<Endpoint>, enabled: map<nat, bool>)
    requires chosen != []
    ensures AllTargets(chosen, endpoints, enabled) == Targets(chosen[0], endpoints, enabled, 0) + AllTargets(chosen[1..], endpoints, enabled)
  {
  }

  lemma TargetsAre(event: Event, endpoints: seq<Endpoint>, enabled: map<nat, bool>, k: Key)
    ensures k in Targets(event, endpoints, enabled, 0) <==>
            exists endpoint :: endpoint in endpoints && On(enabled, endpoint.id) && Takes(endpoint, event) && k == Key(event.id, endpoint.id, 1)
  {
    TargetsExactly(event, endpoints, enabled, 0, k);
    hide Targets;
    if endpoint :| endpoint in endpoints && On(enabled, endpoint.id) && Takes(endpoint, event) && k == Key(event.id, endpoint.id, 1) {
      var i :| 0 <= i < |endpoints| && endpoints[i] == endpoint;
      assert Subscribed(endpoints[i], event, enabled);
    }
  }

  lemma OwedAre(events: seq<Event>, rows: Rows, endpoints: seq<Endpoint>, enabled: map<nat, bool>, n: nat, k: Key)
    ensures k in AllTargets(Unfanned(events, rows, endpoints, enabled, n), endpoints, enabled) <==> Owed(events, rows, endpoints, enabled, n, k)
    ensures Owed(events, rows, endpoints, enabled, n, k) ==> k !in rows
  {
    hide AllTargets, Unfanned, On, Takes, HasTurn;
    var r := Unfanned(events, rows, endpoints, enabled, n);
    var places := UnfannedMeaning(events, rows, endpoints, enabled, n);
    AllTargetsAre(r, endpoints, enabled, k);
    if k in AllTargets(r, endpoints, enabled) {
      var a, endpoint :| 0 <= a < |r| && endpoint in endpoints && On(enabled, endpoint.id) && Takes(endpoint, r[a]) && k == Key(r[a].id, endpoint.id, 1);
      assert places[a] in places && HasTurn(events, places[a], rows, endpoints, enabled, n);
    }
    if Owed(events, rows, endpoints, enabled, n, k) {
      var i: nat, endpoint :| HasTurn(events, i, rows, endpoints, enabled, n) && endpoint in endpoints && On(enabled, endpoint.id)
                              && Takes(endpoint, events[i]) && k == Key(events[i].id, endpoint.id, 1);
      assert i in places;
      var a :| 0 <= a < |places| && places[a] == i;
      assert r[a] == events[i];
      NoRowYet(events, i, rows, endpoints, enabled, n, k);
    }
  }

  lemma NoRowYet(events: seq<Event>, i: nat, rows: Rows, endpoints: seq<Endpoint>, enabled: map<nat, bool>, n: nat, k: Key)
    requires HasTurn(events, i, rows, endpoints, enabled, n) && k.event == events[i].id
    ensures k !in rows
  {
  }

  lemma FansOut(events: seq<Event>, endpoints: seq<Endpoint>, enabled: map<nat, bool>, n: nat, before: Rows, after: Rows)
    requires var targets := AllTargets(Unfanned(events, before, endpoints, enabled, n), endpoints, enabled);
             Grows(before, after) && AllPresent(after, targets) && AddedOnly(before, after, targets)
    ensures FannedOut(events, endpoints, enabled, n, before, after)
  {
    hide AllTargets, Unfanned, Owed, Grows;
    forall k ensures k in after && k !in before <==> Owed(events, before, endpoints, enabled, n, k) { OwedAre(events, before, endpoints, enabled, n, k); }
  }

  // ---------------------------------------------------------------- what a poll owes to due retries

  /** Each retry was given up if its endpoint is off, else queued as the next attempt; nothing else happened. */
  ghost predicate PromotedExactly(before: Rows, after: Rows, enabled: map<nat, bool>, due: seq<Key>) {
    && (forall k :: k in before ==> k in after && after[k] == if k in due && !On(enabled, k.endpoint) then ABANDONED else before[k])
    && (forall k :: k in after && k !in before <==> k !in before && exists d :: d in due && On(enabled, d.endpoint) && k == Next(d))
    && forall k :: k in after && k !in before ==> after[k] == PENDING
  }

  lemma PromotedNothing(rows: Rows, enabled: map<nat, bool>)
    ensures PromotedExactly(rows, rows, enabled, [])
  {
  }

  lemma PromotedNext(before: Rows, rows: Rows, enabled: map<nat, bool>, done: seq<Key>, k: Key)
    requires PromotedExactly(before, rows, enabled, done) && k in before
    ensures PromotedExactly(before, if On(enabled, k.endpoint) then Upsert(rows, Next(k)) else rows[k := ABANDONED], enabled, done + [k])
  {
    hide On;
  }

  // ---------------------------------------------------------------- what a failed attempt leaves

  /**
   * The endpoint's run of failures is one longer. With no attempts left the row is EXHAUSTED; otherwise
   * it is FAILED, or, if the run is long enough, the endpoint goes off and the row is ABANDONED with all
   * that were still PENDING for it.
   */
  ghost predicate AttemptFailed(c: Config, k: Key, rows: Rows, rows': Rows, enabled: map<nat, bool>, enabled': map<nat, bool>, failures: map<nat, nat>, failures': map<nat, nat>) {
    var inARow := 1 + if k.endpoint in failures then failures[k.endpoint] else 0;
    var spent := k.attempt >= c.maxAttempts(k.endpoint);
    var off := !spent && inARow >= c.disableAfter;
    && failures' == failures[k.endpoint := inARow]
    && enabled' == (if off then enabled[k.endpoint := false] else enabled)
    && rows'.Keys == rows.Keys
    && forall j :: j in rows ==>
         rows'[j] == if j == k then (if spent then EXHAUSTED else if off then ABANDONED else FAILED)
                     else if off && j.endpoint == k.endpoint && rows[j] == PENDING then ABANDONED else rows[j]
  }

  lemma FailsAttempt(c: Config, k: Key, rows: Rows, enabled: map<nat, bool>, failures: map<nat, nat>)
    requires k in rows
    ensures var off := Disables(c, failures, k);
            AttemptFailed(c, k, rows, (if off then AbandonPending(rows, k.endpoint) else rows)[k := FailureStatus(c, k, off)],
                          enabled, if off then enabled[k.endpoint := false] else enabled, failures, Failing(failures, k.endpoint))
  {
  }

  lemma FailedKeeps(c: Config, k: Key, rows: Rows, rows': Rows, enabled: map<nat, bool>, enabled': map<nat, bool>, failures: map<nat, nat>, failures': map<nat, nat>)
    requires AttemptFailed(c, k, rows, rows', enabled, enabled', failures, failures') && k in rows
    ensures OthersKept(rows, rows', k) && rows'[k] != PENDING
  {
  }

  /** The claimed row's own status does not matter for what its failure leaves. */
  lemma FailsClaimed(c: Config, k: Key, before: Rows, rows: Rows, rows': Rows, enabled: map<nat, bool>, enabled': map<nat, bool>, failures: map<nat, nat>, failures': map<nat, nat>)
    requires k in before && rows.Keys == before.Keys && (forall j :: j in before && j != k ==> rows[j] == before[j])
    requires AttemptFailed(c, k, rows, rows', enabled, enabled', failures, failures')
    ensures AttemptFailed(c, k, before, rows', enabled, enabled', failures, failures')
  {
    assert forall j :: j in rows <==> j in rows.Keys;
  }

  class WebhookDispatcher {
    const config: Config
    const batchSize: nat
    const endpoints: seq<Endpoint>
    var rows: Rows
    var order: seq<Key>
    var enabled: map<nat, bool>
    var failures: map<nat, nat>
    var bulkAbandoned: nat
    var budget: nat
    ghost var sent: seq<Key>
    ghost var pc: Pc
    ghost var origin: State
    ghost var trace: Schedule

    ghost function Current(): State
      reads this`rows, this`enabled, this`failures, this`sent, this`pc
    {
      State(rows, enabled, failures, map[0 := pc], sent)
    }

    /** The present state is where the recorded schedule leads; `order` lists the rows once each. */
    ghost predicate Valid()
      reads this`rows, this`order, this`enabled, this`failures, this`sent, this`pc, this`origin, this`trace
    {
      && Initial(origin) && Solo(origin, 0) && Run(config, origin, trace) == Current()
      && Lists(order, rows)
    }

    constructor (config: Config, batchSize: nat, endpoints: seq<Endpoint>, enabled: map<nat, bool>, budget: nat)
      ensures Valid() && rows == map[] && pc == Idle && this.budget == budget
      ensures this.config == config && this.batchSize == batchSize && this.endpoints == endpoints && this.enabled == enabled
    {
      this.config, this.batchSize, this.endpoints := config, batchSize, endpoints;
      rows, order, this.enabled, failures, bulkAbandoned := map[], [], enabled, map[], 0;
      this.budget := budget;
      sent, pc, trace := [], Idle, [];
      origin := State(map[], enabled, map[], map[0 := Idle], []);
    }

    /** Record the step just taken: it led from `before` to the present rows and the position `next`. */
    ghost method Log(before: State, choice: Choice, next: Pc)
      requires Run(config, origin, trace) == before
      requires Step(config, before, 0, choice) == State(rows, enabled, failures, map[0 := next], sent)
      modifies this`trace, this`pc
      ensures pc == next && Run(config, origin, trace) == Current()
    {
      hide Step;
      trace := trace + [(0, choice)];
      assert trace[..|trace| - 1] == old(trace);
      pc := next;
    }

    /** Whether the process lives to make its next write. */
    method Survives() returns (alive: bool)
      requires Valid()
      modifies this`budget, this`trace, this`pc
      ensures Valid() && alive == (old(budget) > 0)
      ensures alive ==> pc == old(pc) && budget == old(budget) - 1
      ensures !alive ==> pc == Idle
    {
      hide Run;
      alive := budget > 0;
      if alive {
        budget := budget - 1;
      } else {
        Crashes(config, Current());
        Log(Current(), Crash, Idle);
      }
    }

    method FinalizeFailure(k: Key, ghost resume: Resume) returns (alive: bool, result: Sent)
      requires Valid() && pc == FailCount(k, resume) && k in rows
      modifies this`rows, this`enabled, this`failures, this`bulkAbandoned, this`budget, this`trace, this`pc
      ensures Valid()
      ensures rows.Keys == old(rows).Keys && Evolves(old(rows), rows)
      ensures !alive ==> pc == Idle
      ensures alive ==> pc == Back(resume)
      ensures alive ==> AttemptFailed(config, k, old(rows), rows, old(enabled), enabled, old(failures), failures)
      ensures alive ==> var off := Disables(config, old(failures), k);
                        && rows == (if off then AbandonPending(old(rows), k.endpoint) else old(rows))[k := FailureStatus(config, k, off)]
                        && result == (match FailureStatus(config, k, off) case FAILED => Failed case EXHAUSTED => Exhausted case _ => Abandoned)
                        && NamesStatus(Some(result), FailureStatus(config, k, off))
    {
      hide Valid, AbandonPending, Evolves, FailureStatus, AttemptFailed;
      EvolvesSame(rows);
      FailsAttempt(config, k, rows, enabled, failures);
      result := Failed;
      alive := CountFailure(k, resume);
      if !alive { return; }
      var exhausted := k.attempt >= config.maxAttempts(k.endpoint);
      var shouldDisable := !exhausted && failures[k.endpoint] >= config.disableAfter;
      StatusAfterFailure(config, k, shouldDisable);
      if shouldDisable {
        alive := DisableEndpoint(k, resume);
        if !alive { return; }
      }
      ghost var swept := rows;
      var status := if exhausted then EXHAUSTED else if shouldDisable then ABANDONED else FAILED;
      alive := WriteFailure(k, status, resume);
      EvolvesTwice(old(rows), swept, rows);
      result := if status == FAILED then Failed else if status == EXHAUSTED then Exhausted else Abandoned;
    }

    method CountFailure(k: Key, ghost resume: Resume) returns (alive: bool)
      requires Valid() && pc == FailCount(k, resume)
      modifies this`failures, this`budget, this`trace, this`pc
      ensures Valid()
      ensures alive ==> failures == Failing(old(failures), k.endpoint) && pc == AfterCount(config, failures, k, resume)
      ensures !alive ==> pc == Idle
    {
      hide Run, Step, Lists, Initial;
      alive := Survives();
      if !alive { return; }
      ghost var s := Current();
      failures := Failing(failures, k.endpoint);
      Counts(config, s, k, resume);
      Log(s, Go, AfterCount(config, failures, k, resume));
    }

    method WriteFailure(k: Key, status: Status, ghost resume: Resume) returns (alive: bool)
      requires Valid() && pc == FailWrite(k, status, resume) && k in rows && status != PENDING
      modifies this`rows, this`budget, this`trace, this`pc
      ensures Valid() && rows == (if alive then old(rows)[k := status] else old(rows)) && Evolves(old(rows), rows)
      ensures pc == (if alive then Back(resume) else Idle)
    {
      hide Run, Step, Lists, Initial, Evolves;
      EvolvesSame(rows);
      EvolvesBySet(rows, k, status);
      alive := Survives();
      if !alive { return; }
      ghost var s := Current();
      rows := rows[k := status];
      SameKeys(order, s.rows, rows);
      WritesFailure(config, s, k, status, resume);
      Log(s, Go, Back(resume));
    }

    /** The endpoint goes off and its other queued rows with it. */
    method DisableEndpoint(k: Key, ghost resume: Resume) returns (alive: bool)
      requires Valid() && pc == FailDisable(k, resume) && k.attempt < config.maxAttempts(k.endpoint)
      modifies this`enabled, this`rows, this`bulkAbandoned, this`budget, this`trace, this`pc
      ensures Valid() && rows.Keys == old(rows).Keys && Evolves(old(rows), rows)
      ensures !alive ==> pc == Idle
      ensures alive ==> pc == FailWrite(k, ABANDONED, resume)
      ensures alive ==> enabled == old(enabled)[k.endpoint := false] && rows == AbandonPending(old(rows), k.endpoint)
      ensures alive ==> bulkAbandoned == old(bulkAbandoned) + PendingCount(old(rows), k.endpoint)
    {
      hide Valid, PendingCount, AbandonPending, Evolves;
      EvolvesSame(rows);
      alive := TurnOff(k, resume);
      if !alive { return; }
      bulkAbandoned := bulkAbandoned + PendingCount(rows, k.endpoint);
      alive := SweepPending(k, resume);
    }

    method TurnOff(k: Key, ghost resume: Resume) returns (alive: bool)
      requires Valid() && pc == FailDisable(k, resume)
      modifies this`enabled, this`budget, this`trace, this`pc
      ensures Valid() && enabled == (if alive then old(enabled)[k.endpoint := false] else old(enabled))
      ensures pc == (if alive then FailSweep(k, resume) else Idle)
    {
      hide Run, Step, Lists, Initial;
      alive := Survives();
      if !alive { return; }
      ghost var s := Current();
      enabled := enabled[k.endpoint := false];
      DisablesEndpoint(config, s, k, resume);
      Log(s, Go, FailSweep(k, resume));
    }

    method SweepPending(k: Key, ghost resume: Resume) returns (alive: bool)
      requires Valid() && pc == FailSweep(k, resume) && k.attempt < config.maxAttempts(k.endpoint)
      modifies this`rows, this`budget, this`trace, this`pc
      ensures Valid() && rows.Keys == old(rows).Keys && Evolves(old(rows), rows)
      ensures rows == (if alive then AbandonPending(old(rows), k.endpoint) else old(rows))
      ensures pc == (if alive then FailWrite(k, ABANDONED, resume) else Idle)
    {
      hide Run, Step, Lists, Initial, AbandonPending, Evolves;
      EvolvesSame(rows);
      EvolvesBySweep(rows, k.endpoint);
      alive := Survives();
      if !alive { return; }
      ghost var s := Current();
      rows := AbandonPending(rows, k.endpoint);
      SameKeys(order, s.rows, rows);
      Sweeps(config, s, k, resume);
      Log(s, Go, FailWrite(k, ABANDONED, resume));
    }

    method AttemptDelivery(k: Key, answer: Answer, ghost due: seq<Key>) returns (alive: bool, result: Option<Sent>)
      requires Valid() && due != [] && due[0] == k && pc == Sending(due)
      modifies this`rows, this`enabled, this`failures, this`bulkAbandoned, this`budget, this`sent, this`trace, this`pc
      ensures Valid() && Evolves(old(rows), rows) && rows.Keys == old(rows).Keys
      ensures !alive ==> pc == Idle
      ensures alive ==> pc == Sending(due[1..])
      ensures k in old(rows) && alive ==> rows[k] != PENDING
      ensures alive ==> OthersKept(old(rows), rows, k)
      ensures alive && k in old(rows) && (old(rows)[k] == PENDING || old(rows)[k] == ABANDONED) ==> NamesStatus(result, rows[k])
      ensures alive ==> (result == None <==> !(k in old(rows) && old(rows)[k] == PENDING))
      ensures alive && result == None ==> rows == old(rows) && sent == old(sent) && enabled == old(enabled)
      ensures alive && result.Some? && !(k.endpoint in old(enabled) && old(enabled)[k.endpoint]) ==>
                result == Some(Abandoned) && rows == old(rows)[k := ABANDONED] && sent == old(sent)
      ensures alive && result.Some? && k.endpoint in old(enabled) && old(enabled)[k.endpoint] ==>
                && sent == (if answer.Responded? then old(sent) + [k] else old(sent))
                && (Accepted(answer) ==> result == Some(Delivered) && rows == old(rows)[k := DELIVERED] && failures == old(failures)[k.endpoint := 0])
                && (!Accepted(answer) ==> AttemptFailed(config, k, old(rows), rows, old(enabled), enabled, old(failures), failures))
    {
      hide Valid, AbandonPending, FailureStatus, Disables, Evolves, OthersKept, AttemptFailed;
      KeptBySet(rows, k, ABANDONED);
      KeptBySet(rows, k, IN_FLIGHT);
      KeptSame(rows, k);
      EvolvesSame(rows);
      EvolvesBySet(rows, k, ABANDONED);
      EvolvesBySet(rows, k, IN_FLIGHT);
      result := None;
      ReadRow(k, due);
      if k !in rows || rows[k] != PENDING {
        return true, None;
      }
      if k.endpoint !in enabled || !enabled[k.endpoint] {
        alive := WriteStatus(k, ABANDONED);
        return alive, Some(Abandoned);
      }
      alive := WriteStatus(k, IN_FLIGHT);
      if !alive { return; }
      ghost var claimed := rows;
      alive, result := Deliver(k, answer, due[1..]);
      EvolvesTwice(old(rows), claimed, rows);
      if alive { KeptTwice(old(rows), claimed, rows, k); }
      if alive && !Accepted(answer) { FailsClaimed(config, k, old(rows), claimed, rows, old(enabled), enabled, old(failures), failures); }
    }

    ghost method ReadRow(k: Key, due: seq<Key>)
      requires Valid() && due != [] && due[0] == k && pc == Sending(due)
      modifies this`trace, this`pc
      ensures Valid()
      ensures pc == if k !in rows || rows[k] != PENDING then Sending(due[1..])
                    else if k.endpoint !in enabled || !enabled[k.endpoint] then Giving(k, due[1..])
                    else Checked(k, due[1..])
    {
      hide Run, Step, Lists, Initial;
      var s := Current();
      ReadsDue(config, s, due);
      Log(s, Go, Step(config, s, 0, Go).workers[0]);
    }

    /** One status write by the worker, from the position that makes it to the next. */
    method WriteStatus(k: Key, status: Status) returns (alive: bool)
      requires Valid() && k in rows
      requires (pc.Giving? && status == ABANDONED) || (pc.Checked? && status == IN_FLIGHT && rows[k] == PENDING) || (pc.Answered? && status == DELIVERED)
      requires pc.k == k
      modifies this`rows, this`budget, this`trace, this`pc
      ensures Valid() && rows == (if alive then old(rows)[k := status] else old(rows))
      ensures pc == (if alive then AfterWrite(old(pc)) else Idle)
    {
      hide Run, Step, Lists, Initial;
      alive := Survives();
      if !alive { return; }
      ghost var s := Current();
      rows := rows[k := status];
      SameKeys(order, s.rows, rows);
      WritesStatus(config, s, pc);
      Log(s, Go, AfterWrite(pc));
    }

    /** The claimed row: URL guard, one HTTP call, and the two writes that end the attempt. */
    method Deliver(k: Key, answer: Answer, ghost rest: seq<Key>) returns (alive: bool, result: Option<Sent>)
      requires Valid() && pc == Claimed(k, rest) && k in rows && rows[k] == IN_FLIGHT
      modifies this`rows, this`enabled, this`failures, this`bulkAbandoned, this`budget, this`sent, this`trace, this`pc
      ensures Valid() && Evolves(old(rows), rows) && rows.Keys == old(rows).Keys
      ensures !alive ==> pc == Idle
      ensures alive ==> pc == Sending(rest) && result.Some? && rows[k] != PENDING
      ensures alive ==> sent == (if answer.Responded? then old(sent) + [k] else old(sent))
      ensures alive && Accepted(answer) ==>
                result == Some(Delivered) && rows == old(rows)[k := DELIVERED] && failures == old(failures)[k.endpoint := 0]
      ensures alive && !Accepted(answer) ==> AttemptFailed(config, k, old(rows), rows, old(enabled), enabled, old(failures), failures)
      ensures alive ==> OthersKept(old(rows), rows, k) && NamesStatus(result, rows[k])
    {
      hide Valid, AbandonPending, FailureStatus, Disables, Evolves, OthersKept, NamesStatus, AttemptFailed;
      NamesDelivered();
      KeptBySet(rows, k, DELIVERED);
      KeptSame(rows, k);
      EvolvesSame(rows);
      result := None;
      CallEndpoint(k, answer, rest);
      if answer.Responded? && answer.success {
        var threw: bool;
        alive, threw := FinalizeSuccess(k, answer.fault, rest);
        if !alive || !threw { return alive, Some(Delivered); }
      }
      ghost var before := rows;
      var how: Sent;
      alive, how := FinalizeFailure(k, ToDue(rest));
      result := Some(how);
      EvolvesTwice(old(rows), before, rows);
      if alive {
        FailsClaimed(config, k, old(rows), before, rows, old(enabled), enabled, old(failures), failures);
        FailedKeeps(config, k, old(rows), rows, old(enabled), enabled, old(failures), failures);
      }
    }

    /** The URL guard and the HTTP call, as the world answers them. */
    ghost method CallEndpoint(k: Key, answer: Answer, rest: seq<Key>)
      requires Valid() && pc == Claimed(k, rest)
      modifies this`sent, this`trace, this`pc
      ensures Valid() && sent == (if answer.Responded? then old(sent) + [k] else old(sent))
      ensures pc == if answer.Responded? && answer.success then Answered(k, rest) else FailCount(k, ToDue(rest))
    {
      hide Run, Step, Lists, Initial;
      var s := Current();
      Answers(config, s, k, rest);
      if answer.Responded? {
        sent := sent + [k];
        Log(s, Http(answer.success), if answer.success then Answered(k, rest) else FailCount(k, ToDue(rest)));
      } else {
        Log(s, Blocked, FailCount(k, ToDue(rest)));
      }
    }

    /** Both writes of a success; a rejected one throws into the `catch` around the call. */
    method FinalizeSuccess(k: Key, fault: Fault, ghost rest: seq<Key>) returns (alive: bool, threw: bool)
      requires Valid() && pc == Answered(k, rest) && k in rows
      modifies this`rows, this`failures, this`budget, this`trace, this`pc
      ensures Valid() && Evolves(old(rows), rows) && rows.Keys == old(rows).Keys
      ensures !alive ==> pc == Idle
      ensures alive ==> threw == (fault != NoFault)
      ensures alive && !threw ==> pc == Sending(rest) && rows == old(rows)[k := DELIVERED] && failures == old(failures)[k.endpoint := 0]
      ensures alive && threw ==> pc == FailCount(k, ToDue(rest)) && failures == old(failures)
      ensures alive && threw ==> rows == if fault == RowRejected then old(rows) else old(rows)[k := DELIVERED]
    {
      hide Valid, Evolves, Step;
      EvolvesSame(rows);
      EvolvesBySet(rows, k, DELIVERED);
      threw := false;
      if fault == RowRejected {
        Rejects(config, Current(), k, rest);
        Read(WriteFails, FailCount(k, ToDue(rest)));
        return true, true;
      }
      alive := WriteStatus(k, DELIVERED);
      if !alive { return; }
      if fault == ResetRejected {
        Rejects(config, Current(), k, rest);
        Read(WriteFails, FailCount(k, ToDue(rest)));
        return true, true;
      }
      alive := ResetFailures(k, rest);
    }

    method ResetFailures(k: Key, ghost rest: seq<Key>) returns (alive: bool)
      requires Valid() && pc == Resetting(k, rest)
      modifies this`failures, this`budget, this`trace, this`pc
      ensures Valid() && failures == (if alive then old(failures)[k.endpoint := 0] else old(failures))
      ensures pc == (if alive then Sending(rest) else Idle)
    {
      hide Run, Step, Lists, Initial;
      alive := Survives();
      if !alive { return; }
      ghost var s := Current();
      failures := failures[k.endpoint := 0];
      Resets(config, s, k, rest);
      Log(s, Go, Sending(rest));
    }

    // -------------------------------------------------------------- the phases of one poll

    /** A read: the worker learns something and moves on. */
    ghost method Read(choice: Choice, next: Pc)
      requires Valid() && Step(config, Current(), 0, choice) == Current().(workers := map[0 := next])
      modifies this`trace, this`pc
      ensures Valid() && pc == next
    {
      hide Run, Step, Lists, Initial;
      Log(Current(), choice, next);
    }

    /** `recoverStaleInFlight`: every selected row is closed as a failed attempt. */
    method RecoverStaleInFlight(ready: set<Key>) returns (alive: bool, recovered: nat)
      requires Valid() && pc == Idle
      modifies this`rows, this`enabled, this`failures, this`bulkAbandoned, this`budget, this`trace, this`pc
      ensures Valid() && Evolves(old(rows), rows)
      ensures alive ==> pc == Recovering([])
      ensures alive ==> AllClosed(rows, Select(old(rows), order, IN_FLIGHT, ready, batchSize))
      ensures alive ==> recovered == |Select(old(rows), order, IN_FLIGHT, ready, batchSize)|
      ensures !alive ==> pc == Idle
    {
      hide Select, Evolves, AllClosed, AllStatus, Run, Step, Lists, Initial;
      var stale := Select(rows, order, IN_FLIGHT, ready, batchSize);
      SelectedRows(rows, order, IN_FLIGHT, ready, batchSize);
      EvolvesSame(rows);
      NoneClosed(rows);
      recovered := |stale|;
      BeginsRecovery(config, Current(), stale);
      Read(Query(stale), Recovering(stale));
      hide Valid;
      for i := 0 to |stale|
        invariant Valid() && pc == Recovering(stale[i..]) && rows.Keys == old(rows).Keys
        invariant Evolves(old(rows), rows) && AllClosed(rows, stale[..i])
      {
        ghost var before := rows;
        alive := RecoverOne(stale, i);
        EvolvesTwice(old(rows), before, rows);
        if !alive { return; }
      }
      assert stale[..|stale|] == stale;
      alive := true;
    }

    method RecoverOne(stale: seq<Key>, i: nat) returns (alive: bool)
      requires Valid() && i < |stale| && pc == Recovering(stale[i..]) && stale[i] in rows && AllClosed(rows, stale[..i])
      modifies this`rows, this`enabled, this`failures, this`bulkAbandoned, this`budget, this`trace, this`pc
      ensures Valid() && rows.Keys == old(rows).Keys && Evolves(old(rows), rows)
      ensures pc == if alive then Recovering(stale[i + 1..]) else Idle
      ensures alive ==> AllClosed(rows, stale[..i + 1])
    {
      hide Valid, Step, Evolves, AllClosed, AbandonPending, Disables, FailureStatus;
      var k := stale[i];
      ghost var off := Disables(config, failures, k);
      NextStale(config, Current(), stale, i);
      Read(Go, FailCount(k, ToRecover(stale[i + 1..])));
      var result: Sent;
      alive, result := FinalizeFailure(k, ToRecover(stale[i + 1..]));
      if !alive { return; }
      StatusAfterFailure(config, k, off);
      ClosedPersists(old(rows), k.endpoint, stale[..i], k, FailureStatus(config, k, off));
      assert stale[..i + 1] == stale[..i] + [k];
    }

    /** `promoteDueRetries`: each selected row gets its successor, or is abandoned with its endpoint. */
    method PromoteDueRetries(ready: set<Key>) returns (alive: bool)
      requires Valid() && pc == Enqueueing([])
      modifies this`rows, this`order, this`budget, this`trace, this`pc
      ensures Valid()
      ensures alive ==> pc == Promoting([])
      ensures alive ==> PromotedExactly(old(rows), rows, enabled, Select(old(rows), old(order), FAILED, ready, batchSize))
      ensures !alive ==> pc == Idle
    {
      hide Select, PromotedExactly, AllStatus, Run, Step, Lists, Initial;
      var due := Select(rows, order, FAILED, ready, batchSize);
      SelectedRows(rows, order, FAILED, ready, batchSize);
      PromotedNothing(rows, enabled);
      BeginsPromotion(config, Current(), due);
      Read(Query(due), Promoting(due));
      hide Valid;
      for i := 0 to |due|
        invariant Valid() && pc == Promoting(due[i..])
        invariant forall k :: k in due ==> k in rows
        invariant PromotedExactly(old(rows), rows, enabled, due[..i])
      {
        alive := PromoteOne(due, i, old(rows));
        if !alive { return; }
      }
      assert due[..|due|] == due;
      alive := true;
    }

    method PromoteOne(due: seq<Key>, i: nat, ghost before: Rows) returns (alive: bool)
      requires Valid() && i < |due| && pc == Promoting(due[i..]) && due[i] in rows && due[i] in before
      requires PromotedExactly(before, rows, enabled, due[..i])
      modifies this`rows, this`order, this`budget, this`trace, this`pc
      ensures Valid() && (forall k :: k in old(rows) ==> k in rows)
      ensures pc == if alive then Promoting(due[i + 1..]) else Idle
      ensures alive ==> PromotedExactly(before, rows, enabled, due[..i + 1])
    {
      hide Valid, Step, PromotedExactly;
      var k := due[i];
      var usable := k.endpoint in enabled && enabled[k.endpoint];
      NextRetry(config, Current(), due, i);
      Read(Go, PromoteRead(k, usable, due[i + 1..]));
      alive := Promote(k, usable, due[i + 1..]);
      PromotedNext(before, old(rows), enabled, due[..i], k);
      assert due[..i + 1] == due[..i] + [k];
    }

    method Promote(k: Key, usable: bool, ghost rest: seq<Key>) returns (alive: bool)
      requires Valid() && pc == PromoteRead(k, usable, rest) && k in rows
      modifies this`rows, this`order, this`budget, this`trace, this`pc
      ensures Valid() && pc == (if alive then Promoting(rest) else Idle)
      ensures rows == if !alive then old(rows) else if usable then Upsert(old(rows), Next(k)) else old(rows)[k := ABANDONED]
    {
      hide Run, Step, Lists, Initial;
      alive := Survives();
      if !alive { return; }
      ghost var s := Current();
      if usable {
        NewKey(order, rows, Next(k));
        if Next(k) !in rows { rows, order := rows[Next(k) := PENDING], order + [Next(k)]; }
      } else {
        rows := rows[k := ABANDONED];
        SameKeys(order, s.rows, rows);
      }
      Promotes(config, s, k, usable, rest);
      Log(s, Go, Promoting(rest));
    }

    /** `enqueueNewDeliveries`: an attempt-1 row per subscribed, enabled endpoint of each new event. */
    method EnqueueNewDeliveries(events: seq<Event>) returns (alive: bool, created: nat)
      requires Valid() && pc == Recovering([])
      modifies this`rows, this`order, this`budget, this`trace, this`pc
      ensures Valid() && Grows(old(rows), rows)
      ensures !alive ==> pc == Idle
      ensures alive ==> pc == Enqueueing([])
      ensures alive ==> FannedOut(events, endpoints, enabled, batchSize, old(rows), rows)
      ensures alive ==> created == |AllTargets(Unfanned(events, old(rows), endpoints, enabled, batchSize), endpoints, enabled)|
    {
      hide Unfanned, AllTargets, Targets, Grows, Run, Step, Lists, Initial, AddedOnly, FannedOut;
      var unfanned := Unfanned(events, rows, endpoints, enabled, batchSize);
      GrowsSame(rows);
      AddedNone(rows);
      created := 0;
      BeginsEnqueue(config, Current(), AllTargets(unfanned, endpoints, enabled));
      Read(Query(AllTargets(unfanned, endpoints, enabled)), Enqueueing(AllTargets(unfanned, endpoints, enabled)));
      hide Valid;
      assert unfanned[0..] == unfanned;
      ghost var done: seq<Key> := [];
      for i := 0 to |unfanned|
        invariant Valid() && pc == Enqueueing(AllTargets(unfanned[i..], endpoints, enabled))
        invariant Grows(old(rows), rows) && AllPresent(rows, done) && AddedOnly(old(rows), rows, done) && created == |done|
        invariant AllTargets(unfanned, endpoints, enabled) == done + AllTargets(unfanned[i..], endpoints, enabled)
      {
        ghost var before := rows;
        ghost var rest := AllTargets(unfanned[i + 1..], endpoints, enabled);
        TargetsOfFirst(unfanned, i, endpoints, enabled);
        var n: nat;
        alive, n := FanOut(unfanned[i], rest);
        GrowsTwice(old(rows), before, rows);
        if !alive { return; }
        PresentGrows(before, rows, done);
        AddedMore(old(rows), before, rows, done, Targets(unfanned[i], endpoints, enabled, 0));
        created := created + n;
        done := done + Targets(unfanned[i], endpoints, enabled, 0);
      }
      NoTargets(endpoints, enabled);
      assert unfanned[|unfanned|..] == [] && done + [] == done;
      FansOut(events, endpoints, enabled, batchSize, old(rows), rows);
      alive := true;
    }

    /** The endpoints of one event. */
    method FanOut(event: Event, ghost rest: seq<Key>) returns (alive: bool, created: nat)
      requires Valid() && pc == Enqueueing(Targets(event, endpoints, enabled, 0) + rest)
      modifies this`rows, this`order, this`budget, this`trace, this`pc
      ensures Valid() && Grows(old(rows), rows)
      ensures !alive ==> pc == Idle
      ensures alive ==> pc == Enqueueing(rest) && created == |Targets(event, endpoints, enabled, 0)|
      ensures alive ==> AllPresent(rows, Targets(event, endpoints, enabled, 0)) && AddedOnly(old(rows), rows, Targets(event, endpoints, enabled, 0))
    {
      hide Valid, Targets, Grows, AddedOnly;
      GrowsSame(rows);
      AddedNone(rows);
      created := 0;
      ghost var done: seq<Key> := [];
      ghost var all := Targets(event, endpoints, enabled, 0);
      for j := 0 to |endpoints|
        invariant Valid() && pc == Enqueueing(Targets(event, endpoints, enabled, j) + rest)
        invariant all == done + Targets(event, endpoints, enabled, j)
        invariant Grows(old(rows), rows) && AllPresent(rows, done) && AddedOnly(old(rows), rows, done) && created == |done|
      {
        TargetsFrom(event, endpoints, enabled, j);
        if Subscribed(endpoints[j], event, enabled) {
          ghost var before := rows;
          var k := Key(event.id, endpoints[j].id, 1);
          ghost var later := Targets(event, endpoints, enabled, j + 1) + rest;
          assert [k] + Targets(event, endpoints, enabled, j + 1) + rest == [k] + later;
          alive := EnqueueOne(k, later);
          GrowsTwice(old(rows), before, rows);
          if !alive { return; }
          PresentGrows(before, rows, done);
          AddedMore(old(rows), before, rows, done, [k]);
          created := created + 1;
          done := done + [k];
        }
      }
      TargetsEnd(event, endpoints, enabled);
      assert done == all && [] + rest == rest;
      alive := true;
    }

    method EnqueueOne(k: Key, ghost rest: seq<Key>) returns (alive: bool)
      requires Valid() && pc == Enqueueing([k] + rest)
      modifies this`rows, this`order, this`budget, this`trace, this`pc
      ensures Valid() && Grows(old(rows), rows) && AddedOnly(old(rows), rows, [k])
      ensures pc == if alive then Enqueueing(rest) else Idle
      ensures rows == if alive then Upsert(old(rows), k) else old(rows)
    {
      hide Run, Step, Lists, Initial;
      alive := Survives();
      if !alive { return; }
      ghost var s := Current();
      NewKey(order, rows, k);
      if k !in rows { rows, order := rows[k := PENDING], order + [k]; }
      Enqueues(config, s, k, rest);
      Log(s, Go, Enqueueing(rest));
    }

    /** The sending phase: each due row is attempted once, or was settled before its turn. */
    method SendDue(ready: set<Key>, answers: map<Key, Answer>) returns (alive: bool, summary: Summary)
      requires Valid() && pc == Promoting([])
      modifies this`rows, this`enabled, this`failures, this`bulkAbandoned, this`budget, this`sent, this`trace, this`pc
      ensures Valid() && Evolves(old(rows), rows)
      ensures !alive ==> pc == Idle
      ensures alive ==> pc == Sending([])
      ensures alive ==> NonePending(rows, Select(old(rows), order, PENDING, ready, batchSize))
      ensures alive ==> Tallied(rows, Select(old(rows), order, PENDING, ready, batchSize), summary)
    {
      hide Select, Evolves, Run, Step, Lists, Initial, Tallied;
      summary := Summary(0, 0, 0, 0);
      NothingTallied(rows);
      var due := Select(rows, order, PENDING, ready, batchSize);
      SelectedRows(rows, order, PENDING, ready, batchSize);
      EvolvesSame(rows);
      BeginsSending(config, Current(), due);
      Read(Query(due), Sending(due));
      assert Untried(rows, due, 0);
      hide Valid, NonePending, Untried, AllStatus, Distinct;
      NothingPending(rows);
      for i := 0 to |due|
        invariant Valid() && pc == Sending(due[i..]) && rows.Keys == old(rows).Keys
        invariant Evolves(old(rows), rows) && NonePending(rows, due[..i]) && Tallied(rows, due[..i], summary) && Untried(rows, due, i)
      {
        ghost var before := rows;
        alive, summary := SendOne(due, i, answers, summary);
        EvolvesTwice(old(rows), before, rows);
        if !alive { return; }
      }
      assert due[..|due|] == due;
      alive := true;
    }

    method SendOne(due: seq<Key>, i: nat, answers: map<Key, Answer>, summary: Summary) returns (alive: bool, next: Summary)
      requires Valid() && i < |due| && pc == Sending(due[i..]) && Distinct(due) && (forall j :: j in due ==> j in rows)
      requires NonePending(rows, due[..i]) && Tallied(rows, due[..i], summary) && Untried(rows, due, i)
      modifies this`rows, this`enabled, this`failures, this`bulkAbandoned, this`budget, this`sent, this`trace, this`pc
      ensures Valid() && Evolves(old(rows), rows) && rows.Keys == old(rows).Keys
      ensures !alive ==> pc == Idle
      ensures alive ==> pc == Sending(due[i + 1..])
      ensures alive ==> NonePending(rows, due[..i + 1]) && Tallied(rows, due[..i + 1], next) && Untried(rows, due, i + 1)
    {
      hide Valid, Evolves, NonePending, Tallied, OthersKept, NamesStatus, FailureStatus, Disables, Accepted;
      var k := due[i];
      next := summary;
      var result: Option<Sent>;
      alive, result := AttemptDelivery(k, if k in answers then answers[k] else Responded(false, NoFault), due[i..]);
      if !alive { return; }
      NonePendingEvolves(old(rows), rows, due[..i], k);
      assert due[i..][1..] == due[i + 1..] && due[..i + 1] == due[..i] + [k];
      TalliedOneMore(old(rows), rows, due, i, summary, result);
      UntriedStays(old(rows), rows, due, i);
      next := Tally(summary, result);
    }

    /** One poll: recover, fan out, promote, send. */
    method RunOnce(events: seq<Event>, stale: set<Key>, retry: set<Key>, dueNow: set<Key>, answers: map<Key, Answer>)
      returns (alive: bool, summary: Summary, ghost recovered: Rows, ghost enqueued: Rows, ghost promoted: Rows, ghost listed: seq<Key>)
      requires Valid() && pc == Idle
      modifies this`rows, this`order, this`enabled, this`failures, this`bulkAbandoned, this`budget, this`sent, this`trace, this`pc
      ensures Valid() && pc == Idle
      ensures RowsOk(config, rows) && ChainShape(rows) && Distinct(sent)
      // A completed poll went through its four phases in order, each over the rows the previous one left.
      ensures alive ==> AllClosed(recovered, Select(old(rows), old(order), IN_FLIGHT, stale, batchSize))
      ensures alive ==> exists open ::
                FannedOut(events, endpoints, open, batchSize, recovered, enqueued) &&
                PromotedExactly(enqueued, promoted, open, Select(enqueued, listed, FAILED, retry, batchSize))
      ensures alive ==> NonePending(rows, Select(promoted, order, PENDING, dueNow, batchSize))
      ensures alive ==> Tallied(rows, Select(promoted, order, PENDING, dueNow, batchSize), summary)
    {
      hide Valid, RowsOk, ChainShape, AllClosed, Select, NonePending, PromotedExactly, FannedOut, StatusCount;
      bulkAbandoned := 0;
      alive, summary, recovered, enqueued, promoted, listed := Phases(events, stale, retry, dueNow, answers);
      summary := summary.(abandoned := summary.abandoned + bulkAbandoned);
      Consequences();
    }

    /** What every recorded schedule of a lone worker guarantees. */
    lemma Consequences()
      requires Valid()
      ensures RowsOk(config, rows) && ChainShape(rows) && Distinct(sent)
    {
      hide Run, Lists, RowsOk, ChainShape;
      RunKeepsInv(config, origin, trace);
      RunKeepsSolo(config, origin, 0, trace);
    }

    method Phases(events: seq<Event>, stale: set<Key>, retry: set<Key>, dueNow: set<Key>, answers: map<Key, Answer>)
      returns (alive: bool, summary: Summary, ghost recovered: Rows, ghost enqueued: Rows, ghost promoted: Rows, ghost listed: seq<Key>)
      requires Valid() && pc == Idle
      modifies this`rows, this`order, this`enabled, this`failures, this`bulkAbandoned, this`budget, this`sent, this`trace, this`pc
      ensures Valid() && pc == Idle
      ensures alive ==> AllClosed(recovered, Select(old(rows), old(order), IN_FLIGHT, stale, batchSize))
      ensures alive ==> exists open ::
                FannedOut(events, endpoints, open, batchSize, recovered, enqueued) &&
                PromotedExactly(enqueued, promoted, open, Select(enqueued, listed, FAILED, retry, batchSize))
      ensures alive ==> NonePending(rows, Select(promoted, order, PENDING, dueNow, batchSize))
      ensures alive ==> Tallied(rows, Select(promoted, order, PENDING, dueNow, batchSize), summary)
    {
      hide Valid, Step, Evolves, AllClosed, Select, NonePending, PromotedExactly, FannedOut, AllTargets, Unfanned, StatusCount;
      summary := Summary(0, 0, 0, 0);
      recovered, enqueued, promoted, listed := rows, rows, rows, order;
      var n: nat;
      alive, n := RecoverStaleInFlight(stale);
      if !alive { return; }
      recovered := rows;
      alive, n := EnqueueNewDeliveries(events);
      if !alive { return; }
      enqueued, listed := rows, order;
      alive := PromoteDueRetries(retry);
      if !alive { return; }
      promoted := rows;
      alive, summary := SendDue(dueNow, answers);
      if !alive { return; }
      EndsPoll(config, Current());
      Read(Go, Idle);
    }
  }

  function Tally(summary: Summary, result: Option<Sent>): Summary {
    match result
    case None => summary
    case Some(Delivered) => summary.(delivered := summary.delivered + 1)
    case Some(Failed) => summary.(failed := summary.failed + 1)
    case Some(Exhausted) => summary.(exhausted := summary.exhausted + 1)
    case Some(Abandoned) => summary.(abandoned := summary.abandoned + 1)
  }

  ghost predicate NonePending(rows: Rows, keys: seq<Key>) {
    forall i :: 0 <= i < |keys| ==> keys[i] in rows && rows[keys[i]] != PENDING
  }

  lemma NothingPending(rows: Rows)
    ensures NonePending(rows, [])
  {
  }

  lemma NonePendingEvolves(before: Rows, rows: Rows, keys: seq<Key>, k: Key)
    requires Evolves(before, rows) && NonePending(before, keys) && k in before && rows[k] != PENDING
    ensures NonePending(rows, keys + [k])
  {
  }

  /** Rows are added, none is changed. */
  ghost predicate Grows(before: Rows, after: Rows) {
    forall k :: k in before ==> k in after && after[k] == before[k]
  }

  lemma GrowsSame(rows: Rows)
    ensures Grows(rows, rows)
  {
  }

  lemma GrowsTwice(a: Rows, b: Rows, c: Rows)
    requires Grows(a, b) && Grows(b, c)
    ensures Grows(a, c)
  {
  }

  ghost predicate AllPresent(rows: Rows, keys: seq<Key>) {
    forall i :: 0 <= i < |keys| ==> keys[i] in rows
  }

  lemma PresentGrows(before: Rows, rows: Rows, keys: seq<Key>)
    requires Grows(before, rows) && AllPresent(before, keys)
    ensures AllPresent(rows, keys)
  {
  }

  lemma TargetsFrom(event: Event, endpoints: seq<Endpoint>, enabled: map<nat, bool>, j: nat)
    requires j < |endpoints|
    ensures var rest := Targets(event, endpoints, enabled, j + 1);
            Targets(event, endpoints, enabled, j) ==
              if Subscribed(endpoints[j], event, enabled) then [Key(event.id, endpoints[j].id, 1)] + rest else rest
  {
  }

  lemma TargetsEnd(event: Event, endpoints: seq<Endpoint>, enabled: map<nat, bool>)
    ensures Targets(event, endpoints, enabled, |endpoints|) == []
  {
  }

  lemma NoTargets(endpoints: seq<Endpoint>, enabled: map<nat, bool>)
    ensures AllTargets([], endpoints, enabled) == []
  {
  }

  lemma TargetsOfFirst(events: seq<Event>, i: nat, endpoints: seq<Endpoint>, enabled: map<nat, bool>)
    requires i < |events|
    ensures AllTargets(events[i..], endpoints, enabled) ==
            Targets(events[i], endpoints, enabled, 0) + AllTargets(events[i + 1..], endpoints, enabled)
  {
    assert events[i..][1..] == events[i + 1..];
  }

  /** An event fans out to exactly the enabled endpoints of its merchant that take its kind. */
  lemma {:induction false} TargetsExactly(event: Event, endpoints: seq<Endpoint>, enabled: map<nat, bool>, j: nat, k: Key)
    requires j <= |endpoints|
    ensures k in Targets(event, endpoints, enabled, j) <==>
            exists i :: j <= i < |endpoints| && Subscribed(endpoints[i], event, enabled) && k == Key(event.id, endpoints[i].id, 1)
    decreases |endpoints| - j
  {
    if j < |endpoints| {
      TargetsExactly(event, endpoints, enabled, j + 1, k);
    }
  }

  lemma NoneClosed(rows: Rows)
    ensures AllClosed(rows, [])
  {
  }

  lemma SelectedRows(rows: Rows, order: seq<Key>, status: Status, ready: set<Key>, n: nat)
    requires Lists(order, rows)
    ensures var keys := Select(rows, order, status, ready, n);
            Distinct(keys) && AllStatus(rows, keys, status) && forall k :: k in keys ==> k in rows
  {
    SelectMeaning(rows, order, status, ready, n);
  }

  ghost predicate AllClosed(rows: Rows, keys: seq<Key>) {
    forall i :: 0 <= i < |keys| ==>
      keys[i] in rows && (rows[keys[i]] == FAILED || rows[keys[i]] == EXHAUSTED || rows[keys[i]] == ABANDONED)
  }

  lemma ClosedPersists(rows: Rows, endpoint: nat, keys: seq<Key>, k: Key, status: Status)
    requires AllClosed(rows, keys) && (status == FAILED || status == EXHAUSTED || status == ABANDONED)
    ensures AllClosed(rows[k := status], keys + [k])
    ensures AllClosed(AbandonPending(rows, endpoint)[k := status], keys + [k])
  {
  }

  lemma StatusAfterFailure(c: Config, k: Key, disabled: bool)
    ensures FailureStatus(c, k, disabled) ==
            if k.attempt >= c.maxAttempts(k.endpoint) then EXHAUSTED else if disabled then ABANDONED else FAILED
  {
  }

  function PendingCount(rows: Rows, endpoint: nat): nat {
    |set j | j in rows && j.endpoint == endpoint && rows[j] == PENDING|
  }

  function Failing(failures: map<nat, nat>, endpoint: nat): map<nat, nat> {
    failures[endpoint := if endpoint in failures then failures[endpoint] + 1 else 1]
  }

  /** Whether this failure disables the endpoint: retries left on the row, too many failures in a row. */
  predicate Disables(c: Config, failures: map<nat, nat>, k: Key) {
    k.attempt < c.maxAttempts(k.endpoint) && Failing(failures, k.endpoint)[k.endpoint] >= c.disableAfter
  }

  function AfterCount(c: Config, failures: map<nat, nat>, k: Key, resume: Resume): Pc {
    if k.attempt < c.maxAttempts(k.endpoint) && k.endpoint in failures && failures[k.endpoint] >= c.disableAfter
    then FailDisable(k, resume)
    else FailWrite(k, FailureStatus(c, k, false), resume)
  }

  // Each step of a lone worker, from its position to the next.

  lemma Crashes(c: Config, s: State)
    requires s.workers.Keys == {0}
    ensures Step(c, s, 0, Crash) == s.(workers := map[0 := Idle])
  {
  }

  lemma Counts(c: Config, s: State, k: Key, resume: Resume)
    requires s.workers == map[0 := FailCount(k, resume)]
    ensures var failures := Failing(s.failures, k.endpoint);
            Step(c, s, 0, Go) == s.(failures := failures, workers := map[0 := AfterCount(c, failures, k, resume)])
  {
  }

  lemma DisablesEndpoint(c: Config, s: State, k: Key, resume: Resume)
    requires s.workers == map[0 := FailDisable(k, resume)]
    ensures Step(c, s, 0, Go) == s.(enabled := s.enabled[k.endpoint := false], workers := map[0 := FailSweep(k, resume)])
  {
  }

  lemma Sweeps(c: Config, s: State, k: Key, resume: Resume)
    requires s.workers == map[0 := FailSweep(k, resume)] && k.attempt < c.maxAttempts(k.endpoint)
    ensures Step(c, s, 0, Go) ==
            s.(rows := AbandonPending(s.rows, k.endpoint), workers := map[0 := FailWrite(k, ABANDONED, resume)])
  {
  }

  lemma WritesFailure(c: Config, s: State, k: Key, status: Status, resume: Resume)
    requires s.workers == map[0 := FailWrite(k, status, resume)] && k in s.rows
    ensures Step(c, s, 0, Go) == s.(rows := s.rows[k := status], workers := map[0 := Back(resume)])
  {
  }

  function AfterWrite(pc: Pc): Pc
    requires pc.Giving? || pc.Checked? || pc.Answered?
  {
    match pc
    case Giving(_, due) => Sending(due)
    case Checked(k, due) => Claimed(k, due)
    case Answered(k, due) => Resetting(k, due)
  }

  lemma ReadsDue(c: Config, s: State, due: seq<Key>)
    requires s.workers == map[0 := Sending(due)] && due != []
    ensures var k := due[0];
            Step(c, s, 0, Go) ==
              s.(workers := map[0 := if k !in s.rows || s.rows[k] != PENDING then Sending(due[1..])
                                     else if !Usable(s, k.endpoint) then Giving(k, due[1..])
                                     else Checked(k, due[1..])])
  {
  }

  lemma WritesStatus(c: Config, s: State, pc: Pc)
    requires (pc.Giving? || pc.Checked? || pc.Answered?) && s.workers == map[0 := pc]
    requires pc.k in s.rows && (pc.Checked? ==> s.rows[pc.k] == PENDING)
    ensures var status := if pc.Giving? then ABANDONED else if pc.Checked? then IN_FLIGHT else DELIVERED;
            Step(c, s, 0, Go) == s.(rows := s.rows[pc.k := status], workers := map[0 := AfterWrite(pc)])
  {
  }

  lemma Answers(c: Config, s: State, k: Key, due: seq<Key>)
    requires s.workers == map[0 := Claimed(k, due)]
    ensures Step(c, s, 0, Http(true)) == s.(sent := s.sent + [k], workers := map[0 := Answered(k, due)])
    ensures Step(c, s, 0, Http(false)) == s.(sent := s.sent + [k], workers := map[0 := FailCount(k, ToDue(due))])
    ensures Step(c, s, 0, Blocked) == s.(workers := map[0 := FailCount(k, ToDue(due))])
  {
  }

  lemma Rejects(c: Config, s: State, k: Key, due: seq<Key>)
    requires s.workers == map[0 := Answered(k, due)] || s.workers == map[0 := Resetting(k, due)]
    ensures Step(c, s, 0, WriteFails) == s.(workers := map[0 := FailCount(k, ToDue(due))])
  {
  }

  lemma Resets(c: Config, s: State, k: Key, due: seq<Key>)
    requires s.workers == map[0 := Resetting(k, due)]
    ensures Step(c, s, 0, Go) == s.(failures := s.failures[k.endpoint := 0], workers := map[0 := Sending(due)])
  {
  }

  lemma BeginsRecovery(c: Config, s: State, stale: seq<Key>)
    requires s.workers == map[0 := Idle] && AllStatus(s.rows, stale, IN_FLIGHT) && Distinct(stale)
    ensures Step(c, s, 0, Query(stale)) == s.(workers := map[0 := Recovering(stale)])
  {
    hide AllStatus, Distinct;
  }

  lemma NextStale(c: Config, s: State, stale: seq<Key>, i: nat)
    requires i < |stale| && s.workers == map[0 := Recovering(stale[i..])]
    ensures Step(c, s, 0, Go) == s.(workers := map[0 := FailCount(stale[i], ToRecover(stale[i + 1..]))])
  {
    assert stale[i..][1..] == stale[i + 1..];
  }

  lemma BeginsPromotion(c: Config, s: State, due: seq<Key>)
    requires s.workers == map[0 := Enqueueing([])] && AllStatus(s.rows, due, FAILED) && Distinct(due)
    ensures Step(c, s, 0, Query(due)) == s.(workers := map[0 := Promoting(due)])
  {
    hide AllStatus, Distinct;
  }

  lemma NextRetry(c: Config, s: State, due: seq<Key>, i: nat)
    requires i < |due| && s.workers == map[0 := Promoting(due[i..])]
    ensures Step(c, s, 0, Go) == s.(workers := map[0 := PromoteRead(due[i], Usable(s, due[i].endpoint), due[i + 1..])])
  {
    assert due[i..][1..] == due[i + 1..];
  }

  lemma Promotes(c: Config, s: State, k: Key, usable: bool, rest: seq<Key>)
    requires s.workers == map[0 := PromoteRead(k, usable, rest)] && k in s.rows
    ensures Step(c, s, 0, Go) ==
            s.(rows := if usable then Upsert(s.rows, Next(k)) else s.rows[k := ABANDONED], workers := map[0 := Promoting(rest)])
  {
  }

  lemma BeginsEnqueue(c: Config, s: State, keys: seq<Key>)
    requires s.workers == map[0 := Recovering([])] && FirstAttempts(keys)
    ensures Step(c, s, 0, Query(keys)) == s.(workers := map[0 := Enqueueing(keys)])
  {
    hide FirstAttempts;
  }

  lemma Enqueues(c: Config, s: State, k: Key, rest: seq<Key>)
    requires s.workers == map[0 := Enqueueing([k] + rest)]
    ensures Step(c, s, 0, Go) == s.(rows := Upsert(s.rows, k), workers := map[0 := Enqueueing(rest)])
  {
    assert ([k] + rest)[1..] == rest;
  }

  lemma BeginsSending(c: Config, s: State, due: seq<Key>)
    requires s.workers == map[0 := Promoting([])] && AllStatus(s.rows, due, PENDING) && Distinct(due)
    ensures Step(c, s, 0, Query(due)) == s.(workers := map[0 := Sending(due)])
  {
    hide AllStatus, Distinct;
  }

  lemma EndsPoll(c: Config, s: State)
    requires s.workers == map[0 := Sending([])]
    ensures Step(c, s, 0, Go) == s.(workers := map[0 := Idle])
  {
  }
}
