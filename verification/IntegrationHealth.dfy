// integration-health.service.ts: status counters, outbound health and a bounded call history
// for every adapter.
module IntegrationHealth {
  import opened Options

  type Time = int

  datatype State = HEALTHY | DEGRADED | UNHEALTHY | UNKNOWN | CREDENTIALS_NOT_CONFIGURED | INCIDENT_ACTIVE

  datatype Status = Status(
    state: State, consecutiveFailures: nat, totalSuccesses: nat, totalFailures: nat,
    lastSuccessAt: Option<Time>, lastFailureAt: Option<Time>)

  datatype Outbound = Outbound(
    state: State, consecutiveFailures: nat, totalFailures: nat,
    lastCheckedAt: Option<Time>, lastSuccessAt: Option<Time>, lastFailureAt: Option<Time>)

  datatype CallRecord = CallRecord(timestamp: Time, latencyMs: int, success: bool)

  /** The part of the readiness metadata that the counters depend on: whether each environment
      has its credentials configured, and whether the incident is ACTIVE. */
  datatype Readiness = Readiness(configured: seq<bool>, incidentActive: bool)

  datatype Health = Health(
    statuses: map<string, Status>, readiness: map<string, Readiness>,
    outbound: map<string, Outbound>, history: map<string, seq<CallRecord>>)

  const MAX_HISTORY: nat := 1000

  // ---------------------------------------------------------------- what each call does

  predicate Configured(h: Health, name: string) {
    name in h.readiness && h.readiness[name].configured != [] && false !in h.readiness[name].configured
  }

  predicate ActiveIncident(h: Health, name: string) {
    name in h.readiness && h.readiness[name].incidentActive
  }

  function ToOutbound(s: State): State {
    if s == INCIDENT_ACTIVE then UNHEALTHY else s
  }

  function WithOutbound(h: Health, name: string, state: State, now: Time): Health {
    h.(outbound := h.outbound[name :=
      if name in h.statuses then
        var s := h.statuses[name];
        Outbound(state, s.consecutiveFailures, s.totalFailures, Some(now), s.lastSuccessAt, s.lastFailureAt)
      else Outbound(state, 0, 0, Some(now), None, None)])
  }

  function Pushed(history: seq<CallRecord>, r: CallRecord): seq<CallRecord> {
    var longer := history + [r];
    if |longer| > MAX_HISTORY then longer[1..] else longer
  }

  function WithRecord(h: Health, name: string, r: CallRecord): Health {
    h.(history := h.history[name := Pushed(if name in h.history then h.history[name] else [], r)])
  }

  function AfterRegister(h: Health, name: string, r: Readiness): Health {
    var h1 := h.(readiness := h.readiness[name := r]);
    if name in h.statuses then h1
    else
      var state := if Configured(h1, name) then UNKNOWN else CREDENTIALS_NOT_CONFIGURED;
      h1.(statuses := h1.statuses[name := Status(state, 0, 0, 0, None, None)],
          history := h1.history[name := []],
          outbound := h1.outbound[name := Outbound(state, 0, 0, None, None, None)])
  }

  function SuccessStatus(s: Status, incident: bool, now: Time): Status {
    s.(totalSuccesses := s.totalSuccesses + 1, consecutiveFailures := 0, lastSuccessAt := Some(now),
       state := if incident then INCIDENT_ACTIVE else HEALTHY)
  }

  function AfterSuccess(h: Health, name: string, latencyMs: int, now: Time): Health {
    var h1 := if name in h.statuses
              then var s := SuccessStatus(h.statuses[name], ActiveIncident(h, name), now);
                   WithOutbound(h.(statuses := h.statuses[name := s]), name, HEALTHY, now)
              else h;
    WithRecord(h1, name, CallRecord(now, latencyMs, true))
  }

  function FailureStatus(s: Status, configured: bool, incident: bool, now: Time): Status {
    var f := s.consecutiveFailures + 1;
    s.(totalFailures := s.totalFailures + 1, consecutiveFailures := f, lastFailureAt := Some(now),
       state := if !configured then CREDENTIALS_NOT_CONFIGURED
                else if incident then INCIDENT_ACTIVE
                else if f >= 5 then UNHEALTHY
                else if f >= 2 then DEGRADED
                else s.state)
  }

  function AfterFailure(h: Health, name: string, now: Time): Health {
    var h1 := if name in h.statuses
              then var s := FailureStatus(h.statuses[name], Configured(h, name), ActiveIncident(h, name), now);
                   WithOutbound(h.(statuses := h.statuses[name := s]), name, ToOutbound(s.state), now)
              else h;
    WithRecord(h1, name, CallRecord(now, 0, false))
  }

  function AfterMark(h: Health, name: string, now: Time): Health {
    if name !in h.readiness then h
    else
      var r := h.readiness[name];
      var h1 := h.(readiness := h.readiness[name := r.(configured := seq(|r.configured|, _ => true))]);
      var h2 := if name in h1.statuses && h1.statuses[name].state == CREDENTIALS_NOT_CONFIGURED
                then h1.(statuses := h1.statuses[name := h1.statuses[name].(state := UNKNOWN)]) else h1;
      WithOutbound(h2, name, UNKNOWN, now)
  }

  function AfterIncident(h: Health, name: string, active: bool): Health {
    if name !in h.readiness then h
    else
      var h1 := h.(readiness := h.readiness[name := h.readiness[name].(incidentActive := active)]);
      if name in h1.statuses && active
      then h1.(statuses := h1.statuses[name := h1.statuses[name].(state := INCIDENT_ACTIVE)]) else h1
  }

  /** `check`, given what the probe says; without credentials nothing is probed. */
  function AfterCheck(h: Health, name: string, probe: bool, now: Time): Health {
    if name !in h.statuses then h
    else
      var healthy := Configured(h, name) && probe;
      var s := h.statuses[name];
      var state := if !Configured(h, name) then CREDENTIALS_NOT_CONFIGURED
                   else if ActiveIncident(h, name) then INCIDENT_ACTIVE
                   else if !healthy then UNHEALTHY
                   else if s.consecutiveFailures > 0 then DEGRADED
                   else HEALTHY;
      var s' := s.(lastSuccessAt := if healthy then Some(now) else s.lastSuccessAt,
                   lastFailureAt := if healthy then s.lastFailureAt else Some(now), state := state);
      WithOutbound(h.(statuses := h.statuses[name := s']), name, ToOutbound(state), now)
  }

  // ---------------------------------------------------------------- the service

  class IntegrationHealthService {
    var statuses: map<string, Status>
    var readiness: map<string, Readiness>
    var outboundHealth: map<string, Outbound>
    var callHistory: map<string, seq<CallRecord>>

    ghost function View(): Health
      reads this
    {
      Health(statuses, readiness, outboundHealth, callHistory)
    }

    constructor ()
      ensures View() == Health(map[], map[], map[], map[])
    {
      statuses, readiness, outboundHealth, callHistory := map[], map[], map[], map[];
    }

    method HasConfiguredCredentials(name: string) returns (ok: bool)
      ensures ok == Configured(View(), name)
    {
      if name !in readiness || |readiness[name].configured| == 0 {
        return false;
      }
      var envs := readiness[name].configured;
      for i := 0 to |envs|
        invariant forall j :: 0 <= j < i ==> envs[j]
      {
        if !envs[i] {
          return false;
        }
      }
      return true;
    }

    method HasActiveIncident(name: string) returns (active: bool)
      ensures active == ActiveIncident(View(), name)
    {
      return name in readiness && readiness[name].incidentActive;
    }

    method Register(name: string, r: Readiness)
      modifies this
      ensures View() == AfterRegister(old(View()), name, r)
    {
      readiness := readiness[name := r];
      if name !in statuses {
        var ok := HasConfiguredCredentials(name);
        var state := if ok then UNKNOWN else CREDENTIALS_NOT_CONFIGURED;
        statuses := statuses[name := Status(state, 0, 0, 0, None, None)];
        callHistory := callHistory[name := []];
        outboundHealth := outboundHealth[name := Outbound(state, 0, 0, None, None, None)];
      }
    }

    method UpdateOutboundHealth(name: string, state: State, now: Time)
      modifies this`outboundHealth
      ensures View() == WithOutbound(old(View()), name, state, now)
    {
      var o := Outbound(state, 0, 0, Some(now), None, None);
      if name in statuses {
        var s := statuses[name];
        o := Outbound(state, s.consecutiveFailures, s.totalFailures, Some(now), s.lastSuccessAt, s.lastFailureAt);
      }
      outboundHealth := outboundHealth[name := o];
    }

    method PushRecord(name: string, r: CallRecord)
      modifies this`callHistory
      ensures View() == WithRecord(old(View()), name, r)
    {
      var history := if name in callHistory then callHistory[name] else [];
      history := history + [r];
      if |history| > MAX_HISTORY {
        history := history[1..];
      }
      callHistory := callHistory[name := history];
    }

    method RecordSuccess(name: string, latencyMs: int, now: Time)
      modifies this
      ensures View() == AfterSuccess(old(View()), name, latencyMs, now)
    {
      if name in statuses {
        var s := statuses[name];
        var incident := HasActiveIncident(name);
        statuses := statuses[name := s.(totalSuccesses := s.totalSuccesses + 1, consecutiveFailures := 0,
                                        lastSuccessAt := Some(now),
                                        state := if incident then INCIDENT_ACTIVE else HEALTHY)];
        UpdateOutboundHealth(name, HEALTHY, now);
      }
      PushRecord(name, CallRecord(now, latencyMs, true));
    }

    method RecordFailure(name: string, now: Time)
      modifies this
      ensures View() == AfterFailure(old(View()), name, now)
    {
      if name in statuses {
        var s := statuses[name];
        var f := s.consecutiveFailures + 1;
        var state := s.state;
        var configured := HasConfiguredCredentials(name);
        var incident := HasActiveIncident(name);
        if !configured {
          state := CREDENTIALS_NOT_CONFIGURED;
        } else if incident {
          state := INCIDENT_ACTIVE;
        } else if f >= 5 {
          state := UNHEALTHY;
        } else if f >= 2 {
          state := DEGRADED;
        }
        statuses := statuses[name := s.(totalFailures := s.totalFailures + 1, consecutiveFailures := f,
                                        lastFailureAt := Some(now), state := state)];
        UpdateOutboundHealth(name, ToOutbound(state), now);
      }
      PushRecord(name, CallRecord(now, 0, false));
    }

    method MarkCredentialsConfigured(name: string, now: Time)
      modifies this
      ensures View() == AfterMark(old(View()), name, now)
    {
      if name !in readiness {
        return;
      }
      var r := readiness[name];
      readiness := readiness[name := r.(configured := seq(|r.configured|, _ => true))];
      if name in statuses && statuses[name].state == CREDENTIALS_NOT_CONFIGURED {
        statuses := statuses[name := statuses[name].(state := UNKNOWN)];
      }
      UpdateOutboundHealth(name, UNKNOWN, now);
    }

    method RecordIncident(name: string, active: bool)
      modifies this
      ensures View() == AfterIncident(old(View()), name, active)
    {
      if name !in readiness {
        return;
      }
      readiness := readiness[name := readiness[name].(incidentActive := active)];
      if name in statuses && active {
        statuses := statuses[name := statuses[name].(state := INCIDENT_ACTIVE)];
      }
    }

    method Check(name: string, probe: bool, now: Time)
      modifies this
      ensures View() == AfterCheck(old(View()), name, probe, now)
    {
      var configured := HasConfiguredCredentials(name);
      var healthy := configured && probe;
      if name in statuses {
        var s := statuses[name];
        var incident := HasActiveIncident(name);
        var state := INCIDENT_ACTIVE;
        if !configured {
          state := CREDENTIALS_NOT_CONFIGURED;
        } else if !incident {
          state := if !healthy then UNHEALTHY else if s.consecutiveFailures > 0 then DEGRADED else HEALTHY;
        }
        statuses := statuses[name := s.(lastSuccessAt := if healthy then Some(now) else s.lastSuccessAt,
                                        lastFailureAt := if healthy then s.lastFailureAt else Some(now),
                                        state := state)];
        UpdateOutboundHealth(name, ToOutbound(state), now);
      }
    }
  }

  // ---------------------------------------------------------------- runs

  datatype Op =
    | Register(name: string, readiness: Readiness)
    | Success(name: string, latencyMs: int, now: Time)
    | Failure(name: string, now: Time)
    | Check(name: string, probe: bool, now: Time)
    | Mark(name: string, now: Time)
    | Incident(name: string, active: bool)

  function Apply(h: Health, op: Op): Health {
    match op
    case Register(name, r) => AfterRegister(h, name, r)
    case Success(name, latencyMs, now) => AfterSuccess(h, name, latencyMs, now)
    case Failure(name, now) => AfterFailure(h, name, now)
    case Check(name, probe, now) => AfterCheck(h, name, probe, now)
    case Mark(name, now) => AfterMark(h, name, now)
    case Incident(name, active) => AfterIncident(h, name, active)
  }

  function Run(h: Health, ops: seq<Op>): Health
    decreases |ops|
  {
    if ops == [] then h else Run(Apply(h, ops[0]), ops[1..])
  }

  /** No call forgets an adapter. */
  lemma StatusesStay(h: Health, op: Op)
    ensures h.statuses.Keys <= Apply(h, op).statuses.Keys
  {
  }

  /** The calls of one adapter that a run records. */
  function CallsOf(ops: seq<Op>, name: string): seq<CallRecord> {
    if ops == [] then []
    else
      (match ops[0]
       case Success(n, latencyMs, now) => (if n == name then [CallRecord(now, latencyMs, true)] else [])
       case Failure(n, now) => (if n == name then [CallRecord(now, 0, false)] else [])
       case _ => []) + CallsOf(ops[1..], name)
  }

  function Last(calls: seq<CallRecord>, n: nat): seq<CallRecord> {
    if |calls| <= n then calls else calls[|calls| - n..]
  }

  function Count(calls: seq<CallRecord>, success: bool): nat {
    if calls == [] then 0
    else Count(calls[..|calls| - 1], success) + (if calls[|calls| - 1].success == success then 1 else 0)
  }

  /** The failures after the last success. */
  function TrailingFailures(calls: seq<CallRecord>): nat {
    if calls == [] || calls[|calls| - 1].success then 0 else TrailingFailures(calls[..|calls| - 1]) + 1
  }

  /** The books of a registered adapter agree with the calls it has made. */
  ghost predicate Tracks(h: Health, name: string, calls: seq<CallRecord>) {
    && name in h.statuses && name in h.history && name in h.outbound
    && h.history[name] == Last(calls, MAX_HISTORY)
    && h.statuses[name].totalSuccesses == Count(calls, true)
    && h.statuses[name].totalFailures == Count(calls, false)
    && h.statuses[name].consecutiveFailures == TrailingFailures(calls)
    && h.outbound[name].consecutiveFailures == h.statuses[name].consecutiveFailures
    && h.outbound[name].totalFailures == h.statuses[name].totalFailures
  }

  lemma Appended(calls: seq<CallRecord>, r: CallRecord)
    ensures Pushed(Last(calls, MAX_HISTORY), r) == Last(calls + [r], MAX_HISTORY)
    ensures Count(calls + [r], true) == Count(calls, true) + (if r.success then 1 else 0)
    ensures Count(calls + [r], false) == Count(calls, false) + (if r.success then 0 else 1)
    ensures TrailingFailures(calls + [r]) == if r.success then 0 else TrailingFailures(calls) + 1
  {
    assert (calls + [r])[..|calls|] == calls;
  }

  lemma ApplyTracks(h: Health, op: Op, name: string, calls: seq<CallRecord>)
    requires Tracks(h, name, calls)
    ensures Tracks(Apply(h, op), name, calls + CallsOf([op], name))
  {
    hide Count, TrailingFailures, Last, Pushed, Configured, ActiveIncident;
    assert CallsOf([op][1..], name) == [];
    var made := CallsOf([op], name);
    if made != [] {
      Appended(calls, made[0]);
      assert made == [made[0]];
    } else {
      assert calls + made == calls;
    }
  }

  /** After any run, whatever is registered, probed, marked or reported in between and whatever
      happens to other adapters: the history is the last 1000 calls, the totals are the calls
      by outcome, the consecutive failures are the trailing ones, and the outbound-health
      counters equal the status counters. */
  lemma {:induction false} BooksBalance(h: Health, ops: seq<Op>, name: string, calls: seq<CallRecord>)
    requires Tracks(h, name, calls)
    ensures Tracks(Run(h, ops), name, calls + CallsOf(ops, name))
    decreases |ops|
  {
    if ops == [] {
      assert calls + [] == calls;
    } else {
      ApplyTracks(h, ops[0], name, calls);
      BooksBalance(Apply(h, ops[0]), ops[1..], name, calls + CallsOf([ops[0]], name));
      CallsOfCons(ops, name, calls);
    }
  }

  lemma {:induction false} CountsAddUp(calls: seq<CallRecord>)
    ensures Count(calls, true) + Count(calls, false) == |calls|
  {
    if calls != [] {
      CountsAddUp(calls[..|calls| - 1]);
    }
  }

  /** Registration starts the books, and registering again never resets them. */
  lemma RegisterStartsBooks(h: Health, name: string, r: Readiness)
    requires name !in h.statuses
    ensures Tracks(AfterRegister(h, name, r), name, [])
  {
  }

  /** An adapter registered once: totals add up to the number n of its calls, and the history
      holds the last min(n, 1000). */
  lemma RegisteredAdapterBooks(h: Health, name: string, r: Readiness, ops: seq<Op>)
    requires name !in h.statuses
    ensures var h', calls := Run(AfterRegister(h, name, r), ops), CallsOf(ops, name);
            && Tracks(h', name, calls)
            && h'.statuses[name].totalSuccesses + h'.statuses[name].totalFailures == |calls|
            && |h'.history[name]| == (if |calls| < 1000 then |calls| else 1000)
  {
    RegisterStartsBooks(h, name, r);
    BooksBalance(AfterRegister(h, name, r), ops, name, []);
    assert [] + CallsOf(ops, name) == CallsOf(ops, name);
    CountsAddUp(CallsOf(ops, name));
  }

  // ---------------------------------------------------------------- the reported state

  predicate AnySuccess(calls: seq<CallRecord>) {
    exists i :: 0 <= i < |calls| && calls[i].success
  }

  function StateFor(calls: seq<CallRecord>): State {
    var f := TrailingFailures(calls);
    if f >= 5 then UNHEALTHY else if f >= 2 then DEGRADED else if AnySuccess(calls) then HEALTHY else UNKNOWN
  }

  /** The run leaves `name` alone except for recording its calls. */
  predicate OnlyRecords(ops: seq<Op>, name: string) {
    forall i :: 0 <= i < |ops| ==> ops[i].name == name ==> ops[i].Success? || ops[i].Failure?
  }

  /** The time of the last call with this outcome. */
  function LastAt(calls: seq<CallRecord>, success: bool): Option<Time> {
    if calls == [] then None
    else if calls[|calls| - 1].success == success then Some(calls[|calls| - 1].timestamp)
    else LastAt(calls[..|calls| - 1], success)
  }

  ghost predicate Reports(h: Health, name: string, calls: seq<CallRecord>) {
    && Tracks(h, name, calls) && Configured(h, name) && !ActiveIncident(h, name)
    && h.statuses[name].state == StateFor(calls)
    && h.statuses[name].lastSuccessAt == LastAt(calls, true) && h.statuses[name].lastFailureAt == LastAt(calls, false)
    && h.outbound[name] == OutboundFor(calls)
  }

  /** What outbound health shows of an adapter that has made these calls. */
  function OutboundFor(calls: seq<CallRecord>): Outbound {
    Outbound(StateFor(calls), TrailingFailures(calls), Count(calls, false),
             if calls == [] then None else Some(calls[|calls| - 1].timestamp),
             LastAt(calls, true), LastAt(calls, false))
  }

  lemma AnySuccessAppended(calls: seq<CallRecord>, r: CallRecord)
    ensures AnySuccess(calls + [r]) <==> AnySuccess(calls) || r.success
  {
    var longer := calls + [r];
    assert longer[|calls|] == r;
    if i :| 0 <= i < |calls| && calls[i].success {
      assert longer[i].success;
    }
  }

  lemma StateAfterCall(s: Status, calls: seq<CallRecord>, r: CallRecord, now: Time)
    requires s.consecutiveFailures == TrailingFailures(calls) && s.state == StateFor(calls)
    ensures r.success ==> SuccessStatus(s, false, now).state == StateFor(calls + [r])
    ensures !r.success ==> FailureStatus(s, true, false, now).state == StateFor(calls + [r])
    ensures LastAt(calls + [r], r.success) == Some(r.timestamp)
    ensures LastAt(calls + [r], !r.success) == LastAt(calls, !r.success)
    ensures StateFor(calls + [r]) != INCIDENT_ACTIVE
  {
    assert (calls + [r])[..|calls|] == calls;
    Appended(calls, r);
    AnySuccessAppended(calls, r);
  }

  lemma ApplyReports(h: Health, op: Op, name: string, calls: seq<CallRecord>)
    requires Reports(h, name, calls) && OnlyRecords([op], name)
    ensures Reports(Apply(h, op), name, calls + CallsOf([op], name))
  {
    hide StateFor, TrailingFailures, Count, Last, LastAt, Pushed;
    ApplyTracks(h, op, name, calls);
    assert [op][0] == op;
    assert CallsOf([op][1..], name) == [];
    var made := CallsOf([op], name);
    if op.name == name {
      assert made == [made[0]];
      StateAfterCall(h.statuses[name], calls, made[0], op.now);
      assert (calls + made)[|calls + made| - 1] == made[0];
    } else {
      assert calls + made == calls;
    }
  }

  lemma {:induction false} RunReports(h: Health, ops: seq<Op>, name: string, calls: seq<CallRecord>)
    requires Reports(h, name, calls) && OnlyRecords(ops, name)
    ensures Reports(Run(h, ops), name, calls + CallsOf(ops, name))
    decreases |ops|
  {
    hide Reports, Apply;
    if ops == [] {
      assert calls + [] == calls;
    } else {
      assert OnlyRecords([ops[0]], name);
      ApplyReports(h, ops[0], name, calls);
      RunReports(Apply(h, ops[0]), ops[1..], name, calls + CallsOf([ops[0]], name));
      CallsOfCons(ops, name, calls);
    }
  }

  lemma CallsOfCons(ops: seq<Op>, name: string, calls: seq<CallRecord>)
    requires ops != []
    ensures calls + CallsOf(ops, name) == calls + CallsOf([ops[0]], name) + CallsOf(ops[1..], name)
  {
    assert [ops[0]][1..] == [] && CallsOf([ops[0]][1..], name) == [];
  }

  /** An adapter registered with its credentials configured and no incident: its recorded calls
      alone decide the state, UNHEALTHY from five trailing failures on, DEGRADED from two to
      four, otherwise HEALTHY, or UNKNOWN before the first success; and outbound health shows
      the same state, counts and times. */
  lemma StateFollowsCalls(h: Health, name: string, r: Readiness, ops: seq<Op>)
    requires name !in h.statuses
    requires r.configured != [] && false !in r.configured && !r.incidentActive
    requires OnlyRecords(ops, name)
    ensures var h' := Run(AfterRegister(h, name, r), ops);
            && name in h'.statuses && h'.statuses[name].state == StateFor(CallsOf(ops, name))
            && h'.statuses[name].lastSuccessAt == LastAt(CallsOf(ops, name), true)
            && h'.statuses[name].lastFailureAt == LastAt(CallsOf(ops, name), false)
            && name in h'.outbound && h'.outbound[name] == OutboundFor(CallsOf(ops, name))
  {
    RegisterStartsBooks(h, name, r);
    RunReports(AfterRegister(h, name, r), ops, name, []);
    assert [] + CallsOf(ops, name) == CallsOf(ops, name);
  }

  /** A probe shows HEALTHY exactly if credentials are there, no incident is active, the probe
      says so and the last recorded call did not fail; missing credentials come before an
      incident, an incident before the probe. Outbound health shows an incident as UNHEALTHY. */
  lemma ProbeDecides(h: Health, name: string, probe: bool, now: Time)
    requires name in h.statuses
    ensures var h' := Apply(h, Op.Check(name, probe, now));
            var s, state := h.statuses[name], h'.statuses[name].state;
            var envs := if name in h.readiness then h.readiness[name].configured else [];
            var configured := |envs| > 0 && forall i :: 0 <= i < |envs| ==> envs[i];
            var incident := name in h.readiness && h.readiness[name].incidentActive;
            var healthy := configured && probe;
            && (state == CREDENTIALS_NOT_CONFIGURED <==> !configured)
            && (state == INCIDENT_ACTIVE <==> configured && incident)
            && (state == UNHEALTHY <==> configured && !incident && !probe)
            && (state == HEALTHY <==> healthy && !incident && s.consecutiveFailures == 0)
            && (state == DEGRADED <==> healthy && !incident && s.consecutiveFailures > 0)
            && h'.outbound[name].state == (if state == INCIDENT_ACTIVE then UNHEALTHY else state)
            && h'.outbound[name].lastCheckedAt == Some(now)
            && h'.statuses[name].lastSuccessAt == (if healthy then Some(now) else s.lastSuccessAt)
            && h'.statuses[name].lastFailureAt == (if healthy then s.lastFailureAt else Some(now))
  {
  }

  /** The calls that leave readiness alone. */
  predicate KeepsReadiness(ops: seq<Op>, name: string) {
    forall i :: 0 <= i < |ops| ==> ops[i].name == name ==> ops[i].Success? || ops[i].Failure? || ops[i].Check?
  }

  ghost predicate ShowsIncident(h: Health, name: string) {
    && name in h.statuses && Configured(h, name) && ActiveIncident(h, name)
    && h.statuses[name].state == INCIDENT_ACTIVE
  }

  lemma IncidentStep(h: Health, op: Op, name: string)
    requires ShowsIncident(h, name) && KeepsReadiness([op], name)
    ensures ShowsIncident(Apply(h, op), name)
  {
    assert [op][0] == op;
  }

  /** Outbound health then depends on the last call: a success shows HEALTHY all the same. */
  lemma OutboundUnderIncident(h: Health, name: string, latencyMs: int, probe: bool, now: Time)
    requires ShowsIncident(h, name)
    ensures var h' := Apply(h, Op.Success(name, latencyMs, now));
            name in h'.outbound && h'.outbound[name].state == HEALTHY
    ensures var h' := Apply(h, Op.Failure(name, now)); name in h'.outbound && h'.outbound[name].state == UNHEALTHY
    ensures var h' := Apply(h, Op.Check(name, probe, now)); name in h'.outbound && h'.outbound[name].state == UNHEALTHY
  {
  }

  /** While an incident is active, no recorded call and no probe, whatever its outcome, hides it. */
  lemma {:induction false} IncidentStaysShown(h: Health, ops: seq<Op>, name: string)
    requires ShowsIncident(h, name) && KeepsReadiness(ops, name)
    ensures ShowsIncident(Run(h, ops), name)
    decreases |ops|
  {
    hide ShowsIncident, Apply;
    if ops != [] {
      assert KeepsReadiness([ops[0]], name);
      IncidentStep(h, ops[0], name);
      IncidentStaysShown(Apply(h, ops[0]), ops[1..], name);
    }
  }

  /** Marking the credentials as configured does so for every environment of a known adapter, and
      ends the state that said they were missing, not any other; outbound health starts anew. */
  lemma MarkDecides(h: Health, name: string, now: Time)
    requires name in h.statuses && name in h.readiness
    ensures var h' := Apply(h, Op.Mark(name, now));
            var envs, state := h'.readiness[name].configured, h.statuses[name].state;
            && |envs| == |h.readiness[name].configured| && (forall i :: 0 <= i < |envs| ==> envs[i])
            && h'.readiness[name].incidentActive == h.readiness[name].incidentActive
            && h'.statuses == h.statuses[name := h.statuses[name].(state :=
                                if state == CREDENTIALS_NOT_CONFIGURED then UNKNOWN else state)]
            && h'.outbound[name].state == UNKNOWN && h'.outbound[name].lastCheckedAt == Some(now)
  {
  }

  /** An incident of an adapter with credentials shows at once, and an incident that is over stops
      showing with the next recorded success. */
  lemma IncidentShowsUntilOver(h: Health, name: string, latencyMs: int, now: Time)
    requires name in h.statuses && name in h.readiness
    requires h.readiness[name].configured != [] && false !in h.readiness[name].configured
    ensures ShowsIncident(Apply(h, Op.Incident(name, true)), name)
    ensures var over := Apply(h, Op.Incident(name, false));
            && over.statuses == h.statuses && over.outbound == h.outbound
            && Apply(over, Op.Success(name, latencyMs, now)).statuses[name].state == HEALTHY
  {
  }

  /** Registering a known adapter again replaces its readiness and nothing else. */
  lemma RegisteredAgain(h: Health, name: string, r: Readiness)
    requires name in h.statuses
    ensures Apply(h, Op.Register(name, r)) == h.(readiness := h.readiness[name := r])
  {
  }

  /** Some environment has no credentials, or there is no environment. */
  predicate Lacking(envs: seq<bool>) {
    |envs| == 0 || exists i :: 0 <= i < |envs| && !envs[i]
  }

  ghost predicate ShowsMissing(h: Health, name: string) {
    && name in h.statuses && name in h.readiness && name in h.outbound
    && Lacking(h.readiness[name].configured)
    && h.statuses[name].state == CREDENTIALS_NOT_CONFIGURED && h.outbound[name].state == CREDENTIALS_NOT_CONFIGURED
  }

  /** Nothing but failures and probes happens to `name`. */
  predicate OnlyFailsOrProbes(ops: seq<Op>, name: string) {
    forall i :: 0 <= i < |ops| ==> ops[i].name == name ==> ops[i].Failure? || ops[i].Check?
  }

  lemma MissingStep(h: Health, op: Op, name: string)
    requires ShowsMissing(h, name) && OnlyFailsOrProbes([op], name)
    ensures ShowsMissing(Apply(h, op), name)
  {
    assert [op][0] == op;
    assert false in h.readiness[name].configured || h.readiness[name].configured == [];
  }

  lemma {:induction false} MissingStays(h: Health, ops: seq<Op>, name: string)
    requires ShowsMissing(h, name) && OnlyFailsOrProbes(ops, name)
    ensures ShowsMissing(Run(h, ops), name)
    decreases |ops|
  {
    hide ShowsMissing, Apply;
    if ops != [] {
      assert OnlyFailsOrProbes([ops[0]], name);
      MissingStep(h, ops[0], name);
      MissingStays(Apply(h, ops[0]), ops[1..], name);
    }
  }

  /** An adapter registered without credentials shows that, whatever its failures and probes, in
      its status and in outbound health. */
  lemma MissingCredentialsStayShown(h: Health, name: string, r: Readiness, ops: seq<Op>)
    requires name !in h.statuses && Lacking(r.configured) && OnlyFailsOrProbes(ops, name)
    ensures ShowsMissing(Run(Apply(h, Op.Register(name, r)), ops), name)
  {
    assert false in r.configured || r.configured == [];
    MissingStays(Apply(h, Op.Register(name, r)), ops, name);
  }
}
