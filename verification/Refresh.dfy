/**
 The latest-wins refresh coordinator of frontend/data-source.js. Between two await
 points JavaScript runs to completion, so the steps are: a call of `request`, an awaited
 run settling, and a suspended drain resuming after it.
 */
module Refresh {
  import opened Wrappers

  datatype Ticket = Ticket(token: nat, routeKey: string)

  /** One call of the async drain function, suspended at its await or finished. */
  datatype Drain =
    | Awaiting(request: Ticket)
    | Ready(request: Ticket, rejected: bool)
    | Finished

  datatype State = State(
    nextToken: nat, latestToken: nat, active: Option<Ticket>, pending: Option<Ticket>,
    live: bool, drains: seq<Drain>, started: seq<Ticket>)

  const INITIAL := State(0, 0, None, None, false, [], [])

  /** The loop head of drain number `id`: start the pending request, or finish. */
  function LoopHead(s: State, id: nat): State
    requires id < |s.drains|
  {
    match s.pending
    case Some(request) =>
      s.(pending := None, active := Some(request), drains := s.drains[id := Awaiting(request)],
         started := s.started + [request])
    case None => Finally(s, id)
  }

  function Finally(s: State, id: nat): State
    requires id < |s.drains|
  {
    s.(active := None, live := false, drains := s.drains[id := Finished])
  }

  function Requested(s: State, routeKey: string): State {
    var token := s.nextToken + 1;
    var asked := s.(nextToken := token, latestToken := token, pending := Some(Ticket(token, routeKey)));
    if s.live then asked
    else LoopHead(asked.(drains := s.drains + [Finished]), |s.drains|).(live := true)
  }

  function Resumed(s: State, id: nat): State {
    if id < |s.drains| && s.drains[id].Ready? then
      if s.drains[id].rejected then Finally(s, id) else LoopHead(s, id)
    else s
  }

  function Settled(s: State, id: nat, rejected: bool): State {
    if id < |s.drains| && s.drains[id].Awaiting?
        then s.(drains := s.drains[id := Ready(s.drains[id].request, rejected)])
    else s
  }

  predicate IsCurrent(s: State, request: Ticket, currentRoute: string) {
    && s.active.Some? && s.active.value.token == request.token
    && s.latestToken == request.token && currentRoute == request.routeKey
  }

  class Coordinator {
    var nextToken: nat
    var latestToken: nat
    var active: Option<Ticket>
    var pending: Option<Ticket>
    var live: bool
    var drains: seq<Drain>
    var started: seq<Ticket>

    function Contents(): State
      reads this
    {
      State(nextToken, latestToken, active, pending, live, drains, started)
    }

    constructor ()
      ensures Contents() == INITIAL
    {
      nextToken, latestToken, active, pending := 0, 0, None, None;
      live, drains, started := false, [], [];
    }

    method DrainFrom(id: nat, skipLoop: bool)
      requires id < |drains|
      modifies this
      ensures Contents() == if skipLoop then Finally(old(Contents()), id) else LoopHead(old(Contents()), id)
    {
      if !skipLoop && pending.Some? {
        var request := pending.value;
        pending := None;
        active := Some(request);
        started := started + [request];
        drains := drains[id := Awaiting(request)];
        return;
      }
      active := None;
      live := false;
      drains := drains[id := Finished];
    }

    method Request(routeKey: string)
      modifies this
      ensures Contents() == Requested(old(Contents()), routeKey)
    {
      nextToken := nextToken + 1;
      var token := nextToken;
      latestToken := token;
      pending := Some(Ticket(token, routeKey));
      if !live {
        drains := drains + [Finished];
        DrainFrom(|drains| - 1, false);
        live := true;
      }
    }

    method Resume(id: nat)
      modifies this
      ensures Contents() == Resumed(old(Contents()), id)
    {
      if id < |drains| && drains[id].Ready? {
        DrainFrom(id, drains[id].rejected);
      }
    }

    method RunIsCurrent(request: Ticket, currentRoute: string) returns (r: bool)
      ensures r == IsCurrent(Contents(), request, currentRoute)
      ensures r <==> && active.Some? && active.value.token == request.token && latestToken == request.token
                     && currentRoute == request.routeKey
    {
      r := active.Some? && active.value.token == request.token
        && latestToken == request.token && currentRoute == request.routeKey;
    }
  }

  // ---- whole runs -----------------------------------------------------------------

  datatype Step = Ask(routeKey: string) | Settle(id: nat, rejected: bool) | Resume(id: nat)

  function Next(s: State, step: Step): State {
    match step
    case Ask(routeKey) => Requested(s, routeKey)
    case Settle(id, rejected) => Settled(s, id, rejected)
    case Resume(id) => Resumed(s, id)
  }

  function Run(steps: seq<Step>): State {
    if steps == [] then INITIAL else Next(Run(steps[..|steps| - 1]), steps[|steps| - 1])
  }

  /** At most one drain, the last one, is unfinished, and it runs the active request. */
  ghost predicate OneDrain(s: State) {
    && (forall i :: 0 <= i < |s.drains| - 1 ==> s.drains[i] == Finished)
    && (s.live <==> s.drains != [] && s.drains[|s.drains| - 1] != Finished)
    && (s.live ==> s.active == Some(s.drains[|s.drains| - 1].request))
    && (!s.live ==> s.active == None)
  }

  function LastStarted(s: State): nat {
    if s.started == [] then 0 else s.started[|s.started| - 1].token
  }

  /** Tokens of started runs strictly increase. */
  ghost predicate TokensIncrease(started: seq<Ticket>) {
    forall i, j :: 0 <= i < j < |started| ==> started[i].token < started[j].token
  }

  ghost predicate TokensFit(s: State) {
    && s.latestToken == s.nextToken
    && LastStarted(s) <= s.nextToken
    && (s.pending.Some? ==> s.pending.value.token == s.nextToken && LastStarted(s) < s.nextToken)
    && (s.pending.None? ==> LastStarted(s) == s.nextToken)
    && (s.active.Some? ==> s.started != [] && s.active.value == s.started[|s.started| - 1])
  }

  ghost predicate Sound(s: State) {
    OneDrain(s) && TokensIncrease(s.started) && TokensFit(s)
  }

  lemma StepKeepsOneDrain(s: State, step: Step)
    requires OneDrain(s)
    ensures OneDrain(Next(s, step))
  {
  }

  lemma StepKeepsFit(s: State, step: Step)
    requires OneDrain(s) && TokensFit(s)
    ensures TokensFit(Next(s, step))
  {
  }

  lemma StepKeepsIncrease(s: State, step: Step)
    requires OneDrain(s) && TokensIncrease(s.started) && TokensFit(s)
    ensures TokensIncrease(Next(s, step).started)
  {
    forall i | 0 <= i < |s.started| ensures s.started[i].token <= LastStarted(s) {
      assert i < |s.started| - 1 ==> s.started[i].token < s.started[|s.started| - 1].token;
    }
  }

  lemma StepKeepsTokens(s: State, step: Step)
    requires OneDrain(s) && TokensIncrease(s.started) && TokensFit(s)
    ensures TokensIncrease(Next(s, step).started) && TokensFit(Next(s, step))
  {
    StepKeepsFit(s, step);
    StepKeepsIncrease(s, step);
  }

  /** Whatever the order of requests, settlements and resumptions. */
  lemma {:induction false} EveryRunIsSound(steps: seq<Step>)
    ensures Sound(Run(steps))
  {
    if steps != [] {
      EveryRunIsSound(steps[..|steps| - 1]);
      StepKeepsOneDrain(Run(steps[..|steps| - 1]), steps[|steps| - 1]);
      StepKeepsTokens(Run(steps[..|steps| - 1]), steps[|steps| - 1]);
    }
  }

  /** Two unfinished drains are the same one, so at most one run is in flight. */
  lemma OneRunInFlight(steps: seq<Step>, i: nat, j: nat)
    requires i < |Run(steps).drains| && j < |Run(steps).drains|
    requires Run(steps).drains[i] != Finished && Run(steps).drains[j] != Finished
    ensures i == j && Run(steps).live && Run(steps).active == Some(Run(steps).drains[i].request)
  {
    EveryRunIsSound(steps);
  }

  /** Runs start in the order of their requests, each request at most once, and the n-th request holds token n. */
  lemma StartedTokensIncrease(steps: seq<Step>, i: nat, j: nat)
    requires i < j < |Run(steps).started|
    ensures 0 < Run(steps).started[i].token < Run(steps).started[j].token <= Run(steps).nextToken == Asked(steps)
  {
    EveryRunIsSound(steps);
    TokensCountRequests(steps);
    TicketsAreRequests(steps);
    var started := Run(steps).started;
    assert j < |started| - 1 ==> started[j].token < started[|started| - 1].token;
  }

  function AskedKeys(steps: seq<Step>): seq<string> {
    if steps == [] then []
    else
      var before := AskedKeys(steps[..|steps| - 1]);
      match steps[|steps| - 1]
      case Ask(routeKey) => before + [routeKey]
      case _ => before
  }

  function Asked(steps: seq<Step>): nat {
    |AskedKeys(steps)|
  }

  predicate IsRequest(keys: seq<string>, ticket: Ticket) {
    1 <= ticket.token <= |keys| && keys[ticket.token - 1] == ticket.routeKey
  }

  /** Every ticket, waiting or started, carries the route of the request that took its token. */
  lemma {:induction false} TicketsAreRequests(steps: seq<Step>)
    ensures forall i :: 0 <= i < |Run(steps).started| ==> IsRequest(AskedKeys(steps), Run(steps).started[i])
    ensures Run(steps).pending.Some? ==> IsRequest(AskedKeys(steps), Run(steps).pending.value)
  {
    if steps != [] {
      TicketsAreRequests(steps[..|steps| - 1]);
      TokensCountRequests(steps[..|steps| - 1]);
      var before, after := Run(steps[..|steps| - 1]), Run(steps);
      forall i | 0 <= i < |after.started| ensures IsRequest(AskedKeys(steps), after.started[i]) {
        assert i < |before.started| ==> after.started[i] == before.started[i];
      }
    }
  }

  lemma {:induction false} TokensCountRequests(steps: seq<Step>)
    ensures Run(steps).nextToken == Asked(steps)
  {
    if steps != [] {
      TokensCountRequests(steps[..|steps| - 1]);
    }
  }

  // ---- being current ----------------------------------------------------------------

  /** A run that sees itself as current is the newest request, and nothing is waiting behind it. */
  lemma CurrentMeansNewest(steps: seq<Step>, request: Ticket, currentRoute: string)
    requires IsCurrent(Run(steps), request, currentRoute)
    ensures request.token == Asked(steps) && Run(steps).pending.None?
    ensures Run(steps).live
  {
    EveryRunIsSound(steps);
    TokensCountRequests(steps);
  }

  /**
   A started run is current exactly when a drain is live, its token is the number of requests so
   far, and the browser shows the route of the last request.
   */
  lemma CurrentExactlyWhen(steps: seq<Step>, i: nat, currentRoute: string)
    requires i < |Run(steps).started|
    ensures var ticket := Run(steps).started[i];
            IsCurrent(Run(steps), ticket, currentRoute)
            <==> && Run(steps).live
                 && ticket.token == |AskedKeys(steps)|
                 && AskedKeys(steps) != [] && currentRoute == AskedKeys(steps)[|AskedKeys(steps)| - 1]
  {
    EveryRunIsSound(steps);
    TokensCountRequests(steps);
    TicketsAreRequests(steps);
    var started := Run(steps).started;
    assert IsRequest(AskedKeys(steps), started[i]);
    assert i < |started| - 1 ==> started[i].token < started[|started| - 1].token;
  }

  lemma StepOnlyGrows(s: State, step: Step)
    ensures s.nextToken <= Next(s, step).nextToken && s.started <= Next(s, step).started
  {
  }

  lemma {:induction false} TokensOnlyGrow(steps: seq<Step>, n: nat)
    requires n <= |steps|
    ensures Run(steps[..n]).nextToken <= Run(steps).nextToken
    ensures Run(steps[..n]).started <= Run(steps).started
  {
    if n == |steps| {
      assert steps[..n] == steps;
    } else {
      var before := steps[..|steps| - 1];
      assert before[..n] == steps[..n];
      TokensOnlyGrow(before, n);
      StepOnlyGrows(Run(before), steps[|steps| - 1]);
    }
  }

  /** Once a newer request exists, a run never again sees itself as current, wherever the user navigates. */
  lemma SupersededStaysSuperseded(steps: seq<Step>, n: nat, request: Ticket, currentRoute: string)
    requires n <= |steps| && request.token < Run(steps[..n]).latestToken
    ensures !IsCurrent(Run(steps), request, currentRoute)
  {
    EveryRunIsSound(steps[..n]);
    EveryRunIsSound(steps);
    TokensOnlyGrow(steps, n);
  }

  /** Nor does a run the drain has moved on from, even when no newer request exists. */
  lemma FinishedStaysFinished(steps: seq<Step>, n: nat, k: nat, currentRoute: string)
    requires n <= |steps| && k < |Run(steps[..n]).started|
    requires Run(steps[..n]).active != Some(Run(steps[..n]).started[k])
    ensures !IsCurrent(Run(steps), Run(steps[..n]).started[k], currentRoute)
    decreases |steps|
  {
    EveryRunIsSound(steps);
    if n == |steps| {
      assert steps[..n] == steps;
    } else {
      var before := steps[..|steps| - 1];
      assert before[..n] == steps[..n];
      EveryRunIsSound(before);
      TokensOnlyGrow(before, n);
      FinishedStays(before, n, k);
      MovedOn(Run(before), steps[|steps| - 1], k);
    }
  }

  lemma MovedOn(s: State, step: Step, k: nat)
    requires Sound(s) && k < |s.started| && s.active != Some(s.started[k])
    ensures k < |Next(s, step).started| && Next(s, step).started[k] == s.started[k]
    ensures Next(s, step).active != Some(s.started[k])
    ensures forall route :: !IsCurrent(Next(s, step), s.started[k], route)
  {
    assert k < |s.started| - 1 ==> s.started[k].token < LastStarted(s);
    StepKeepsOneDrain(s, step);
    StepKeepsTokens(s, step);
  }

  lemma {:induction false} FinishedStays(steps: seq<Step>, n: nat, k: nat)
    requires n <= |steps| && k < |Run(steps[..n]).started|
    requires Run(steps[..n]).active != Some(Run(steps[..n]).started[k])
    ensures k < |Run(steps).started| && Run(steps).started[k] == Run(steps[..n]).started[k]
    ensures Run(steps).active != Some(Run(steps).started[k])
  {
    if n == |steps| {
      assert steps[..n] == steps;
    } else {
      var before := steps[..|steps| - 1];
      assert before[..n] == steps[..n];
      FinishedStays(before, n, k);
      EveryRunIsSound(before);
      MovedOn(Run(before), steps[|steps| - 1], k);
    }
  }

  // ---- no lost wake-up ----------------------------------------------------------------

  /** A request waits and no drain will ever look at it. */
  predicate Stranded(s: State) {
    s.pending.Some? && !s.live
  }

  /** A drain resumes from a rejected run while a request waits. */
  predicate Strands(s: State, step: Step) {
    && step.Resume? && step.id < |s.drains| && s.drains[step.id].Ready? && s.drains[step.id].rejected
    && s.pending.Some?
  }

  /** The one way to strand a request: a drain resumes from a rejected run while a request waits. */
  lemma StrandedExactlyByRejection(s: State, step: Step)
    requires Sound(s) && !Stranded(s)
    ensures Stranded(Next(s, step)) <==> Strands(s, step)
  {
  }

  /** Step n was such a resumption, and nothing was requested since. */
  predicate StrandedBy(steps: seq<Step>, n: nat) {
    && n < |steps| && Strands(Run(steps[..n]), steps[n])
    && forall i :: n < i < |steps| ==> !steps[i].Ask?
  }

  /** A stranded request stays so until the next request, which starts a run of its own. */
  lemma StrandedUntilAsked(s: State, step: Step)
    requires Sound(s) && Stranded(s)
    ensures Stranded(Next(s, step)) <==> !step.Ask?
  {
  }

  lemma StrandedByLonger(steps: seq<Step>, n: nat)
    requires steps != [] && n < |steps| - 1
    ensures StrandedBy(steps, n) <==> StrandedBy(steps[..|steps| - 1], n) && !steps[|steps| - 1].Ask?
  {
    var before := steps[..|steps| - 1];
    assert before[..n] == steps[..n] && before[n] == steps[n];
    assert forall i :: n < i < |before| ==> before[i] == steps[i];
  }

  lemma StrandedByLast(steps: seq<Step>)
    requires steps != []
    ensures StrandedBy(steps, |steps| - 1) <==> Strands(Run(steps[..|steps| - 1]), steps[|steps| - 1])
  {
  }

  ghost predicate SomeStranded(steps: seq<Step>) {
    exists n: nat :: StrandedBy(steps, n)
  }

  lemma StrandedNowOrBefore(steps: seq<Step>)
    requires steps != []
    ensures var before, last := steps[..|steps| - 1], steps[|steps| - 1];
            SomeStranded(steps) <==> Strands(Run(before), last) || (SomeStranded(before) && !last.Ask?)
  {
    var before, last := steps[..|steps| - 1], steps[|steps| - 1];
    StrandedByLast(steps);
    if SomeStranded(before) {
      var n: nat :| StrandedBy(before, n);
      StrandedByLonger(steps, n);
    }
    if SomeStranded(steps) {
      var n: nat :| StrandedBy(steps, n);
      if n < |steps| - 1 {
        StrandedByLonger(steps, n);
      }
    }
  }

  /** Without a live drain there is nothing left to resume. */
  lemma NotStrandedTwice(s: State, step: Step)
    requires Sound(s) && Stranded(s)
    ensures !Strands(s, step)
  {
  }

  /**
   Over whole runs: a request is stranded exactly when some drain resumed from a rejected run while
   one waited, and none came after.
   */
  lemma {:induction false} StrandedExactlyWhen(steps: seq<Step>)
    ensures Stranded(Run(steps)) <==> SomeStranded(steps)
  {
    if steps != [] {
      var before, last := steps[..|steps| - 1], steps[|steps| - 1];
      StrandedExactlyWhen(before);
      EveryRunIsSound(before);
      StrandedNowOrBefore(steps);
      if Stranded(Run(before)) {
        StrandedUntilAsked(Run(before), last);
        NotStrandedTwice(Run(before), last);
      } else {
        StrandedExactlyByRejection(Run(before), last);
      }
    }
  }

  predicate NoRejection(steps: seq<Step>) {
    steps == [] || (NoRejection(steps[..|steps| - 1]) && (steps[|steps| - 1].Settle? ==> !steps[|steps| - 1].rejected))
  }

  /** Runs at the call site catch their own errors; then a waiting request always has a live drain. */
  lemma {:induction false} NoLostWakeUp(steps: seq<Step>)
    requires NoRejection(steps)
    ensures Run(steps).pending.Some? ==> Run(steps).live
    ensures forall i :: 0 <= i < |Run(steps).drains| && Run(steps).drains[i].Ready? ==> !Run(steps).drains[i].rejected
  {
    if steps != [] {
      NoLostWakeUp(steps[..|steps| - 1]);
      EveryRunIsSound(steps[..|steps| - 1]);
    }
  }

  /**
   A rejected run with a request behind it leaves that request waiting with nothing in flight; the
   next request takes over.
   */
  lemma RejectionStrands()
    ensures var steps := [Ask("a")] + [Ask("b")] + [Settle(0, true)] + [Resume(0)];
            && Stranded(Run(steps)) && Run(steps).pending == Some(Ticket(2, "b"))
            && forall key :: !Stranded(Next(Run(steps), Ask(key)))
  {
    RunSnoc([], Ask("a"));
    assert [] + [Ask("a")] == [Ask("a")];
    RunSnoc([Ask("a")], Ask("b"));
    RunSnoc([Ask("a")] + [Ask("b")], Settle(0, true));
    RunSnoc([Ask("a")] + [Ask("b")] + [Settle(0, true)], Resume(0));
  }

  lemma RunSnoc(steps: seq<Step>, step: Step)
    ensures Run(steps + [step]) == Next(Run(steps), step)
  {
    assert (steps + [step])[..|steps + [step]| - 1] == steps;
  }

  /**
   When nothing is in flight, the last run started is the last one requested exactly when no
   request was stranded; without rejections that is always so.
   */
  lemma QuietMeansCaughtUp(steps: seq<Step>)
    requires !Run(steps).live
    ensures LastStarted(Run(steps)) == Asked(steps) <==> Run(steps).pending.None?
    ensures LastStarted(Run(steps)) == Asked(steps) <==> !SomeStranded(steps)
    ensures NoRejection(steps) ==> LastStarted(Run(steps)) == Asked(steps)
  {
    EveryRunIsSound(steps);
    TokensCountRequests(steps);
    StrandedExactlyWhen(steps);
    if NoRejection(steps) {
      NoLostWakeUp(steps);
    }
  }

  /** The run in flight settles without throwing and its drain resumes. */
  function Round(s: State): State
    requires s.drains != []
  {
    Resumed(Settled(s, |s.drains| - 1, false), |s.drains| - 1)
  }

  /**
   However many requests arrived meanwhile, at most two more runs settle before everything is quiet,
   the last being the newest.
   */
  lemma TwoRoundsSuffice(steps: seq<Step>)
    requires Run(steps).live && Run(steps).drains != [] && Run(steps).drains[|Run(steps).drains| - 1].Awaiting?
    ensures var s := Run(steps); var one := Round(s);
            if s.pending.None? then !one.live && LastStarted(one) == Asked(steps)
            else one.live && one.active == s.pending && !Round(one).live && LastStarted(Round(one)) == Asked(steps)
  {
    EveryRunIsSound(steps);
    TokensCountRequests(steps);
  }
}
