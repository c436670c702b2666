/** Request accounting when any number of handlers of one router step concurrently with the poll loop. */
module Requests {
  import opened Options
  import opened Routers
  import opened ShardMaps

  /** How far one request has come; each field is set once, in this order. */
  datatype Handler = Handler(
    loaded: Option<Option<ShardMap>>,  // the map this request loaded
    conversation: string,
    counted: Option<int>,                // shard counted
    header: Option<int>,               // shard sent upstream
    status: Option<int>)               // status counted

  datatype State = State(
    current: Option<ShardMap>,
    handlers: seq<Handler>,
    routeTotal: multiset<int>,
    chosenShard: multiset<int>)

  datatype Event =
    | Refresh(m: ShardMap)
    | Arrive
    | ReadFails(h: nat)
    | Load(h: nat, conversation: string)
    | CountShard(h: nat)
    | BuildFails(h: nat)
    | Send(h: nat)
    | UpstreamFails(h: nat)
    | Respond(h: nat, code: int)

  const INITIAL := State(None, [], multiset{}, multiset{})

  /** The shard this request computed right after loading the map. */
  function ShardOf(h: Handler): int
    requires h.loaded.Some?
  {
    ShardFor(h.loaded.value, h.conversation)
  }

  predicate Enabled(s: State, e: Event) {
    match e
    case Refresh(_) => true
    case Arrive => true
    case ReadFails(i) => i < |s.handlers| && s.handlers[i].loaded.None? && s.handlers[i].status.None?
    case Load(i, _) => i < |s.handlers| && s.handlers[i].loaded.None? && s.handlers[i].status.None?
    case CountShard(i) => i < |s.handlers| && s.handlers[i].loaded.Some? && s.handlers[i].counted.None?
    case BuildFails(i) => i < |s.handlers| && s.handlers[i].counted.Some? && s.handlers[i].header.None?
                          && s.handlers[i].status.None?
    case Send(i) => i < |s.handlers| && s.handlers[i].loaded.Some? && s.handlers[i].counted.Some?
                    && s.handlers[i].header.None? && s.handlers[i].status.None?
    case UpstreamFails(i) => i < |s.handlers| && s.handlers[i].header.Some? && s.handlers[i].status.None?
    case Respond(i, _) => i < |s.handlers| && s.handlers[i].header.Some? && s.handlers[i].status.None?
  }

  function Finish(s: State, i: nat, code: int): State
    requires i < |s.handlers|
  {
    s.(handlers := s.handlers[i := s.handlers[i].(status := Some(code))],
       routeTotal := s.routeTotal + multiset{code})
  }

  function Apply(s: State, e: Event): State
    requires Enabled(s, e)
  {
    match e
    case Refresh(m) => s.(current := Some(m))
    case Arrive => s.(handlers := s.handlers + [Handler(None, "", None, None, None)])
    case ReadFails(i) => Finish(s, i, 400)
    case Load(i, c) => s.(handlers := s.handlers[i := s.handlers[i].(loaded := Some(s.current), conversation := c)])
    case CountShard(i) =>
      var shard := ShardOf(s.handlers[i]);
      s.(handlers := s.handlers[i := s.handlers[i].(counted := Some(shard))],
         chosenShard := s.chosenShard + multiset{shard})
    case BuildFails(i) => Finish(s, i, 500)
    case Send(i) => s.(handlers := s.handlers[i := s.handlers[i].(header := Some(ShardOf(s.handlers[i])))])
    case UpstreamFails(i) => Finish(s, i, 502)
    case Respond(i, code) => Finish(s, i, code)
  }

  ghost predicate Run(states: seq<State>, events: seq<Event>) {
    && |states| == |events| + 1
    && states[0] == INITIAL
    && forall i :: 0 <= i < |events| ==> Enabled(states[i], events[i]) && states[i + 1] == Apply(states[i], events[i])
  }

  /** How many elements satisfy p. */
  function Tally(hs: seq<Handler>, p: Handler -> bool): nat {
    if |hs| == 0 then 0 else Tally(hs[..|hs| - 1], p) + if p(hs[|hs| - 1]) then 1 else 0
  }

  predicate InFlight(h: Handler) {
    h.status.None?
  }

  predicate Finished(h: Handler) {
    h.status.Some?
  }

  predicate PastSelection(h: Handler) {
    h.counted.Some?
  }

  function WithStatus(code: int): Handler -> bool {
    (h: Handler) => h.status == Some(code)
  }

  function WithShard(shard: int): Handler -> bool {
    (h: Handler) => h.counted == Some(shard)
  }

  /** Counter label and header both come from the one map this request loaded. */
  ghost predicate SingleLoad(h: Handler) {
    && (h.counted.Some? ==> h.loaded.Some? && h.counted.value == ShardOf(h))
    && (h.header.Some? ==> h.counted == h.header)
  }

  /** Which status a request ends with: 400 before selection, 500 between selection and sending. */
  ghost predicate EndsRight(h: Handler) {
    && (h.counted.Some? ==> h.loaded.Some?) && (h.header.Some? ==> h.counted.Some?)
    && (h.status.Some? && h.loaded.None? ==> h.status.value == 400)
    && (h.loaded.Some? && h.counted.None? ==> h.status.None?)
    && (h.status.Some? && h.counted.Some? && h.header.None? ==> h.status.value == 500)
  }

  /** What each event adds to the two counters: one status per exit, one shard per selection. */
  lemma WhatIsCounted(s: State, e: Event)
    requires Enabled(s, e)
    ensures var t := Apply(s, e);
            && t.routeTotal == s.routeTotal
                               + (match e
                                  case ReadFails(_) => multiset{400}
                                  case BuildFails(_) => multiset{500}
                                  case UpstreamFails(_) => multiset{502}
                                  case Respond(_, code) => multiset{code}
                                  case _ => multiset{})
            && t.chosenShard == s.chosenShard
                                + (match e
                                   case CountShard(i) =>
                                     multiset{ShardFor(s.handlers[i].loaded.value, s.handlers[i].conversation)}
                                   case _ => multiset{})
            && (e.Load? ==> t.handlers[e.h].loaded == Some(s.current) && t.handlers[e.h].conversation == e.conversation)
            && (e.Refresh? ==> t.current == Some(e.m)) && (!e.Refresh? ==> t.current == s.current)
  {
  }

  ghost predicate Inv(s: State) {
    && |s.routeTotal| == Tally(s.handlers, Finished)
    && |s.chosenShard| == Tally(s.handlers, PastSelection)
    && (forall code :: s.routeTotal[code] == Tally(s.handlers, WithStatus(code)))
    && (forall shard :: s.chosenShard[shard] == Tally(s.handlers, WithShard(shard)))
    && (forall i :: 0 <= i < |s.handlers| ==> SingleLoad(s.handlers[i]) && EndsRight(s.handlers[i]))
  }

  lemma {:induction false} TallyUpdate(hs: seq<Handler>, i: nat, h: Handler, p: Handler -> bool)
    requires i < |hs|
    ensures Tally(hs[i := h], p) == Tally(hs, p) - (if p(hs[i]) then 1 else 0) + (if p(h) then 1 else 0)
    decreases |hs|
  {
    var n := |hs| - 1;
    if i == n {
      assert hs[i := h][..n] == hs[..n];
    } else {
      TallyUpdate(hs[..n], i, h, p);
      assert hs[i := h][..n] == hs[..n][i := h];
    }
  }

  lemma TallySnoc(hs: seq<Handler>, h: Handler, p: Handler -> bool)
    ensures Tally(hs + [h], p) == Tally(hs, p) + if p(h) then 1 else 0
  {
    assert (hs + [h])[..|hs|] == hs;
  }

  lemma ArrivalKeepsInv(s: State, h: Handler)
    requires Inv(s) && h.loaded.None? && h.counted.None? && h.header.None? && h.status.None?
    ensures Inv(s.(handlers := s.handlers + [h]))
  {
    var hs := s.handlers + [h];
    TallySnoc(s.handlers, h, Finished);
    TallySnoc(s.handlers, h, PastSelection);
    forall code ensures Tally(hs, WithStatus(code)) == Tally(s.handlers, WithStatus(code)) {
      TallySnoc(s.handlers, h, WithStatus(code));
    }
    forall shard ensures Tally(hs, WithShard(shard)) == Tally(s.handlers, WithShard(shard)) {
      TallySnoc(s.handlers, h, WithShard(shard));
    }
  }

  /** A handler moving on keeps the status books if it finishes exactly when a status is counted. */
  lemma StatusBooks(s: State, i: nat, h: Handler, t: State)
    requires Inv(s) && i < |s.handlers| && t.handlers == s.handlers[i := h]
    requires (t.routeTotal == s.routeTotal && h.status == s.handlers[i].status)
             || (s.handlers[i].status.None? && h.status.Some?
                 && t.routeTotal == s.routeTotal + multiset{h.status.value})
    ensures |t.routeTotal| == Tally(t.handlers, Finished)
    ensures forall code :: t.routeTotal[code] == Tally(t.handlers, WithStatus(code))
  {
    TallyUpdate(s.handlers, i, h, Finished);
    forall code ensures t.routeTotal[code] == Tally(t.handlers, WithStatus(code)) {
      TallyUpdate(s.handlers, i, h, WithStatus(code));
    }
  }

  lemma ShardBooks(s: State, i: nat, h: Handler, t: State)
    requires Inv(s) && i < |s.handlers| && t.handlers == s.handlers[i := h]
    requires (t.chosenShard == s.chosenShard && h.counted == s.handlers[i].counted)
             || (s.handlers[i].counted.None? && h.counted.Some?
                 && t.chosenShard == s.chosenShard + multiset{h.counted.value})
    ensures |t.chosenShard| == Tally(t.handlers, PastSelection)
    ensures forall shard :: t.chosenShard[shard] == Tally(t.handlers, WithShard(shard))
  {
    TallyUpdate(s.handlers, i, h, PastSelection);
    forall shard ensures t.chosenShard[shard] == Tally(t.handlers, WithShard(shard)) {
      TallyUpdate(s.handlers, i, h, WithShard(shard));
    }
  }

  /** What one step of a handler does to that handler and to the counters. */
  lemma HandlerStep(s: State, e: Event) returns (h: Handler)
    requires Enabled(s, e) && !e.Refresh? && !e.Arrive?
    requires SingleLoad(s.handlers[e.h]) && EndsRight(s.handlers[e.h])
    ensures var t, was := Apply(s, e), s.handlers[e.h];
            && t.handlers == s.handlers[e.h := h]
            && SingleLoad(h) && EndsRight(h)
            && ((t.routeTotal == s.routeTotal && h.status == was.status)
                || (was.status.None? && h.status.Some? && t.routeTotal == s.routeTotal + multiset{h.status.value}))
            && ((t.chosenShard == s.chosenShard && h.counted == was.counted)
                || (was.counted.None? && h.counted.Some? && t.chosenShard == s.chosenShard + multiset{h.counted.value}))
  {
    h := Apply(s, e).handlers[e.h];
  }

  lemma BooksKeepInv(s: State, i: nat, h: Handler, t: State)
    requires Inv(s) && i < |s.handlers| && t.handlers == s.handlers[i := h] && SingleLoad(h) && EndsRight(h)
    requires (t.routeTotal == s.routeTotal && h.status == s.handlers[i].status)
             || (s.handlers[i].status.None? && h.status.Some?
                 && t.routeTotal == s.routeTotal + multiset{h.status.value})
    requires (t.chosenShard == s.chosenShard && h.counted == s.handlers[i].counted)
             || (s.handlers[i].counted.None? && h.counted.Some?
                 && t.chosenShard == s.chosenShard + multiset{h.counted.value})
    ensures Inv(t)
  {
    StatusBooks(s, i, h, t);
    ShardBooks(s, i, h, t);
  }

  lemma MoveKeepsInv(s: State, e: Event)
    requires Inv(s) && Enabled(s, e) && !e.Refresh? && !e.Arrive?
    ensures Inv(Apply(s, e))
  {
    var h := HandlerStep(s, e);
    BooksKeepInv(s, e.h, h, Apply(s, e));
  }

  lemma StepKeepsInv(s: State, e: Event)
    requires Inv(s) && Enabled(s, e)
    ensures Inv(Apply(s, e))
  {
    match e
    case Refresh(_) =>
    case Arrive => ArrivalKeepsInv(s, Handler(None, "", None, None, None));
    case _ => MoveKeepsInv(s, e);
  }

  lemma {:induction false} OpenOrFinished(hs: seq<Handler>)
    ensures |hs| == Tally(hs, InFlight) + Tally(hs, Finished)
  {
    if |hs| > 0 {
      OpenOrFinished(hs[..|hs| - 1]);
    }
  }

  lemma {:induction false} InvAlongRun(states: seq<State>, events: seq<Event>, i: nat)
    requires Run(states, events) && i < |states|
    ensures Inv(states[i])
  {
    if i > 0 {
      InvAlongRun(states, events, i - 1);
      StepKeepsInv(states[i - 1], events[i - 1]);
    }
  }

  /**
   In every reachable state: started requests are the in-flight ones plus all counted statuses, the
   shard counters add up to the requests past selection, every single counter equals the number of
   requests with its label, and each request's counter label and header are the shard of one and the
   same loaded map.
   */
  lemma Accounting(states: seq<State>, events: seq<Event>, i: nat)
    requires Run(states, events) && i < |states|
    ensures var s := states[i];
            && |s.handlers| == Tally(s.handlers, InFlight) + |s.routeTotal|
            && |s.chosenShard| == Tally(s.handlers, PastSelection)
            && (forall code :: s.routeTotal[code] == Tally(s.handlers, WithStatus(code)))
            && (forall shard :: s.chosenShard[shard] == Tally(s.handlers, WithShard(shard)))
            && (forall j :: 0 <= j < |s.handlers| ==> SingleLoad(s.handlers[j]) && EndsRight(s.handlers[j]))
  {
    InvAlongRun(states, events, i);
    OpenOrFinished(states[i].handlers);
  }
}
