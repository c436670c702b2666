/** Cluster status: conditions, and how a status write merges into what the server holds. */
module StatusFields {
  import opened Options
  import opened ShardMaps

  datatype Condition = Condition(
    kind: string, status: bool, reason: string, message: string, observedGeneration: int, lastTransition: int)

  datatype Endpoints = Endpoints(router: string, decode: string, prefill: string)

  datatype Status = Status(
    observedGeneration: int, endpoints: Endpoints, shards: seq<ShardStatus>, conditions: seq<Condition>)

  const EMPTY_STATUS := Status(0, Endpoints("", "", ""), [], [])

  const READY := "Ready"
  const DEGRADED := "Degraded"
  const SCALING := "Scaling"

  /** The entry that replaces an existing one: the transition time moves only with the status. */
  function Merge(was: Condition, c: Condition): Condition {
    c.(lastTransition := if was.status == c.status then was.lastTransition else c.lastTransition)
  }

  function SetCondition(conds: seq<Condition>, c: Condition): seq<Condition> {
    if |conds| == 0 then [c]
    else if conds[0].kind == c.kind then [Merge(conds[0], c)] + conds[1..]
    else [conds[0]] + SetCondition(conds[1..], c)
  }

  function Find(conds: seq<Condition>, kind: string): Option<Condition> {
    if |conds| == 0 then None
    else if conds[0].kind == kind then Some(conds[0])
    else Find(conds[1..], kind)
  }

  ghost predicate UniqueKinds(conds: seq<Condition>) {
    forall i, j :: 0 <= i < j < |conds| ==> conds[i].kind != conds[j].kind
  }

  /** Ready and Degraded are written together and always disagree. */
  ghost predicate Opposed(conds: seq<Condition>) {
    var ready, degraded := Find(conds, READY), Find(conds, DEGRADED);
    && (ready.Some? <==> degraded.Some?)
    && (ready.Some? ==> ready.value.status != degraded.value.status)
  }

  /** No part of the status claims to have seen a later generation than gen. */
  ghost predicate SeenUpTo(s: Status, gen: int) {
    && s.observedGeneration <= gen
    && forall i :: 0 <= i < |s.conditions| ==> s.conditions[i].observedGeneration <= gen
  }

  ghost predicate Sound(s: Status) {
    UniqueKinds(s.conditions) && Opposed(s.conditions)
  }

  lemma {:induction false} FindAfterSet(conds: seq<Condition>, c: Condition, kind: string)
    ensures kind != c.kind ==> Find(SetCondition(conds, c), kind) == Find(conds, kind)
    ensures Find(SetCondition(conds, c), c.kind).Some?
    ensures Find(SetCondition(conds, c), c.kind).value.status == c.status
  {
    if |conds| > 0 {
      FindAfterSet(conds[1..], c, kind);
      var r := SetCondition(conds, c);
      assert r[1..] == if conds[0].kind == c.kind then conds[1..] else SetCondition(conds[1..], c);
    }
  }

  /** A condition that is set reads back as given, but keeps its transition time while its status stays. */
  lemma {:induction false} SetReadsBack(conds: seq<Condition>, c: Condition)
    ensures var was, found := Find(conds, c.kind), Find(SetCondition(conds, c), c.kind);
            found == Some(if was.Some? && was.value.status == c.status
                          then c.(lastTransition := was.value.lastTransition) else c)
  {
    if |conds| > 0 {
      SetReadsBack(conds[1..], c);
      var r := SetCondition(conds, c);
      assert r[1..] == if conds[0].kind == c.kind then conds[1..] else SetCondition(conds[1..], c);
    }
  }

  lemma {:induction false} SetKeepsElements(conds: seq<Condition>, c: Condition, i: nat)
    requires i < |SetCondition(conds, c)|
    ensures var x := SetCondition(conds, c)[i];
            || (x.kind == c.kind && x.observedGeneration == c.observedGeneration && x.status == c.status)
            || (i < |conds| && x == conds[i])
    ensures |SetCondition(conds, c)| >= |conds|
  {
    if |conds| > 0 && conds[0].kind != c.kind && i > 0 {
      SetKeepsElements(conds[1..], c, i - 1);
    } else if |conds| > 0 && conds[0].kind != c.kind {
      SetGrows(conds[1..], c);
    }
  }

  lemma {:induction false} SetGrows(conds: seq<Condition>, c: Condition)
    ensures |SetCondition(conds, c)| >= |conds|
  {
    if |conds| > 0 {
      SetGrows(conds[1..], c);
    }
  }

  lemma {:induction false} SetKeepsUnique(conds: seq<Condition>, c: Condition)
    requires UniqueKinds(conds)
    ensures UniqueKinds(SetCondition(conds, c))
  {
    if |conds| > 0 && conds[0].kind != c.kind {
      var tail := SetCondition(conds[1..], c);
      SetKeepsUnique(conds[1..], c);
      forall j | 0 <= j < |tail| ensures tail[j].kind != conds[0].kind {
        SetKeepsElements(conds[1..], c, j);
      }
    }
  }

  lemma SetKeepsSeen(s: Status, c: Condition, gen: int)
    requires SeenUpTo(s, gen) && c.observedGeneration <= gen
    ensures SeenUpTo(s.(conditions := SetCondition(s.conditions, c)), gen)
  {
    var r := SetCondition(s.conditions, c);
    forall i | 0 <= i < |r| ensures r[i].observedGeneration <= gen {
      SetKeepsElements(s.conditions, c, i);
    }
  }

  /** Setting a condition other than the opposed pair leaves the status sound. */
  lemma SetOther(s: Status, c: Condition)
    requires Sound(s) && c.kind != READY && c.kind != DEGRADED
    ensures Sound(s.(conditions := SetCondition(s.conditions, c)))
  {
    SetKeepsUnique(s.conditions, c);
    FindAfterSet(s.conditions, c, READY);
    FindAfterSet(s.conditions, c, DEGRADED);
  }

  /** The outcome of a reconcile: Ready and Degraded, set one after the other. */
  function SetOutcome(conds: seq<Condition>, ok: bool, reasons: (string, string), messages: (string, string),
                      gen: int, now: int): seq<Condition>
  {
    var withReady := SetCondition(conds, Condition(READY, ok, reasons.0, messages.0, gen, now));
    SetCondition(withReady, Condition(DEGRADED, !ok, reasons.1, messages.1, gen, now))
  }

  lemma SetPair(s: Status, r: Condition, d: Condition)
    requires Sound(s) && r.kind == READY && d.kind == DEGRADED && r.status != d.status
    ensures Sound(s.(conditions := SetCondition(SetCondition(s.conditions, r), d)))
    ensures Find(SetCondition(SetCondition(s.conditions, r), d), READY).Some?
    ensures Find(SetCondition(SetCondition(s.conditions, r), d), READY).value.status == r.status
  {
    var s1 := s.(conditions := SetCondition(s.conditions, r));
    SetKeepsUnique(s.conditions, r);
    SetKeepsUnique(s1.conditions, d);
    FindAfterSet(s.conditions, r, READY);
    FindAfterSet(s1.conditions, d, READY);
    assert READY != DEGRADED by {
      assert |READY| == 5 && |DEGRADED| == 8;
    }
  }

  lemma OutcomeSound(s: Status, ok: bool, reasons: (string, string), messages: (string, string), gen: int, now: int)
    requires Sound(s)
    ensures var conds := SetOutcome(s.conditions, ok, reasons, messages, gen, now);
            && Sound(s.(conditions := conds))
            && Find(conds, READY).Some? && Find(conds, READY).value.status == ok
            && Find(conds, DEGRADED).Some? && Find(conds, DEGRADED).value.status == !ok
  {
    SetPair(s, Condition(READY, ok, reasons.0, messages.0, gen, now),
            Condition(DEGRADED, !ok, reasons.1, messages.1, gen, now));
  }

  // ---- generations ----

  lemma {:induction false} SetLeavesMark(conds: seq<Condition>, c: Condition) returns (i: nat)
    ensures i < |SetCondition(conds, c)| && SetCondition(conds, c)[i].observedGeneration == c.observedGeneration
  {
    if |conds| == 0 || conds[0].kind == c.kind {
      i := 0;
    } else {
      i := SetLeavesMark(conds[1..], c);
      i := i + 1;
    }
  }

  /** An outcome written for generation gen is sound for an object exactly if that has reached gen. */
  lemma OutcomeSeen(s: Status, ok: bool, reasons: (string, string), messages: (string, string), gen: int, now: int,
                    age: int)
    requires SeenUpTo(s, gen)
    ensures SeenUpTo(s.(conditions := SetOutcome(s.conditions, ok, reasons, messages, gen, now)), gen)
    ensures (exists i :: 0 <= i < |SetOutcome(s.conditions, ok, reasons, messages, gen, now)|
                    && SetOutcome(s.conditions, ok, reasons, messages, gen, now)[i].observedGeneration > age)
            <==> gen > age
  {
    var r := Condition(READY, ok, reasons.0, messages.0, gen, now);
    var d := Condition(DEGRADED, !ok, reasons.1, messages.1, gen, now);
    var s1 := s.(conditions := SetCondition(s.conditions, r));
    SetKeepsSeen(s, r, gen);
    SetKeepsSeen(s1, d, gen);
    var i := SetLeavesMark(s1.conditions, d);
  }

  // ---- merge patch of the status ----

  /** A merge patch carries exactly the members in which the local copy differs from its snapshot. */
  function Patched<T(==)>(snapshot: T, local: T, server: T): T {
    if local == snapshot then server else local
  }

  function PatchStatus(snapshot: Status, local: Status, server: Status): Status {
    Status(Patched(snapshot.observedGeneration, local.observedGeneration, server.observedGeneration),
           Endpoints(Patched(snapshot.endpoints.router, local.endpoints.router, server.endpoints.router),
                     Patched(snapshot.endpoints.decode, local.endpoints.decode, server.endpoints.decode),
                     Patched(snapshot.endpoints.prefill, local.endpoints.prefill, server.endpoints.prefill)),
           Patched(snapshot.shards, local.shards, server.shards),
           Patched(snapshot.conditions, local.conditions, server.conditions))
  }

  /** Whatever stale snapshot the patch was computed from, a sound status stays sound. */
  lemma PatchSound(snapshot: Status, local: Status, server: Status)
    requires Sound(local) && Sound(server)
    ensures Sound(PatchStatus(snapshot, local, server))
  {
  }

  /** A member lands exactly if it changed since the snapshot or the server has that value already. */
  ghost predicate Lands<T(!new)>(snapshot: T, local: T, server: T, result: T) {
    && (result == local <==> local != snapshot || server == local)
    && (local == snapshot ==> result == server)
  }

  /** From a current snapshot the patch lands the local status; in general only member by member. */
  lemma PatchLands(snapshot: Status, local: Status, server: Status)
    ensures snapshot == server ==> PatchStatus(snapshot, local, server) == local
    ensures var r := PatchStatus(snapshot, local, server);
            && Lands(snapshot.observedGeneration, local.observedGeneration, server.observedGeneration,
                     r.observedGeneration)
            && Lands(snapshot.endpoints.router, local.endpoints.router, server.endpoints.router, r.endpoints.router)
            && Lands(snapshot.endpoints.decode, local.endpoints.decode, server.endpoints.decode, r.endpoints.decode)
            && Lands(snapshot.endpoints.prefill, local.endpoints.prefill, server.endpoints.prefill, r.endpoints.prefill)
            && Lands(snapshot.shards, local.shards, server.shards, r.shards)
            && Lands(snapshot.conditions, local.conditions, server.conditions, r.conditions)
  {
  }
}
