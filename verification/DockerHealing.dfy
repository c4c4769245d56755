/** `HealingDockerClient`: threads sharing one docker client whose SSH transport can die. */
module DockerHealing {
  import opened Options

  const REBUILD_RETRY_SECONDS: int := 30

  type ClientId = nat
  type Thread = nat

  /** What a failed call is told: let the error stand, retry on a client, or report a failed rebuild. */
  datatype Answer = LetStand | RetryOn(client: ClientId) | RebuildError

  /** The shared fields. */
  datatype Shared = Shared(client: ClientId, rebuildFailed: Option<int>)

  /** `_replacement_for`, one turn under the lock; `built` is what the factory gives. */
  function Heal(s: Shared, failed: ClientId, dead: bool, factory: bool, now: int, built: Option<ClientId>): (Shared, Answer) {
    if !factory || !dead then (s, LetStand)
    else if s.client != failed then (s, RetryOn(s.client))
    else if s.rebuildFailed.Some? && now - s.rebuildFailed.value < REBUILD_RETRY_SECONDS then (s, RebuildError)
    else if built.Some? then (Shared(built.value, None), RetryOn(built.value))
    else (s.(rebuildFailed := Some(now)), RebuildError)
  }

  class HealingDockerClient {
    var client: ClientId
    var rebuildFailed: Option<int>
    const factory: bool

    constructor (client: ClientId, factory: bool)
      ensures Now() == Shared(client, None) && this.factory == factory
    {
      this.client, this.rebuildFailed, this.factory := client, None, factory;
    }

    function Now(): Shared
      reads this
    {
      Shared(client, rebuildFailed)
    }

    method ReplacementFor(failed: ClientId, dead: bool, now: int, built: Option<ClientId>) returns (answer: Answer)
      modifies this
      ensures (Now(), answer) == Heal(old(Now()), failed, dead, factory, now, built)
    {
      if !factory || !dead { return LetStand; }
      if client != failed { return RetryOn(client); }
      if rebuildFailed.Some? {
        if now - rebuildFailed.value < REBUILD_RETRY_SECONDS { return RebuildError; }
      }
      if built.None? {
        rebuildFailed := Some(now);
        return RebuildError;
      }
      client, rebuildFailed := built.value, None;
      return RetryOn(client);
    }

    /** `call`, seen from one thread: the operation runs at most twice, the second time on the client the
        heal named. `ends` says how the runs end (dead: with a dead transport). */
    method Call(first: End, now: int, built: Option<ClientId>, second: End) returns (ok: bool, runs: seq<ClientId>)
      modifies this
      ensures 1 <= |runs| <= 2 && runs[0] == old(client)
      ensures |runs| == 2 <==> !first.ok && Heal(old(Now()), old(client), first.dead, factory, now, built).1.RetryOn?
      ensures |runs| == 2 ==> runs[1] == client
      ensures ok <==> first.ok || (|runs| == 2 && second.ok)
    {
      runs := [client];
      if first.ok { return true, runs; }
      var answer := ReplacementFor(client, first.dead, now, built);
      if !answer.RetryOn? { return false, runs; }
      runs := runs + [answer.client];
      return second.ok, runs;
    }
  }

  /** When a failed call is retried, and on which client: its transport died, clients can be built, and either
      another thread has replaced the client already, or no rebuild failed in the last thirty seconds and the
      factory builds one. An error that is not the transport's, or with no factory, stands; any other failure is
      reported as one of the rebuild. The shared client changes exactly when a new one is built, and exactly a
      rebuild that fails is remembered. */
  lemma HealExactly(s: Shared, failed: ClientId, dead: bool, factory: bool, now: int, built: Option<ClientId>)
    ensures var (after, answer) := Heal(s, failed, dead, factory, now, built);
      var rests := s.rebuildFailed.Some? && now < s.rebuildFailed.value + 30;
      && (answer == LetStand <==> !dead || !factory)
      && (answer.RetryOn? <==> dead && factory && (s.client != failed || (!rests && built.Some?)))
      && (answer.RetryOn? ==> answer.client == after.client)
      && (after.client == if dead && factory && s.client == failed && !rests && built.Some? then built.value else s.client)
      && (after.rebuildFailed ==
            if dead && factory && s.client == failed && !rests then (if built.Some? then None else Some(now)) else s.rebuildFailed)
  {
  }

  datatype End = End(ok: bool, dead: bool)

  // ----- what counts as a dead transport ---------------------------------------------------------

  type Exc = nat

  /** The exception `n` links up the cause chain, when there is one. */
  function Link(next: map<Exc, Exc>, e: Exc, n: nat): Option<Exc> {
    if n == 0 then Some(e)
    else var p := Link(next, e, n - 1); if p.Some? && p.value in next then Some(next[p.value]) else None
  }

  lemma {:induction false} LinksStayIn(next: map<Exc, Exc>, e: Exc, n: nat, closed: set<Exc>)
    requires e in closed && forall x | x in closed && x in next :: next[x] in closed
    ensures Link(next, e, n).Some? ==> Link(next, e, n).value in closed
  {
    if n > 0 { LinksStayIn(next, e, n - 1, closed); }
  }

  lemma {:induction false} Smaller<T>(a: set<T>, b: set<T>)
    requires a < b
    ensures |a| < |b|
  {
    var x :| x in b && x !in a;
    if a != {} {
      var y :| y in a;
      Smaller(a - {y}, b - {y});
    }
  }

  /** `is_transport_death`: some exception of the chain is a transport error, also when the chain has a cycle. */
  method IsTransportDeath(exc: Exc, next: map<Exc, Exc>, errors: set<Exc>) returns (dead: bool)
    ensures dead <==> exists n: nat :: Link(next, exc, n).Some? && Link(next, exc, n).value in errors
  {
    var seen: set<Exc> := {};
    var cur := Some(exc);
    ghost var n, all := 0, {exc} + next.Values;
    while cur.Some? && cur.value !in seen
      invariant cur == Link(next, exc, n)
      invariant cur == Some(exc) || exc in seen
      invariant seen <= all && (cur.Some? ==> cur.value in all)
      invariant forall x | x in seen :: x !in errors
      invariant forall x | x in seen && x in next :: next[x] in seen || cur == Some(next[x])
      decreases |all - seen|
    {
      assert all - (seen + {cur.value}) < all - seen;
      Smaller(all - (seen + {cur.value}), all - seen);
      seen := seen + {cur.value};
      if cur.value in errors { return true; }
      cur := if cur.value in next then Some(next[cur.value]) else None;
      n := n + 1;
    }
    forall k: nat ensures Link(next, exc, k).Some? ==> Link(next, exc, k).value !in errors {
      LinksStayIn(next, exc, k, seen);
    }
    return false;
  }

  // ----- many threads ----------------------------------------------------------------------------

  /** Where a call is: running on a client for the first or second time, failed the first time, over. */
  datatype Phase = First(client: ClientId) | FailedOn(client: ClientId, dead: bool) | Second(client: ClientId) | Over

  datatype Call = Call(phase: Phase, runs: nat)

  /** `rebuilt`: which clients were replaced, in order. `refused`: when a rebuild of the current client failed. */
  datatype State = State(shared: Shared, factory: bool, calls: map<Thread, Call>, next: ClientId, now: int,
                         rebuilt: seq<ClientId>, refused: seq<int>)

  datatype Event =
    | Begin(thread: Thread)
    | Finish(thread: Thread, end: End)
    | Ask(thread: Thread, works: bool)
    | Tick(seconds: nat)

  function Step(s: State, e: Event): State {
    match e
    case Begin(t) => if t in s.calls && !s.calls[t].phase.Over? then s else s.(calls := s.calls[t := Call(First(s.shared.client), 1)])
    case Finish(t, end) =>
      if t !in s.calls then s
      else
        (match s.calls[t].phase
         case First(c) => s.(calls := s.calls[t := Call(if end.ok then Over else FailedOn(c, end.dead), s.calls[t].runs)])
         case Second(_) => s.(calls := s.calls[t := Call(Over, s.calls[t].runs)])
         case _ => s)
    case Ask(t, works) =>
      if t !in s.calls || !s.calls[t].phase.FailedOn? then s
      else
        var failed := s.calls[t].phase.client;
        var (shared, answer) := Heal(s.shared, failed, s.calls[t].phase.dead, s.factory, s.now, if works then Some(s.next) else None);
        var after := if answer.RetryOn? then Call(Second(answer.client), s.calls[t].runs + 1) else Call(Over, s.calls[t].runs);
        State(shared, s.factory, s.calls[t := after], if shared.client == s.next then s.next + 1 else s.next, s.now,
              if shared.client != s.shared.client then s.rebuilt + [failed] else s.rebuilt,
              if shared.client != s.shared.client then [] else if shared != s.shared then s.refused + [s.now] else s.refused)
    case Tick(seconds) => s.(now := s.now + seconds)
  }

  function Run(s: State, es: seq<Event>): State {
    if es == [] then s else Step(Run(s, es[..|es| - 1]), es[|es| - 1])
  }

  function Init(factory: bool, now: int): State {
    State(Shared(0, None), factory, map[], 1, now, [], [])
  }

  predicate CallOk(s: State, c: Call) {
    match c.phase
    case First(id) => c.runs == 1 && id < s.next
    case FailedOn(id, _) => c.runs == 1 && id < s.next
    case Second(id) => c.runs == 2 && id < s.next
    case Over => 1 <= c.runs <= 2
  }

  predicate Inv(s: State) {
    && s.shared.client < s.next
    && (forall t | t in s.calls :: CallOk(s, s.calls[t]))
    && (forall i | 0 <= i < |s.rebuilt| :: s.rebuilt[i] < s.shared.client)
    && (forall i, j | 0 <= i < j < |s.rebuilt| :: s.rebuilt[i] < s.rebuilt[j])
    && (forall i | 0 <= i < |s.refused| - 1 :: s.refused[i] + REBUILD_RETRY_SECONDS <= s.refused[i + 1])
    && (s.shared.rebuildFailed == if s.refused == [] then None else Some(s.refused[|s.refused| - 1]))
  }

  lemma StepKeepsInv(s: State, e: Event)
    requires Inv(s)
    ensures Inv(Step(s, e))
  {
  }

  lemma {:induction false} RunKeepsInv(s: State, es: seq<Event>)
    requires Inv(s)
    ensures Inv(Run(s, es))
    decreases |es|
  {
    if es != [] {
      RunKeepsInv(s, es[..|es| - 1]);
      StepKeepsInv(Run(s, es[..|es| - 1]), es[|es| - 1]);
    }
  }

  /** However many threads meet a dead client: it is replaced at most once, every call runs at most twice,
      and failed rebuilds of one client are at least the retry interval apart. */
  lemma OneRebuildForAll(factory: bool, now: int, es: seq<Event>, t: Thread, i: nat, j: nat)
    ensures var s := Run(Init(factory, now), es);
      && (t in s.calls ==> s.calls[t].runs <= 2)
      && (i < j < |s.rebuilt| ==> s.rebuilt[i] != s.rebuilt[j])
      && (i + 1 < |s.refused| ==> s.refused[i] + REBUILD_RETRY_SECONDS <= s.refused[i + 1])
  {
    RunKeepsInv(Init(factory, now), es);
  }
}
