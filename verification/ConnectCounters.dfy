/**
 * The counters of outbound connections against the kernel's sockets: refused and answered connection
 * attempts go through the handler and the dispatcher to the store, with any other calls in between.
 */
module ConnectCounters {
  import opened Sums
  import opened StoreModel
  import opened Quotient
  import opened TcpState
  import opened ActiveGauge

  // ---- Runs ----

  /** A counting call on one of the two counters. */
  predicate CountsConnects(op: Op) {
    Counts(op) && (op.raw.kind == Successful || op.raw.kind == Failed)
  }

  /** A transition is named by an endpoint, and only transitions count connects. */
  predicate Admissible(a: Action) {
    match a
    case Socket(t) => t.name.kind == StoreModel.Active && |t.name.tags| == 2
    case Other(step) => !CountsConnects(step.op)
  }

  predicate AllAdmissible(actions: seq<Action>) {
    forall i :: 0 <= i < |actions| ==> Admissible(actions[i])
  }

  /** The store calls of an action; the calls on the gauge are among the others. */
  function CountsOf(ts: seq<Move>, a: Action): seq<Step> {
    match a
    case Other(step) => [step]
    case Socket(t) =>
      var event := EventAfter(ts, t);
      if event.Some? then Counting(event.value, t.name, t.now) else []
  }

  function CountSteps(actions: seq<Action>): seq<Step> {
    if actions == [] then []
    else
      var init, last := actions[..|actions| - 1], actions[|actions| - 1];
      CountSteps(init) + CountsOf(Sockets(init), last)
  }

  // ---- The law ----

  /** An attempt to connect that a counter is about: refused, or answered, with an event to tell of it. */
  predicate IsAttempt(t: Move, kind: Kind) {
    && t.reserved && t.prior == SynSent
    && ((kind == Failed && t.next == Close) || (kind == Successful && t.next == Established))
  }

  /** Where it is counted: a refusal under the destination alone. */
  function AttemptSeries(t: Move, kind: Kind): Series
    requires |t.name.tags| == 2
  {
    Series(kind, t.name.container, if kind == Failed then [t.name.tags[0]] else [t.name.tags[0], t.name.tags[1]])
  }

  /** The attempts shown as `k` by `f` since its container was last dropped. */
  function Attempts(actions: seq<Action>, f: Series -> Series, k: Series): nat
    requires AllAdmissible(actions)
  {
    if actions == [] then 0
    else
      var last := actions[|actions| - 1];
      var before := Attempts(actions[..|actions| - 1], f, k);
      assert Admissible(last);
      match last
      case Other(step) => if Drops(step.op, k.container.id) then 0 else before
      case Socket(t) => if IsAttempt(t, k.kind) && f(AttemptSeries(t, k.kind)) == k then before + 1 else before
  }

  ghost predicate KeepsKind(f: Series -> Series) {
    forall s :: f(s).kind == s.kind
  }

  lemma CountedMore(steps: seq<Step>, step: Step, f: Series -> Series, k: Series)
    ensures Quotient.Counted(steps + [step], f, k) ==
            var before := Quotient.Counted(steps, f, k);
            match step.op
            case Add(raw, amount) => if f(raw) == k then before + amount else before
            case Observe(raw, _) => if f(raw) == k then before + 1 else before
            case Prune(live) => if live.Some? && k.container.id !in live.value then 0 else before
            case _ => before
  {
    assert (steps + [step])[..|steps|] == steps;
  }

  /** What a transition adds to what was counted. */
  lemma TransitionCounts(steps: seq<Step>, ts: seq<Move>, t: Move, f: Series -> Series, k: Series)
    requires Admissible(Socket(t)) && KeepsKind(f) && (k.kind == Failed || k.kind == Successful)
    ensures Quotient.Counted(steps + CountsOf(ts, Socket(t)), f, k) ==
            Quotient.Counted(steps, f, k) + if IsAttempt(t, k.kind) && f(AttemptSeries(t, k.kind)) == k then 1 else 0
  {
    EventExactly(ts, t);
    match EventAfter(ts, t)
    case Some(Connect) =>
      assert AttemptSeries(t, Successful) == t.name.(kind := Successful);
      CountedMore(steps, Step(Add(t.name.(kind := Successful), 1), t.now), f, k);
    case Some(FailedConnect) =>
      assert t.name.tags[..1] == [t.name.tags[0]];
      CountedMore(steps, Step(Add(AttemptSeries(t, Failed), 1), t.now), f, k);
    case _ => assert steps + [] == steps;
  }

  lemma {:induction false} CountedIsAttempts(actions: seq<Action>, f: Series -> Series, k: Series)
    requires AllAdmissible(actions) && KeepsKind(f) && (k.kind == Failed || k.kind == Successful)
    ensures Quotient.Counted(CountSteps(actions), f, k) == Attempts(actions, f, k)
    decreases |actions|
  {
    if actions == [] {
    } else {
      var init, last := actions[..|actions| - 1], actions[|actions| - 1];
      CountedIsAttempts(init, f, k);
      assert Admissible(last);
      match last
      case Other(step) => CountedMore(CountSteps(init), step, f, k);
      case Socket(t) => TransitionCounts(CountSteps(init), Sockets(init), t, f, k);
    }
  }

  /**
   * For every sequence of transitions and losses, interleaved with any other calls and prunes: the failed
   * counter of a destination is the number of its refused connections, and the successful counter of an
   * endpoint that of the answered ones, since the container was last dropped and under the labels shown.
   */
  lemma ConnectsExact(cfg: Config, actions: seq<Action>, k: Series)
    requires AllAdmissible(actions) && (k.kind == Failed || k.kind == Successful)
    ensures var l := RunLedger(cfg, CountSteps(actions));
            Get(l.counters, k) == Attempts(actions, Relabel(l.seen), k)
  {
    CounterExact(cfg, CountSteps(actions), k);
    CountedIsAttempts(actions, Relabel(RunLedger(cfg, CountSteps(actions)).seen), k);
  }
}
