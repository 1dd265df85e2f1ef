/**
 * The active-connections gauge against the kernel's sockets: socket transitions go through the handler
 * and the dispatcher to the store, interleaved with any other calls on it, prunes included.
 */
module ActiveGauge {
  import opened Bytes
  import opened Labels
  import opened StoreModel
  import opened Cardinality
  import opened TcpState
  import opened Prefixes

  /** A transition is named by the gauge series its event is about, before labels are bounded. */
  type Move = Transition<Series>

  // ---- What the dispatcher does ----

  /** The counting call an event makes. */
  function Counting(event: Event, s: Series, now: int): seq<Step> {
    match event
    case Connect => [Step(Add(s.(kind := Successful), 1), now)]
    case FailedConnect => [Step(Add(Series(Failed, s.container, if s.tags == [] then [] else s.tags[..1]), 1), now)]
    case _ => []
  }

  /** The call an event makes on the gauge. */
  function Gauging(event: Event, s: Series, now: int): seq<Step> {
    match event
    case Connect => [Step(Raise(s), now)]
    case CloseEvent => [Step(Lower(s), now)]
    case _ => []
  }

  /** `dispatchTCP`: it counts first. */
  function Dispatched(event: Event, s: Series, now: int): seq<Step> {
    Counting(event, s, now) + Gauging(event, s, now)
  }

  // ---- Runs ----

  /**
   * A socket's transition with the call on the gauge it leads to, or any other call on the store. The
   * counting calls of the dispatcher are among the others, so anything may come between the two.
   */
  datatype Action = Socket(t: Move) | Other(step: Step)

  /** Not a call on an active-connections gauge. */
  predicate Bystander(step: Step) {
    step.op.Prune? || Counts(step.op) || step.op.raw.kind != StoreModel.Active
  }

  predicate Permitted(a: Action) {
    match a
    case Socket(t) => t.name.kind == StoreModel.Active
    case Other(step) => Bystander(step)
  }

  predicate Undisturbed(actions: seq<Action>) {
    forall i :: 0 <= i < |actions| ==> Permitted(actions[i])
  }

  function Sockets(actions: seq<Action>): seq<Move> {
    if actions == [] then []
    else
      var init, last := Sockets(actions[..|actions| - 1]), actions[|actions| - 1];
      if last.Socket? then init + [last.t] else init
  }

  /** The store calls of an action, after some transitions. */
  function CallsOf(ts: seq<Move>, a: Action): seq<Step> {
    match a
    case Other(step) => [step]
    case Socket(t) =>
      var event := EventAfter(ts, t);
      if event.Some? then Gauging(event.value, t.name, t.now) else []
  }

  function StepsOf(actions: seq<Action>): seq<Step> {
    if actions == [] then []
    else
      var init, last := actions[..|actions| - 1], actions[|actions| - 1];
      StepsOf(init) + CallsOf(Sockets(init), last)
  }

  function StateAt(cfg: Config, actions: seq<Action>): State {
    Run(cfg, StepsOf(actions))
  }

  lemma ActionNext(actions: seq<Action>, a: Action)
    ensures Sockets(actions + [a]) == if a.Socket? then Sockets(actions) + [a.t] else Sockets(actions)
    ensures StepsOf(actions + [a]) == StepsOf(actions) + CallsOf(Sockets(actions), a)
  {
    assert (actions + [a])[..|actions|] == actions;
  }

  lemma Regroup<T>(s: seq<T>, more: seq<T>)
    requires more != []
    ensures s + [more[0]] + more[1..] == s + more
  {
    assert [more[0]] + more[1..] == more;
  }

  /** Some actions, and then the counting calls of a transition. */
  function Counted(actions: seq<Action>, counts: seq<Step>): seq<Action>
    decreases |counts|
  {
    if counts == [] then actions else Counted(actions + [Other(counts[0])], counts[1..])
  }

  lemma {:induction false} CountedNext(actions: seq<Action>, counts: seq<Step>)
    requires Undisturbed(actions) && forall step :: step in counts ==> Bystander(step)
    ensures Undisturbed(Counted(actions, counts)) && Sockets(Counted(actions, counts)) == Sockets(actions)
    ensures StepsOf(Counted(actions, counts)) == StepsOf(actions) + counts
    decreases |counts|
  {
    if counts == [] {
      assert StepsOf(actions) + [] == StepsOf(actions);
    } else {
      var other := Other(counts[0]);
      ActionNext(actions, other);
      CountedNext(actions + [other], counts[1..]);
      Regroup(StepsOf(actions), counts);
    }
  }

  lemma CountedThenMoved(actions: seq<Action>, counts: seq<Step>, t: Move)
    requires Undisturbed(actions) && Permitted(Socket(t)) && forall step :: step in counts ==> Bystander(step)
    ensures var more := Counted(actions, counts) + [Socket(t)];
            && Undisturbed(more) && Sockets(more) == Sockets(actions) + [t]
            && StepsOf(more) == StepsOf(actions) + counts + CallsOf(Sockets(actions), Socket(t))
  {
    CountedNext(actions, counts);
    ActionNext(Counted(actions, counts), Socket(t));
  }

  /** A run may have a transition handled so, and the calls are then those of the dispatcher. */
  lemma HandledIsRun(actions: seq<Action>, t: Move, event: Event)
    requires Undisturbed(actions) && Permitted(Socket(t)) && EventAfter(Sockets(actions), t) == Some(event)
    ensures var more := Counted(actions, Counting(event, t.name, t.now)) + [Socket(t)];
            && Undisturbed(more) && Sockets(more) == Sockets(actions) + [t]
            && StepsOf(more) == StepsOf(actions) + Dispatched(event, t.name, t.now)
  {
    var counts, calls := Counting(event, t.name, t.now), Gauging(event, t.name, t.now);
    CountedThenMoved(actions, counts, t);
    assert StepsOf(actions) + counts + calls == StepsOf(actions) + (counts + calls);
  }

  // ---- The law ----

  /** A gauge is the number of connections outstanding under the labels it is shown with. */
  ghost predicate LawAt(s: State, ts: seq<Move>, k: Series) {
    k.kind == StoreModel.Active ==> Level(s.gauges, k) == Outstanding(ts, Relabel(s.ledger.seen), k)
  }

  ghost predicate LawOf(s: State, ts: seq<Move>) {
    forall k :: LawAt(s, ts, k)
  }

  /** After some actions, every gauge is the number of tracked connections plus the anomalies under its labels. */
  ghost predicate Law(cfg: Config, actions: seq<Action>) {
    LawOf(StateAt(cfg, actions), Sockets(actions))
  }

  ghost predicate AllActive(ts: seq<Move>) {
    forall name :: IsOut(ts, name) ==> name.kind == StoreModel.Active
  }

  /** Every outstanding connection is shown as before. */
  ghost predicate LabelsKept(ts: seq<Move>, before: Seen, after: Seen) {
    forall name :: IsOut(ts, name) ==> Relabel(before)(name) == Relabel(after)(name)
  }

  lemma KeptSame(ts: seq<Move>, before: Seen, after: Seen, k: Series)
    requires LabelsKept(ts, before, after)
    ensures Outstanding(ts, Relabel(before), k) == Outstanding(ts, Relabel(after), k)
  {
    OutstandingWithin(ts, Relabel(before), Relabel(after), k);
    OutstandingWithin(ts, Relabel(after), Relabel(before), k);
  }

  // ---- Labels a call hands out anew ----

  /** The tag's value was admitted in between, to the budget of container `id`. */
  predicate Fresh(before: Seen, after: Seen, id: string, t: Tag) {
    && t.value !in {"", OVERFLOW}
    && t.value !in Admitted(before, Slot(t.space, id)) && t.value in Admitted(after, Slot(t.space, id))
  }

  lemma {:induction false} BindTagsAdmit(cfg: Config, seen: Seen, id: string, tags: seq<Tag>, owner: string, t: Tag)
    requires Fresh(seen, BindTags(cfg, seen, id, tags).seen, owner, t)
    ensures owner == id && t in tags
    decreases |tags|
  {
    if tags == [] {
    } else {
      var mid := Bound(seen, Slot(tags[0].space, id), tags[0].value, Limit(cfg, tags[0].space)).seen;
      if t.value !in Admitted(mid, Slot(t.space, owner)) {
        BindTagsAdmit(cfg, mid, id, tags[1..], owner, t);
      }
    }
  }

  lemma {:induction false} ShownIn(seen: Seen, id: string, tags: seq<Tag>, t: Tag)
    requires t in tags && t.value in Admitted(seen, Slot(t.space, id))
    ensures t in ShowTags(seen, id, tags)
  {
    if tags[0] == t {
    } else {
      ShownIn(seen, id, tags[1..], t);
    }
  }

  /** Labels that changed while budgets grew show something fresh. */
  lemma {:induction false} ChangedShowsFresh(cfg: Config, before: Seen, after: Seen, id: string, tags: seq<Tag>) returns (t: Tag)
    requires GrowsFor(cfg, before, after, id) && ShowTags(before, id, tags) != ShowTags(after, id, tags)
    ensures t in ShowTags(after, id, tags) && Fresh(before, after, id, t)
    decreases |tags|
  {
    var first := tags[0];
    var slot := Slot(first.space, id);
    assert Grows(before, after, slot, Limit(cfg, first.space));
    if Shown(before, slot, first.value) != Shown(after, slot, first.value) {
      t := first;
    } else {
      t := ChangedShowsFresh(cfg, before, after, id, tags[1..]);
    }
  }

  /** A fresh label is on no series as it was shown before. */
  lemma FreshNotShown(before: Seen, after: Seen, id: string, t: Tag, name: Series)
    requires Fresh(before, after, id, t) && name.container.id == id
    ensures t !in Relabelled(before, name).tags
  {
    ShowTagsAdmitted(before, id, name.tags);
  }

  /**
   * If a call changes how some outstanding connection is shown, then the series it is shown as now, and
   * the series the call itself is bound to, were nobody's before.
   */
  lemma MovedIsNew(cfg: Config, seen: Seen, raw: Series, moved: Series, other: Series)
    requires var after := Bind(cfg, seen, raw).seen; Relabelled(seen, moved) != Relabelled(after, moved)
    ensures var after := Bind(cfg, seen, raw).seen;
            Relabelled(seen, other) != Relabelled(after, moved) && Relabelled(seen, other) != Relabelled(after, raw)
  {
    var after, id := Bind(cfg, seen, raw).seen, moved.container.id;
    BindGrows(cfg, seen, raw, id);
    var t := ChangedShowsFresh(cfg, seen, after, id, moved.tags);
    BindTagsAdmit(cfg, seen, raw.container.id, raw.tags, id, t);
    ShownIn(after, id, raw.tags, t);
    if other.container.id == id {
      FreshNotShown(seen, after, id, t, other);
    }
  }

  lemma NewIsEmpty(cfg: Config, seen: Seen, raw: Series, moved: Series, ts: seq<Move>)
    requires var after := Bind(cfg, seen, raw).seen; Relabelled(seen, moved) != Relabelled(after, moved)
    ensures var after := Bind(cfg, seen, raw).seen;
            && Outstanding(ts, Relabel(seen), Relabelled(after, moved)) == 0
            && Outstanding(ts, Relabel(seen), Relabelled(after, raw)) == 0
  {
    var after := Bind(cfg, seen, raw).seen;
    forall other
      ensures Relabel(seen)(other) != Relabelled(after, moved) && Relabel(seen)(other) != Relabelled(after, raw)
    {
      MovedIsNew(cfg, seen, raw, moved, other);
    }
    OutstandingSome(ts, Relabel(seen), Relabelled(after, moved));
    OutstandingSome(ts, Relabel(seen), Relabelled(after, raw));
  }

  /** So if labels were not kept, some active gauge that stood at nothing has connections under it now. */
  lemma NotKept(cfg: Config, seen: Seen, raw: Series, ts: seq<Move>) returns (k: Series)
    requires AllActive(ts) && !LabelsKept(ts, seen, Bind(cfg, seen, raw).seen)
    ensures k.kind == StoreModel.Active
    ensures Outstanding(ts, Relabel(seen), k) == 0 && Outstanding(ts, Relabel(Bind(cfg, seen, raw).seen), k) > 0
    ensures Outstanding(ts, Relabel(seen), Relabelled(Bind(cfg, seen, raw).seen, raw)) == 0
  {
    var after := Bind(cfg, seen, raw).seen;
    var moved :| IsOut(ts, moved) && Relabel(seen)(moved) != Relabel(after)(moved);
    k := Relabel(after)(moved);
    NewIsEmpty(cfg, seen, raw, moved, ts);
    OutstandingSome(ts, Relabel(after), k);
  }

  // ---- One call on the store ----

  /** A call on other series keeps the law exactly if it keeps the labels. */
  lemma LawQuiet(cfg: Config, s: State, ts: seq<Move>, step: Step)
    requires LawOf(s, ts) && AllActive(ts) && Bystander(step) && !step.op.Prune?
    ensures LawOf(Apply(cfg, s, step), ts) <==> LabelsKept(ts, s.ledger.seen, Bind(cfg, s.ledger.seen, step.op.raw).seen)
  {
    var after, seen := Apply(cfg, s, step), Bind(cfg, s.ledger.seen, step.op.raw).seen;
    if LabelsKept(ts, s.ledger.seen, seen) {
      forall k
        ensures LawAt(after, ts, k)
      {
        assert LawAt(s, ts, k);
        if k.kind == StoreModel.Active {
          KeptSame(ts, s.ledger.seen, seen, k);
        }
      }
    } else {
      var k := NotKept(cfg, s.ledger.seen, step.op.raw, ts);
      assert LawAt(s, ts, k) && !LawAt(after, ts, k);
    }
  }

  lemma RaisedLevel(cfg: Config, s: State, raw: Series, now: int, k: Series)
    ensures var after := Apply(cfg, s, Step(Raise(raw), now));
            && after.ledger.seen == Bind(cfg, s.ledger.seen, raw).seen
            && Level(after.gauges, k) == Level(s.gauges, k) + if Relabelled(after.ledger.seen, raw) == k then 1 else 0
  {
    BindRelabels(cfg, s.ledger.seen, raw);
  }

  lemma ConnectNext(ts: seq<Move>, t: Move, f: Series -> Series, k: Series)
    requires EventAfter(ts, t) == Some(Connect)
    ensures Outstanding(ts + [t], f, k) == Outstanding(ts, f, k) + if f(t.name) == k then 1 else 0
  {
    OutstandingNext(ts, t, f, k);
  }

  /** A connect keeps the law exactly if it keeps the labels. */
  lemma LawConnect(cfg: Config, s: State, ts: seq<Move>, t: Move)
    requires LawOf(s, ts) && AllActive(ts) && EventAfter(ts, t) == Some(Connect)
    ensures LawOf(Apply(cfg, s, Step(Raise(t.name), t.now)), ts + [t]) <==>
            LabelsKept(ts, s.ledger.seen, Bind(cfg, s.ledger.seen, t.name).seen)
  {
    var after, seen := Apply(cfg, s, Step(Raise(t.name), t.now)), Bind(cfg, s.ledger.seen, t.name).seen;
    if LabelsKept(ts, s.ledger.seen, seen) {
      forall k
        ensures LawAt(after, ts + [t], k)
      {
        assert LawAt(s, ts, k);
        RaisedLevel(cfg, s, t.name, t.now, k);
        KeptSame(ts, s.ledger.seen, seen, k);
        ConnectNext(ts, t, Relabel(seen), k);
      }
    } else {
      var k := NotKept(cfg, s.ledger.seen, t.name, ts);
      RaisedLevel(cfg, s, t.name, t.now, k);
      ConnectNext(ts, t, Relabel(seen), k);
      assert LawAt(s, ts, k) && !LawAt(after, ts + [t], k);
    }
  }

  lemma LoweredLevel(cfg: Config, s: State, raw: Series, now: int, k: Series)
    ensures var after := Apply(cfg, s, Step(Lower(raw), now));
            && after.ledger.seen == Bind(cfg, s.ledger.seen, raw).seen
            && Level(after.gauges, k) ==
               if Relabelled(after.ledger.seen, raw) == k && Level(s.gauges, k) > 0 then Level(s.gauges, k) - 1
               else Level(s.gauges, k)
  {
    BindRelabels(cfg, s.ledger.seen, raw);
  }

  lemma CloseNext(ts: seq<Move>, t: Move, f: Series -> Series, k: Series)
    requires EventAfter(ts, t) == Some(CloseEvent)
    ensures Outstanding(ts, f, k) == Outstanding(ts + [t], f, k) + if f(Tracked(ts)[t.sk]) == k then 1 else 0
  {
    OutstandingNext(ts, t, f, k);
  }

  /** The close is shown as the connection it ends. */
  predicate ShownAlike(ts: seq<Move>, t: Move, seen: Seen) {
    t.sk in Tracked(ts) ==> Relabel(seen)(t.name) == Relabel(seen)(Tracked(ts)[t.sk])
  }

  lemma OwnIsOut(ts: seq<Move>, sk: nat, f: Series -> Series)
    requires sk in Tracked(ts)
    ensures IsOut(ts, Tracked(ts)[sk]) && Outstanding(ts, f, f(Tracked(ts)[sk])) > 0
  {
    assert TrackedAs(Tracked(ts), sk, Tracked(ts)[sk]);
    OutstandingSome(ts, f, f(Tracked(ts)[sk]));
  }

  /** A close bound to a series nobody had leaves its own connection's gauge too high. */
  lemma LawCloseMoved(cfg: Config, s: State, ts: seq<Move>, t: Move)
    requires LawOf(s, ts) && AllActive(ts) && EventAfter(ts, t) == Some(CloseEvent)
    requires !LabelsKept(ts, s.ledger.seen, Bind(cfg, s.ledger.seen, t.name).seen)
    ensures !LawOf(Apply(cfg, s, Step(Lower(t.name), t.now)), ts + [t])
  {
    var before, seen := s.ledger.seen, Bind(cfg, s.ledger.seen, t.name).seen;
    var f, g, own := Relabel(before), Relabel(seen), Tracked(ts)[t.sk];
    var k := f(own);
    var _ := NotKept(cfg, before, t.name, ts);
    OwnIsOut(ts, t.sk, f);
    forall name | IsOut(ts, name) && g(name) == k
      ensures f(name) == k
    {
      if f(name) != g(name) {
        MovedIsNew(cfg, before, t.name, name, own);
      }
    }
    OutstandingWithin(ts, g, f, k);
    if g(own) != k {
      OutstandingMore(ts, g, f, k, own);
    }
    LoweredLevel(cfg, s, t.name, t.now, k);
    CloseNext(ts, t, g, k);
    assert LawAt(s, ts, k) && !LawAt(Apply(cfg, s, Step(Lower(t.name), t.now)), ts + [t], k);
  }

  lemma LawCloseKept(cfg: Config, s: State, ts: seq<Move>, t: Move)
    requires LawOf(s, ts) && AllActive(ts) && EventAfter(ts, t) == Some(CloseEvent)
    requires LabelsKept(ts, s.ledger.seen, Bind(cfg, s.ledger.seen, t.name).seen)
    ensures LawOf(Apply(cfg, s, Step(Lower(t.name), t.now)), ts + [t]) <==>
            ShownAlike(ts, t, Bind(cfg, s.ledger.seen, t.name).seen)
  {
    var after, seen := Apply(cfg, s, Step(Lower(t.name), t.now)), Bind(cfg, s.ledger.seen, t.name).seen;
    var g, own := Relabel(seen), Tracked(ts)[t.sk];
    OwnIsOut(ts, t.sk, g);
    forall k
      ensures LawAt(s, ts, k) && Outstanding(ts, Relabel(s.ledger.seen), k) == Outstanding(ts, g, k)
      ensures Outstanding(ts, g, k) == Outstanding(ts + [t], g, k) + if g(own) == k then 1 else 0
      ensures Level(after.gauges, k) ==
              if g(t.name) == k && Level(s.gauges, k) > 0 then Level(s.gauges, k) - 1 else Level(s.gauges, k)
      ensures after.ledger.seen == seen
    {
      KeptSame(ts, s.ledger.seen, seen, k);
      CloseNext(ts, t, g, k);
      LoweredLevel(cfg, s, t.name, t.now, k);
    }
    if ShownAlike(ts, t, seen) {
      forall k
        ensures LawAt(after, ts + [t], k)
      {
        assert LawAt(s, ts, k);
      }
    } else {
      assert LawAt(s, ts, g(own)) && !LawAt(after, ts + [t], g(own));
    }
  }

  // ---- A prune ----

  /** How a prune leaves the budgets. */
  function SeenAfter(seen: Seen, live: Option<set<string>>): Seen {
    if live.Some? then LiveSeen(seen, live.value) else seen
  }

  /** A prune spares a gauge: it is young enough, and if its container is dropped it needs no budget. */
  predicate Spares(cfg: Config, s: State, step: Step, k: Series)
    requires step.op.Prune?
  {
    k in FreshSamples(s.gauges, step.now, cfg.metricTtl) && (Drops(step.op, k.container.id) ==> Plain(k.tags))
  }

  /** Every gauge with connections outstanding is spared. */
  ghost predicate SparesAll(cfg: Config, s: State, ts: seq<Move>, step: Step)
    requires step.op.Prune?
  {
    forall name :: IsOut(ts, name) ==> Spares(cfg, s, step, Relabel(s.ledger.seen)(name))
  }

  lemma {:induction false} ShowForgotten(seen: Seen, live: set<string>, id: string, tags: seq<Tag>)
    requires id !in live
    ensures Plain(ShowTags(LiveSeen(seen, live), id, tags))
    ensures Plain(ShowTags(seen, id, tags)) ==> ShowTags(LiveSeen(seen, live), id, tags) == ShowTags(seen, id, tags)
  {
    if tags == [] {
    } else {
      ShowForgotten(seen, live, id, tags[1..]);
      var shown := ShowTags(seen, id, tags);
      if Plain(shown) {
        assert shown[0] in shown && forall t :: t in shown[1..] ==> t in shown;
        assert shown[1..] == ShowTags(seen, id, tags[1..]);
      }
    }
  }

  /** A prune changes how a series is shown exactly if it drops the container and a label needed its budget. */
  lemma PruneShows(seen: Seen, op: Op, name: Series)
    requires op.Prune?
    ensures var f, g := Relabel(seen)(name), Relabel(SeenAfter(seen, op.live))(name);
            && (Drops(op, name.container.id) ==> Plain(g.tags))
            && (f == g <==> (Drops(op, name.container.id) ==> Plain(f.tags)))
  {
    if op.live.Some? {
      if name.container.id in op.live.value {
        ShowTagsLive(seen, op.live.value, name.container.id, name.tags);
      } else {
        ShowForgotten(seen, op.live.value, name.container.id, name.tags);
      }
    }
  }

  lemma LawPruneSpared(cfg: Config, s: State, ts: seq<Move>, step: Step)
    requires LawOf(s, ts) && step.op.Prune? && SparesAll(cfg, s, ts, step)
    ensures LawOf(Apply(cfg, s, step), ts)
  {
    var f, seen := Relabel(s.ledger.seen), SeenAfter(s.ledger.seen, step.op.live);
    forall name | IsOut(ts, name)
      ensures f(name) == Relabel(seen)(name)
    {
      PruneShows(s.ledger.seen, step.op, name);
    }
    forall k
      ensures LawAt(Apply(cfg, s, step), ts, k)
    {
      assert LawAt(s, ts, k);
      KeptSame(ts, s.ledger.seen, seen, k);
      OutstandingSome(ts, f, k);
    }
  }

  /** A gauge with connections outstanding that is not spared breaks the law, there or where they are shown now. */
  lemma LawPruneLost(cfg: Config, s: State, ts: seq<Move>, step: Step, name: Series)
    requires LawOf(s, ts) && AllActive(ts) && step.op.Prune? && IsOut(ts, name)
    requires !Spares(cfg, s, step, Relabel(s.ledger.seen)(name))
    ensures !LawOf(Apply(cfg, s, step), ts)
  {
    var after := Apply(cfg, s, step);
    var f, g := Relabel(s.ledger.seen), Relabel(SeenAfter(s.ledger.seen, step.op.live));
    var k := g(name);
    PruneShows(s.ledger.seen, step.op, name);
    forall other | IsOut(ts, other) && f(other) == k
      ensures g(other) == k
    {
      PruneShows(s.ledger.seen, step.op, other);
    }
    OutstandingWithin(ts, f, g, k);
    if f(name) != k {
      OutstandingMore(ts, f, g, k, name);
    }
    OutstandingSome(ts, g, k);
    assert LawAt(s, ts, k) && !LawAt(after, ts, k);
  }

  // ---- One action ----

  /** An action that keeps the law, told from the state before it. */
  ghost predicate FineIn(cfg: Config, s: State, ts: seq<Move>, a: Action) {
    match a
    case Other(step) =>
      if step.op.Prune? then SparesAll(cfg, s, ts, step)
      else LabelsKept(ts, s.ledger.seen, Bind(cfg, s.ledger.seen, step.op.raw).seen)
    case Socket(t) =>
      var after := Bind(cfg, s.ledger.seen, t.name).seen;
      match EventAfter(ts, t)
      case Some(Connect) => LabelsKept(ts, s.ledger.seen, after)
      case Some(CloseEvent) => LabelsKept(ts, s.ledger.seen, after) && ShownAlike(ts, t, after)
      case _ => true
  }

  lemma LawUnannounced(s: State, ts: seq<Move>, t: Move)
    requires EventAfter(ts, t) != Some(Connect) && EventAfter(ts, t) != Some(CloseEvent)
    ensures LawOf(s, ts + [t]) <==> LawOf(s, ts)
  {
    forall k
      ensures LawAt(s, ts + [t], k) <==> LawAt(s, ts, k)
    {
      OutstandingNext(ts, t, Relabel(s.ledger.seen), k);
    }
    if LawOf(s, ts + [t]) {
      forall k
        ensures LawAt(s, ts, k)
      {
        assert LawAt(s, ts + [t], k);
      }
    }
  }

  lemma LawSocket(cfg: Config, steps: seq<Step>, ts: seq<Move>, t: Move)
    requires LawOf(Run(cfg, steps), ts) && AllActive(ts)
    ensures LawOf(Run(cfg, steps + CallsOf(ts, Socket(t))), ts + [t]) <==> FineIn(cfg, Run(cfg, steps), ts, Socket(t))
  {
    var s := Run(cfg, steps);
    match EventAfter(ts, t)
    case Some(Connect) =>
      RunNext(cfg, steps, Step(Raise(t.name), t.now));
      LawConnect(cfg, s, ts, t);
    case Some(CloseEvent) =>
      RunNext(cfg, steps, Step(Lower(t.name), t.now));
      if LabelsKept(ts, s.ledger.seen, Bind(cfg, s.ledger.seen, t.name).seen) {
        LawCloseKept(cfg, s, ts, t);
      } else {
        LawCloseMoved(cfg, s, ts, t);
      }
    case _ =>
      assert steps + [] == steps;
      LawUnannounced(s, ts, t);
  }

  lemma LawOther(cfg: Config, steps: seq<Step>, ts: seq<Move>, step: Step)
    requires LawOf(Run(cfg, steps), ts) && AllActive(ts) && Bystander(step)
    ensures LawOf(Run(cfg, steps + [step]), ts) <==> FineIn(cfg, Run(cfg, steps), ts, Other(step))
  {
    var s := Run(cfg, steps);
    RunNext(cfg, steps, step);
    if !step.op.Prune? {
      LawQuiet(cfg, s, ts, step);
    } else if SparesAll(cfg, s, ts, step) {
      LawPruneSpared(cfg, s, ts, step);
    } else {
      var name :| IsOut(ts, name) && !Spares(cfg, s, step, Relabel(s.ledger.seen)(name));
      LawPruneLost(cfg, s, ts, step, name);
    }
  }

  lemma {:induction false} OutActive(actions: seq<Action>)
    requires Undisturbed(actions)
    ensures AllActive(Sockets(actions))
    decreases |actions|
  {
    if actions == [] {
    } else {
      var init, last := actions[..|actions| - 1], actions[|actions| - 1];
      OutActive(init);
      if last.Socket? {
        forall name | IsOut(Sockets(init) + [last.t], name)
          ensures name.kind == StoreModel.Active
        {
          OutNext(Sockets(init), last.t, name);
        }
      }
    }
  }

  /** An action keeps the law exactly if it is fine. */
  lemma LawStep(cfg: Config, init: seq<Action>, a: Action)
    requires Undisturbed(init) && Permitted(a) && Law(cfg, init)
    ensures Law(cfg, init + [a]) <==> FineIn(cfg, StateAt(cfg, init), Sockets(init), a)
  {
    ActionNext(init, a);
    OutActive(init);
    match a
    case Other(step) => LawOther(cfg, StepsOf(init), Sockets(init), step);
    case Socket(t) => LawSocket(cfg, StepsOf(init), Sockets(init), t);
  }

  // ---- Whole runs ----

  ghost predicate FineAt(cfg: Config, actions: seq<Action>, n: nat) {
    n < |actions| ==> FineIn(cfg, StateAt(cfg, actions[..n]), Sockets(actions[..n]), actions[n])
  }

  ghost predicate LawAfter(cfg: Config, actions: seq<Action>, n: nat) {
    n <= |actions| ==> Law(cfg, actions[..n])
  }

  ghost predicate AllFine(cfg: Config, actions: seq<Action>) {
    forall n: nat :: n < |actions| ==> FineAt(cfg, actions, n)
  }

  ghost predicate LawThroughout(cfg: Config, actions: seq<Action>) {
    forall n: nat :: n <= |actions| ==> LawAfter(cfg, actions, n)
  }

  lemma LawStepAt(cfg: Config, actions: seq<Action>, n: nat)
    requires Undisturbed(actions) && n < |actions| && LawAfter(cfg, actions, n)
    ensures LawAfter(cfg, actions, n + 1) <==> FineAt(cfg, actions, n)
  {
    assert actions[..n + 1] == actions[..n] + [actions[n]];
    LawStep(cfg, actions[..n], actions[n]);
  }

  /**
   * The gauge law, for every interleaving of transitions, losses, reuse of sockets, calls and prunes: the
   * gauges count the tracked connections plus the anomalies after every action if and only if
   *  - every close is shown under the labels of the connection it ends,
   *  - no call changes the labels of an outstanding connection, and
   *  - no prune finds the gauge of one over age, or drops its container while it needs a budget.
   */
  lemma GaugeLawExactly(cfg: Config, actions: seq<Action>)
    requires Undisturbed(actions)
    ensures LawThroughout(cfg, actions) <==> AllFine(cfg, actions)
  {
    var law := (n: nat) => LawAfter(cfg, actions, n);
    var fine := (n: nat) => FineAt(cfg, actions, n);
    forall n: nat | n < |actions| && law(n)
      ensures law(n + 1) <==> fine(n)
    {
      LawStepAt(cfg, actions, n);
    }
    KeptThroughout(law, fine, |actions|);
    assert forall n: nat :: law(n) == LawAfter(cfg, actions, n);
    assert forall n: nat :: fine(n) == FineAt(cfg, actions, n);
  }

  lemma LawHolds(cfg: Config, actions: seq<Action>)
    requires Undisturbed(actions) && AllFine(cfg, actions)
    ensures LawOf(StateAt(cfg, actions), Sockets(actions)) && AllActive(Sockets(actions))
  {
    GaugeLawExactly(cfg, actions);
    assert LawAfter(cfg, actions, |actions|) && actions[..|actions|] == actions;
    OutActive(actions);
  }

  // ---- Runs without prunes ----

  predicate NoPrunes(actions: seq<Action>) {
    forall i :: 0 <= i < |actions| && actions[i].Other? ==> !actions[i].step.op.Prune?
  }

  /** The labels of every outstanding connection are decided. */
  ghost predicate OutSettled(cfg: Config, ts: seq<Move>, seen: Seen) {
    forall name :: IsOut(ts, name) ==> SettledSeries(cfg, seen, name)
  }

  /** Short of a prune, decided labels stay. */
  lemma BindKeeps(cfg: Config, ts: seq<Move>, seen: Seen, raw: Series)
    requires OutSettled(cfg, ts, seen)
    ensures OutSettled(cfg, ts, Bind(cfg, seen, raw).seen) && LabelsKept(ts, seen, Bind(cfg, seen, raw).seen)
  {
    var after := Bind(cfg, seen, raw).seen;
    forall name | IsOut(ts, name)
      ensures SettledSeries(cfg, after, name) && Relabelled(after, name) == Relabelled(seen, name)
    {
      BindGrows(cfg, seen, raw, name.container.id);
      RelabelledForever(cfg, seen, after, name);
    }
  }

  /** A connect asks for the labels of its connection, so those are decided too. */
  lemma SettledMove(cfg: Config, ts: seq<Move>, seen: Seen, t: Move)
    requires OutSettled(cfg, ts, seen)
    ensures OutSettled(cfg, ts + [t], Bind(cfg, seen, t.name).seen)
    ensures Announces(t.sk in Tracked(ts), t).None? ==> OutSettled(cfg, ts + [t], seen)
  {
    BindKeeps(cfg, ts, seen, t.name);
    BindRelabels(cfg, seen, t.name);
    forall name | IsOut(ts + [t], name)
      ensures IsOut(ts, name) || Announces(t.sk in Tracked(ts), t) == Some(name)
    {
      OutNext(ts, t, name);
    }
  }

  lemma MoveSeen(cfg: Config, steps: seq<Step>, ts: seq<Move>, t: Move)
    ensures var before, after := Run(cfg, steps).ledger.seen, Run(cfg, steps + CallsOf(ts, Socket(t))).ledger.seen;
            if EventAfter(ts, t) == Some(Connect) || EventAfter(ts, t) == Some(CloseEvent)
            then after == Bind(cfg, before, t.name).seen
            else after == before
  {
    match EventAfter(ts, t)
    case Some(Connect) => RunNext(cfg, steps, Step(Raise(t.name), t.now));
    case Some(CloseEvent) => RunNext(cfg, steps, Step(Lower(t.name), t.now));
    case _ => assert steps + [] == steps;
  }

  lemma SettledSocket(cfg: Config, steps: seq<Step>, ts: seq<Move>, t: Move)
    requires OutSettled(cfg, ts, Run(cfg, steps).ledger.seen)
    ensures OutSettled(cfg, ts + [t], Run(cfg, steps + CallsOf(ts, Socket(t))).ledger.seen)
  {
    MoveSeen(cfg, steps, ts, t);
    SettledMove(cfg, ts, Run(cfg, steps).ledger.seen, t);
  }

  lemma {:induction false} UnprunedSettled(cfg: Config, actions: seq<Action>)
    requires NoPrunes(actions)
    ensures OutSettled(cfg, Sockets(actions), StateAt(cfg, actions).ledger.seen)
    decreases |actions|
  {
    if actions == [] {
      assert forall name :: !IsOut(Sockets(actions), name);
    } else {
      var init, last := actions[..|actions| - 1], actions[|actions| - 1];
      UnprunedSettled(cfg, init);
      match last
      case Socket(t) => SettledSocket(cfg, StepsOf(init), Sockets(init), t);
      case Other(step) =>
        RunNext(cfg, StepsOf(init), step);
        BindKeeps(cfg, Sockets(init), StateAt(cfg, init).ledger.seen, step.op.raw);
    }
  }

  /** If the action at `n` is a close that is announced, it is shown under the labels of the connection it ends. */
  predicate ClosesAlike(cfg: Config, actions: seq<Action>, n: nat) {
    n < |actions| && actions[n].Socket? ==>
      var ts, t := Sockets(actions[..n]), actions[n].t;
      EventAfter(ts, t) == Some(CloseEvent) ==>
        ShownAlike(ts, t, Bind(cfg, StateAt(cfg, actions[..n]).ledger.seen, t.name).seen)
  }

  lemma UnprunedFine(cfg: Config, actions: seq<Action>, n: nat)
    requires NoPrunes(actions) && n < |actions|
    ensures FineAt(cfg, actions, n) <==> ClosesAlike(cfg, actions, n)
  {
    var ts, seen := Sockets(actions[..n]), StateAt(cfg, actions[..n]).ledger.seen;
    UnprunedSettled(cfg, actions[..n]);
    match actions[n]
    case Socket(t) => BindKeeps(cfg, ts, seen, t.name);
    case Other(step) => BindKeeps(cfg, ts, seen, step.op.raw);
  }

  /** Without prunes the law is kept exactly if every close is shown under the labels of the connection it ends. */
  lemma GaugeLaw(cfg: Config, actions: seq<Action>)
    requires Undisturbed(actions) && NoPrunes(actions)
    ensures LawThroughout(cfg, actions) <==> forall n: nat :: n < |actions| ==> ClosesAlike(cfg, actions, n)
  {
    GaugeLawExactly(cfg, actions);
    forall n: nat | n < |actions|
      ensures FineAt(cfg, actions, n) <==> ClosesAlike(cfg, actions, n)
    {
      UnprunedFine(cfg, actions, n);
    }
  }

  // ---- What follows ----

  lemma ClampIn(cfg: Config, s: State, ts: seq<Move>, t: Move)
    requires LawOf(s, ts) && AllActive(ts) && EventAfter(ts, t) == Some(CloseEvent) && FineIn(cfg, s, ts, Socket(t))
    ensures Level(s.gauges, Bind(cfg, s.ledger.seen, t.name).series) >= 1
  {
    var k := Relabel(s.ledger.seen)(Tracked(ts)[t.sk]);
    OwnIsOut(ts, t.sk, Relabel(s.ledger.seen));
    BindRelabels(cfg, s.ledger.seen, t.name);
    assert LawAt(s, ts, k);
  }

  /** A close that is fine finds a gauge above zero: the clamp never fires. */
  lemma ClampNeverFires(cfg: Config, actions: seq<Action>, t: Move)
    requires Undisturbed(actions)
    ensures var s, ts := StateAt(cfg, actions), Sockets(actions);
            AllFine(cfg, actions) && EventAfter(ts, t) == Some(CloseEvent) && FineIn(cfg, s, ts, Socket(t)) ==>
              Level(s.gauges, Bind(cfg, s.ledger.seen, t.name).series) >= 1
  {
    var s, ts := StateAt(cfg, actions), Sockets(actions);
    if AllFine(cfg, actions) && EventAfter(ts, t) == Some(CloseEvent) && FineIn(cfg, s, ts, Socket(t)) {
      LawHolds(cfg, actions);
      ClampIn(cfg, s, ts, t);
    }
  }

  lemma OpenHolding(ts: seq<Move>, f: Series -> Series, k: Series, sk: nat)
    requires Proper(ts) && NothingLost(ts)
    ensures sk in Holding(Tracked(ts), f, k) <==> exists name :: OpenAs(ts, sk, name) && f(name) == k
  {
    TrackedIsOpen(ts, sk);
    if sk in Tracked(ts) {
      assert TrackedAs(Tracked(ts), sk, Tracked(ts)[sk]);
    }
    forall name | OpenAs(ts, sk, name)
      ensures TrackedAs(Tracked(ts), sk, name)
    {
    }
  }

  /** The gauge counts the open outbound connections shown under its labels. */
  ghost predicate CountsOpen(s: State, ts: seq<Move>, k: Series) {
    var f := Relabel(s.ledger.seen);
    && Level(s.gauges, k) == |Holding(Tracked(ts), f, k)|
    && forall sk :: sk in Holding(Tracked(ts), f, k) <==> exists name :: OpenAs(ts, sk, name) && f(name) == k
  }

  lemma CountsOpenIn(s: State, ts: seq<Move>, k: Series)
    requires LawAt(s, ts, k) && k.kind == StoreModel.Active && Proper(ts) && NothingLost(ts)
    ensures CountsOpen(s, ts, k)
  {
    var f := Relabel(s.ledger.seen);
    NoAnomalies(ts, f, k);
    forall sk
      ensures sk in Holding(Tracked(ts), f, k) <==> exists name :: OpenAs(ts, sk, name) && f(name) == k
    {
      OpenHolding(ts, f, k, sk);
    }
  }

  /** With nothing lost and SYN_SENT entered only from CLOSE as well, it does. */
  lemma GaugeCountsOpen(cfg: Config, actions: seq<Action>, k: Series)
    requires Undisturbed(actions) && AllFine(cfg, actions) && k.kind == StoreModel.Active
    requires Proper(Sockets(actions)) && NothingLost(Sockets(actions))
    ensures CountsOpen(StateAt(cfg, actions), Sockets(actions), k)
  {
    LawHolds(cfg, actions);
    assert LawAt(StateAt(cfg, actions), Sockets(actions), k);
    CountsOpenIn(StateAt(cfg, actions), Sockets(actions), k);
  }

  // ---- Runs in which the law fails ----

  function Begins(name: Series): Move {
    Transition(0, SynSent, Established, name, true, true, 0)
  }

  function Closed(name: Series): Move {
    Transition(0, Established, Close, name, true, true, 0)
  }

  lemma Begun(cfg: Config, name: Series)
    requires name.kind == StoreModel.Active
    ensures var begun := [Socket(Begins(name))];
            && Sockets(begun) == [Begins(name)] && Tracked(Sockets(begun)) == map[0 := name]
            && StateAt(cfg, begun) == Apply(cfg, INITIAL, Step(Raise(name), 0)) && Law(cfg, begun)
  {
    var t := Begins(name);
    assert [] + [Socket(t)] == [Socket(t)] && [] + [t] == [t] && [t][..0] == [];
    ActionNext([], Socket(t));
    RunNext(cfg, [], Step(Raise(name), 0));
    assert [] + [Step(Raise(name), 0)] == [Step(Raise(name), 0)];
    assert forall other :: !IsOut<Series>([], other);
    LawStep(cfg, [], Socket(t));
  }

  function TwoTags(x: string, y: string): seq<Tag> {
    [Tag(Destinations, x), Tag(Destinations, y)]
  }

  lemma ShownTwo(seen: Seen, id: string, x: string, y: string)
    requires x in Admitted(seen, Slot(Destinations, id)) && y in Admitted(seen, Slot(Destinations, id))
    ensures ShowTags(seen, id, TwoTags(x, y)) == TwoTags(x, y)
  {
    var second := [Tag(Destinations, y)];
    assert TwoTags(x, y)[1..] == second && second[1..] == [];
    assert ShowTags(seen, id, second) == second;
  }

  /** With room for both, two addresses are admitted. */
  lemma BindTwo(cfg: Config, seen: Seen, id: string, x: string, y: string)
    requires x != "" && y != "" && |Admitted(seen, Slot(Destinations, id)).Keys + {x}| < cfg.destinationLimit
    ensures var slot, after := Slot(Destinations, id), BindTags(cfg, seen, id, TwoTags(x, y)).seen;
            x in Admitted(after, slot) && y in Admitted(after, slot) &&
            (x == y ==> Admitted(after, slot).Keys == Admitted(seen, slot).Keys + {x})
  {
    var slot, second := Slot(Destinations, id), [Tag(Destinations, y)];
    assert TwoTags(x, y)[1..] == second && second[1..] == [];
    var mid := Bound(seen, slot, x, cfg.destinationLimit).seen;
    SubsetSize(Admitted(seen, slot).Keys, Admitted(seen, slot).Keys + {x});
    assert |Admitted(seen, slot)| == |Admitted(seen, slot).Keys|;
    assert Admitted(mid, slot).Keys == Admitted(seen, slot).Keys + {x};
    assert |Admitted(mid, slot)| == |Admitted(mid, slot).Keys|;
    assert BindTags(cfg, seen, id, TwoTags(x, y)).seen == BindTags(cfg, mid, id, second).seen;
    assert BindTags(cfg, mid, id, second).seen == Bound(mid, slot, y, cfg.destinationLimit).seen;
  }

  lemma TranslatedLabels(cfg: Config, c: Container, dst: string, actual: string, seen: Seen)
    requires dst != "" && actual != "" && dst != actual && cfg.destinationLimit > 1
    requires seen == BindTags(cfg, map[], c.id, TwoTags(dst, dst)).seen
    ensures var after := BindTags(cfg, seen, c.id, TwoTags(dst, actual)).seen;
            ShowTags(after, c.id, TwoTags(dst, dst)) != ShowTags(after, c.id, TwoTags(dst, actual))
  {
    var slot := Slot(Destinations, c.id);
    BindTwo(cfg, map[], c.id, dst, dst);
    assert Admitted(seen, slot).Keys == {dst} && {dst} + {dst} == {dst};
    BindTwo(cfg, seen, c.id, dst, actual);
    var after := BindTags(cfg, seen, c.id, TwoTags(dst, actual)).seen;
    ShownTwo(after, c.id, dst, dst);
    ShownTwo(after, c.id, dst, actual);
    assert TwoTags(dst, dst)[1] != TwoTags(dst, actual)[1];
  }

  /** The translation of an address appears while a connection to it is open: its close lowers another gauge. */
  lemma TranslationAppears(cfg: Config, c: Container, dst: string, actual: string)
    requires dst != "" && actual != "" && dst != actual && cfg.destinationLimit > 1
    ensures var opening := Series(StoreModel.Active, c, TwoTags(dst, dst));
            var closing := Series(StoreModel.Active, c, TwoTags(dst, actual));
            !Law(cfg, [Socket(Begins(opening)), Socket(Closed(closing))])
  {
    var opening, closing := Series(StoreModel.Active, c, TwoTags(dst, dst)), Series(StoreModel.Active, c, TwoTags(dst, actual));
    Begun(cfg, opening);
    TranslatedLabels(cfg, c, dst, actual, StateAt(cfg, [Socket(Begins(opening))]).ledger.seen);
    MisnamedBreaks(cfg, opening, Closed(closing));
  }

  lemma MisnamedBreaks(cfg: Config, opening: Series, t: Move)
    requires opening.kind == t.name.kind == StoreModel.Active && t.sk == 0 && Closes(t) && t.reserved
    requires var after := Bind(cfg, StateAt(cfg, [Socket(Begins(opening))]).ledger.seen, t.name).seen;
             Relabelled(after, opening) != Relabelled(after, t.name)
    ensures !Law(cfg, [Socket(Begins(opening)), Socket(t)])
  {
    var begun := [Socket(Begins(opening))];
    Begun(cfg, opening);
    assert begun + [Socket(t)] == [Socket(Begins(opening)), Socket(t)];
    LawStep(cfg, begun, Socket(t));
  }

  /** A connection that stays open past the TTL with nothing new beside it: the next prune drops its gauge. */
  lemma IdleConnectionLost(cfg: Config, name: Series, now: int)
    requires name.kind == StoreModel.Active && now > cfg.metricTtl
    ensures !Law(cfg, [Socket(Begins(name)), Other(Step(Prune(None), now))])
  {
    var begun, step := [Socket(Begins(name))], Step(Prune(None), now);
    Begun(cfg, name);
    OwnIsOut(Sockets(begun), 0, Relabel(StateAt(cfg, begun).ledger.seen));
    BindRelabels(cfg, map[], name);
    assert !Spares(cfg, StateAt(cfg, begun), step, Relabel(StateAt(cfg, begun).ledger.seen)(name));
    assert begun + [Other(step)] == [Socket(Begins(name)), Other(step)];
    LawStep(cfg, begun, Other(step));
  }
}
