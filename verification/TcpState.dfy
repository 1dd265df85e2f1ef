/**
 * The kernel-side handler of socket state changes: which sockets it tracks as outbound, which events
 * it emits, and the law that ties the two over every sequence of transitions, with ring-buffer
 * reservations and map insertions failing at any point. Socket addresses are reused, so connections
 * are told apart by the connect that began them.
 */
module TcpState {
  import opened Bytes

  datatype TcpState =
    | Established | SynSent | SynRecv | FinWait1 | FinWait2 | TimeWait
    | Close | CloseWait | LastAck | Listen | Closing | NewSynRecv

  /**
   * A state change; `name` is what its event will be taken to be about, and `reserved` and `inserted`
   * say whether the kernel would grant a reservation and an insertion during it. It refuses the latter
   * when the map holds its 65536 entries, among other reasons.
   */
  datatype Transition<L> =
    Transition(sk: nat, prior: TcpState, next: TcpState, name: L, reserved: bool, inserted: bool, now: int)

  datatype Event = Connect | FailedConnect | Listening | CloseEvent

  predicate Connects<L>(t: Transition<L>) { t.prior.SynSent? && t.next.Established? }

  predicate Closes<L>(t: Transition<L>) { t.next.Close? && !t.prior.SynSent? }

  function Emitted<L>(known: bool, t: Transition<L>): Option<Event> {
    if !t.reserved || (Closes(t) && !known) then None
    else if Connects(t) then Some(Connect)
    else if t.prior.SynSent? && t.next.Close? then Some(FailedConnect)
    else if t.next.Listen? then Some(Listening)
    else if Closes(t) then Some(CloseEvent)
    else None
  }

  /** The tracked sockets, each with the name its connection was announced under. */
  type Table<L> = map<nat, L>

  function NextTracked<L>(tracked: Table<L>, t: Transition<L>): Table<L> {
    var known := t.sk in tracked;
    if Closes(t) then tracked - {t.sk}
    else if Emitted(known, t) == Some(Connect) && t.inserted then tracked[t.sk := t.name]
    else tracked
  }

  function Tracked<L>(ts: seq<Transition<L>>): Table<L> {
    if ts == [] then map[] else NextTracked(Tracked(ts[..|ts| - 1]), ts[|ts| - 1])
  }

  /** The event of a transition that comes after `ts`. */
  function EventAfter<L>(ts: seq<Transition<L>>, t: Transition<L>): Option<Event> {
    Emitted(t.sk in Tracked(ts), t)
  }

  lemma TrackedNext<L>(ts: seq<Transition<L>>, t: Transition<L>)
    ensures Tracked(ts + [t]) == NextTracked(Tracked(ts), t)
  {
    assert (ts + [t])[..|ts|] == ts;
  }

  /** The BPF program and its `outbound_socks` map. */
  class SocketHandler<L> {
    var outboundSocks: set<nat>
    ghost var transitions: seq<Transition<L>>

    ghost predicate Valid()
      reads this
    {
      outboundSocks == Tracked(transitions).Keys
    }

    constructor ()
      ensures Valid() && transitions == []
    {
      outboundSocks, transitions := {}, [];
    }

    /** `handle_inet_sock_set_state` */
    method Handle(t: Transition<L>) returns (event: Option<Event>)
      requires Valid()
      modifies this
      ensures Valid() && transitions == old(transitions) + [t]
      ensures event == EventAfter(old(transitions), t) && Announced(old(transitions), t, event)
    {
      EventExactly(transitions, t);
      TrackedNext(transitions, t);
      transitions := transitions + [t];
      var knownOutbound := false;
      if t.next == Close && t.prior != SynSent {
        if t.sk in outboundSocks {
          knownOutbound := true;
          outboundSocks := outboundSocks - {t.sk};
        } else {
          return None;
        }
      }
      if !t.reserved {
        return None;
      }
      if t.next == Established && t.prior == SynSent {
        if t.inserted {
          outboundSocks := outboundSocks + {t.sk};
        }
        return Some(Connect);
      } else if t.prior == SynSent && t.next == Close {
        return Some(FailedConnect);
      } else if t.next == Listen {
        return Some(Listening);
      } else if knownOutbound {
        return Some(CloseEvent);
      }
      return None;
    }
  }

  // ---- Events against tracked sockets ----

  /**
   * The connection that will never be closed because of a transition, if there is one: announced but
   * not tracked, displaced by another on the same socket, or closed without a word.
   */
  function Anomaly<L>(tracked: Table<L>, t: Transition<L>): Option<L> {
    var known := t.sk in tracked;
    if Emitted(known, t) == Some(Connect) then
      if !t.inserted then Some(t.name)
      else if known then Some(tracked[t.sk])
      else None
    else if Closes(t) && known && !t.reserved then Some(tracked[t.sk])
    else None
  }

  /** The connection a transition announces, if it announces one. */
  function Announces<L>(known: bool, t: Transition<L>): Option<L> {
    if Emitted(known, t) == Some(Connect) then Some(t.name) else None
  }

  /** The connection a transition announces the end of: the one that was tracked, whatever the event is named. */
  function Ends<L>(tracked: Table<L>, t: Transition<L>): Option<L> {
    if t.sk in tracked && Emitted(true, t) == Some(CloseEvent) then Some(tracked[t.sk]) else None
  }

  function InGroup<L, K(==)>(name: Option<L>, f: L -> K, k: K): nat {
    if name.Some? && f(name.value) == k then 1 else 0
  }

  /** Connects less closes of the connections named in group `k`. */
  function Net<L, K(==)>(ts: seq<Transition<L>>, f: L -> K, k: K): int {
    if ts == [] then 0
    else
      var init, last := ts[..|ts| - 1], ts[|ts| - 1];
      var tracked := Tracked(init);
      Net(init, f, k) + InGroup(Announces(last.sk in tracked, last), f, k) - InGroup(Ends(tracked, last), f, k)
  }

  /** What each of the transitions left behind. */
  function LeftBehind<L>(ts: seq<Transition<L>>): (r: seq<Option<L>>)
    ensures |r| == |ts|
  {
    if ts == [] then []
    else LeftBehind(ts[..|ts| - 1]) + [Anomaly(Tracked(ts[..|ts| - 1]), ts[|ts| - 1])]
  }

  function CountGroup<L, K(==)>(names: seq<Option<L>>, f: L -> K, k: K): nat {
    if names == [] then 0 else CountGroup(names[..|names| - 1], f, k) + InGroup(names[|names| - 1], f, k)
  }

  /** The connections in group `k` that will never be closed. */
  function Anomalies<L, K(==)>(ts: seq<Transition<L>>, f: L -> K, k: K): nat {
    CountGroup(LeftBehind(ts), f, k)
  }

  function Holding<L, K(==)>(tracked: Table<L>, f: L -> K, k: K): set<nat> {
    set sk | sk in tracked && f(tracked[sk]) == k
  }

  /** The connections in group `k` that were announced and not yet closed: tracked, or left behind. */
  function Outstanding<L, K(==)>(ts: seq<Transition<L>>, f: L -> K, k: K): nat {
    |Holding(Tracked(ts), f, k)| + Anomalies(ts, f, k)
  }

  lemma HoldingAdd<L, K>(tracked: Table<L>, sk: nat, name: L, f: L -> K, k: K)
    requires sk !in tracked
    ensures |Holding(tracked[sk := name], f, k)| == |Holding(tracked, f, k)| + if f(name) == k then 1 else 0
  {
    if f(name) == k {
      assert Holding(tracked[sk := name], f, k) == Holding(tracked, f, k) + {sk};
    } else {
      assert Holding(tracked[sk := name], f, k) == Holding(tracked, f, k);
    }
  }

  lemma HoldingDrop<L, K>(tracked: Table<L>, sk: nat, f: L -> K, k: K)
    requires sk in tracked
    ensures |Holding(tracked, f, k)| == |Holding(tracked - {sk}, f, k)| + if f(tracked[sk]) == k then 1 else 0
  {
    HoldingAdd(tracked - {sk}, sk, tracked[sk], f, k);
    assert (tracked - {sk})[sk := tracked[sk]] == tracked;
  }

  lemma HoldingPut<L, K>(tracked: Table<L>, sk: nat, name: L, f: L -> K, k: K)
    ensures |Holding(tracked[sk := name], f, k)| + (if sk in tracked && f(tracked[sk]) == k then 1 else 0) ==
            |Holding(tracked, f, k)| + if f(name) == k then 1 else 0
  {
    if sk in tracked {
      HoldingDrop(tracked, sk, f, k);
      HoldingAdd(tracked - {sk}, sk, name, f, k);
      assert (tracked - {sk})[sk := name] == tracked[sk := name];
    } else {
      HoldingAdd(tracked, sk, name, f, k);
    }
  }

  lemma HandledBalance<L, K>(tracked: Table<L>, t: Transition<L>, f: L -> K, k: K)
    ensures |Holding(NextTracked(tracked, t), f, k)| + InGroup(Anomaly(tracked, t), f, k) + InGroup(Ends(tracked, t), f, k) ==
            |Holding(tracked, f, k)| + InGroup(Announces(t.sk in tracked, t), f, k)
  {
    var known := t.sk in tracked;
    if Closes(t) {
      if known {
        HoldingDrop(tracked, t.sk, f, k);
      } else {
        assert tracked - {t.sk} == tracked;
      }
    } else if Emitted(known, t) == Some(Connect) && t.inserted {
      HoldingPut(tracked, t.sk, t.name, f, k);
    }
  }

  lemma AnomaliesNext<L, K>(ts: seq<Transition<L>>, t: Transition<L>, f: L -> K, k: K)
    ensures LeftBehind(ts + [t]) == LeftBehind(ts) + [Anomaly(Tracked(ts), t)]
    ensures Anomalies(ts + [t], f, k) == Anomalies(ts, f, k) + InGroup(Anomaly(Tracked(ts), t), f, k)
  {
    assert (ts + [t])[..|ts|] == ts;
    assert LeftBehind(ts + [t])[..|ts|] == LeftBehind(ts);
  }

  /** One transition more: what it announces is outstanding, and what it ends is not any longer. */
  lemma OutstandingNext<L, K>(ts: seq<Transition<L>>, t: Transition<L>, f: L -> K, k: K)
    ensures Outstanding(ts + [t], f, k) + InGroup(Ends(Tracked(ts), t), f, k) ==
            Outstanding(ts, f, k) + InGroup(Announces(t.sk in Tracked(ts), t), f, k)
  {
    TrackedNext(ts, t);
    AnomaliesNext(ts, t, f, k);
    HandledBalance(Tracked(ts), t, f, k);
  }

  /**
   * Conservation: for every sequence of transitions, whatever fails, and however connections are
   * grouped, connects less closes is the number of tracked connections plus the anomalies.
   */
  lemma {:induction false} Conservation<L, K>(ts: seq<Transition<L>>, f: L -> K, k: K)
    ensures Net(ts, f, k) == |Holding(Tracked(ts), f, k)| + Anomalies(ts, f, k)
  {
    if ts == [] {
    } else {
      var init, last := ts[..|ts| - 1], ts[|ts| - 1];
      Conservation(init, f, k);
      OutstandingNext(init, last, f, k);
      assert init + [last] == ts;
    }
  }

  // ---- Every close has a connect of its own ----

  predicate Tracks<L>(t: Transition<L>) {
    Connects(t) && t.reserved && t.inserted
  }

  /** The connection on `sk` is the one that began at `i`: neither closed nor displaced since. */
  ghost predicate Since<L>(ts: seq<Transition<L>>, sk: nat, i: nat) {
    && i < |ts| && ts[i].sk == sk && Tracks(ts[i])
    && forall j :: i < j < |ts| && ts[j].sk == sk ==> !Closes(ts[j]) && !Tracks(ts[j])
  }

  lemma SinceNext<L>(ts: seq<Transition<L>>, t: Transition<L>, sk: nat, i: nat)
    requires i < |ts|
    ensures Since(ts + [t], sk, i) <==> Since(ts, sk, i) && (t.sk == sk ==> !Closes(t) && !Tracks(t))
  {
    var more := ts + [t];
    assert more[|ts|] == t && forall j :: 0 <= j < |ts| ==> more[j] == ts[j];
  }

  /**
   * For every sequence of transitions and losses, a socket is tracked exactly when a connect was announced
   * and inserted on it, and neither a close nor another such connect came since; and under its name.
   */
  lemma {:induction false} TrackedSince<L>(ts: seq<Transition<L>>, sk: nat)
    ensures sk in Tracked(ts) <==> exists i: nat :: Since(ts, sk, i)
    ensures forall i: nat :: Since(ts, sk, i) ==>
              sk in Tracked(ts) && Tracked(ts)[sk] == ts[i].name && EventAfter(ts[..i], ts[i]) == Some(Connect)
  {
    if ts == [] {
    } else {
      var n := |ts| - 1;
      var init, t := ts[..n], ts[n];
      assert init + [t] == ts;
      TrackedSince(init, sk);
      forall i: nat | i < n
        ensures Since(ts, sk, i) <==> Since(init, sk, i) && (t.sk == sk ==> !Closes(t) && !Tracks(t))
        ensures init[..i] == ts[..i]
      {
        SinceNext(init, t, sk, i);
      }
      if t.sk == sk && Tracks(t) {
        assert Since(ts, sk, n);
      }
    }
  }

  /** Every close that is announced follows the connect event that began the connection it ends. */
  lemma CloseHasConnect<L>(ts: seq<Transition<L>>, t: Transition<L>) returns (i: nat)
    requires EventAfter(ts, t) == Some(CloseEvent)
    ensures Since(ts, t.sk, i) && EventAfter(ts[..i], ts[i]) == Some(Connect)
    ensures Ends(Tracked(ts), t) == Some(ts[i].name)
  {
    TrackedSince(ts, t.sk);
    i :| Since(ts, t.sk, i);
  }

  /** And no connect is ended twice. */
  lemma ConnectEndsOnce<L>(ts: seq<Transition<L>>, j: nat, k: nat, i: nat)
    requires j < k < |ts| && Closes(ts[j]) && Since(ts[..j], ts[j].sk, i)
    ensures !Since(ts[..k], ts[k].sk, i)
  {
    assert ts[..j][i] == ts[i] == ts[..k][i] && ts[..k][j] == ts[j];
  }

  /** Counted by group: a tracked connection has a connect in its group that no close has used up. */
  lemma CloseCounted<L, K>(ts: seq<Transition<L>>, sk: nat, f: L -> K)
    requires sk in Tracked(ts)
    ensures Net(ts, f, f(Tracked(ts)[sk])) >= 1
  {
    Conservation(ts, f, f(Tracked(ts)[sk]));
    assert sk in Holding(Tracked(ts), f, f(Tracked(ts)[sk]));
  }

  /**
   * The events a transition after `ts` owes: given a reservation, a connect for an answered SYN, a failure
   * for a refused one, a listen for a socket that begins to, and a close for the end of a tracked connection.
   */
  ghost predicate Announced<L>(ts: seq<Transition<L>>, t: Transition<L>, event: Option<Event>) {
    && (event == Some(Connect) <==> t.reserved && t.prior == SynSent && t.next == Established)
    && (event == Some(FailedConnect) <==> t.reserved && t.prior == SynSent && t.next == Close)
    && (event == Some(Listening) <==> t.reserved && t.next == Listen)
    && (event == Some(CloseEvent) <==>
        t.reserved && t.prior != SynSent && t.next == Close && exists i: nat :: Since(ts, t.sk, i))
  }

  lemma EventExactly<L>(ts: seq<Transition<L>>, t: Transition<L>)
    ensures Announced(ts, t, EventAfter(ts, t))
  {
    TrackedSince(ts, t.sk);
  }

  // ---- Anomalies ----

  lemma {:induction false} LeftBehindAt<L>(ts: seq<Transition<L>>, i: nat)
    requires i < |ts|
    ensures LeftBehind(ts)[i] == Anomaly(Tracked(ts[..i]), ts[i])
    decreases |ts|
  {
    var n := |ts| - 1;
    if i == n {
    } else {
      LeftBehindAt(ts[..n], i);
      assert ts[..n][..i] == ts[..i];
    }
  }

  predicate NoneInGroup<L, K(==)>(names: seq<Option<L>>, f: L -> K, k: K) {
    forall i :: 0 <= i < |names| ==> InGroup(names[i], f, k) == 0
  }

  lemma {:induction false} CountGroupZero<L, K>(names: seq<Option<L>>, f: L -> K, k: K)
    ensures CountGroup(names, f, k) == 0 <==> NoneInGroup(names, f, k)
  {
    if names == [] {
    } else {
      CountGroupZero(names[..|names| - 1], f, k);
    }
  }

  /** What the transition at `i` leaves behind, by the branch it takes. */
  ghost predicate Strands<L>(ts: seq<Transition<L>>, i: nat, name: L)
    requires i < |ts|
  {
    var t, tracked := ts[i], Tracked(ts[..i]);
    || (Connects(t) && t.reserved && !t.inserted && name == t.name)
    || (Tracks(t) && TrackedAs(tracked, t.sk, name))
    || (Closes(t) && !t.reserved && TrackedAs(tracked, t.sk, name))
  }

  /**
   * The anomalies of a group vanish exactly when no connection of it was announced and not inserted, or
   * displaced by another on its socket, or closed without a reservation.
   */
  lemma NoAnomalyExactly<L, K>(ts: seq<Transition<L>>, f: L -> K, k: K)
    ensures Anomalies(ts, f, k) == 0 <==> forall i, name :: 0 <= i < |ts| && Strands(ts, i, name) ==> f(name) != k
  {
    CountGroupZero(LeftBehind(ts), f, k);
    forall i | 0 <= i < |ts|
      ensures LeftBehind(ts)[i] == Anomaly(Tracked(ts[..i]), ts[i])
      ensures forall name :: Strands(ts, i, name) <==> LeftBehind(ts)[i] == Some(name)
    {
      LeftBehindAt(ts, i);
    }
  }

  // ---- Outstanding connections, one by one ----

  predicate TrackedAs<L(==)>(tracked: Table<L>, sk: nat, name: L) {
    sk in tracked && tracked[sk] == name
  }

  /** A connection under this name is outstanding. */
  ghost predicate IsOut<L>(ts: seq<Transition<L>>, name: L) {
    (exists sk :: TrackedAs(Tracked(ts), sk, name)) || Some(name) in LeftBehind(ts)
  }

  /** Every name in one grouping's `k` is in the other's. */
  ghost predicate GroupWithin<L(!new), K>(ts: seq<Transition<L>>, f: L -> K, g: L -> K, k: K) {
    forall name :: IsOut(ts, name) && f(name) == k ==> g(name) == k
  }

  lemma HoldingWithin<L(!new), K>(ts: seq<Transition<L>>, f: L -> K, g: L -> K, k: K)
    requires GroupWithin(ts, f, g, k)
    ensures Holding(Tracked(ts), f, k) <= Holding(Tracked(ts), g, k)
  {
    forall sk | sk in Holding(Tracked(ts), f, k)
      ensures g(Tracked(ts)[sk]) == k
    {
      assert TrackedAs(Tracked(ts), sk, Tracked(ts)[sk]);
    }
  }

  /** A name counted in one grouping's `k` is counted in the other's. */
  predicate CountsWithin<L, K(==)>(names: seq<Option<L>>, f: L -> K, g: L -> K, k: K) {
    forall i :: 0 <= i < |names| ==> InGroup(names[i], f, k) <= InGroup(names[i], g, k)
  }

  lemma {:induction false} CountGroupWithin<L, K>(names: seq<Option<L>>, f: L -> K, g: L -> K, k: K)
    requires CountsWithin(names, f, g, k)
    ensures CountGroup(names, f, k) <= CountGroup(names, g, k)
  {
    if names == [] {
    } else {
      CountGroupWithin(names[..|names| - 1], f, g, k);
    }
  }

  lemma {:induction false} CountGroupMore<L, K>(names: seq<Option<L>>, f: L -> K, g: L -> K, k: K, i: nat)
    requires CountsWithin(names, f, g, k) && i < |names| && InGroup(names[i], f, k) < InGroup(names[i], g, k)
    ensures CountGroup(names, f, k) < CountGroup(names, g, k)
    decreases |names|
  {
    var n := |names| - 1;
    if i == n {
      CountGroupWithin(names[..n], f, g, k);
    } else {
      CountGroupMore(names[..n], f, g, k, i);
    }
  }

  lemma LeftBehindWithin<L(!new), K>(ts: seq<Transition<L>>, f: L -> K, g: L -> K, k: K)
    requires GroupWithin(ts, f, g, k)
    ensures CountsWithin(LeftBehind(ts), f, g, k)
  {
    forall i | 0 <= i < |ts|
      ensures InGroup(LeftBehind(ts)[i], f, k) <= InGroup(LeftBehind(ts)[i], g, k)
    {
      if LeftBehind(ts)[i].Some? {
        assert IsOut(ts, LeftBehind(ts)[i].value);
      }
    }
  }

  lemma OutstandingWithin<L(!new), K>(ts: seq<Transition<L>>, f: L -> K, g: L -> K, k: K)
    requires GroupWithin(ts, f, g, k)
    ensures Outstanding(ts, f, k) <= Outstanding(ts, g, k)
  {
    HoldingWithin(ts, f, g, k);
    SubsetSize(Holding(Tracked(ts), f, k), Holding(Tracked(ts), g, k));
    LeftBehindWithin(ts, f, g, k);
    CountGroupWithin(LeftBehind(ts), f, g, k);
  }

  /** One outstanding name more in the other grouping makes the other count larger. */
  lemma OutstandingMore<L(!new), K>(ts: seq<Transition<L>>, f: L -> K, g: L -> K, k: K, name: L)
    requires GroupWithin(ts, f, g, k) && IsOut(ts, name) && f(name) != k && g(name) == k
    ensures Outstanding(ts, f, k) < Outstanding(ts, g, k)
  {
    HoldingWithin(ts, f, g, k);
    SubsetSize(Holding(Tracked(ts), f, k), Holding(Tracked(ts), g, k));
    LeftBehindWithin(ts, f, g, k);
    if Some(name) in LeftBehind(ts) {
      var i :| 0 <= i < |ts| && LeftBehind(ts)[i] == Some(name);
      CountGroupMore(LeftBehind(ts), f, g, k, i);
    } else {
      CountGroupWithin(LeftBehind(ts), f, g, k);
      var sk :| TrackedAs(Tracked(ts), sk, name);
      assert sk in Holding(Tracked(ts), g, k) && sk !in Holding(Tracked(ts), f, k);
    }
  }

  /** A group has something outstanding exactly when some outstanding name is in it. */
  lemma OutstandingSome<L(!new), K>(ts: seq<Transition<L>>, f: L -> K, k: K)
    ensures Outstanding(ts, f, k) > 0 <==> exists name :: IsOut(ts, name) && f(name) == k
  {
    CountGroupZero(LeftBehind(ts), f, k);
    forall name | IsOut(ts, name) && f(name) == k
      ensures Outstanding(ts, f, k) > 0
    {
      if Some(name) in LeftBehind(ts) {
        var i :| 0 <= i < |ts| && LeftBehind(ts)[i] == Some(name);
        assert InGroup(LeftBehind(ts)[i], f, k) == 1;
      } else {
        var sk :| TrackedAs(Tracked(ts), sk, name);
        assert sk in Holding(Tracked(ts), f, k);
      }
    }
    if Outstanding(ts, f, k) > 0 {
      if Holding(Tracked(ts), f, k) != {} {
        var sk :| sk in Holding(Tracked(ts), f, k);
        assert TrackedAs(Tracked(ts), sk, Tracked(ts)[sk]);
      } else {
        var i :| 0 <= i < |ts| && InGroup(LeftBehind(ts)[i], f, k) != 0;
        assert IsOut(ts, LeftBehind(ts)[i].value);
      }
    }
  }

  /** Only a connect event makes a name outstanding. */
  lemma OutNext<L>(ts: seq<Transition<L>>, t: Transition<L>, name: L)
    requires IsOut(ts + [t], name)
    ensures IsOut(ts, name) || Announces(t.sk in Tracked(ts), t) == Some(name)
  {
    TrackedNext(ts, t);
    AnomaliesNext(ts, t, (n: L) => 0, 0);
    if exists sk :: TrackedAs(Tracked(ts + [t]), sk, name) {
      var sk :| TrackedAs(Tracked(ts + [t]), sk, name);
      if TrackedAs(Tracked(ts), sk, name) {
        assert IsOut(ts, name);
      }
    } else if Anomaly(Tracked(ts), t) == Some(name) {
      if TrackedAs(Tracked(ts), t.sk, name) {
        assert IsOut(ts, name);
      }
    }
  }

  // ---- Against the sockets themselves ----

  function StateOf<L>(ts: seq<Transition<L>>, sk: nat): TcpState {
    if ts == [] then Close
    else if ts[|ts| - 1].sk == sk then ts[|ts| - 1].next
    else StateOf(ts[..|ts| - 1], sk)
  }

  /** Each socket moves on from the state it was in, and enters SYN_SENT only from CLOSE. */
  predicate Proper<L>(ts: seq<Transition<L>>) {
    forall i :: 0 <= i < |ts| ==>
      ts[i].prior == StateOf(ts[..i], ts[i].sk) && (ts[i].next.SynSent? ==> ts[i].prior.Close?)
  }

  /** No reservation and no insertion failed. */
  predicate NothingLost<L>(ts: seq<Transition<L>>) {
    forall i :: 0 <= i < |ts| ==> ts[i].reserved && (Connects(ts[i]) ==> ts[i].inserted)
  }

  /** The socket connected at `i` and has not closed since. */
  ghost predicate OpenSince<L>(ts: seq<Transition<L>>, sk: nat, i: nat) {
    && i < |ts| && ts[i].sk == sk && Connects(ts[i])
    && forall j :: i < j < |ts| && ts[j].sk == sk ==> !ts[j].next.Close?
  }

  /** The socket is open outbound, on a connection announced under `name`. */
  ghost predicate OpenAs<L>(ts: seq<Transition<L>>, sk: nat, name: L) {
    exists i: nat :: OpenSince(ts, sk, i) && ts[i].name == name
  }

  lemma OpenBefore<L>(ts: seq<Transition<L>>, t: Transition<L>, sk: nat, name: L)
    requires !(t.sk == sk && Connects(t))
    ensures OpenAs(ts + [t], sk, name) <==> OpenAs(ts, sk, name) && !(t.sk == sk && t.next.Close?)
  {
    var more := ts + [t];
    if OpenAs(more, sk, name) {
      var i: nat :| OpenSince(more, sk, i) && more[i].name == name;
      assert more[|ts|] == t;
      assert forall j :: i < j < |ts| ==> more[j] == ts[j];
      assert OpenSince(ts, sk, i);
    } else if OpenAs(ts, sk, name) && !(t.sk == sk && t.next.Close?) {
      var i: nat :| OpenSince(ts, sk, i) && ts[i].name == name;
      assert OpenSince(more, sk, i);
    }
  }

  /** A transition after `ts` that is proper, and loses nothing. */
  predicate Honest<L>(ts: seq<Transition<L>>, t: Transition<L>) {
    && t.prior == StateOf(ts, t.sk) && (t.next.SynSent? ==> t.prior.Close?)
    && t.reserved && (Connects(t) ==> t.inserted)
  }

  lemma ProperPrefix<L>(ts: seq<Transition<L>>)
    requires ts != [] && Proper(ts) && NothingLost(ts)
    ensures Proper(ts[..|ts| - 1]) && NothingLost(ts[..|ts| - 1]) && Honest(ts[..|ts| - 1], ts[|ts| - 1])
  {
    var init := ts[..|ts| - 1];
    forall i | 0 <= i < |init|
      ensures init[i] == ts[i] && init[..i] == ts[..i]
    {
    }
  }

  lemma TrackedStep<L>(tracked: Table<L>, t: Transition<L>, sk: nat, name: L)
    requires t.reserved && (Connects(t) ==> t.inserted)
    ensures TrackedAs(NextTracked(tracked, t), sk, name) <==>
            if t.sk == sk && Connects(t) then t.name == name
            else TrackedAs(tracked, sk, name) && !(t.sk == sk && Closes(t))
  {
  }

  /** A connect on a socket that was not open is the only open connection on it. */
  lemma ConnectOpens<L>(ts: seq<Transition<L>>, t: Transition<L>, name: L)
    requires Connects(t) && forall other :: !OpenAs(ts, t.sk, other)
    ensures OpenAs(ts + [t], t.sk, name) <==> t.name == name
  {
    var more := ts + [t];
    assert OpenSince(more, t.sk, |ts|);
    if OpenAs(more, t.sk, name) {
      var i: nat :| OpenSince(more, t.sk, i) && more[i].name == name;
      if i < |ts| {
        assert forall j :: i < j < |ts| ==> more[j] == ts[j];
        assert OpenSince(ts, t.sk, i) && !OpenAs(ts, t.sk, name);
      }
    }
  }

  /** What is tracked is open, under the same name, and neither connecting nor closed. */
  ghost predicate TracksOpen<L(!new)>(ts: seq<Transition<L>>, sk: nat) {
    && (forall name :: TrackedAs(Tracked(ts), sk, name) <==> OpenAs(ts, sk, name))
    && (sk in Tracked(ts) ==> !StateOf(ts, sk).SynSent? && !StateOf(ts, sk).Close?)
  }

  lemma OpenStep<L(!new)>(ts: seq<Transition<L>>, t: Transition<L>, sk: nat, name: L)
    requires Honest(ts, t) && TracksOpen(ts, sk)
    ensures TrackedAs(NextTracked(Tracked(ts), t), sk, name) <==> OpenAs(ts + [t], sk, name)
  {
    TrackedStep(Tracked(ts), t, sk, name);
    if t.sk == sk && Connects(t) {
      forall other
        ensures !OpenAs(ts, sk, other)
      {
        assert !TrackedAs(Tracked(ts), sk, other);
      }
      ConnectOpens(ts, t, name);
    } else {
      OpenBefore(ts, t, sk, name);
    }
  }

  lemma StateNext<L>(ts: seq<Transition<L>>, t: Transition<L>, sk: nat)
    ensures StateOf(ts + [t], sk) == if t.sk == sk then t.next else StateOf(ts, sk)
  {
    assert (ts + [t])[..|ts|] == ts;
  }

  lemma TracksOpenStep<L(!new)>(ts: seq<Transition<L>>, t: Transition<L>, sk: nat)
    requires Honest(ts, t) && TracksOpen(ts, sk)
    ensures TracksOpen(ts + [t], sk)
  {
    TrackedNext(ts, t);
    StateNext(ts, t, sk);
    forall name
      ensures TrackedAs(Tracked(ts + [t]), sk, name) <==> OpenAs(ts + [t], sk, name)
    {
      OpenStep(ts, t, sk, name);
    }
  }

  /** With nothing lost, what is tracked is what is open outbound, under the same name. */
  lemma {:induction false} TrackedIsOpen<L(!new)>(ts: seq<Transition<L>>, sk: nat)
    requires Proper(ts) && NothingLost(ts)
    ensures TracksOpen(ts, sk)
  {
    if ts == [] {
    } else {
      var init, t := ts[..|ts| - 1], ts[|ts| - 1];
      ProperPrefix(ts);
      TrackedIsOpen(init, sk);
      TracksOpenStep(init, t, sk);
      assert init + [t] == ts;
    }
  }

  /** With nothing lost, there are no anomalies either. */
  lemma {:induction false} NoAnomalies<L(!new), K>(ts: seq<Transition<L>>, f: L -> K, k: K)
    requires Proper(ts) && NothingLost(ts)
    ensures Anomalies(ts, f, k) == 0
  {
    if ts == [] {
    } else {
      var init, t := ts[..|ts| - 1], ts[|ts| - 1];
      ProperPrefix(ts);
      NoAnomalies(init, f, k);
      AnomaliesNext(init, t, f, k);
      assert init + [t] == ts;
      TrackedIsOpen(init, t.sk);
    }
  }
}
