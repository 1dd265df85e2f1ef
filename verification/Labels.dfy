/**
 * The label budget of one container: `boundValue`. A value is admitted while there is room and
 * shown as "~other" afterwards; what a value is shown as never changes until the container is
 * dropped.
 */
module Labels {

  const OVERFLOW: string := "~other"

  /** The five budgets a container has. */
  datatype Space = Destinations | Fqdns | Urls | Sources | Ips

  datatype Slot = Slot(space: Space, containerId: string)

  /** A set of values, kept as the source keeps it: a map to the unit value. */
  type Values = map<string, ()>

  /** The `*Seen` maps, indexed by budget and container. */
  type Seen = map<Slot, Values>

  function Admitted(seen: Seen, slot: Slot): Values {
    if slot in seen then seen[slot] else map[]
  }

  datatype Bounded = Bounded(text: string, seen: Seen)

  /** `boundValue` */
  function Bound(seen: Seen, slot: Slot, value: string, limit: int): Bounded {
    if value == "" then Bounded("", seen)
    else
      var inner := Admitted(seen, slot);
      if value in inner then Bounded(value, seen)
      else if |inner| >= limit then Bounded(OVERFLOW, seen[slot := inner])
      else Bounded(value, seen[slot := inner[value := ()]])
  }

  /** What a value is shown as, read off the admitted values. */
  function Shown(seen: Seen, slot: Slot, value: string): string {
    if value == "" || value in Admitted(seen, slot) then value else "~other"
  }

  /** The value's label is decided: admitted, or shut out by a full budget. */
  predicate Settled(seen: Seen, slot: Slot, value: string, limit: int) {
    value == "" || value in Admitted(seen, slot) || |Admitted(seen, slot)| >= limit
  }

  /** A budget moves on: values are only added, and none once it is full. */
  predicate Grows(before: Seen, after: Seen, slot: Slot, limit: int) {
    && Admitted(before, slot).Keys <= Admitted(after, slot).Keys
    && (|Admitted(before, slot)| >= limit ==> Admitted(after, slot) == Admitted(before, slot))
  }

  /** The label handed out is the one the admitted values imply, and it is settled. */
  lemma BoundShows(seen: Seen, slot: Slot, value: string, limit: int)
    ensures var b := Bound(seen, slot, value, limit);
            b.text == Shown(b.seen, slot, value) && Settled(b.seen, slot, value, limit)
  {
  }

  /** Asking for a label touches no other budget, and this one only grows. */
  lemma BoundGrows(seen: Seen, slot: Slot, value: string, limit: int, other: Slot, otherLimit: int)
    requires slot == other ==> limit == otherLimit
    ensures Grows(seen, Bound(seen, slot, value, limit).seen, other, otherLimit)
  {
  }

  /** A settled value keeps its label for as long as the budget only grows. */
  lemma SettledForever(before: Seen, after: Seen, slot: Slot, value: string, limit: int)
    requires Settled(before, slot, value, limit) && Grows(before, after, slot, limit)
    ensures Settled(after, slot, value, limit)
    ensures Shown(after, slot, value) == Shown(before, slot, value)
  {
  }

  predicate Within(seen: Seen, slot: Slot, limit: int) {
    |Admitted(seen, slot)| <= if limit > 0 then limit else 0
  }

  lemma BoundWithin(seen: Seen, slot: Slot, value: string, limit: int, other: Slot, otherLimit: int)
    requires slot == other ==> limit == otherLimit
    requires Within(seen, other, otherLimit)
    ensures Within(Bound(seen, slot, value, limit).seen, other, otherLimit)
  {
  }
}
