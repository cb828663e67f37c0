/** Comparing two records field by field: the list of changes is an exact, invertible patch. */
module Diff {
  import opened Changes
  import J = Json

  /** One compared field, as an `add` call sees it. */
  datatype Observation = Observation(category: string, field: string, before: Value, after: Value, identity: string) {
    function Key(): string { StableChangeID(category, field) }

    function Swap(): Observation { this.(before := after, after := before) }
  }

  function Differing(o: Observation): seq<Change> {
    if o.before == o.after then [] else [NewChange(o.category, o.field, o.before, o.after).(identity := o.identity)]
  }

  function Difference(obs: seq<Observation>): seq<Change> {
    if obs == [] then [] else Difference(obs[..|obs| - 1]) + Differing(obs[|obs| - 1])
  }

  /** The change list that the `add` closures append to, and the calls made so far. */
  class ChangeList {
    var changes: seq<Change>
    ghost var calls: seq<Observation>

    ghost predicate Valid()
      reads this
    {
      changes == Difference(calls)
    }

    constructor ()
      ensures Valid() && calls == []
    {
      changes := [];
      calls := [];
    }

    method Add(category: string, field: string, oldValue: Value, newValue: Value)
      requires Valid()
      modifies this
      ensures Valid() && calls == old(calls) + [Observation(category, field, oldValue, newValue, "")]
    {
      AddWithIdentity(category, field, oldValue, newValue, "");
    }

    method AddWithIdentity(category: string, field: string, oldValue: Value, newValue: Value, identity: string)
      requires Valid()
      modifies this
      ensures Valid() && calls == old(calls) + [Observation(category, field, oldValue, newValue, identity)]
    {
      calls := calls + [Observation(category, field, oldValue, newValue, identity)];
      if oldValue == newValue {
        return;
      }
      var change := NewChange(category, field, oldValue, newValue);
      change := change.(identity := identity);
      changes := changes + [change];
    }
  }

  lemma {:induction false} DifferenceAppend(xs: seq<Observation>, ys: seq<Observation>)
    ensures Difference(xs + ys) == Difference(xs) + Difference(ys)
  {
    if ys == [] {
      assert xs + ys == xs;
    } else {
      assert (xs + ys)[..|xs + ys| - 1] == xs + ys[..|ys| - 1];
      DifferenceAppend(xs, ys[..|ys| - 1]);
    }
  }

  // A few calls in a row

  lemma TwoCalls(base: seq<Observation>, o: Observation, p: Observation)
    ensures Difference(base + [o] + [p]) == Difference(base) + Difference([o, p])
  {
    assert base + [o] + [p] == base + [o, p];
    DifferenceAppend(base, [o, p]);
  }

  lemma ThreeCalls(base: seq<Observation>, o: Observation, p: Observation, q: Observation)
    ensures Difference(base + [o] + [p] + [q]) == Difference(base) + Difference([o, p, q])
  {
    assert base + [o] + [p] + [q] == base + [o, p, q];
    DifferenceAppend(base, [o, p, q]);
  }

  lemma FiveCalls(
      base: seq<Observation>, o: Observation, p: Observation, q: Observation, r: Observation, s: Observation)
    ensures Difference(base + [o] + [p] + [q] + [r] + [s]) == Difference(base) + Difference([o, p, q, r, s])
  {
    assert base + [o] + [p] + [q] + [r] + [s] == base + [o, p, q, r, s];
    DifferenceAppend(base, [o, p, q, r, s]);
  }

  // ---------------------------------------------------------------------------
  // Keys

  predicate DistinctKeys(obs: seq<Observation>) {
    forall i, j | 0 <= i < j < |obs| :: obs[i].Key() != obs[j].Key()
  }

  predicate Mentions(obs: seq<Observation>, key: string) { exists o <- obs :: o.Key() == key }

  /** The keys of the changes are among the keys compared, so they stay distinct. */
  lemma {:induction false} DifferenceIDs(obs: seq<Observation>)
    ensures forall c <- Difference(obs) ::
      c.id != "" && c.id == StableChangeID(c.category, c.field) && Mentions(obs, c.id)
    ensures DistinctKeys(obs) ==> DistinctIDs(Difference(obs))
  {
    if obs != [] {
      var front, last := obs[..|obs| - 1], obs[|obs| - 1];
      assert obs == front + [last];
      DifferenceIDs(front);
      assert last in obs && forall o <- front :: o in obs;
      if DistinctKeys(obs) {
        forall c <- Difference(front) ensures c.id != last.Key() {
          var o :| o in front && o.Key() == c.id;
        }
      }
    }
  }

  // ---------------------------------------------------------------------------
  // Records as vectors of observed values; an absent field reads as null

  type Vector = map<string, Value>

  function Look(v: Vector, key: string): Value { if key in v then v[key] else J.Null }

  function Put(v: Vector, key: string, x: Value): Vector { if x == J.Null then v - {key} else v[key := x] }

  predicate NoNulls(v: Vector) { forall k <- v :: v[k] != J.Null }

  /** Write the new value of every change. */
  function Apply(changes: seq<Change>, v: Vector): Vector {
    if changes == [] then v
    else Put(Apply(changes[..|changes| - 1], v), changes[|changes| - 1].id, changes[|changes| - 1].after)
  }

  /** Write the old value of every change back. */
  function Undo(changes: seq<Change>, v: Vector): Vector {
    if changes == [] then v
    else Put(Undo(changes[..|changes| - 1], v), changes[|changes| - 1].id, changes[|changes| - 1].before)
  }

  function SwapChange(c: Change): Change { c.(before := c.after, after := c.before) }

  function SwapChanges(changes: seq<Change>): (r: seq<Change>)
    ensures |r| == |changes| && forall i | 0 <= i < |r| :: r[i] == SwapChange(changes[i])
  {
    seq(|changes|, i requires 0 <= i < |changes| => SwapChange(changes[i]))
  }

  function SwapAll(obs: seq<Observation>): (r: seq<Observation>)
    ensures |r| == |obs| && forall i | 0 <= i < |r| :: r[i] == obs[i].Swap()
  {
    seq(|obs|, i requires 0 <= i < |obs| => obs[i].Swap())
  }

  lemma {:induction false} UndoIsApplySwapped(changes: seq<Change>, v: Vector)
    ensures Undo(changes, v) == Apply(SwapChanges(changes), v)
  {
    if changes != [] {
      var front := changes[..|changes| - 1];
      UndoIsApplySwapped(front, v);
      assert SwapChanges(changes)[..|changes| - 1] == SwapChanges(front);
    }
  }

  /** Swapping the two records swaps the values of every change and nothing else. */
  lemma {:induction false} DifferenceSwapped(obs: seq<Observation>)
    ensures Difference(SwapAll(obs)) == SwapChanges(Difference(obs))
  {
    if obs != [] {
      var front := obs[..|obs| - 1];
      DifferenceSwapped(front);
      assert SwapAll(obs)[..|obs| - 1] == SwapAll(front);
    }
  }

  /** The vectors of the two records, as the comparison sees them. */
  ghost predicate Describes(obs: seq<Observation>, before: Vector, after: Vector) {
    && NoNulls(before) && NoNulls(after)
    && (forall o <- obs :: Look(before, o.Key()) == o.before && Look(after, o.Key()) == o.after)
    && (forall k | k in before || k in after :: Mentions(obs, k))
  }

  lemma {:induction false} ApplyLooks(obs: seq<Observation>, v: Vector, key: string)
    requires DistinctKeys(obs) && NoNulls(v)
    ensures NoNulls(Apply(Difference(obs), v))
    ensures !Mentions(obs, key) ==> Look(Apply(Difference(obs), v), key) == Look(v, key)
    ensures forall o <- obs :: o.Key() == key ==>
      Look(Apply(Difference(obs), v), key) == if o.before == o.after then Look(v, key) else o.after
  {
    if obs != [] {
      var front, last := obs[..|obs| - 1], obs[|obs| - 1];
      assert obs == front + [last];
      assert last in obs && forall o <- front :: o in obs;
      ApplyLooks(front, v, key);
      ApplyStep(front, last, v);
      PutLooks(Apply(Difference(front), v), last.Key(), last.after, key);
      hide Apply, Difference, Look, Put, NoNulls, StableChangeID;
    }
  }

  lemma PutLooks(v: Vector, k: string, x: Value, key: string)
    requires NoNulls(v)
    ensures NoNulls(Put(v, k, x)) && Look(Put(v, k, x), key) == if key == k then x else Look(v, key)
  {
  }

  lemma ApplyStep(front: seq<Observation>, last: Observation, v: Vector)
    ensures Apply(Difference(front + [last]), v)
         == if last.before == last.after then Apply(Difference(front), v)
            else Put(Apply(Difference(front), v), last.Key(), last.after)
  {
    assert (front + [last])[..|front|] == front;
    var changes := Difference(front + [last]);
    if last.before != last.after {
      assert changes[..|changes| - 1] == Difference(front);
    } else {
      assert changes == Difference(front);
    }
  }

  /** Applying the changes to the old record gives the new one. */
  lemma ApplyGivesAfter(obs: seq<Observation>, before: Vector, after: Vector)
    requires DistinctKeys(obs) && Describes(obs, before, after)
    ensures Apply(Difference(obs), before) == after
  {
    var got := Apply(Difference(obs), before);
    forall key ensures Look(got, key) == Look(after, key) {
      ApplyLooks(obs, before, key);
      if Mentions(obs, key) {
        var o :| o in obs && o.Key() == key;
      }
    }
    ApplyLooks(obs, before, "");
    SameLooks(got, after);
  }

  lemma SameLooks(v: Vector, w: Vector)
    requires NoNulls(v) && NoNulls(w) && forall key :: Look(v, key) == Look(w, key)
    ensures v == w
  {
    forall k ensures k in v <==> k in w {
      assert Look(v, k) == Look(w, k);
    }
    forall k | k in v ensures v[k] == w[k] {
      assert Look(v, k) == Look(w, k);
    }
  }

  /** The change list is an exact patch: it turns the old record into the new one, undoing it goes back,
  and it names exactly the fields that differ. */
  lemma DifferenceIsExactPatch(obs: seq<Observation>, before: Vector, after: Vector)
    requires DistinctKeys(obs) && Describes(obs, before, after)
    ensures Apply(Difference(obs), before) == after && Undo(Difference(obs), after) == before
    ensures forall key :: (exists c <- Difference(obs) :: c.id == key) <==> Look(before, key) != Look(after, key)
  {
    ApplyGivesAfter(obs, before, after);
    DifferenceSwapped(obs);
    UndoIsApplySwapped(Difference(obs), after);
    SwappedDescribes(obs, before, after);
    ApplyGivesAfter(SwapAll(obs), after, before);
    forall key ensures (exists c <- Difference(obs) :: c.id == key) <==> Look(before, key) != Look(after, key) {
      ChangedKeys(obs, before, after, key);
    }
  }

  lemma SwappedDescribes(obs: seq<Observation>, before: Vector, after: Vector)
    requires DistinctKeys(obs) && Describes(obs, before, after)
    ensures DistinctKeys(SwapAll(obs)) && Describes(SwapAll(obs), after, before)
  {
    var swapped := SwapAll(obs);
    forall o <- swapped ensures Look(after, o.Key()) == o.before && Look(before, o.Key()) == o.after {
      var i :| 0 <= i < |swapped| && swapped[i] == o;
      assert obs[i] in obs && o.Key() == obs[i].Key();
    }
    forall k | k in before || k in after ensures Mentions(swapped, k) {
      var o :| o in obs && o.Key() == k;
      var i :| 0 <= i < |obs| && obs[i] == o;
      assert swapped[i] in swapped;
    }
  }

  lemma {:induction false} DifferenceMembers(obs: seq<Observation>, c: Change)
    ensures c in Difference(obs) <==> exists o <- obs :: c in Differing(o)
  {
    if obs != [] {
      var front, last := obs[..|obs| - 1], obs[|obs| - 1];
      assert obs == front + [last];
      DifferenceMembers(front, c);
    }
  }

  lemma ChangedKeys(obs: seq<Observation>, before: Vector, after: Vector, key: string)
    requires Describes(obs, before, after)
    ensures (exists c <- Difference(obs) :: c.id == key) <==> Look(before, key) != Look(after, key)
  {
    if c :| c in Difference(obs) && c.id == key {
      DifferenceMembers(obs, c);
      var o :| o in obs && c in Differing(o);
    }
    if Look(before, key) != Look(after, key) {
      var o :| o in obs && o.Key() == key;
      var c := Differing(o)[0];
      DifferenceMembers(obs, c);
      assert c.id == key;
    }
  }

  // ---------------------------------------------------------------------------
  // Vectors of records, and the fields two records are compared on

  datatype Entry = Entry(category: string, field: string, value: Value) {
    function Key(): string { StableChangeID(category, field) }
  }

  function VectorOf(entries: seq<Entry>): Vector {
    if entries == [] then map[]
    else Put(VectorOf(entries[..|entries| - 1]), entries[|entries| - 1].Key(), entries[|entries| - 1].value)
  }

  predicate DistinctEntries(entries: seq<Entry>) {
    forall i, j | 0 <= i < j < |entries| :: entries[i].Key() != entries[j].Key()
  }

  lemma {:induction false} VectorLooks(entries: seq<Entry>, key: string)
    requires DistinctEntries(entries)
    ensures NoNulls(VectorOf(entries))
    ensures forall e <- entries :: e.Key() == key ==> Look(VectorOf(entries), key) == e.value
    ensures (forall e <- entries :: e.Key() != key) ==> Look(VectorOf(entries), key) == J.Null
  {
    if entries != [] {
      var front, last := entries[..|entries| - 1], entries[|entries| - 1];
      assert entries == front + [last];
      VectorLooks(front, key);
      PutLooks(VectorOf(front), last.Key(), last.value, key);
      hide Put, Look, NoNulls, StableChangeID;
    }
  }
}
