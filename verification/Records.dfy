/** Comparing two records that have the same fixed fields and, between them, a keyed family of fields:
rules, checks or inputs. */
module Records {
  import opened Text
  import opened StringOrder
  import opened Changes
  import opened Diff
  import J = Json

  /** How the fields of a keyed family are named. */
  datatype Family = Family(category: string -> string, field: string -> string) {
    function Key(id: string): string { StableChangeID(category(id), field(id)) }
  }

  /** What one record holds: fixed fields before and after the keyed ones. */
  datatype Record = Record(head: seq<Entry>, keyed: Vector, tail: seq<Entry>)

  function PairUp(xs: seq<Entry>, ys: seq<Entry>): (r: seq<Observation>)
    requires |xs| == |ys|
    ensures |r| == |xs|
    ensures forall i | 0 <= i < |r| :: r[i] == Observation(xs[i].category, xs[i].field, xs[i].value, ys[i].value, "")
  {
    seq(|xs|, i requires 0 <= i < |xs| => Observation(xs[i].category, xs[i].field, xs[i].value, ys[i].value, ""))
  }

  function KeyedEntries(ids: seq<string>, m: Vector, f: Family): (r: seq<Entry>)
    ensures |r| == |ids|
    ensures forall i | 0 <= i < |r| :: r[i] == Entry(f.category(ids[i]), f.field(ids[i]), Look(m, ids[i]))
  {
    seq(|ids|, i requires 0 <= i < |ids| => Entry(f.category(ids[i]), f.field(ids[i]), Look(m, ids[i])))
  }

  /** The compared list: the fixed fields, then the family over every id that either record has, sorted. */
  ghost function Observations(b: Record, a: Record, f: Family): seq<Observation>
    requires |b.head| == |a.head| && |b.tail| == |a.tail|
  {
    PairUp(b.head, a.head) + Middle(b, a, f) + PairUp(b.tail, a.tail)
  }

  ghost function Middle(b: Record, a: Record, f: Family): seq<Observation> {
    var ids := SortedSet(b.keyed.Keys + a.keyed.Keys);
    PairUp(KeyedEntries(ids, b.keyed, f), KeyedEntries(ids, a.keyed, f))
  }

  /** All the fields of one record. */
  ghost function Content(r: Record, f: Family): seq<Entry> {
    r.head + KeyedEntries(SortedSet(r.keyed.Keys), r.keyed, f) + r.tail
  }

  // ---------------------------------------------------------------------------
  // When the keys of all fields differ

  /** Fixed keys differ from each other and from every key of the family, and the family has one key an id. */
  ghost predicate KeysApart(r: Record, f: Family) {
    && DistinctEntries(r.head + r.tail)
    && (forall x: string, y: string :: f.Key(x) == f.Key(y) ==> x == y)
    && (forall e | e in r.head || e in r.tail :: forall x: string :: e.Key() != f.Key(x))
  }

  predicate SameFields(xs: seq<Entry>, ys: seq<Entry>) {
    |xs| == |ys| && forall i | 0 <= i < |xs| :: xs[i].category == ys[i].category && xs[i].field == ys[i].field
  }

  predicate SameShape(b: Record, a: Record) { SameFields(b.head, a.head) && SameFields(b.tail, a.tail) }

  lemma AscendingIsDistinct(ids: seq<string>)
    requires Ascending(ids)
    ensures NoRepeats(ids)
  {
    forall i, j | 0 <= i < j < |ids| ensures ids[i] != ids[j] {
      assert Less(ids[i], ids[j]);
      LessIrreflexive(ids[i]);
    }
  }

  /** Keys at any two different places of head + middle + tail differ. */
  lemma ThreeParts(head: seq<string>, middle: seq<string>, tail: seq<string>)
    requires NoRepeats(head + tail) && NoRepeats(middle)
    requires forall x, y | x in middle && (y in head || y in tail) :: x != y
    ensures NoRepeats(head + middle + tail)
  {
    var all := head + middle + tail;
    var fixed := head + tail;
    forall i, j | 0 <= i < j < |all| ensures all[i] != all[j] {
      var h, m := |head|, |middle|;
      if i < h && h + m <= j {
        assert all[i] == fixed[i] && all[j] == fixed[j - m];
      } else if j < h {
        assert all[i] == fixed[i] && all[j] == fixed[j];
      } else if h + m <= i {
        assert all[i] == fixed[i - m] && all[j] == fixed[j - m];
      } else if h <= i && j < h + m {
        assert all[i] == middle[i - h] && all[j] == middle[j - h];
      } else if i < h {
        assert all[i] == head[i] && all[j] == middle[j - h];
        assert all[i] in head && all[j] in middle;
      } else {
        assert all[i] == middle[i - h] && all[j] == tail[j - h - m];
        assert all[i] in middle && all[j] in tail;
      }
    }
  }

  function EntryKeys(es: seq<Entry>): (r: seq<string>)
    ensures |r| == |es| && forall i | 0 <= i < |r| :: r[i] == es[i].Key()
  {
    seq(|es|, i requires 0 <= i < |es| => es[i].Key())
  }

  lemma EntryKeysAppend(xs: seq<Entry>, ys: seq<Entry>)
    ensures EntryKeys(xs + ys) == EntryKeys(xs) + EntryKeys(ys)
  {
    hide StableChangeID;
  }

  lemma DistinctByKeys(es: seq<Entry>)
    ensures DistinctEntries(es) <==> NoRepeats(EntryKeys(es))
  {
    hide StableChangeID;
    var keys := EntryKeys(es);
    assert forall i | 0 <= i < |es| :: keys[i] == es[i].Key();
  }

  function ObservationKeys(obs: seq<Observation>): (r: seq<string>)
    ensures |r| == |obs| && forall i | 0 <= i < |r| :: r[i] == obs[i].Key()
  {
    seq(|obs|, i requires 0 <= i < |obs| => obs[i].Key())
  }

  lemma ObservationKeysAppend(xs: seq<Observation>, ys: seq<Observation>)
    ensures ObservationKeys(xs + ys) == ObservationKeys(xs) + ObservationKeys(ys)
  {
    hide StableChangeID;
  }

  lemma PairKeys(xs: seq<Entry>, ys: seq<Entry>)
    requires |xs| == |ys|
    ensures ObservationKeys(PairUp(xs, ys)) == EntryKeys(xs)
  {
  }

  lemma FamilyKeysNoRepeats(ids: seq<string>, m: Vector, f: Family)
    requires Ascending(ids) && forall x: string, y: string :: f.Key(x) == f.Key(y) ==> x == y
    ensures NoRepeats(EntryKeys(KeyedEntries(ids, m, f)))
  {
    AscendingIsDistinct(ids);
    var keys := EntryKeys(KeyedEntries(ids, m, f));
    forall i, j | 0 <= i < j < |keys| ensures keys[i] != keys[j] {
      assert keys[i] == f.Key(ids[i]) && keys[j] == f.Key(ids[j]);
    }
  }

  lemma FamilyKeysDiffer(r: Record, f: Family, ids: seq<string>, m: Vector)
    requires KeysApart(r, f) && Ascending(ids)
    ensures DistinctEntries(r.head + KeyedEntries(ids, m, f) + r.tail)
  {
    FamilyKeysNoRepeats(ids, m, f);
    var keyed := KeyedEntries(ids, m, f);
    var hk, kk, tk := EntryKeys(r.head), EntryKeys(keyed), EntryKeys(r.tail);
    EntryKeysAppend(r.head, r.tail);
    DistinctByKeys(r.head + r.tail);
    forall x, y | x in kk && (y in hk || y in tk) ensures x != y {
      KeysMeetNowhere(r, f, ids, m, x, y);
    }
    hide NoRepeats, DistinctEntries;
    ThreeParts(hk, kk, tk);
    EntryKeysAppend(r.head, keyed);
    EntryKeysAppend(r.head + keyed, r.tail);
    DistinctByKeys(r.head + keyed + r.tail);
  }

  lemma KeysMeetNowhere(r: Record, f: Family, ids: seq<string>, m: Vector, x: string, y: string)
    requires KeysApart(r, f)
    requires x in EntryKeys(KeyedEntries(ids, m, f)) && (y in EntryKeys(r.head) || y in EntryKeys(r.tail))
    ensures x != y
  {
    hide StableChangeID;
    var kk := EntryKeys(KeyedEntries(ids, m, f));
    var i :| 0 <= i < |kk| && kk[i] == x;
    assert x == f.Key(ids[i]);
    if y in EntryKeys(r.head) {
      var j :| 0 <= j < |r.head| && EntryKeys(r.head)[j] == y;
      assert r.head[j] in r.head;
    } else {
      var j :| 0 <= j < |r.tail| && EntryKeys(r.tail)[j] == y;
      assert r.tail[j] in r.tail;
    }
  }

  /** The keys compared are pairwise distinct. */
  lemma ObservationKeysDistinct(b: Record, a: Record, f: Family)
    requires SameShape(b, a) && KeysApart(b, f)
    ensures DistinctKeys(Observations(b, a, f))
  {
    var ids := SortedSet(b.keyed.Keys + a.keyed.Keys);
    var keyed := KeyedEntries(ids, b.keyed, f);
    FamilyKeysDiffer(b, f, ids, b.keyed);
    hide KeysApart, KeyedEntries, StableChangeID;
    DistinctByKeys(b.head + keyed + b.tail);
    EntryKeysAppend(b.head, keyed);
    EntryKeysAppend(b.head + keyed, b.tail);
    PairKeys(b.head, a.head);
    PairKeys(keyed, KeyedEntries(ids, a.keyed, f));
    PairKeys(b.tail, a.tail);
    hide PairUp;
    ObservationKeysAppend(PairUp(b.head, a.head), Middle(b, a, f));
    ObservationKeysAppend(PairUp(b.head, a.head) + Middle(b, a, f), PairUp(b.tail, a.tail));
    hide EntryKeys, NoRepeats, Middle, DistinctEntries;
    DistinctFromKeys(Observations(b, a, f));
  }

  lemma DistinctFromKeys(obs: seq<Observation>)
    requires NoRepeats(ObservationKeys(obs))
    ensures DistinctKeys(obs)
  {
    hide StableChangeID;
    forall i, j | 0 <= i < j < |obs| ensures obs[i].Key() != obs[j].Key() {
      assert ObservationKeys(obs)[i] != ObservationKeys(obs)[j];
    }
  }

  // ---------------------------------------------------------------------------
  // The compared list describes both records

  lemma KeyedHas(ids: seq<string>, m: Vector, f: Family, id: string)
    requires id in ids
    ensures Entry(f.category(id), f.field(id), Look(m, id)) in KeyedEntries(ids, m, f)
  {
    var i :| 0 <= i < |ids| && ids[i] == id;
    assert KeyedEntries(ids, m, f)[i] == Entry(f.category(id), f.field(id), Look(m, id));
  }

  lemma KeyedHasOnly(ids: seq<string>, m: Vector, f: Family, id: string, e: Entry)
    requires e in KeyedEntries(ids, m, f) && id !in ids
    requires forall x: string, y: string :: f.Key(x) == f.Key(y) ==> x == y
    ensures e.Key() != f.Key(id)
  {
    hide StableChangeID;
    var i :| 0 <= i < |ids| && KeyedEntries(ids, m, f)[i] == e;
    assert ids[i] in ids && e.Key() == f.Key(ids[i]);
  }

  lemma LookKeyed(r: Record, f: Family, id: string)
    requires KeysApart(r, f) && NoNulls(r.keyed)
    requires var all := Content(r, f); DistinctEntries(all)
    ensures Look(VectorOf(Content(r, f)), f.Key(id)) == Look(r.keyed, id)
  {
    hide KeyedEntries, VectorOf, DistinctEntries, StableChangeID;
    var ids, all := SortedSet(r.keyed.Keys), Content(r, f);
    VectorLooks(all, f.Key(id));
    if id in r.keyed {
      KeyedHas(ids, r.keyed, f, id);
      assert Entry(f.category(id), f.field(id), Look(r.keyed, id)) in all;
    } else {
      forall e | e in all ensures e.Key() != f.Key(id) {
        if e in KeyedEntries(ids, r.keyed, f) {
          KeyedHasOnly(ids, r.keyed, f, id, e);
        }
      }
    }
  }

  lemma LookContent(r: Record, f: Family, key: string)
    requires KeysApart(r, f) && NoNulls(r.keyed)
    ensures NoNulls(VectorOf(Content(r, f)))
    ensures forall e | (e in r.head || e in r.tail) && e.Key() == key :: Look(VectorOf(Content(r, f)), key) == e.value
    ensures forall id | f.Key(id) == key :: Look(VectorOf(Content(r, f)), key) == Look(r.keyed, id)
  {
    var ids := SortedSet(r.keyed.Keys);
    FamilyKeysDiffer(r, f, ids, r.keyed);
    hide KeyedEntries, VectorOf, DistinctEntries, StableChangeID, KeysApart;
    var all := Content(r, f);
    VectorLooks(all, key);
    forall e | (e in r.head || e in r.tail) && e.Key() == key ensures Look(VectorOf(all), key) == e.value {
      assert e in all;
    }
    forall id | f.Key(id) == key ensures Look(VectorOf(all), key) == Look(r.keyed, id) {
      LookKeyed(r, f, id);
    }
  }

  lemma MiddleDescribes(b: Record, a: Record, f: Family, o: Observation) returns (id: string)
    requires o in Middle(b, a, f)
    ensures o == Observation(f.category(id), f.field(id), Look(b.keyed, id), Look(a.keyed, id), "")
  {
    var ids := SortedSet(b.keyed.Keys + a.keyed.Keys);
    var i :| 0 <= i < |ids| && Middle(b, a, f)[i] == o;
    id := ids[i];
  }

  lemma ObservationReads(b: Record, a: Record, f: Family, o: Observation)
    requires SameShape(b, a) && KeysApart(b, f) && KeysApart(a, f) && NoNulls(b.keyed) && NoNulls(a.keyed)
    requires o in Observations(b, a, f)
    ensures Look(VectorOf(Content(b, f)), o.Key()) == o.before && Look(VectorOf(Content(a, f)), o.Key()) == o.after
  {
    hide VectorOf, Content, KeysApart, Look;
    LookContent(b, f, o.Key());
    LookContent(a, f, o.Key());
    if o in PairUp(b.head, a.head) {
      var i :| 0 <= i < |b.head| && PairUp(b.head, a.head)[i] == o;
      assert b.head[i] in b.head && a.head[i] in a.head;
    } else if o in Middle(b, a, f) {
      var id := MiddleDescribes(b, a, f, o);
      assert f.Key(id) == o.Key();
    } else {
      var i :| 0 <= i < |b.tail| && PairUp(b.tail, a.tail)[i] == o;
      assert b.tail[i] in b.tail && a.tail[i] in a.tail;
    }
  }

  lemma PairMentions(xs: seq<Entry>, ys: seq<Entry>, e: Entry, obs: seq<Observation>)
    requires SameFields(xs, ys) && (e in xs || e in ys) && forall o <- PairUp(xs, ys) :: o in obs
    ensures Mentions(obs, e.Key())
  {
    var i :| 0 <= i < |xs| && (xs[i] == e || ys[i] == e);
    assert PairUp(xs, ys)[i] in PairUp(xs, ys);
    assert PairUp(xs, ys)[i].Key() == e.Key();
  }

  lemma MiddleHas(b: Record, a: Record, f: Family, id: string)
    requires id in b.keyed || id in a.keyed
    ensures Observation(f.category(id), f.field(id), Look(b.keyed, id), Look(a.keyed, id), "") in Middle(b, a, f)
  {
    var ids := SortedSet(b.keyed.Keys + a.keyed.Keys);
    assert id in ids;
    var i :| 0 <= i < |ids| && ids[i] == id;
    hide SortedSet;
    assert Middle(b, a, f)[i] in Middle(b, a, f);
  }

  lemma KeyedMentions(b: Record, a: Record, f: Family, r: Record, e: Entry, obs: seq<Observation>)
    requires r == b || r == a
    requires e in KeyedEntries(SortedSet(r.keyed.Keys), r.keyed, f) && forall o <- Middle(b, a, f) :: o in obs
    ensures Mentions(obs, e.Key())
  {
    hide Middle, StableChangeID, Look;
    var own := SortedSet(r.keyed.Keys);
    var i :| 0 <= i < |own| && KeyedEntries(own, r.keyed, f)[i] == e;
    var id := own[i];
    assert id in own;
    hide KeyedEntries, SortedSet;
    MiddleHas(b, a, f, id);
    var o := Observation(f.category(id), f.field(id), Look(b.keyed, id), Look(a.keyed, id), "");
    assert o in obs && o.Key() == e.Key();
  }

  lemma ContentIsMentioned(b: Record, a: Record, f: Family, r: Record, e: Entry)
    requires SameShape(b, a) && (r == b || r == a) && e in Content(r, f)
    ensures Mentions(Observations(b, a, f), e.Key())
  {
    var obs := Observations(b, a, f);
    hide Mentions, StableChangeID, PairUp, KeyedEntries, SameFields, Middle;
    if e in r.head {
      PairMentions(b.head, a.head, e, obs);
    } else if e in r.tail {
      PairMentions(b.tail, a.tail, e, obs);
    } else {
      KeyedMentions(b, a, f, r, e, obs);
    }
  }

  lemma {:induction false} VectorKeys(entries: seq<Entry>, key: string) returns (e: Entry)
    requires key in VectorOf(entries)
    ensures e in entries && e.Key() == key
  {
    var front, last := entries[..|entries| - 1], entries[|entries| - 1];
    if last.Key() == key {
      e := last;
    } else {
      e := VectorKeys(front, key);
    }
  }

  /** The changes between two records are an exact patch from the one to the other. */
  lemma ComparisonIsExactPatch(b: Record, a: Record, f: Family)
    requires SameShape(b, a) && KeysApart(b, f) && KeysApart(a, f) && NoNulls(b.keyed) && NoNulls(a.keyed)
    ensures Describes(Observations(b, a, f), VectorOf(Content(b, f)), VectorOf(Content(a, f)))
    ensures DistinctKeys(Observations(b, a, f))
    ensures var changes := Difference(Observations(b, a, f));
      var before, after := VectorOf(Content(b, f)), VectorOf(Content(a, f));
      && DistinctIDs(changes)
      && Apply(changes, before) == after && Undo(changes, after) == before
      && forall key :: (exists c <- changes :: c.id == key) <==> Look(before, key) != Look(after, key)
  {
    var obs := Observations(b, a, f);
    var before, after := VectorOf(Content(b, f)), VectorOf(Content(a, f));
    ObservationKeysDistinct(b, a, f);
    LookContent(b, f, "");
    LookContent(a, f, "");
    forall o | o in obs ensures Look(before, o.Key()) == o.before && Look(after, o.Key()) == o.after {
      ObservationReads(b, a, f, o);
    }
    forall k | k in before || k in after ensures Mentions(obs, k) {
      var r := if k in before then b else a;
      var e := VectorKeys(Content(r, f), k);
      ContentIsMentioned(b, a, f, r, e);
    }
    DifferenceIsExactPatch(obs, before, after);
    DifferenceIDs(obs);
  }

  /** Swapping the records keeps the same fields in the same order. */
  lemma ObservationsSwapped(b: Record, a: Record, f: Family)
    requires SameShape(b, a)
    ensures Observations(a, b, f) == SwapAll(Observations(b, a, f))
    ensures Difference(Observations(a, b, f)) == SwapChanges(Difference(Observations(b, a, f)))
  {
    assert a.keyed.Keys + b.keyed.Keys == b.keyed.Keys + a.keyed.Keys;
    var ids := SortedSet(b.keyed.Keys + a.keyed.Keys);
    PairSwaps(b.head, a.head);
    PairSwaps(b.tail, a.tail);
    PairSwaps(KeyedEntries(ids, b.keyed, f), KeyedEntries(ids, a.keyed, f));
    hide PairUp, KeyedEntries, Difference, SwapAll, SwapChanges;
    SwapAppend(PairUp(b.head, a.head), Middle(b, a, f));
    SwapAppend(PairUp(b.head, a.head) + Middle(b, a, f), PairUp(b.tail, a.tail));
    DifferenceSwapped(Observations(b, a, f));
  }

  lemma PairSwaps(xs: seq<Entry>, ys: seq<Entry>)
    requires SameFields(xs, ys)
    ensures PairUp(ys, xs) == SwapAll(PairUp(xs, ys))
  {
  }

  lemma SwapAppend(xs: seq<Observation>, ys: seq<Observation>)
    ensures SwapAll(xs + ys) == SwapAll(xs) + SwapAll(ys)
  {
  }

  // ---------------------------------------------------------------------------
  // Fixed fields in groups that share a category

  datatype Named = Named(name: string, value: Value)

  datatype Group = Group(category: string, fields: seq<Named>)

  function Entries(g: Group): (r: seq<Entry>)
    ensures |r| == |g.fields|
    ensures forall i | 0 <= i < |r| :: r[i] == Entry(g.category, g.fields[i].name, g.fields[i].value)
  {
    seq(|g.fields|, i requires 0 <= i < |g.fields| => Entry(g.category, g.fields[i].name, g.fields[i].value))
  }

  function Flatten(groups: seq<Group>): seq<Entry> {
    if groups == [] then [] else Entries(groups[0]) + Flatten(groups[1..])
  }

  predicate StartsVisibly(s: string) { s != "" && IsNameChar(s[0]) }

  lemma VisibleStart(s: string)
    requires StartsVisibly(s)
    ensures !IsBlank(s)
  {
    VisibleIsNotBlank(s, s[0]);
  }

  predicate IsGroup(g: Group) {
    && '.' !in g.category && StartsVisibly(g.category)
    && (forall f <- g.fields :: StartsVisibly(f.name))
    && (forall i, j | 0 <= i < j < |g.fields| :: g.fields[i].name != g.fields[j].name)
  }

  predicate AreGroups(groups: seq<Group>) {
    && (forall g <- groups :: IsGroup(g))
    && (forall i, j | 0 <= i < j < |groups| :: groups[i].category != groups[j].category)
  }

  predicate HasCategory(groups: seq<Group>, category: string) { exists g <- groups :: g.category == category }

  lemma {:induction false} FlattenDistinct(groups: seq<Group>)
    requires AreGroups(groups)
    ensures DistinctEntries(Flatten(groups))
    ensures forall e <- Flatten(groups) :: '.' !in e.category && HasCategory(groups, e.category)
    ensures forall e <- Flatten(groups) :: StartsVisibly(e.category) && StartsVisibly(e.field)
  {
    hide StartsVisibly;
    if groups != [] {
      var first, rest := Entries(groups[0]), Flatten(groups[1..]);
      assert groups[0] in groups && forall g <- groups[1..] :: g in groups;
      FlattenDistinct(groups[1..]);
      forall e <- rest ensures e.category != groups[0].category && HasCategory(groups, e.category) {
        var g :| g in groups[1..] && g.category == e.category;
        var i :| 0 <= i < |groups[1..]| && groups[1..][i] == g;
        assert groups[i + 1] == g;
      }
      hide Flatten, HasCategory;
      TwoGroups(groups[0], first, rest);
    }
  }

  lemma TwoGroups(g: Group, first: seq<Entry>, rest: seq<Entry>)
    requires IsGroup(g) && first == Entries(g)
    requires DistinctEntries(rest) && forall e <- rest :: '.' !in e.category && e.category != g.category
    ensures DistinctEntries(first + rest)
  {
    hide StableChangeID;
    var all := first + rest;
    forall i, j | 0 <= i < j < |all| ensures all[i].Key() != all[j].Key() {
      if i < |first| {
        assert all[i] == first[i] && all[j] == if j < |first| then first[j] else rest[j - |first|];
        if all[i].Key() == all[j].Key() {
          DotlessKeysAreInjective(all[i].category, all[i].field, all[j].category, all[j].field);
        }
      } else {
        assert all[i] == rest[i - |first|] && all[j] == rest[j - |first|];
      }
    }
  }

  predicate SameNames(g: Group, h: Group) {
    g.category == h.category && |g.fields| == |h.fields|
    && forall i | 0 <= i < |g.fields| :: g.fields[i].name == h.fields[i].name
  }

  lemma {:induction false} FlattenSameShape(gs: seq<Group>, hs: seq<Group>)
    requires |gs| == |hs| && forall i | 0 <= i < |gs| :: SameNames(gs[i], hs[i])
    ensures SameFields(Flatten(gs), Flatten(hs))
  {
    if gs != [] {
      FlattenSameShape(gs[1..], hs[1..]);
      assert SameNames(gs[0], hs[0]);
    }
  }

  predicate Matching(gs: seq<Group>, hs: seq<Group>) {
    |gs| == |hs| && forall i | 0 <= i < |gs| :: SameNames(gs[i], hs[i])
  }

  /** The changes in one group of fields. */
  function GroupDifference(g: Group, h: Group): seq<Change> {
    if |g.fields| == |h.fields| then Difference(PairUp(Entries(g), Entries(h))) else []
  }

  /** The changes in the first k groups. */
  function GroupChanges(gs: seq<Group>, hs: seq<Group>, k: nat): seq<Change>
    requires k <= |gs| == |hs|
  {
    if k == 0 then [] else GroupChanges(gs, hs, k - 1) + GroupDifference(gs[k - 1], hs[k - 1])
  }

  lemma {:induction false} FlattenAppend(gs: seq<Group>, g: Group)
    ensures Flatten(gs + [g]) == Flatten(gs) + Entries(g)
  {
    if gs == [] {
      assert gs + [g] == [g] && [g][1..] == [];
    } else {
      assert (gs + [g])[1..] == gs[1..] + [g];
      FlattenAppend(gs[1..], g);
    }
  }

  lemma PairAppend(xs: seq<Entry>, ys: seq<Entry>, us: seq<Entry>, vs: seq<Entry>)
    requires |xs| == |ys| && |us| == |vs|
    ensures PairUp(xs + us, ys + vs) == PairUp(xs, ys) + PairUp(us, vs)
  {
  }

  lemma FlattenTake(gs: seq<Group>, k: nat)
    requires 0 < k <= |gs|
    ensures Flatten(gs[..k]) == Flatten(gs[..k - 1]) + Entries(gs[k - 1])
  {
    assert gs[..k] == gs[..k - 1] + [gs[k - 1]];
    FlattenAppend(gs[..k - 1], gs[k - 1]);
  }

  lemma SameNamesSameFields(g: Group, h: Group)
    requires SameNames(g, h)
    ensures |g.fields| == |h.fields|
  {
  }

  lemma {:induction false} GroupFieldListed(groups: seq<Group>, g: Group, i: nat)
    requires g in groups && i < |g.fields|
    ensures Entry(g.category, g.fields[i].name, g.fields[i].value) in Flatten(groups)
  {
    if groups[0] == g {
      assert Entries(g)[i] in Entries(g);
    } else {
      GroupFieldListed(groups[1..], g, i);
    }
  }

  /** Going through the groups one after the other compares all their fields in order. */
  lemma {:induction false} GroupByGroup(gs: seq<Group>, hs: seq<Group>, k: nat)
    requires Matching(gs, hs) && k <= |gs|
    ensures SameFields(Flatten(gs[..k]), Flatten(hs[..k]))
    ensures GroupChanges(gs, hs, k) == Difference(PairUp(Flatten(gs[..k]), Flatten(hs[..k])))
  {
    hide Flatten, Entries, Difference, SameNames, SameFields, GroupChanges;
    if k == 0 {
      NoGroups(gs, hs);
    } else {
      GroupByGroup(gs, hs, k - 1);
      FlattenTake(gs, k);
      FlattenTake(hs, k);
      assert forall i | 0 <= i < k :: SameNames(gs[..k][i], hs[..k][i]);
      FlattenSameShape(gs[..k], hs[..k]);
      SameLength(Flatten(gs[..k - 1]), Flatten(hs[..k - 1]));
      SameNamesSameFields(gs[k - 1], hs[k - 1]);
      GroupStep(gs, hs, k);
      PairAppend(Flatten(gs[..k - 1]), Flatten(hs[..k - 1]), Entries(gs[k - 1]), Entries(hs[k - 1]));
      hide PairUp;
      DifferenceAppend(PairUp(Flatten(gs[..k - 1]), Flatten(hs[..k - 1])),
        PairUp(Entries(gs[k - 1]), Entries(hs[k - 1])));
    }
    SameLength(Flatten(gs[..k]), Flatten(hs[..k]));
  }

  lemma SameLength(xs: seq<Entry>, ys: seq<Entry>)
    requires SameFields(xs, ys)
    ensures |xs| == |ys|
  {
  }

  lemma NoGroups(gs: seq<Group>, hs: seq<Group>)
    requires |gs| == |hs|
    ensures SameFields(Flatten(gs[..0]), Flatten(hs[..0]))
    ensures |Flatten(gs[..0])| == |Flatten(hs[..0])|
    ensures GroupChanges(gs, hs, 0) == Difference(PairUp(Flatten(gs[..0]), Flatten(hs[..0])))
  {
    assert PairUp([], []) == [];
  }

  lemma GroupStep(gs: seq<Group>, hs: seq<Group>, k: nat)
    requires 0 < k <= |gs| == |hs|
    ensures GroupChanges(gs, hs, k) == GroupChanges(gs, hs, k - 1) + GroupDifference(gs[k - 1], hs[k - 1])
    ensures GroupChanges(gs, hs, 0) == []
  {
  }

  function KeyedObservation(id: string, before: Vector, after: Vector, f: Family): Observation {
    Observation(f.category(id), f.field(id), Look(before, id), Look(after, id), "")
  }

  /** Compare a keyed family, id by id. */
  method AddKeyed(list: ChangeList, ids: seq<string>, before: Vector, after: Vector, f: Family)
    requires list.Valid()
    modifies list
    ensures list.Valid()
    ensures list.changes
         == old(list.changes) + Difference(PairUp(KeyedEntries(ids, before, f), KeyedEntries(ids, after, f)))
  {
    ghost var base := list.calls;
    ghost var all := PairUp(KeyedEntries(ids, before, f), KeyedEntries(ids, after, f));
    assert forall i | 0 <= i < |ids| :: all[i] == KeyedObservation(ids[i], before, after, f);
    hide PairUp, KeyedEntries, Difference, KeyedObservation;
    for i := 0 to |ids|
      invariant list.Valid() && list.calls == base + all[..i]
    {
      AddKeyedField(list, ids[i], before, after, f);
      OneMoreCall(base, all, i);
    }
    assert all[..|ids|] == all;
    DifferenceAppend(base, all);
  }

  lemma OneMoreCall(base: seq<Observation>, all: seq<Observation>, i: nat)
    requires i < |all|
    ensures base + all[..i] + [all[i]] == base + all[..i + 1]
  {
  }

  method AddKeyedField(list: ChangeList, id: string, before: Vector, after: Vector, f: Family)
    requires list.Valid()
    modifies list
    ensures list.Valid() && list.calls == old(list.calls) + [KeyedObservation(id, before, after, f)]
  {
    var oldValue := if id in before then before[id] else J.Null;
    var newValue := if id in after then after[id] else J.Null;
    list.Add(f.category(id), f.field(id), oldValue, newValue);
  }
}
