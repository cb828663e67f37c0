/** What a comparison can rely on when it builds a report: the parts shared by its validators. */
module ReportBuilding {
  import opened Text
  import opened StringOrder
  import opened Changes
  import opened Diff
  import opened Records
  import opened Reports

  /** What Go's library decides: which texts parse as RFC 3339 times, and how `%q` writes a text. */
  datatype Library = Library(isTime: string -> bool, quote: string -> string)

  // ---------------------------------------------------------------------------
  // Fields of a side

  /** A path is left out or visible. */
  predicate IsPath(path: string) { path != "" ==> !IsBlank(path) }

  predicate IsHexDigit(c: char) { IsDigit(c) || 'a' <= c <= 'f' || 'A' <= c <= 'F' }

  /** A SHA-256 digest as the readers accept it: 64 hexadecimal digits of either case. */
  predicate IsHexDigest(s: string) { |s| == 64 && forall c <- s :: IsHexDigit(c) }

  // ---------------------------------------------------------------------------
  // The changes

  /** A comparison whose change, if there is one, is valid on its own. */
  predicate IsNameable(o: Observation) { !IsBlank(o.category) && !IsBlank(o.field) && IsSupportedIdentity(o.identity) }

  lemma IdIsVisible(c: Change)
    requires c.id == StableChangeID(c.category, c.field)
    ensures !IsBlank(c.id)
  {
    VisibleIsNotBlank(c.id, '.');
  }

  lemma DifferenceIsValid(obs: seq<Observation>)
    requires DistinctIDs(Difference(obs)) && forall o <- obs :: IsNameable(o)
    ensures AreValidChanges(Difference(obs))
  {
    hide IsBlank, IsSupportedIdentity;
    DifferenceIDs(obs);
    forall c <- Difference(obs) ensures IsValidChange(c) {
      DifferenceMembers(obs, c);
      IdIsVisible(c);
    }
  }

  predicate IsNameableEntry(e: Entry) { !IsBlank(e.category) && !IsBlank(e.field) }

  lemma PairIsNameable(xs: seq<Entry>, ys: seq<Entry>)
    requires |xs| == |ys| && forall e <- xs :: IsNameableEntry(e)
    ensures forall o <- PairUp(xs, ys) :: IsNameable(o)
  {
    hide IsBlank;
    forall o <- PairUp(xs, ys) ensures IsNameable(o) {
      var i :| 0 <= i < |xs| && PairUp(xs, ys)[i] == o;
      assert xs[i] in xs;
    }
  }

  lemma ObservationsAreNameable(b: Record, a: Record, f: Family)
    requires SameShape(b, a) && forall e | e in b.head || e in b.tail :: IsNameableEntry(e)
    requires forall id: string :: !IsBlank(f.category(id)) && !IsBlank(f.field(id))
    ensures forall o <- Observations(b, a, f) :: IsNameable(o)
  {
    var ids := SortedSet(b.keyed.Keys + a.keyed.Keys);
    var keyed := KeyedEntries(ids, b.keyed, f);
    hide IsBlank;
    forall e <- keyed ensures IsNameableEntry(e) {
      var i :| 0 <= i < |ids| && keyed[i] == e;
    }
    hide PairUp, IsNameable, IsNameableEntry;
    PairIsNameable(b.head, a.head);
    PairIsNameable(keyed, KeyedEntries(ids, a.keyed, f));
    PairIsNameable(b.tail, a.tail);
  }

  lemma GroupsAreNameable(groups: seq<Group>)
    requires AreGroups(groups)
    ensures forall e <- Flatten(groups) :: IsNameableEntry(e)
  {
    FlattenDistinct(groups);
    hide StartsVisibly, IsBlank, AreGroups, Flatten;
    forall e <- Flatten(groups) ensures IsNameableEntry(e) {
      VisibleStart(e.category);
      VisibleStart(e.field);
    }
  }

  // ---------------------------------------------------------------------------
  // The report

  /** A report put together from valid parts passes the envelope checks exactly when its transition does. */
  lemma BuiltEnvelope(
      schema: string, reasons: seq<string>, before: Side, after: Side, transition: StateTransition,
      changes: seq<Change>, warnings: seq<string>)
    requires NoBlanks(reasons) && NoBlanks(warnings) && AreValidChanges(changes)
    ensures IsEnvelope(
      Report(schema, reasons == [], reasons, before, after, transition, [], changes, Summarize(changes)), schema,
        warnings)
      <==> IsValidTransition(transition)
  {
    SummaryConserves(changes);
    hide IsBlank, IsValidSummary, Summarize;
  }

  /** Why two records cannot be compared. */
  function ChangedFrom(what: string, before: string, after: string): string {
    what + " changed from " + before + " to " + after
  }

  lemma OneReason(given: bool, what: string, before: string, after: string)
    requires StartsVisibly(what)
    ensures NoBlanks(if given then [ChangedFrom(what, before, after)] else [])
  {
    hide IsBlank;
    var text := ChangedFrom(what, before, after);
    VisibleStart(text);
    assert forall v <- [text] :: v == text;
  }

  lemma NoTexts()
    ensures NoBlanks([])
  {
  }

  lemma TwoReasons(xs: seq<string>, ys: seq<string>)
    requires NoBlanks(xs) && NoBlanks(ys)
    ensures NoBlanks(xs + ys)
  {
    hide IsBlank;
  }
}
