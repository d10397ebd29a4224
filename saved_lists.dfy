/** The saved-list screens (checklist, favourites): the stored codes are matched against
    the freshly fetched sightings, and the checklist can drop a displayed species. */
module SavedLists {
  import opened Wrappers
  import opened Seqs
  import opened Sightings

  /** `savedBirds` holds the stored codes until the fetch settles and the matching
      records afterwards. */
  datatype SavedBirds = Ids(ids: seq<string>) | Birds(records: seq<Record>)
  {
    /** `savedBirds.length`: the number of rows displayed. */
    function Length(): nat
    {
      match this
      case Ids(ids) => |ids|
      case Birds(records) => |records|
    }
  }

  /** The filter predicate `bird => savedIds.includes(bird.speciesCode)`. */
  function CodeIn(ids: seq<string>): Record -> bool
  {
    (bird: Record) => bird.speciesCode in ids
  }

  /** `sightingsArray.filter(bird => savedIds.includes(bird.speciesCode))`. */
  function Reconcile(ids: seq<string>, fetched: seq<Record>): (shown: seq<Record>)
    ensures |shown| <= |fetched|
    ensures forall b :: b in shown <==> b in fetched && b.speciesCode in ids
    ensures ids == [] ==> shown == []
  {
    var shown := Filter(CodeIn(ids), fetched);
    assert shown != [] ==> shown[0] in shown;
    shown
  }

  /** The displayed list is the subsequence of the fetched records whose code is saved:
      fetch order, and every such record as often as it was fetched. */
  lemma {:induction false} ReconcileKeepsFetchOrder(ids: seq<string>, fetched: seq<Record>)
    ensures IsSubseq(Reconcile(ids, fetched), fetched)
    ensures forall b :: multiset(Reconcile(ids, fetched))[b] ==
              if b.speciesCode in ids then multiset(fetched)[b] else 0
  {
    FilterIsSubseq(CodeIn(ids), fetched);
    forall b ensures multiset(Reconcile(ids, fetched))[b] ==
                       if b.speciesCode in ids then multiset(fetched)[b] else 0 {
      FilterCount(CodeIn(ids), fetched, b);
    }
  }

  /** A saved code that no fetched record carries is not displayed, and the displayed
      codes are exactly the saved codes that were fetched. */
  lemma {:induction false} UnfetchedNotShown(ids: seq<string>, fetched: seq<Record>, id: string)
    ensures id in Codes(Reconcile(ids, fetched)) <==> id in ids && id in Codes(fetched)
  {
    CodesMembership(Reconcile(ids, fetched), id);
    CodesMembership(fetched, id);
  }

  /** With "amerob" and "blujay" saved and records for "amerob" and "cangoo" fetched, only
      the "amerob" record is displayed. */
  lemma ReconcileExample(amerob: Record, cangoo: Record)
    requires amerob.speciesCode == "amerob" && cangoo.speciesCode == "cangoo"
    ensures Reconcile(["amerob", "blujay"], [amerob, cangoo]) == [amerob]
  {
    var p := CodeIn(["amerob", "blujay"]);
    assert [amerob, cangoo][1..] == [cangoo];
    assert [cangoo][1..] == [];
    assert !p(cangoo);
    assert Filter(p, [cangoo]) == [];
    assert p(amerob);
  }

  /** The filter predicate `bird => bird.speciesCode !== birdID`. */
  function CodeIsNot(code: string): Record -> bool
  {
    (bird: Record) => bird.speciesCode != code
  }

  /** `savedBirds.filter(bird => bird.speciesCode !== birdID)` on the displayed records. */
  function RemoveCode(shown: seq<Record>, code: string): (rest: seq<Record>)
    ensures |rest| <= |shown|
    ensures forall b :: b in rest <==> b in shown && b.speciesCode != code
  {
    Filter(CodeIsNot(code), shown)
  }

  /** Removal drops every record with the code and keeps the others in order. */
  lemma {:induction false} RemoveKeepsOthersInOrder(shown: seq<Record>, code: string)
    ensures code !in Codes(RemoveCode(shown, code))
    ensures IsSubseq(RemoveCode(shown, code), shown)
    ensures forall b: Record :: b.speciesCode != code ==>
              multiset(RemoveCode(shown, code))[b] == multiset(shown)[b]
  {
    CodesMembership(RemoveCode(shown, code), code);
    FilterIsSubseq(CodeIsNot(code), shown);
    forall b: Record | b.speciesCode != code
      ensures multiset(RemoveCode(shown, code))[b] == multiset(shown)[b]
    {
      FilterCount(CodeIsNot(code), shown, b);
    }
  }

  /** Removing a code that is not displayed changes nothing. */
  lemma {:induction false} RemoveAbsentCodeIsNoOp(shown: seq<Record>, code: string)
    requires code !in Codes(shown)
    ensures RemoveCode(shown, code) == shown
  {
    CodesMembership(shown, code);
    FilterKeepsAll(CodeIsNot(code), shown);
  }

  /** What a removal writes back is the codes still displayed, so a saved code whose
      species was missing from the latest fetch is erased from storage even though it
      was never removed. */
  lemma {:induction false} RemovalErasesUnfetched(ids: seq<string>, fetched: seq<Record>,
                                                  code: string, id: string)
    requires id in ids && id !in Codes(fetched)
    ensures id !in Codes(RemoveCode(Reconcile(ids, fetched), code))
  {
    var shown := Reconcile(ids, fetched);
    UnfetchedNotShown(ids, fetched, id);
    CodesMembership(shown, id);
    CodesMembership(RemoveCode(shown, code), id);
  }

  /** The code displayed in row `row`: a record's `speciesCode`, or `undefined` while
      the rows are still the raw stored strings. */
  function CodeShownAt(saved: SavedBirds, row: nat): (code: Option<string>)
    requires row < saved.Length()
    ensures saved.Ids? <==> code.None?
    ensures saved.Birds? ==> code == Some(saved.records[row].speciesCode)
  {
    match saved
    case Ids(_) => None
    case Birds(records) => Some(records[row].speciesCode)
  }
}
