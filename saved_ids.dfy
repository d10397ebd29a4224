/** The toggle of a species code in a saved list of codes, written twice in the source:
    `toggleChecklist` on the details screen and `toggleFav` on the home screen. */
module SavedIds {
  import opened Seqs

  /** The filter predicate `item => item !== id`. */
  function IsNot(id: string): string -> bool
  {
    item => item != id
  }

  /** `list.includes(id) ? list.filter(item => item !== id) : [...list, id]`.
      Membership of `id` flips; every other code keeps its membership. */
  function Toggle(list: seq<string>, id: string): (r: seq<string>)
    ensures id in r <==> id !in list
    ensures forall x :: x != id ==> (x in r <==> x in list)
  {
    if id in list then Filter(IsNot(id), list) else list + [id]
  }

  /** Adding: the code goes to the end and the earlier entries are untouched. */
  lemma ToggleAppends(list: seq<string>, id: string)
    requires id !in list
    ensures |Toggle(list, id)| == |list| + 1
    ensures Toggle(list, id)[..|list|] == list
    ensures Toggle(list, id)[|list|] == id
  {
  }

  /** Removing: every occurrence of the code goes, every other entry keeps its
      number of occurrences and its relative order. */
  lemma {:induction false} ToggleRemoves(list: seq<string>, id: string)
    requires id in list
    ensures id !in Toggle(list, id)
    ensures IsSubseq(Toggle(list, id), list)
    ensures forall x :: x != id ==> multiset(Toggle(list, id))[x] == multiset(list)[x]
    ensures |Toggle(list, id)| < |list|
  {
    FilterIsSubseq(IsNot(id), list);
    forall x | x != id ensures multiset(Toggle(list, id))[x] == multiset(list)[x] {
      FilterCount(IsNot(id), list, x);
    }
    FilterShrinks(IsNot(id), list, id);
  }

  /** Toggling a code that was absent twice gives back exactly the original list. */
  lemma {:induction false} ToggleTwiceRestores(list: seq<string>, id: string)
    requires id !in list
    ensures Toggle(Toggle(list, id), id) == list
  {
    FilterConcat(IsNot(id), list, [id]);
    FilterKeepsAll(IsNot(id), list);
    assert Filter(IsNot(id), [id]) == [];
  }

  /** Toggling a code that was present twice gives back the same codes, with that one
      moved to the end. */
  lemma ToggleTwiceMovesToEnd(list: seq<string>, id: string)
    requires id in list
    ensures Toggle(Toggle(list, id), id) == Filter(IsNot(id), list) + [id]
    ensures forall x :: x in Toggle(Toggle(list, id), id) <==> x in list
    ensures Toggle(Toggle(list, id), id)[|Toggle(Toggle(list, id), id)| - 1] == id
  {
  }

  /** A list without duplicates stays without duplicates. */
  lemma {:induction false} ToggleKeepsDistinct(list: seq<string>, id: string)
    requires Distinct(list)
    ensures Distinct(Toggle(list, id))
  {
    if id in list {
      FilterDistinct(IsNot(id), list);
    } else {
      var r := list + [id];
      forall i, j | 0 <= i < j < |r| ensures r[i] != r[j] {
        if j == |list| {
          assert r[i] == list[i];
        }
      }
    }
  }
}
