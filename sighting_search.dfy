/** The home screen's search: a case-insensitive substring filter over `comName`. */
module SightingSearch {
  import opened Seqs
  import opened Sightings

  /** `toLowerCase` on one character, for the ASCII letters only. */
  function Lower(c: char): char
  {
    if 'A' <= c <= 'Z' then (c as int + ('a' as int - 'A' as int)) as char else c
  }

  /** `s.toLowerCase()`. */
  function LowerStr(s: string): (r: string)
    ensures |r| == |s|
    ensures forall i :: 0 <= i < |s| ==> r[i] == Lower(s[i])
  {
    if s == [] then [] else [Lower(s[0])] + LowerStr(s[1..])
  }

  /** `hay.includes(needle)`: the search from each start position in turn. */
  predicate Contains(hay: string, needle: string): (found: bool)
    ensures needle <= hay ==> found
    ensures found ==> |needle| <= |hay|
  {
    needle <= hay || (hay != [] && Contains(hay[1..], needle))
  }

  /** `needle` occurs in `hay` as a contiguous block. */
  ghost predicate Occurs(hay: string, needle: string)
  {
    exists i | 0 <= i <= |hay| - |needle| :: needle <= hay[i..]
  }

  /** `includes` finds an occurrence at any position. */
  lemma {:induction false} ContainsFromOccurrence(hay: string, needle: string, i: nat)
    requires i <= |hay| - |needle| && needle <= hay[i..]
    ensures Contains(hay, needle)
  {
    if i > 0 {
      assert hay[1..][i - 1..] == hay[i..];
      ContainsFromOccurrence(hay[1..], needle, i - 1);
    }
  }

  /** What `includes` finds is an occurrence. */
  lemma {:induction false} OccurrenceFromContains(hay: string, needle: string) returns (i: nat)
    requires Contains(hay, needle)
    ensures i <= |hay| - |needle| && needle <= hay[i..]
  {
    if needle <= hay {
      i := 0;
    } else {
      var k := OccurrenceFromContains(hay[1..], needle);
      assert hay[1..][k..] == hay[k + 1..];
      i := k + 1;
    }
  }

  /** `includes` holds exactly when `needle` occurs in `hay` as a contiguous block. */
  lemma ContainsIffOccurs(hay: string, needle: string)
    ensures Contains(hay, needle) <==> Occurs(hay, needle)
  {
    if Contains(hay, needle) {
      var i := OccurrenceFromContains(hay, needle);
    }
    if Occurs(hay, needle) {
      var i :| 0 <= i <= |hay| - |needle| && needle <= hay[i..];
      ContainsFromOccurrence(hay, needle, i);
    }
  }

  /** Two strings that differ only in the case of their letters. */
  predicate SameIgnoringCase(a: string, b: string)
  {
    |a| == |b| && forall i :: 0 <= i < |a| ==> Lower(a[i]) == Lower(b[i])
  }

  /** The filter predicate, over the already lowered search term. */
  function MatchesTerm(loweredTerm: string): Record -> bool
  {
    (bird: Record) => Contains(LowerStr(bird.comName), loweredTerm)
  }

  /** `sightingsArray.filter(bird =>
        bird.comName.toLowerCase().includes(searchTerm.toLowerCase()))`. */
  function Search(records: seq<Record>, term: string): (found: seq<Record>)
    ensures forall b :: b in found <==> b in records && Contains(LowerStr(b.comName), LowerStr(term))
  {
    Filter(MatchesTerm(LowerStr(term)), records)
  }

  /** The search keeps exactly the matching records, each as often as it was fetched,
      in fetched order. */
  lemma {:induction false} SearchKeepsMatchesInOrder(records: seq<Record>, term: string)
    ensures IsSubseq(Search(records, term), records)
    ensures forall b :: multiset(Search(records, term))[b] ==
              if Contains(LowerStr(b.comName), LowerStr(term)) then multiset(records)[b] else 0
  {
    FilterIsSubseq(MatchesTerm(LowerStr(term)), records);
    forall b ensures multiset(Search(records, term))[b] ==
                       if Contains(LowerStr(b.comName), LowerStr(term)) then multiset(records)[b] else 0 {
      FilterCount(MatchesTerm(LowerStr(term)), records, b);
    }
  }

  /** An empty search term keeps every fetched record. */
  lemma {:induction false} EmptyTermKeepsAll(records: seq<Record>)
    ensures Search(records, "") == records
  {
    forall b | b in records ensures MatchesTerm(LowerStr(""))(b) {
      assert LowerStr("") == [];
    }
    FilterKeepsAll(MatchesTerm(LowerStr("")), records);
  }

  /** Search terms that differ only in letter case give identical results. */
  lemma {:induction false} SearchIgnoresCase(records: seq<Record>, a: string, b: string)
    requires SameIgnoringCase(a, b)
    ensures Search(records, a) == Search(records, b)
  {
    assert LowerStr(a) == LowerStr(b);
  }

  /** For instance, "ROBIN" and "robin" find the same records. */
  lemma RobinExample(records: seq<Record>)
    ensures Search(records, "ROBIN") == Search(records, "robin")
  {
    SearchIgnoresCase(records, "ROBIN", "robin");
  }
}
