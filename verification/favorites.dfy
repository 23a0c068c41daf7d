/** The favourites list: the ids of the menu items the visitor has marked,
    in the order they were marked (src/pages/Index.tsx:59, 262-268). */
module Favorites {
  import opened Seqs

  /** `toggleFavorite(itemId)`: a marked id is filtered out, an unmarked one is
      appended at the end. */
  function ToggleFavorite(favorites: seq<int>, id: int): (r: seq<int>)
    ensures id in r <==> id !in favorites
    ensures forall x :: x != id ==> (x in r <==> x in favorites)
    ensures id in favorites ==> IsSubseq(r, favorites) && |r| < |favorites|
    ensures id !in favorites ==> |r| == |favorites| + 1 && r[..|favorites|] == favorites && r[|favorites|] == id
    ensures NoDuplicates(favorites) ==> NoDuplicates(r)
  {
    if id in favorites then
      var r := Filter(favorites, (x: int) => x != id);
      FilterIsSubseq(favorites, (x: int) => x != id);
      UnmarkKeepsDistinct(favorites, id);
      FilterShrinks(favorites, (x: int) => x != id, id);
      r
    else
      favorites + [id]
  }

  /** Filtering out an id keeps the remaining ids distinct. */
  lemma UnmarkKeepsDistinct(favorites: seq<int>, id: int)
    ensures NoDuplicates(favorites) ==> NoDuplicates(Filter(favorites, (x: int) => x != id))
  {
    var r := Filter(favorites, (x: int) => x != id);
    if NoDuplicates(favorites) {
      FilterIsSubseq(favorites, (x: int) => x != id);
      SubseqPairwise(r, favorites, (a: int, b: int) => a != b);
    }
  }

  /** Filtering out an element that is present makes the sequence shorter. */
  lemma {:induction false} FilterShrinks(s: seq<int>, keep: int -> bool, x: int)
    requires x in s && !keep(x)
    ensures |Filter(s, keep)| < |s|
  {
    if s[0] != x {
      assert x in s[1..];
      FilterShrinks(s[1..], keep, x);
    }
  }

  /** Marking an unmarked id and unmarking it again gives back the same list. */
  lemma ToggleTwiceUnmarked(favorites: seq<int>, id: int)
    requires id !in favorites
    ensures ToggleFavorite(ToggleFavorite(favorites, id), id) == favorites
  {
    FilterAppend(favorites, [id], (x: int) => x != id);
    FilterKeepsAll(favorites, (x: int) => x != id);
  }

  /** Toggling twice restores which ids are marked. */
  lemma ToggleTwice(favorites: seq<int>, id: int)
    ensures forall x :: x in ToggleFavorite(ToggleFavorite(favorites, id), id) <==> x in favorites
  {
  }
}
