/** The favourites list: the ids the user starred, oldest first. Each update
    builds a new list from the previous one. */
module Favorites {
  import opened Seqs

  /** `removeFavorite`: every occurrence of `id` dropped, the others kept in order. */
  function RemoveFavorite(favorites: seq<string>, id: string): (r: seq<string>)
    ensures id !in r
    ensures IsSubsequence(r, favorites)
    ensures forall x :: x != id ==> multiset(r)[x] == multiset(favorites)[x]
  {
    var keep := (fav: string) => fav != id;
    FilterIsSubsequence(favorites, keep);
    FilterMembers(favorites, keep);
    forall x | x != id ensures multiset(Filter(favorites, keep))[x] == multiset(favorites)[x] {
      FilterMultiplicity(favorites, keep, x);
    }
    Filter(favorites, keep)
  }

  /** `addFavorite`: `id` moved to, or added at, the end. */
  function AddFavorite(favorites: seq<string>, id: string): (r: seq<string>)
    ensures |r| >= 1 && r[|r| - 1] == id
    ensures r[..|r| - 1] == RemoveFavorite(favorites, id)
    ensures multiset(r)[id] == 1
    ensures forall x :: x in r <==> x in favorites || x == id
  {
    var rest := RemoveFavorite(favorites, id);
    assert multiset(rest + [id]) == multiset(rest) + multiset{id};
    forall x | x in favorites && x != id ensures x in rest {
      assert multiset(favorites)[x] > 0;
    }
    assert (rest + [id])[..|rest|] == rest;
    rest + [id]
  }

  /** `isFavorite`. */
  predicate IsFavorite(favorites: seq<string>, id: string) {
    id in favorites
  }

  /** Starring twice is starring once. */
  lemma AddIdempotent(favorites: seq<string>, id: string)
    ensures AddFavorite(AddFavorite(favorites, id), id) == AddFavorite(favorites, id)
  {
    var rest := RemoveFavorite(favorites, id);
    RemoveTrailing(rest, id);
    RemoveAbsent(rest, id);
  }

  /** Unstarring drops a trailing occurrence along with the others. */
  lemma RemoveTrailing(favorites: seq<string>, id: string)
    ensures RemoveFavorite(favorites + [id], id) == RemoveFavorite(favorites, id)
  {
    var keep := (fav: string) => fav != id;
    FilterAppend(favorites, [id], keep);
    assert Filter([id], keep) == [];
  }

  /** Unstarring an id that is not starred changes nothing. */
  lemma RemoveAbsent(favorites: seq<string>, id: string)
    requires id !in favorites
    ensures RemoveFavorite(favorites, id) == favorites
  {
    FilterKeepsAll(favorites, (fav: string) => fav != id);
  }

  /** A list without repeats stays without repeats. */
  lemma AddKeepsNoDuplicates(favorites: seq<string>, id: string)
    requires NoDuplicates(favorites)
    ensures NoDuplicates(AddFavorite(favorites, id))
  {
    var rest := RemoveFavorite(favorites, id);
    FilterNoDuplicates(favorites, (fav: string) => fav != id);
    var r := rest + [id];
    forall i, j | 0 <= i < j < |r| ensures r[i] != r[j] {
      if j == |rest| {
        assert r[i] == rest[i] && rest[i] in rest;
      }
    }
  }

  /** After starring, the id is a favourite; after unstarring it is not; no
      other id changes. */
  lemma FavoriteAfterUpdate(favorites: seq<string>, id: string, other: string)
    ensures IsFavorite(AddFavorite(favorites, id), id)
    ensures !IsFavorite(RemoveFavorite(favorites, id), id)
    ensures other != id ==> IsFavorite(AddFavorite(favorites, id), other) == IsFavorite(favorites, other)
    ensures other != id ==> IsFavorite(RemoveFavorite(favorites, id), other) == IsFavorite(favorites, other)
  {
    if other != id {
      var r := RemoveFavorite(favorites, id);
      assert multiset(r)[other] == multiset(favorites)[other];
    }
  }
}
