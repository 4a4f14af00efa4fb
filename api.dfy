/** The gallery's mock API: the same sample data behind an asynchronous
    interface. The simulated network delays are dropped. */
module GalleryApi {
  import opened Seqs
  import opened GalleryData

  /** `getAllPrototypes`. */
  function GetAllPrototypes(): seq<Prototype> {
    MockPrototypes
  }

  /** `getUserPrototypes`: what the data module's lookup of the same name gives. */
  function GetUserPrototypes(userId: string): seq<Prototype> {
    GalleryData.GetUserPrototypes(userId)
  }

  /** The prototypes of `list` whose id is one of `favoriteIds`, in the order of
      `list`. */
  function FavoritesIn(list: seq<Prototype>, favoriteIds: seq<string>): (r: seq<Prototype>)
    ensures IsSubsequence(r, list)
    ensures forall p :: p in r <==> p in list && p.id in favoriteIds
    ensures forall p :: multiset(r)[p] == if p.id in favoriteIds then multiset(list)[p] else 0
  {
    var keep := (p: Prototype) => p.id in favoriteIds;
    FilterIsSubsequence(list, keep);
    FilterMembers(list, keep);
    FilterCounts(list, keep);
    Filter(list, keep)
  }

  /** Only which ids are listed matters: their order and repetitions do not. */
  lemma FavoritesIgnoreOrder(list: seq<Prototype>, a: seq<string>, b: seq<string>)
    requires forall x :: x in a <==> x in b
    ensures FavoritesIn(list, a) == FavoritesIn(list, b)
  {
    FilterAgree(list, (p: Prototype) => p.id in a, (p: Prototype) => p.id in b);
  }

  /** `getFavoritePrototypes`. */
  function GetFavoritePrototypes(favoriteIds: seq<string>): seq<Prototype> {
    FavoritesIn(MockPrototypes, favoriteIds)
  }

  /** `searchPrototypes`: title, description, author name and product area,
      not tags. */
  function SearchPrototypes(query: string): seq<Prototype> {
    SearchCards(MockPrototypes, query)
  }

  /** `getCurrentUser`: the first sample user. */
  function GetCurrentUser(): (u: User)
    ensures u == MockUsers[0] && u.id == "user-1" && u.name == "Sarah Chen"
  {
    MockUsers[0]
  }
}
