/** The gallery's search box: the list shown for the current query. */
module UseSearch {
  import opened Text
  import opened Seqs
  import opened GalleryData

  /** `filteredPrototypes`: everything for a query that is blank once trimmed,
      otherwise the prototypes whose title, description, author name or
      product area holds the query, ignoring case. The query used for matching
      is not trimmed. */
  function FilteredPrototypes(prototypes: seq<Prototype>, searchQuery: string): (r: seq<Prototype>)
    ensures Trim(searchQuery) == "" ==> r == prototypes
    ensures IsSubsequence(r, prototypes)
    ensures Trim(searchQuery) != "" ==> forall p :: p in r <==> p in prototypes && MatchesCard(p, searchQuery)
    ensures Trim(searchQuery) != "" ==>
      forall p :: multiset(r)[p] == if MatchesCard(p, searchQuery) then multiset(prototypes)[p] else 0
  {
    if Trim(searchQuery) == "" then
      assert IsSubsequence(prototypes, prototypes) by { SubsequenceRefl(prototypes); }
      prototypes
    else SearchCards(prototypes, searchQuery)
  }

  /** A query that begins with a space only finds prototypes with a space in
      one of the searched fields. */
  lemma LeadingSpaceCounts(p: Prototype, searchQuery: string)
    requires searchQuery != "" && searchQuery[0] == ' '
    requires MatchesCard(p, searchQuery)
    ensures ' ' in p.title || ' ' in p.description || ' ' in p.author.name || ' ' in p.productArea
  {
    if FieldMatches(p.title, searchQuery) {
      SpaceInMatch(p.title, searchQuery);
    } else if FieldMatches(p.description, searchQuery) {
      SpaceInMatch(p.description, searchQuery);
    } else if FieldMatches(p.author.name, searchQuery) {
      SpaceInMatch(p.author.name, searchQuery);
    } else {
      SpaceInMatch(p.productArea, searchQuery);
    }
  }

  lemma SpaceInMatch(field: string, query: string)
    requires query != "" && query[0] == ' ' && FieldMatches(field, query)
    ensures ' ' in field
  {
    IncludesWitness(ToLower(field), ToLower(query));
    var i :| OccursAt(ToLower(field), ToLower(query), i);
    assert ToLower(field)[i] == ToLower(query)[0];
    assert field[i] in field;
  }
}
