/**
 What the search texts of a library are for: after any run every piece is found.
 */
module LibrarySearches {
  import opened Wrappers
  import opened SearchStrings
  import opened SearchFolds
  import opened SearchParser
  import opened SearchIndexes
  import opened SearchTheorems
  import opened LibraryRows
  import Sql = SearchSql
  import V = LibraryViews

  // The piece of a row as searches and filters see it.
  function Viewed(row: Row): V.Row { V.Row(row.search, row.status, row.fields.favorite) }

  // After any run every piece is found: a search for any one of its title, composer, aliases,
  // notes, opus and key, in any status, selects it in the database.
  lemma {:induction false} EveryPieceIsFound(rules: Rules, l: Library, changes: seq<Change>, id: Id, k: nat)
    requires RowsFresh(rules, l) || (changes != [] && changes[0].Reindex?)
    requires forall i :: 0 <= i < |changes| ==> !changes[i].OldWrite?
    requires id in Run(rules, l, changes).rows && k < 6
    ensures var row := Run(rules, l, changes).rows[id];
            V.Selected(Viewed(row), SearchTerms(Searched(rules, row.fields, row.details)[k]), None, V.Every)
  {
    hide SearchTerms, SearchIndex, RowsFresh, Matches, Run;
    hide Sql.Like, Sql.SearchColumn, Sql.SearchPattern, BrowserMatches;
    RunKeepsFresh(rules, l, changes);
    var row := Run(rules, l, changes).rows[id];
    FreshHere(rules, Run(rules, l, changes), id);
    var texts := Searched(rules, row.fields, row.details);
    var terms := SearchTerms(texts[k]);
    IndexOnlyBlanks(texts);
    forall i | 0 <= i < |terms|
      ensures Sql.Like(Sql.SearchColumn(row.search, terms[i]), Sql.SearchPattern(terms[i]))
    {
      FindsItself(texts, k, terms[i]);
      MatchersAgree(row.search, terms[i]);
      Sql.PatternIsTheMatcher(row.search, terms[i]);
    }
  }

  lemma FreshHere(rules: Rules, l: Library, id: Id)
    requires RowsFresh(rules, l) && id in l.rows
    ensures l.rows[id].search == SearchIndex(Searched(rules, l.rows[id].fields, l.rows[id].details))
  {
    hide SearchIndex, Searched;
  }

  lemma IndexOnlyBlanks(texts: seq<Text>)
    ensures OnlyBlanks(SearchIndex(texts))
  {
    IndexKeeps(texts);
  }
}
