/**
 What the library shows for a search and a filter, selected by the server or by the browser:
 ParseStatusFilter in internal/app/validation.go, listClauses in internal/app/service.go,
 the request of web/src/app/core/api.service.ts, and filterAndSort and inFilter in
 web/src/app/features/library/library.utils.ts.
 */
module LibraryViews {
  import opened Wrappers
  import opened SearchStrings
  import opened SearchFolds
  import opened SearchParser
  import opened SearchIndexes
  import opened SearchAgreement
  import opened SearchDoubts
  import opened SearchSql

  datatype Status = Learning | Playing | Shelved

  datatype Filter = Current | All | Favorites | OnlyStatus(status: Status)

  // A piece as search and filters see it: its stored search text, status and favourite mark.
  datatype Row = Row(index: string, status: Status, favorite: bool)

  function StatusName(s: Status): string {
    match s
    case Learning => "learning"
    case Playing => "playing"
    case Shelved => "shelved"
  }

  function StatusNamed(name: string): Option<Status> {
    if name == "learning" then Some(Learning)
    else if name == "playing" then Some(Playing)
    else if name == "shelved" then Some(Shelved)
    else None
  }

  // ---------------------------------------------------------------------------
  // The status parameter
  // ---------------------------------------------------------------------------

  predicate IsComma(c: char) { c == ',' }

  // A parsed parameter: every status, or a list of them; Bad if some part names none.
  datatype Parsed = Every | These(statuses: seq<Status>) | Bad

  // The statuses are exactly those the parts name.
  ghost predicate AreNamed(statuses: seq<Status>, parts: seq<string>) {
    && (forall i :: 0 <= i < |parts| ==> StatusNamed(TrimSpace(parts[i])).Some?)
    && (forall s :: s in statuses <==> exists i :: 0 <= i < |parts| && StatusNamed(TrimSpace(parts[i])) == Some(s))
  }

  predicate Distinct(statuses: seq<Status>) { forall i, j :: 0 <= i < j < |statuses| ==> statuses[i] != statuses[j] }

  // What a parameter means: all, a list of names, or what an absent one does.
  ghost predicate ParsesTo(value: string, searching: bool, r: Parsed) {
    var v := TrimSpace(value);
    match r
    case Every => v == "all" || (v == "" && searching)
    case Bad => v != "" && v != "all" && exists i :: 0 <= i < |Split(v, IsComma)| && StatusNamed(TrimSpace(Split(v, IsComma)[i])).None?
    case These(statuses) =>
      && v != "all" && Distinct(statuses)
      && (v == "" ==> !searching && statuses == [Learning, Playing])
      && (v != "" ==> AreNamed(statuses, Split(v, IsComma)))
  }

  method NamedStatuses(parts: seq<string>) returns (r: Option<seq<Status>>)
    ensures r.None? ==> exists i :: 0 <= i < |parts| && StatusNamed(TrimSpace(parts[i])).None?
    ensures r.Some? ==> Distinct(r.value) && AreNamed(r.value, parts)
  {
    hide StatusNamed, TrimSpace;
    var statuses: seq<Status> := [];
    for i := 0 to |parts|
      invariant Distinct(statuses) && AreNamed(statuses, parts[..i])
    {
      var status := StatusNamed(TrimSpace(parts[i]));
      if status.None? {
        return None;
      }
      assert parts[..i + 1] == parts[..i] + [parts[i]];
      if status.value !in statuses {
        statuses := statuses + [status.value];
      }
    }
    assert parts[..|parts|] == parts;
    return Some(statuses);
  }

  method ParseStatusFilter(value: string, searching: bool) returns (r: Parsed)
    ensures ParsesTo(value, searching, r)
  {
    hide StatusNamed, TrimSpace, Split, AreNamed;
    var v := TrimSpace(value);
    if v == "" && searching {
      return Every;
    }
    if v == "" {
      return These([Learning, Playing]);
    }
    if v == "all" {
      return Every;
    }
    var statuses := NamedStatuses(Split(v, IsComma));
    return if statuses.Some? then These(statuses.value) else Bad;
  }

  // ---------------------------------------------------------------------------
  // The two selections
  // ---------------------------------------------------------------------------

  // The parameters the browser sends for a filter.
  datatype Params = Params(favorite: Option<bool>, status: string)

  function ParamsOf(filter: Filter): Params {
    match filter
    case Favorites => Params(Some(true), "all")
    case Current => Params(None, "")
    case All => Params(None, "all")
    case OnlyStatus(s) => Params(None, StatusName(s))
  }

  // The WHERE clauses of the server, for parameters that parsed.
  ghost predicate Selected(row: Row, terms: seq<string>, favorite: Option<bool>, statuses: Parsed) {
    && (forall i :: 0 <= i < |terms| ==> Like(SearchColumn(row.index, terms[i]), SearchPattern(terms[i])))
    && (favorite.Some? ==> row.favorite == favorite.value)
    && (statuses.These? ==> row.status in statuses.statuses)
  }

  predicate InFilter(row: Row, filter: Filter, searching: bool) {
    match filter
    case Current => row.status != Shelved || searching
    case All => true
    case Favorites => row.favorite
    case OnlyStatus(s) => row.status == s
  }

  // What the browser keeps of the summaries it holds.
  ghost predicate Kept(row: Row, terms: seq<string>, filter: Filter) {
    InFilter(row, filter, terms != []) && forall i :: 0 <= i < |terms| ==> BrowserMatches(row.index, terms[i])
  }

  lemma NameIsOnePart(s: Status)
    ensures var name := StatusName(s);
            && name != "" && name != "all" && TrimSpace(name) == name && Split(name, IsComma) == [name]
            && StatusNamed(name) == Some(s)
  {
    var name := StatusName(s);
    assert !IsSpace(name[0]) && !IsSpace(name[|name| - 1]);
    assert forall i :: 0 <= i < |name| ==> !IsComma(name[i]);
    WholeSplit(name, 0);
  }

  lemma {:induction false} WholeSplit(s: string, i: nat)
    requires i <= |s| && forall k :: 0 <= k < |s| ==> !IsComma(s[k])
    ensures SplitFrom(s, 0, i, IsComma) == [s]
    decreases |s| - i
  {
    if i < |s| {
      WholeSplit(s, i + 1);
    } else {
      assert s[0..] == s;
    }
  }

  // A filter's parameters select by status what the browser's filter keeps.
  lemma ParamsMeanFilter(row: Row, filter: Filter, searching: bool, r: Parsed)
    requires ParsesTo(ParamsOf(filter).status, searching, r)
    ensures r != Bad
    ensures InFilter(row, filter, searching)
            <==> (ParamsOf(filter).favorite.Some? ==> row.favorite == ParamsOf(filter).favorite.value)
                 && (r.These? ==> row.status in r.statuses)
  {
    assert TrimSpace("all") == "all" && TrimSpace("") == "";
    if filter.OnlyStatus? {
      NameIsOnePart(filter.status);
      var parts := [StatusName(filter.status)];
      assert StatusNamed(TrimSpace(parts[0])) == Some(filter.status);
    }
  }

  // The server selects by the terms it reads, and the browser by those it reads.
  lemma SelectionsByMatch(row: Row, terms: seq<string>, browser: seq<string>, filter: Filter, r: Parsed)
    requires ParsesTo(ParamsOf(filter).status, terms != [], r) && (terms == [] <==> browser == [])
    ensures r != Bad
    ensures var filtered := InFilter(row, filter, terms != []);
            && (Selected(row, terms, ParamsOf(filter).favorite, r) <==> filtered && AllMatch(row.index, terms))
            && (Kept(row, browser, filter) <==> filtered && AllMatch(row.index, browser))
  {
    hide Like, BrowserMatches, SearchColumn, SearchPattern, ParsesTo, InFilter;
    forall i | 0 <= i < |terms|
      ensures Like(SearchColumn(row.index, terms[i]), SearchPattern(terms[i])) <==> BrowserMatches(row.index, terms[i])
    {
      PatternIsTheMatcher(row.index, terms[i]);
    }
    ParamsMeanFilter(row, filter, terms != [], r);
  }

  // The terms the two programs read from a query match the same pieces, but where a query in
  // doubt does not repeat its joined number.
  lemma ReadingsMatch(index: string, query: Text)
    ensures SearchTerms(query) == [] <==> Terms(query, false, IsBrowserSpace) == []
    ensures !StartsInDoubt(query) || Repeats(query) ==>
              (AllMatch(index, SearchTerms(query)) <==> AllMatch(index, Terms(query, false, IsBrowserSpace)))
  {
    hide Terms, StartsInDoubt, Repeats, AllMatch, LaterTerms, DoubtLetter, DoubtNumber;
    TermsAgreeExactlyWhen(query, false);
    if StartsInDoubt(query) {
      TwoReadings(query);
      if Repeats(query) {
        RepeatsMatchAlike(index, query);
      }
    }
  }

  // For any query not in doubt, or holding its joined number again, the server selects a piece
  // exactly when the browser keeps it, whatever the filter.
  lemma SameSelection(row: Row, query: Text, filter: Filter, r: Parsed)
    requires !StartsInDoubt(query) || Repeats(query)
    requires ParsesTo(ParamsOf(filter).status, SearchTerms(query) != [], r)
    ensures r != Bad
    ensures Selected(row, SearchTerms(query), ParamsOf(filter).favorite, r)
            <==> Kept(row, Terms(query, false, IsBrowserSpace), filter)
  {
    hide Terms, AllMatch, ParsesTo, StartsInDoubt, Repeats, InFilter, Selected, Kept;
    ReadingsMatch(row.index, query);
    SelectionsByMatch(row, SearchTerms(query), Terms(query, false, IsBrowserSpace), filter, r);
  }

  // For any other query some piece is found by one of them only.
  lemma DifferentSelection(query: Text)
    requires StartsInDoubt(query) && !Repeats(query)
    ensures exists row :: Selected(row, SearchTerms(query), None, Every) != Kept(row, Terms(query, false, IsBrowserSpace), All)
  {
    hide Terms, AllMatch, StartsInDoubt, Repeats, Selected, Kept, LaterTerms, DoubtLetter, DoubtNumber, Turned;
    var row := Row(Join(Turned(query)), Playing, false);
    TurnedTellsApart(query);
    TwoReadings(query);
    ReadingsMatch(row.index, query);
    assert TrimSpace("all") == "all";
    SelectionsByMatch(row, SearchTerms(query), Terms(query, false, IsBrowserSpace), All, Every);
    assert Selected(row, SearchTerms(query), None, Every) != Kept(row, Terms(query, false, IsBrowserSpace), All);
  }

  ghost predicate SelectedAlike(query: Text) {
    forall row, filter, r :: ParsesTo(ParamsOf(filter).status, SearchTerms(query) != [], r) ==>
      (Selected(row, SearchTerms(query), ParamsOf(filter).favorite, r)
       <==> Kept(row, Terms(query, false, IsBrowserSpace), filter))
  }

  // The server and the browser show the same pieces for a query, whatever the filter, exactly
  // when it does not start in doubt or holds its joined number again.
  lemma SelectedAlikeExactlyWhen(query: Text)
    ensures SelectedAlike(query) <==> !StartsInDoubt(query) || Repeats(query)
  {
    hide Terms, StartsInDoubt, Repeats, Selected, Kept;
    if !StartsInDoubt(query) || Repeats(query) {
      forall row, filter, r | ParsesTo(ParamsOf(filter).status, SearchTerms(query) != [], r)
        ensures Selected(row, SearchTerms(query), ParamsOf(filter).favorite, r)
                <==> Kept(row, Terms(query, false, IsBrowserSpace), filter)
      {
        SameSelection(row, query, filter, r);
      }
    } else {
      DifferentSelection(query);
      var row :| Selected(row, SearchTerms(query), None, Every) != Kept(row, Terms(query, false, IsBrowserSpace), All);
      assert TrimSpace("all") == "all";
      assert ParsesTo(ParamsOf(All).status, SearchTerms(query) != [], Every);
    }
  }
}
