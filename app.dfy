/**
 * The search screen of `SearchableAffirmationsApp`: the remembered search
 * text, the list it filters, and the two query listeners that
 * `SearchViewComponent` installs on the search box.
 */
module App {
  import opened Wrappers
  import opened TextMatch
  import opened Search

  class SearchableAffirmationsApp {
    /** What `Datasource().loadAffirmations()` returns. */
    const affirmationList: seq<Affirmation>
    /** `LocalContext.current.getString`, the resource lookup of display texts. */
    const getString: ResId -> string
    var searchText: string

    /** The list the screen shows for the current search text. */
    function FilteredList(): (r: seq<Affirmation>)
      reads this
      ensures forall a :: a in r <==> a in affirmationList && Shown(a, searchText, getString)
      ensures searchText == "" ==> r == affirmationList
    {
      FilterEmptyQuery(affirmationList, getString);
      Filter(affirmationList, searchText, getString)
    }

    /** The search text starts empty, so the whole list is shown. */
    constructor (affirmationList: seq<Affirmation>, getString: ResId -> string)
      ensures this.affirmationList == affirmationList && this.getString == getString
      ensures searchText == ""
      ensures FilteredList() == affirmationList
    {
      this.affirmationList := affirmationList;
      this.getString := getString;
      searchText := "";
      FilterEmptyQuery(affirmationList, getString);
    }

    /** The `onQueryChanged` callback: the new query becomes the search text. */
    method OnQueryChanged(query: string)
      modifies this
      ensures searchText == query
      ensures forall a :: a in FilteredList() <==> a in affirmationList && ContainsIgnoreCase(getString(a.stringResourceId), query)
    {
      searchText := query;
    }

    /** `onQueryTextSubmit`: a non-null query is forwarded, a null one ignored; the event counts as handled. */
    method OnQueryTextSubmit(query: Option<string>) returns (handled: bool)
      modifies this
      ensures handled
      ensures searchText == if query.Some? then query.value else old(searchText)
    {
      if query.Some? {
        OnQueryChanged(query.value);
      }
      handled := true;
    }

    /** `onQueryTextChange`: forwards exactly like a submit. */
    method OnQueryTextChange(newText: Option<string>) returns (handled: bool)
      modifies this
      ensures handled
      ensures searchText == if newText.Some? then newText.value else old(searchText)
    {
      if newText.Some? {
        OnQueryChanged(newText.value);
      }
      handled := true;
    }
  }

  /**
   * Two screens that agree, one sent a submit and the other a change with the
   * same query, show the same list afterwards; a null query leaves a screen's
   * list as it was.
   */
  method SubmitAndChangeAgree(bySubmit: SearchableAffirmationsApp, byChange: SearchableAffirmationsApp, query: Option<string>)
    returns (shownAfterSubmit: seq<Affirmation>, shownAfterChange: seq<Affirmation>)
    requires bySubmit.affirmationList == byChange.affirmationList
    requires bySubmit.getString == byChange.getString
    requires bySubmit.searchText == byChange.searchText
    modifies bySubmit, byChange
    ensures shownAfterSubmit == bySubmit.FilteredList() && shownAfterChange == byChange.FilteredList()
    ensures shownAfterSubmit == shownAfterChange
    ensures query.None? ==> shownAfterSubmit == old(bySubmit.FilteredList())
  {
    var _ := bySubmit.OnQueryTextSubmit(query);
    var _ := byChange.OnQueryTextChange(query);
    shownAfterSubmit := bySubmit.FilteredList();
    shownAfterChange := byChange.FilteredList();
  }
}
