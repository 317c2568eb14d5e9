/** The hero search box (src/app/Components/Hero.tsx): typing updates the
    query and shows a results dropdown once the query has two characters;
    the college and exam searches run only from that length on; the dropdown
    lists at most five of each and either a "no results" note or a "view
    all" button; a result click resets the box; submitting navigates only
    for a query that is not blank. */
module Hero {
  import opened Common

  datatype College = College(id: string, name: string, slug: string)
  datatype Exam = Exam(id: string, name: string, shortName: Option<string>, slug: string)

  const MinQueryLength: nat := 2
  const MaxListed: nat := 5

  /** Both searches are enabled only from two characters on. */
  predicate SearchEnabled(query: string)
    ensures SearchEnabled(query) <==> query != [] && query[1..] != []
  {
    |query| >= MinQueryLength
  }

  /** The query function: below two characters it resolves to an empty list
      without a request; otherwise to what the endpoint returned, where `None`
      stands for a body without the list. */
  function QueryFn<T>(query: string, fetched: Option<seq<T>>): (r: Option<seq<T>>)
    ensures !SearchEnabled(query) ==> r == Some([])
    ensures SearchEnabled(query) ==> r == fetched
  {
    if |query| < MinQueryLength then Some([]) else fetched
  }

  /** The data the query holds for the current key: a disabled query never
      runs, so it holds nothing. */
  function QueryData<T>(query: string, fetched: Option<seq<T>>): (r: Option<seq<T>>)
    ensures !SearchEnabled(query) ==> r == None
    ensures SearchEnabled(query) ==> r == fetched
  {
    if SearchEnabled(query) then QueryFn(query, fetched) else None
  }

  /** The listed results: the returned list, or nothing when the response
      carries no list. */
  function Listed<T>(data: Option<seq<T>>): (r: seq<T>)
    ensures data.None? ==> r == []
    ensures data.Some? ==> r == data.value
  {
    data.GetOr([])
  }

  /** Below the threshold nothing is listed, whatever an endpoint would have
      returned; from the threshold on, the listed results are those returned. */
  lemma ShortQueryListsNothing<T>(query: string, fetched: Option<seq<T>>)
    ensures !SearchEnabled(query) ==> Listed(QueryData(query, fetched)) == []
    ensures SearchEnabled(query) ==> Listed(QueryData(query, fetched)) == fetched.GetOr([])
  {
  }

  /** The box is searching while either of the two searches loads. */
  predicate IsLoading(loadingColleges: bool, loadingExams: bool)
    ensures !IsLoading(loadingColleges, loadingExams) <==> !loadingColleges && !loadingExams
  {
    loadingColleges || loadingExams
  }

  /** What the results dropdown shows. */
  datatype DropdownView =
    | Hidden
    | Searching
    | Listing(colleges: seq<College>, exams: seq<Exam>, noResults: bool, viewAll: bool)

  /** The dropdown for the given state and search results: rendered only when
      results are to be shown for a query of two or more characters; a
      spinner while either search loads; otherwise the first five colleges,
      the first five exams, and exactly one of "no results" (both lists empty)
      and "view all" (either list non-empty). */
  function RenderDropdown(showResults: bool, query: string, colleges: seq<College>, exams: seq<Exam>,
                          loadingColleges: bool, loadingExams: bool): (v: DropdownView)
    ensures v.Hidden? <==> !(showResults && |query| >= MinQueryLength)
    ensures v.Searching? <==> showResults && |query| >= MinQueryLength && IsLoading(loadingColleges, loadingExams)
    ensures v.Listing? ==>
      && |v.colleges| == Min(MaxListed, |colleges|) && v.colleges == colleges[..|v.colleges|]
      && |v.exams| == Min(MaxListed, |exams|) && v.exams == exams[..|v.exams|]
      && (v.noResults <==> colleges == [] && exams == [])
      && (v.viewAll <==> colleges != [] || exams != [])
      && v.noResults != v.viewAll
  {
    if !(showResults && |query| >= MinQueryLength) then Hidden
    else if IsLoading(loadingColleges, loadingExams) then Searching
    else Listing(Take(colleges, MaxListed), Take(exams, MaxListed),
                 |colleges| == 0 && |exams| == 0,
                 |colleges| > 0 || |exams| > 0)
  }

  // ---------------------------------------------------------------------------
  // Trimming the query
  // ---------------------------------------------------------------------------

  /** Drops the leading white space. */
  function TrimStart(s: string): (r: string)
    ensures |r| <= |s| && r == s[|s| - |r|..]
    ensures r == [] || !IsWhitespace(r[0])
    ensures forall i :: 0 <= i < |s| - |r| ==> IsWhitespace(s[i])
  {
    if s != [] && IsWhitespace(s[0]) then TrimStart(s[1..]) else s
  }

  /** Drops the trailing white space. */
  function TrimEnd(s: string): (r: string)
    ensures |r| <= |s| && r == s[..|r|]
    ensures r == [] || !IsWhitespace(r[|r| - 1])
    ensures forall i :: |r| <= i < |s| ==> IsWhitespace(s[i])
  {
    if s != [] && IsWhitespace(s[|s| - 1]) then TrimEnd(s[..|s| - 1]) else s
  }

  /** Trimming both ends: empty exactly when every character is white space. */
  function Trim(s: string): (r: string)
    ensures r == [] <==> forall i :: 0 <= i < |s| ==> IsWhitespace(s[i])
  {
    var t := TrimStart(s);
    var r := TrimEnd(t);
    assert r == [] ==> forall i :: 0 <= i < |s| ==> IsWhitespace(s[i]) by {
      if r == [] {
        // a trimmed-at-the-start text that trims to nothing at the end is empty
        assert t == [];
      }
    }
    assert r != [] ==> !IsWhitespace(s[|s| - |t|]) by {
      if r != [] {
        assert t[0] == s[|s| - |t|];
      }
    }
    r
  }

  /** The search box's state. */
  class SearchBox {
    var query: string
    var showResults: bool

    /** Results are only ever to be shown for a query of two or more characters. */
    ghost predicate Valid()
      reads this
    {
      showResults ==> |query| >= MinQueryLength
    }

    constructor ()
      ensures Valid()
      ensures query == "" && !showResults
    {
      query := "";
      showResults := false;
    }

    /** Typing into the box. */
    method InputChange(value: string)
      modifies this
      ensures Valid()
      ensures query == value
      ensures showResults <==> |value| >= MinQueryLength
    {
      query := value;
      showResults := |value| >= MinQueryLength;
    }

    /** Clicking a result: the box empties and the dropdown closes. */
    method ResultClick()
      modifies this
      ensures Valid()
      ensures query == "" && !showResults
    {
      showResults := false;
      query := "";
    }

    /** The click listener on the document: a click outside the box closes the dropdown. */
    method ClickOutside()
      modifies this
      ensures Valid()
      ensures !showResults && query == old(query)
    {
      showResults := false;
    }

    /** Submitting the form: the query to search for, if it is not blank; the caller
        navigates to the search page with it. */
    method Submit() returns (target: Option<string>)
      ensures target.Some? <==> exists i :: 0 <= i < |query| && !IsWhitespace(query[i])
      ensures target.Some? ==> target.value == query
    {
      if Trim(query) != [] {
        target := Some(query);
      } else {
        target := None;
      }
    }

    /** The dropdown for the current state: while the state is valid it is
        hidden exactly when results are not to be shown, and it lists at most
        five colleges and five exams. */
    function Dropdown(colleges: seq<College>, exams: seq<Exam>, loadingColleges: bool, loadingExams: bool): (v: DropdownView)
      reads this
      ensures Valid() ==> (v.Hidden? <==> !showResults)
      ensures v.Listing? ==> |v.colleges| <= MaxListed && |v.exams| <= MaxListed
    {
      RenderDropdown(showResults, query, colleges, exams, loadingColleges, loadingExams)
    }

    /** While the state is valid the length guard of the dropdown is implied:
        the dropdown is rendered exactly when results are to be shown. */
    lemma DropdownFollowsShowResults(colleges: seq<College>, exams: seq<Exam>, loadingColleges: bool, loadingExams: bool)
      requires Valid()
      ensures Dropdown(colleges, exams, loadingColleges, loadingExams).Hidden? <==> !showResults
    {
    }
  }
}
