/** The frequently-asked-questions accordion (src/app/Components/FAQ.tsx):
    a row of category buttons filters a constant list of questions, and
    clicking a question opens its answer, closing whichever was open. */
module Faq {
  import opened Common

  datatype Category = Category(id: string, name: string)

  datatype FaqEntry = FaqEntry(question: string, category: string)

  /** The category id that shows every question. */
  const AllId: string := "all"

  /** The category buttons: "all" first, then four categories, no id twice. */
  function Categories(): (cs: seq<Category>)
    ensures |cs| == 5 && cs[0].id == AllId
    ensures forall i, j :: 0 <= i < j < |cs| ==> cs[i].id != cs[j].id
  {
    [ Category(AllId, "All"),
      Category("admissions", "Admissions"),
      Category("process", "Process"),
      Category("support", "Support"),
      Category("benefits", "Benefits") ]
  }

  /** The constant questions (their answers are not carried): seven, no question twice. */
  function Faqs(): (fs: seq<FaqEntry>)
    ensures |fs| == 7
    ensures forall i, j :: 0 <= i < j < |fs| ==> fs[i].question != fs[j].question
  {
    [ FaqEntry("What services does Alpha World Education provide?", "benefits"),
      FaqEntry("How do I apply through Alpha World Education?", "process"),
      FaqEntry("Which countries can I study in?", "admissions"),
      FaqEntry("What are the eligibility requirements?", "admissions"),
      FaqEntry("Do you help with scholarships?", "benefits"),
      FaqEntry("How long does the process take?", "process"),
      FaqEntry("What support do you provide after admission?", "support") ]
  }

  /** The questions of one category, in list order. */
  function FilterByCategory(faqs: seq<FaqEntry>, category: string): (r: seq<FaqEntry>)
    ensures |r| <= |faqs|
    ensures forall i :: 0 <= i < |r| ==> r[i].category == category
  {
    if faqs == [] then []
    else if faqs[0].category == category then [faqs[0]] + FilterByCategory(faqs[1..], category)
    else FilterByCategory(faqs[1..], category)
  }

  /** The filter keeps exactly the questions of the category: each one as
      often as it occurs in the list, in the list's order, and nothing else. */
  lemma {:induction false} FilterIsExact(faqs: seq<FaqEntry>, category: string)
    ensures IsSubsequence(FilterByCategory(faqs, category), faqs)
    ensures forall f ::
      multiset(FilterByCategory(faqs, category))[f] == (if f.category == category then multiset(faqs)[f] else 0)
  {
    if faqs != [] {
      var rest := FilterByCategory(faqs[1..], category);
      FilterIsExact(faqs[1..], category);
      assert faqs == [faqs[0]] + faqs[1..];
      if faqs[0].category == category {
        assert FilterByCategory(faqs, category)[1..] == rest;
      } else {
        SubsequenceOfTail(rest, faqs);
      }
    }
  }

  /** The questions listed for the selected category: all of them for "all",
      otherwise those of the category. */
  function FilteredFaqs(faqs: seq<FaqEntry>, active: string): (r: seq<FaqEntry>)
    ensures active == AllId ==> r == faqs
    ensures active != AllId ==> r == FilterByCategory(faqs, active)
  {
    if active == AllId then faqs else FilterByCategory(faqs, active)
  }

  /** A category that no question carries filters to an empty list, and
      (unless it is "all") shows an empty list. */
  lemma {:induction false} UnusedCategoryIsEmpty(faqs: seq<FaqEntry>, category: string)
    requires forall i :: 0 <= i < |faqs| ==> faqs[i].category != category
    ensures FilterByCategory(faqs, category) == []
    ensures category != AllId ==> FilteredFaqs(faqs, category) == []
  {
    if faqs != [] {
      UnusedCategoryIsEmpty(faqs[1..], category);
    }
  }

  /** The ids of the category buttons, in order. */
  function CategoryIds(): (ids: seq<string>)
    ensures |ids| == |Categories()|
    ensures forall i :: 0 <= i < |ids| ==> ids[i] == Categories()[i].id
  {
    seq(|Categories()|, i requires 0 <= i < |Categories()| => Categories()[i].id)
  }

  /** The number of questions listed under each of `ids`, added up. */
  function SizesSum(faqs: seq<FaqEntry>, ids: seq<string>): nat
  {
    if ids == [] then 0 else |FilterByCategory(faqs, ids[0])| + SizesSum(faqs, ids[1..])
  }

  /** How often `id` occurs in `ids`. */
  function Occurrences(ids: seq<string>, id: string): nat
  {
    if ids == [] then 0 else (if ids[0] == id then 1 else 0) + Occurrences(ids[1..], id)
  }

  lemma {:induction false} SizesSumOfNone(ids: seq<string>)
    ensures SizesSum([], ids) == 0
  {
    if ids != [] {
      SizesSumOfNone(ids[1..]);
    }
  }

  /** The first question adds one to the sum for each time its category is listed. */
  lemma {:induction false} SizesSumStep(faqs: seq<FaqEntry>, ids: seq<string>)
    requires faqs != []
    ensures SizesSum(faqs, ids) == SizesSum(faqs[1..], ids) + Occurrences(ids, faqs[0].category)
  {
    if ids != [] {
      SizesSumStep(faqs, ids[1..]);
    }
  }

  lemma {:induction false} DistinctMemberOccursOnce(ids: seq<string>, id: string)
    requires id in ids
    requires forall i, j :: 0 <= i < j < |ids| ==> ids[i] != ids[j]
    ensures Occurrences(ids, id) == 1
  {
    if ids[0] == id {
      NotMemberOccursNever(ids[1..], id);
    } else {
      DistinctMemberOccursOnce(ids[1..], id);
    }
  }

  lemma {:induction false} NotMemberOccursNever(ids: seq<string>, id: string)
    requires id !in ids
    ensures Occurrences(ids, id) == 0
  {
    if ids != [] {
      NotMemberOccursNever(ids[1..], id);
    }
  }

  /** When every question's category is one of a list of distinct ids, the
      filtered lists for those ids together hold every question exactly once:
      their sizes add up to the number of questions. */
  lemma {:induction false} FilterSizesSum(faqs: seq<FaqEntry>, ids: seq<string>)
    requires forall i :: 0 <= i < |faqs| ==> faqs[i].category in ids
    requires forall i, j :: 0 <= i < j < |ids| ==> ids[i] != ids[j]
    ensures SizesSum(faqs, ids) == |faqs|
  {
    if faqs == [] {
      SizesSumOfNone(ids);
    } else {
      SizesSumStep(faqs, ids);
      DistinctMemberOccursOnce(ids, faqs[0].category);
      FilterSizesSum(faqs[1..], ids);
    }
  }

  /** For the constant data, every question belongs to one of the four
      categories after "all". */
  lemma ConstantQuestionsAreCategorised()
    ensures |Faqs()| == 7
    ensures forall i :: 0 <= i < |Faqs()| ==> Faqs()[i].category in CategoryIds()[1..]
  {
    var ids := ["admissions", "process", "support", "benefits"];
    assert CategoryIds()[1..] == ids;
    assert forall i :: 0 <= i < |Faqs()| ==> Faqs()[i].category in ids;
  }

  /** For the constant data, the four filtered lists together hold each of
      the seven questions exactly once. */
  lemma ConstantCategoriesPartition()
    ensures SizesSum(Faqs(), CategoryIds()[1..]) == |Faqs()|
  {
    var ids := CategoryIds()[1..];
    assert ids == ["admissions", "process", "support", "benefits"];
    assert forall i :: 0 <= i < |Faqs()| ==> Faqs()[i].category in ids;
    FilterSizesSum(Faqs(), ids);
  }

  /** No question of the constant data is labelled "all": the "all" button
      lists every question only through its special case. */
  lemma ConstantAllNeedsSpecialCase()
    ensures FilterByCategory(Faqs(), AllId) == []
    ensures FilteredFaqs(Faqs(), AllId) == Faqs()
  {
    assert forall i :: 0 <= i < |Faqs()| ==> Faqs()[i].category != AllId;
    UnusedCategoryIsEmpty(Faqs(), AllId);
  }

  /** The accordion's state: the selected category and the open question. */
  class Accordion {
    const faqs: seq<FaqEntry>
    var openIndex: Option<nat>
    var activeCategory: string

    /** The open index, when there is one, names a question of the shown list. */
    ghost predicate Valid()
      reads this
    {
      openIndex.Some? ==> openIndex.value < |Shown()|
    }

    /** The questions currently listed: all of them under "all", otherwise
        only those of the selected category. */
    function Shown(): (r: seq<FaqEntry>)
      reads this
      ensures |r| <= |faqs|
      ensures activeCategory == AllId ==> r == faqs
      ensures activeCategory != AllId ==> forall i :: 0 <= i < |r| ==> r[i].category == activeCategory
    {
      FilteredFaqs(faqs, activeCategory)
    }

    /** Whether the answer at `index` is shown. */
    predicate IsOpen(index: nat)
      reads this
      ensures IsOpen(index) ==> openIndex.Some?
      ensures Valid() && IsOpen(index) ==> index < |Shown()|
    {
      openIndex == Some(index)
    }

    /** Initially no answer is open and "all" is selected, over the constant list. */
    constructor ()
      ensures Valid()
      ensures faqs == Faqs() && openIndex == None && activeCategory == AllId
      ensures Shown() == Faqs()
    {
      faqs := Faqs();
      openIndex := None;
      activeCategory := AllId;
    }

    /** A category button: select it and close any open answer. */
    method SelectCategory(id: string)
      modifies this
      ensures Valid()
      ensures activeCategory == id && openIndex == None
      ensures forall i :: !IsOpen(i)
    {
      activeCategory := id;
      openIndex := None;
    }

    /** A question button: closes the question if it is open, otherwise opens
        it and closes the one that was open. */
    method Toggle(index: nat)
      requires Valid()
      requires index < |Shown()|
      modifies this
      ensures Valid()
      ensures activeCategory == old(activeCategory)
      ensures old(IsOpen(index)) ==> openIndex == None
      ensures !old(IsOpen(index)) ==> openIndex == Some(index)
      ensures forall i :: IsOpen(i) <==> i == index && !old(IsOpen(index))
    {
      openIndex := if openIndex == Some(index) then None else Some(index);
    }

    /** At most one answer is shown at a time. */
    lemma AtMostOneOpen(i: nat, j: nat)
      requires IsOpen(i) && IsOpen(j)
      ensures i == j
    {
    }
  }
}
