/**
 * The education page's client-side filter. The catalog the page fetched is
 * narrowed by the category picker, then the difficulty picker (`'all'` in
 * either means no narrowing), then by a case-insensitive search over the
 * title, the summary and the tags. "Clear Filters" puts the three back to
 * `'all'`, `'all'` and the empty search.
 */
module EducationCenter {
  import opened Seqs
  import opened Text
  import opened EducationContentModel

  /** The value of the "All Topics" and "All Levels" options. */
  const AllOption: string := "all"

  function InCategory(selected: string): ArticleCard -> bool {
    (item: ArticleCard) => CategoryName(item.category) == selected
  }

  function AtDifficulty(selected: string): ArticleCard -> bool {
    (item: ArticleCard) => DifficultyName(item.difficulty) == selected
  }

  /** Some tag contains `search` once lowercased. */
  predicate TagMentions(tags: seq<string>, search: string) {
    exists i :: 0 <= i < |tags| && Includes(Lower(tags[i]), search)
  }

  /** The search test for an already lowercased term. */
  function Mentions(search: string): ArticleCard -> bool {
    (item: ArticleCard) =>
      || Includes(Lower(item.title), search)
      || Includes(Lower(item.summary), search)
      || TagMentions(item.tags, search)
  }

  /** Whether an item survives the three pickers, stated on its own rather than as a chain of filters. */
  predicate Shown(selectedCategory: string, selectedDifficulty: string, searchTerm: string, item: ArticleCard) {
    && (selectedCategory == AllOption || CategoryName(item.category) == selectedCategory)
    && (selectedDifficulty == AllOption || DifficultyName(item.difficulty) == selectedDifficulty)
    && (searchTerm == "" || Mentions(Lower(searchTerm))(item))
  }

  /** `filterContent()`: each picker that is set rebinds `filtered` to a filtered copy. */
  function FilterContent(content: seq<ArticleCard>, selectedCategory: string, selectedDifficulty: string,
                         searchTerm: string): (r: seq<ArticleCard>)
    ensures |r| <= |content|
    ensures forall item :: item in r <==> item in content && Shown(selectedCategory, selectedDifficulty, searchTerm, item)
  {
    var filtered := content;
    var filtered := if selectedCategory != AllOption then Filter(filtered, InCategory(selectedCategory)) else filtered;
    var filtered := if selectedDifficulty != AllOption then Filter(filtered, AtDifficulty(selectedDifficulty)) else filtered;
    if searchTerm != "" then Filter(filtered, Mentions(Lower(searchTerm))) else filtered
  }

  /** The shown list keeps the fetched order: it is the catalog with some cards deleted. */
  lemma {:induction false} FilterContentIsSubsequence(content: seq<ArticleCard>, selectedCategory: string,
                                                      selectedDifficulty: string, searchTerm: string)
    ensures IsSubsequence(FilterContent(content, selectedCategory, selectedDifficulty, searchTerm), content)
  {
    var f1 := if selectedCategory != AllOption then Filter(content, InCategory(selectedCategory)) else content;
    if selectedCategory != AllOption {
      FilterIsSubsequence(content, InCategory(selectedCategory));
    } else {
      SubsequenceRefl(content);
    }
    var f2 := if selectedDifficulty != AllOption then Filter(f1, AtDifficulty(selectedDifficulty)) else f1;
    if selectedDifficulty != AllOption {
      FilterIsSubsequence(f1, AtDifficulty(selectedDifficulty));
      SubsequenceTrans(f2, f1, content);
    }
    if searchTerm != "" {
      FilterIsSubsequence(f2, Mentions(Lower(searchTerm)));
      SubsequenceTrans(Filter(f2, Mentions(Lower(searchTerm))), f2, content);
    }
  }

  /** After "Clear Filters" the page shows the whole catalog, in its order. */
  lemma ClearFiltersShowsAll(content: seq<ArticleCard>)
    ensures FilterContent(content, AllOption, AllOption, "") == content
  {
  }

  /** Typing the search in any case gives the same list as typing it in lower case. */
  lemma {:induction false} SearchIgnoresCase(content: seq<ArticleCard>, selectedCategory: string,
                                             selectedDifficulty: string, searchTerm: string)
    ensures FilterContent(content, selectedCategory, selectedDifficulty, searchTerm)
         == FilterContent(content, selectedCategory, selectedDifficulty, Lower(searchTerm))
  {
    LowerIdempotent(searchTerm);
    assert (searchTerm == "") == (Lower(searchTerm) == "");
  }

  /**
   * A card whose title contains the search term, in whatever case, is shown
   * as long as the two pickers let it through.
   */
  lemma TitleMatchShown(content: seq<ArticleCard>, selectedCategory: string, selectedDifficulty: string,
                        searchTerm: string, item: ArticleCard)
    requires item in content && Includes(item.title, searchTerm)
    requires selectedCategory == AllOption || CategoryName(item.category) == selectedCategory
    requires selectedDifficulty == AllOption || DifficultyName(item.difficulty) == selectedDifficulty
    ensures item in FilterContent(content, selectedCategory, selectedDifficulty, searchTerm)
  {
    LowerKeepsIncludes(item.title, searchTerm);
  }

  /** An unknown category value (one no option offers) empties the list. */
  lemma UnknownCategoryShowsNothing(content: seq<ArticleCard>, selectedCategory: string,
                                    selectedDifficulty: string, searchTerm: string)
    requires selectedCategory != AllOption && ParseCategory(selectedCategory).None?
    ensures FilterContent(content, selectedCategory, selectedDifficulty, searchTerm) == []
  {
    forall item | item in content ensures !Shown(selectedCategory, selectedDifficulty, searchTerm, item) {
      ParseCategoryName(item.category);
    }
  }
}
