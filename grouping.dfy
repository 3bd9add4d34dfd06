/** The row-to-tree reconstruction of the topic handler: the flat rows of
    "categories left join suggestions" are folded into a list of categories,
    each holding its own list of suggestions. */
module Grouping {
  import opened Records

  /** The category id a row carries; the loop dereferences it. */
  function Key(r: JoinedRow): int {
    r.categoryId.value
  }

  /** The suggestion scanned from the last four columns of a row. */
  function RowSuggestion(r: Row): Suggestion {
    Suggestion(r.suggestionId, r.suggestionName, r.suggestionContent, r.suggestionCategoryId)
  }

  /** What a row adds to its category: its suggestion, when the content is non-null. */
  function Contribution(r: Row): seq<Suggestion> {
    if r.suggestionContent.Some? then [RowSuggestion(r)] else []
  }

  /** The category a row starts when its id has not been seen yet. */
  function NewCategory(r: JoinedRow): Category {
    Category(r.categoryId, r.categoryName, r.topicId, Contribution(r))
  }

  /** The index of the first category with the given id, or |cats| when there is none. */
  function FindCategory(cats: seq<Category>, id: Option<int>): (i: nat)
    ensures i <= |cats|
    ensures i < |cats| ==> cats[i].id == id
    ensures forall j :: 0 <= j < i ==> cats[j].id != id
  {
    if cats == [] then 0
    else if cats[0].id == id then 0
    else 1 + FindCategory(cats[1..], id)
  }

  /** One iteration of the loop: extend the first category with the row's id,
      or append a new category when there is none. */
  function AddRow(cats: seq<Category>, r: JoinedRow): seq<Category> {
    var i := FindCategory(cats, r.categoryId);
    if i < |cats| then cats[i := cats[i].(suggestions := cats[i].suggestions + Contribution(r))]
    else cats + [NewCategory(r)]
  }

  /** The categories the loop builds from the rows, processed in order. */
  function Group(rows: seq<JoinedRow>): seq<Category> {
    if rows == [] then [] else AddRow(Group(rows[..|rows| - 1]), rows[|rows| - 1])
  }

  /** The grouping loop itself: a scan of the rows with an inner search for an
      existing category (the `found` flag and its `break`). */
  method GroupJoinedRows(rows: seq<JoinedRow>) returns (categories: seq<Category>)
    ensures categories == Group(rows)
  {
    categories := [];
    for n := 0 to |rows|
      invariant categories == Group(rows[..n])
    {
      var category := Category(rows[n].categoryId, rows[n].categoryName, rows[n].topicId, []);
      var suggestion := RowSuggestion(rows[n]);
      ghost var before := categories;
      var found := false;
      var i := 0;
      while i < |categories|
        invariant 0 <= i <= |categories|
        invariant !found && categories == before
        invariant forall j :: 0 <= j < i ==> categories[j].id != category.id
      {
        if categories[i].id == category.id {
          if suggestion.content.Some? {
            categories := categories[i := categories[i].(suggestions := categories[i].suggestions + [suggestion])];
          } else {
            assert before[i].(suggestions := before[i].suggestions + []) == before[i];
          }
          assert categories == AddRow(before, rows[n]);
          found := true;
          break;
        }
        i := i + 1;
      }
      if !found {
        if suggestion.content.Some? {
          category := category.(suggestions := category.suggestions + [suggestion]);
          assert category.suggestions == [suggestion];
        }
        assert category == NewCategory(rows[n]);
        categories := categories + [category];
      }
      assert categories == AddRow(before, rows[n]);
      assert rows[..n + 1][..n] == rows[..n] && rows[..n + 1][n] == rows[n];
    }
    assert rows[..|rows|] == rows;
  }

  // ----- Reference definitions, stated without the loop -----

  /** The category ids that occur in the rows. */
  function RowIds(rows: seq<JoinedRow>): set<int> {
    set k | 0 <= k < |rows| :: Key(rows[k])
  }

  /** The index of the first row carrying the given category id. */
  function FirstIndex(rows: seq<JoinedRow>, id: int): (k: nat)
    requires id in RowIds(rows)
    ensures k < |rows| && Key(rows[k]) == id
    ensures forall j :: 0 <= j < k ==> Key(rows[j]) != id
  {
    if Key(rows[0]) == id then 0
    else
      assert id in RowIds(rows[1..]) by {
        var k :| 0 <= k < |rows| && Key(rows[k]) == id;
        assert Key(rows[1..][k - 1]) == id;
      }
      1 + FirstIndex(rows[1..], id)
  }

  /** The suggestions of the rows with the given category id and non-null content, in row order. */
  function SuggestionsFor(rows: seq<JoinedRow>, id: int): seq<Suggestion> {
    if rows == [] then []
    else
      var last := rows[|rows| - 1];
      SuggestionsFor(rows[..|rows| - 1], id) + (if Key(last) == id then Contribution(last) else [])
  }

  /** The category the grouping should emit for an id: its header from the
      first row with that id, its suggestions from all such rows. */
  function Expected(rows: seq<JoinedRow>, id: int): Category
    requires id in RowIds(rows)
  {
    var first := rows[FirstIndex(rows, id)];
    Category(Some(id), first.categoryName, first.topicId, SuggestionsFor(rows, id))
  }

  /** Number of rows whose suggestion content is non-null. */
  function ContentRows(rows: seq<JoinedRow>): nat {
    if rows == [] then 0
    else ContentRows(rows[..|rows| - 1]) + (if rows[|rows| - 1].suggestionContent.Some? then 1 else 0)
  }

  /** Number of suggestions held by all the categories together. */
  function SuggestionTotal(cats: seq<Category>): nat {
    if cats == [] then 0
    else SuggestionTotal(cats[..|cats| - 1]) + |cats[|cats| - 1].suggestions|
  }

  /** Every emitted category is the expected one for a row id. */
  ghost predicate Faithful(rows: seq<JoinedRow>, g: seq<Category>) {
    forall i :: 0 <= i < |g| ==>
      g[i].id.Some? && g[i].id.value in RowIds(rows) && g[i] == Expected(rows, g[i].id.value)
  }

  /** Every row id is emitted. */
  ghost predicate Covers(rows: seq<JoinedRow>, g: seq<Category>) {
    forall id :: id in RowIds(rows) ==> exists i :: 0 <= i < |g| && g[i].id == Some(id)
  }

  /** Emitted categories follow the first occurrence of their ids. */
  ghost predicate Ordered(rows: seq<JoinedRow>, g: seq<Category>)
    requires Faithful(rows, g)
  {
    forall i, j :: 0 <= i < j < |g| ==> FirstIndex(rows, g[i].id.value) < FirstIndex(rows, g[j].id.value)
  }

  /** The invariant of the grouping loop. */
  ghost predicate Shaped(rows: seq<JoinedRow>, g: seq<Category>) {
    Faithful(rows, g) && Covers(rows, g) && Ordered(rows, g)
  }

  // ----- How the reference definitions change when one row is appended -----

  lemma {:induction false} RowIdsSnoc(rows: seq<JoinedRow>, r: JoinedRow)
    ensures RowIds(rows + [r]) == RowIds(rows) + {Key(r)}
  {
    var rs := rows + [r];
    forall id | id in RowIds(rs) ensures id in RowIds(rows) + {Key(r)} {
      var k :| 0 <= k < |rs| && Key(rs[k]) == id;
      if k < |rows| { assert Key(rows[k]) == id; }
    }
    forall id | id in RowIds(rows) ensures id in RowIds(rs) {
      var k :| 0 <= k < |rows| && Key(rows[k]) == id;
      assert Key(rs[k]) == id;
    }
    assert Key(rs[|rows|]) == Key(r);
  }

  lemma {:induction false} FirstIndexSnoc(rows: seq<JoinedRow>, r: JoinedRow, id: int)
    requires id in RowIds(rows + [r])
    ensures id in RowIds(rows) ==> FirstIndex(rows + [r], id) == FirstIndex(rows, id)
    ensures id !in RowIds(rows) ==> FirstIndex(rows + [r], id) == |rows|
  {
    var rs := rows + [r];
    var k := FirstIndex(rs, id);
    if id in RowIds(rows) {
      var k0 := FirstIndex(rows, id);
      assert Key(rs[k0]) == id;
    } else {
      forall j | 0 <= j < |rows| ensures Key(rs[j]) != id {
        assert rs[j] == rows[j];
      }
    }
  }

  lemma {:induction false} SuggestionsForSnoc(rows: seq<JoinedRow>, r: JoinedRow, id: int)
    ensures SuggestionsFor(rows + [r], id)
         == SuggestionsFor(rows, id) + (if Key(r) == id then Contribution(r) else [])
  {
  }

  lemma {:induction false} NoRowsNoSuggestions(rows: seq<JoinedRow>, id: int)
    requires id !in RowIds(rows)
    ensures SuggestionsFor(rows, id) == []
  {
    if rows != [] {
      var init := rows[..|rows| - 1];
      RowIdsSnoc(init, rows[|rows| - 1]);
      assert init + [rows[|rows| - 1]] == rows;
      NoRowsNoSuggestions(init, id);
    }
  }

  /** Appending a row of another category leaves the expected category unchanged. */
  lemma {:induction false} ExpectedSnocOther(rows: seq<JoinedRow>, r: JoinedRow, id: int)
    requires id in RowIds(rows) && Key(r) != id
    ensures id in RowIds(rows + [r])
    ensures Expected(rows + [r], id) == Expected(rows, id)
  {
    RowIdsSnoc(rows, r);
    FirstIndexSnoc(rows, r, id);
    SuggestionsForSnoc(rows, r, id);
  }

  /** Appending a row of the same category extends its suggestions by the row's contribution. */
  lemma {:induction false} ExpectedSnocSame(rows: seq<JoinedRow>, r: JoinedRow)
    requires Key(r) in RowIds(rows)
    ensures Key(r) in RowIds(rows + [r])
    ensures Expected(rows + [r], Key(r))
         == Expected(rows, Key(r)).(suggestions := Expected(rows, Key(r)).suggestions + Contribution(r))
  {
    RowIdsSnoc(rows, r);
    FirstIndexSnoc(rows, r, Key(r));
    SuggestionsForSnoc(rows, r, Key(r));
  }

  /** The first row of a category id is the category it starts. */
  lemma {:induction false} ExpectedNew(rows: seq<JoinedRow>, r: JoinedRow)
    requires Key(r) !in RowIds(rows)
    ensures Key(r) in RowIds(rows + [r])
    ensures Expected(rows + [r], Key(r)) == NewCategory(r)
    ensures FirstIndex(rows + [r], Key(r)) == |rows|
  {
    RowIdsSnoc(rows, r);
    FirstIndexSnoc(rows, r, Key(r));
    SuggestionsForSnoc(rows, r, Key(r));
    NoRowsNoSuggestions(rows, Key(r));
  }

  /** Under the invariant, distinct positions hold distinct ids. */
  lemma {:induction false} ShapedIdsDistinct(rows: seq<JoinedRow>, g: seq<Category>, i: nat, j: nat)
    requires Shaped(rows, g)
    requires i < |g| && j < |g| && i != j
    ensures g[i].id != g[j].id
  {
  }

  lemma {:induction false} FoundFaithful(rows: seq<JoinedRow>, r: JoinedRow, g: seq<Category>)
    requires Shaped(rows, g)
    requires FindCategory(g, r.categoryId) < |g|
    ensures Faithful(rows + [r], AddRow(g, r))
  {
    var rs := rows + [r];
    var i := FindCategory(g, r.categoryId);
    var g' := g[i := g[i].(suggestions := g[i].suggestions + Contribution(r))];
    assert AddRow(g, r) == g';
    assert g[i].id.value == Key(r);
    forall j | 0 <= j < |g'|
      ensures g'[j].id.Some? && g'[j].id.value in RowIds(rs) && g'[j] == Expected(rs, g'[j].id.value)
    {
      if j == i {
        ExpectedSnocSame(rows, r);
      } else {
        ShapedIdsDistinct(rows, g, i, j);
        ExpectedSnocOther(rows, r, g[j].id.value);
      }
    }
  }

  lemma {:induction false} FoundOrdered(rows: seq<JoinedRow>, r: JoinedRow, g: seq<Category>)
    requires Shaped(rows, g)
    requires FindCategory(g, r.categoryId) < |g|
    requires Faithful(rows + [r], AddRow(g, r))
    ensures Ordered(rows + [r], AddRow(g, r))
  {
  }

  lemma {:induction false} FoundCovers(rows: seq<JoinedRow>, r: JoinedRow, g: seq<Category>)
    requires Shaped(rows, g)
    requires FindCategory(g, r.categoryId) < |g|
    ensures Covers(rows + [r], AddRow(g, r))
  {
    var rs, g' := rows + [r], AddRow(g, r);
    assert |g'| == |g| && forall j :: 0 <= j < |g| ==> g'[j].id == g[j].id;
    RowIdsSnoc(rows, r);
    assert Key(r) in RowIds(rows) by {
      var i := FindCategory(g, r.categoryId);
      assert g[i].id.value == Key(r);
    }
    forall id | id in RowIds(rs) ensures exists j :: 0 <= j < |g'| && g'[j].id == Some(id) {
      var j :| 0 <= j < |g| && g[j].id == Some(id);
      assert g'[j].id == Some(id);
    }
  }

  lemma {:induction false} NewNotSeen(rows: seq<JoinedRow>, r: JoinedRow, g: seq<Category>)
    requires Covers(rows, g)
    requires FindCategory(g, r.categoryId) == |g|
    ensures Key(r) !in RowIds(rows)
  {
  }

  lemma {:induction false} NewFaithful(rows: seq<JoinedRow>, r: JoinedRow, g: seq<Category>)
    requires Faithful(rows, g)
    requires Key(r) !in RowIds(rows)
    ensures Faithful(rows + [r], g + [NewCategory(r)])
  {
    var rs, g' := rows + [r], g + [NewCategory(r)];
    ExpectedNew(rows, r);
    forall j | 0 <= j < |g'|
      ensures g'[j].id.Some? && g'[j].id.value in RowIds(rs) && g'[j] == Expected(rs, g'[j].id.value)
    {
      if j < |g| {
        ExpectedSnocOther(rows, r, g[j].id.value);
      }
    }
  }

  lemma {:induction false} NewOrdered(rows: seq<JoinedRow>, r: JoinedRow, g: seq<Category>)
    requires Shaped(rows, g)
    requires Key(r) !in RowIds(rows)
    requires Faithful(rows + [r], g + [NewCategory(r)])
    ensures Ordered(rows + [r], g + [NewCategory(r)])
  {
  }

  lemma {:induction false} NewCovers(rows: seq<JoinedRow>, r: JoinedRow, g: seq<Category>)
    requires Covers(rows, g)
    ensures Covers(rows + [r], g + [NewCategory(r)])
  {
    var rs, g' := rows + [r], g + [NewCategory(r)];
    RowIdsSnoc(rows, r);
    forall id | id in RowIds(rs) ensures exists j :: 0 <= j < |g'| && g'[j].id == Some(id) {
      if id == Key(r) {
        assert g'[|g|].id == Some(id);
      } else {
        var j :| 0 <= j < |g| && g[j].id == Some(id);
        assert g'[j].id == Some(id);
      }
    }
  }

  /** One row preserves the invariant of the grouping loop. */
  lemma {:induction false} StepPreservesShape(rows: seq<JoinedRow>, r: JoinedRow, g: seq<Category>)
    requires Shaped(rows, g)
    ensures Shaped(rows + [r], AddRow(g, r))
  {
    if FindCategory(g, r.categoryId) < |g| {
      FoundFaithful(rows, r, g);
      FoundOrdered(rows, r, g);
      FoundCovers(rows, r, g);
    } else {
      NewNotSeen(rows, r, g);
      assert AddRow(g, r) == g + [NewCategory(r)];
      NewFaithful(rows, r, g);
      NewOrdered(rows, r, g);
      NewCovers(rows, r, g);
    }
  }

  lemma {:induction false} GroupIsShaped(rows: seq<JoinedRow>)
    ensures Shaped(rows, Group(rows))
  {
    if rows != [] {
      var init, r := rows[..|rows| - 1], rows[|rows| - 1];
      assert init + [r] == rows;
      GroupIsShaped(init);
      StepPreservesShape(init, r, Group(init));
    }
  }

  // ----- What the grouping promises -----

  /** Each distinct category id of the rows is emitted exactly once, and
      nothing else is emitted. */
  lemma {:induction false} GroupEmitsEachCategoryOnce(rows: seq<JoinedRow>)
    ensures forall i :: 0 <= i < |Group(rows)| ==>
              Group(rows)[i].id.Some? && Group(rows)[i].id.value in RowIds(rows)
    ensures forall id :: id in RowIds(rows) ==>
              exists i :: 0 <= i < |Group(rows)| && Group(rows)[i].id == Some(id)
    ensures forall i, j :: 0 <= i < j < |Group(rows)| ==> Group(rows)[i].id != Group(rows)[j].id
  {
    GroupIsShaped(rows);
  }

  /** Categories come out in the order of their first row, and take id, name
      and topic id from that row. */
  lemma {:induction false} GroupFollowsFirstOccurrence(rows: seq<JoinedRow>)
    ensures forall i :: 0 <= i < |Group(rows)| ==>
              Group(rows)[i].id.Some? && Group(rows)[i].id.value in RowIds(rows)
    ensures forall i, j :: 0 <= i < j < |Group(rows)| ==>
              FirstIndex(rows, Group(rows)[i].id.value) < FirstIndex(rows, Group(rows)[j].id.value)
    ensures forall i :: 0 <= i < |Group(rows)| ==>
              var first := rows[FirstIndex(rows, Group(rows)[i].id.value)];
              && Group(rows)[i].id == first.categoryId
              && Group(rows)[i].name == first.categoryName
              && Group(rows)[i].topicId == first.topicId
  {
    GroupIsShaped(rows);
  }

  /** Each category holds exactly the suggestions of its own rows with
      non-null content, in row order. */
  lemma {:induction false} GroupCollectsSuggestions(rows: seq<JoinedRow>)
    ensures forall i :: 0 <= i < |Group(rows)| ==>
              Group(rows)[i].id.Some? &&
              Group(rows)[i].suggestions == SuggestionsFor(rows, Group(rows)[i].id.value)
  {
    GroupIsShaped(rows);
  }

  /** A suggestion listed for a category comes from a row of that category
      whose content is non-null. */
  lemma {:induction false} SuggestionsComeFromOwnRows(rows: seq<JoinedRow>, id: int, x: Suggestion)
    requires x in SuggestionsFor(rows, id)
    ensures exists k :: 0 <= k < |rows| && Key(rows[k]) == id
              && rows[k].suggestionContent.Some? && x == RowSuggestion(rows[k])
  {
    var init, last := rows[..|rows| - 1], rows[|rows| - 1];
    if x in SuggestionsFor(init, id) {
      SuggestionsComeFromOwnRows(init, id, x);
      var k :| 0 <= k < |init| && Key(init[k]) == id
              && init[k].suggestionContent.Some? && x == RowSuggestion(init[k]);
      assert rows[k] == init[k];
    }
  }

  /** A category whose rows all have null content (the left join found no
      suggestion) is still emitted, with an empty list. */
  lemma {:induction false} EmptyCategoryIsEmitted(rows: seq<JoinedRow>, id: int)
    requires id in RowIds(rows)
    requires forall k :: 0 <= k < |rows| && Key(rows[k]) == id ==> rows[k].suggestionContent.None?
    ensures exists i :: 0 <= i < |Group(rows)| && Group(rows)[i].id == Some(id)
              && Group(rows)[i].suggestions == []
  {
    GroupIsShaped(rows);
    var i :| 0 <= i < |Group(rows)| && Group(rows)[i].id == Some(id);
    if SuggestionsFor(rows, id) != [] {
      SuggestionsComeFromOwnRows(rows, id, SuggestionsFor(rows, id)[0]);
    }
  }

  lemma {:induction false} TotalUpdate(cats: seq<Category>, i: nat, c: Category)
    requires i < |cats|
    ensures SuggestionTotal(cats[i := c]) + |cats[i].suggestions| == SuggestionTotal(cats) + |c.suggestions|
  {
    var n := |cats| - 1;
    if i == n {
      assert cats[i := c][..n] == cats[..n];
    } else {
      assert cats[i := c][..n] == cats[..n][i := c];
      TotalUpdate(cats[..n], i, c);
    }
  }

  /** The emitted suggestions are exactly as many as the rows with non-null content. */
  lemma {:induction false} GroupSuggestionCount(rows: seq<JoinedRow>)
    ensures SuggestionTotal(Group(rows)) == ContentRows(rows)
  {
    if rows != [] {
      var init, r := rows[..|rows| - 1], rows[|rows| - 1];
      GroupSuggestionCount(init);
      var g := Group(init);
      var i := FindCategory(g, r.categoryId);
      if i < |g| {
        TotalUpdate(g, i, g[i].(suggestions := g[i].suggestions + Contribution(r)));
      } else {
        assert (g + [NewCategory(r)])[..|g|] == g;
      }
    }
  }

  /** A row of a category with non-null content has its suggestion listed
      among that category's suggestions. */
  lemma {:induction false} RowInSuggestionsFor(rows: seq<JoinedRow>, id: int, k: nat)
    requires k < |rows| && Key(rows[k]) == id && rows[k].suggestionContent.Some?
    ensures RowSuggestion(rows[k]) in SuggestionsFor(rows, id)
  {
    var init := rows[..|rows| - 1];
    if k < |rows| - 1 {
      assert init[k] == rows[k];
      RowInSuggestionsFor(init, id, k);
    }
  }

  /** No two rows with non-null content carry the same suggestion, as when
      each suggestion row of the join appears once. */
  ghost predicate DistinctSuggestions(rows: seq<JoinedRow>) {
    forall k1, k2 :: 0 <= k1 < k2 < |rows| && rows[k1].suggestionContent.Some? && rows[k2].suggestionContent.Some?
      ==> RowSuggestion(rows[k1]) != RowSuggestion(rows[k2])
  }

  lemma {:induction false} SuggestionsForDistinct(rows: seq<JoinedRow>, id: int)
    requires DistinctSuggestions(rows)
    ensures forall a, b :: 0 <= a < b < |SuggestionsFor(rows, id)| ==>
              SuggestionsFor(rows, id)[a] != SuggestionsFor(rows, id)[b]
  {
    if rows != [] {
      var init, last := rows[..|rows| - 1], rows[|rows| - 1];
      SuggestionsForDistinct(init, id);
      var before := SuggestionsFor(init, id);
      forall a | 0 <= a < |before| && last.suggestionContent.Some?
        ensures before[a] != RowSuggestion(last)
      {
        SuggestionsComeFromOwnRows(init, id, before[a]);
        var k :| 0 <= k < |init| && Key(init[k]) == id
                && init[k].suggestionContent.Some? && before[a] == RowSuggestion(init[k]);
        assert rows[k] == init[k];
      }
    }
  }

  /** When the rows carry each suggestion once, no category lists a
      suggestion twice. */
  lemma {:induction false} GroupListsEachSuggestionOnce(rows: seq<JoinedRow>)
    requires DistinctSuggestions(rows)
    ensures forall i, a, b :: 0 <= i < |Group(rows)| && 0 <= a < b < |Group(rows)[i].suggestions| ==>
              Group(rows)[i].suggestions[a] != Group(rows)[i].suggestions[b]
  {
    GroupCollectsSuggestions(rows);
    forall i | 0 <= i < |Group(rows)| {
      SuggestionsForDistinct(rows, Group(rows)[i].id.value);
    }
  }
}
