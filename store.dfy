/** The three SQLite tables of the backend and the handlers that read and
    change them. Each table is a map from its integer primary key to the
    remaining columns; each handler's transaction is one atomic method. */
module Store {
  import opened Records
  import Grouping

  /** The largest rowid SQLite can assign; an AUTOINCREMENT table whose
      sequence has reached it refuses further inserts. */
  const MaxRowId: int := 0x7FFF_FFFF_FFFF_FFFF

  datatype TopicRow = TopicRow(name: Option<string>, description: Option<string>)
  datatype CategoryRow = CategoryRow(name: Option<string>, topicId: Option<int>)
  datatype SuggestionRow = SuggestionRow(name: Option<string>, content: Option<string>, categoryId: Option<int>)

  datatype Tables = Tables(
    topics: map<int, TopicRow>,
    categories: map<int, CategoryRow>,
    suggestions: map<int, SuggestionRow>)

  /** A nullable foreign-key column is satisfied by NULL or by an existing parent key. */
  predicate Refers<T>(parent: Option<int>, table: map<int, T>) {
    parent.None? || parent.value in table
  }

  /** The two foreign keys of the schema: categories.topic_id and suggestions.category_id. */
  predicate ForeignKeysHold(t: Tables) {
    && (forall c :: c in t.categories ==> Refers(t.categories[c].topicId, t.topics))
    && (forall s :: s in t.suggestions ==> Refers(t.suggestions[s].categoryId, t.categories))
  }

  /** Every row of r is a row of t, with the same columns. */
  predicate SubTables(r: Tables, t: Tables) {
    && (forall k :: k in r.topics ==> k in t.topics && r.topics[k] == t.topics[k])
    && (forall c :: c in r.categories ==> c in t.categories && r.categories[c] == t.categories[c])
    && (forall s :: s in r.suggestions ==> s in t.suggestions && r.suggestions[s] == t.suggestions[s])
  }

  /** The ids of the categories whose topic_id is the given topic. */
  function CategoriesOf(categories: map<int, CategoryRow>, topic: int): set<int> {
    set c | c in categories && categories[c].topicId == Some(topic)
  }

  /** The suggestions left after those of the given categories are removed. */
  function DropSuggestionsOf(suggestions: map<int, SuggestionRow>, doomed: set<int>): map<int, SuggestionRow> {
    map s | s in suggestions && !(suggestions[s].categoryId.Some? && suggestions[s].categoryId.value in doomed)
      :: suggestions[s]
  }

  /** `delete from topics where id = ?` with ON DELETE CASCADE: the topic's
      categories go with it, and their suggestions with them. The cascade
      fires only when a topic row is actually deleted. */
  function DeleteTopicRow(t: Tables, id: int): Tables {
    if id !in t.topics then t
    else
      var doomed := CategoriesOf(t.categories, id);
      Tables(
        t.topics - {id},
        map c | c in t.categories && c !in doomed :: t.categories[c],
        DropSuggestionsOf(t.suggestions, doomed))
  }

  /** `delete from categories where id = ?`, cascading to its suggestions. */
  function DeleteCategoryRow(t: Tables, id: int): Tables {
    if id !in t.categories then t
    else Tables(t.topics, t.categories - {id}, DropSuggestionsOf(t.suggestions, {id}))
  }

  /** `delete from suggestions where id = ?`; nothing refers to a suggestion. */
  function DeleteSuggestionRow(t: Tables, id: int): Tables {
    Tables(t.topics, t.categories, t.suggestions - {id})
  }

  /** `select * from topics where id = ?` scanned into a Topic; no row is NotFound. */
  function TopicById(t: Tables, id: int): (r: Result<Topic>)
    ensures r.Err? <==> id !in t.topics
    ensures r.Err? ==> r.fault == NotFound
    ensures r.Ok? ==>
      && r.value.id == Some(id)
      && r.value.name == t.topics[id].name
      && r.value.description == t.topics[id].description
  {
    if id in t.topics then Ok(Topic(Some(id), t.topics[id].name, t.topics[id].description))
    else Err(NotFound)
  }

  // ----- Properties of the deletes -----

  /** Deleting a topic removes exactly it, its categories and their
      suggestions: what survives is unchanged and still satisfies the
      foreign keys, and every removed row was the topic or depended on it. */
  lemma {:induction false} DeleteTopicCascades(t: Tables, id: int)
    requires ForeignKeysHold(t)
    ensures var r := DeleteTopicRow(t, id);
      && id !in r.topics
      && ForeignKeysHold(r)
      && SubTables(r, t)
      && (forall k :: k in t.topics && k != id ==> k in r.topics)
      && (forall c :: c in t.categories && t.categories[c].topicId != Some(id) ==> c in r.categories)
      && (forall c :: c in r.categories ==> r.categories[c].topicId != Some(id))
      && (forall s :: s in t.suggestions && s !in r.suggestions ==>
            t.suggestions[s].categoryId.Some? && t.suggestions[s].categoryId.value in t.categories
            && t.suggestions[s].categoryId.value !in r.categories)
      && (forall s :: s in t.suggestions && Refers(t.suggestions[s].categoryId, r.categories) ==> s in r.suggestions)
  {
  }

  /** Deleting a category removes exactly it and its suggestions. */
  lemma {:induction false} DeleteCategoryCascades(t: Tables, id: int)
    requires ForeignKeysHold(t)
    ensures var r := DeleteCategoryRow(t, id);
      && id !in r.categories
      && ForeignKeysHold(r)
      && SubTables(r, t)
      && r.topics == t.topics
      && (forall c :: c in t.categories && c != id ==> c in r.categories)
      && (forall s :: s in r.suggestions ==> r.suggestions[s].categoryId != Some(id))
      && (forall s :: s in t.suggestions && t.suggestions[s].categoryId != Some(id) ==> s in r.suggestions)
  {
  }

  /** Deleting a suggestion removes exactly it and keeps the foreign keys. */
  lemma {:induction false} DeleteSuggestionRemovesOne(t: Tables, id: int)
    requires ForeignKeysHold(t)
    ensures var r := DeleteSuggestionRow(t, id);
      && id !in r.suggestions
      && ForeignKeysHold(r)
      && SubTables(r, t)
      && r.topics == t.topics && r.categories == t.categories
      && (forall s :: s in t.suggestions && s != id ==> s in r.suggestions)
  {
  }

  /** A delete whose id matches no row leaves the tables as they are. */
  lemma {:induction false} DeleteMissingIsNoOp(t: Tables, id: int)
    ensures id !in t.topics ==> DeleteTopicRow(t, id) == t
    ensures id !in t.categories ==> DeleteCategoryRow(t, id) == t
    ensures id !in t.suggestions ==> DeleteSuggestionRow(t, id) == t
  {
  }

  /** Repeating a delete changes nothing more. */
  lemma {:induction false} DeleteIsIdempotent(t: Tables, id: int)
    ensures DeleteTopicRow(DeleteTopicRow(t, id), id) == DeleteTopicRow(t, id)
    ensures DeleteCategoryRow(DeleteCategoryRow(t, id), id) == DeleteCategoryRow(t, id)
    ensures DeleteSuggestionRow(DeleteSuggestionRow(t, id), id) == DeleteSuggestionRow(t, id)
  {
  }

  /** Once a topic is deleted, looking it up fails, and other topics read as before. */
  lemma {:induction false} DeletedTopicIsNotFound(t: Tables, id: int, other: int)
    requires other != id
    ensures TopicById(DeleteTopicRow(t, id), id) == Err(NotFound)
    ensures TopicById(DeleteTopicRow(t, id), other) == TopicById(t, other)
  {
  }

  // ----- The join the topic handler groups -----

  /** The suggestion columns of a join row: all NULL when no stored
      suggestion belongs to the row's category, otherwise the columns of a
      stored suggestion of that category. */
  ghost predicate SuggestionColumns(t: Tables, r: JoinedRow) {
    match r.suggestionId
    case None =>
      && r.suggestionName.None? && r.suggestionContent.None? && r.suggestionCategoryId.None?
      && (forall s :: s in t.suggestions ==> t.suggestions[s].categoryId != r.categoryId)
    case Some(s) =>
      && s in t.suggestions
      && r.suggestionCategoryId == r.categoryId
      && t.suggestions[s] == SuggestionRow(r.suggestionName, r.suggestionContent, r.suggestionCategoryId)
  }

  /** Rows the categories-left-join-suggestions query can return for a
      topic, in any order: each row belongs to a category of that topic and
      carries that category's stored columns; every category of the topic
      shows up in some row; the suggestion columns are those of a stored
      suggestion of the row's category, or all NULL when the category has
      none; and every suggestion of the topic's categories appears in
      exactly one row. */
  ghost predicate JoinOf(t: Tables, topic: int, rows: seq<JoinedRow>) {
    && (forall k :: 0 <= k < |rows| ==>
          Grouping.Key(rows[k]) in CategoriesOf(t.categories, topic)
          && rows[k].categoryName == t.categories[Grouping.Key(rows[k])].name
          && rows[k].topicId == Some(topic)
          && SuggestionColumns(t, rows[k]))
    && (forall c :: c in CategoriesOf(t.categories, topic) ==>
          exists k :: 0 <= k < |rows| && Grouping.Key(rows[k]) == c)
    && (forall s ::
          (s in t.suggestions && t.suggestions[s].categoryId.Some?
           && t.suggestions[s].categoryId.value in CategoriesOf(t.categories, topic)) ==>
          exists k :: 0 <= k < |rows| && rows[k].suggestionId == Some(s))
    && (forall k1, k2 :: 0 <= k1 < k2 < |rows| && rows[k1].suggestionId.Some? ==>
          rows[k1].suggestionId != rows[k2].suggestionId)
  }

  /** The stored suggestions of a category that have non-null content, as
      the records the handler sends. */
  function StoredSuggestions(t: Tables, c: int): set<Suggestion> {
    set s | s in t.suggestions && t.suggestions[s].categoryId == Some(c) && t.suggestions[s].content.Some?
      :: Suggestion(Some(s), t.suggestions[s].name, t.suggestions[s].content, Some(c))
  }

  /** Grouping such rows lists each category of the topic exactly once,
      with its stored name and topic id. */
  lemma {:induction false} TreeListsTopicCategories(t: Tables, topic: int, rows: seq<JoinedRow>)
    requires JoinOf(t, topic, rows)
    ensures var g := Grouping.Group(rows);
      && (forall i :: 0 <= i < |g| ==>
            g[i].id.Some? && g[i].id.value in CategoriesOf(t.categories, topic)
            && g[i].name == t.categories[g[i].id.value].name
            && g[i].topicId == Some(topic))
      && (forall c :: c in CategoriesOf(t.categories, topic) ==>
            exists i :: 0 <= i < |g| && g[i].id == Some(c))
      && (forall i, j :: 0 <= i < j < |g| ==> g[i].id != g[j].id)
  {
    var g := Grouping.Group(rows);
    Grouping.GroupEmitsEachCategoryOnce(rows);
    Grouping.GroupFollowsFirstOccurrence(rows);
    forall c | c in CategoriesOf(t.categories, topic) ensures c in Grouping.RowIds(rows) {
      var k :| 0 <= k < |rows| && Grouping.Key(rows[k]) == c;
    }
    forall i | 0 <= i < |g|
      ensures g[i].id.value in CategoriesOf(t.categories, topic)
      ensures g[i].name == t.categories[g[i].id.value].name && g[i].topicId == Some(topic)
    {
      var k := Grouping.FirstIndex(rows, g[i].id.value);
      assert rows[k].categoryId == g[i].id;
    }
  }

  /** The join carries each suggestion in one row only. */
  lemma {:induction false} JoinRowsAreDistinct(t: Tables, topic: int, rows: seq<JoinedRow>)
    requires JoinOf(t, topic, rows)
    ensures Grouping.DistinctSuggestions(rows)
  {
  }

  /** A suggestion grouped under a category is a stored suggestion of it. */
  lemma {:induction false} ListedIsStored(t: Tables, topic: int, rows: seq<JoinedRow>, c: int, x: Suggestion)
    requires JoinOf(t, topic, rows)
    requires x in Grouping.SuggestionsFor(rows, c)
    ensures x in StoredSuggestions(t, c)
  {
    Grouping.SuggestionsComeFromOwnRows(rows, c, x);
    var k :| 0 <= k < |rows| && Grouping.Key(rows[k]) == c
             && rows[k].suggestionContent.Some? && x == Grouping.RowSuggestion(rows[k]);
    assert SuggestionColumns(t, rows[k]);
    var s := rows[k].suggestionId.value;
    assert x == Suggestion(Some(s), t.suggestions[s].name, t.suggestions[s].content, Some(c));
  }

  /** A stored suggestion of a category of the topic is grouped under it. */
  lemma {:induction false} StoredIsListed(t: Tables, topic: int, rows: seq<JoinedRow>, c: int, x: Suggestion)
    requires JoinOf(t, topic, rows)
    requires c in CategoriesOf(t.categories, topic)
    requires x in StoredSuggestions(t, c)
    ensures x in Grouping.SuggestionsFor(rows, c)
  {
    var s :| s in t.suggestions && t.suggestions[s].categoryId == Some(c) && t.suggestions[s].content.Some?
             && x == Suggestion(Some(s), t.suggestions[s].name, t.suggestions[s].content, Some(c));
    var k :| 0 <= k < |rows| && rows[k].suggestionId == Some(s);
    assert SuggestionColumns(t, rows[k]);
    Grouping.RowInSuggestionsFor(rows, c, k);
  }

  /** Grouping such rows gives each category exactly its stored suggestions
      with non-null content, each listed once (in the order the join happens
      to return them). */
  lemma {:induction false} TreeHoldsStoredSuggestions(t: Tables, topic: int, rows: seq<JoinedRow>)
    requires JoinOf(t, topic, rows)
    ensures var g := Grouping.Group(rows);
      forall i :: 0 <= i < |g| ==>
        && g[i].id.Some?
        && (forall x :: x in g[i].suggestions <==> x in StoredSuggestions(t, g[i].id.value))
        && (forall a, b :: 0 <= a < b < |g[i].suggestions| ==> g[i].suggestions[a] != g[i].suggestions[b])
  {
    var g := Grouping.Group(rows);
    TreeListsTopicCategories(t, topic, rows);
    Grouping.GroupCollectsSuggestions(rows);
    JoinRowsAreDistinct(t, topic, rows);
    Grouping.GroupListsEachSuggestionOnce(rows);
    forall i, x | 0 <= i < |g|
      ensures x in g[i].suggestions <==> x in StoredSuggestions(t, g[i].id.value)
    {
      if x in g[i].suggestions {
        ListedIsStored(t, topic, rows, g[i].id.value, x);
      }
      if x in StoredSuggestions(t, g[i].id.value) {
        StoredIsListed(t, topic, rows, g[i].id.value, x);
      }
    }
  }

  /** The ids an AUTOINCREMENT table has assigned: the live keys are among
      them, and all lie between 1 and the table's sequence value. */
  ghost predicate Issued(keys: set<int>, ids: set<int>, seqValue: int) {
    && 0 <= seqValue <= MaxRowId
    && keys <= ids
    && (forall k :: k in ids ==> 1 <= k <= seqValue)
  }

  // ----- The database -----

  /** The SQLite database: the three tables and, per table, the
      AUTOINCREMENT sequence (the largest id ever assigned). The ghost sets
      record every id ever assigned, including ids of deleted rows. */
  class Database {
    var topics: map<int, TopicRow>
    var categories: map<int, CategoryRow>
    var suggestions: map<int, SuggestionRow>
    var topicSeq: int
    var categorySeq: int
    var suggestionSeq: int
    ghost var topicIds: set<int>
    ghost var categoryIds: set<int>
    ghost var suggestionIds: set<int>

    function State(): Tables
      reads this
    {
      Tables(topics, categories, suggestions)
    }

    ghost predicate Valid()
      reads this
    {
      && ForeignKeysHold(State())
      && Issued(topics.Keys, topicIds, topicSeq)
      && Issued(categories.Keys, categoryIds, categorySeq)
      && Issued(suggestions.Keys, suggestionIds, suggestionSeq)
    }

    /** A freshly created database: empty tables, unused sequences. */
    constructor ()
      ensures Valid()
      ensures State() == Tables(map[], map[], map[])
      ensures topicSeq == 0 && categorySeq == 0 && suggestionSeq == 0
      ensures topicIds == {} && categoryIds == {} && suggestionIds == {}
    {
      topics, categories, suggestions := map[], map[], map[];
      topicSeq, categorySeq, suggestionSeq := 0, 0, 0;
      topicIds, categoryIds, suggestionIds := {}, {}, {};
    }

    /** The createTopic transaction: insert name and description, read back
        the new rowid, return the input with that id. */
    method CreateTopic(input: Topic) returns (r: Result<Topic>)
      requires Valid()
      modifies this
      ensures Valid()
      ensures r.Err? <==> old(topicSeq) == MaxRowId
      ensures r.Err? ==> r.fault == Full && State() == old(State()) && topicSeq == old(topicSeq)
                         && topicIds == old(topicIds)
      ensures r.Ok? ==>
        && r.value == input.(id := Some(old(topicSeq) + 1))
        && r.value.id.value !in old(topicIds)
        && (forall k :: k in old(topicIds) ==> k < r.value.id.value)
        && topicSeq == r.value.id.value
        && topicIds == old(topicIds) + {r.value.id.value}
        && topics == old(topics)[r.value.id.value := TopicRow(input.name, input.description)]
        && TopicById(State(), r.value.id.value) == Ok(r.value)
      ensures categories == old(categories) && suggestions == old(suggestions)
      ensures categorySeq == old(categorySeq) && suggestionSeq == old(suggestionSeq)
      ensures categoryIds == old(categoryIds) && suggestionIds == old(suggestionIds)
    {
      if topicSeq == MaxRowId {
        return Err(Full);
      }
      var id := topicSeq + 1;
      topicSeq := id;
      topics := topics[id := TopicRow(input.name, input.description)];
      topicIds := topicIds + {id};
      r := Ok(input.(id := Some(id)));
    }

    /** The createCategory transaction: insert name and topic_id, checked
        against the topics table; return the input with the new id. */
    method CreateCategory(input: Category) returns (r: Result<Category>)
      requires Valid()
      modifies this
      ensures Valid()
      ensures r.Err? <==> old(categorySeq) == MaxRowId || !Refers(input.topicId, old(topics))
      ensures r == Err(Full) <==> old(categorySeq) == MaxRowId
      ensures r == Err(ConstraintViolation) <==>
                old(categorySeq) < MaxRowId && !Refers(input.topicId, old(topics))
      ensures r.Err? ==> State() == old(State()) && categorySeq == old(categorySeq)
                         && categoryIds == old(categoryIds)
      ensures r.Ok? ==>
        && r.value == input.(id := Some(old(categorySeq) + 1))
        && r.value.id.value !in old(categoryIds)
        && (forall k :: k in old(categoryIds) ==> k < r.value.id.value)
        && categorySeq == r.value.id.value
        && categoryIds == old(categoryIds) + {r.value.id.value}
        && categories == old(categories)[r.value.id.value := CategoryRow(input.name, input.topicId)]
      ensures topics == old(topics) && suggestions == old(suggestions)
      ensures topicSeq == old(topicSeq) && suggestionSeq == old(suggestionSeq)
      ensures topicIds == old(topicIds) && suggestionIds == old(suggestionIds)
    {
      if categorySeq == MaxRowId {
        return Err(Full);
      }
      if input.topicId.Some? && input.topicId.value !in topics {
        return Err(ConstraintViolation);
      }
      var id := categorySeq + 1;
      categorySeq := id;
      categories := categories[id := CategoryRow(input.name, input.topicId)];
      categoryIds := categoryIds + {id};
      r := Ok(input.(id := Some(id)));
    }

    /** The createSuggestion transaction: insert name, content and
        category_id, checked against the categories table; return the input
        with the new id. */
    method CreateSuggestion(input: Suggestion) returns (r: Result<Suggestion>)
      requires Valid()
      modifies this
      ensures Valid()
      ensures r.Err? <==> old(suggestionSeq) == MaxRowId || !Refers(input.categoryId, old(categories))
      ensures r == Err(Full) <==> old(suggestionSeq) == MaxRowId
      ensures r == Err(ConstraintViolation) <==>
                old(suggestionSeq) < MaxRowId && !Refers(input.categoryId, old(categories))
      ensures r.Err? ==> State() == old(State()) && suggestionSeq == old(suggestionSeq)
                         && suggestionIds == old(suggestionIds)
      ensures r.Ok? ==>
        && r.value == input.(id := Some(old(suggestionSeq) + 1))
        && r.value.id.value !in old(suggestionIds)
        && (forall k :: k in old(suggestionIds) ==> k < r.value.id.value)
        && suggestionSeq == r.value.id.value
        && suggestionIds == old(suggestionIds) + {r.value.id.value}
        && suggestions == old(suggestions)[r.value.id.value :=
             SuggestionRow(input.name, input.content, input.categoryId)]
      ensures topics == old(topics) && categories == old(categories)
      ensures topicSeq == old(topicSeq) && categorySeq == old(categorySeq)
      ensures topicIds == old(topicIds) && categoryIds == old(categoryIds)
    {
      if suggestionSeq == MaxRowId {
        return Err(Full);
      }
      if input.categoryId.Some? && input.categoryId.value !in categories {
        return Err(ConstraintViolation);
      }
      var id := suggestionSeq + 1;
      suggestionSeq := id;
      suggestions := suggestions[id := SuggestionRow(input.name, input.content, input.categoryId)];
      suggestionIds := suggestionIds + {id};
      r := Ok(input.(id := Some(id)));
    }

    /** The deleteTopic transaction. */
    method DeleteTopic(id: int)
      requires Valid()
      modifies this
      ensures Valid()
      ensures State() == DeleteTopicRow(old(State()), id)
      ensures topicSeq == old(topicSeq) && categorySeq == old(categorySeq) && suggestionSeq == old(suggestionSeq)
      ensures topicIds == old(topicIds) && categoryIds == old(categoryIds) && suggestionIds == old(suggestionIds)
    {
      DeleteTopicCascades(State(), id);
      var after := DeleteTopicRow(State(), id);
      topics, categories, suggestions := after.topics, after.categories, after.suggestions;
    }

    /** The deleteCategory transaction. */
    method DeleteCategory(id: int)
      requires Valid()
      modifies this
      ensures Valid()
      ensures State() == DeleteCategoryRow(old(State()), id)
      ensures topicSeq == old(topicSeq) && categorySeq == old(categorySeq) && suggestionSeq == old(suggestionSeq)
      ensures topicIds == old(topicIds) && categoryIds == old(categoryIds) && suggestionIds == old(suggestionIds)
    {
      DeleteCategoryCascades(State(), id);
      var after := DeleteCategoryRow(State(), id);
      topics, categories, suggestions := after.topics, after.categories, after.suggestions;
    }

    /** The deleteSuggestion transaction. */
    method DeleteSuggestion(id: int)
      requires Valid()
      modifies this
      ensures Valid()
      ensures State() == DeleteSuggestionRow(old(State()), id)
      ensures topicSeq == old(topicSeq) && categorySeq == old(categorySeq) && suggestionSeq == old(suggestionSeq)
      ensures topicIds == old(topicIds) && categoryIds == old(categoryIds) && suggestionIds == old(suggestionIds)
    {
      suggestions := suggestions - {id};
    }

    /** The getTopics handler: a scan of the topics table in rowid order,
        each row scanned into a Topic. */
    method GetTopics() returns (list: seq<Topic>)
      requires Valid()
      ensures forall i :: 0 <= i < |list| ==>
                list[i].id.Some? && TopicById(State(), list[i].id.value) == Ok(list[i])
      ensures forall k :: k in topics ==> exists i :: 0 <= i < |list| && list[i].id == Some(k)
      ensures forall i, j :: 0 <= i < j < |list| ==> list[i].id.value < list[j].id.value
    {
      list := [];
      var k := 1;
      while k <= topicSeq
        invariant 1 <= k <= topicSeq + 1
        invariant forall i :: 0 <= i < |list| ==>
                    list[i].id.Some? && list[i].id.value < k
                    && TopicById(State(), list[i].id.value) == Ok(list[i])
        invariant forall key :: key in topics && key < k ==>
                    exists i :: 0 <= i < |list| && list[i].id == Some(key)
        invariant forall i, j :: 0 <= i < j < |list| ==> list[i].id.value < list[j].id.value
        decreases topicSeq + 1 - k
      {
        ghost var prev := list;
        if k in topics {
          list := list + [Topic(Some(k), topics[k].name, topics[k].description)];
        }
        forall key | key in topics && key < k + 1
          ensures exists i :: 0 <= i < |list| && list[i].id == Some(key)
        {
          if key == k {
            assert list[|list| - 1].id == Some(key);
          } else {
            var i :| 0 <= i < |prev| && prev[i].id == Some(key);
            assert list[i] == prev[i];
          }
        }
        k := k + 1;
      }
    }

    /** The getSuggestionsForTopic handler: look the topic up, then group
        the rows of the join. A missing topic is NotFound. */
    method GetTopicTree(id: int, rows: seq<JoinedRow>) returns (r: Result<TopicResponse>)
      ensures r.Err? <==> id !in topics
      ensures r.Err? ==> r.fault == NotFound
      ensures r.Ok? ==>
        && Ok(r.value.topic) == TopicById(State(), id)
        && r.value.categories == Grouping.Group(rows)
    {
      var topic := TopicById(State(), id);
      if topic.Err? {
        return Err(NotFound);
      }
      var categories := Grouping.GroupJoinedRows(rows);
      r := Ok(TopicResponse(topic.value, categories));
    }
  }
}
