/** The topic page of the Angular client: the categories of one topic, each
    with its suggestions, and the two forms that create a category and a
    suggestion. Categories are objects the page mutates in place (a created
    suggestion is pushed onto one category's list), so they are a class;
    suggestions and topics are never mutated and are values. */
module TopicView {
  import Records

  datatype Suggestion = Suggestion(id: int, content: string, name: string, categoryId: int)

  datatype Topic = Topic(name: string, description: string, id: int)

  /** A category as the page holds it. */
  class CategoryEntry {
    const id: int
    const name: string
    const topicId: int
    var suggestions: seq<Suggestion>

    constructor (id: int, name: string, topicId: int, suggestions: seq<Suggestion>)
      ensures this.id == id && this.name == name && this.topicId == topicId
      ensures this.suggestions == suggestions
    {
      this.id := id;
      this.name := name;
      this.topicId := topicId;
      this.suggestions := suggestions;
    }
  }

  /** The payload of the topic request; the server sends a null category
      list when the topic has no categories. */
  datatype TopicData = TopicData(topic: Topic, categories: Records.Option<seq<CategoryEntry>>)

  /** The index of the first category with the given id, or |cats| when none
      has it: where the for-of loop of the suggestion callback stops. It is
      the page's own search, over the page's category objects, and is kept
      apart from the backend's search over category records. */
  function FirstWithId(cats: seq<CategoryEntry>, id: int): (i: nat)
    ensures i <= |cats|
    ensures i < |cats| ==> cats[i].id == id
    ensures forall j :: 0 <= j < i ==> cats[j].id != id
  {
    if cats == [] then 0
    else if cats[0].id == id then 0
    else 1 + FirstWithId(cats[1..], id)
  }

  class TopicViewComponent {
    var topic: Topic
    var categories: seq<CategoryEntry>
    var isLoading: bool
    var newCategoryName: string
    var newSuggestionCategoryId: int
    var newSuggestionName: string
    var newSuggestionContent: string

    /** The field initialisers and the constructor's placeholder topic. */
    constructor ()
      ensures topic == Topic("", "", 0) && categories == [] && isLoading
      ensures newCategoryName == "" && newSuggestionCategoryId == 0
      ensures newSuggestionName == "" && newSuggestionContent == ""
    {
      topic := Topic("", "", 0);
      categories := [];
      isLoading := true;
      newCategoryName := "";
      newSuggestionCategoryId := 0;
      newSuggestionName := "";
      newSuggestionContent := "";
    }

    /** The suggestion form's button is disabled until name, content and a
        category are all filled in. */
    predicate SuggestionDisabled()
      reads this
      ensures !SuggestionDisabled() ==>
        |newSuggestionName| > 0 && |newSuggestionContent| > 0 && newSuggestionCategoryId != 0
      ensures newSuggestionName == "" || newSuggestionContent == "" || newSuggestionCategoryId == 0
        ==> SuggestionDisabled()
    {
      newSuggestionName == "" || newSuggestionContent == "" || newSuggestionCategoryId == 0
    }

    /** The category form's button is disabled while the name is empty. */
    predicate CategoryDisabled()
      reads this
      ensures !CategoryDisabled() ==> |newCategoryName| > 0
      ensures newCategoryName == "" ==> CategoryDisabled()
    {
      newCategoryName == ""
    }

    /** The callback of the `id` setter: take over the topic and its
        categories, replacing a null list by the empty one. */
    method OnTopicLoaded(data: TopicData)
      modifies this
      ensures topic == data.topic && !isLoading
      ensures data.categories.None? ==> categories == []
      ensures data.categories.Some? ==> categories == data.categories.value
      ensures newCategoryName == old(newCategoryName) && newSuggestionCategoryId == old(newSuggestionCategoryId)
      ensures newSuggestionName == old(newSuggestionName) && newSuggestionContent == old(newSuggestionContent)
    {
      topic := data.topic;
      match data.categories {
        case None => categories := [];
        case Some(cats) => categories := cats;
      }
      isLoading := false;
    }

    /** The createCategory callback: the returned category gets an empty
        suggestion list and goes to the end; the name field is cleared. */
    method OnCategoryCreated(category: CategoryEntry)
      modifies this, category
      ensures category.suggestions == []
      ensures categories == old(categories) + [category]
      ensures newCategoryName == "" && CategoryDisabled()
      ensures topic == old(topic) && isLoading == old(isLoading)
      ensures newSuggestionCategoryId == old(newSuggestionCategoryId)
      ensures newSuggestionName == old(newSuggestionName) && newSuggestionContent == old(newSuggestionContent)
    {
      category.suggestions := [];
      categories := categories + [category];
      newCategoryName := "";
    }

    /** The createSuggestion callback: push the returned suggestion onto the
        first category whose id is the selected one (no category when none
        matches), then clear the form. */
    method OnSuggestionCreated(suggestion: Suggestion)
      modifies this, categories
      ensures categories == old(categories)
      ensures var i := FirstWithId(categories, old(newSuggestionCategoryId));
        && (i < |categories| ==> categories[i].suggestions == old(categories[i].suggestions) + [suggestion])
        && (forall c :: c in categories && (i == |categories| || c != categories[i]) ==>
              c.suggestions == old(c.suggestions))
      ensures newSuggestionName == "" && newSuggestionContent == "" && newSuggestionCategoryId == 0
      ensures SuggestionDisabled()
      ensures topic == old(topic) && isLoading == old(isLoading) && newCategoryName == old(newCategoryName)
    {
      var i := 0;
      while i < |categories|
        invariant 0 <= i <= |categories|
        invariant forall j :: 0 <= j < i ==> categories[j].id != newSuggestionCategoryId
        invariant forall c :: c in categories ==> c.suggestions == old(c.suggestions)
      {
        if categories[i].id == newSuggestionCategoryId {
          categories[i].suggestions := categories[i].suggestions + [suggestion];
          break;
        }
        i := i + 1;
      }
      newSuggestionName := "";
      newSuggestionContent := "";
      newSuggestionCategoryId := 0;
    }
  }
}
