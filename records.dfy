/** The backend's record types (the Go structs of backend/server.go) and the
    result wrappers shared by the rest of the model. Every Go `*T` field
    becomes an Option: None is a SQL NULL or an absent JSON field. */
module Records {

  datatype Option<T> = None | Some(value: T)

  /** Faults that the backend reports instead of terminating the process. */
  datatype Fault =
    | ConstraintViolation  // an insert names a parent row that does not exist
    | NotFound             // a topic lookup matched no row
    | Full                 // the table's AUTOINCREMENT sequence is exhausted

  datatype Result<T> = Ok(value: T) | Err(fault: Fault)

  datatype Topic = Topic(id: Option<int>, name: Option<string>, description: Option<string>)

  datatype Suggestion = Suggestion(
    id: Option<int>,
    name: Option<string>,
    content: Option<string>,
    categoryId: Option<int>)

  datatype Category = Category(
    id: Option<int>,
    name: Option<string>,
    topicId: Option<int>,
    suggestions: seq<Suggestion>)

  datatype TopicResponse = TopicResponse(topic: Topic, categories: seq<Category>)

  /** One row of the categories-left-join-suggestions query, its seven columns
      in the order the handler scans them. */
  datatype Row = Row(
    categoryId: Option<int>,
    categoryName: Option<string>,
    topicId: Option<int>,
    suggestionId: Option<int>,
    suggestionName: Option<string>,
    suggestionContent: Option<string>,
    suggestionCategoryId: Option<int>)

  /** A row the grouping loop can process: it dereferences the category id
      and the category name, so both must be non-null. */
  type JoinedRow = r: Row | r.categoryId.Some? && r.categoryName.Some?
    witness Row(Some(0), Some(""), None, None, None, None, None)
}
