/** The task entity, its category enumeration, the partial task a form or the
    wizard submits, and the normaliser from a GraphQL row to a task. */
module TodoTypes {
  import opened Options

  /** The five GTD categories; no other value exists. */
  datatype Category = Inbox | WaitingFor | Project | NextAction | Calendar

  const AllCategories: seq<Category> := [Inbox, WaitingFor, Project, NextAction, Calendar]

  /** The position of a category in the enumeration: every category has one,
      and the five listed are pairwise different, so there are exactly five. */
  function CategoryIndex(c: Category): (i: nat)
    ensures i < |AllCategories| == 5 && AllCategories[i] == c
    ensures forall j :: 0 <= j < 5 && AllCategories[j] == c ==> j == i
  {
    match c
    case Inbox => 0
    case WaitingFor => 1
    case Project => 2
    case NextAction => 3
    case Calendar => 4
  }

  /** A stored task. `None` stands for both `null` and a missing field. */
  datatype Todo = Todo(
    id: string,
    content: string,
    done: bool,
    category: Category,
    projectName: Option<string>,
    waitingFor: Option<string>,
    dueDate: Option<string>,
    owner: Option<string>)

  /** What the add form and the wizard hand over to be created. */
  datatype PartialTodo = PartialTodo(
    content: string,
    category: Option<Category>,
    projectName: Option<string>,
    waitingFor: Option<string>,
    dueDate: Option<string>,
    done: Option<bool>)

  /** `{ content: '' }` */
  const EmptyTodo: PartialTodo := PartialTodo("", None, None, None, None, None)

  /** One item of the `listTodos` response (non-null). */
  datatype GraphQLTodo = GraphQLTodo(
    id: string,
    content: string,
    done: bool,
    category: Category,
    projectName: Option<string>,
    waitingFor: Option<string>,
    dueDate: Option<string>,
    owner: Option<string>)

  /** The error `convertGraphQLTodo` throws for a null item. */
  datatype ConversionError = InvalidTodoItem

  /** `value || null` on an optional string: missing, null and "" all become null. */
  function OrNull(v: Option<string>): (r: Option<string>)
    ensures r.None? <==> v.None? || v.value == ""
    ensures r.Some? ==> r == v
  {
    if v.Some? && v.value != "" then v else None
  }

  /** A task whose optional fields are never the empty string. */
  predicate Normalised(t: Todo) {
    t.projectName != Some("") && t.waitingFor != Some("") && t.dueDate != Some("") && t.owner != Some("")
  }

  /** `convertGraphQLTodo` */
  function ConvertGraphQLTodo(item: Option<GraphQLTodo>): (r: Result<Todo, ConversionError>)
    ensures r.Err? <==> item.None?
    ensures r.Err? ==> r.error == InvalidTodoItem
    ensures r.Ok? ==> var t, i := r.value, item.value;
      t.id == i.id && t.content == i.content && t.done == i.done && t.category == i.category
      && (t.projectName.None? <==> i.projectName.None? || i.projectName == Some(""))
      && (t.projectName.Some? ==> t.projectName == i.projectName)
      && (t.waitingFor.None? <==> i.waitingFor.None? || i.waitingFor == Some(""))
      && (t.waitingFor.Some? ==> t.waitingFor == i.waitingFor)
      && (t.dueDate.None? <==> i.dueDate.None? || i.dueDate == Some(""))
      && (t.dueDate.Some? ==> t.dueDate == i.dueDate)
      && (t.owner.None? <==> i.owner.None? || i.owner == Some(""))
      && (t.owner.Some? ==> t.owner == i.owner)
    ensures r.Ok? ==> Normalised(r.value)
  {
    match item
    case None => Err(InvalidTodoItem)
    case Some(i) =>
      Ok(Todo(i.id, i.content, i.done, i.category,
              OrNull(i.projectName), OrNull(i.waitingFor), OrNull(i.dueDate), OrNull(i.owner)))
  }

  /** A task viewed as a GraphQL row again (the shapes coincide). */
  function AsRow(t: Todo): GraphQLTodo {
    GraphQLTodo(t.id, t.content, t.done, t.category, t.projectName, t.waitingFor, t.dueDate, t.owner)
  }

  /** The tasks the conversion leaves unchanged are exactly the normalised ones. */
  lemma ConversionFixedPoints(t: Todo)
    ensures ConvertGraphQLTodo(Some(AsRow(t))) == Ok(t) <==> Normalised(t)
  {
  }

  /** Converting an already converted task changes nothing. */
  lemma ConversionIdempotent(item: Option<GraphQLTodo>)
    requires item.Some?
    ensures ConvertGraphQLTodo(Some(AsRow(ConvertGraphQLTodo(item).value))) == ConvertGraphQLTodo(item)
  {
    ConversionFixedPoints(ConvertGraphQLTodo(item).value);
  }
}
