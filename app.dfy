/** The top-level screen: the six columns the task list is split into, the
    task the wizard opens with, and the modal's submit and close handlers,
    which re-enter a selected task by adding its reclassified copy and
    deleting the original. */
module App {
  import opened Options
  import opened TodoTypes
  import opened Seqs
  import opened UseTodo
  import Wizard

  // ---------------------------------------------------------------------
  // The columns

  /** `categoryLists` */
  datatype Columns = Columns(
    inbox: seq<Todo>,
    waiting: seq<Todo>,
    project: seq<Todo>,
    nextAction: seq<Todo>,
    calendar: seq<Todo>,
    completed: seq<Todo>)

  /** Open tasks of category `c`, and finished tasks, as filter predicates. */
  function OpenIn(c: Category): Todo -> bool {
    (t: Todo) => t.category == c && !t.done
  }

  function IsDone(): Todo -> bool {
    (t: Todo) => t.done
  }

  /** Each category column holds exactly the open tasks of its category and
      the last one exactly the finished tasks, each as often as the list. */
  function CategoryLists(list: seq<Todo>): (c: Columns)
    ensures forall t: Todo :: multiset(c.inbox)[t] == if t.category == Inbox && !t.done then multiset(list)[t] else 0
    ensures forall t: Todo :: multiset(c.waiting)[t] == if t.category == WaitingFor && !t.done then multiset(list)[t] else 0
    ensures forall t: Todo :: multiset(c.project)[t] == if t.category == Project && !t.done then multiset(list)[t] else 0
    ensures forall t: Todo :: multiset(c.nextAction)[t] == if t.category == NextAction && !t.done then multiset(list)[t] else 0
    ensures forall t: Todo :: multiset(c.calendar)[t] == if t.category == Calendar && !t.done then multiset(list)[t] else 0
    ensures forall t: Todo :: multiset(c.completed)[t] == if t.done then multiset(list)[t] else 0
  {
    Columns(Filter(list, OpenIn(Inbox)), Filter(list, OpenIn(WaitingFor)), Filter(list, OpenIn(Project)),
            Filter(list, OpenIn(NextAction)), Filter(list, OpenIn(Calendar)), Filter(list, IsDone()))
  }

  /** Everything on screen, column after column. */
  function AllShown(c: Columns): seq<Todo> {
    c.inbox + c.waiting + c.project + c.nextAction + c.calendar + c.completed
  }

  /** The six columns partition the list: every task is shown in exactly one
      column, as often as it occurs, so nothing is lost or duplicated. */
  lemma ColumnsPartition(list: seq<Todo>)
    ensures multiset(AllShown(CategoryLists(list))) == multiset(list)
    ensures |AllShown(CategoryLists(list))| == |list|
  {
    var c := CategoryLists(list);
    var all := AllShown(c);
    assert multiset(all) == multiset(c.inbox) + multiset(c.waiting) + multiset(c.project)
      + multiset(c.nextAction) + multiset(c.calendar) + multiset(c.completed);
    forall t: Todo ensures multiset(all)[t] == multiset(list)[t] {
    }
    assert multiset(all) == multiset(list);
    assert |multiset(all)| == |all|;
  }

  /** Every column keeps list order: the columns of a concatenation are the
      concatenations of the columns. */
  lemma ColumnsKeepOrder(a: seq<Todo>, b: seq<Todo>)
    ensures var ca, cb, c := CategoryLists(a), CategoryLists(b), CategoryLists(a + b);
      c == Columns(ca.inbox + cb.inbox, ca.waiting + cb.waiting, ca.project + cb.project,
                   ca.nextAction + cb.nextAction, ca.calendar + cb.calendar, ca.completed + cb.completed)
  {
    FilterAppend(a, b, OpenIn(Inbox));
    FilterAppend(a, b, OpenIn(WaitingFor));
    FilterAppend(a, b, OpenIn(Project));
    FilterAppend(a, b, OpenIn(NextAction));
    FilterAppend(a, b, OpenIn(Calendar));
    FilterAppend(a, b, IsDone());
  }

  // ---------------------------------------------------------------------
  // Opening the wizard and submitting from it

  /** The screen's own state fields. */
  datatype AppFields = AppFields(isModalOpen: bool, selectedTodo: Option<Todo>, initialContent: string)

  /** The task the wizard opens with: typed text goes to the inbox; else the
      selected task's content and category; else nothing. */
  function InitialTodoFor(initialContent: string, selected: Option<Todo>): (r: Option<PartialTodo>)
    ensures initialContent != "" ==> r == Some(EmptyTodo.(content := initialContent, category := Some(Inbox)))
    ensures initialContent == "" && selected.Some? ==>
      r == Some(EmptyTodo.(content := selected.value.content, category := Some(selected.value.category)))
    ensures initialContent == "" && selected.None? ==> r.None?
  {
    if initialContent != "" then Some(EmptyTodo.(content := initialContent, category := Some(Inbox)))
    else if selected.Some? then Some(EmptyTodo.(content := selected.value.content, category := Some(selected.value.category)))
    else None
  }

  /** `selectedTodo?.content || partialTodo.content` */
  function SubmittedContent(selected: Option<Todo>, partial: PartialTodo): (content: string)
    ensures selected.Some? && selected.value.content != "" ==> content == selected.value.content
    ensures selected.None? || selected.value.content == "" ==> content == partial.content
  {
    if selected.Some? && selected.value.content != "" then selected.value.content else partial.content
  }

  /** `handleReenterWorkflow`: with no typed text pending, the wizard opens
      on the chosen task's content and category. */
  function ReenterWorkflow(a: AppFields, t: Todo): (r: AppFields)
    ensures r.isModalOpen && r.selectedTodo == Some(t) && r.initialContent == a.initialContent
    ensures a.initialContent == "" ==>
      InitialTodoFor(r.initialContent, r.selectedTodo) == Some(EmptyTodo.(content := t.content, category := Some(t.category)))
  {
    a.(isModalOpen := true, selectedTodo := Some(t))
  }

  /** `handleOpenGTDModal`: the wizard opens on the typed text as an inbox
      task, and nothing is selected for deletion unless it already was. */
  function OpenGTDModal(a: AppFields, content: string): (r: AppFields)
    ensures r.isModalOpen && r.initialContent == content && r.selectedTodo == a.selectedTodo
    ensures content != "" ==>
      InitialTodoFor(r.initialContent, r.selectedTodo) == Some(EmptyTodo.(content := content, category := Some(Inbox)))
  {
    a.(isModalOpen := true, initialContent := content)
  }

  /** `handleModalClose`: closed, nothing selected, no typed text. */
  function ModalClose(a: AppFields): (r: AppFields)
    ensures !r.isModalOpen && r.selectedTodo.None? && r.initialContent == ""
  {
    AppFields(false, None, "")
  }

  datatype SubmitOutcome = SubmitOutcome(app: AppFields, store: StoreState)

  /** `handleModalSubmit(partial)`: the submitted task, with the selected
      task's content when there is one, is added; with a selected task its
      original is deleted as well, both requests being made whatever the
      other's outcome. The modal closes only when every request succeeded;
      on a failure the fields stay as they were. */
  function ModalSubmit(a: AppFields, st: StoreState, partial: PartialTodo, freshId: string,
                       create: Create, remove: Remove): (r: SubmitOutcome)
    ensures var added := create(NewTodo(freshId, partial.(content := SubmittedContent(a.selectedTodo, partial))));
      var ok := added.Ok? && (a.selectedTodo.Some? ==> remove(a.selectedTodo.value.id).Ok?);
      (ok ==> r.app == ModalClose(a)) && (!ok ==> r.app == a)
      && (a.selectedTodo.None? ==> r.store == AfterAdd(st, added))
      && (a.selectedTodo.Some? ==>
            r.store == AfterDelete(AfterAdd(st, added), a.selectedTodo.value.id, remove(a.selectedTodo.value.id)))
  {
    var newTodo := partial.(content := SubmittedContent(a.selectedTodo, partial));
    var added := create(NewTodo(freshId, newTodo));
    var afterAdd := AfterAdd(st, added);
    match a.selectedTodo
    case Some(original) =>
      var removed := remove(original.id);
      var ok := added.Ok? && removed.Ok?;
      SubmitOutcome(if ok then ModalClose(a) else a, AfterDelete(afterAdd, original.id, removed))
    case None =>
      SubmitOutcome(if added.Ok? then ModalClose(a) else a, afterAdd)
  }

  /** A successful re-entry, from the closed screen, of a task the list
      holds once: the modal is closed, the list keeps its length, the
      original id is gone and the reclassified task is at the front. */
  lemma ReentrySucceeds(closed: AppFields, t: Todo, st: StoreState, partial: PartialTodo, freshId: string,
                        create: Create, remove: Remove)
    requires Occurrences(st.todoList, t.id) == 1
    requires var added := create(NewTodo(freshId, partial.(content := SubmittedContent(Some(t), partial))));
      added.Ok? && added.value.id != t.id
    requires remove(t.id).Ok?
    ensures var a := ReenterWorkflow(ModalClose(closed), t);
      var r := ModalSubmit(a, st, partial, freshId, create, remove);
      var added := create(NewTodo(freshId, partial.(content := SubmittedContent(Some(t), partial)))).value;
      r.app == ModalClose(a) && |r.store.todoList| == |st.todoList|
      && Occurrences(r.store.todoList, t.id) == 0 && r.store.todoList[0] == added
  {
    var a := ReenterWorkflow(ModalClose(closed), t);
    var added := create(NewTodo(freshId, partial.(content := SubmittedContent(Some(t), partial)))).value;
    assert a.selectedTodo == Some(t);
    assert remove(t.id) == Ok(remove(t.id).value);
    ReentryReplacesTask(st, added, t.id);
  }

  /** A wizard opened by re-entry from the closed screen submits, before it
      first closes, only tasks carrying the chosen task's content, so the
      content override on submit keeps that same content. */
  lemma ReentryKeepsContent(closed: AppFields, t: Todo, events: seq<Wizard.Event>)
    ensures var a := ReenterWorkflow(ModalClose(closed), t);
      var run := Wizard.Run(Wizard.Init(InitialTodoFor(a.initialContent, a.selectedTodo)), events);
      forall i :: 0 <= i < |run.emitted| && run.emitted[i].Submitted? && Wizard.Closed !in run.emitted[..i] ==>
        run.emitted[i].todo.content == t.content
        && SubmittedContent(a.selectedTodo, run.emitted[i].todo) == t.content
  {
    var a := ReenterWorkflow(ModalClose(closed), t);
    var s0 := Wizard.Init(InitialTodoFor(a.initialContent, a.selectedTodo));
    Wizard.RunFacts(s0, events);
  }

  /** A wizard opened from the add form on the closed screen files its
      submission as a new task and deletes nothing; on success the modal
      closes. */
  lemma OpenedByButtonOnlyAdds(closed: AppFields, content: string, st: StoreState, partial: PartialTodo,
                               freshId: string, create: Create, remove: Remove)
    requires content != ""
    ensures var a := OpenGTDModal(ModalClose(closed), content);
      var r := ModalSubmit(a, st, partial, freshId, create, remove);
      var added := create(NewTodo(freshId, partial));
      InitialTodoFor(a.initialContent, a.selectedTodo) == Some(EmptyTodo.(content := content, category := Some(Inbox)))
      && r.store == AfterAdd(st, added)
      && (added.Ok? ==> r.app == ModalClose(a)) && (added.Err? ==> r.app == a)
  {
    var a := OpenGTDModal(ModalClose(closed), content);
    assert a.selectedTodo.None?;
    assert partial.(content := SubmittedContent(a.selectedTodo, partial)) == partial;
  }

  /** The task the wizard submits when the three-minute timer runs out asks
      for `done = true`, but the object sent to the backend is not done:
      finished three-minute tasks land in the inbox as open tasks. */
  lemma TimerCompletionStoredOpen(s: Wizard.WizardState, freshId: string)
    requires Wizard.ValidState(s)
    ensures var submitted := Wizard.TimerComplete(s).emitted[0].todo;
      submitted.done == Some(true) && !NewTodo(freshId, submitted).done
      && NewTodo(freshId, submitted).category == Inbox
  {
  }

  // ---------------------------------------------------------------------

  /** The screen, holding the task list hook and its own fields. */
  class AppScreen {
    const store: TodoStore
    var isModalOpen: bool
    var selectedTodo: Option<Todo>
    var initialContent: string

    function Fields(): AppFields
      reads this
    {
      AppFields(isModalOpen, selectedTodo, initialContent)
    }

    constructor ()
      ensures Fields() == AppFields(false, None, "") && fresh(store)
      ensures store.State() == StoreState([], {})
    {
      store := new TodoStore();
      isModalOpen := false;
      selectedTodo := None;
      initialContent := "";
    }

    /** What the screen shows. */
    method ShownColumns() returns (c: Columns)
      ensures c == CategoryLists(store.todoList)
    {
      c := CategoryLists(store.todoList);
    }

    /** The `initialTodo` property of the wizard. */
    method InitialTodo() returns (r: Option<PartialTodo>)
      ensures r == InitialTodoFor(initialContent, selectedTodo)
    {
      r := InitialTodoFor(initialContent, selectedTodo);
    }

    method HandleReenterWorkflow(t: Todo)
      modifies this
      ensures Fields() == ReenterWorkflow(old(Fields()), t)
    {
      selectedTodo := Some(t);
      isModalOpen := true;
    }

    method HandleOpenGTDModal(content: string)
      modifies this
      ensures Fields() == OpenGTDModal(old(Fields()), content)
    {
      initialContent := content;
      isModalOpen := true;
    }

    method HandleModalClose()
      modifies this
      ensures Fields() == ModalClose(old(Fields()))
    {
      isModalOpen := false;
      selectedTodo := None;
      initialContent := "";
    }

    /** `handleModalSubmit(partial)`, with `freshId` for the new task's id. */
    method HandleModalSubmit(partial: PartialTodo, freshId: string, create: Create, remove: Remove)
      modifies this, store
      ensures var r := ModalSubmit(old(Fields()), old(store.State()), partial, freshId, create, remove);
        Fields() == r.app && store.State() == r.store
    {
      var newTodo := partial.(content := SubmittedContent(selectedTodo, partial));
      var ok: bool;
      if selectedTodo.Some? {
        var added := store.AddItem(newTodo, freshId, create);
        var removed := store.DeleteItem(selectedTodo.value.id, remove);
        ok := added.Ok? && removed.Ok?;
      } else {
        var added := store.AddItem(newTodo, freshId, create);
        ok := added.Ok?;
      }
      if ok {
        HandleModalClose();
      }
    }
  }
}
