/** The add form: a text field whose content is sent to the inbox on Enter
    or submit, or handed to the wizard by the workflow button, in both cases
    only when it is not whitespace only. */
module TodoAdd {
  import opened Options
  import opened TodoTypes
  import opened Text

  /** What the form asks of its parent: `handleAddTodoListItem(todo)` or
      `handleOpenGTDModal(content)`. */
  datatype FormEffect = AddRequested(todo: PartialTodo) | ModalRequested(content: string)

  /** `taskContent`, and the calls made so far. */
  datatype FormState = FormState(taskContent: string, outbox: seq<FormEffect>)

  /** `{ content, category: 'Inbox', done: false }` */
  function InboxTodo(content: string): (p: PartialTodo)
    ensures p.content == content && p.category == Some(Inbox) && p.done == Some(false)
    ensures p.projectName.None? && p.waitingFor.None? && p.dueDate.None?
  {
    EmptyTodo.(content := content, category := Some(Inbox), done := Some(false))
  }

  /** The text field's `onChange`. */
  function Changed(s: FormState, value: string): (r: FormState)
    ensures r == s.(taskContent := value)
  {
    s.(taskContent := value)
  }

  /** `handleSubmit`: whitespace-only text is ignored; any other text is sent
      to the inbox as typed, untrimmed, and the field is cleared. */
  function Submit(s: FormState): (r: FormState)
    ensures IsBlank(s.taskContent) ==> r == s
    ensures !IsBlank(s.taskContent) ==> r == FormState("", s.outbox + [AddRequested(InboxTodo(s.taskContent))])
  {
    TrimEmptyIffBlank(s.taskContent);
    if Trim(s.taskContent) == "" then s
    else FormState("", s.outbox + [AddRequested(InboxTodo(s.taskContent))])
  }

  /** `handleKeyDown`: Enter without Shift submits; every other key,
      Shift+Enter included, leaves the form to the text field. */
  function KeyDown(s: FormState, key: string, shift: bool): (r: FormState)
    ensures key == "Enter" && !shift ==> r == Submit(s)
    ensures key != "Enter" || shift ==> r == s
  {
    if key == "Enter" && !shift then Submit(s) else s
  }

  /** `handleButtonClick`: whitespace-only text is ignored; otherwise, when
      the parent supplied `handleOpenGTDModal`, it gets the text and the
      field is cleared; without one the text stays. */
  function ButtonClick(s: FormState, hasHandler: bool): (r: FormState)
    ensures IsBlank(s.taskContent) || !hasHandler ==> r == s
    ensures !IsBlank(s.taskContent) && hasHandler ==>
      r == FormState("", s.outbox + [ModalRequested(s.taskContent)])
  {
    TrimEmptyIffBlank(s.taskContent);
    if Trim(s.taskContent) == "" then s
    else if hasHandler then FormState("", s.outbox + [ModalRequested(s.taskContent)])
    else s
  }

  /** The workflow button's `disabled` attribute. */
  function ButtonDisabled(content: string): (d: bool)
    ensures d <==> IsBlank(content)
  {
    TrimEmptyIffBlank(content);
    Trim(content) == ""
  }

  // ---------------------------------------------------------------------

  datatype FormEvent = Typed(value: string) | FormSubmitted | KeyPressed(key: string, shift: bool) | ButtonClicked

  function Handle(s: FormState, e: FormEvent, hasHandler: bool): FormState {
    match e
    case Typed(v) => Changed(s, v)
    case FormSubmitted => Submit(s)
    case KeyPressed(k, shift) => KeyDown(s, k, shift)
    case ButtonClicked => ButtonClick(s, hasHandler)
  }

  function RunForm(s: FormState, events: seq<FormEvent>, hasHandler: bool): FormState
    decreases |events|
  {
    if events == [] then s else RunForm(Handle(s, events[0], hasHandler), events[1..], hasHandler)
  }

  /** Nothing the form sends is whitespace only. */
  predicate NothingBlankSent(outbox: seq<FormEffect>) {
    forall i :: 0 <= i < |outbox| ==>
      match outbox[i]
      case AddRequested(p) => !IsBlank(p.content)
      case ModalRequested(c) => !IsBlank(c)
  }

  /** Whatever the user types and presses, the form never sends
      whitespace-only text to the inbox or to the wizard. */
  lemma {:induction false} NeverSendsBlank(s: FormState, events: seq<FormEvent>, hasHandler: bool)
    requires NothingBlankSent(s.outbox)
    ensures NothingBlankSent(RunForm(s, events, hasHandler).outbox)
    decreases |events|
  {
    if events != [] {
      var next := Handle(s, events[0], hasHandler);
      HandleKeepsNothingBlank(s, events[0], hasHandler);
      NeverSendsBlank(next, events[1..], hasHandler);
    }
  }

  lemma HandleKeepsNothingBlank(s: FormState, e: FormEvent, hasHandler: bool)
    requires NothingBlankSent(s.outbox)
    ensures NothingBlankSent(Handle(s, e, hasHandler).outbox)
  {
    if !IsBlank(s.taskContent) {
      SendingKeepsNothingBlank(s.outbox, AddRequested(InboxTodo(s.taskContent)));
      SendingKeepsNothingBlank(s.outbox, ModalRequested(s.taskContent));
    }
  }

  /** Sending text that is not whitespace only keeps the outbox free of blanks. */
  lemma SendingKeepsNothingBlank(outbox: seq<FormEffect>, sent: FormEffect)
    requires NothingBlankSent(outbox)
    requires match sent
      case AddRequested(p) => !IsBlank(p.content)
      case ModalRequested(c) => !IsBlank(c)
    ensures NothingBlankSent(outbox + [sent])
  {
    var all := outbox + [sent];
    forall i | 0 <= i < |all|
      ensures match all[i]
        case AddRequested(p) => !IsBlank(p.content)
        case ModalRequested(c) => !IsBlank(c)
    {
      if i < |outbox| {
        assert all[i] == outbox[i];
      }
    }
  }

  /** Typing text and pressing Enter sends exactly that text to the inbox
      unless it is whitespace only; with Shift held nothing is sent. */
  lemma TypeAndEnter(s: FormState, text: string)
    ensures var r := RunForm(s, [Typed(text), KeyPressed("Enter", false)], false);
      (IsBlank(text) ==> r.outbox == s.outbox && r.taskContent == text)
      && (!IsBlank(text) ==> r == FormState("", s.outbox + [AddRequested(InboxTodo(text))]))
    ensures RunForm(s, [Typed(text), KeyPressed("Enter", true)], false) == s.(taskContent := text)
  {
    var es := [Typed(text), KeyPressed("Enter", false)];
    assert es[1..] == [KeyPressed("Enter", false)];
    var shifted := [Typed(text), KeyPressed("Enter", true)];
    assert shifted[1..] == [KeyPressed("Enter", true)];
    var typed := Changed(s, text);
    assert KeyDown(typed, "Enter", true) == typed;
    assert RunForm(typed, [KeyPressed("Enter", true)], false) == RunForm(typed, [], false);
    assert [KeyPressed("Enter", false)][1..] == [];
    assert RunForm(typed, [KeyPressed("Enter", false)], false) == Submit(typed);
  }

  // ---------------------------------------------------------------------

  /** The form component; the calls to its parent are recorded in `outbox`. */
  class TodoAddForm {
    var taskContent: string
    var outbox: seq<FormEffect>

    function State(): FormState
      reads this
    {
      FormState(taskContent, outbox)
    }

    constructor ()
      ensures State() == FormState("", [])
    {
      taskContent := "";
      outbox := [];
    }

    method HandleChange(value: string)
      modifies this
      ensures State() == Changed(old(State()), value)
    {
      taskContent := value;
    }

    method HandleSubmit()
      modifies this
      ensures State() == Submit(old(State()))
    {
      if Trim(taskContent) == "" {
        return;
      }
      outbox := outbox + [AddRequested(InboxTodo(taskContent))];
      taskContent := "";
    }

    method HandleKeyDown(key: string, shift: bool)
      modifies this
      ensures State() == KeyDown(old(State()), key, shift)
    {
      if key == "Enter" && !shift {
        HandleSubmit();
      }
    }

    /** `hasHandler` says whether `handleOpenGTDModal` was supplied. */
    method HandleButtonClick(hasHandler: bool)
      modifies this
      ensures State() == ButtonClick(old(State()), hasHandler)
    {
      if Trim(taskContent) == "" {
        return;
      }
      if hasHandler {
        outbox := outbox + [ModalRequested(taskContent)];
        taskContent := "";
      }
    }
  }
}
