/** The GTD classification wizard: a five-step state machine whose terminal
    answers submit the task with a category and then reset the wizard. */
module Wizard {
  import opened Options
  import opened TodoTypes
  import opened Calendar

  /** What the wizard tells its parent: `onSubmit(todo)` or `onClose()`. */
  datatype Effect = Submitted(todo: PartialTodo) | Closed

  /** The wizard's state fields other than the displayed month. */
  datatype WizardState = WizardState(step: int, todo: PartialTodo, showTimer: bool, selectedDate: string)

  datatype Transition = Transition(next: WizardState, emitted: seq<Effect>)

  /** The selected date is empty or a date string of a real day; the only
      writer is a click on a grid cell, so the component keeps this. */
  predicate SelectionOk(sel: string) {
    sel == "" || (ParseDateString(sel).Some? && ValidDate(ParseDateString(sel).value))
  }

  /** The wizard's invariant: a step of 1..5, the timer only at step 4. */
  predicate ValidState(s: WizardState) {
    1 <= s.step <= 5 && (s.showTimer ==> s.step == 4)
  }

  /** The state on mount: `initialTodo || { content: '' }`. */
  function Init(initialTodo: Option<PartialTodo>): (s: WizardState)
    ensures ValidState(s) && s.step == 1 && !s.showTimer && s.selectedDate == ""
    ensures s.todo == initialTodo.GetOr(EmptyTodo)
  {
    WizardState(1, initialTodo.GetOr(EmptyTodo), false, "")
  }

  /** The state that `handleFinalClose` leaves: step 1, empty task, no
      timer; the selected date stays. */
  function Reset(s: WizardState): (r: WizardState)
    ensures r.step == 1 && r.todo == EmptyTodo && !r.showTimer && r.selectedDate == s.selectedDate
  {
    s.(step := 1, todo := EmptyTodo, showTimer := false)
  }

  /** `handleFinalClose` */
  function FinalClose(s: WizardState): (t: Transition)
    requires ValidState(s)
    ensures ValidState(t.next) && t.next == Reset(s) && t.emitted == [Closed]
  {
    Transition(Reset(s), [Closed])
  }

  /** `onSubmit(out)` followed by `handleFinalClose()`. */
  function Finish(s: WizardState, out: PartialTodo): (t: Transition)
    requires ValidState(s)
    ensures ValidState(t.next) && t.next == Reset(s) && t.emitted == [Submitted(out), Closed]
  {
    var closed := FinalClose(s);
    Transition(closed.next, [Submitted(out)] + closed.emitted)
  }

  /** `handleYes`; the yes button is not shown while the timer runs. */
  function Yes(s: WizardState): (t: Transition)
    requires ValidState(s) && !s.showTimer
    ensures ValidState(t.next) && t.emitted == []
    ensures t.next.todo == s.todo && t.next.selectedDate == s.selectedDate
    ensures t.next.step == if s.step < 5 then s.step + 1 else s.step
    ensures t.next.showTimer <==> s.step == 3
  {
    match s.step
    case 1 => Transition(s.(step := 2), [])
    case 2 => Transition(s.(step := 3), [])
    case 3 => Transition(s.(step := 4, showTimer := true), [])
    case 4 => Transition(s.(step := 5), [])
    case _ => Transition(s, [])
  }

  /** The category a "no" files the task under at steps 1, 2 and 4. */
  function NoCategory(step: int): (c: Option<Category>)
    ensures c.Some? <==> step == 1 || step == 2 || step == 4
  {
    match step
    case 1 => Some(WaitingFor)
    case 2 => Some(Project)
    case 4 => Some(NextAction)
    case _ => None
  }

  /** `handleNo`; the no button is not shown while the timer runs. */
  function No(s: WizardState): (t: Transition)
    requires ValidState(s) && !s.showTimer
    ensures ValidState(t.next)
    ensures NoCategory(s.step).Some? ==>
      t.emitted == [Submitted(s.todo.(category := NoCategory(s.step))), Closed] && t.next == Reset(s)
    ensures s.step == 3 ==> t.emitted == [] && t.next == s.(step := 4) && !t.next.showTimer
    ensures s.step == 5 ==> t == Transition(s, [])
  {
    match s.step
    case 1 => Finish(s, s.todo.(category := Some(WaitingFor)))
    case 2 => Finish(s, s.todo.(category := Some(Project)))
    case 3 => Transition(s.(step := 4), [])
    case 4 => Finish(s, s.todo.(category := Some(NextAction)))
    case _ => Transition(s, [])
  }

  /** `handleTimerComplete`: the task goes to the inbox marked done. */
  function TimerComplete(s: WizardState): (t: Transition)
    requires ValidState(s)
    ensures ValidState(t.next) && t.next == Reset(s)
    ensures t.emitted == [Submitted(s.todo.(category := Some(Inbox), done := Some(true))), Closed]
  {
    Finish(s, s.todo.(category := Some(Inbox), done := Some(true)))
  }

  /** `handleTimerCancel`: back to the date question without the timer. */
  function TimerCancel(s: WizardState): (t: Transition)
    requires ValidState(s)
    ensures ValidState(t.next) && t.emitted == []
    ensures t.next.step == 4 && !t.next.showTimer
    ensures t.next.todo == s.todo && t.next.selectedDate == s.selectedDate
  {
    Transition(s.(showTimer := false, step := 4), [])
  }

  /** The "back" button of the date step. */
  function Back(s: WizardState): (t: Transition)
    requires ValidState(s) && !s.showTimer
    ensures ValidState(t.next) && t.emitted == [] && t.next == s.(step := 4)
  {
    Transition(s.(step := 4), [])
  }

  /** A click on the grid cell of day `d`. */
  function PickDate(s: WizardState, d: CalendarDate): (t: Transition)
    requires ValidState(s) && ValidDate(d)
    ensures ValidState(t.next) && t.emitted == []
    ensures t.next == s.(selectedDate := FormatDateString(d))
    ensures ParseDateString(t.next.selectedDate) == Some(d)
  {
    DateStringRoundTrip(d);
    Transition(s.(selectedDate := FormatDateString(d)), [])
  }

  /** `handleDateSubmit`: nothing without a selected date; otherwise the task
      goes to the calendar, due at the end of the selected day. The selection
      is only ever set from a calendar cell, so it always parses to a real
      date (`GTDModal.Valid` keeps `SelectionOk`); a selection that did not
      is left unchanged. */
  function DateSubmit(s: WizardState): (t: Transition)
    requires ValidState(s)
    ensures ValidState(t.next)
    ensures s.selectedDate == "" ==> t == Transition(s, [])
    ensures s.selectedDate != "" && SelectionOk(s.selectedDate) ==>
      t.next == Reset(s)
      && t.emitted == [Submitted(s.todo.(category := Some(Calendar),
                                         dueDate := Some(IsoString(EndOfDay(ParseDateString(s.selectedDate).value))))), Closed]
    ensures !SelectionOk(s.selectedDate) ==> t == Transition(s, [])
  {
    if s.selectedDate == "" then Transition(s, [])
    else
      match ParseDateString(s.selectedDate)
      case Some(d) =>
        if ValidDate(d) then Finish(s, s.todo.(category := Some(Calendar), dueDate := Some(IsoString(EndOfDay(d)))))
        else Transition(s, [])
      case None => Transition(s, [])
  }

  /** `DateSubmit` on a selection that reads back as the valid date `d`. */
  lemma SubmitSelected(s: WizardState, d: CalendarDate)
    requires ValidState(s) && s.selectedDate != ""
    requires ParseDateString(s.selectedDate) == Some(d) && ValidDate(d)
    ensures DateSubmit(s).next == Reset(s)
    ensures DateSubmit(s).emitted == [Submitted(s.todo.(category := Some(Calendar), dueDate := Some(IsoString(EndOfDay(d))))), Closed]
  {
  }

  /** Picking day `d` and confirming files the task under Calendar, due at
      `YYYY-MM-DD` of that day followed by `T23:59:59.999Z`. */
  lemma PickThenConfirm(s: WizardState, d: CalendarDate)
    requires ValidState(s) && ValidDate(d)
    ensures var t := DateSubmit(PickDate(s, d).next);
      t.emitted == [Submitted(s.todo.(category := Some(Calendar),
                                      dueDate := Some(FormatDateString(d) + "T23:59:59.999Z"))), Closed]
  {
    DueDateText(d);
  }

  // ---------------------------------------------------------------------
  // Runs of user and timer events

  datatype Event =
    | YesClicked | NoClicked
    | TimerCompleted | TimerCancelled
    | DatePicked(date: CalendarDate) | DateConfirmed | BackClicked
    | CloseClicked

  /** Which controls are on screen: yes/no at steps 1..4 without the timer,
      the timer's callbacks only with it, the calendar only at step 5, the
      close button always. */
  predicate Enabled(s: WizardState, e: Event)
    ensures e.CloseClicked? ==> Enabled(s, e)
    ensures Enabled(s, e) && s.showTimer ==> e.TimerCompleted? || e.TimerCancelled? || e.CloseClicked?
    ensures Enabled(s, e) && !s.showTimer ==> !e.TimerCompleted? && !e.TimerCancelled?
    ensures Enabled(s, e) && s.step == 5 ==> !e.YesClicked? && !e.NoClicked?
    ensures Enabled(s, e) && s.step != 5 ==> !e.DatePicked? && !e.DateConfirmed? && !e.BackClicked?
  {
    match e
    case YesClicked => !s.showTimer && s.step != 5
    case NoClicked => !s.showTimer && s.step != 5
    case TimerCompleted => s.showTimer
    case TimerCancelled => s.showTimer
    case DatePicked(d) => !s.showTimer && s.step == 5 && ValidDate(d)
    case DateConfirmed => !s.showTimer && s.step == 5
    case BackClicked => !s.showTimer && s.step == 5
    case CloseClicked => true
  }

  /** `out` is `todo` filed by the wizard: same content, project and
      waiting-for text, and a category set. */
  predicate Carries(out: PartialTodo, todo: PartialTodo) {
    out.content == todo.content && out.projectName == todo.projectName
    && out.waitingFor == todo.waitingFor && out.category.Some?
  }

  /** One event; an event whose control is not on screen changes nothing,
      and so does any event in a state outside the invariant. */
  function Step(s: WizardState, e: Event): (t: Transition)
    ensures ValidState(s) ==> ValidState(t.next)
    ensures t.emitted == [] || t.emitted == [Closed]
      || (|t.emitted| == 2 && t.emitted[0].Submitted? && t.emitted[1] == Closed
          && Carries(t.emitted[0].todo, s.todo))
    ensures t.emitted != [] ==> t.next == Reset(s)
    ensures t.emitted == [] ==> t.next.todo == s.todo
  {
    if !ValidState(s) || !Enabled(s, e) then Transition(s, [])
    else
      match e
      case YesClicked => Yes(s)
      case NoClicked => No(s)
      case TimerCompleted => TimerComplete(s)
      case TimerCancelled => TimerCancel(s)
      case DatePicked(d) => PickDate(s, d)
      case DateConfirmed => DateSubmit(s)
      case BackClicked => Back(s)
      case CloseClicked => FinalClose(s)
  }

  /** `step` applied to the events one after the other, collecting what
      each emits. */
  function RunWith(step: (WizardState, Event) -> Transition, s: WizardState, events: seq<Event>): Transition
    decreases |events|
  {
    if events == [] then Transition(s, [])
    else
      var first := step(s, events[0]);
      var rest := RunWith(step, first.next, events[1..]);
      Transition(rest.next, first.emitted + rest.emitted)
  }

  /** Every run of the wizard's events keeps its invariant. */
  lemma {:induction false} RunKeepsValid(s: WizardState, events: seq<Event>)
    requires ValidState(s)
    ensures ValidState(RunWith(Step, s, events).next)
    decreases |events|
  {
    if events != [] {
      RunKeepsValid(Step(s, events[0]).next, events[1..]);
    }
  }

  /** A run of events from `s`; the invariant holds after every run. */
  function Run(s: WizardState, events: seq<Event>): (t: Transition)
    requires ValidState(s)
    ensures ValidState(t.next)
  {
    RunKeepsValid(s, events);
    RunWith(Step, s, events)
  }

  /** Every submission is immediately followed by a close. */
  predicate Paired(em: seq<Effect>) {
    forall i :: 0 <= i < |em| && em[i].Submitted? ==> i + 1 < |em| && em[i + 1] == Closed
  }

  /** Every submission made before the first close carries `todo`. */
  predicate CarriedUntilClosed(em: seq<Effect>, todo: PartialTodo) {
    forall i :: 0 <= i < |em| && em[i].Submitted? && Closed !in em[..i] ==> Carries(em[i].todo, todo)
  }

  /** What one step emits: nothing, or a close ending it, after a submission
      carrying `todo` or on its own. */
  predicate StepShaped(em: seq<Effect>, todo: PartialTodo) {
    em == [] || em == [Closed]
    || (|em| == 2 && em[0].Submitted? && em[1] == Closed && Carries(em[0].todo, todo))
  }

  lemma PairedConcat(a: seq<Effect>, b: seq<Effect>, todo: PartialTodo)
    requires StepShaped(a, todo) && Paired(b)
    ensures Paired(a + b)
  {
    var em := a + b;
    forall i | 0 <= i < |em| && em[i].Submitted?
      ensures i + 1 < |em| && em[i + 1] == Closed
    {
      if i >= |a| {
        assert em[i] == b[i - |a|];
        assert em[i + 1] == b[i + 1 - |a|];
      }
    }
  }

  lemma CarriedConcat(a: seq<Effect>, b: seq<Effect>, todo: PartialTodo, later: PartialTodo)
    requires StepShaped(a, todo) && (a == [] ==> later == todo)
    requires CarriedUntilClosed(b, later)
    ensures CarriedUntilClosed(a + b, todo)
  {
    var em := a + b;
    if a == [] {
      assert em == b;
    } else {
      forall i | |a| <= i < |em| ensures Closed in em[..i] {
        assert em[..i][|a| - 1] == Closed;
      }
    }
  }

  /** Along any run, submissions come paired with a close, the task is
      untouched until the first close, and the submissions before it carry
      the task the wizard opened with. */
  lemma {:induction false} RunFacts(s: WizardState, events: seq<Event>)
    requires ValidState(s)
    ensures var t := Run(s, events);
      Paired(t.emitted) && CarriedUntilClosed(t.emitted, s.todo)
      && (Closed !in t.emitted ==> t.next.todo == s.todo)
    decreases |events|
  {
    if events != [] {
      var first := Step(s, events[0]);
      var rest := Run(first.next, events[1..]);
      RunFacts(first.next, events[1..]);
      assert StepShaped(first.emitted, s.todo);
      PairedConcat(first.emitted, rest.emitted, s.todo);
      CarriedConcat(first.emitted, rest.emitted, s.todo, first.next.todo);
      assert first.emitted != [] ==> Closed in first.emitted;
    }
  }

  /** A run of `a` then `b` is the run of `a + b`, whatever the step. */
  lemma {:induction false} RunWithConcat(step: (WizardState, Event) -> Transition, s: WizardState, a: seq<Event>, b: seq<Event>)
    ensures var ra := RunWith(step, s, a); var rb := RunWith(step, ra.next, b);
      RunWith(step, s, a + b) == Transition(rb.next, ra.emitted + rb.emitted)
    decreases |a|
  {
    if a == [] {
      assert a + b == b;
      assert [] + RunWith(step, s, b).emitted == RunWith(step, s, b).emitted;
    } else {
      var first := step(s, a[0]);
      RunWithConcat(step, first.next, a[1..], b);
      assert (a + b)[0] == a[0];
      assert (a + b)[1..] == a[1..] + b;
      var ra := RunWith(step, first.next, a[1..]);
      var rb := RunWith(step, ra.next, b);
      assert (first.emitted + ra.emitted) + rb.emitted == first.emitted + (ra.emitted + rb.emitted);
    }
  }

  /** A run of the wizard's events `a` then `b` is the run of `a + b`. */
  lemma RunConcat(s: WizardState, a: seq<Event>, b: seq<Event>)
    requires ValidState(s)
    ensures var ra := Run(s, a); var rb := Run(ra.next, b);
      Run(s, a + b) == Transition(rb.next, ra.emitted + rb.emitted)
  {
    RunWithConcat(Step, s, a, b);
  }

  /** A non-empty run is its first step followed by the run of the rest. */
  lemma RunHead(s: WizardState, events: seq<Event>)
    requires ValidState(s) && events != []
    ensures var first := Step(s, events[0]); var rest := Run(first.next, events[1..]);
      Run(s, events) == Transition(rest.next, first.emitted + rest.emitted)
  {
  }

  // The table of outcomes, path by path, from a freshly opened wizard.

  lemma NoAtFirstStep(todo: PartialTodo)
    ensures Run(Init(Some(todo)), [NoClicked]).emitted == [Submitted(todo.(category := Some(WaitingFor))), Closed]
  {
  }

  lemma YesNo(todo: PartialTodo)
    ensures Run(Init(Some(todo)), [YesClicked, NoClicked]).emitted
         == [Submitted(todo.(category := Some(Project))), Closed]
  {
  }

  lemma QuickTaskDoneByTimer(todo: PartialTodo)
    ensures Run(Init(Some(todo)), [YesClicked, YesClicked, YesClicked, TimerCompleted]).emitted
         == [Submitted(todo.(category := Some(Inbox), done := Some(true))), Closed]
  {
  }

  lemma TimerCancelledThenNextAction(todo: PartialTodo)
    ensures Run(Init(Some(todo)), [YesClicked, YesClicked, YesClicked, TimerCancelled, NoClicked]).emitted
         == [Submitted(todo.(category := Some(NextAction))), Closed]
  {
  }

  lemma DateQuestionReached(todo: PartialTodo)
    ensures Run(Init(Some(todo)), [YesClicked, YesClicked, NoClicked, YesClicked])
         == Transition(WizardState(5, todo, false, ""), [])
  {
  }

  lemma LongTaskWithDate(todo: PartialTodo, d: CalendarDate)
    requires ValidDate(d)
    ensures Run(Init(Some(todo)), [YesClicked, YesClicked, NoClicked, YesClicked, DatePicked(d), DateConfirmed]).emitted
         == [Submitted(todo.(category := Some(Calendar), dueDate := Some(FormatDateString(d) + "T23:59:59.999Z"))), Closed]
  {
    var s0 := Init(Some(todo));
    var s5 := WizardState(5, todo, false, "");
    var head := [YesClicked, YesClicked, NoClicked, YesClicked];
    var tail := [DatePicked(d), DateConfirmed];
    DateQuestionReached(todo);
    RunConcat(s0, head, tail);
    assert head + tail == [YesClicked, YesClicked, NoClicked, YesClicked, DatePicked(d), DateConfirmed];
    PickAndConfirmSteps(s5, d);
    PickThenConfirm(s5, d);
  }

  /** A run of two events is the first step followed by the second. */
  lemma RunPair(s: WizardState, e1: Event, e2: Event)
    requires ValidState(s)
    ensures var f := Step(s, e1); var g := Step(f.next, e2);
      Run(s, [e1, e2]) == Transition(g.next, f.emitted + g.emitted)
  {
    var f := Step(s, e1);
    var g := Step(f.next, e2);
    RunHead(s, [e1, e2]);
    assert [e1, e2][1..] == [e2];
    RunHead(f.next, [e2]);
    assert [e2][1..] == [];
    assert Run(g.next, []) == Transition(g.next, []);
    assert g.emitted + [] == g.emitted;
  }

  /** At the date question, the events "pick `d`" then "confirm" are the
      two handlers one after the other. */
  lemma PickAndConfirmSteps(s: WizardState, d: CalendarDate)
    requires ValidState(s) && s.step == 5 && !s.showTimer && ValidDate(d)
    ensures Run(s, [DatePicked(d), DateConfirmed]).emitted == DateSubmit(PickDate(s, d).next).emitted
  {
    RunPair(s, DatePicked(d), DateConfirmed);
    StepIsHandler(s, DatePicked(d));
    StepIsHandler(PickDate(s, d).next, DateConfirmed);
  }

  /** At the date step with `d` a real day, the events of the calendar run
      their handlers. */
  lemma StepIsHandler(s: WizardState, e: Event)
    requires ValidState(s) && s.step == 5 && !s.showTimer
    requires e.DateConfirmed? || (e.DatePicked? && ValidDate(e.date))
    ensures e.DateConfirmed? ==> Step(s, e) == DateSubmit(s)
    ensures e.DatePicked? ==> Step(s, e) == PickDate(s, e.date)
  {
    assert Enabled(s, e);
  }

  // ---------------------------------------------------------------------

  /** The wizard component's state, updated in place by its handlers. The
      callbacks `onSubmit` and `onClose` are recorded, in order, in
      `effects`. */
  class GTDModal {
    var step: int
    var todo: PartialTodo
    var showTimer: bool
    var selectedDate: string
    var currentMonth: CalendarDate
    var effects: seq<Effect>

    function State(): WizardState
      reads this
    {
      WizardState(step, todo, showTimer, selectedDate)
    }

    predicate Valid()
      reads this
    {
      ValidState(State()) && SelectionOk(selectedDate) && 1 <= currentMonth.month <= 12 && 1 <= currentMonth.day
    }

    /** Mounting with `initialTodo`; `today` is `new Date()`. */
    constructor (initialTodo: Option<PartialTodo>, today: CalendarDate)
      requires 1 <= today.month <= 12 && 1 <= today.day
      ensures Valid() && State() == Init(initialTodo) && currentMonth == today && effects == []
    {
      step := 1;
      todo := initialTodo.GetOr(EmptyTodo);
      showTimer := false;
      selectedDate := "";
      currentMonth := today;
      effects := [];
    }

    method HandleFinalClose()
      requires Valid()
      modifies this
      ensures Valid() && State() == FinalClose(old(State())).next
      ensures effects == old(effects) + [Closed] && currentMonth == old(currentMonth)
    {
      step := 1;
      todo := EmptyTodo;
      showTimer := false;
      effects := effects + [Closed];
    }

    method HandleYes()
      requires Valid() && !showTimer
      modifies this
      ensures Valid() && State() == Yes(old(State())).next
      ensures effects == old(effects) && currentMonth == old(currentMonth)
    {
      match step {
        case 1 => step := 2;
        case 2 => step := 3;
        case 3 =>
          step := 4;
          showTimer := true;
        case 4 => step := 5;
        case _ =>
      }
    }

    method HandleNo()
      requires Valid() && !showTimer
      modifies this
      ensures Valid() && State() == No(old(State())).next
      ensures effects == old(effects) + No(old(State())).emitted && currentMonth == old(currentMonth)
    {
      match step {
        case 1 =>
          effects := effects + [Submitted(todo.(category := Some(WaitingFor)))];
          HandleFinalClose();
        case 2 =>
          effects := effects + [Submitted(todo.(category := Some(Project)))];
          HandleFinalClose();
        case 3 => step := 4;
        case 4 =>
          effects := effects + [Submitted(todo.(category := Some(NextAction)))];
          HandleFinalClose();
        case _ =>
      }
    }

    method HandleTimerComplete()
      requires Valid()
      modifies this
      ensures Valid() && State() == TimerComplete(old(State())).next
      ensures effects == old(effects) + TimerComplete(old(State())).emitted && currentMonth == old(currentMonth)
    {
      effects := effects + [Submitted(todo.(category := Some(Inbox), done := Some(true)))];
      HandleFinalClose();
    }

    method HandleTimerCancel()
      requires Valid()
      modifies this
      ensures Valid() && State() == TimerCancel(old(State())).next
      ensures effects == old(effects) && currentMonth == old(currentMonth)
    {
      showTimer := false;
      step := 4;
    }

    /** The "back" button of the date step: `setStep(4)`. */
    method HandleBack()
      requires Valid() && !showTimer
      modifies this
      ensures Valid() && State() == Back(old(State())).next
      ensures effects == old(effects) && currentMonth == old(currentMonth)
    {
      step := 4;
    }

    /** A click on a grid cell: `setSelectedDate(dateString)`. */
    method HandleDatePick(d: CalendarDate)
      requires Valid() && ValidDate(d)
      modifies this
      ensures Valid() && State() == PickDate(old(State()), d).next
      ensures effects == old(effects) && currentMonth == old(currentMonth)
    {
      ghost var picked := PickDate(State(), d).next;
      var text := FormatDateString(d);
      assert picked.selectedDate == text && ParseDateString(text) == Some(d);
      selectedDate := text;
      assert State() == picked;
    }

    method HandleDateSubmit()
      requires Valid()
      modifies this
      ensures Valid() && State() == DateSubmit(old(State())).next
      ensures effects == old(effects) + DateSubmit(old(State())).emitted && currentMonth == old(currentMonth)
    {
      ghost var before := State();
      if selectedDate != "" {
        var date := ParseDateString(selectedDate).value;
        var out := todo.(category := Some(Calendar), dueDate := Some(IsoString(EndOfDay(date))));
        SubmitSelected(before, date);
        effects := effects + [Submitted(out)];
        assert State() == before;
        ghost var sent := effects;
        HandleFinalClose();
        assert effects == sent + [Closed];
      } else {
        assert DateSubmit(before) == Transition(before, []);
      }
    }

    /** The "previous month" arrow (as corrected: the day is clamped first). */
    method HandlePreviousMonth()
      requires Valid()
      modifies this
      ensures Valid() && State() == old(State()) && effects == old(effects)
      ensures currentMonth == PreviousMonth(old(currentMonth))
    {
      currentMonth := PreviousMonth(currentMonth);
    }

    /** The "next month" arrow (as corrected: the day is clamped first). */
    method HandleNextMonth()
      requires Valid()
      modifies this
      ensures Valid() && State() == old(State()) && effects == old(effects)
      ensures currentMonth == NextMonth(old(currentMonth))
    {
      currentMonth := NextMonth(currentMonth);
    }

    /** The cells the calendar shows for the displayed month. */
    method VisibleDays() returns (days: seq<Cell>)
      requires Valid()
      ensures GridShape(days, currentMonth.year, currentMonth.month,
                        FirstDayOfWeek(currentMonth.year, currentMonth.month) - 1)
    {
      days := GetDaysInMonth(currentMonth.year, currentMonth.month);
    }
  }
}
