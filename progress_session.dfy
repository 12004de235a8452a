/** The progress session the dialog manager keeps in its `_controller` field
    (MessageDialogManagerLib/MessageDialogManagerMahapps.cs, lines 16 and 49-75),
    stated as a pure transition function over "no controller" / "a controller". */
module ProgressSession {
  import opened Wrappers

  /** Identifies one controller object returned by the toolkit's ShowProgressAsync. */
  type ControllerId = nat

  /** The toolkit's progress dialog controller, as far as the manager touches it.
      `value` is None until the manager first sets a progress value. */
  datatype Progress = Progress(
    handle: ControllerId,
    title: string,
    message: string,
    minimum: int,
    maximum: int,
    value: Option<int>)

  /** The four manager operations that act on the session. */
  datatype Op =
    | Show(title: string, message: string, handle: ControllerId)
    | SetProgress(progress: int)
    | SetMessage(message: string)
    | Close

  /** What the user sees happen to progress dialogs. */
  datatype Event = Opened(handle: ControllerId, title: string, message: string) | Closed(handle: ControllerId)

  datatype Transition = Transition(controller: Option<Progress>, events: seq<Event>)

  predicate IsUpdate(op: Op) {
    op.SetProgress? || op.SetMessage?
  }

  /** The manager's own invariant on the controller: its range is 0..100. */
  predicate WellFormed(c: Option<Progress>) {
    c.Some? ==> c.value.minimum == 0 && c.value.maximum == 100
  }

  /** One manager call on the session. */
  function Step(c: Option<Progress>, op: Op): Transition {
    match op
    case Show(title, message, handle) =>
      // ShowProgress: the new controller replaces the field; the old one is not closed.
      Transition(Some(Progress(handle, title, message, 0, 100, None)), [Opened(handle, title, message)])
    case SetProgress(p) =>
      if c.None? then Transition(c, []) else Transition(Some(c.value.(value := Some(p))), [])
    case SetMessage(m) =>
      if c.None? then Transition(c, []) else Transition(Some(c.value.(message := m)), [])
    case Close =>
      if c.None? then Transition(None, []) else Transition(None, [Closed(c.value.handle)])
  }

  /** A sequence of manager calls, in order. */
  function Run(c: Option<Progress>, ops: seq<Op>): Transition
    decreases |ops|
  {
    if ops == [] then Transition(c, [])
    else
      var first := Step(c, ops[0]);
      var rest := Run(first.controller, ops[1..]);
      Transition(rest.controller, first.events + rest.events)
  }

  function Opens(es: seq<Event>): nat {
    if es == [] then 0 else (if es[0].Opened? then 1 else 0) + Opens(es[1..])
  }

  function Closes(es: seq<Event>): nat {
    if es == [] then 0 else (if es[0].Closed? then 1 else 0) + Closes(es[1..])
  }

  function Live(c: Option<Progress>): nat {
    if c.Some? then 1 else 0
  }

  /** Updating while no session is open does nothing and shows nothing. */
  lemma UpdateWithoutSessionIsNoOp(op: Op)
    requires IsUpdate(op)
    ensures Step(None, op) == Transition(None, [])
  {
  }

  /** Updating an open session changes only the progress value or only the message,
      and shows or closes nothing. */
  lemma UpdateChangesOnlyItsField(p: Progress, op: Op)
    requires IsUpdate(op)
    ensures Step(Some(p), op).events == []
    ensures Step(Some(p), op).controller.Some?
    ensures var q := Step(Some(p), op).controller.value;
      && q.handle == p.handle && q.title == p.title
      && q.minimum == p.minimum && q.maximum == p.maximum
      && (op.SetProgress? ==> q.value == Some(op.progress) && q.message == p.message)
      && (op.SetMessage? ==> q.message == op.message && q.value == p.value)
  {
  }

  /** After CloseProgress there is no controller; the open one, if any, was closed once. */
  lemma CloseEndsSession(c: Option<Progress>)
    ensures Step(c, Close).controller == None
    ensures c.None? ==> Step(c, Close).events == []
    ensures c.Some? ==> Step(c, Close).events == [Closed(c.value.handle)]
  {
  }

  /** Closing twice is the same as closing once: the second call closes nothing. */
  lemma CloseIsIdempotent(c: Option<Progress>)
    ensures Run(c, [Close, Close]) == Step(c, Close)
  {
  }

  /** ShowProgress always leaves a controller ranging over 0..100 and replaces any open
      one without closing it. */
  lemma ShowReplacesWithoutClosing(c: Option<Progress>, title: string, message: string, h: ControllerId)
    ensures var t := Step(c, Show(title, message, h));
      && t.controller.Some? && t.controller.value.handle == h
      && t.controller.value.minimum == 0 && t.controller.value.maximum == 100
      && t.events == [Opened(h, title, message)]
      && Closes(t.events) == 0
  {
  }

  /** Every single call keeps the 0..100 range of the controller. */
  lemma StepKeepsWellFormed(c: Option<Progress>, op: Op)
    requires WellFormed(c)
    ensures WellFormed(Step(c, op).controller)
  {
  }

  /** Any sequence of calls keeps the 0..100 range of the controller. */
  lemma {:induction false} RunKeepsWellFormed(c: Option<Progress>, ops: seq<Op>)
    requires WellFormed(c)
    ensures WellFormed(Run(c, ops).controller)
    decreases |ops|
  {
    if ops != [] {
      StepKeepsWellFormed(c, ops[0]);
      RunKeepsWellFormed(Step(c, ops[0]).controller, ops[1..]);
    }
  }

  /** Without ShowProgress, updates and closes never open a session and show nothing. */
  lemma {:induction false} RunWithoutShowStaysClosed(ops: seq<Op>)
    requires forall i :: 0 <= i < |ops| ==> !ops[i].Show?
    ensures Run(None, ops) == Transition(None, [])
    decreases |ops|
  {
    if ops != [] {
      assert Step(None, ops[0]) == Transition(None, []);
      RunWithoutShowStaysClosed(ops[1..]);
    }
  }

  lemma {:induction false} OpensAppend(a: seq<Event>, b: seq<Event>)
    ensures Opens(a + b) == Opens(a) + Opens(b)
    ensures Closes(a + b) == Closes(a) + Closes(b)
    decreases |a|
  {
    if a == [] {
      assert a + b == b;
    } else {
      assert (a + b)[0] == a[0];
      assert (a + b)[1..] == a[1..] + b;
      OpensAppend(a[1..], b);
    }
  }

  /** Controllers closed plus the one still open never exceed controllers opened plus the
      one open at the start: nothing is closed that was not opened. */
  lemma {:induction false} RunClosesOnlyOpened(c: Option<Progress>, ops: seq<Op>)
    ensures var t := Run(c, ops);
      Closes(t.events) + Live(t.controller) <= Opens(t.events) + Live(c)
    decreases |ops|
  {
    if ops != [] {
      var first := Step(c, ops[0]);
      var rest := Run(first.controller, ops[1..]);
      RunClosesOnlyOpened(first.controller, ops[1..]);
      OpensAppend(first.events, rest.events);
      assert Closes(first.events) + Live(first.controller) <= Opens(first.events) + Live(c);
    }
  }

  /** In show, show, close only the second controller is closed. */
  lemma ReopenLeaksFirstController()
    ensures Run(None, [Show("a", "m", 1), Show("b", "m", 2), Close]).events
         == [Opened(1, "a", "m"), Opened(2, "b", "m"), Closed(2)]
  {
  }

  /** A controller that is not in the field is never closed by later calls, unless a
      controller with the same handle is shown again. */
  lemma {:induction false} AbsentControllerIsNeverClosed(c: Option<Progress>, ops: seq<Op>, h: ControllerId)
    requires c.None? || c.value.handle != h
    requires forall i :: 0 <= i < |ops| ==> !(ops[i].Show? && ops[i].handle == h)
    ensures Closed(h) !in Run(c, ops).events
    decreases |ops|
  {
    if ops != [] {
      var first := Step(c, ops[0]);
      assert Closed(h) !in first.events;
      assert forall i :: 0 <= i < |ops[1..]| ==> ops[1..][i] == ops[i + 1];
      AbsentControllerIsNeverClosed(first.controller, ops[1..], h);
    }
  }

  /** ShowProgress while a controller is open leaks that controller: no later sequence of
      calls that does not show the same handle again ever closes it. */
  lemma ReplacedControllerIsNeverClosed(p: Progress, title: string, message: string, h: ControllerId, ops: seq<Op>)
    requires h != p.handle
    requires forall i :: 0 <= i < |ops| ==> !(ops[i].Show? && ops[i].handle == p.handle)
    ensures Closed(p.handle) !in Run(Some(p), [Show(title, message, h)] + ops).events
  {
    var all := [Show(title, message, h)] + ops;
    assert all[0] == Show(title, message, h) && all[1..] == ops;
    AbsentControllerIsNeverClosed(Step(Some(p), all[0]).controller, ops, p.handle);
  }

  /** Show, update the value, update the message, close: the session goes
      closed, open, open, open, closed, and only the shown controller is closed. */
  lemma ShowUpdateCloseScenario()
    ensures var c1 := Step(None, Show("Progress", "Working", 7)).controller;
      var c2 := Step(c1, SetProgress(50)).controller;
      var c3 := Step(c2, SetMessage("Halfway")).controller;
      && c1 == Some(Progress(7, "Progress", "Working", 0, 100, None))
      && c2 == Some(Progress(7, "Progress", "Working", 0, 100, Some(50)))
      && c3 == Some(Progress(7, "Progress", "Halfway", 0, 100, Some(50)))
      && Step(c3, Close) == Transition(None, [Closed(7)])
  {
  }
}
