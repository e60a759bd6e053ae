/**
 * AlertDialogSamples: the dialog-id dispatch of `onCreateDialog` and the progress counter that a
 * self-rescheduling handler advances while the horizontal progress dialog is showing.
 */
module AlertDialogSamples {
  import opened Common

  const DIALOG_YES_NO_MESSAGE: int := 1
  const DIALOG_YES_NO_LONG_MESSAGE: int := 2
  const DIALOG_LIST: int := 3
  const DIALOG_PROGRESS: int := 4
  const DIALOG_SINGLE_CHOICE: int := 5
  const DIALOG_MULTIPLE_CHOICE: int := 6
  const DIALOG_TEXT_ENTRY: int := 7
  const DIALOG_MULTIPLE_CHOICE_CURSOR: int := 8
  const DIALOG_YES_NO_ULTRA_LONG_MESSAGE: int := 9
  const DIALOG_YES_NO_OLD_SCHOOL_MESSAGE: int := 10
  const DIALOG_YES_NO_HOLO_LIGHT_MESSAGE: int := 11
  const DIALOG_YES_NO_DEFAULT_LIGHT_MESSAGE: int := 12
  const DIALOG_YES_NO_DEFAULT_DARK_MESSAGE: int := 13
  const DIALOG_PROGRESS_SPINNER: int := 14

  /** The maximum given to the progress dialog's bar. */
  const MAX_PROGRESS: int := 100

  /** Which of the fourteen dialogs `onCreateDialog` builds. */
  datatype DialogKind =
    | YesNoMessage | YesNoLongMessage | ListDialog | ProgressBar | SingleChoice | MultipleChoice
    | TextEntry | MultipleChoiceCursor | YesNoUltraLongMessage | YesNoOldSchoolMessage
    | YesNoHoloLightMessage | YesNoDefaultLightMessage | YesNoDefaultDarkMessage | ProgressSpinner

  /** The DIALOG_* constant that selects each dialog. */
  function DialogId(k: DialogKind): int {
    match k
    case YesNoMessage => DIALOG_YES_NO_MESSAGE
    case YesNoLongMessage => DIALOG_YES_NO_LONG_MESSAGE
    case ListDialog => DIALOG_LIST
    case ProgressBar => DIALOG_PROGRESS
    case SingleChoice => DIALOG_SINGLE_CHOICE
    case MultipleChoice => DIALOG_MULTIPLE_CHOICE
    case TextEntry => DIALOG_TEXT_ENTRY
    case MultipleChoiceCursor => DIALOG_MULTIPLE_CHOICE_CURSOR
    case YesNoUltraLongMessage => DIALOG_YES_NO_ULTRA_LONG_MESSAGE
    case YesNoOldSchoolMessage => DIALOG_YES_NO_OLD_SCHOOL_MESSAGE
    case YesNoHoloLightMessage => DIALOG_YES_NO_HOLO_LIGHT_MESSAGE
    case YesNoDefaultLightMessage => DIALOG_YES_NO_DEFAULT_LIGHT_MESSAGE
    case YesNoDefaultDarkMessage => DIALOG_YES_NO_DEFAULT_DARK_MESSAGE
    case ProgressSpinner => DIALOG_PROGRESS_SPINNER
  }

  /** `onCreateDialog`: the dialog for a DIALOG_* id, and `None` (Java's null) for any other id. */
  function OnCreateDialog(id: int): (d: Option<DialogKind>)
    ensures d.None? <==> !(DIALOG_YES_NO_MESSAGE <= id <= DIALOG_PROGRESS_SPINNER)
    ensures d.Some? ==> DialogId(d.value) == id
  {
    if id == DIALOG_YES_NO_MESSAGE then Some(YesNoMessage)
    else if id == DIALOG_YES_NO_LONG_MESSAGE then Some(YesNoLongMessage)
    else if id == DIALOG_YES_NO_ULTRA_LONG_MESSAGE then Some(YesNoUltraLongMessage)
    else if id == DIALOG_LIST then Some(ListDialog)
    else if id == DIALOG_PROGRESS then Some(ProgressBar)
    else if id == DIALOG_PROGRESS_SPINNER then Some(ProgressSpinner)
    else if id == DIALOG_SINGLE_CHOICE then Some(SingleChoice)
    else if id == DIALOG_MULTIPLE_CHOICE then Some(MultipleChoice)
    else if id == DIALOG_MULTIPLE_CHOICE_CURSOR then Some(MultipleChoiceCursor)
    else if id == DIALOG_TEXT_ENTRY then Some(TextEntry)
    else if id == DIALOG_YES_NO_OLD_SCHOOL_MESSAGE then Some(YesNoOldSchoolMessage)
    else if id == DIALOG_YES_NO_HOLO_LIGHT_MESSAGE then Some(YesNoHoloLightMessage)
    else if id == DIALOG_YES_NO_DEFAULT_LIGHT_MESSAGE then Some(YesNoDefaultLightMessage)
    else if id == DIALOG_YES_NO_DEFAULT_DARK_MESSAGE then Some(YesNoDefaultDarkMessage)
    else None
  }

  /** Every dialog is built from its own id: the two tables are inverse to each other. */
  lemma OnCreateDialogOfDialogId(k: DialogKind)
    ensures OnCreateDialog(DialogId(k)) == Some(k)
  {
  }

  /**
   * The state the progress handler works on: `mProgress`, the dialog's bar, whether the dialog is
   * showing, and how many messages wait in the handler's queue.
   */
  datatype Progress = Progress(counter: int, bar: int, showing: bool, pending: nat)

  /** A run in progress: the counter is within 0..MAX_PROGRESS and the bar agrees with it. */
  predicate InRun(p: Progress) {
    0 <= p.counter <= MAX_PROGRESS && p.bar == p.counter
  }

  /** `ProgressBar.setProgress` keeps the value within 0..max. */
  function ClampProgress(value: int, max: int): (r: int)
    requires 0 <= max
    ensures 0 <= r <= max
    ensures 0 <= value <= max ==> r == value
  {
    if value < 0 then 0 else if value > max then max else value
  }

  /** Pressing the progress button: show the dialog, reset counter and bar to 0, send one message. */
  function PressProgressButton(p: Progress): (q: Progress)
    ensures InRun(q) && q.counter == 0 && q.showing
    ensures q.pending == p.pending + 1
  {
    Progress(0, ClampProgress(0, MAX_PROGRESS), true, p.pending + 1)
  }

  /** `handleMessage` on one queued message. */
  function Handle(p: Progress): (q: Progress)
    requires p.pending > 0
    ensures p.counter < MAX_PROGRESS <==> q.pending == p.pending
    ensures p.counter < MAX_PROGRESS ==> q.counter == p.counter + 1 && q.showing == p.showing
    ensures p.counter >= MAX_PROGRESS ==> q == p.(showing := false, pending := p.pending - 1)
    ensures InRun(p) ==> InRun(q)
  {
    if p.counter >= MAX_PROGRESS then p.(showing := false, pending := p.pending - 1)
    else p.(counter := p.counter + 1, bar := ClampProgress(p.bar + 1, MAX_PROGRESS))
  }

  /** The state once every queued message, and every message they schedule, has been handled. */
  function Drain(p: Progress): Progress
    decreases p.pending, if p.counter < MAX_PROGRESS then MAX_PROGRESS - p.counter else 0
  {
    if p.pending == 0 then p else Drain(Handle(p))
  }

  /** How many messages the handler receives until the queue is empty. */
  function Handled(p: Progress): nat
    decreases p.pending, if p.counter < MAX_PROGRESS then MAX_PROGRESS - p.counter else 0
  {
    if p.pending == 0 then 0 else 1 + Handled(Handle(p))
  }

  /**
   * A run with at least one message queued ends with the counter and the bar both at
   * MAX_PROGRESS, the dialog dismissed and nothing left in the queue, after exactly
   * (MAX_PROGRESS - counter) increments and one final message per queued chain.
   */
  lemma {:induction false} DrainEndsAtMax(p: Progress)
    requires InRun(p) && p.pending > 0
    ensures Drain(p) == Progress(MAX_PROGRESS, MAX_PROGRESS, false, 0)
    ensures Handled(p) == (MAX_PROGRESS - p.counter) + p.pending
    decreases p.pending, MAX_PROGRESS - p.counter
  {
    var q := Handle(p);
    if q.pending > 0 {
      DrainEndsAtMax(q);
    } else {
      assert p.pending == 1 && p.counter == MAX_PROGRESS;
    }
  }

  /** Every state reached from a run in progress is still one: the counter never passes MAX_PROGRESS. */
  lemma {:induction false} StepsKeepInRun(p: Progress, n: nat)
    requires InRun(p)
    ensures InRun(Steps(p, n))
    decreases n
  {
    if n > 0 && p.pending > 0 {
      StepsKeepInRun(Handle(p), n - 1);
    }
  }

  /** The state after handling at most `n` messages. */
  function Steps(p: Progress, n: nat): Progress
    decreases n
  {
    if n == 0 || p.pending == 0 then p else Steps(Handle(p), n - 1)
  }

  /** The one pressing of the button that starts a run, followed by the whole run. */
  lemma PressThenDrain(p: Progress)
    ensures Drain(PressProgressButton(p)) == Progress(MAX_PROGRESS, MAX_PROGRESS, false, 0)
  {
    DrainEndsAtMax(PressProgressButton(p));
  }

  /** `ProgressDialog` as far as the counter sees it: a bar with a maximum, and whether it shows. */
  class ProgressDialog {
    const max: int
    var progress: int
    var showing: bool

    /** Built by `onCreateDialog(DIALOG_PROGRESS)`, which calls `setMax(MAX_PROGRESS)`. */
    constructor ()
      ensures max == MAX_PROGRESS && progress == 0 && !showing
    {
      max := MAX_PROGRESS;
      progress := 0;
      showing := false;
    }

    method Show()
      modifies this
      ensures showing && progress == old(progress)
    {
      showing := true;
    }

    method Dismiss()
      modifies this
      ensures !showing && progress == old(progress)
    {
      showing := false;
    }

    method SetProgress(value: int)
      requires 0 <= max
      modifies this
      ensures progress == ClampProgress(value, max) && showing == old(showing)
    {
      progress := ClampProgress(value, max);
    }

    method IncrementProgressBy(diff: int)
      requires 0 <= max
      modifies this
      ensures progress == ClampProgress(old(progress) + diff, max) && showing == old(showing)
    {
      SetProgress(progress + diff);
    }
  }

  class AlertDialogSamplesActivity {
    /** `mProgress`. */
    var progress: int
    /** `mProgressDialog`: null until the progress dialog is first shown. */
    var progressDialog: ProgressDialog?
    /** Messages waiting in `mProgressHandler`'s queue. */
    var pending: nat

    constructor ()
      ensures Valid()
      ensures progress == 0 && progressDialog == null && pending == 0
    {
      progress := 0;
      progressDialog := null;
      pending := 0;
    }

    /** The only progress dialog this activity builds has the bar maximum MAX_PROGRESS. */
    predicate Valid()
      reads this
    {
      progressDialog != null ==> progressDialog.max == MAX_PROGRESS
    }

    predicate HasDialog()
      reads this
    {
      Valid() && progressDialog != null
    }

    /** The handler's state as a value. */
    function State(): Progress
      reads this, progressDialog
      requires HasDialog()
    {
      Progress(progress, progressDialog.progress, progressDialog.showing, pending)
    }

    /**
     * The progress button: `showDialog(DIALOG_PROGRESS)` (which builds the dialog the first time),
     * then reset the counter and the bar to 0 and send the first message.
     */
    method ProgressButton()
      requires Valid()
      modifies this, progressDialog
      ensures HasDialog()
      ensures old(progressDialog) != null ==> progressDialog == old(progressDialog)
      ensures old(progressDialog) == null ==> fresh(progressDialog)
      ensures State() == PressProgressButton(Progress(old(progress), 0, false, old(pending)))
    {
      if progressDialog == null {
        progressDialog := new ProgressDialog();
      }
      progressDialog.Show();
      progress := 0;
      progressDialog.SetProgress(0);
      pending := pending + 1;
    }

    /** `handleMessage` for the next queued message. */
    method HandleMessage()
      requires HasDialog() && pending > 0
      modifies this, progressDialog
      ensures HasDialog() && progressDialog == old(progressDialog)
      ensures State() == Handle(old(State()))
    {
      pending := pending - 1;
      if progress >= MAX_PROGRESS {
        progressDialog.Dismiss();
      } else {
        progress := progress + 1;
        progressDialog.IncrementProgressBy(1);
        pending := pending + 1;
      }
    }

    /** The looper delivering queued messages until none is left; returns how many it delivered. */
    method RunMessageQueue() returns (handled: nat)
      requires HasDialog()
      modifies this, progressDialog
      ensures HasDialog() && progressDialog == old(progressDialog)
      ensures State() == Drain(old(State()))
      ensures handled == Handled(old(State()))
    {
      handled := 0;
      while pending > 0
        invariant HasDialog() && progressDialog == old(progressDialog)
        invariant Drain(State()) == Drain(old(State()))
        invariant handled + Handled(State()) == Handled(old(State()))
        decreases pending, if progress < MAX_PROGRESS then MAX_PROGRESS - progress else 0
      {
        HandleMessage();
        handled := handled + 1;
      }
    }
  }

  /** Pressing the button and letting the handler run ends with counter and bar at MAX_PROGRESS. */
  method ProgressRun(a: AlertDialogSamplesActivity) returns (handled: nat)
    requires a.Valid()
    modifies a, a.progressDialog
    ensures a.HasDialog()
    ensures a.progress == MAX_PROGRESS && a.progressDialog.progress == MAX_PROGRESS
    ensures !a.progressDialog.showing && a.pending == 0
    ensures handled == MAX_PROGRESS + 1 + old(a.pending)
  {
    a.ProgressButton();
    DrainEndsAtMax(a.State());
    handled := a.RunMessageQueue();
  }
}
