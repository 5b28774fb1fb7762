/** The login screen's state and its transitions, as values: the five fields
    the screen keeps (username, password, message, modalVisible, isLoading)
    plus the timer callback that handleLogin schedules and that has not fired
    yet. The delayed credential check is split into two transitions: Submit,
    which runs when Login is pressed, and TimerFires, which runs the callback
    with the trimmed values it captured. */
module LoginFlow {
  import opened Text
  import opened Feedback

  /** The one credential pair the form accepts (exact, case-sensitive). */
  const AdminUsername := "admin"
  const AdminPassword := "1234"

  datatype Option<T> = None | Some(value: T)

  /** The trimmed pair captured by a scheduled timer callback. */
  datatype Credentials = Credentials(username: string, password: string)

  datatype Form = Form(
    username: string,
    password: string,
    message: string,
    modalVisible: bool,
    isLoading: bool,
    pending: Option<Credentials>)

  /** Every field as the screen mounts: empty texts, flags down, no timer. */
  const Initial := Form("", "", "", false, false, None)

  predicate Accepts(c: Credentials) {
    c.username == AdminUsername && c.password == AdminPassword
  }

  /** The text fields as the user types (onChangeText); not editable while
      loading. */
  function EditUsername(f: Form, text: string): (g: Form)
    requires !f.isLoading
    ensures g.username == text
    ensures g.(username := f.username) == f
  {
    f.(username := text)
  }

  function EditPassword(f: Form, text: string): (g: Form)
    requires !f.isLoading
    ensures g.password == text
    ensures g.(password := f.password) == f
  {
    f.(password := text)
  }

  /** handleLogin up to the timer: a field that trims to nothing is reported
      at once; otherwise loading starts and the trimmed pair is captured for
      the delayed check. The Login control is disabled while loading. */
  function Submit(f: Form): (g: Form)
    requires !f.isLoading
    ensures AllWhite(f.username) || AllWhite(f.password) ==>
              g == f.(message := MissingFieldsMessage, modalVisible := true)
    ensures !AllWhite(f.username) && !AllWhite(f.password) ==>
              g == f.(isLoading := true,
                      pending := Some(Credentials(Trim(f.username), Trim(f.password))))
  {
    var trimmedUsername := Trim(f.username);
    var trimmedPassword := Trim(f.password);
    if trimmedUsername == "" || trimmedPassword == "" then
      f.(message := MissingFieldsMessage, modalVisible := true)
    else
      f.(isLoading := true, pending := Some(Credentials(trimmedUsername, trimmedPassword)))
  }

  /** The timer callback: compares the captured pair, shows the outcome,
      clears the fields only on success, and ends loading. */
  function TimerFires(f: Form): (g: Form)
    requires f.pending.Some?
    ensures g.modalVisible && !g.isLoading && g.pending == None
    ensures g.message == SuccessMessage <==> Accepts(f.pending.value)
    ensures Accepts(f.pending.value) ==> g.username == "" && g.password == ""
    ensures !Accepts(f.pending.value) ==>
              g.message == WrongPasswordMessage &&
              g.username == f.username && g.password == f.password
  {
    var c := f.pending.value;
    var shown :=
      if Accepts(c) then
        f.(message := SuccessMessage, modalVisible := true, username := "", password := "")
      else
        f.(message := WrongPasswordMessage, modalVisible := true);
    shown.(isLoading := false, pending := None)
  }

  /** closeModal: hides the dialog and nothing else. */
  function Close(f: Form): (g: Form)
    ensures !g.modalVisible
    ensures g.(modalVisible := f.modalVisible) == f
  {
    f.(modalVisible := false)
  }

  /** resetForm: empties both text fields and nothing else; the Clear
      control is disabled while loading. */
  function Reset(f: Form): (g: Form)
    requires !f.isLoading
    ensures g.username == "" && g.password == ""
    ensures g.(username := f.username, password := f.password) == f
  {
    f.(username := "", password := "")
  }

  /** A captured pair is what Submit captures: both trimmed and non-empty. */
  predicate Captured(c: Credentials) {
    c.username != "" && c.password != "" &&
    Trim(c.username) == c.username && Trim(c.password) == c.password
  }

  /** What holds of the screen at every moment: it is loading exactly while a
      timer callback is pending, a pending pair is a trimmed, non-empty one,
      and the message is one of the form's own (empty only before any dialog
      was shown). */
  predicate Valid(f: Form) {
    (f.isLoading <==> f.pending.Some?) &&
    (f.pending.Some? ==> Captured(f.pending.value)) &&
    f.message in {"", MissingFieldsMessage, SuccessMessage, WrongPasswordMessage} &&
    (f.modalVisible ==> f.message != "")
  }

  /** What the user and the timer can do. */
  datatype Event =
    | TypeUsername(text: string)
    | TypePassword(text: string)
    | PressLogin
    | TimerElapsed
    | PressClose
    | PressClear

  /** One event. A control that is disabled while loading ignores the event,
      and a timer event with no callback scheduled changes nothing. Loading
      starts only on a Login press and ends only when the timer elapses. */
  function Step(f: Form, e: Event): (g: Form)
    ensures f.isLoading && e != TimerElapsed && e != PressClose ==> g == f
    ensures e == TimerElapsed && f.pending == None ==> g == f
    ensures !f.isLoading && g.isLoading ==> e == PressLogin
    ensures f.isLoading && !g.isLoading ==> e == TimerElapsed
  {
    match e
    case TypeUsername(text) => if f.isLoading then f else EditUsername(f, text)
    case TypePassword(text) => if f.isLoading then f else EditPassword(f, text)
    case PressLogin => if f.isLoading then f else Submit(f)
    case TimerElapsed => if f.pending.Some? then TimerFires(f) else f
    case PressClose => Close(f)
    case PressClear => if f.isLoading then f else Reset(f)
  }

  /** A sequence of events, one after the other. Without a Login press the
      screen never starts loading. */
  function Run(f: Form, events: seq<Event>): (g: Form)
    ensures events == [] ==> g == f
    ensures !f.isLoading && (forall i :: 0 <= i < |events| ==> events[i] != PressLogin) ==>
              !g.isLoading
    decreases |events|
  {
    if events == [] then f else Run(Step(f, events[0]), events[1..])
  }

  lemma InitialValid()
    ensures Valid(Initial)
  {
  }

  /** Every event keeps the screen's invariant. */
  lemma StepKeepsValid(f: Form, e: Event)
    requires Valid(f)
    ensures Valid(Step(f, e))
  {
    match e {
      case PressLogin =>
        if !f.isLoading {
          TrimIdempotent(f.username);
          TrimIdempotent(f.password);
        }
      case TimerElapsed =>
      case _ =>
    }
  }

  lemma {:induction false} RunKeepsValid(f: Form, events: seq<Event>)
    requires Valid(f)
    ensures Valid(Run(f, events))
    decreases |events|
  {
    if events != [] {
      StepKeepsValid(f, events[0]);
      RunKeepsValid(Step(f, events[0]), events[1..]);
    }
  }

  /** Whatever the screen has been through, a visible dialog shows one of the
      three outcomes, and the colour and icon re-derived from its text are
      that outcome's. */
  lemma DialogClassified(events: seq<Event>)
    ensures var f := Run(Initial, events);
      f.modalVisible ==>
        exists o: Outcome :: f.message == MessageOf(o) &&
          ModalColor(f.message) == ColorOf(o) && ModalIcon(f.message) == IconOf(o)
  {
    var f := Run(Initial, events);
    RunKeepsValid(Initial, events);
    if f.modalVisible {
      var o :=
        if f.message == SuccessMessage then Success
        else if f.message == MissingFieldsMessage then MissingFields
        else WrongCredentials;
      ClassifiesMessages(o);
    }
  }

  /** Submit followed by its timer: the login succeeds exactly when the
      trimmed inputs are "admin" and "1234"; success clears both fields,
      failure leaves the untrimmed texts as typed; loading ends either way. */
  lemma SubmitThenTimer(f: Form)
    requires !f.isLoading && !AllWhite(f.username) && !AllWhite(f.password)
    ensures var g := TimerFires(Submit(f));
      g.modalVisible && !g.isLoading &&
      (g.message == SuccessMessage <==>
        Trim(f.username) == AdminUsername && Trim(f.password) == AdminPassword) &&
      (g.message == SuccessMessage ==> g.username == "" && g.password == "") &&
      (g.message != SuccessMessage ==>
        g.message == WrongPasswordMessage &&
        g.username == f.username && g.password == f.password)
  {
  }

  /** Surrounding white space is ignored: "  admin " / " 1234", or any
      other padding of the two, logs in. */
  lemma PaddedAdminLogsIn(f: Form, pre: string, post: string, pre': string, post': string)
    requires !f.isLoading
    requires AllWhite(pre) && AllWhite(post) && f.username == pre + AdminUsername + post
    requires AllWhite(pre') && AllWhite(post') && f.password == pre' + AdminPassword + post'
    ensures var g := Submit(f);
      g.pending == Some(Credentials(AdminUsername, AdminPassword)) &&
      TimerFires(g).message == SuccessMessage
  {
    AdminNotPadded();
    TrimPadded(pre, AdminUsername, post);
    TrimPadded(pre', AdminPassword, post');
  }

  /** Neither accepted credential starts or ends with white space. */
  lemma AdminNotPadded()
    ensures !IsWhiteSpace(AdminUsername[0]) && !IsWhiteSpace(AdminUsername[|AdminUsername| - 1])
    ensures !IsWhiteSpace(AdminPassword[0]) && !IsWhiteSpace(AdminPassword[|AdminPassword| - 1])
  {
  }

  /** The comparison is case-sensitive: "Admin" / "1234" is refused. */
  lemma WrongCaseRefused(f: Form)
    requires !f.isLoading && f.username == "Admin" && f.password == AdminPassword
    ensures var g := Submit(f);
      g.pending.Some? && TimerFires(g).message == WrongPasswordMessage
  {
    TrimUnpadded(f.username);
    TrimUnpadded(f.password);
  }

  /** Closing the dialog twice is closing it once. */
  lemma CloseIdempotent(f: Form)
    ensures Close(Close(f)) == Close(f)
  {
  }
}
