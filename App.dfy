/** The login screen component: the five state variables it keeps, each
    updated in place by its setter, and the handlers wired to the controls.
    The timer callback handleLogin schedules is the `pending` field; it runs
    as the separate handler TimerCallback. */
module App {
  import opened Text
  import opened Feedback
  import opened LoginFlow

  class LoginScreen {
    var username: string
    var password: string
    var message: string
    var modalVisible: bool
    var isLoading: bool
    var pending: Option<Credentials>

    /** The screen's fields as one value. */
    function State(): Form
      reads this
    {
      Form(username, password, message, modalVisible, isLoading, pending)
    }

    ghost predicate Valid()
      reads this
    {
      LoginFlow.Valid(State())
    }

    constructor ()
      ensures State() == Initial && Valid()
    {
      username := "";
      password := "";
      message := "";
      modalVisible := false;
      isLoading := false;
      pending := None;
    }

    /** onChangeText of the username field (not editable while loading). */
    method SetUsername(text: string)
      requires Valid() && !isLoading
      modifies this`username
      ensures State() == EditUsername(old(State()), text) && Valid()
    {
      username := text;
    }

    /** onChangeText of the password field (not editable while loading). */
    method SetPassword(text: string)
      requires Valid() && !isLoading
      modifies this`password
      ensures State() == EditPassword(old(State()), text) && Valid()
    {
      password := text;
    }

    /** handleLogin, up to scheduling the timer. */
    method HandleLogin()
      requires Valid() && !isLoading
      modifies this
      ensures State() == Submit(old(State())) && Valid()
    {
      StepKeepsValid(State(), PressLogin);
      var trimmedUsername := Trim(username);
      var trimmedPassword := Trim(password);
      if trimmedUsername == "" || trimmedPassword == "" {
        message := MissingFieldsMessage;
        modalVisible := true;
        return;
      }
      isLoading := true;
      pending := Some(Credentials(trimmedUsername, trimmedPassword));
    }

    /** The callback handleLogin scheduled, run when its timer elapses. */
    method TimerCallback()
      requires Valid() && pending.Some?
      modifies this
      ensures State() == TimerFires(old(State())) && Valid()
    {
      StepKeepsValid(State(), TimerElapsed);
      var captured := pending.value;
      pending := None;
      if Accepts(captured) {
        message := SuccessMessage;
        modalVisible := true;
        username := "";
        password := "";
      } else {
        message := WrongPasswordMessage;
        modalVisible := true;
      }
      isLoading := false;
    }

    /** closeModal. */
    method CloseModal()
      requires Valid()
      modifies this`modalVisible
      ensures State() == Close(old(State())) && Valid()
    {
      modalVisible := false;
    }

    /** resetForm (the Clear control is disabled while loading). */
    method ResetForm()
      requires Valid() && !isLoading
      modifies this`username, this`password
      ensures State() == Reset(old(State())) && Valid()
    {
      username := "";
      password := "";
    }
  }
}
