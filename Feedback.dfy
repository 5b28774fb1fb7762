/** The feedback dialog: the three messages the login form produces and the
    accent colour and icon the dialog derives from the message text alone. */
module Feedback {
  import opened Text

  const MissingFieldsMessage := "Please fill in all fields"
  const SuccessMessage := "Login Successful! Welcome back!"
  const WrongPasswordMessage := "Wrong Password. Please try again."

  const SuccessColor := "#4CAF50"
  const WarningColor := "#FF9800"
  const ErrorColor := "#f44336"

  const Checkmark := "\U{2713}"
  const Exclamation := "!"

  /** getModalColor: substring tests in a fixed priority order, success first,
      then missing fields, and the error accent for everything else. */
  function ModalColor(message: string): (color: string)
    ensures color == SuccessColor <==> Includes(message, "Login Successful")
    ensures color == WarningColor <==>
              !Includes(message, "Login Successful") && Includes(message, "Please fill")
    ensures color == ErrorColor <==>
              !Includes(message, "Login Successful") && !Includes(message, "Please fill")
  {
    if Includes(message, "Login Successful") then SuccessColor
    else if Includes(message, "Please fill") then WarningColor
    else ErrorColor
  }

  /** The dialog's icon: a check mark exactly for a success message. */
  function ModalIcon(message: string): (icon: string)
    ensures icon == Checkmark <==> Includes(message, "Login Successful")
    ensures icon == Exclamation <==> !Includes(message, "Login Successful")
  {
    if Includes(message, "Login Successful") then Checkmark else Exclamation
  }

  /** The icon and the accent agree on what counts as success. */
  lemma IconAgreesWithColor(message: string)
    ensures ModalIcon(message) == Checkmark <==> ModalColor(message) == SuccessColor
  {
  }

  /** The outcome of one submission, as a closed set of causes. */
  datatype Outcome = Success | MissingFields | WrongCredentials

  /** The message the form shows for each outcome. */
  function MessageOf(o: Outcome): (message: string)
    ensures message in {MissingFieldsMessage, SuccessMessage, WrongPasswordMessage}
  {
    match o
    case Success => SuccessMessage
    case MissingFields => MissingFieldsMessage
    case WrongCredentials => WrongPasswordMessage
  }

  /** The accent each outcome is meant to get. */
  function ColorOf(o: Outcome): string {
    match o
    case Success => SuccessColor
    case MissingFields => WarningColor
    case WrongCredentials => ErrorColor
  }

  /** The icon each outcome is meant to get. */
  function IconOf(o: Outcome): string {
    if o == Success then Checkmark else Exclamation
  }

  /** Re-deriving the accent and icon from the text of each message the form
      produces gives back exactly the intended outcome: three distinct colours
      for the three messages. */
  lemma ClassifiesMessages(o: Outcome)
    ensures ModalColor(MessageOf(o)) == ColorOf(o)
    ensures ModalIcon(MessageOf(o)) == IconOf(o)
    ensures forall p: Outcome :: p != o ==> ColorOf(p) != ColorOf(o)
  {
    match o
    case Success => SuccessClassified();
    case MissingFields => MissingFieldsClassified();
    case WrongCredentials => WrongPasswordClassified();
  }

  lemma SuccessClassified()
    ensures ModalColor(SuccessMessage) == SuccessColor
    ensures ModalIcon(SuccessMessage) == Checkmark
  {
    assert SuccessMessage[..16] == "Login Successful";
    assert OccursAt(SuccessMessage, "Login Successful", 0);
  }

  lemma MissingFieldsClassified()
    ensures ModalColor(MissingFieldsMessage) == WarningColor
    ensures ModalIcon(MissingFieldsMessage) == Exclamation
  {
    Lacks(MissingFieldsMessage, "Login Successful", 0);
    assert MissingFieldsMessage[..11] == "Please fill";
    assert OccursAt(MissingFieldsMessage, "Please fill", 0);
  }

  lemma WrongPasswordClassified()
    ensures ModalColor(WrongPasswordMessage) == ErrorColor
    ensures ModalIcon(WrongPasswordMessage) == Exclamation
  {
    Lacks(WrongPasswordMessage, "Login Successful", 0);
    Lacks(WrongPasswordMessage, "Please fill", 7);
  }

  /** A text that lacks one of the characters of `sub` does not include `sub`. */
  lemma Lacks(s: string, sub: string, j: nat)
    requires j < |sub| && sub[j] !in s
    ensures !Includes(s, sub)
  {
    forall k: nat | k + |sub| <= |s| ensures !OccursAt(s, sub, k) {
      assert s[k..k + |sub|][j] == s[k + j];
    }
  }
}
