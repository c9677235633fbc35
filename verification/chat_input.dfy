/** The message input box: the submit guard, the Enter-key rule and the
    send button's enabled state. */
module ChatInput {
  import opened Types
  import opened Text

  /** What a submit attempt does: the text handed to the send callback, if
      any, and the contents of the input box afterwards. */
  datatype Submission = Submission(sent: Option<string>, input: string)

  /** What a key press does: whether the default action (a newline) was
      suppressed, and the submit attempt it made, if any. */
  datatype KeyOutcome = KeyOutcome(defaultPrevented: bool, submission: Option<Submission>)

  /** Submitting sends the trimmed input and empties the box, but only when
      the trimmed input is non-empty and the box is not disabled; otherwise
      nothing is sent and the box keeps its contents. */
  function Submit(input: string, disabled: bool): (r: Submission)
    ensures r.sent != None <==> !AllWhitespace(input) && !disabled
    ensures r.sent != None ==> r.sent.value == Trim(input) && r.input == ""
    ensures r.sent == None ==> r.input == input
  {
    TrimEmptyIff(input);
    var text := Trim(input);
    if text != "" && !disabled then Submission(Some(text), "") else Submission(None, input)
  }

  /** Enter without Shift suppresses the newline and submits; every other
      key, and Shift+Enter, leaves the box to its default behaviour. */
  function KeyDown(key: string, shift: bool, input: string, disabled: bool): (r: KeyOutcome)
    ensures r.defaultPrevented <==> key == "Enter" && !shift
    ensures r.submission != None <==> key == "Enter" && !shift
    ensures r.submission != None ==> r.submission.value == Submit(input, disabled)
  {
    if key == "Enter" && !shift then KeyOutcome(true, Some(Submit(input, disabled)))
    else KeyOutcome(false, None)
  }

  /** The send button is enabled unless the box is disabled or holds only whitespace. */
  function SendEnabled(input: string, disabled: bool): (r: bool)
    ensures r <==> !disabled && !AllWhitespace(input)
  {
    TrimEmptyIff(input);
    !(disabled || Trim(input) == "")
  }

  /** The button's enabled state and the submit guard agree: clicking an
      enabled button always sends, and a disabled button could not have sent. */
  lemma EnabledButtonSends(input: string, disabled: bool)
    ensures SendEnabled(input, disabled) <==> Submit(input, disabled).sent != None
  {
  }

  /** The sent text is non-empty and has no whitespace at either end, so
      trimming it again would not change it. */
  lemma SentTextIsTrimmed(input: string, disabled: bool)
    requires Submit(input, disabled).sent != None
    ensures var t := Submit(input, disabled).sent.value;
      t != "" && IsTrimmed(t) && Trim(t) == t
  {
    TrimEmptyIff(input);
    TrimIdempotent(input);
  }

  /** A second submit right after a successful one sends nothing, because
      the box was emptied. */
  lemma NoDoubleSubmit(input: string, disabled: bool, disabled': bool)
    requires Submit(input, disabled).sent != None
    ensures Submit(Submit(input, disabled).input, disabled').sent == None
  {
  }
}
