/** A rendered message's own state: the in-place editor of a user message,
    the action button offered for each role, and the attachment kind. */
module ChatMessage {
  import opened Types
  import opened Text

  /** Whether the editor is open and the text buffer it edits. */
  datatype Editor = Editor(editing: bool, buffer: string)

  /** What saving does: the text handed to the edit callback, if any, and the
      editor afterwards. */
  datatype SaveOutcome = SaveOutcome(edited: Option<string>, editor: Editor)

  /** The hover action next to a message. */
  datatype Action = EditAction | CopyAction

  /** An attached file, as far as the message view uses it. */
  datatype Attachment = Attachment(mimeType: string, url: string, name: string)

  /** A freshly rendered message: not editing, buffer holding the message text. */
  function Mount(m: Message): (r: Editor)
    ensures !r.editing && r.buffer == m.text
  {
    Editor(false, m.text)
  }

  /** The pencil button opens the editor over the current buffer. */
  function StartEdit(e: Editor): (r: Editor)
    ensures r.editing && r.buffer == e.buffer
  {
    e.(editing := true)
  }

  /** Typing into the editor replaces the buffer. */
  function Type(e: Editor, text: string): (r: Editor)
    ensures r.editing == e.editing && r.buffer == text
  {
    e.(buffer := text)
  }

  /** Saving hands the trimmed buffer to the edit callback only when there is
      a callback and the trimmed buffer differs from the message text; either
      way the editor closes, keeping its buffer as typed. */
  function Save(m: Message, hasOnEdit: bool, e: Editor): (r: SaveOutcome)
    ensures r.edited != None <==> hasOnEdit && Trim(e.buffer) != m.text
    ensures r.edited != None ==> r.edited.value == Trim(e.buffer)
    ensures !r.editor.editing && r.editor.buffer == e.buffer
  {
    var edited := if hasOnEdit && Trim(e.buffer) != m.text then Some(Trim(e.buffer)) else None;
    SaveOutcome(edited, e.(editing := false))
  }

  /** Cancelling closes the editor and restores the buffer to the message text. */
  function Cancel(m: Message, e: Editor): (r: Editor)
    ensures !r.editing && r.buffer == m.text
  {
    Editor(false, m.text)
  }

  /** The action offered while the editor is closed: copy for model
      messages, edit for user messages; none while editing. */
  function Actions(m: Message, e: Editor): (r: set<Action>)
    ensures EditAction in r <==> m.role == User && !e.editing
    ensures CopyAction in r <==> m.role != User && !e.editing
    ensures |r| <= 1
  {
    if e.editing then {}
    else match m.role
      case Model => {CopyAction}
      case User => {EditAction}
  }

  /** An attachment is shown as an image exactly when its MIME type starts
      with `image/`; no attachment is never an image. */
  function IsImage(a: Option<Attachment>): (r: bool)
    ensures r <==> a != None && |a.value.mimeType| >= 6 && a.value.mimeType[..6] == "image/"
  {
    match a
    case None => false
    case Some(att) => StartsWith(att.mimeType, "image/")
  }

  /** Saving an untouched buffer, or one that is the message text with only
      surrounding whitespace added, emits nothing for a message whose text
      is already trimmed, as every text sent from the input box is. */
  lemma SaveUnchangedIsSilent(m: Message, hasOnEdit: bool, e: Editor)
    requires IsTrimmed(m.text)
    requires exists pre, post :: AllWhitespace(pre) && AllWhitespace(post) && e.buffer == pre + m.text + post
    ensures Save(m, hasOnEdit, e).edited == None
  {
    var pre, post :| AllWhitespace(pre) && AllWhitespace(post) && e.buffer == pre + m.text + post;
    var s := e.buffer;
    var i, j := |pre|, |pre| + |m.text|;
    assert s[i..j] == m.text;
    assert CutAt(s, i, j) by {
      assert forall k :: 0 <= k < i ==> s[k] == pre[k];
      assert forall k :: j <= k < |s| ==> s[k] == post[k - j];
    }
    assert IsTrimOf(s, m.text);
    TrimUnique(s, m.text);
  }

  /** A message text with whitespace at an end is not stable under save: an
      untouched buffer still emits the trimmed text. */
  lemma SaveUntouchedUntrimmed(m: Message, e: Editor)
    requires !IsTrimmed(m.text)
    requires e.buffer == m.text
    ensures Save(m, true, e).edited == Some(Trim(m.text))
  {
    if Trim(m.text) == m.text {
      var r := Trim(m.text);
      assert IsTrimOf(m.text, r);
    }
  }

  /** Cancelling and saving straight away emits nothing for a trimmed text. */
  lemma CancelThenSaveIsSilent(m: Message, hasOnEdit: bool, e: Editor)
    requires IsTrimmed(m.text)
    ensures Save(m, hasOnEdit, StartEdit(Cancel(m, e))).edited == None
  {
    TrimOfTrimmed(m.text);
  }

  /** A whole edit session: open the editor on a fresh view, type `t`, save.
      The trimmed `t` is emitted exactly when there is a callback and it
      differs from the message text; reopening afterwards shows `t` as typed,
      not the message text, because save does not reset the buffer. */
  lemma EditSession(m: Message, hasOnEdit: bool, t: string)
    ensures var saved := Save(m, hasOnEdit, Type(StartEdit(Mount(m)), t));
      && (saved.edited != None <==> hasOnEdit && Trim(t) != m.text)
      && (saved.edited != None ==> saved.edited.value == Trim(t))
      && StartEdit(saved.editor) == Editor(true, t)
  {
  }
}
