/** The message-list reducer of the application component: the initial
    state, one send/stream exchange, and clearing the chat. Every list update
    in the component is a pure `prev => ...` updater; here they are applied
    in call order. */
module App {
  import opened Types
  import opened Text
  import opened Ids
  import ChatInput

  const WelcomeId: string := "welcome"
  const WelcomeText: string := "Xin chào! Tôi là **Thanh AI**. Tôi được phát triển bởi **Thanh** dựa trên công nghệ của Google. Tôi có thể giúp gì cho bạn hôm nay?"
  const ClearedText: string := "Đã xóa lịch sử trò chuyện. Tôi là **Thanh AI**, tôi có thể giúp gì mới cho bạn?"
  /** Written over the placeholder when the stream fails. */
  const ApologyText: string := "Rất tiếc, đã có lỗi xảy ra. Hãy kiểm tra kết nối mạng hoặc thử lại sau."
  /** Shown in the error banner when the stream fails. */
  const ConnectionError: string := "Đã có lỗi xảy ra khi kết nối với AI. Vui lòng thử lại."

  /** The component's state: what it renders, and whether the chat session
      reference has been set (it is `null` until the mount effect runs). */
  datatype AppState = AppState(chat: ChatState, hasSession: bool)

  /** The four clock readings one send takes: the user message's id and
      date, then the placeholder's id (before adding one) and date. */
  datatype Clock = Clock(userIdMs: nat, userTime: Timestamp, aiIdMs: nat, aiTime: Timestamp)

  /** What the generation service delivers: `chunks` in arrival order, then
      either the end of the stream or (when `failed`) a thrown error. */
  datatype Stream = Stream(chunks: seq<string>, failed: bool)

  /** A message as saved in local storage: the date is its JSON text. */
  datatype StoredMessage = StoredMessage(id: string, role: Role, text: string, timestamp: string)

  function UserId(c: Clock): string {
    Decimal(c.userIdMs)
  }

  function PlaceholderId(c: Clock): string {
    Decimal(c.aiIdMs + 1)
  }

  function UserMessage(text: string, c: Clock): Message {
    Message(UserId(c), User, text, c.userTime)
  }

  function Placeholder(c: Clock): Message {
    Message(PlaceholderId(c), Model, "", c.aiTime)
  }

  function WelcomeMessage(now: Timestamp): Message {
    Message(WelcomeId, Model, WelcomeText, now)
  }

  function ClearedMessage(now: Timestamp): Message {
    Message(WelcomeId, Model, ClearedText, now)
  }

  /** With a clock that does not run backwards, the two ids of one exchange differ. */
  lemma ExchangeIdsDistinct(c: Clock)
    requires c.userIdMs <= c.aiIdMs
    ensures UserId(c) != PlaceholderId(c)
  {
    DecimalInjective(c.userIdMs, c.aiIdMs + 1);
  }

  // ---------------------------------------------------------------------
  // Initial state

  /** Revives stored messages: same records in the same order, with each
      date text turned back into a date by `toDate`. */
  function Restore(stored: seq<StoredMessage>, toDate: string -> Timestamp): (r: seq<Message>)
    ensures |r| == |stored|
    ensures forall i :: 0 <= i < |stored| ==>
      && r[i].id == stored[i].id && r[i].role == stored[i].role && r[i].text == stored[i].text
      && r[i].timestamp == toDate(stored[i].timestamp)
  {
    if stored == [] then []
    else
      var m := stored[|stored| - 1];
      Restore(stored[..|stored| - 1], toDate) + [Message(m.id, m.role, m.text, toDate(m.timestamp))]
  }

  /** The message list the component starts with. `saved` is the stored
      history text (`None` when absent), `parse` stands for parsing it as a
      list of messages (`None` when parsing throws or yields no list), and
      `toDate` for `new Date(...)` on a stored date. */
  function InitialMessages(saved: Option<string>, parse: string -> Option<seq<StoredMessage>>,
                           toDate: string -> Timestamp, now: Timestamp): (r: seq<Message>)
    ensures saved == None || saved == Some("") || parse(saved.value) == None ==> r == [WelcomeMessage(now)]
    ensures saved != None && saved != Some("") && parse(saved.value) != None ==>
      var stored := parse(saved.value).value;
      && |r| == |stored|
      && forall i :: 0 <= i < |stored| ==>
           && r[i].id == stored[i].id && r[i].role == stored[i].role && r[i].text == stored[i].text
           && r[i].timestamp == toDate(stored[i].timestamp)
  {
    match saved
    case None => [WelcomeMessage(now)]
    case Some(json) =>
      if json == "" then [WelcomeMessage(now)]
      else
        match parse(json)
        case None => [WelcomeMessage(now)]
        case Some(stored) => Restore(stored, toDate)
  }

  /** The component's state before its mount effect has run: not typing, no
      error, no chat session yet. */
  function InitialState(saved: Option<string>, parse: string -> Option<seq<StoredMessage>>,
                        toDate: string -> Timestamp, now: Timestamp): (r: AppState)
    ensures !r.chat.isTyping && r.chat.error == None && !r.hasSession
    ensures r.chat.messages == InitialMessages(saved, parse, toDate, now)
  {
    AppState(ChatState(InitialMessages(saved, parse, toDate, now), false, None), false)
  }

  /** The mount effect creates the chat session and changes nothing else. */
  function Mount(app: AppState): (r: AppState)
    ensures r.hasSession && r.chat == app.chat
  {
    app.(hasSession := true)
  }

  // ---------------------------------------------------------------------
  // One exchange

  /** The chunk and failure updater: every message carrying `id` gets `text`;
      every other message, and every other field, is left as it was. */
  function SetText(ms: seq<Message>, id: string, text: string): (r: seq<Message>)
    ensures |r| == |ms|
    ensures forall i :: 0 <= i < |ms| && ms[i].id != id ==> r[i] == ms[i]
    ensures forall i :: 0 <= i < |ms| && ms[i].id == id ==> r[i] == ms[i].(text := text)
  {
    if ms == [] then []
    else
      var m := ms[|ms| - 1];
      SetText(ms[..|ms| - 1], id, text) + [if m.id == id then m.(text := text) else m]
  }

  /** The list after each chunk of `chunks` has been received in turn: the
      accumulated response after chunk k is the concatenation of chunks 1..k,
      and it overwrites the text of the messages carrying `id`. */
  function Consume(ms: seq<Message>, id: string, chunks: seq<string>): (r: seq<Message>)
    ensures |r| == |ms|
    ensures forall i :: 0 <= i < |ms| && ms[i].id != id ==> r[i] == ms[i]
    ensures forall i :: 0 <= i < |ms| ==> r[i].id == ms[i].id && r[i].role == ms[i].role && r[i].timestamp == ms[i].timestamp
  {
    if chunks == [] then ms
    else SetText(Consume(ms, id, chunks[..|chunks| - 1]), id, Concat(chunks))
  }

  /** The two updates before the stream is opened: the user message is
      appended, the typing flag raised and the error cleared, then the empty
      placeholder is appended. */
  function BeginSend(s: ChatState, text: string, c: Clock): (r: ChatState)
    ensures r.isTyping && r.error == None
    ensures |r.messages| == |s.messages| + 2
    ensures r.messages[..|s.messages|] == s.messages
    ensures r.messages[|s.messages|..] == [UserMessage(text, c), Placeholder(c)]
  {
    var s1 := ChatState(s.messages + [UserMessage(text, c)], true, None);
    s1.(messages := s1.messages + [Placeholder(c)])
  }

  /** The failure handler: the error banner is set and the placeholder's text,
      whatever it had accumulated, is replaced by the apology. */
  function FailExchange(s: ChatState, id: string): (r: ChatState)
    ensures r.error == Some(ConnectionError) && r.isTyping == s.isTyping
    ensures |r.messages| == |s.messages|
    ensures forall i :: 0 <= i < |s.messages| && s.messages[i].id != id ==> r.messages[i] == s.messages[i]
    ensures forall i :: 0 <= i < |s.messages| && s.messages[i].id == id ==> r.messages[i] == s.messages[i].(text := ApologyText)
  {
    ChatState(SetText(s.messages, id, ApologyText), s.isTyping, Some(ConnectionError))
  }

  /** One whole send: nothing happens without a chat session; otherwise the
      pre-stream updates, the chunk updates, the failure handler when the
      stream throws, and finally the typing flag is lowered. */
  function Send(app: AppState, text: string, c: Clock, stream: Stream): (r: AppState)
    ensures !app.hasSession ==> r == app
    ensures app.hasSession ==> r.hasSession && !r.chat.isTyping
    ensures app.hasSession ==> r.chat.error == (if stream.failed then Some(ConnectionError) else None)
    ensures app.hasSession ==> |r.chat.messages| == |app.chat.messages| + 2
    ensures app.hasSession ==> forall i :: 0 <= i < |app.chat.messages| && app.chat.messages[i].id != PlaceholderId(c) ==>
      r.chat.messages[i] == app.chat.messages[i]
    ensures app.hasSession ==>
      r.chat.messages[|app.chat.messages| + 1] ==
        Placeholder(c).(text := if stream.failed then ApologyText else Concat(stream.chunks))
    ensures app.hasSession && c.userIdMs <= c.aiIdMs ==>
      r.chat.messages[|app.chat.messages|] == UserMessage(text, c)
  {
    if !app.hasSession then app
    else
      var id := PlaceholderId(c);
      var begun := BeginSend(app.chat, text, c);
      var streamed := begun.(messages := Consume(begun.messages, id, stream.chunks));
      var ended := if stream.failed then FailExchange(streamed, id) else streamed;
      StreamEndsWithAccumulation(begun.messages, id, stream.chunks);
      assert c.userIdMs <= c.aiIdMs ==> UserId(c) != id by {
        if c.userIdMs <= c.aiIdMs { ExchangeIdsDistinct(c); }
      }
      AppState(ended.(isTyping := false), true)
  }

  /** Clearing replaces the whole list with the single reset message and
      re-creates the chat session; the typing flag and error are untouched. */
  function ClearChat(app: AppState, now: Timestamp): (r: AppState)
    ensures r.chat.messages == [ClearedMessage(now)]
    ensures r.chat.isTyping == app.chat.isTyping && r.chat.error == app.chat.error
    ensures r.hasSession
  {
    AppState(ChatState([ClearedMessage(now)], app.chat.isTyping, app.chat.error), true)
  }

  /** The input box wired to the send handler, disabled while typing: a
      submit attempt sends the trimmed input when the guard lets it through;
      the second component is the input box's contents afterwards. */
  function SubmitFromInput(app: AppState, input: string, c: Clock, stream: Stream): (r: (AppState, string))
    ensures app.chat.isTyping ==> r == (app, input)
    ensures r.1 == ChatInput.Submit(input, app.chat.isTyping).input
    ensures !app.chat.isTyping && AllWhitespace(input) ==> r.0 == app
    ensures !app.chat.isTyping && !AllWhitespace(input) ==> r.0 == Send(app, Trim(input), c, stream)
  {
    var sub := ChatInput.Submit(input, app.chat.isTyping);
    match sub.sent
    case None => (app, sub.input)
    case Some(text) => (Send(app, text, c, stream), sub.input)
  }

  /** The user message an exchange records through the input box is
      non-empty and carries no surrounding whitespace. */
  lemma RecordedUserTextIsTrimmed(app: AppState, input: string, c: Clock, stream: Stream)
    requires app.hasSession && !app.chat.isTyping
    requires PlaceholderId(c) !in IdSet(app.chat.messages)
    requires c.userIdMs <= c.aiIdMs
    requires !AllWhitespace(input)
    ensures var ms := SubmitFromInput(app, input, c, stream).0.chat.messages;
      && |ms| == |app.chat.messages| + 2
      && ms[|app.chat.messages|] == UserMessage(Trim(input), c)
      && ms[|app.chat.messages|].text != "" && IsTrimmed(ms[|app.chat.messages|].text)
      && ms[|app.chat.messages| + 1] ==
           Placeholder(c).(text := if stream.failed then ApologyText else Concat(stream.chunks))
  {
    ChatInput.SentTextIsTrimmed(input, false);
    SendShape(app, Trim(input), c, stream);
  }

  // ---------------------------------------------------------------------
  // Properties of the updaters

  /** A later overwrite hides an earlier one. */
  lemma {:induction false} SetTextTwice(ms: seq<Message>, id: string, a: string, b: string)
    ensures SetText(SetText(ms, id, a), id, b) == SetText(ms, id, b)
  {
    var r1 := SetText(SetText(ms, id, a), id, b);
    var r2 := SetText(ms, id, b);
    assert |r1| == |r2|;
    forall i | 0 <= i < |ms| ensures r1[i] == r2[i] {
    }
  }

  /** An overwrite of an id the list does not hold changes nothing. */
  lemma SetTextAbsent(ms: seq<Message>, id: string, text: string)
    requires id !in IdSet(ms)
    ensures SetText(ms, id, text) == ms
  {
    var r := SetText(ms, id, text);
    forall i | 0 <= i < |ms| ensures r[i] == ms[i] {
      assert ms[i].id in IdSet(ms);
    }
  }

  /** Once every chunk has arrived, the placeholder holds the concatenation
      of all chunks (and, with no chunk, is untouched). */
  lemma {:induction false} StreamEndsWithAccumulation(ms: seq<Message>, id: string, chunks: seq<string>)
    ensures chunks != [] ==> Consume(ms, id, chunks) == SetText(ms, id, Concat(chunks))
    ensures chunks == [] ==> Consume(ms, id, chunks) == ms
    decreases |chunks|
  {
    if chunks != [] {
      var init := chunks[..|chunks| - 1];
      StreamEndsWithAccumulation(ms, id, init);
      if init != [] {
        SetTextTwice(ms, id, Concat(init), Concat(chunks));
      }
    }
  }

  /** After the first k chunks, the placeholder's text is the concatenation
      of chunks 1..k in arrival order, and that text is a prefix of the final
      response: the shown text only ever grows. */
  lemma StreamProgress(ms: seq<Message>, id: string, chunks: seq<string>, k: nat, i: nat)
    requires 1 <= k <= |chunks|
    requires i < |ms| && ms[i].id == id
    ensures Consume(ms, id, chunks[..k])[i].text == Concat(chunks[..k])
    ensures Concat(chunks[..k]) <= Concat(chunks)
  {
    StreamEndsWithAccumulation(ms, id, chunks[..k]);
    ConcatPrefix(chunks, k);
  }

  /** A failure after any number of chunks discards the partial response:
      the result is the same as if no chunk had arrived. */
  lemma FailureDiscardsPartial(s: ChatState, id: string, chunks: seq<string>)
    ensures FailExchange(s.(messages := Consume(s.messages, id, chunks)), id) == FailExchange(s, id)
  {
    StreamEndsWithAccumulation(s.messages, id, chunks);
    if chunks != [] {
      SetTextTwice(s.messages, id, Concat(chunks), ApologyText);
    }
  }

  /** A completed send, with a placeholder id the list did not hold and a
      clock that does not run backwards, appends exactly the user message
      and the full response. */
  lemma SendCompleted(app: AppState, text: string, c: Clock, chunks: seq<string>)
    requires app.hasSession
    requires PlaceholderId(c) !in IdSet(app.chat.messages)
    requires c.userIdMs <= c.aiIdMs
    ensures Send(app, text, c, Stream(chunks, false)).chat ==
      ChatState(app.chat.messages + [UserMessage(text, c), Placeholder(c).(text := Concat(chunks))], false, None)
  {
    SendShape(app, text, c, Stream(chunks, false));
  }

  /** A failed send keeps the user's message and the placeholder, which now
      carries the apology; the error banner shows the connection message. */
  lemma SendFailed(app: AppState, text: string, c: Clock, chunks: seq<string>)
    requires app.hasSession
    requires PlaceholderId(c) !in IdSet(app.chat.messages)
    requires c.userIdMs <= c.aiIdMs
    ensures Send(app, text, c, Stream(chunks, true)).chat ==
      ChatState(app.chat.messages + [UserMessage(text, c), Placeholder(c).(text := ApologyText)], false, Some(ConnectionError))
  {
    SendShape(app, text, c, Stream(chunks, true));
  }

  lemma SendShape(app: AppState, text: string, c: Clock, stream: Stream)
    requires app.hasSession
    requires PlaceholderId(c) !in IdSet(app.chat.messages)
    requires c.userIdMs <= c.aiIdMs
    ensures Send(app, text, c, stream).chat.messages ==
      app.chat.messages + [UserMessage(text, c), Placeholder(c).(text := if stream.failed then ApologyText else Concat(stream.chunks))]
  {
    var ms := app.chat.messages;
    var r := Send(app, text, c, stream).chat.messages;
    var expected := ms + [UserMessage(text, c), Placeholder(c).(text := if stream.failed then ApologyText else Concat(stream.chunks))];
    ExchangeIdsDistinct(c);
    var begun := BeginSend(app.chat, text, c).messages;
    StreamEndsWithAccumulation(begun, PlaceholderId(c), stream.chunks);
    forall i | 0 <= i < |ms| ensures r[i] == expected[i] {
      assert ms[i].id in IdSet(ms);
    }
    assert r[|ms|] == expected[|ms|] by {
      assert begun[|ms|] == UserMessage(text, c);
    }
  }

  /** An exchange still streaming after the chat was cleared writes to an id
      the reset list does not hold, so the reset list stays as it is. */
  lemma StreamAfterClear(app: AppState, now: Timestamp, c: Clock, chunks: seq<string>)
    ensures Consume(ClearChat(app, now).chat.messages, PlaceholderId(c), chunks) == [ClearedMessage(now)]
    ensures SetText(ClearChat(app, now).chat.messages, PlaceholderId(c), ApologyText) == [ClearedMessage(now)]
  {
    var ms := [ClearedMessage(now)];
    assert PlaceholderId(c)[0] != WelcomeId[0];
    StreamEndsWithAccumulation(ms, PlaceholderId(c), chunks);
  }

  // ---------------------------------------------------------------------
  // Why the placeholder id is fresh in practice

  /** Every id in `ms` is the reset id or a clock reading no later than `t`. */
  ghost predicate IdsNoLaterThan(ms: seq<Message>, t: nat) {
    forall i :: 0 <= i < |ms| ==> ms[i].id == WelcomeId || exists k: nat :: k <= t && ms[i].id == Decimal(k)
  }

  /** If every id already in the list was minted no later than the clock
      reading taken for the placeholder, the placeholder id is fresh. */
  lemma PlaceholderFresh(ms: seq<Message>, c: Clock)
    requires IdsNoLaterThan(ms, c.aiIdMs)
    ensures PlaceholderId(c) !in IdSet(ms)
  {
    forall i | 0 <= i < |ms| ensures ms[i].id != PlaceholderId(c) {
      if ms[i].id == WelcomeId {
        assert PlaceholderId(c)[0] != WelcomeId[0];
      } else {
        var k: nat :| k <= c.aiIdMs && ms[i].id == Decimal(k);
        DecimalInjective(k, c.aiIdMs + 1);
      }
    }
  }

  /** A send under a clock that does not run backwards keeps every id
      minted no later than its placeholder's clock value. */
  lemma SendKeepsIdsNoLaterThan(app: AppState, text: string, c: Clock, stream: Stream)
    requires IdsNoLaterThan(app.chat.messages, c.aiIdMs)
    requires c.userIdMs <= c.aiIdMs
    ensures IdsNoLaterThan(Send(app, text, c, stream).chat.messages, c.aiIdMs + 1)
  {
    var ms := app.chat.messages;
    var r := Send(app, text, c, stream).chat.messages;
    if app.hasSession {
      PlaceholderFresh(ms, c);
      SendShape(app, text, c, stream);
      forall i | 0 <= i < |r|
        ensures r[i].id == WelcomeId || exists k: nat :: k <= c.aiIdMs + 1 && r[i].id == Decimal(k)
      {
        if i == |ms| {
          MintedNoLaterThan(r[i].id, c.userIdMs, c.aiIdMs + 1);
        } else if i == |ms| + 1 {
          MintedNoLaterThan(r[i].id, c.aiIdMs + 1, c.aiIdMs + 1);
        } else if r[i].id != WelcomeId {
          var k: nat :| k <= c.aiIdMs && ms[i].id == Decimal(k);
          MintedNoLaterThan(r[i].id, k, c.aiIdMs + 1);
        }
      }
    } else {
      forall i | 0 <= i < |r|
        ensures r[i].id == WelcomeId || exists k: nat :: k <= c.aiIdMs + 1 && r[i].id == Decimal(k)
      {
        if r[i].id != WelcomeId {
          var k: nat :| k <= c.aiIdMs && ms[i].id == Decimal(k);
          MintedNoLaterThan(r[i].id, k, c.aiIdMs + 1);
        }
      }
    }
  }

  lemma MintedNoLaterThan(id: string, k: nat, t: nat)
    requires id == Decimal(k) && k <= t
    ensures exists k': nat :: k' <= t && id == Decimal(k')
  {
  }

  /** After one send, the next send's placeholder id is fresh as soon as the
      clock has advanced past the previous placeholder reading. */
  lemma NextPlaceholderFresh(app: AppState, text: string, c: Clock, stream: Stream, c': Clock)
    requires IdsNoLaterThan(app.chat.messages, c.aiIdMs)
    requires c.userIdMs <= c.aiIdMs
    requires c'.aiIdMs >= c.aiIdMs + 1
    ensures PlaceholderId(c') !in IdSet(Send(app, text, c, stream).chat.messages)
  {
    var ms := Send(app, text, c, stream).chat.messages;
    SendKeepsIdsNoLaterThan(app, text, c, stream);
    forall i | 0 <= i < |ms| && ms[i].id != WelcomeId
      ensures exists k: nat :: k <= c'.aiIdMs && ms[i].id == Decimal(k)
    {
      var k: nat :| k <= c.aiIdMs + 1 && ms[i].id == Decimal(k);
      MintedNoLaterThan(ms[i].id, k, c'.aiIdMs);
    }
    PlaceholderFresh(ms, c');
  }

  /** The reset list holds only the reset id, so it satisfies the
      freshness invariant for every clock value. */
  lemma ClearChatIdsNoLaterThan(app: AppState, now: Timestamp, t: nat)
    ensures IdsNoLaterThan(ClearChat(app, now).chat.messages, t)
  {
  }

  /** The freshness invariant survives a later clock value. */
  lemma IdsNoLaterThanMono(ms: seq<Message>, t: nat, t': nat)
    requires IdsNoLaterThan(ms, t) && t <= t'
    ensures IdsNoLaterThan(ms, t')
  {
    forall i | 0 <= i < |ms| && ms[i].id != WelcomeId
      ensures exists k: nat :: k <= t' && ms[i].id == Decimal(k)
    {
      var k: nat :| k <= t && ms[i].id == Decimal(k);
      MintedNoLaterThan(ms[i].id, k, t');
    }
  }

  /** When the component starts from the welcome message, the list meets the
      freshness invariant for every clock value. */
  lemma InitialWelcomeIdsNoLaterThan(saved: Option<string>, parse: string -> Option<seq<StoredMessage>>,
                                     toDate: string -> Timestamp, now: Timestamp, t: nat)
    requires saved == None || saved == Some("") || parse(saved.value) == None
    ensures IdsNoLaterThan(InitialMessages(saved, parse, toDate, now), t)
  {
  }
}
