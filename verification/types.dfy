/** The records shared by the chat application: a message, its author role
    and the view state that holds the message list. */
module Types {

  /** An optional value; `None` stands for JavaScript's `null`/`undefined`. */
  datatype Option<+T> = None | Some(value: T)

  /** Who wrote a message. */
  datatype Role = User | Model

  /** A `Date`, represented by its epoch milliseconds. */
  type Timestamp = int

  /** One turn of the conversation. Ids are strings and are not assumed unique. */
  datatype Message = Message(id: string, role: Role, text: string, timestamp: Timestamp)

  /** The state the application renders: the message list, the typing
      indicator and the error banner (`None` when no error is shown). */
  datatype ChatState = ChatState(messages: seq<Message>, isTyping: bool, error: Option<string>)

  /** The set of ids occurring in a message list. */
  function IdSet(ms: seq<Message>): (r: set<string>)
    ensures forall i :: 0 <= i < |ms| ==> ms[i].id in r
    ensures forall id :: id in r ==> exists i :: 0 <= i < |ms| && ms[i].id == id
  {
    set i | 0 <= i < |ms| :: ms[i].id
  }
}
