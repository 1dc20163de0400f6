/**
 * The client side of one chat-completion round trip (`askClaude`): the message list
 * posted to the proxy, and the reply text read back out of the response body.
 * The network and the JSON decoding of the body are not modelled; their result is
 * an `Outcome` handed in by the caller.
 */
module Gateway {
  import opened Optional

  datatype Role = System | User | Assistant

  /** One role-tagged message of a conversation. */
  datatype Turn = Turn(role: Role, content: string)

  /** The response body as far as the client reads it; every level may be absent or null. */
  datatype Message = Message(content: Option<string>)
  datatype Choice = Choice(message: Option<Message>)
  datatype Envelope = Envelope(choices: Option<seq<Option<Choice>>>)

  /**
   * What `fetch` followed by `res.json()` yields: a decoded body, or a rejection
   * (network error, a body that is not JSON, or a body that is JSON `null`).
   */
  datatype Outcome = Delivered(body: Envelope) | Failed

  /** The list posted to the proxy: the system instruction first when it is non-empty, then `messages`. */
  function BuildMessages(messages: seq<Turn>, system: string): (r: seq<Turn>)
    ensures |r| == |messages| + (if system == "" then 0 else 1)
    ensures r[|r| - |messages|..] == messages
    ensures system != "" ==> r[0] == Turn(System, system)
  {
    if system != "" then [Turn(System, system)] + messages else messages
  }

  /** A message list taken apart into its leading system instruction (if any) and the rest. */
  datatype Split = Split(system: Option<string>, history: seq<Turn>)

  function SplitSystem(list: seq<Turn>): Split {
    if |list| > 0 && list[0].role == System then Split(Some(list[0].content), list[1..])
    else Split(None, list)
  }

  /** Nothing is lost in building the list: the system string and the history are both recoverable. */
  lemma SplitBuildRoundTrip(messages: seq<Turn>, system: string)
    requires messages == [] || messages[0].role != System
    ensures SplitSystem(BuildMessages(messages, system))
         == Split(if system == "" then None else Some(system), messages)
  {
  }

  /** Every list with a non-empty leading instruction, or none at all, is what BuildMessages makes of its parts. */
  lemma BuildSplitRoundTrip(list: seq<Turn>)
    requires |list| > 0 && list[0].role == System ==> list[0].content != ""
    ensures BuildMessages(SplitSystem(list).history, SplitSystem(list).system.GetOr("")) == list
  {
  }

  /** `choices?.[0]?.message?.content`: the content of the first choice, when every level is present. */
  function FirstContent(e: Envelope): Option<string> {
    if e.choices.Some? && |e.choices.value| > 0 && e.choices.value[0].Some?
       && e.choices.value[0].value.message.Some?
    then e.choices.value[0].value.message.value.content
    else None
  }

  /** The reply text: the first choice's content, or "" when any level is missing or the content is empty. */
  function Reply(e: Envelope): (r: string)
    ensures r != "" <==> FirstContent(e).Some? && FirstContent(e).value != ""
    ensures r != "" ==> FirstContent(e) == Some(r)
  {
    FirstContent(e).GetOr("")
  }

  /** The body a well-behaved provider returns for reply text `t`. */
  function Wrap(t: string): Envelope {
    Envelope(Some([Some(Choice(Some(Message(Some(t)))))]))
  }

  lemma ReplyOfWrap(t: string)
    ensures Reply(Wrap(t)) == t
  {
  }

  /** Only the first choice is read: any further choices never change the reply. */
  lemma ReplyIgnoresLaterChoices(c: Option<Choice>, rest: seq<Option<Choice>>)
    ensures Reply(Envelope(Some([c] + rest))) == Reply(Envelope(Some([c])))
  {
  }

  /** The settled value of `askClaude`: the reply text, or None when the promise rejects. */
  function Ask(o: Outcome): (r: Option<string>)
    ensures r.None? <==> o.Failed?
    ensures r.Some? ==> r.value == "" || FirstContent(o.body) == Some(r.value)
    ensures o.Delivered? ==> r == Some(Reply(o.body))
  {
    match o
    case Delivered(e) => Some(Reply(e))
    case Failed => None
  }
}
