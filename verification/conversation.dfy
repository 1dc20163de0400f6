/**
 * The conversation tabs (`ChatTab` and `StudyTab`): a turn list seeded with one
 * assistant greeting, an input field, and a `loading` flag that admits one
 * gateway call at a time. `send` is split into its synchronous half (`Send`,
 * which appends the user turn and raises `loading`) and the continuation that
 * runs once the call settles (`Settle`, which appends the reply and lowers it).
 */
module Conversation {
  import opened Optional
  import opened JsString
  import opened Gateway

  /** The two conversational tabs; they differ in instruction, greeting and failure handling. */
  datatype Tab = Chat | Study

  const ChatSystem: string := @"あなたは日本の大学に通う学生に寄り添う、親しみやすくて頼りになる先輩AI「RelationAI」です。

【対話ルール】
・「〜ですよ」「〜だね」「〜してみてはどうかな？」といった、温かみのある自然な日本語で話してください。
・「まず、心にしましょう」「以下のポイントを参考にしてください」といった機械的・翻訳調の表現は絶対に禁止です。
・共感を第一に考え、相手の悩みを否定せず「それは大変だったね」「わかるよ」と受け止めてから具体案を出してください。
・ビジネスメールのような堅苦しい接続詞（および、かつ、然るに等）は使わず、日常会話のトーンを維持してください。
・マークダウン記号（##, **）は使わず、適度な改行で読みやすくしてください。"

  const StudySystem: string := @"あなたは大学生の学習をサポートする頼もしい専属コーチです。

【対話ルール】
・「〜だよ」「〜ですね」といった、前向きで親しみやすい日本語で回答してください。
・翻訳調の硬い表現や、上から目線の指導は避け、一緒に伴走するような姿勢を見せてください。
・レポート作成、試験対策、資格勉強などに対し、日本の大学独自の文化（シラバス、出席点、過去問等）を踏まえた具体的な助言をしてください。
・一度に情報を詰め込みすぎず、まずは一歩踏み出せるようなアドバイスを心がけてください。"

  const ChatGreeting: string := "こんにちは！RelationAIです。大学生活、いろいろ大変なこともあるよね。人間関係のことや勉強のこと、なんでも気軽に話してみて。一緒に解決策を考えよう！"

  const StudyGreeting: string := "勉強の調子はどう？試験対策からレポートの書き方まで、なんでも相談に乗るよ！"

  /** The assistant turn the chat tab shows in place of a reply when the call fails. */
  const ChatFallback: string := "ごめん、ちょっと調子が悪いみたい。もう一回送ってみてくれるかな？"

  function SystemPrompt(tab: Tab): string {
    match tab
    case Chat => ChatSystem
    case Study => StudySystem
  }

  function Greeting(tab: Tab): Turn {
    match tab
    case Chat => Turn(Assistant, ChatGreeting)
    case Study => Turn(Assistant, StudyGreeting)
  }

  /** A tab's state: the visible turns, the input field, and whether a call is outstanding. */
  datatype Session = Session(messages: seq<Turn>, input: string, loading: bool)

  function Initial(tab: Tab): Session {
    Session([Greeting(tab)], "", false)
  }

  /** `text || input`: the argument when it is a non-empty string, otherwise the input field. */
  function Pick(text: Option<string>, input: string): string {
    if text.Some? && text.value != "" then text.value else input
  }

  /** The synchronous half of `send`: the new state and, when accepted, the history passed to the gateway. */
  datatype Accepted = Accepted(session: Session, history: Option<seq<Turn>>)

  function Send(s: Session, text: Option<string>): (r: Accepted)
    ensures r.history.None? <==> s.loading || Blank(Pick(text, s.input))
    ensures r.history.None? ==> r.session == s
    ensures r.history.Some? ==>
              && |r.session.messages| == |s.messages| + 1
              && r.session.messages[..|s.messages|] == s.messages
              && r.session.messages[|s.messages|] == Turn(User, Trim(Pick(text, s.input)))
              && r.session.input == ""
              && r.session.loading
              && r.history.value == r.session.messages[1..]
  {
    var content := Trim(Pick(text, s.input));
    if content == [] || s.loading then
      Accepted(s, None)
    else
      var next := s.messages + [Turn(User, content)];
      Accepted(Session(next, "", true), Some(next[1..]))
  }

  /** The user edits the input field; allowed while a call is outstanding. */
  function EditInput(s: Session, text: string): Session {
    s.(input := text)
  }

  /**
   * The continuation of `send` once the gateway call settles. The chat tab appends the
   * reply, or the fallback turn when the call fails; the study tab has no handler for
   * a failure and appends nothing then. Both lower `loading`.
   */
  function Settle(tab: Tab, s: Session, o: Outcome): (r: Session)
    requires s.loading
    ensures !r.loading && r.input == s.input
    ensures |r.messages| == |s.messages| + (if tab == Study && o.Failed? then 0 else 1)
    ensures r.messages[..|s.messages|] == s.messages
    ensures o.Delivered? ==> r.messages[|s.messages|] == Turn(Assistant, Reply(o.body))
    ensures tab == Chat && o.Failed? ==> r.messages[|s.messages|] == Turn(Assistant, ChatFallback)
  {
    match Ask(o)
    case Some(reply) => Session(s.messages + [Turn(Assistant, reply)], s.input, false)
    case None =>
      match tab
      case Chat => Session(s.messages + [Turn(Assistant, ChatFallback)], s.input, false)
      case Study => Session(s.messages, s.input, false)
  }

  /**
   * What every reachable state of a tab satisfies: the greeting stays first, no turn is a
   * system turn, every user turn is non-empty and trimmed, and while a call is
   * outstanding the last turn is the user turn it answers.
   */
  ghost predicate WellFormed(tab: Tab, s: Session) {
    && |s.messages| > 0
    && s.messages[0] == Greeting(tab)
    && (forall i :: 0 <= i < |s.messages| ==> s.messages[i].role != System)
    && (forall i :: 0 <= i < |s.messages| && s.messages[i].role == User ==>
          s.messages[i].content != "" && Trimmed(s.messages[i].content))
    && (s.loading ==> s.messages[|s.messages| - 1].role == User)
  }

  /** Assistant and user turns alternate, starting with the greeting; a call is outstanding exactly when a user turn is last. */
  ghost predicate Alternating(s: Session) {
    && (forall i :: 0 <= i < |s.messages| ==> s.messages[i].role == (if i % 2 == 0 then Assistant else User))
    && (s.loading <==> |s.messages| % 2 == 0)
  }

  lemma InitialIsWellFormed(tab: Tab)
    ensures WellFormed(tab, Initial(tab)) && Alternating(Initial(tab)) && !Initial(tab).loading
  {
  }

  lemma SendKeepsWellFormed(tab: Tab, s: Session, text: Option<string>)
    requires WellFormed(tab, s)
    ensures WellFormed(tab, Send(s, text).session)
  {
  }

  lemma SettleKeepsWellFormed(tab: Tab, s: Session, o: Outcome)
    requires WellFormed(tab, s) && s.loading
    ensures WellFormed(tab, Settle(tab, s, o))
  {
  }

  /**
   * On an accepted send from a well-formed state, the gateway receives the tab's
   * instruction followed by every turn after the greeting, ending with the new user turn.
   */
  lemma AcceptedRequest(tab: Tab, s: Session, text: Option<string>)
    requires WellFormed(tab, s)
    requires Send(s, text).history.Some?
    ensures var h := Send(s, text).history.value;
            && |h| == |s.messages|
            && h[..|h| - 1] == s.messages[1..]
            && h[|h| - 1] == Turn(User, Trim(Pick(text, s.input)))
            && SplitSystem(BuildMessages(h, SystemPrompt(tab))) == Split(Some(SystemPrompt(tab)), h)
  {
    SystemPromptNonEmpty(tab);
    AcceptedRequestWith(s, text, SystemPrompt(tab));
  }

  lemma SystemPromptNonEmpty(tab: Tab)
    ensures SystemPrompt(tab) != ""
  {
  }

  /** `AcceptedRequest` for any instruction, once the history holds no system turn. */
  lemma AcceptedRequestWith(s: Session, text: Option<string>, system: string)
    requires |s.messages| > 0 && forall i :: 0 <= i < |s.messages| ==> s.messages[i].role != System
    requires Send(s, text).history.Some? && system != ""
    ensures var h := Send(s, text).history.value;
            && |h| == |s.messages|
            && h[..|h| - 1] == s.messages[1..]
            && h[|h| - 1] == Turn(User, Trim(Pick(text, s.input)))
            && SplitSystem(BuildMessages(h, system)) == Split(Some(system), h)
  {
    var h := Send(s, text).history.value;
    assert h[0].role != System;
    SplitBuildRoundTrip(h, system);
  }

  /** Appending a turn of the role due next keeps the roles alternating. */
  lemma RolesAppend(ms: seq<Turn>, t: Turn)
    requires forall i :: 0 <= i < |ms| ==> ms[i].role == (if i % 2 == 0 then Assistant else User)
    requires t.role == (if |ms| % 2 == 0 then Assistant else User)
    ensures forall i :: 0 <= i < |ms + [t]| ==> (ms + [t])[i].role == (if i % 2 == 0 then Assistant else User)
  {
  }

  lemma ChatSendKeepsAlternating(s: Session, text: Option<string>)
    requires Alternating(s)
    ensures Alternating(Send(s, text).session)
  {
    var r := Send(s, text);
    if r.history.Some? {
      var u := Turn(User, Trim(Pick(text, s.input)));
      assert r.session == Session(s.messages + [u], "", true);
      UserTurnKeepsAlternating(s, u);
    }
  }

  /** A user turn appended while no call is outstanding keeps the session alternating, now loading. */
  lemma UserTurnKeepsAlternating(s: Session, u: Turn)
    requires Alternating(s) && !s.loading && u.role == User
    ensures Alternating(Session(s.messages + [u], "", true))
  {
    RolesAppend(s.messages, u);
  }

  lemma ChatSettleKeepsAlternating(s: Session, o: Outcome)
    requires Alternating(s) && s.loading
    ensures Alternating(Settle(Chat, s, o))
  {
  }

  /** Everything that can happen to a tab: a send, an edit of the input field, or the outstanding call settling. */
  datatype Event = Submit(text: Option<string>) | Type(typed: string) | Complete(outcome: Outcome)

  /** One event; None for a completion with no call outstanding, which cannot occur. */
  function Step(tab: Tab, s: Session, e: Event): Option<Session> {
    match e
    case Submit(text) => Some(Send(s, text).session)
    case Type(text) => Some(EditInput(s, text))
    case Complete(o) => if s.loading then Some(Settle(tab, s, o)) else None
  }

  function Run(tab: Tab, s: Session, events: seq<Event>): Option<Session>
    decreases |events|
  {
    if events == [] then Some(s)
    else
      match Step(tab, s, events[0])
      case None => None
      case Some(t) => Run(tab, t, events[1..])
  }

  /** The number of gateway calls a run issues: its accepted sends. */
  function Issued(tab: Tab, s: Session, events: seq<Event>): nat
    decreases |events|
  {
    if events == [] then 0
    else
      match Step(tab, s, events[0])
      case None => 0
      case Some(t) =>
        (if events[0].Submit? && Send(s, events[0].text).history.Some? then 1 else 0)
        + Issued(tab, t, events[1..])
  }

  function Completions(events: seq<Event>): nat {
    if events == [] then 0 else (if events[0].Complete? then 1 else 0) + Completions(events[1..])
  }

  lemma {:induction false} RunKeepsWellFormed(tab: Tab, s: Session, events: seq<Event>)
    requires WellFormed(tab, s)
    requires Run(tab, s, events).Some?
    ensures WellFormed(tab, Run(tab, s, events).value)
    decreases |events|
  {
    if events != [] {
      var t := Step(tab, s, events[0]).value;
      match events[0] {
        case Submit(text) => SendKeepsWellFormed(tab, s, text);
        case Type(_) =>
        case Complete(o) => SettleKeepsWellFormed(tab, s, o);
      }
      RunKeepsWellFormed(tab, t, events[1..]);
    }
  }

  /** In the chat tab no sequence of events breaks the user/assistant alternation. */
  lemma {:induction false} ChatRunKeepsAlternating(s: Session, events: seq<Event>)
    requires Alternating(s)
    requires Run(Chat, s, events).Some?
    ensures Alternating(Run(Chat, s, events).value)
    decreases |events|
  {
    if events != [] {
      var t := Step(Chat, s, events[0]).value;
      match events[0] {
        case Submit(text) => ChatSendKeepsAlternating(s, text);
        case Type(_) =>
        case Complete(o) => ChatSettleKeepsAlternating(s, o);
      }
      ChatRunKeepsAlternating(t, events[1..]);
    }
  }

  /**
   * Calls issued and calls settled balance up to the `loading` flag: every accepted send
   * is matched by exactly one completion, and a new call is issued only once the
   * previous one has settled.
   */
  lemma {:induction false} CallsBalance(tab: Tab, s: Session, events: seq<Event>)
    requires Run(tab, s, events).Some?
    ensures Issued(tab, s, events) + (if s.loading then 1 else 0)
         == Completions(events) + (if Run(tab, s, events).value.loading then 1 else 0)
    decreases |events|
  {
    if events != [] {
      var t := Step(tab, s, events[0]).value;
      CallsBalance(tab, t, events[1..]);
    }
  }

  lemma {:induction false} RunPrefix(tab: Tab, s: Session, events: seq<Event>, k: nat)
    requires Run(tab, s, events).Some? && k <= |events|
    ensures Run(tab, s, events[..k]).Some?
    ensures Issued(tab, s, events[..k]) + (if s.loading then 1 else 0)
         == Completions(events[..k]) + (if Run(tab, s, events[..k]).value.loading then 1 else 0)
    decreases |events|
  {
    if k > 0 {
      var t := Step(tab, s, events[0]).value;
      RunPrefix(tab, t, events[1..], k - 1);
      assert events[..k][1..] == events[1..][..k - 1];
    }
    CallsBalance(tab, s, events[..k]);
  }

  /** From an idle state, at no point of any run are two calls outstanding at once. */
  lemma AtMostOneOutstanding(tab: Tab, s: Session, events: seq<Event>, k: nat)
    requires !s.loading && Run(tab, s, events).Some? && k <= |events|
    ensures Completions(events[..k]) <= Issued(tab, s, events[..k]) <= Completions(events[..k]) + 1
  {
    RunPrefix(tab, s, events, k);
  }

  /**
   * The study tab, unlike the chat tab, can leave a user turn unanswered: after a failed
   * call the next send puts two user turns side by side, where the chat tab puts its
   * fallback turn between them.
   */
  lemma FailureThenSend(tab: Tab, a: string, b: string)
    requires a != "" && Trimmed(a) && b != "" && Trimmed(b)
    ensures Run(tab, Initial(tab), [Submit(Some(a)), Complete(Failed), Submit(Some(b))])
         == Some(Session([Greeting(tab), Turn(User, a)]
                         + (if tab == Chat then [Turn(Assistant, ChatFallback)] else [])
                         + [Turn(User, b)], "", true))
  {
    TrimOfTrimmed(a);
    TrimOfTrimmed(b);
    var events := [Submit(Some(a)), Complete(Failed), Submit(Some(b))];
    var s1 := Session([Greeting(tab), Turn(User, a)], "", true);
    var s2 := Session(s1.messages + (if tab == Chat then [Turn(Assistant, ChatFallback)] else []), "", false);
    var s3 := Session(s2.messages + [Turn(User, b)], "", true);
    assert Send(Initial(tab), Some(a)).session == s1;
    assert Settle(tab, s1, Failed) == s2;
    assert Send(s2, Some(b)).session == s3;
    assert Run(tab, s3, []) == Some(s3);
    assert Run(tab, s2, events[2..]) == Some(s3);
    assert Run(tab, s1, events[1..]) == Some(s3);
  }
}
