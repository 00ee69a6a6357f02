/** The session controller of the `App` component (App.tsx, lines 11-65):
    the chat transcript, the text box, the waiting flag, the tree
    configuration and the morph status, and the handlers that change them.
    The concierge's reply and the two random draws are parameters. */
module App {
  import opened Wrappers
  import opened Types
  import opened Strings
  import opened Concierge
  import opened Morph

  /** A user turn as the send handler stores it: trimmed and not empty. */
  predicate IsUserText(t: string) {
    t != [] && IsTrimmed(t)
  }

  /** A settled transcript: user and assistant turns alternate, starting
      with the user, every user turn trimmed and non-empty, and every user
      turn answered. */
  predicate IsTranscript(msgs: seq<ChatMessage>) {
    |msgs| % 2 == 0 &&
    forall i :: 0 <= i < |msgs| ==>
      (msgs[i].role == User <==> i % 2 == 0) &&
      (msgs[i].role == User ==> IsUserText(msgs[i].content))
  }

  /** A transcript waiting for its reply: a settled transcript and one
      unanswered user turn. */
  predicate IsAwaitingReply(msgs: seq<ChatMessage>) {
    |msgs| > 0 && IsTranscript(msgs[..|msgs| - 1]) &&
    msgs[|msgs| - 1].role == User && IsUserText(msgs[|msgs| - 1].content)
  }

  /** Appending a valid user turn to a settled transcript leaves it waiting
      for a reply. */
  lemma AskKeepsShape(msgs: seq<ChatMessage>, userMsg: string)
    requires IsTranscript(msgs) && IsUserText(userMsg)
    ensures IsAwaitingReply(msgs + [ChatMessage(User, userMsg)])
  {
    assert (msgs + [ChatMessage(User, userMsg)])[..|msgs|] == msgs;
  }

  /** Appending the reply to a transcript that waits for one settles it. */
  lemma {:induction false} AnswerSettles(msgs: seq<ChatMessage>, reply: string)
    requires IsAwaitingReply(msgs)
    ensures IsTranscript(msgs + [ChatMessage(Assistant, reply)])
  {
    var before := msgs[..|msgs| - 1];
    var after := msgs + [ChatMessage(Assistant, reply)];
    forall i | 0 <= i < |after|
      ensures (after[i].role == User <==> i % 2 == 0)
      ensures after[i].role == User ==> IsUserText(after[i].content)
    {
      if i < |before| {
        assert after[i] == before[i];
      }
    }
  }

  /** Appending two turns one after the other appends the pair. Stated on
      its own so that `Session.Submit` gets the fact without searching for
      it among the session's other sequence facts, on every solver seed. */
  lemma TwoTurns(msgs: seq<ChatMessage>, first: ChatMessage, second: ChatMessage)
    ensures msgs + [first] + [second] == msgs + [first, second]
  {
  }

  /** The tuning overwrite after a reply (App.tsx, lines 54-58), given the
      two values `Math.random()` returned: the light intensity lands in
      [1.5, 2.5), the rotation speed in [0.2, 0.5), and the glow colour and
      ornament density are kept. */
  function Retune(prev: TreeConfig, draw1: real, draw2: real): (c: TreeConfig)
    requires 0.0 <= draw1 < 1.0 && 0.0 <= draw2 < 1.0
    ensures 1.5 <= c.lightIntensity < 2.5
    ensures 0.2 <= c.rotationSpeed < 0.5
    ensures c.glowColor == prev.glowColor && c.ornamentDensity == prev.ornamentDensity
  {
    prev.(lightIntensity := 1.5 + draw1, rotationSpeed := 0.2 + draw2 * 0.3)
  }

  class Session {
    var messages: seq<ChatMessage>
    var input: string
    var isTyping: bool
    var treeConfig: TreeConfig
    var morphStatus: MorphStatus

    /** The session between exchanges: no reply pending and a settled
        transcript. */
    predicate Valid()
      reads this
    {
      !isTyping && IsTranscript(messages)
    }

    /** The session while the concierge call is awaited. */
    predicate Waiting()
      reads this
    {
      isTyping && IsAwaitingReply(messages)
    }

    /** The state the component starts with (App.tsx, lines 12-16). */
    constructor ()
      ensures messages == [] && input == [] && !isTyping
      ensures treeConfig == INITIAL_CONFIG && morphStatus == TreeShape
      ensures Valid()
    {
      messages := [];
      input := [];
      isTyping := false;
      treeConfig := INITIAL_CONFIG;
      morphStatus := TreeShape;
    }

    /** The text box's change handler: the typed text replaces `input`. */
    method SetInput(text: string)
      modifies this`input
      ensures input == text
    {
      input := text;
    }

    /** `toggleMorph`: flips the status and touches nothing else. */
    method ToggleMorph()
      modifies this`morphStatus
      ensures morphStatus == Flip(old(morphStatus))
    {
      morphStatus := Flip(morphStatus);
    }

    /** The part of `handleSendMessage` before the concierge call (lines
        36-47). Blank input is dropped and nothing changes. Otherwise the
        text box is cleared, the trimmed text is appended as a user turn,
        the waiting flag is raised, and the request carries the trimmed
        text and the history of the transcript as it was before that
        turn. */
    method BeginSend() returns (request: Option<Request>)
      modifies this`input, this`messages, this`isTyping
      ensures Trim(old(input)) == [] ==>
        request == None && input == old(input) &&
        messages == old(messages) && isTyping == old(isTyping)
      ensures Trim(old(input)) != [] ==>
        request == Some(Request(Trim(old(input)), ToHistory(old(messages)))) &&
        input == [] && isTyping &&
        messages == old(messages) + [ChatMessage(User, Trim(old(input)))]
      ensures old(Valid()) && request.None? ==> Valid()
      ensures old(Valid()) && request.Some? ==> Waiting()
    {
      var userMsg := Trim(input);
      if userMsg == [] {
        return None;
      }
      var prior := messages;
      input := [];
      messages := messages + [ChatMessage(User, userMsg)];
      isTyping := true;
      request := Some(Request(userMsg, ToHistory(prior)));
      if IsTranscript(prior) {
        AskKeepsShape(prior, userMsg);
      }
    }

    /** The part of `handleSendMessage` after the concierge call (lines
        51-64): the waiting flag is lowered, the reply is appended as an
        assistant turn, the tuning is redrawn, and the keyword rule on the
        user text of the `request` that `BeginSend` returned, never on the
        reply, decides the status. */
    method FinishSend(request: Request, reply: string, draw1: real, draw2: real)
      requires 0.0 <= draw1 < 1.0 && 0.0 <= draw2 < 1.0
      modifies this`isTyping, this`messages, this`treeConfig, this`morphStatus
      ensures !isTyping
      ensures messages == old(messages) + [ChatMessage(Assistant, reply)]
      ensures treeConfig == Retune(old(treeConfig), draw1, draw2)
      ensures morphStatus == Next(old(morphStatus), request.message)
      ensures old(Waiting()) ==> Valid()
    {
      if IsAwaitingReply(messages) {
        AnswerSettles(messages, reply);
      }
      isTyping := false;
      messages := messages + [ChatMessage(Assistant, reply)];
      treeConfig := Retune(treeConfig, draw1, draw2);
      var forced := Classify(request.message);
      if forced.Some? {
        morphStatus := forced.value;
      }
    }

    /** One whole submission, the concierge call taken as atomic: blank
        input changes nothing; otherwise the transcript grows by the
        trimmed user turn and the reply, in that order, the text box is
        cleared, no reply is pending, the tuning is redrawn and the keyword
        rule sets the status. A settled session stays settled. */
    method Submit(reply: string, draw1: real, draw2: real) returns (request: Option<Request>)
      requires 0.0 <= draw1 < 1.0 && 0.0 <= draw2 < 1.0
      modifies this`input, this`messages, this`isTyping, this`treeConfig, this`morphStatus
      ensures Trim(old(input)) == [] ==>
        request == None && input == old(input) && messages == old(messages) &&
        isTyping == old(isTyping) && treeConfig == old(treeConfig) &&
        morphStatus == old(morphStatus)
      ensures Trim(old(input)) != [] ==>
        request == Some(Request(Trim(old(input)), ToHistory(old(messages)))) &&
        input == [] && !isTyping &&
        messages == old(messages) + [ChatMessage(User, Trim(old(input))), ChatMessage(Assistant, reply)] &&
        treeConfig == Retune(old(treeConfig), draw1, draw2) &&
        morphStatus == Next(old(morphStatus), Trim(old(input)))
      ensures old(Valid()) ==> Valid()
    {
      ghost var before := messages;
      ghost var text := Trim(input);
      request := BeginSend();
      if request.Some? {
        FinishSend(request.value, reply, draw1, draw2);
        TwoTurns(before, ChatMessage(User, text), ChatMessage(Assistant, reply));
      }
    }
  }
}
