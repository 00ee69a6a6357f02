/** What the session controller hands to the concierge service: the new
    user text and the earlier transcript, re-labelled for the remote chat
    API (App.tsx, lines 44-49). The service itself is not part of this
    model; its reply is an opaque string. */
module Concierge {
  import opened Types

  /** The remote API's names for the two speakers. */
  datatype HistoryRole = UserRole | ModelRole

  datatype Part = Part(text: string)

  /** One history entry in the remote API's shape: a role and its parts. */
  datatype Content = Content(role: HistoryRole, parts: seq<Part>)

  /** The two arguments of `getResponse`: the trimmed user text and the
      history. */
  datatype Request = Request(message: string, history: seq<Content>)

  /** The remote API's label for a transcript role: `user` stays `user`,
      `assistant` becomes `model`. */
  function RoleLabel(role: Role): HistoryRole {
    if role == User then UserRole else ModelRole
  }

  /** `messages.map(...)`: one entry per turn, in order, each keeping its
      text as a single part and its speaker, with `assistant` renamed. */
  function ToHistory(msgs: seq<ChatMessage>): (h: seq<Content>)
    ensures |h| == |msgs|
    ensures forall i :: 0 <= i < |msgs| ==>
      h[i].parts == [Part(msgs[i].content)] &&
      (h[i].role == UserRole <==> msgs[i].role == User)
  {
    if msgs == [] then []
    else [Content(RoleLabel(msgs[0].role), [Part(msgs[0].content)])] + ToHistory(msgs[1..])
  }

  /** Reads a history entry back as a transcript turn. */
  function FromContent(c: Content): ChatMessage
    requires |c.parts| == 1
  {
    ChatMessage(if c.role == UserRole then User else Assistant, c.parts[0].text)
  }

  /** The mapping loses nothing: every entry of the history reads back as
      the very turn it came from. */
  lemma {:induction false} HistoryLossless(msgs: seq<ChatMessage>)
    ensures forall i :: 0 <= i < |msgs| ==>
      |ToHistory(msgs)[i].parts| == 1 && FromContent(ToHistory(msgs)[i]) == msgs[i]
  {
    var h := ToHistory(msgs);
    forall i | 0 <= i < |msgs|
      ensures |h[i].parts| == 1 && FromContent(h[i]) == msgs[i]
    {
      assert h[i].parts == [Part(msgs[i].content)];
      assert msgs[i].role == User || msgs[i].role == Assistant;
    }
  }

  /** The history of a longer transcript extends the history of the shorter
      one: appending turns never rewrites what was already sent. */
  lemma {:induction false} ToHistoryAppend(a: seq<ChatMessage>, b: seq<ChatMessage>)
    ensures ToHistory(a + b) == ToHistory(a) + ToHistory(b)
  {
    if a == [] {
      assert a + b == b;
    } else {
      assert (a + b)[1..] == a[1..] + b;
      ToHistoryAppend(a[1..], b);
    }
  }
}
