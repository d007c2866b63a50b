/** The message and history lists of the chat view and how sending a message
    changes them: an optimistic user message first, then either the assistant's
    answer or the removal of the optimistic messages. */
module Chat {
  import opened JsValues
  import opened Decimal

  datatype Message = Message(id: string, role: string, content: Option<string>, timestamp: Option<string>)

  datatype History = History(conversationId: string, title: string)

  /** What `handleSendMessage` keeps across the request: the trimmed text and
      whether no conversation was selected before it. */
  datatype Outgoing = Outgoing(content: string, wasNewConversation: bool)

  /** The chat endpoint's answer: a failure (401 or other), or the reply body. */
  datatype ChatReply =
    | Failed(unauthorized: bool)
    | Replied(conversationId: Option<string>, title: Option<string>, role: Option<string>,
              response: Option<string>, timestamp: Option<string>)

  const LocalUserPrefix := "local-user-"
  const DefaultTitle := "Nova Conversa"
  const SendError := "Erro ao enviar mensagem."

  /** The white space `String.prototype.trim` removes (ASCII, no-break space,
      byte-order mark, line and paragraph separators). */
  predicate IsWhitespace(c: char) {
    c == ' ' || c == '\t' || c == '\n' || c == '\r' || c == '\U{000B}' || c == '\U{000C}'
    || c == '\U{00A0}' || c == '\U{FEFF}' || c == '\U{2028}' || c == '\U{2029}'
  }

  predicate AllWhitespace(s: string) {
    forall k :: 0 <= k < |s| ==> IsWhitespace(s[k])
  }

  function TrimStart(s: string): (r: string)
    ensures |r| <= |s| && r == s[|s| - |r|..]
    ensures forall k :: 0 <= k < |s| - |r| ==> IsWhitespace(s[k])
    ensures r == [] || !IsWhitespace(r[0])
  {
    if s != [] && IsWhitespace(s[0]) then
      var r := TrimStart(s[1..]);
      assert s[1..][|s| - 1 - |r|..] == s[|s| - |r|..];
      r
    else s
  }

  function TrimEnd(s: string): (r: string)
    ensures |r| <= |s| && r == s[..|r|]
    ensures forall k :: |r| <= k < |s| ==> IsWhitespace(s[k])
    ensures r == [] || !IsWhitespace(r[|r| - 1])
  {
    if s != [] && IsWhitespace(s[|s| - 1]) then TrimEnd(s[..|s| - 1]) else s
  }

  /** Every character of `s` before index `i` and from index `j` on is white space. */
  predicate WhitespaceOutside(s: string, i: int, j: int) {
    && (forall k :: 0 <= k < i && k < |s| ==> IsWhitespace(s[k]))
    && (forall k :: 0 <= j <= k < |s| ==> IsWhitespace(s[k]))
  }

  /** `r` is the part of `s` from `i` to `j`, and only white space lies outside it. */
  ghost predicate CutAt(s: string, r: string, i: int, j: int) {
    0 <= i <= j <= |s| && r == s[i..j] && WhitespaceOutside(s, i, j)
  }

  /** `r` is `s` with some white space cut from each end. */
  ghost predicate CutsOnlyWhitespace(s: string, r: string) {
    exists i, j :: CutAt(s, r, i, j)
  }

  /** Cutting white space off the front of `s`, giving `t`, and then off the back
      of `t`, giving `r`, cuts only white space from `s`. */
  lemma CutTwice(s: string, t: string, r: string)
    requires |t| <= |s| && t == s[|s| - |t|..]
    requires forall k :: 0 <= k < |s| - |t| ==> IsWhitespace(s[k])
    requires |r| <= |t| && r == t[..|r|]
    requires forall k :: |r| <= k < |t| ==> IsWhitespace(t[k])
    ensures CutAt(s, r, |s| - |t|, |s| - |t| + |r|)
  {
    var i, j := |s| - |t|, |s| - |t| + |r|;
    assert r == s[i..j];
    forall k | j <= k < |s|
      ensures IsWhitespace(s[k])
    {
      assert s[k] == t[k - i];
    }
  }

  /** Two cuts of `s` that cut only white space and keep non-white ends are the same. */
  lemma CutsWithNonWhiteEndsAgree(s: string, r: string, i: int, j: int, t: string, i': int, j': int)
    requires CutAt(s, r, i, j) && CutAt(s, t, i', j')
    requires r != "" && !IsWhitespace(r[0]) && !IsWhitespace(r[|r| - 1])
    requires t != "" && !IsWhitespace(t[0]) && !IsWhitespace(t[|t| - 1])
    ensures r == t
  {
    assert s[i] == r[0] && s[i'] == t[0];
    assert s[j - 1] == r[|r| - 1] && s[j' - 1] == t[|t| - 1];
  }

  /** `s.trim()`: white space gone from both ends; empty exactly when `s` is all white space. */
  function Trim(s: string): (r: string)
    ensures r == "" <==> AllWhitespace(s)
    ensures r != "" ==> !IsWhitespace(r[0]) && !IsWhitespace(r[|r| - 1])
    ensures |r| <= |s|
  {
    var t := TrimStart(s);
    var r := TrimEnd(t);
    assert r != "" ==> r[0] == t[0];
    r
  }

  /** What `trim` keeps is `s` itself with white space cut from each end. */
  lemma TrimCutsOnlyWhitespace(s: string)
    ensures CutsOnlyWhitespace(s, Trim(s))
  {
    var t := TrimStart(s);
    CutTwice(s, t, TrimEnd(t));
  }

  /** The three properties single out the trimmed text: any slice of `s` that cuts
      only white space, is empty exactly for blank `s` and otherwise starts and
      ends with non-white space is `Trim(s)`. */
  lemma TrimIsUnique(s: string, r: string)
    requires CutsOnlyWhitespace(s, r)
    requires r == "" <==> AllWhitespace(s)
    requires r != "" ==> !IsWhitespace(r[0]) && !IsWhitespace(r[|r| - 1])
    ensures r == Trim(s)
  {
    var t := Trim(s);
    TrimCutsOnlyWhitespace(s);
    if r != "" {
      var i, j :| CutAt(s, r, i, j);
      var i', j' :| CutAt(s, t, i', j');
      CutsWithNonWhiteEndsAgree(s, r, i, j, t, i', j');
    }
  }

  /** The optimistic message: `{ id: 'local-user-' + Date.now(), role: 'user', content }`. */
  function UserMessage(content: string, now: nat): (m: Message)
    ensures m.role == "user" && m.content == Some(content) && m.timestamp.None?
  {
    Message(LocalUserPrefix + IntToText(now), "user", Some(content), None)
  }

  /** The optimistic message is one the rollback removes. */
  lemma UserMessageIsLocal(content: string, now: nat)
    ensures IsLocal(UserMessage(content, now))
  {
    var id := UserMessage(content, now).id;
    assert id[..|LocalUserPrefix|] == LocalUserPrefix;
  }

  /** The assistant's message built from a reply; its id never looks local. */
  function AssistantMessage(reply: ChatReply, now: nat): (m: Message)
    requires reply.Replied?
    ensures !StartsWith(m.id, LocalUserPrefix)
    ensures m.role == (if TruthyStr(reply.role) then reply.role.value else "assistant")
    ensures m.content == reply.response && m.timestamp == reply.timestamp
  {
    var stamp := if TruthyStr(reply.timestamp) then reply.timestamp.value else IntToText(now);
    var id := "assistant-" + stamp;
    assert id[1] != LocalUserPrefix[1];
    Message(id, OrStr(reply.role, Some("assistant")).value, reply.response, reply.timestamp)
  }

  predicate IsLocal(m: Message) {
    StartsWith(m.id, LocalUserPrefix)
  }

  /** The rollback after a failed send: every optimistic message goes, the rest stay in order. */
  function WithoutLocal(messages: seq<Message>): (r: seq<Message>)
    ensures Subsequence(r, messages)
    ensures forall i :: 0 <= i < |r| ==> !IsLocal(r[i])
    ensures forall m :: !IsLocal(m) ==> multiset(r)[m] == multiset(messages)[m]
  {
    var r := Filter(messages, m => !IsLocal(m));
    forall m | !IsLocal(m)
      ensures multiset(r)[m] == multiset(messages)[m]
    {
      FilterCounts(messages, m => !IsLocal(m), m);
    }
    r
  }

  /** A failed send leaves the list as the rollback of what it was before the send. */
  lemma FailedSendRollsBack(before: seq<Message>, content: string, now: nat)
    ensures WithoutLocal(before + [UserMessage(content, now)]) == WithoutLocal(before)
  {
    var keep := (m: Message) => !IsLocal(m);
    UserMessageIsLocal(content, now);
    FilterAppend(before, [UserMessage(content, now)], keep);
    assert Filter([UserMessage(content, now)], keep) == [];
  }

  predicate Listed(histories: seq<History>, id: string) {
    exists i :: 0 <= i < |histories| && histories[i].conversationId == id
  }

  predicate DistinctIds(histories: seq<History>) {
    forall i, j :: 0 <= i < j < |histories| ==> histories[i].conversationId != histories[j].conversationId
  }

  /** Prepend a history entry unless one with the same id is already listed. */
  function RecordConversation(histories: seq<History>, id: string, title: string): (r: seq<History>)
    ensures Listed(r, id)
    ensures Listed(histories, id) ==> r == histories
    ensures !Listed(histories, id) ==> r == [History(id, title)] + histories
    ensures DistinctIds(histories) ==> DistinctIds(r)
  {
    if Listed(histories, id) then histories
    else
      var r := [History(id, title)] + histories;
      assert r[0].conversationId == id;
      r
  }

  /** The chat view's state, updated in place by its handlers. */
  class ChatView {
    var histories: seq<History>
    var selectedConversationId: Option<string>
    var messages: seq<Message>
    var newMessage: string
    var sending: bool
    var error: string

    constructor ()
      ensures histories == [] && selectedConversationId.None? && messages == []
      ensures newMessage == "" && !sending && error == ""
    {
      histories, selectedConversationId, messages := [], None, [];
      newMessage, sending, error := "", false, "";
    }

    /** The synchronous start of `handleSendMessage`. Nothing happens while a send
        is in flight or when the input is blank. */
    method BeginSend(now: nat) returns (out: Option<Outgoing>)
      modifies this
      ensures var content := Trim(old(newMessage));
              if old(sending) || content == "" then
                out.None? && unchanged(this)
              else
                && out == Some(Outgoing(content, !TruthyStr(old(selectedConversationId))))
                && messages == old(messages) + [UserMessage(content, now)]
                && newMessage == "" && sending && error == ""
                && histories == old(histories) && selectedConversationId == old(selectedConversationId)
    {
      var content := Trim(newMessage);
      if sending || content == "" {
        return None;
      }
      out := Some(Outgoing(content, !TruthyStr(selectedConversationId)));
      messages, newMessage, sending, error := messages + [UserMessage(content, now)], "", true, "";
    }

    /** The rest of `handleSendMessage` once the endpoint has answered; returns
        whether the session must be logged out (a 401). */
    method CompleteSend(out: Outgoing, reply: ChatReply, now: nat) returns (logout: bool)
      modifies this
      ensures !sending && newMessage == old(newMessage)
      ensures reply.Failed? ==>
                && messages == WithoutLocal(old(messages))
                && histories == old(histories) && selectedConversationId == old(selectedConversationId)
                && logout == reply.unauthorized
                && error == (if reply.unauthorized then old(error) else SendError)
      ensures reply.Replied? ==>
                && messages == old(messages) + [AssistantMessage(reply, now)]
                && !logout && error == old(error)
                && selectedConversationId == (if TruthyStr(reply.conversationId) then reply.conversationId
                                              else old(selectedConversationId))
                && histories == (if TruthyStr(reply.conversationId) && out.wasNewConversation
                                 then RecordConversation(old(histories), reply.conversationId.value,
                                                         OrStr(reply.title, Some(DefaultTitle)).value)
                                 else old(histories))
    {
      logout := false;
      match reply {
        case Failed(unauthorized) =>
          messages := WithoutLocal(messages);
          if unauthorized {
            logout := true;
          } else {
            error := SendError;
          }
        case Replied(conversationId, title, _, _, _) =>
          if TruthyStr(conversationId) {
            selectedConversationId := conversationId;
            if out.wasNewConversation {
              histories := RecordConversation(histories, conversationId.value, OrStr(title, Some(DefaultTitle)).value);
            }
          }
          messages := messages + [AssistantMessage(reply, now)];
      }
      sending := false;
    }

    /** `handleNewConversation` */
    method NewConversation()
      modifies this
      ensures selectedConversationId.None? && messages == [] && newMessage == "" && error == ""
      ensures histories == old(histories) && sending == old(sending)
    {
      selectedConversationId := None;
      messages := [];
      newMessage := "";
      error := "";
    }
  }
}
