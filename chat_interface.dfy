/**
 * The chat session of src/components/ChatInterface.tsx: the message list,
 * the input box, the loading flag and the error banner, and the handlers
 * that change them. The network round trip is not performed: its outcome is
 * a parameter, and the message ids and timestamps the component reads from
 * the clock are parameters too.
 */
module ChatInterface {
  import opened Wrappers

  datatype Message = Message(id: string, text: string, isUser: bool, timestamp: string)

  /** How the `/api/chat` request ended. */
  datatype FetchOutcome =
      /** `response.ok`, with the body's `response` and `timestamp`. */
    | Answered(response: string, timestamp: string)
      /** Not `response.ok`; the body's `error` field, if any. */
    | Rejected(serverError: Option<string>)
      /** `fetch` or `response.json()` threw: an `Error` with its message, or (`None`) some other value. */
    | Threw(errorMessage: Option<string>)

  /** The fallback error text ("an unknown error occurred"). */
  const UnknownError: string := "發生未知錯誤"

  /** The ECMAScript WhiteSpace and LineTerminator characters, which `trim` removes. */
  predicate IsJsWhitespace(c: char) {
    || '\U{0009}' <= c <= '\U{000D}'          // tab, line feed, vertical tab, form feed, carriage return
    || c == ' ' || c == '\U{00A0}' || c == '\U{1680}'
    || '\U{2000}' <= c <= '\U{200A}'          // en quad .. hair space
    || c == '\U{2028}' || c == '\U{2029}'      // line and paragraph separators
    || c == '\U{202F}' || c == '\U{205F}' || c == '\U{3000}' || c == '\U{FEFF}'
  }

  /** Leading whitespace removed. */
  function TrimStart(s: string): (r: string)
    ensures |r| <= |s| && r == s[|s| - |r|..]
    ensures forall i :: 0 <= i < |s| - |r| ==> IsJsWhitespace(s[i])
    ensures r == [] || !IsJsWhitespace(r[0])
  {
    if s != [] && IsJsWhitespace(s[0]) then TrimStart(s[1..]) else s
  }

  /** Trailing whitespace removed. */
  function TrimEnd(s: string): (r: string)
    ensures |r| <= |s| && r == s[..|r|]
    ensures forall i :: |r| <= i < |s| ==> IsJsWhitespace(s[i])
    ensures r == [] || !IsJsWhitespace(r[|r| - 1])
  {
    if s != [] && IsJsWhitespace(s[|s| - 1]) then TrimEnd(s[..|s| - 1]) else s
  }

  /** `String.prototype.trim`: what is left neither starts nor ends with whitespace. */
  function Trim(s: string): (r: string)
    ensures |r| <= |s|
    ensures r == [] || (!IsJsWhitespace(r[0]) && !IsJsWhitespace(r[|r| - 1]))
  {
    var t := TrimStart(s);
    var r := TrimEnd(t);
    assert r != [] ==> r[0] == t[0];
    r
  }

  /** A prefix of a suffix is a middle slice; what lies past it is what lay past the prefix. */
  lemma PrefixOfSuffix(s: string, a: nat, r: string)
    requires a <= |s| && |r| <= |s| - a && r == s[a..][..|r|]
    ensures r == s[a..a + |r|]
    ensures forall i :: a + |r| <= i < |s| ==> s[i] == s[a..][i - a]
  {
  }

  /**
   * What `trim` means: the result is the part of `s` that starts where
   * `TrimStart` stopped, and everything outside that part is whitespace.
   */
  lemma TrimIsSlice(s: string)
    ensures var a := |s| - |TrimStart(s)|;
            && 0 <= a <= |s| - |Trim(s)|
            && Trim(s) == s[a..a + |Trim(s)|]
            && (forall i :: 0 <= i < a ==> IsJsWhitespace(s[i]))
            && (forall i :: a + |Trim(s)| <= i < |s| ==> IsJsWhitespace(s[i]))
  {
    var t := TrimStart(s);
    var r := TrimEnd(t);
    assert Trim(s) == r;
    var a := |s| - |t|;
    PrefixOfSuffix(s, a, r);
  }

  /** `!s.trim()`: trimming leaves nothing exactly when every character is whitespace. */
  lemma TrimEmptyIffBlank(s: string)
    ensures Trim(s) == [] <==> forall i :: 0 <= i < |s| ==> IsJsWhitespace(s[i])
  {
    var t := TrimStart(s);
    if Trim(s) == [] {
      // TrimEnd left nothing of `t`, so `t` is all whitespace; as it cannot start with whitespace, it is empty
      assert t == [];
    } else if t != [] {
      assert !IsJsWhitespace(s[|s| - |t|]);
    }
  }

  /** The error banner after a failed request; `None` after a successful one. */
  function ErrorText(outcome: FetchOutcome): (r: Option<string>)
    ensures r.None? <==> outcome.Answered?
    ensures outcome.Rejected? && outcome.serverError.Some? && outcome.serverError.value != ""
            ==> r == outcome.serverError
    ensures outcome.Rejected? && (outcome.serverError.None? || outcome.serverError.value == "")
            ==> r == Some(UnknownError)
    ensures outcome.Threw? ==> r == Some(if outcome.errorMessage.Some? then outcome.errorMessage.value else UnknownError)
    ensures outcome.Rejected? ==> r.Some? && r.value != ""
  {
    match outcome
    case Answered(_, _) => None
    case Rejected(serverError) =>
      // `new Error(data.error || '發生未知錯誤')`: an absent or empty `error` is falsy
      var thrown := if serverError.Some? && serverError.value != "" then serverError.value else UnknownError;
      Some(thrown)
    case Threw(errorMessage) =>
      // `err instanceof Error ? err.message : '發生未知錯誤'`
      Some(if errorMessage.Some? then errorMessage.value else UnknownError)
  }

  /** The reply appended after the request, if it succeeded. */
  function Reply(outcome: FetchOutcome, aiId: string): (r: seq<Message>)
    ensures |r| <= 1
    ensures r != [] <==> outcome.Answered?
    ensures forall m :: m in r ==> !m.isUser && m.id == aiId
    ensures outcome.Answered? ==> r[0].text == outcome.response && r[0].timestamp == outcome.timestamp
  {
    if outcome.Answered? then [Message(aiId, outcome.response, false, outcome.timestamp)] else []
  }

  /** Enter without Shift sends; Shift+Enter inserts a line break. */
  predicate IsSendKey(key: string, shiftKey: bool) {
    key == "Enter" && !shiftKey
  }

  class ChatSession {
    var messages: seq<Message>
    var inputMessage: string
    var isLoading: bool
    var error: Option<string>

    /**
     * The guard of `sendMessage`, which is also the `disabled` condition of
     * the send button: a request is pending or the input is all whitespace.
     */
    predicate SendBlocked()
      reads this
      ensures SendBlocked() <==>
                isLoading || forall i :: 0 <= i < |inputMessage| ==> IsJsWhitespace(inputMessage[i])
    {
      TrimEmptyIffBlank(inputMessage);
      Trim(inputMessage) == [] || isLoading
    }

    constructor ()
      ensures messages == [] && inputMessage == "" && !isLoading && error == None
    {
      messages, inputMessage, isLoading, error := [], "", false, None;
    }

    /** The text area's `onChange`. */
    method UpdateInput(text: string)
      modifies this`inputMessage
      ensures inputMessage == text
    {
      inputMessage := text;
    }

    /**
     * The part of `sendMessage` before the request: the guard, then the
     * optimistic user message. Returns the text sent as `message`, or `None`
     * when the guard returns early.
     */
    method BeginSend(userId: string, now: string) returns (request: Option<string>)
      modifies this
      ensures old(SendBlocked()) ==> request == None && unchanged(this)
      ensures !old(SendBlocked()) ==>
                && request == Some(old(inputMessage))
                && messages == old(messages) + [Message(userId, old(inputMessage), true, now)]
                && inputMessage == "" && isLoading && error == None
    {
      if SendBlocked() {
        return None;
      }
      var userMessage := Message(userId, inputMessage, true, now);
      request := Some(inputMessage);
      messages := messages + [userMessage];
      inputMessage := "";
      isLoading := true;
      error := None;
    }

    /** The part of `sendMessage` after the request settles: the reply or the error, then loading off. */
    method FinishSend(outcome: FetchOutcome, aiId: string)
      modifies this`messages, this`isLoading, this`error
      ensures messages == old(messages) + Reply(outcome, aiId)
      ensures error == if outcome.Answered? then old(error) else ErrorText(outcome)
      ensures !isLoading
    {
      match outcome {
        case Answered(response, timestamp) =>
          var aiMessage := Message(aiId, response, false, timestamp);
          messages := messages + [aiMessage];
        case _ =>
          error := ErrorText(outcome);
      }
      isLoading := false;
    }

    /** `sendMessage` run to completion, with nothing else happening while the request is pending. */
    method SendMessage(outcome: FetchOutcome, userId: string, now: string, aiId: string)
      returns (request: Option<string>)
      modifies this
      ensures old(SendBlocked()) ==> request == None && unchanged(this)
      ensures !old(SendBlocked()) ==>
                && request == Some(old(inputMessage))
                && messages == old(messages) + [Message(userId, old(inputMessage), true, now)] + Reply(outcome, aiId)
                && inputMessage == "" && !isLoading && error == ErrorText(outcome)
      ensures |old(messages)| <= |messages| <= |old(messages)| + 2
    {
      request := BeginSend(userId, now);
      if request.Some? {
        FinishSend(outcome, aiId);
      }
    }

    /** `handleKeyPress`: Enter without Shift sends; any other key changes nothing here. */
    method HandleKeyPress(key: string, shiftKey: bool, outcome: FetchOutcome, userId: string, now: string, aiId: string)
      returns (request: Option<string>)
      modifies this
      ensures !IsSendKey(key, shiftKey) ==> request == None && unchanged(this)
      ensures IsSendKey(key, shiftKey) && !old(SendBlocked()) ==>
                && request == Some(old(inputMessage))
                && messages == old(messages) + [Message(userId, old(inputMessage), true, now)] + Reply(outcome, aiId)
                && inputMessage == "" && !isLoading && error == ErrorText(outcome)
      ensures IsSendKey(key, shiftKey) && old(SendBlocked()) ==> request == None && unchanged(this)
    {
      if key == "Enter" && !shiftKey {
        request := SendMessage(outcome, userId, now, aiId);
      } else {
        request := None;
      }
    }

    /** `clearChat`: no messages and no error; the input and the loading flag are kept. */
    method ClearChat()
      modifies this`messages, this`error
      ensures messages == [] && error == None
    {
      messages := [];
      error := None;
    }
  }

  /** Text that starts with a visible character survives `trim`, so it can be sent. */
  lemma VisibleStartIsNotBlank(s: string)
    requires s != [] && !IsJsWhitespace(s[0])
    ensures Trim(s) != []
  {
    TrimEmptyIffBlank(s);
  }

  /**
   * A whole exchange: one question answered, then one that fails, then the
   * chat is cleared. Returns the state before the clear and after it.
   */
  method Conversation() returns (shown: seq<Message>, banner: Option<string>, loading: bool,
                                 cleared: seq<Message>, clearedBanner: Option<string>)
    ensures shown == [Message("1", "hi", true, "t0"), Message("2", "hello", false, "t1"),
                      Message("3", "again", true, "t2")]
    ensures banner == Some(UnknownError) && !loading
    ensures cleared == [] && clearedBanner == None
  {
    var chat := new ChatSession();
    chat.UpdateInput("hi");
    VisibleStartIsNotBlank("hi");
    var sent := chat.SendMessage(Answered("hello", "t1"), "1", "t0", "2");
    chat.UpdateInput("again");
    VisibleStartIsNotBlank("again");
    sent := chat.SendMessage(Rejected(None), "3", "t2", "4");
    shown, banner, loading := chat.messages, chat.error, chat.isLoading;
    chat.ClearChat();
    cleared, clearedBanner := chat.messages, chat.error;
  }
}
