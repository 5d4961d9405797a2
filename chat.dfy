/** The chat-completion step both front ends share: the user prompt that carries
    the retrieved context, and the conversion of a failed call into a reply. */
module Chat {
  import opened Strings

  /** What the chat-completion call yields: the first choice's message content,
      or the message of the exception it raised. */
  datatype Completion = Answered(content: string) | Raised(message: string)

  /** The chat-completion call as a function of the system prompt and the user message;
      the model, the network and the sampling settings are outside the model. */
  type ChatModel = (string, string) -> Completion

  const ContextHeader: string := "CONTEXT:\n"
  const QuestionHeader: string := "\n\nQUESTION:\n"

  /** `f"CONTEXT:\n{context}\n\nQUESTION:\n{query}"` */
  function UserMessage(context: string, query: string): string
  {
    ContextHeader + context + QuestionHeader + query
  }

  /** The message is the two headers around the context, then the query: the context
      sits at offset 9, the question header right after it, the query at the end. */
  lemma UserMessageLayout(context: string, query: string)
    ensures var msg := UserMessage(context, query);
            && |msg| == |context| + |query| + 21
            && msg[..9] == "CONTEXT:\n"
            && msg[9..9 + |context|] == context
            && msg[9 + |context|..|msg| - |query|] == "\n\nQUESTION:\n"
            && msg[|msg| - |query|..] == query
  {
    var msg := UserMessage(context, query);
    assert msg == "CONTEXT:\n" + (context + ("\n\nQUESTION:\n" + query));
    assert msg[9..] == context + ("\n\nQUESTION:\n" + query);
    assert msg[9..][..|context|] == context;
    assert msg[9 + |context|..] == "\n\nQUESTION:\n" + query;
  }

  /** Given the length of the query, the context and the query can be read back. */
  lemma UserMessageInjective(c1: string, q1: string, c2: string, q2: string)
    requires UserMessage(c1, q1) == UserMessage(c2, q2) && |q1| == |q2|
    ensures c1 == c2 && q1 == q2
  {
    UserMessageLayout(c1, q1);
    UserMessageLayout(c2, q2);
  }

  /** Without that length the format is ambiguous: a context that itself contains the
      question header reads the same as a shorter context with a longer query. */
  lemma UserMessageAmbiguous()
    ensures UserMessage("a\n\nQUESTION:\nb", "c") == UserMessage("a", "b\n\nQUESTION:\nc")
    ensures "a\n\nQUESTION:\nb" != "a"
  {
    assert UserMessage("a\n\nQUESTION:\nb", "c") == "CONTEXT:\na\n\nQUESTION:\nb\n\nQUESTION:\nc";
    assert UserMessage("a", "b\n\nQUESTION:\nc") == "CONTEXT:\na\n\nQUESTION:\nb\n\nQUESTION:\nc";
  }

  /** The text a front end returns: the answer as is, or the error prefix and the message. */
  function Reply(errorPrefix: string, c: Completion): string
  {
    match c
    case Answered(t) => t
    case Raised(m) => errorPrefix + m
  }

  /** A failed call never escapes: its reply starts with the error prefix and ends
      with the exception's message, while an answer is passed on untouched. */
  lemma ReplyOfFailure(errorPrefix: string, c: Completion)
    ensures c.Raised? ==> StartsWith(Reply(errorPrefix, c), errorPrefix)
                          && Reply(errorPrefix, c)[|errorPrefix|..] == c.message
    ensures c.Answered? ==> Reply(errorPrefix, c) == c.content
  {
    if c.Raised? {
      assert (errorPrefix + c.message)[..|errorPrefix|] == errorPrefix;
    }
  }
}
