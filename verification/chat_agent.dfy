/**
 * Answer assembly for the documents chat (chat_interface.py): embed the
 * question, retrieve the three closest chunks from the "default"
 * namespace, join their stored texts into a context, and ask the chat
 * model to answer from that context.
 *
 * The embedding service, the vector index and the chat provider are
 * oracles of the request they receive (Providers). `Answer` returns the
 * reply text together with the requests made, in order, so that which
 * services were reached is part of the result.
 */
module ChatAgent {
  import opened Indexing

  const SystemMessage :=
    "You are a helpful HR assistant designed to answer employee questions based on company policies. " +
    "Retrieve relevant information from the provided internal documents and provide a concise, accurate answer. " +
    "If the answer cannot be found in the provided documents, say 'I cannot find the answer in the available resources.'"

  const EmbeddingError := "Error obtaining query embedding."
  const QueryErrorPrefix := "Error querying Pinecone: "
  const NotFound := "I cannot find the answer in the available resources."
  const ChatErrorPrefix := "Error: "
  const ContextSeparator := "\n\nContext: "

  const TopK := 3
  const QueryNamespace := "default"
  const ChatModel := "deepseek-r1-distill-llama-70b"
  const Temperature := 0.2
  const MaxTokens := 512

  datatype QueryRequest = QueryRequest(vector: Embedding, topK: nat, includeMetadata: bool, namespace: string)

  /** A retrieved match; only its metadata is read. */
  datatype Match = Match(metadata: map<string, string>)

  /** The query response; `matches` is None when the response has no "matches" key. */
  datatype QueryResponse = QueryResponse(matches: Option<seq<Match>>)

  /** What `index.query` did: raised with a message, or returned a (possibly empty) response. */
  datatype QueryResult = QueryRaised(message: string) | QueryReturned(response: Option<QueryResponse>)

  datatype Message = Message(role: string, content: string)
  datatype ChatRequest = ChatRequest(messages: seq<Message>, model: string, temperature: real, maxTokens: nat)

  /** What the chat completion did: raised with a message, or returned the first choice's content. */
  datatype ChatResult = ChatRaised(message: string) | ChatReturned(content: string)

  datatype Call = EmbedCall(text: string) | QueryCall(query: QueryRequest) | ChatCall(chat: ChatRequest)

  datatype Providers = Providers(
    embed: string -> Option<Embedding>,
    query: QueryRequest -> QueryResult,
    chat: ChatRequest -> ChatResult)

  /** The answer text and the provider requests made to produce it. */
  datatype Reply = Reply(answer: string, calls: seq<Call>)

  /** Python's `str.isspace` for one character: the characters `str.strip()` removes. */
  predicate IsSpace(c: char)
  {
    c == ' ' || c == '\t' || c == '\n' || c == '\r' ||
    c == '\U{b}' || c == '\U{c}' || ('\U{1c}' <= c <= '\U{1f}') ||
    c == '\U{85}' || c == '\U{a0}' || c == '\U{1680}' ||
    ('\U{2000}' <= c <= '\U{200a}') ||
    c == '\U{2028}' || c == '\U{2029}' || c == '\U{202f}' || c == '\U{205f}' || c == '\U{3000}'
  }

  /** `not s.strip()`: the string holds only whitespace. */
  predicate IsBlank(s: string)
  {
    forall i :: 0 <= i < |s| ==> IsSpace(s[i])
  }

  /** `match["metadata"].get("text", "")` */
  function MatchText(m: Match): (t: string)
    ensures "text" in m.metadata ==> t == m.metadata["text"]
    ensures "text" !in m.metadata ==> t == ""
  {
    if "text" in m.metadata then m.metadata["text"] else ""
  }

  function Texts(matches: seq<Match>): seq<string>
  {
    seq(|matches|, i requires 0 <= i < |matches| => MatchText(matches[i]))
  }

  /** `" ".join(pieces)` */
  function JoinWithSpaces(pieces: seq<string>): (r: string)
    ensures pieces == [] ==> r == ""
    ensures |pieces| == 1 ==> r == pieces[0]
  {
    if |pieces| == 0 then ""
    else if |pieces| == 1 then pieces[0]
    else JoinWithSpaces(pieces[..|pieces| - 1]) + " " + pieces[|pieces| - 1]
  }

  /** Total length of the pieces. */
  function TotalLength(pieces: seq<string>): nat
  {
    if pieces == [] then 0 else TotalLength(pieces[..|pieces| - 1]) + |pieces[|pieces| - 1]|
  }

  /** Where piece i starts in the joined string: after the earlier pieces and one space after each. */
  function Offset(pieces: seq<string>, i: nat): nat
    requires i <= |pieces|
  {
    TotalLength(pieces[..i]) + i
  }

  lemma BlankConcat(a: string, b: string)
    ensures IsBlank(a + b) <==> IsBlank(a) && IsBlank(b)
  {
    if IsBlank(a + b) {
      forall i | 0 <= i < |a| ensures IsSpace(a[i]) {
        assert a[i] == (a + b)[i];
      }
      forall i | 0 <= i < |b| ensures IsSpace(b[i]) {
        assert b[i] == (a + b)[|a| + i];
      }
    }
    if IsBlank(a) && IsBlank(b) {
      forall i | 0 <= i < |a + b| ensures IsSpace((a + b)[i]) {
        if i < |a| {
          assert (a + b)[i] == a[i];
        } else {
          assert (a + b)[i] == b[i - |a|];
        }
      }
    }
  }

  /** The joined context is blank exactly when every piece is blank: spaces alone are added. */
  lemma {:induction false} JoinBlankIff(pieces: seq<string>)
    ensures IsBlank(JoinWithSpaces(pieces)) <==> forall i :: 0 <= i < |pieces| ==> IsBlank(pieces[i])
  {
    if |pieces| > 1 {
      var init := pieces[..|pieces| - 1];
      var last := pieces[|pieces| - 1];
      JoinBlankIff(init);
      BlankConcat(JoinWithSpaces(init), " ");
      BlankConcat(JoinWithSpaces(init) + " ", last);
      assert forall i :: 0 <= i < |init| ==> init[i] == pieces[i];
    }
  }

  /** The join holds the pieces and one space between each two. */
  lemma {:induction false} JoinLength(pieces: seq<string>)
    requires pieces != []
    ensures |JoinWithSpaces(pieces)| == TotalLength(pieces) + |pieces| - 1
  {
    var n := |pieces|;
    assert pieces[..n - 1][..n - 1] == pieces[..n - 1];
    if n > 1 {
      JoinLength(pieces[..n - 1]);
    }
  }

  /**
   * Piece i appears in the join at Offset(pieces, i), right after a
   * single space when it is not the first: the pieces appear in order.
   */
  lemma {:induction false} JoinPiece(pieces: seq<string>, i: nat)
    requires i < |pieces|
    ensures Offset(pieces, i) + |pieces[i]| <= |JoinWithSpaces(pieces)|
    ensures JoinWithSpaces(pieces)[Offset(pieces, i)..Offset(pieces, i) + |pieces[i]|] == pieces[i]
    ensures 0 < i ==> JoinWithSpaces(pieces)[Offset(pieces, i) - 1] == ' '
  {
    var n := |pieces|;
    if n == 1 {
      assert pieces[..0] == [];
    } else if i == n - 1 {
      JoinLastPiece(pieces);
    } else {
      var init := pieces[..n - 1];
      var ji := JoinWithSpaces(init);
      var j := JoinWithSpaces(pieces);
      assert j == ji + " " + pieces[n - 1];
      JoinPiece(init, i);
      assert pieces[..i] == init[..i];
      var o := Offset(init, i);
      assert Offset(pieces, i) == o;
      assert pieces[i] == init[i];
      assert j[o..o + |pieces[i]|] == ji[o..o + |pieces[i]|];
      if 0 < i {
        assert j[o - 1] == ji[o - 1];
      }
    }
  }

  lemma JoinLastPiece(pieces: seq<string>)
    requires |pieces| >= 2
    ensures var n := |pieces|;
            Offset(pieces, n - 1) + |pieces[n - 1]| == |JoinWithSpaces(pieces)| &&
            JoinWithSpaces(pieces)[Offset(pieces, n - 1)..] == pieces[n - 1] &&
            JoinWithSpaces(pieces)[Offset(pieces, n - 1) - 1] == ' '
  {
    var n := |pieces|;
    var init := pieces[..n - 1];
    var ji := JoinWithSpaces(init);
    JoinLength(pieces);
    JoinLength(init);
    assert pieces[..n - 1] == init;
    assert JoinWithSpaces(pieces) == ji + " " + pieces[n - 1];
  }

  /** The retrieval request for a query vector. */
  function QueryFor(vector: Embedding): (q: QueryRequest)
    ensures q.vector == vector && q.topK == 3 && q.includeMetadata && q.namespace == "default"
  {
    QueryRequest(vector, TopK, true, QueryNamespace)
  }

  /** The chat request `groq_chat` sends. */
  function ChatRequestFor(systemMessage: string, query: string, context: string): (c: ChatRequest)
    ensures |c.messages| == 2
    ensures c.messages[0].role == "system" && c.messages[1] == Message("user", query)
    ensures |c.messages[0].content| == |systemMessage| + |ContextSeparator| + |context|
    ensures c.messages[0].content[..|systemMessage|] == systemMessage
    ensures c.messages[0].content[|systemMessage|..|systemMessage| + |ContextSeparator|] == "\n\nContext: "
    ensures c.messages[0].content[|c.messages[0].content| - |context|..] == context
    ensures c.model == ChatModel && c.temperature == 0.2 && c.maxTokens == 512
  {
    var content := systemMessage + ContextSeparator + context;
    assert content[|content| - |context|..] == context;
    assert content[|systemMessage|..|systemMessage| + |ContextSeparator|] == ContextSeparator;
    ChatRequest([Message("system", content), Message("user", query)], ChatModel, Temperature, MaxTokens)
  }

  /** `groq_chat`: one chat request; a provider failure becomes "Error: " and its message. */
  function GroqChat(p: Providers, systemMessage: string, query: string, context: string): (r: Reply)
    ensures r.calls == [ChatCall(ChatRequestFor(systemMessage, query, context))]
    ensures p.chat(ChatRequestFor(systemMessage, query, context)).ChatRaised? ==>
              r.answer == ChatErrorPrefix + p.chat(ChatRequestFor(systemMessage, query, context)).message
    ensures p.chat(ChatRequestFor(systemMessage, query, context)).ChatReturned? ==>
              r.answer == p.chat(ChatRequestFor(systemMessage, query, context)).content
  {
    var request := ChatRequestFor(systemMessage, query, context);
    match p.chat(request)
    case ChatRaised(message) => Reply(ChatErrorPrefix + message, [ChatCall(request)])
    case ChatReturned(content) => Reply(content, [ChatCall(request)])
  }

  /**
   * `chat_agent(query)` with the system prompt as a parameter; the source
   * always passes SystemMessage (see Answer).
   */
  function AnswerWith(p: Providers, systemMessage: string, query: string): (r: Reply)
    ensures 1 <= |r.calls| <= 3 && r.calls[0] == EmbedCall(query)
    ensures p.embed(query).None? ==> r == Reply(EmbeddingError, [EmbedCall(query)])
    ensures p.embed(query).Some? ==> 2 <= |r.calls| && r.calls[1] == QueryCall(QueryFor(p.embed(query).value))
  {
    match p.embed(query)
    case None => Reply(EmbeddingError, [EmbedCall(query)])
    case Some(vector) =>
      var request := QueryFor(vector);
      var retrieval := [EmbedCall(query), QueryCall(request)];
      match p.query(request)
      case QueryRaised(message) => Reply(QueryErrorPrefix + message, retrieval)
      case QueryReturned(response) =>
        if response.None? || response.value.matches.None? || response.value.matches.value == [] then
          Reply(NotFound, retrieval)
        else
          var context := JoinWithSpaces(Texts(response.value.matches.value));
          if IsBlank(context) then Reply(NotFound, retrieval)
          else
            var chat := GroqChat(p, systemMessage, query, context);
            Reply(chat.answer, retrieval + chat.calls)
  }

  /** The matches retrieved for the question, when the embedding and the query succeeded and the response has a "matches" key. */
  function Retrieved(p: Providers, query: string): Option<seq<Match>>
  {
    match p.embed(query)
    case None => None
    case Some(vector) =>
      match p.query(QueryFor(vector))
      case QueryRaised(_) => None
      case QueryReturned(response) =>
        if response.Some? && response.value.matches.Some? then Some(response.value.matches.value) else None
  }

  /** Without retrieved matches the chat model is not consulted. */
  lemma RetrievalFailedNoChat(p: Providers, systemMessage: string, query: string)
    requires Retrieved(p, query).None?
    ensures |AnswerWith(p, systemMessage, query).calls| <= 2
  {
  }

  /** With retrieved matches the answer depends on them only through their joined texts. */
  lemma AnswerFromRetrieved(p: Providers, systemMessage: string, query: string)
    requires Retrieved(p, query).Some?
    ensures var retrieval := [EmbedCall(query), QueryCall(QueryFor(p.embed(query).value))];
            var context := JoinWithSpaces(Texts(Retrieved(p, query).value));
            var chat := GroqChat(p, systemMessage, query, context);
            AnswerWith(p, systemMessage, query) == if IsBlank(context) then Reply(NotFound, retrieval) else Reply(chat.answer, retrieval + chat.calls)
  {
  }

  /**
   * The chat model is consulted exactly when some retrieved match carries
   * a non-blank text; it is then the last request made, and it is sent
   * the question and the joined texts of all matches, in order.
   */
  lemma ChatCalledIff(p: Providers, systemMessage: string, query: string)
    ensures var r := AnswerWith(p, systemMessage, query);
            (|r.calls| == 3 <==>
               Retrieved(p, query).Some? &&
               exists i :: 0 <= i < |Retrieved(p, query).value| && !IsBlank(MatchText(Retrieved(p, query).value[i])))
    ensures var r := AnswerWith(p, systemMessage, query);
            |r.calls| == 3 ==>
              var context := JoinWithSpaces(Texts(Retrieved(p, query).value));
              r.calls[2] == ChatCall(ChatRequestFor(systemMessage, query, context)) &&
              r == Reply(GroqChat(p, systemMessage, query, context).answer, r.calls)
  {
    var ms := Retrieved(p, query);
    if ms.None? {
      RetrievalFailedNoChat(p, systemMessage, query);
    } else {
      AnswerFromRetrieved(p, systemMessage, query);
      var texts := Texts(ms.value);
      JoinBlankIff(texts);
      if exists i :: 0 <= i < |ms.value| && !IsBlank(MatchText(ms.value[i])) {
        var i :| 0 <= i < |ms.value| && !IsBlank(MatchText(ms.value[i]));
        assert !IsBlank(texts[i]);
      } else {
        assert forall i :: 0 <= i < |texts| ==> IsBlank(texts[i]);
      }
    }
  }

  /**
   * Every answer is one of the fixed strings, an error wrapping a
   * provider's message, or the chat model's reply; which one is decided
   * by the first provider that fails or returns nothing usable.
   */
  lemma AnswerCases(p: Providers, systemMessage: string, query: string)
    ensures var r := AnswerWith(p, systemMessage, query);
            match p.embed(query)
            case None => r.answer == EmbeddingError && |r.calls| == 1
            case Some(v) =>
              match p.query(QueryFor(v))
              case QueryRaised(m) => r.answer == QueryErrorPrefix + m && |r.calls| == 2
              case QueryReturned(_) =>
                |r.calls| == 2 ==> r.answer == NotFound
  {
  }

  /** A chat provider that is never reached does not influence the answer. */
  lemma AnswerIgnoresUnusedChat(p: Providers, systemMessage: string, query: string, other: ChatRequest -> ChatResult)
    requires |AnswerWith(p, systemMessage, query).calls| < 3
    ensures AnswerWith(p.(chat := other), systemMessage, query) == AnswerWith(p, systemMessage, query)
  {
  }

  /** No matches, or matches without text, give the not-found answer without consulting the chat model. */
  lemma BlankRetrievalIsNotFound(p: Providers, systemMessage: string, query: string)
    requires Retrieved(p, query).Some?
    requires forall i :: 0 <= i < |Retrieved(p, query).value| ==> IsBlank(MatchText(Retrieved(p, query).value[i]))
    ensures AnswerWith(p, systemMessage, query) == Reply(NotFound, [EmbedCall(query), QueryCall(QueryFor(p.embed(query).value))])
  {
    AnswerFromRetrieved(p, systemMessage, query);
    var texts := Texts(Retrieved(p, query).value);
    JoinBlankIff(texts);
  }

  /**
   * `chat_agent(query)` with the HR assistant prompt: when the chat model
   * is consulted, its system message opens with that prompt.
   */
  function Answer(p: Providers, query: string): (r: Reply)
    ensures 1 <= |r.calls| <= 3 && r.calls[0] == EmbedCall(query)
    ensures |r.calls| == 3 ==>
              r.calls[2].ChatCall? && |r.calls[2].chat.messages| == 2 &&
              SystemMessage <= r.calls[2].chat.messages[0].content
  {
    ChatCalledIff(p, SystemMessage, query);
    AnswerWith(p, SystemMessage, query)
  }
}
