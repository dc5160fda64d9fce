/** Query side: load the FAISS index, retrieve documents for the query, fetch the pair's recent
    history, fill the prompt template, call the language model and store the new turn
    (`load_faiss_db`, `get_rag_response`). */
module RagPipeline {
  import opened Wrappers
  import opened Seqs
  import OsPath
  import opened MongoUtils
  import VectorDatabase

  type Document = VectorDatabase.Document

  const FaissDbPath: string := "vectorstore"
  const IndexFile: string := OsPath.Join(FaissDbPath, "index.faiss")
  /** Number of past turns put into the prompt. */
  const HistoryLimit: nat := 5

  /** The query side checks the very file the ingestion side writes. */
  lemma SameIndexFile()
    ensures IndexFile == VectorDatabase.IndexFile == "vectorstore/index.faiss"
  {
  }

  /** The placeholders of the prompt template. */
  datatype Slot = ChatHistory | Context | Question

  /** A piece of a template: literal text, or a placeholder to substitute. */
  datatype Piece = Text(text: string) | Hole(slot: Slot)

  const Opening: string :=
    "\nYou are a helpful assistant in a multi-turn conversation. Use the following chat history and relevant documents to respond to the user's new question.\n\nChat History:  \n"
  const DocumentsHeading: string := "\n\nRelevant Documents:\n"
  const QuestionHeading: string := "\n\nNew Question:\n"
  const Closing: string := "\n\nAnswer:\n"

  /** `PROMPT`, cut at its three placeholders. */
  const Prompt: seq<Piece> :=
    [Text(Opening), Hole(ChatHistory), Text(DocumentsHeading), Hole(Context),
     Text(QuestionHeading), Hole(Question), Text(Closing)]

  /** What one piece contributes once the placeholders have values. */
  function PieceText(piece: Piece, values: Slot -> string): string
  {
    match piece
    case Text(t) => t
    case Hole(slot) => values(slot)
  }

  /** Template substitution: each placeholder replaced by its value, text kept as written. */
  function Fill(template: seq<Piece>, values: Slot -> string): string
  {
    if template == [] then "" else PieceText(template[0], values) + Fill(template[1..], values)
  }

  lemma {:induction false} FillCons(piece: Piece, rest: seq<Piece>, values: Slot -> string)
    ensures Fill([piece] + rest, values) == PieceText(piece, values) + Fill(rest, values)
  {
    assert ([piece] + rest)[1..] == rest;
  }

  /** Filling a template of seven pieces, text and placeholders alternating. */
  lemma {:induction false} FillAlternating(t0: string, s1: Slot, t2: string, s3: Slot, t4: string, s5: Slot,
                                           t6: string, values: Slot -> string)
    ensures Fill([Text(t0), Hole(s1), Text(t2), Hole(s3), Text(t4), Hole(s5), Text(t6)], values)
         == t0 + (values(s1) + (t2 + (values(s3) + (t4 + (values(s5) + t6)))))
  {
    var f6 := [Text(t6)];
    assert Fill(f6, values) == t6 by { FillCons(Text(t6), [], values); assert f6 == [Text(t6)] + []; }
    var f5 := [Hole(s5)] + f6;
    assert Fill(f5, values) == values(s5) + t6 by { FillCons(Hole(s5), f6, values); }
    var f4 := [Text(t4)] + f5;
    assert Fill(f4, values) == t4 + (values(s5) + t6) by { FillCons(Text(t4), f5, values); }
    var f3 := [Hole(s3)] + f4;
    assert Fill(f3, values) == values(s3) + (t4 + (values(s5) + t6)) by { FillCons(Hole(s3), f4, values); }
    var f2 := [Text(t2)] + f3;
    assert Fill(f2, values) == t2 + (values(s3) + (t4 + (values(s5) + t6))) by { FillCons(Text(t2), f3, values); }
    var f1 := [Hole(s1)] + f2;
    assert Fill(f1, values) == values(s1) + (t2 + (values(s3) + (t4 + (values(s5) + t6)))) by { FillCons(Hole(s1), f2, values); }
    var f0 := [Text(t0)] + f1;
    assert Fill(f0, values) == t0 + (values(s1) + (t2 + (values(s3) + (t4 + (values(s5) + t6))))) by { FillCons(Text(t0), f1, values); }
    assert f0 == [Text(t0), Hole(s1), Text(t2), Hole(s3), Text(t4), Hole(s5), Text(t6)];
  }

  /** The prompt sent to the model: the fixed template with the chat history, then the documents,
      then the question in their places. */
  function RenderPrompt(chatHistory: string, context: string, question: string): (p: string)
    ensures p == Opening + (chatHistory + (DocumentsHeading + (context + (QuestionHeading + (question + Closing)))))
  {
    var values := (slot: Slot) => match slot
      case ChatHistory => chatHistory
      case Context => context
      case Question => question;
    FillAlternating(Opening, ChatHistory, DocumentsHeading, Context, QuestionHeading, Question, Closing, values);
    Fill(Prompt, values)
  }

  /** The page contents of the retrieved documents, in retrieval order. */
  function PageContents(docs: seq<Document>): (texts: seq<string>)
    ensures |texts| == |docs|
    ensures forall i :: 0 <= i < |docs| ==> texts[i] == docs[i].pageContent
  {
    if docs == [] then [] else PageContents(docs[..|docs| - 1]) + [docs[|docs| - 1].pageContent]
  }

  /** The context block: the page contents joined by blank lines. */
  function ContextOf(docs: seq<Document>): (context: string)
    ensures docs == [] ==> context == ""
    ensures |docs| == 1 ==> context == docs[0].pageContent
  {
    Join(PageContents(docs), "\n\n")
  }

  /** The context keeps retrieval order: the context of two runs of documents is the first run's
      context, a blank line, then the second's. */
  lemma {:induction false} ContextInRetrievalOrder(first: seq<Document>, second: seq<Document>)
    requires first != [] && second != []
    ensures ContextOf(first + second) == ContextOf(first) + "\n\n" + ContextOf(second)
  {
    assert PageContents(first + second) == PageContents(first) + PageContents(second);
    JoinConcat(PageContents(first), PageContents(second), "\n\n");
  }

  /** Why a query fails: no index on disk yet; an index file that `FAISS.load_local` cannot read
      back; an error raised by the embedding or generation provider, passed on unchanged; or a
      failing history query on the chat store. */
  datatype RagError = IndexMissing(path: string) | IndexUnreadable(path: string) | ProviderError(message: string)
                    | StorageError

  /** What `get_rag_response` returns: the answer text and the retrieved documents. */
  datatype Reply = Reply(text: string, docs: seq<Document>)

  /** Similarity search over the index entries for a query (it embeds the query, which may fail). */
  type Search = (seq<Document>, string) -> Result<seq<Document>, string>
  /** The language model: a prompt in, a completion or a provider error out. */
  type Llm = string -> Result<string, string>

  /** `load_faiss_db`: the missing-index error naming the marker file when it is absent; otherwise
      the saved index, or an error when loading it raises (`loadOk` false). */
  method LoadFaissDb(store: VectorDatabase.VectorStore, loadOk: bool) returns (r: Result<seq<Document>, RagError>)
    ensures store.index.None? <==> r == Failure(IndexMissing(IndexFile))
    ensures store.index.Some? && !loadOk <==> r == Failure(IndexUnreadable(FaissDbPath))
    ensures r.Success? <==> store.index.Some? && loadOk
    ensures r.Success? ==> r.value == store.index.value
  {
    if store.index.None? {
      return Failure(IndexMissing(IndexFile));
    }
    if !loadOk {
      return Failure(IndexUnreadable(FaissDbPath));
    }
    return Success(store.index.value);
  }

  /** The outcome of `get_rag_response` over a given index and chat store: the specification
      the method below is proved against. `loadOk` says whether a present index loads, `findOk`
      whether the history query succeeds. */
  function Respond(index: Option<seq<Document>>, loadOk: bool, records: seq<Record>, findOk: bool,
                   query: string, sessionId: string, userId: string, search: Search, llm: Llm): (r: Result<Reply, RagError>)
    ensures index.None? ==> r == Failure(IndexMissing(IndexFile))
    ensures r.Success? ==> index.Some? && loadOk && findOk && search(index.value, query) == Success(r.value.docs)
  {
    if index.None? then Failure(IndexMissing(IndexFile))
    else if !loadOk then Failure(IndexUnreadable(FaissDbPath))
    else match search(index.value, query)
      case Failure(e) => Failure(ProviderError(e))
      case Success(docs) =>
        if !findOk then Failure(StorageError)
        else
          var prompt := RenderPrompt(HistoryText(records, userId, sessionId, HistoryLimit), ContextOf(docs), query);
          match llm(prompt)
          case Failure(e) => Failure(ProviderError(e))
          case Success(text) => Success(Reply(text, docs))
  }

  /** With no index the query fails with the missing-index error, whatever loading, the store,
      search and the model would have done. */
  lemma {:induction false} MissingIndexFailsFirst(loadOk: bool, records: seq<Record>, findOk: bool, query: string,
                                                  sessionId: string, userId: string, search: Search, llm: Llm)
    ensures Respond(None, loadOk, records, findOk, query, sessionId, userId, search, llm) == Failure(IndexMissing(IndexFile))
  {
  }

  /** Once an index has been saved, a query never fails for want of it; when the index loads and
      the history query works, only the provider can make it fail. */
  lemma {:induction false} SavedIndexIsFound(entries: seq<Document>, loadOk: bool, records: seq<Record>, findOk: bool,
                                             query: string, sessionId: string, userId: string, search: Search, llm: Llm)
    ensures var r := Respond(Some(entries), loadOk, records, findOk, query, sessionId, userId, search, llm);
            (r.Failure? ==> !r.error.IndexMissing?) &&
            (r.Failure? && loadOk && findOk ==> r.error.ProviderError?)
  {
  }

  /** A reply carries the documents search returned and the model's completion of the prompt
      built from this pair's last five turns, those documents and the query. */
  lemma {:induction false} ReplyIsGroundedInItsPrompt(index: Option<seq<Document>>, loadOk: bool, records: seq<Record>,
                                                      findOk: bool, query: string, sessionId: string, userId: string,
                                                      search: Search, llm: Llm)
    requires Respond(index, loadOk, records, findOk, query, sessionId, userId, search, llm).Success?
    ensures var reply := Respond(index, loadOk, records, findOk, query, sessionId, userId, search, llm).value;
            index.Some? && search(index.value, query) == Success(reply.docs) &&
            llm(RenderPrompt(HistoryText(records, userId, sessionId, HistoryLimit), ContextOf(reply.docs), query))
              == Success(reply.text)
  {
  }

  /** The history in the prompt is read before the new turn is stored: none of the turns it shows
      is the one being answered. */
  lemma {:induction false} CurrentTurnNotInOwnHistory(records: seq<Record>, query: string, sessionId: string,
                                                      userId: string, text: string, now: int)
    requires AllBefore(records, now)
    ensures Record(userId, sessionId, query, text, now) !in Cursor(records, userId, sessionId, HistoryLimit)
  {
  }

  /** After a reply the pair's next history ends with the turn just answered. */
  lemma {:induction false} NextHistoryEndsWithTurn(records: seq<Record>, query: string, sessionId: string,
                                                   userId: string, text: string, now: int)
    requires Chronological(records) && AllBefore(records, now)
    ensures var turn := Record(userId, sessionId, query, text, now);
            var next := HistoryText(records + [turn], userId, sessionId, HistoryLimit);
            next == if Select(records, userId, sessionId, true) == [] then Render(turn)
                    else HistoryText(records, userId, sessionId, HistoryLimit - 1) + "\n\n" + Render(turn)
  {
    var turn := Record(userId, sessionId, query, text, now);
    ChronologicalSnoc(records, turn);
    HistoryAfterStore(records, turn, userId, sessionId, HistoryLimit);
  }

  /** `get_rag_response(query, session_id, user_id)`: load the index, search, join the context,
      fetch five turns of history, call the model, store the turn, return the reply. `now` is the
      clock at the insert; `loadOk` and `findOk` say whether loading the index and the history
      query succeed. */
  method GetRagResponse(query: string, sessionId: string, userId: string, store: VectorDatabase.VectorStore,
                        loadOk: bool, log: ChatLog, findOk: bool, search: Search, llm: Llm, now: int)
    returns (r: Result<Reply, RagError>)
    requires log.Valid() && AllBefore(log.records, now)
    modifies log
    ensures log.Valid()
    ensures r == Respond(store.index, loadOk, old(log.records), findOk, query, sessionId, userId, search, llm)
    // the history in the prompt is read from the store as it was before this turn is added
    ensures r.Success? ==>
              llm(RenderPrompt(HistoryText(old(log.records), userId, sessionId, HistoryLimit), ContextOf(r.value.docs), query))
                == Success(r.value.text)
    ensures log.records == old(log.records) + if r.Success? then [Record(userId, sessionId, query, r.value.text, now)] else []
  {
    var faissDb := LoadFaissDb(store, loadOk);
    if faissDb.Failure? {
      return Failure(faissDb.error);
    }
    var found := search(faissDb.value, query);
    if found.Failure? {
      return Failure(ProviderError(found.error));
    }
    var docs := found.value;
    var context := ContextOf(docs);
    if !findOk {
      return Failure(StorageError);
    }
    var chatHistory := log.FetchChatHistory(userId, sessionId, HistoryLimit);
    var response := llm(RenderPrompt(chatHistory, context, query));
    if response.Failure? {
      return Failure(ProviderError(response.error));
    }
    log.StoreChat(userId, sessionId, query, response.value, now);
    return Success(Reply(response.value, docs));
  }
}
