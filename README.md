# Retrieval-augmented chat: a Dafny model of its bookkeeping

The application is a chat page. It answers questions from a FAISS index of a text file, and it
keeps each (user, session) pair's conversation in a MongoDB collection. It can also produce an
HTML snippet that embeds a deployed chatbot in another page. The vector search, the embedding and
generation providers, the text splitter, the database driver and the page toolkit are libraries
or network services. This model treats each of them as a parameter. It verifies the deterministic
code around them:

- `MongoUtils` (`mongo_utils.dfy`): the chat collection as a class over a sequence of records.
  - Storing a turn appends one record.
  - Fetching filters by the pair, sorts newest first, cuts to the limit, turns the result back to
    oldest first and renders `User: …\nAssistant: …` blocks joined by a blank line.
  - Clearing deletes exactly the pair's records and swallows a failing delete.
- `RagPipeline` (`rag_pipeline.dfy`): the query path, in the source's order.
  - A missing `vectorstore/index.faiss` fails first.
  - Then comes the search, then the context (page contents joined by blank lines), then the last
    five turns of history.
  - The prompt template is filled with history, documents and question. Then the model is called,
    and exactly one turn is stored.
- `VectorDatabase` (`vector_database.dfy`): ingestion, with the source file, the loader, the
  splitter and the persisted index.
  - An existing index is extended with the new chunks. Otherwise one is created from the chunks.
  - A missing or undecodable source file, or a failure before or during embedding, returns `False`.
- `Frontend` (`frontend.dfy`): the page's state transitions.
  - Session set-up and conversation initialisation.
  - The question handler: two conversation entries, and the turn stored a second time.
  - The failure and empty-input paths, the transcript lines and the clear button.
- `SessionUtils` (`session_utils.dfy`): per-key set-if-absent initialisation of the user and
  session ids, and reading them back.
- `CodeGeneratorAgent` (`code_generator_agent.dfy`): the embed snippet as fixed prefix + URL +
  fixed suffix, with its inverse.
- Helpers: `Wrappers` (`Option`, `Result`), `Seqs` (reversal and `str.join`), `OsPath`
  (POSIX `os.path.join` for two components).

Nondeterminism enters only through parameters:
- the clock is a supplied `now`, later than every stored timestamp;
- fresh UUIDs are supplied strings;
- the search and the model are functions that may return a provider error;
- `setupOk`, `embedOk`, `loadOk`, `findOk` and `deleteFails` are flags. They say whether each step that can raise succeeds:
  - `setupOk`: building the embedding client and making the index directory;
  - `embedOk`: embedding the chunks;
  - `loadOk`: reading back a saved index;
  - `findOk`: the history query;
  - `deleteFails`: whether the delete fails (true means it fails).

## Model

| member | source | states |
|---|---|---|
| MongoUtils.ChatLog.StoreChat | utils/mongo_utils.py:17-34 | the store gains exactly one record at the end, carrying the given user id, session id, query and response and the time of the insert; earlier records are unchanged, and timestamps keep increasing |
| MongoUtils.Select | utils/mongo_utils.py:50 | a record is selected exactly when both its user id and its session id equal the arguments (or, for the delete, exactly when they do not), in store order, never more than the store holds |
| MongoUtils.SelectSnoc | utils/mongo_utils.py:50 | selecting from a store with one more record adds that record at the end iff it belongs to the pair |
| MongoUtils.ChronologicalSnoc | utils/mongo_utils.py:27-34 | a store with one more record has strictly increasing timestamps iff the old store did and the new record is later than all of it |
| MongoUtils.SelectChronological | utils/mongo_utils.py:50 | a selection from a chronological store is chronological |
| MongoUtils.SelectOfRemaining | utils/mongo_utils.py:70 | after deleting pair (u, s), pair (u, s) has nothing left, and every other pair, including (u, s2) and (u2, s), keeps exactly its records |
| MongoUtils.Insert | utils/mongo_utils.py:51 | inserting into a newest-first list keeps it newest first, is a permutation of the list plus the record, and the new head is the record or the old head |
| MongoUtils.SortNewestFirst | utils/mongo_utils.py:51 | `sort("timestamp", -1)`: the result is newest first and a permutation of its input |
| MongoUtils.SameMembers | utils/mongo_utils.py:51 | a permutation has the same members |
| MongoUtils.InsertOldest | utils/mongo_utils.py:51 | a record older than all of a newest-first list is inserted at its end |
| MongoUtils.SortChronological | utils/mongo_utils.py:51 | sorting a chronological selection newest first is reversing it |
| MongoUtils.Cursor | utils/mongo_utils.py:49-53 | the cursor holds min(limit, matching) records (all of them when the limit is 0, pymongo's "no limit"), each one a stored record of the pair, newest first |
| MongoUtils.CursorIsSortedPrefix | utils/mongo_utils.py:51-52 | the cursor is the first records of the pair's turns sorted newest first |
| MongoUtils.CursorIsMostRecent | utils/mongo_utils.py:51-52 | a matching record left out of the cursor is no newer than any record in it |
| MongoUtils.Matches | utils/mongo_utils.py:50 | a record belongs to the pair exactly when both its user id and its session id are equal to the given ones |
| MongoUtils.Render | utils/mongo_utils.py:55 | a block is `User: `, the query, a newline and `Assistant: `, then the response, with nothing else |
| MongoUtils.HistoryText | utils/mongo_utils.py:49-58 | what `fetch_chat_history` returns: the cursor read back to front, rendered and joined by a blank line (its properties are the History lemmas) |
| MongoUtils.Blocks | utils/mongo_utils.py:54-57 | one block per record, block i being `User: <query>\nAssistant: <response>` of record i |
| MongoUtils.BlocksSnoc | utils/mongo_utils.py:54-57 | rendering one more record adds its block at the end |
| MongoUtils.CursorOldestFirst | utils/mongo_utils.py:51-56 | reversing the cursor gives the last limit matching records in store order, that is oldest first |
| MongoUtils.Latest | utils/mongo_utils.py:52 | the window has min(limit, available) records, or all when the limit is 0 |
| MongoUtils.LatestSnoc | utils/mongo_utils.py:52 | a window of size 1 after a new record is that record; a wider window is the old window one smaller followed by the new record |
| MongoUtils.CursorIsLatest | utils/mongo_utils.py:51-56 | on a chronological store the cursor read back to front is exactly the pair's latest turns, as many as the limit allows (all of them when the limit is 0), in store order |
| MongoUtils.HistoryIsLatestTurns | utils/mongo_utils.py:37-58 | the history text is the last limit turns of the pair, oldest first, rendered and joined by a blank line |
| MongoUtils.SelectEmptyIffNoTurns | utils/mongo_utils.py:50 | nothing is selected for a pair iff no stored record belongs to it |
| MongoUtils.HistoryEmptyIffNoTurns | utils/mongo_utils.py:54-58 | the history is the empty string iff the pair has no stored turn |
| MongoUtils.SelectWholePair | utils/mongo_utils.py:50 | a store holding only the pair's turns is selected whole |
| MongoUtils.TwoBlocks | utils/mongo_utils.py:54-58 | two turns render as the first block, a blank line, the second block |
| MongoUtils.HistoryOrderingExample | utils/mongo_utils.py:51-56 | for turns T1, T2, T3 in time order and limit 2, the history is T2's block then T3's |
| MongoUtils.HistoryAfterStore | utils/mongo_utils.py:17-58 | after storing a turn of the pair, the history ends with that turn's block, preceded by the previous history one turn shorter, or is that block alone for the pair's first turn |
| MongoUtils.HistoryIgnoresOtherPairs | utils/mongo_utils.py:50 | storing a turn of another pair leaves this pair's history unchanged |
| MongoUtils.HistoryAfterClear | utils/mongo_utils.py:61-72 | after a clear the cleared pair's history is empty and every other pair's history is unchanged |
| MongoUtils.BlocksBackToFront | utils/mongo_utils.py:54-57 | rendering a list walked from its end gives the blocks of its reversal |
| MongoUtils.ChatLog.FetchChatHistory | utils/mongo_utils.py:37-58 | the text returned is the history of the pair for that limit (the default limit is 5), and the store is not modified |
| MongoUtils.ChatLog.ClearChat | utils/mongo_utils.py:61-72 | exactly the pair's records are removed and the rest keep their order; a failing delete leaves the store as it was and does not reach the caller |
| Seqs.Join | utils/mongo_utils.py:58 | `sep.join`: no parts give the empty string, one part gives that part (with JoinSnoc, JoinConcat and the prefix and suffix lemmas below) |
| Seqs.Reverse | utils/mongo_utils.py:56 | `reversed`: same length, element i is element n-1-i of the input |
| Seqs.ReverseOfTake | utils/mongo_utils.py:51-56 | reversing the first n of a reversed sequence gives the sequence's last n elements |
| Seqs.JoinStartsWithFirst | utils/mongo_utils.py:58 | a join starts with its first part |
| Seqs.JoinEndsWithLast | utils/mongo_utils.py:58 | a join ends with its last part |
| Seqs.JoinSnoc | utils/mongo_utils.py:58 | joining one more part appends the separator and the part, or gives the part alone |
| Seqs.JoinConcat | rag_pipeline.py:69 | joining two non-empty runs of parts is joining each and putting the separator between them |
| OsPath.Join | vector_database.py:14-16 | `os.path.join` ends with its second component and, for a relative one, starts with the first |
| VectorDatabase.CreateChunks | vector_database.py:30-32 | the chunks are the splitter's output with chunk size 1000 and overlap 200 |
| VectorDatabase.Extended | vector_database.py:58-73 | the saved index is the old entries, unchanged and in order, followed by exactly the new chunks; with no old index, the chunks alone |
| VectorDatabase.PathConstants | vector_database.py:13-16 | the default source is `txt/.txt` and the index marker is `vectorstore/index.faiss` |
| VectorDatabase.LoadTxt | vector_database.py:21-26 | a missing file gives no documents; an undecodable file raises; any other file gives exactly one document of its content |
| VectorDatabase.SourcePath | vector_database.py:44 | no path or the empty path falls back to the default source; any other path is used as given |
| VectorDatabase.ExtendedCounts | vector_database.py:58-73 | every entry of the old index survives: each document occurs in the saved index as often as before plus as often among the new chunks |
| VectorDatabase.IngestTwiceDuplicates | vector_database.py:65 | ingesting the same chunks twice stores them twice |
| VectorDatabase.BuildOrUpdateVectorDb | vector_database.py:41-80 | a missing source file (the loader returns no documents), an undecodable one, or a failure building the embedding client or making the directory returns False with nothing touched; otherwise the directory exists, the index becomes the old entries followed by the chunks (or the chunks alone when there was none), and True is returned only when the index was saved |
| RagPipeline.SameIndexFile | rag_pipeline.py:39 | the query side checks the same `vectorstore/index.faiss` the ingestion side writes |
| RagPipeline.Fill | rag_pipeline.py:19-33 | template substitution: each placeholder replaced by its value, text kept as written (its layout is stated by FillAlternating and RenderPrompt) |
| RagPipeline.FillAlternating | rag_pipeline.py:19-33 | filling a template of alternating text and placeholders concatenates the texts with the values in order |
| RagPipeline.RenderPrompt | rag_pipeline.py:19-33 | the prompt is the fixed instructions, the chat history, the documents heading, the context, the question heading, the question and the answer cue, in that order |
| RagPipeline.PageContents | rag_pipeline.py:69 | one text per retrieved document, its page content, in retrieval order |
| RagPipeline.ContextOf | rag_pipeline.py:69 | the context of no documents is empty, and that of one document is its page content |
| RagPipeline.ContextInRetrievalOrder | rag_pipeline.py:68-69 | the context keeps retrieval order: two runs of documents give the first's context, a blank line, the second's |
| RagPipeline.LoadFaissDb | rag_pipeline.py:37-49 | with no index file the result is the missing-index error naming `vectorstore/index.faiss`; a present index that fails to load gives the unreadable-index error; otherwise the saved index |
| RagPipeline.Respond | rag_pipeline.py:52-85 | the outcome of a query: with no index, the missing-index error; a reply only when the index loads and the history query works, carrying exactly the documents the search returned |
| RagPipeline.MissingIndexFailsFirst | rag_pipeline.py:39-65 | with no index the query fails with the missing-index error, whatever loading, the history query, search and the model would do |
| RagPipeline.SavedIndexIsFound | rag_pipeline.py:45-80 | with an index present a query never fails with the missing-index error; when the index loads and the history query works, it can fail only with a provider error |
| RagPipeline.ReplyIsGroundedInItsPrompt | rag_pipeline.py:68-85 | a reply's documents are those the search returned, used for the context, and its text is the model's answer to the prompt built from the pair's five-turn history, that context and the query |
| RagPipeline.CurrentTurnNotInOwnHistory | rag_pipeline.py:73-83 | given a clock later than every stored turn, the record for the turn being answered is not in the cursor its history is built from; that the history is read before the store is stated by GetRagResponse |
| RagPipeline.NextHistoryEndsWithTurn | rag_pipeline.py:73-83 | after a reply, the pair's next history ends with the turn just answered |
| RagPipeline.GetRagResponse | rag_pipeline.py:52-85 | the result is the specification `Respond`; the answer is the model's reply to the prompt built from the history of the store as it was before the call; on success exactly one record (user, session, query, answer) is appended, and on any failure the store is unchanged |
| Frontend.DisplayLine | frontend.py:43-47 | a user entry is shown after `**You:** `, any other after `**Assistant:** ` |
| Frontend.Transcript | frontend.py:43-47 | one line per conversation entry, in conversation order |
| Frontend.TranscriptAfterTurn | frontend.py:33-47 | a turn adds the question line and then the answer line to the transcript |
| Frontend.SetUpSession | frontend.py:12-13 | after set-up both ids are known: the stored ones, or the fresh ones for those that were missing |
| Frontend.Page.InitConversation | frontend.py:20-21 | the conversation is set to empty only when absent; an existing one is kept |
| Frontend.Page.HandleInput | frontend.py:26-40 | an absent or empty input changes nothing; a failure changes nothing and is reported; a success appends the question and then the answer to the conversation and leaves the turn stored twice |
| Frontend.DoubleStoreRepeatsTurn | frontend.py:37 | after a question handled as written, the pair's two-turn history is the same block twice |
| Frontend.Page.HandleInputStoredOnce | frontend.py:26-40 | the handler with the turn stored once: the same conversation change and exactly one new record |
| Frontend.SingleStoreShowsTurnOnce | frontend.py:37 | with the turn stored once, the first question's two-turn history is that turn alone |
| Frontend.Page.HandleClear | frontend.py:50-52 | the pair's records are deleted (a failing delete is swallowed) and the conversation becomes empty |
| SessionUtils.Initialised | utils/session_utils.py:4-8 | after initialisation both ids are present, and an id already present keeps its value |
| SessionUtils.SetIfAbsent | utils/session_utils.py:5-8 | the key is present afterwards; an existing value is kept; other keys are untouched |
| SessionUtils.InitialisedHasBothIds | utils/session_utils.py:4-8 | both ids are present afterwards, each one the existing value if there was one and the fresh one otherwise, independently of the other |
| SessionUtils.InitialisedKeepsOtherEntries | utils/session_utils.py:4-8 | initialisation adds only the two id keys and changes no other entry |
| SessionUtils.InitialisedIdempotent | utils/session_utils.py:4-8 | a second initialisation changes nothing, whatever fresh ids it would have used |
| SessionUtils.SessionState.InitUserSession | utils/session_utils.py:4-8 | the session state becomes its initialised form |
| SessionUtils.SessionState.GetUserAndSession | utils/session_utils.py:10-11 | each id is returned when present and None when absent; the state is not modified |
| CodeGeneratorAgent.GenerateEmbedCode | agents/code_generator_agent.py:1-18 | the snippet is the fixed prefix, the URL, then the fixed suffix, so its length is theirs summed |
| CodeGeneratorAgent.Between | agents/code_generator_agent.py:1-18 | whatever is found between a beginning and an end rebuilds the text when put back between them |
| CodeGeneratorAgent.BetweenOfWrapped | agents/code_generator_agent.py:1-18 | the text between a beginning and an end that wrap it is recovered |
| CodeGeneratorAgent.ExtractGenerated | agents/code_generator_agent.py:1-18 | stripping the prefix and suffix from a snippet recovers its URL |
| CodeGeneratorAgent.GeneratedFromExtract | agents/code_generator_agent.py:1-18 | any text the inverse accepts is the snippet of the URL it reads back |
| CodeGeneratorAgent.GenerateInjective | agents/code_generator_agent.py:1-18 | distinct URLs give distinct snippets |
| CodeGeneratorAgent.UrlIsFrameSource | agents/code_generator_agent.py:2-18 | the URL is inserted verbatim as the `src` of the chatbot frame, between `src="` and the closing quote, with the header, styles, button and script unchanged around it |

## Left out

- FAISS similarity search is a parameter: ranking, the number of documents returned and the float vectors are not modelled.
- Cohere embeddings and the chat model are parameters. Their output, their nondeterminism (temperature 0.3) and the message wrapping done by the prompt template object are not modelled. A failing call is a provider error.
- The text splitter is a parameter given the chunk size 1000 and the overlap 200. Its internals, and any overlap property, are not modelled.
- `TextLoader` is reduced to one document holding the whole file. A file that is not UTF-8 makes it fail. Metadata other than the source path is not kept.
- VectorDatabase.BuildOrUpdateVectorDb: a failure while loading the saved index or while writing it, after the directory is made, is not distinguished from an embedding failure (`embedOk`). The page messages are not modelled.
- MongoUtils.Cursor: negative limits are not modelled; the limit is a natural number, 0 meaning no limit as in pymongo.
- MongoUtils.ChatLog.StoreChat: a failing insert is not modelled. In the source it raises to the caller, including at the end of a query that the model has already answered.
- MongoUtils.ChatLog.FetchChatHistory: a failing history query is not modelled in the method itself. On the query path it is `RagPipeline.Respond`'s storage error (`findOk`).
- MongoUtils.ChatLog.ClearChat: a delete that fails part-way is modelled as deleting nothing.
- MongoUtils.ChatLog.StoreChat: the clock is supplied and must be later than every stored timestamp. Equal `utcnow()` values, whose sort order is unspecified, are not modelled.
- The page layout, the spinner, the success and error messages and `st.rerun` are not modelled; a failure is returned as a value.
- UUID generation: fresh ids are supplied as parameters.
- Concurrent sessions writing the same collection are not modelled.
- The doubled braces of the embed template are written as single braces in the model's constants. That they come out single is not stated as a lemma.
- utils/render_utils.py, utils/github_utils.py, agents/deployment_agent.py, utils/__pycache__/deploy_render.py and utils/load_env.py are browser automation, GitHub and git calls, deployment glue and environment reading. They are not part of this model.

## Findings

| source | as written | input that shows it | evidently intended | confidence | as-written member | corrected member |
|---|---|---|---|---|---|---|
| frontend.py:37 | the page stores the turn again after `get_rag_response` has already stored it (rag_pipeline.py:83), so each answered question leaves two identical records for the pair | a first question "q" answered "a" in a new session: the next two-turn history is the block for (q, a) twice, and the five-turn window used for the next prompt holds at most three distinct turns | each turn stored once, by `get_rag_response` | not executed | Frontend.Page.HandleInput, Frontend.DoubleStoreRepeatsTurn | Frontend.Page.HandleInputStoredOnce, Frontend.SingleStoreShowsTurnOnce |
