/** The chat page's handlers: session set-up, the conversation kept in the session state, the
    handler for a submitted question, the transcript shown, and the clear button. The page's
    layout calls are not modelled. */
module Frontend {
  import opened Wrappers
  import opened MongoUtils
  import VectorDatabase
  import opened RagPipeline
  import SessionUtils

  datatype Role = User | Assistant

  /** One entry of `st.session_state.conversation`. */
  datatype Message = Message(role: Role, message: string)

  /** How one entry is shown. */
  function DisplayLine(m: Message): string
  {
    (if m.role == User then "**You:** " else "**Assistant:** ") + m.message
  }

  /** The transcript: one line per entry, in conversation order. */
  function Transcript(conversation: seq<Message>): (lines: seq<string>)
    ensures |lines| == |conversation|
    ensures forall i :: 0 <= i < |conversation| ==> lines[i] == DisplayLine(conversation[i])
  {
    if conversation == [] then []
    else Transcript(conversation[..|conversation| - 1]) + [DisplayLine(conversation[|conversation| - 1])]
  }

  /** A turn adds two lines to the transcript: the question, then the answer. */
  lemma {:induction false} TranscriptAfterTurn(conversation: seq<Message>, question: string, answer: string)
    ensures Transcript(conversation + [Message(User, question), Message(Assistant, answer)])
         == Transcript(conversation) + ["**You:** " + question, "**Assistant:** " + answer]
  {
    var c1 := conversation + [Message(User, question)];
    assert (c1 + [Message(Assistant, answer)])[..|c1|] == c1;
    assert c1[..|conversation|] == conversation;
  }

  /** The script's first lines on every run: initialise the identifiers, then read them back.
      Both are always present afterwards, so the page never works with a missing id. */
  method SetUpSession(state: SessionUtils.SessionState, freshUser: string, freshSession: string)
    returns (userId: string, sessionId: string)
    modifies state
    ensures state.entries == SessionUtils.Initialised(old(state.entries), freshUser, freshSession)
    ensures userId == (if SessionUtils.UserIdKey in old(state.entries) then old(state.entries)[SessionUtils.UserIdKey] else freshUser)
    ensures sessionId == (if SessionUtils.SessionIdKey in old(state.entries) then old(state.entries)[SessionUtils.SessionIdKey] else freshSession)
  {
    state.InitUserSession(freshUser, freshSession);
    SessionUtils.InitialisedHasBothIds(old(state.entries), freshUser, freshSession);
    var u, s := state.GetUserAndSession();
    userId, sessionId := u.value, s.value;
  }

  /** The second store of a turn repeats it: the pair's two-turn history right after a
      question shows the same block twice, whatever came before. */
  lemma {:induction false} DoubleStoreRepeatsTurn(rs: seq<Record>, u: string, s: string, query: string,
                                                  answer: string, now: int, later: int)
    requires Chronological(rs) && AllBefore(rs, now) && now < later
    ensures var turn := Record(u, s, query, answer, now);
            HistoryText(rs + [turn] + [Record(u, s, query, answer, later)], u, s, 2)
              == Render(turn) + "\n\n" + Render(turn)
  {
    var a := Record(u, s, query, answer, now);
    var b := Record(u, s, query, answer, later);
    ChronologicalSnoc(rs, a);
    assert AllBefore(rs + [a], later);
    ChronologicalSnoc(rs + [a], b);
    HistoryAfterStore(rs, a, u, s, 2);
    HistoryAfterStore(rs + [a], b, u, s, 2);
    SelectSnoc(rs, a, u, s, true);
  }

  /** With the turn stored once, the pair's two-turn history right after the first question of a
      session is that turn alone. */
  lemma {:induction false} SingleStoreShowsTurnOnce(rs: seq<Record>, u: string, s: string, query: string,
                                                    answer: string, now: int)
    requires Chronological(rs) && AllBefore(rs, now)
    requires forall r :: r in rs ==> !Matches(r, u, s)
    ensures HistoryText(rs + [Record(u, s, query, answer, now)], u, s, 2) == Render(Record(u, s, query, answer, now))
  {
    var turn := Record(u, s, query, answer, now);
    SelectEmptyIffNoTurns(rs, u, s);
    ChronologicalSnoc(rs, turn);
    HistoryAfterStore(rs, turn, u, s, 2);
  }

  /** The page, seen through the part of the session state it owns. */
  class Page {
    /** `st.session_state.conversation`; `None` before the page first sets it. */
    var conversation: Option<seq<Message>>

    constructor ()
      ensures conversation == None
    {
      conversation := None;
    }

    /** Set the conversation to empty the first time the page runs; later runs keep it. */
    method InitConversation()
      modifies this
      ensures conversation == if old(conversation).None? then Some([]) else old(conversation)
    {
      if conversation.None? {
        conversation := Some([]);
      }
    }

    /** The handler for a submitted question, as written: a question is answered by
        `get_rag_response`, which stores the turn; the handler then appends the question and the
        answer to the conversation and stores the same turn again (at the later time `later`).
        A failure is reported and leaves everything as it was. An absent or empty input does
        nothing. */
    method HandleInput(input: Option<string>, userId: string, sessionId: string,
                       store: VectorDatabase.VectorStore, loadOk: bool, log: ChatLog, findOk: bool,
                       search: Search, llm: Llm, now: int, later: int) returns (error: Option<RagError>)
      requires conversation.Some? && log.Valid() && AllBefore(log.records, now) && now < later
      requires log as object != this
      modifies this, log
      ensures log.Valid() && conversation.Some?
      ensures input.None? || input == Some("") ==>
                error == None && conversation == old(conversation) && log.records == old(log.records)
      ensures input.Some? && input.value != "" ==>
                var r := Respond(store.index, loadOk, old(log.records), findOk, input.value, sessionId, userId, search, llm);
                (r.Failure? ==> error == Some(r.error) && conversation == old(conversation) && log.records == old(log.records)) &&
                (r.Success? ==>
                   error == None &&
                   conversation == Some(old(conversation).value + [Message(User, input.value), Message(Assistant, r.value.text)]) &&
                   log.records == old(log.records) + [Record(userId, sessionId, input.value, r.value.text, now)]
                                                   + [Record(userId, sessionId, input.value, r.value.text, later)])
    {
      if input.None? || input.value == "" {
        return None;
      }
      var question := input.value;
      var reply := GetRagResponse(question, sessionId, userId, store, loadOk, log, findOk, search, llm, now);
      if reply.Failure? {
        return Some(reply.error);
      }
      var answer := reply.value.text;
      conversation := Some(conversation.value + [Message(User, question), Message(Assistant, answer)]);
      log.StoreChat(userId, sessionId, question, answer, later);
      error := None;
    }

    /** The handler as evidently intended: the turn is stored once, by `get_rag_response`. */
    method HandleInputStoredOnce(input: Option<string>, userId: string, sessionId: string,
                                 store: VectorDatabase.VectorStore, loadOk: bool, log: ChatLog, findOk: bool,
                                 search: Search, llm: Llm, now: int) returns (error: Option<RagError>)
      requires conversation.Some? && log.Valid() && AllBefore(log.records, now)
      requires log as object != this
      modifies this, log
      ensures log.Valid() && conversation.Some?
      ensures input.None? || input == Some("") ==>
                error == None && conversation == old(conversation) && log.records == old(log.records)
      ensures input.Some? && input.value != "" ==>
                var r := Respond(store.index, loadOk, old(log.records), findOk, input.value, sessionId, userId, search, llm);
                (r.Failure? ==> error == Some(r.error) && conversation == old(conversation) && log.records == old(log.records)) &&
                (r.Success? ==>
                   error == None &&
                   conversation == Some(old(conversation).value + [Message(User, input.value), Message(Assistant, r.value.text)]) &&
                   log.records == old(log.records) + [Record(userId, sessionId, input.value, r.value.text, now)])
    {
      if input.None? || input.value == "" {
        return None;
      }
      var question := input.value;
      var reply := GetRagResponse(question, sessionId, userId, store, loadOk, log, findOk, search, llm, now);
      if reply.Failure? {
        return Some(reply.error);
      }
      var answer := reply.value.text;
      conversation := Some(conversation.value + [Message(User, question), Message(Assistant, answer)]);
      error := None;
    }

    /** The clear button: delete the pair's turns (a failing delete is swallowed) and empty the
        conversation. */
    method HandleClear(userId: string, sessionId: string, log: ChatLog, deleteFails: bool)
      requires log.Valid()
      requires log as object != this
      modifies this, log
      ensures log.Valid()
      ensures conversation == Some([])
      ensures log.records == if deleteFails then old(log.records) else Select(old(log.records), userId, sessionId, false)
    {
      log.ClearChat(userId, sessionId, deleteFails);
      conversation := Some([]);
    }
  }
}
