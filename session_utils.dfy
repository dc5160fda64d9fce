/** Per-browser-session identity: a user id and a session id kept in the session state and
    generated once (`init_user_session`, `get_user_and_session`). */
module SessionUtils {
  import opened Wrappers

  const UserIdKey: string := "user_id"
  const SessionIdKey: string := "session_id"

  /** The state after storing `value` under `key` only when the key is absent. */
  function SetIfAbsent(m: map<string, string>, key: string, value: string): (m': map<string, string>)
    ensures key in m'
    ensures key in m ==> m' == m
    ensures key !in m ==> m'[key] == value && m'.Keys == m.Keys + {key}
    ensures forall k :: k in m && k != key ==> k in m' && m'[k] == m[k]
  {
    if key in m then m else m[key := value]
  }

  /** The session state after `init_user_session`, with `freshUser` and `freshSession` the
      identifiers the generator would hand out. */
  function Initialised(m: map<string, string>, freshUser: string, freshSession: string): (m': map<string, string>)
    ensures UserIdKey in m' && SessionIdKey in m'
    ensures UserIdKey in m ==> m'[UserIdKey] == m[UserIdKey]
    ensures SessionIdKey in m ==> m'[SessionIdKey] == m[SessionIdKey]
  {
    SetIfAbsent(SetIfAbsent(m, UserIdKey, freshUser), SessionIdKey, freshSession)
  }

  /** After initialisation both identifiers are present, and an identifier already present is kept. */
  lemma {:induction false} InitialisedHasBothIds(m: map<string, string>, freshUser: string, freshSession: string)
    ensures var m' := Initialised(m, freshUser, freshSession);
            UserIdKey in m' && SessionIdKey in m' &&
            m'[UserIdKey] == (if UserIdKey in m then m[UserIdKey] else freshUser) &&
            m'[SessionIdKey] == (if SessionIdKey in m then m[SessionIdKey] else freshSession)
  {
    var m1 := SetIfAbsent(m, UserIdKey, freshUser);
    assert UserIdKey != SessionIdKey;
    assert m1[UserIdKey] == (if UserIdKey in m then m[UserIdKey] else freshUser);
  }

  /** Initialisation touches no other entry and adds no key besides the two identifiers. */
  lemma {:induction false} InitialisedKeepsOtherEntries(m: map<string, string>, freshUser: string, freshSession: string)
    ensures var m' := Initialised(m, freshUser, freshSession);
            m'.Keys == m.Keys + {UserIdKey, SessionIdKey} &&
            forall k :: k in m && k != UserIdKey && k != SessionIdKey ==> m'[k] == m[k]
  {
    var m1 := SetIfAbsent(m, UserIdKey, freshUser);
    assert m1.Keys == m.Keys + {UserIdKey};
  }

  /** Re-running the page re-runs initialisation; the second run changes nothing, whatever
      fresh identifiers it would have generated. */
  lemma {:induction false} InitialisedIdempotent(m: map<string, string>, u1: string, s1: string, u2: string, s2: string)
    ensures Initialised(Initialised(m, u1, s1), u2, s2) == Initialised(m, u1, s1)
  {
    var m' := Initialised(m, u1, s1);
    InitialisedHasBothIds(m, u1, s1);
    assert SetIfAbsent(m', UserIdKey, u2) == m';
  }

  /** The session state of one browser session: Streamlit's `st.session_state`, restricted to
      its string entries. */
  class SessionState {
    var entries: map<string, string>

    constructor (entries: map<string, string>)
      ensures this.entries == entries
    {
      this.entries := entries;
    }

    /** `init_user_session`: set each identifier that is not there yet. The two fresh identifiers
        stand for the `uuid4` values and are used only when needed. */
    method InitUserSession(freshUser: string, freshSession: string)
      modifies this
      ensures entries == Initialised(old(entries), freshUser, freshSession)
    {
      if UserIdKey !in entries {
        entries := entries[UserIdKey := freshUser];
      }
      if SessionIdKey !in entries {
        entries := entries[SessionIdKey := freshSession];
      }
    }

    /** `get_user_and_session`: the two identifiers, `None` for one that is absent. */
    method GetUserAndSession() returns (userId: Option<string>, sessionId: Option<string>)
      ensures userId.Some? <==> UserIdKey in entries
      ensures userId.Some? ==> userId.value == entries[UserIdKey]
      ensures sessionId.Some? <==> SessionIdKey in entries
      ensures sessionId.Some? ==> sessionId.value == entries[SessionIdKey]
    {
      userId := if UserIdKey in entries then Some(entries[UserIdKey]) else None;
      sessionId := if SessionIdKey in entries then Some(entries[SessionIdKey]) else None;
    }
  }
}
