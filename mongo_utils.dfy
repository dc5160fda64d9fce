/** The chat-history store: the MongoDB collection `chat_db.chat_history` and the three
    operations on it, `store_chat`, `fetch_chat_history` and `clear_chat`. */
module MongoUtils {
  import opened Seqs

  /** One document of the collection. `timestamp` is the application's clock (`utcnow()`) at insert time. */
  datatype Record = Record(userId: string, sessionId: string, query: string, response: string, timestamp: int)

  /** The query filter `{"user_id": u, "session_id": s}`. */
  predicate Matches(r: Record, u: string, s: string)
  {
    r.userId == u && r.sessionId == s
  }

  /** The clock moves forward between inserts: timestamps strictly increase in insertion order. */
  ghost predicate Chronological(rs: seq<Record>)
  {
    forall i, j :: 0 <= i < j < |rs| ==> rs[i].timestamp < rs[j].timestamp
  }

  /** Every stored record is older than `now`. */
  ghost predicate AllBefore(rs: seq<Record>, now: int)
  {
    forall i :: 0 <= i < |rs| ==> rs[i].timestamp < now
  }

  /** The records whose (user, session) pair equals (u, s) exactly when `keep` holds, in
      insertion order: with `keep` the documents `find` matches, without it those that
      `delete_many` leaves behind. */
  function Select(rs: seq<Record>, u: string, s: string, keep: bool): (m: seq<Record>)
    ensures forall r :: r in m <==> r in rs && Matches(r, u, s) == keep
    ensures |m| <= |rs|
  {
    if rs == [] then []
    else
      var last := rs[|rs| - 1];
      assert rs == rs[..|rs| - 1] + [last];
      Select(rs[..|rs| - 1], u, s, keep) + (if Matches(last, u, s) == keep then [last] else [])
  }

  /** Selecting from a store with one more record at the end. */
  lemma {:induction false} SelectSnoc(rs: seq<Record>, r: Record, u: string, s: string, keep: bool)
    ensures Select(rs + [r], u, s, keep) == Select(rs, u, s, keep) + (if Matches(r, u, s) == keep then [r] else [])
  {
    assert (rs + [r])[..|rs|] == rs;
  }

  /** A store with one more record is chronological exactly when the store was and the new
      record is newer than all of it. */
  lemma {:induction false} ChronologicalSnoc(rs: seq<Record>, r: Record)
    ensures Chronological(rs + [r]) <==> Chronological(rs) && AllBefore(rs, r.timestamp)
  {
    var rs' := rs + [r];
    if Chronological(rs') {
      forall i, j | 0 <= i < j < |rs|
        ensures rs[i].timestamp < rs[j].timestamp
      {
        assert rs[i] == rs'[i] && rs[j] == rs'[j];
      }
      forall i | 0 <= i < |rs|
        ensures rs[i].timestamp < r.timestamp
      {
        assert rs[i] == rs'[i] && r == rs'[|rs|];
      }
    }
  }

  /** Selecting keeps the chronological order of the store. */
  lemma {:induction false} SelectChronological(rs: seq<Record>, u: string, s: string, keep: bool)
    requires Chronological(rs)
    ensures Chronological(Select(rs, u, s, keep))
  {
    if rs != [] {
      var init := rs[..|rs| - 1];
      var last := rs[|rs| - 1];
      SelectChronological(init, u, s, keep);
      var m := Select(init, u, s, keep);
      forall i | 0 <= i < |m|
        ensures m[i].timestamp < last.timestamp
      {
        assert m[i] in init;
        var k :| 0 <= k < |init| && init[k] == m[i];
        assert rs[k] == m[i];
      }
    }
  }

  /** Selecting twice: a second selection for another pair sees exactly what it would have
      seen in the whole store, and a second selection for the same pair sees nothing. */
  lemma {:induction false} SelectOfRemaining(rs: seq<Record>, u: string, s: string, u2: string, s2: string)
    ensures Select(Select(rs, u, s, false), u2, s2, true)
         == if u2 == u && s2 == s then [] else Select(rs, u2, s2, true)
  {
    if rs != [] {
      var init := rs[..|rs| - 1];
      var last := rs[|rs| - 1];
      SelectOfRemaining(init, u, s, u2, s2);
      var rest := Select(init, u, s, false);
      if Matches(last, u, s) {
        assert Select(rs, u, s, false) == rest;
        assert !(u2 == u && s2 == s) ==> !Matches(last, u2, s2);
      } else {
        assert Select(rs, u, s, false) == rest + [last];
        assert (rest + [last])[..|rest|] == rest;
      }
    }
  }

  /** Newest-first order: timestamps never increase along the sequence. */
  ghost predicate NewestFirst(s: seq<Record>)
  {
    forall i, j :: 0 <= i < j < |s| ==> s[i].timestamp >= s[j].timestamp
  }

  /** Inserts `r` into a newest-first sequence ahead of the first record not newer than it. */
  function Insert(r: Record, s: seq<Record>): (t: seq<Record>)
    requires NewestFirst(s)
    ensures NewestFirst(t)
    ensures |t| == |s| + 1 && multiset(t) == multiset(s) + multiset{r}
    ensures t[0] == r || (s != [] && t[0] == s[0])
  {
    if s == [] || s[0].timestamp <= r.timestamp then
      ConsNewestFirst(r, s);
      [r] + s
    else
      var rest := s[1..];
      assert s == [s[0]] + rest;
      assert NewestFirst(rest) by { NewestFirstTail(s); }
      var t := Insert(r, rest);
      ConsNewestFirst(s[0], t);
      [s[0]] + t
  }

  /** Putting a record no older than the head in front keeps newest-first order. */
  lemma {:induction false} ConsNewestFirst(x: Record, t: seq<Record>)
    requires NewestFirst(t)
    requires t != [] ==> x.timestamp >= t[0].timestamp
    ensures NewestFirst([x] + t)
  {
    var xt := [x] + t;
    forall i, j | 0 <= i < j < |xt|
      ensures xt[i].timestamp >= xt[j].timestamp
    {
      if i == 0 {
        assert xt[j] == t[j - 1];
      } else {
        assert xt[i] == t[i - 1] && xt[j] == t[j - 1];
      }
    }
  }

  /** The tail of a newest-first sequence is newest first. */
  lemma {:induction false} NewestFirstTail(s: seq<Record>)
    requires s != [] && NewestFirst(s)
    ensures NewestFirst(s[1..])
  {
    var rest := s[1..];
    forall i, j | 0 <= i < j < |rest|
      ensures rest[i].timestamp >= rest[j].timestamp
    {
      assert rest[i] == s[i + 1] && rest[j] == s[j + 1];
    }
  }

  /** `.sort("timestamp", -1)`: the same records, newest first. */
  function SortNewestFirst(m: seq<Record>): (s: seq<Record>)
    ensures NewestFirst(s)
    ensures |s| == |m| && multiset(s) == multiset(m)
  {
    if m == [] then []
    else
      assert m == [m[0]] + m[1..];
      Insert(m[0], SortNewestFirst(m[1..]))
  }

  /** Two sequences with the same multiset hold the same elements. */
  lemma {:induction false} SameMembers(a: seq<Record>, b: seq<Record>)
    requires multiset(a) == multiset(b)
    ensures forall x :: x in a <==> x in b
  {
    forall x
      ensures x in a <==> x in b
    {
      assert x in a <==> x in multiset(a);
      assert x in b <==> x in multiset(b);
    }
  }

  /** A record older than everything in a newest-first sequence goes to its end. */
  lemma {:induction false} InsertOldest(r: Record, s: seq<Record>)
    requires NewestFirst(s)
    requires forall i :: 0 <= i < |s| ==> r.timestamp < s[i].timestamp
    ensures Insert(r, s) == s + [r]
  {
    if s != [] {
      InsertOldest(r, s[1..]);
    }
  }

  /** On a chronological store, sorting newest-first is reversing. */
  lemma {:induction false} SortChronological(m: seq<Record>)
    requires Chronological(m)
    ensures SortNewestFirst(m) == Reverse(m)
  {
    if m != [] {
      SortChronological(m[1..]);
      InsertOldest(m[0], Reverse(m[1..]));
    }
  }

  /** The cursor `find(filter).sort("timestamp", -1).limit(limit)`; pymongo reads a limit of
      0 as "no limit". */
  function Cursor(rs: seq<Record>, u: string, s: string, limit: nat): (c: seq<Record>)
    ensures var n := |Select(rs, u, s, true)|;
            |c| == if limit == 0 || n <= limit then n else limit
    ensures forall i :: 0 <= i < |c| ==> c[i] in rs && Matches(c[i], u, s)
    ensures NewestFirst(c)
  {
    var sorted := SortNewestFirst(Select(rs, u, s, true));
    SameMembers(sorted, Select(rs, u, s, true));
    if limit == 0 || |sorted| <= limit then sorted else sorted[..limit]
  }

  /** The cursor holds the most recent matching records: every matching record it leaves
      out is no newer than any record it returns. */
  lemma {:induction false} CursorIsMostRecent(rs: seq<Record>, u: string, s: string, limit: nat, j: nat, i: nat)
    requires j < |rs| && Matches(rs[j], u, s) && rs[j] !in Cursor(rs, u, s, limit)
    requires i < |Cursor(rs, u, s, limit)|
    ensures rs[j].timestamp <= Cursor(rs, u, s, limit)[i].timestamp
  {
    var sorted := SortNewestFirst(Select(rs, u, s, true));
    SameMembers(sorted, Select(rs, u, s, true));
    var k :| 0 <= k < |sorted| && sorted[k] == rs[j];
    assert Cursor(rs, u, s, limit)[i] == sorted[i];
  }

  /** The history block of one record. */
  function Render(r: Record): (block: string)
    ensures |block| == 6 + |r.query| + 12 + |r.response|
    ensures block[..6] == "User: " && block[6..6 + |r.query|] == r.query
    ensures block[6 + |r.query|..18 + |r.query|] == "\nAssistant: " && block[18 + |r.query|..] == r.response
  {
    "User: " + r.query + "\nAssistant: " + r.response
  }

  /** The blocks of a list of records, in the same order. */
  function Blocks(rs: seq<Record>): (bs: seq<string>)
    ensures |bs| == |rs|
    ensures forall i :: 0 <= i < |rs| ==> bs[i] == Render(rs[i])
  {
    if rs == [] then [] else Blocks(rs[..|rs| - 1]) + [Render(rs[|rs| - 1])]
  }

  /** Blank line between history blocks. */
  const BlockSeparator: string := "\n\n"

  /** Rendering one more record adds its block at the end. */
  lemma {:induction false} BlocksSnoc(rs: seq<Record>, r: Record)
    ensures Blocks(rs + [r]) == Blocks(rs) + [Render(r)]
  {
    assert (rs + [r])[..|rs|] == rs;
  }

  /** Blocks built by walking a list from its end are the blocks of its reversal. */
  lemma {:induction false} BlocksBackToFront(c: seq<Record>, blocks: seq<string>)
    requires |blocks| == |c|
    requires forall k :: 0 <= k < |c| ==> blocks[k] == Render(c[|c| - 1 - k])
    ensures blocks == Blocks(Reverse(c))
  {
    var r := Reverse(c);
    var b := Blocks(r);
    forall k | 0 <= k < |c|
      ensures b[k] == blocks[k]
    {
      assert b[k] == Render(r[k]);
    }
  }

  /** What `fetch_chat_history` returns: the cursor read back oldest-first, each record rendered,
      the blocks joined by blank lines. */
  function HistoryText(rs: seq<Record>, u: string, s: string, limit: nat): string
  {
    Join(Blocks(Reverse(Cursor(rs, u, s, limit))), BlockSeparator)
  }

  /** The cursor is a prefix of the pair's records sorted newest first. */
  lemma {:induction false} CursorIsSortedPrefix(rs: seq<Record>, u: string, s: string, limit: nat)
    ensures var sorted := SortNewestFirst(Select(rs, u, s, true));
            var c := Cursor(rs, u, s, limit);
            |c| <= |sorted| && c == sorted[..|c|]
  {
    var sorted := SortNewestFirst(Select(rs, u, s, true));
    if limit == 0 || |sorted| <= limit {
      assert sorted[..|sorted|] == sorted;
    }
  }

  /** On a chronological store, the cursor read back to front is the last `|cursor|` records
      of the pair in insertion order. */
  lemma {:induction false} CursorOldestFirst(rs: seq<Record>, u: string, s: string, limit: nat)
    requires Chronological(rs)
    ensures var m := Select(rs, u, s, true);
            var c := Cursor(rs, u, s, limit);
            |c| <= |m| && Reverse(c) == m[|m| - |c|..]
  {
    var m := Select(rs, u, s, true);
    SelectChronological(rs, u, s, true);
    SortChronological(m);
    CursorIsSortedPrefix(rs, u, s, limit);
    ReverseOfTake(m, |Cursor(rs, u, s, limit)|);
  }

  /** The last `limit` records of `m` (all of them when the limit is 0 or not reached). */
  function Latest(m: seq<Record>, limit: nat): (w: seq<Record>)
    ensures |w| == if limit == 0 || |m| <= limit then |m| else limit
  {
    if limit == 0 || |m| <= limit then m else m[|m| - limit..]
  }

  /** One more record at the end of `m`: it ends the window, and the rest of the window is the
      window one smaller over `m`. */
  lemma {:induction false} LatestSnoc(m: seq<Record>, r: Record, limit: nat)
    requires limit != 1
    ensures Latest(m + [r], 1) == [r]
    ensures Latest(m + [r], limit) == Latest(m, if limit == 0 then 0 else limit - 1) + [r]
  {
    assert (m + [r])[|m|..] == [r];
    if limit != 0 && |m| + 1 > limit {
      SuffixSnoc(m, r, |m| + 1 - limit);
    }
  }

  /** On a chronological store the cursor read back to front is the pair's latest turns,
      as many as the limit allows, in the order they were stored. */
  lemma {:induction false} CursorIsLatest(rs: seq<Record>, u: string, s: string, limit: nat)
    requires Chronological(rs)
    ensures Reverse(Cursor(rs, u, s, limit)) == Latest(Select(rs, u, s, true), limit)
  {
    var m := Select(rs, u, s, true);
    var c := Cursor(rs, u, s, limit);
    CursorOldestFirst(rs, u, s, limit);
    if limit == 0 || |m| <= limit {
      assert m[|m| - |c|..] == m;
    }
  }

  /** On a chronological store the history shows the last turns of the pair, as many as the
      limit allows, in the order they were stored. */
  lemma {:induction false} HistoryIsLatestTurns(rs: seq<Record>, u: string, s: string, limit: nat)
    requires Chronological(rs)
    ensures HistoryText(rs, u, s, limit) == Join(Blocks(Latest(Select(rs, u, s, true), limit)), BlockSeparator)
  {
    CursorIsLatest(rs, u, s, limit);
  }

  /** The pair has no selected turn exactly when no record of the store belongs to it. */
  lemma {:induction false} SelectEmptyIffNoTurns(rs: seq<Record>, u: string, s: string)
    ensures Select(rs, u, s, true) == [] <==> forall r :: r in rs ==> !Matches(r, u, s)
  {
    var m := Select(rs, u, s, true);
    if m != [] {
      assert m[0] in m;
    }
  }

  /** The history is empty exactly when the pair has no stored turn. */
  lemma {:induction false} HistoryEmptyIffNoTurns(rs: seq<Record>, u: string, s: string, limit: nat)
    ensures HistoryText(rs, u, s, limit) == "" <==> forall r :: r in rs ==> !Matches(r, u, s)
  {
    var c := Reverse(Cursor(rs, u, s, limit));
    if c != [] {
      var bs := Blocks(c);
      JoinEndsWithLast(bs, BlockSeparator);
      assert |bs[|bs| - 1]| >= 6;
      assert c[0] in Cursor(rs, u, s, limit);
    } else {
      var m := Select(rs, u, s, true);
      assert m == [];
      forall r | r in rs
        ensures !Matches(r, u, s)
      {
        assert Matches(r, u, s) ==> r in m;
      }
    }
  }

  /** A store holding only turns of the pair is selected whole. */
  lemma {:induction false} SelectWholePair(rs: seq<Record>, u: string, s: string)
    requires forall i :: 0 <= i < |rs| ==> Matches(rs[i], u, s)
    ensures Select(rs, u, s, true) == rs
  {
    if rs != [] {
      var init, last := rs[..|rs| - 1], rs[|rs| - 1];
      assert rs == init + [last];
      calc {
        Select(rs, u, s, true);
        Select(init + [last], u, s, true);
        { SelectSnoc(init, last, u, s, true); }
        Select(init, u, s, true) + [last];
        { SelectWholePair(init, u, s); }
        init + [last];
      }
    }
  }

  /** Two records render as two blocks separated by a blank line. */
  lemma {:induction false} TwoBlocks(a: Record, b: Record)
    ensures Join(Blocks([a, b]), BlockSeparator) == Render(a) + "\n\n" + Render(b)
  {
    assert [a, b][..1] == [a];
    JoinSnoc([Render(a)], Render(b), BlockSeparator);
  }

  /** The ordering example: turns T1, T2, T3 of one pair, read with limit 2, give T2's block
      and then T3's. */
  lemma {:induction false} HistoryOrderingExample(t1: Record, t2: Record, t3: Record, u: string, s: string)
    requires Matches(t1, u, s) && Matches(t2, u, s) && Matches(t3, u, s)
    requires t1.timestamp < t2.timestamp < t3.timestamp
    ensures HistoryText([t1, t2, t3], u, s, 2) == Render(t2) + "\n\n" + Render(t3)
  {
    var rs := [t1, t2, t3];
    calc {
      HistoryText(rs, u, s, 2);
      { assert Chronological(rs); HistoryIsLatestTurns(rs, u, s, 2); }
      Join(Blocks(Latest(Select(rs, u, s, true), 2)), BlockSeparator);
      { SelectWholePair(rs, u, s); }
      Join(Blocks(Latest(rs, 2)), BlockSeparator);
      { assert Latest(rs, 2) == [t2, t3]; }
      Join(Blocks([t2, t3]), BlockSeparator);
      { TwoBlocks(t2, t3); }
      Render(t2) + "\n\n" + Render(t3);
    }
  }

  /** Storing a turn of the pair puts its block at the end of the pair's history; the blocks
      before it are those a limit one smaller showed before the store. */
  lemma {:induction false} HistoryAfterStore(rs: seq<Record>, r: Record, u: string, s: string, limit: nat)
    requires Chronological(rs + [r]) && Matches(r, u, s) && limit != 1
    ensures HistoryText(rs + [r], u, s, 1) == Render(r)
    ensures HistoryText(rs + [r], u, s, limit)
         == if Select(rs, u, s, true) == [] then Render(r)
            else HistoryText(rs, u, s, if limit == 0 then 0 else limit - 1) + BlockSeparator + Render(r)
  {
    var m := Select(rs, u, s, true);
    SelectSnoc(rs, r, u, s, true);
    ChronologicalSnoc(rs, r);
    LatestSnoc(m, r, limit);
    HistoryIsLatestTurns(rs + [r], u, s, 1);
    BlocksSnoc([], r);
    HistoryIsLatestTurns(rs + [r], u, s, limit);
    var limit' := if limit == 0 then 0 else limit - 1;
    var before := Latest(m, limit');
    BlocksSnoc(before, r);
    JoinSnoc(Blocks(before), Render(r), BlockSeparator);
    if m != [] {
      HistoryIsLatestTurns(rs, u, s, limit');
    }
  }

  /** Storing a turn of another pair leaves this pair's history as it was. */
  lemma {:induction false} HistoryIgnoresOtherPairs(rs: seq<Record>, r: Record, u: string, s: string, limit: nat)
    requires !Matches(r, u, s)
    ensures HistoryText(rs + [r], u, s, limit) == HistoryText(rs, u, s, limit)
  {
    assert (rs + [r])[..|rs|] == rs;
    assert Select(rs + [r], u, s, true) == Select(rs, u, s, true);
  }

  /** After clearing (u, s), that pair's history is empty and every other pair's history is
      what it was. */
  lemma {:induction false} HistoryAfterClear(rs: seq<Record>, u: string, s: string, u2: string, s2: string, limit: nat)
    ensures HistoryText(Select(rs, u, s, false), u, s, limit) == ""
    ensures (u2 != u || s2 != s) ==>
            HistoryText(Select(rs, u, s, false), u2, s2, limit) == HistoryText(rs, u2, s2, limit)
  {
    SelectOfRemaining(rs, u, s, u, s);
    SelectOfRemaining(rs, u, s, u2, s2);
  }

  /** The collection, held as the sequence of its documents in insertion order. */
  class ChatLog {
    var records: seq<Record>

    ghost predicate Valid()
      reads this
    {
      Chronological(records)
    }

    constructor ()
      ensures Valid() && records == []
    {
      records := [];
    }

    /** `store_chat`: `insert_one` of a document stamped with the current time `now`. */
    method StoreChat(userId: string, sessionId: string, query: string, response: string, now: int)
      requires Valid() && AllBefore(records, now)
      modifies this
      ensures Valid()
      ensures records == old(records) + [Record(userId, sessionId, query, response, now)]
    {
      ChronologicalSnoc(records, Record(userId, sessionId, query, response, now));
      records := records + [Record(userId, sessionId, query, response, now)];
    }

    /** `fetch_chat_history`: reads the cursor, walks it back to front rendering each record,
        and joins the blocks. It changes nothing. */
    method FetchChatHistory(userId: string, sessionId: string, limit: nat := 5) returns (history: string)
      ensures history == HistoryText(records, userId, sessionId, limit)
    {
      var newestFirst := Cursor(records, userId, sessionId, limit);
      var n := |newestFirst|;
      var blocks: seq<string> := [];
      var i := n;
      while i > 0
        invariant 0 <= i <= n
        invariant |blocks| == n - i
        invariant forall k :: 0 <= k < n - i ==> blocks[k] == Render(newestFirst[n - 1 - k])
      {
        i := i - 1;
        blocks := blocks + [Render(newestFirst[i])];
      }
      BlocksBackToFront(newestFirst, blocks);
      history := Join(blocks, BlockSeparator);
    }

    /** `clear_chat`: `delete_many` on the pair. A failing delete is reported on the console and
        swallowed, so the caller always returns normally; the store is then unchanged. */
    method ClearChat(userId: string, sessionId: string, deleteFails: bool)
      requires Valid()
      modifies this
      ensures Valid()
      ensures records == if deleteFails then old(records) else Select(old(records), userId, sessionId, false)
    {
      if !deleteFails {
        SelectChronological(records, userId, sessionId, false);
        records := Select(records, userId, sessionId, false);
      }
    }
  }
}
