/**
 * The session store of backend/database.py: six SQLite tables behind one
 * connection whose statements a single worker thread runs one at a time.
 *
 * The model keeps each table as a field of a `Database` object and each
 * statement as one method call, so the single-worker total order is the
 * order of the calls. The tables are
 *   sessions      (id, title, mode, created_at, updated_at)
 *   messages      the raw journal: one serialized batch of agent messages per row
 *   chat_messages the formatted chat log
 *   user_config   key/value pairs
 *   draw_history  generated images
 *   web_cache     page contents by url, with an expiry time.
 * Time is a logical clock (`now`), standing for CURRENT_TIMESTAMP and
 * `datetime('now')`, which both tick in whole seconds. Row ids are SQLite
 * rowids: one more than the last row's. Foreign keys are on
 * (`PRAGMA foreign_keys=ON`), and the journal and the chat log refer to
 * sessions with ON DELETE CASCADE. `log` records every statement that
 * reached `commit` (`_execute(..., commit=True)`), in order.
 */
module Store {

  import opened Wrappers
  import Agents
  import JsonFrames
  import Ordering

  datatype Session = Session(id: string, title: string, mode: string, createdAt: int, updatedAt: int)

  /** One `add_messages` batch, already decoded from its JSON. */
  datatype JournalRow = JournalRow(id: int, sessionId: string, batch: seq<Agents.ModelMessage>)

  datatype ChatRow = ChatRow(
    id: int, sessionId: string, role: string, content: string,
    contentType: string, imageUrl: Option<string>, createdAt: int)

  /** One element of `get_chat_messages`: the row without its session. */
  datatype ChatEntry = ChatEntry(
    id: int, role: string, content: string, contentType: string,
    imageUrl: Option<string>, timestamp: int)

  datatype ConfigRow = ConfigRow(value: string, updatedAt: int)

  datatype DrawRow = DrawRow(
    id: int, prompt: string, imageUrl: string, model: Option<string>,
    parameters: Option<string>, createdAt: int)

  datatype CacheRow = CacheRow(
    title: Option<string>, content: string, summary: Option<string>,
    jsonData: Option<string>, expiresAt: Option<int>, createdAt: int)

  /** One result of `get_web_cache`. */
  datatype CacheEntry = CacheEntry(
    url: string, title: Option<string>, content: string, summary: Option<string>,
    jsonData: Option<string>, createdAt: int)

  /** The outcome of a write: committed, or the text of the
      `sqlite3.IntegrityError` the statement raised. */
  datatype Status = Done | Failed(message: string)

  /** A statement that reached `commit`. */
  datatype Statement =
    | InsertMessages(sessionId: string)
    | InsertChatMessage(sessionId: string, role: string)
    | InsertSession(sessionId: string)
    | UpdateSessionRow(sessionId: string, title: Option<string>)
    | DeleteSessionRow(sessionId: string)
    | UpsertConfig(key: string)
    | InsertDraw(prompt: string)
    | UpsertWebCache(url: string)

  const UniqueSessionFailure := "UNIQUE constraint failed: sessions.id"
  const ForeignKeyFailure := "FOREIGN KEY constraint failed"

  const DefaultMode := "standalone"
  const DefaultContentType := "text"
  const DefaultDrawModel := "cogView-4-250304"
  const DefaultDrawSize := "1024x1024"
  const DefaultCacheTtl := 86400
  const DefaultSessionLimit := 50
  const DefaultDrawLimit := 20

  // ---------------------------------------------------------------------
  // Tables as sequences of rows
  // ---------------------------------------------------------------------

  function JournalId(r: JournalRow): int { r.id }
  function JournalOwner(r: JournalRow): string { r.sessionId }
  function ChatId(r: ChatRow): int { r.id }
  function ChatOwner(r: ChatRow): string { r.sessionId }
  function DrawId(r: DrawRow): int { r.id }
  function SessionId(s: Session): string { s.id }
  function UpdatedAt(s: Session): int { s.updatedAt }
  function DrawCreatedAt(r: DrawRow): int { r.createdAt }

  /** Ids strictly increase along the table: `ORDER BY id` is the order
      in which the rows were inserted. */
  predicate Increasing<T>(rows: seq<T>, id: T -> int) {
    forall i, j | 0 <= i < j < |rows| :: id(rows[i]) < id(rows[j])
  }

  /** The rowid SQLite gives the next insert: one more than the last. */
  function NextId<T>(rows: seq<T>, id: T -> int): (r: int)
    requires Increasing(rows, id)
    ensures forall i | 0 <= i < |rows| :: id(rows[i]) < r
  {
    var r := if rows == [] then 1 else id(rows[|rows| - 1]) + 1;
    assert forall i | 0 <= i < |rows| :: id(rows[i]) < r by {
      if rows != [] {
        assert forall i | 0 <= i < |rows| - 1 :: id(rows[i]) < id(rows[|rows| - 1]);
      }
    }
    r
  }

  lemma AppendIncreasing<T>(rows: seq<T>, x: T, id: T -> int)
    requires Increasing(rows, id) && forall i | 0 <= i < |rows| :: id(rows[i]) < id(x)
    ensures Increasing(rows + [x], id)
  {
  }

  /** The rows whose owner is not `sid`, in their order: what a `DELETE`
      (or its cascade) leaves behind. */
  function Without<T>(rows: seq<T>, owner: T -> string, sid: string): (r: seq<T>)
    ensures |r| <= |rows|
  {
    if rows == [] then []
    else
      var rest := Without(rows[1..], owner, sid);
      if owner(rows[0]) == sid then rest else [rows[0]] + rest
  }

  /** The rows left are exactly the rows of other owners. */
  lemma {:induction false} WithoutMembers<T>(rows: seq<T>, owner: T -> string, sid: string)
    ensures forall x | x in Without(rows, owner, sid) :: x in rows && owner(x) != sid
    ensures forall x | x in rows && owner(x) != sid :: x in Without(rows, owner, sid)
  {
    if rows != [] {
      WithoutMembers(rows[1..], owner, sid);
      assert forall x | x in rows :: x == rows[0] || x in rows[1..];
    }
  }

  lemma {:induction false} WithoutIncreasing<T>(rows: seq<T>, owner: T -> string, sid: string, id: T -> int)
    requires Increasing(rows, id)
    ensures Increasing(Without(rows, owner, sid), id)
  {
    if rows != [] {
      WithoutIncreasing(rows[1..], owner, sid, id);
      WithoutMembers(rows[1..], owner, sid);
      var rest := Without(rows[1..], owner, sid);
      forall j | 0 <= j < |rest|
        ensures id(rows[0]) < id(rest[j])
      {
        assert rest[j] in rows[1..];
      }
    }
  }

  /** Deleting rows of an owner that owns none changes nothing. */
  lemma {:induction false} WithoutNone<T>(rows: seq<T>, owner: T -> string, sid: string)
    requires forall i | 0 <= i < |rows| :: owner(rows[i]) != sid
    ensures Without(rows, owner, sid) == rows
  {
    if rows != [] {
      WithoutNone(rows[1..], owner, sid);
      assert rows == [rows[0]] + rows[1..];
    }
  }

  /** The messages of session `sid` in the journal, batch after batch in
      row order: `get_messages`. */
  function Replay(rows: seq<JournalRow>, sid: string): seq<Agents.ModelMessage> {
    if rows == [] then []
    else (if rows[0].sessionId == sid then rows[0].batch else []) + Replay(rows[1..], sid)
  }

  /** Appending a row adds its batch to its own session's replay and to no
      other. */
  lemma {:induction false} ReplayAppend(rows: seq<JournalRow>, row: JournalRow, sid: string)
    ensures Replay(rows + [row], sid) == Replay(rows, sid) + (if row.sessionId == sid then row.batch else [])
  {
    if rows == [] {
      assert [row][1..] == [];
    } else {
      var head := if rows[0].sessionId == sid then rows[0].batch else [];
      var tail := if row.sessionId == sid then row.batch else [];
      assert (rows + [row])[0] == rows[0];
      assert (rows + [row])[1..] == rows[1..] + [row];
      ReplayAppend(rows[1..], row, sid);
      assert head + (Replay(rows[1..], sid) + tail) == (head + Replay(rows[1..], sid)) + tail;
    }
  }

  /** A session without journal rows replays to nothing. */
  lemma {:induction false} ReplayNone(rows: seq<JournalRow>, sid: string)
    requires forall i | 0 <= i < |rows| :: rows[i].sessionId != sid
    ensures Replay(rows, sid) == []
  {
    if rows != [] {
      ReplayNone(rows[1..], sid);
    }
  }

  /** After the cascade, the deleted session replays to nothing and every
      other session to what it did before. */
  lemma {:induction false} ReplayWithout(rows: seq<JournalRow>, sid: string, other: string)
    ensures Replay(Without(rows, JournalOwner, sid), other) == if other == sid then [] else Replay(rows, other)
  {
    if rows != [] {
      ReplayWithout(rows[1..], sid, other);
    }
  }

  function Entry(r: ChatRow): ChatEntry {
    ChatEntry(r.id, r.role, r.content, r.contentType, r.imageUrl, r.createdAt)
  }

  /** The chat entries of session `sid` in row order: `get_chat_messages`. */
  function Entries(rows: seq<ChatRow>, sid: string): (r: seq<ChatEntry>)
    ensures |r| <= |rows|
  {
    if rows == [] then []
    else (if rows[0].sessionId == sid then [Entry(rows[0])] else []) + Entries(rows[1..], sid)
  }

  /** Every entry comes from a row of the session. */
  lemma {:induction false} EntriesFrom(rows: seq<ChatRow>, sid: string)
    ensures forall e | e in Entries(rows, sid) :: exists row | row in rows :: row.sessionId == sid && Entry(row) == e
  {
    if rows != [] {
      EntriesFrom(rows[1..], sid);
      assert forall row | row in rows[1..] :: row in rows;
    }
  }

  /** Appending a row adds its entry to its own session's log, last. */
  lemma {:induction false} EntriesAppend(rows: seq<ChatRow>, row: ChatRow, sid: string)
    ensures Entries(rows + [row], sid) == Entries(rows, sid) + (if row.sessionId == sid then [Entry(row)] else [])
  {
    if rows == [] {
      assert [row][1..] == [];
    } else {
      var head := if rows[0].sessionId == sid then [Entry(rows[0])] else [];
      var tail := if row.sessionId == sid then [Entry(row)] else [];
      assert (rows + [row])[0] == rows[0];
      assert (rows + [row])[1..] == rows[1..] + [row];
      EntriesAppend(rows[1..], row, sid);
      assert head + (Entries(rows[1..], sid) + tail) == (head + Entries(rows[1..], sid)) + tail;
    }
  }

  /** After the cascade, the deleted session has no chat entries and every
      other session keeps its own. */
  lemma {:induction false} EntriesWithout(rows: seq<ChatRow>, sid: string, other: string)
    ensures Entries(Without(rows, ChatOwner, sid), other) == if other == sid then [] else Entries(rows, other)
  {
    if rows != [] {
      EntriesWithout(rows[1..], sid, other);
    }
  }

  /** Every session other than `id` keeps its replay and its chat log. */
  ghost predicate OthersKept(journal: seq<JournalRow>, journal': seq<JournalRow>, chat: seq<ChatRow>, chat': seq<ChatRow>, id: string) {
    forall other | other != id :: Replay(journal', other) == Replay(journal, other) && Entries(chat', other) == Entries(chat, other)
  }

  /** The cascade of `delete_session` over both logs at once. */
  lemma Cascade(journal: seq<JournalRow>, chat: seq<ChatRow>, id: string)
    ensures Replay(Without(journal, JournalOwner, id), id) == []
    ensures Entries(Without(chat, ChatOwner, id), id) == []
    ensures OthersKept(journal, Without(journal, JournalOwner, id), chat, Without(chat, ChatOwner, id), id)
  {
    ReplayWithout(journal, id, id);
    EntriesWithout(chat, id, id);
    forall other | other != id
      ensures Replay(Without(journal, JournalOwner, id), other) == Replay(journal, other)
      ensures Entries(Without(chat, ChatOwner, id), other) == Entries(chat, other)
    {
      ReplayWithout(journal, id, other);
      EntriesWithout(chat, id, other);
    }
  }

  function EntryId(e: ChatEntry): int { e.id }

  /** Entries come out in id order, since rows are stored in it. */
  lemma {:induction false} EntriesIncreasing(rows: seq<ChatRow>, sid: string)
    requires Increasing(rows, ChatId)
    ensures Increasing(Entries(rows, sid), EntryId)
  {
    if rows != [] {
      EntriesIncreasing(rows[1..], sid);
      EntriesFrom(rows[1..], sid);
      var rest := Entries(rows[1..], sid);
      forall j | 0 <= j < |rest|
        ensures rows[0].id < rest[j].id
      {
        assert rest[j] in rest;
        var row :| row in rows[1..] && row.sessionId == sid && Entry(row) == rest[j];
      }
    }
  }

  /** No two rows share a key. */
  predicate Distinct<T>(rows: seq<T>, key: T -> string) {
    forall i, j | 0 <= i < j < |rows| :: key(rows[i]) != key(rows[j])
  }

  lemma {:induction false} WithoutDistinct<T>(rows: seq<T>, owner: T -> string, sid: string, key: T -> string)
    requires Distinct(rows, key)
    ensures Distinct(Without(rows, owner, sid), key)
  {
    if rows != [] {
      WithoutDistinct(rows[1..], owner, sid, key);
      WithoutMembers(rows[1..], owner, sid);
      var rest := Without(rows[1..], owner, sid);
      forall j | 0 <= j < |rest|
        ensures key(rows[0]) != key(rest[j])
      {
        assert rest[j] in rows[1..];
      }
    }
  }

  /** The ids of the sessions. */
  function Ids(ss: seq<Session>): set<string> {
    set i | 0 <= i < |ss| :: ss[i].id
  }

  /** The session with id `id`, if there is one. */
  function Find(ss: seq<Session>, id: string): (r: Option<Session>)
    ensures r.Some? <==> id in Ids(ss)
    ensures r.Some? ==> r.value in ss && r.value.id == id
  {
    if ss == [] then None
    else if ss[0].id == id then Some(ss[0])
    else
      var r := Find(ss[1..], id);
      assert Ids(ss) == {ss[0].id} + Ids(ss[1..]) by {
        assert forall i | 0 < i < |ss| :: ss[i] == ss[1..][i - 1];
      }
      r
  }

  lemma IdsWithout(ss: seq<Session>, id: string)
    ensures Ids(Without(ss, SessionId, id)) == Ids(ss) - {id}
  {
    var w := Without(ss, SessionId, id);
    WithoutMembers(ss, SessionId, id);
    forall x | x in Ids(w)
      ensures x in Ids(ss) - {id}
    {
      var i :| 0 <= i < |w| && w[i].id == x;
      assert w[i] in w;
    }
    forall x | x in Ids(ss) - {id}
      ensures x in Ids(w)
    {
      var i :| 0 <= i < |ss| && ss[i].id == x;
      assert ss[i] in ss;
      var j :| 0 <= j < |w| && w[j] == ss[i];
    }
  }

  lemma IdsAppend(ss: seq<Session>, s: Session)
    ensures Ids(ss + [s]) == Ids(ss) + {s.id}
    ensures Distinct(ss, SessionId) && s.id !in Ids(ss) ==> Distinct(ss + [s], SessionId)
  {
    assert forall i | 0 <= i < |ss| :: (ss + [s])[i] == ss[i];
    assert (ss + [s])[|ss|] == s;
  }

  /** A session's times never run ahead of the clock. */
  predicate Timely(ss: seq<Session>, now: int) {
    forall i | 0 <= i < |ss| :: ss[i].createdAt <= ss[i].updatedAt <= now
  }

  /** Every row belongs to one of `ids`: the foreign key holds. */
  predicate OwnedBy<T>(rows: seq<T>, owner: T -> string, ids: set<string>) {
    forall i | 0 <= i < |rows| :: owner(rows[i]) in ids
  }

  lemma WithoutOwned<T>(rows: seq<T>, owner: T -> string, ids: set<string>, id: string)
    requires OwnedBy(rows, owner, ids)
    ensures OwnedBy(Without(rows, owner, id), owner, ids - {id})
    ensures id !in ids ==> Without(rows, owner, id) == rows
  {
    var w := Without(rows, owner, id);
    WithoutMembers(rows, owner, id);
    forall i | 0 <= i < |w|
      ensures owner(w[i]) in ids - {id}
    {
      assert w[i] in w;
      var j :| 0 <= j < |rows| && rows[j] == w[i];
    }
    if id !in ids {
      WithoutNone(rows, owner, id);
    }
  }

  /** The invariant of the session tables: ids unique, times behind the
      clock, every journal and chat row owned by a session, rows in id order. */
  predicate Consistent(ss: seq<Session>, journal: seq<JournalRow>, chat: seq<ChatRow>, now: int) {
    && Distinct(ss, SessionId)
    && Timely(ss, now)
    && OwnedBy(journal, JournalOwner, Ids(ss))
    && OwnedBy(chat, ChatOwner, Ids(ss))
    && Increasing(journal, JournalId)
    && Increasing(chat, ChatId)
  }

  /** `delete_session` with its cascade keeps the invariant. */
  lemma DeleteConsistent(ss: seq<Session>, journal: seq<JournalRow>, chat: seq<ChatRow>, now: int, id: string)
    requires Consistent(ss, journal, chat, now)
    ensures Consistent(Without(ss, SessionId, id), Without(journal, JournalOwner, id), Without(chat, ChatOwner, id), now)
    ensures Ids(Without(ss, SessionId, id)) == Ids(ss) - {id}
    ensures id !in Ids(ss) ==> Without(ss, SessionId, id) == ss && Without(journal, JournalOwner, id) == journal && Without(chat, ChatOwner, id) == chat
  {
    IdsWithout(ss, id);
    WithoutDistinct(ss, SessionId, id, SessionId);
    WithoutTimely(ss, id, now);
    WithoutIncreasing(journal, JournalOwner, id, JournalId);
    WithoutIncreasing(chat, ChatOwner, id, ChatId);
    WithoutOwned(journal, JournalOwner, Ids(ss), id);
    WithoutOwned(chat, ChatOwner, Ids(ss), id);
    if id !in Ids(ss) {
      WithoutNone(ss, SessionId, id);
    }
  }

  lemma WithoutTimely(ss: seq<Session>, id: string, now: int)
    requires Timely(ss, now)
    ensures Timely(Without(ss, SessionId, id), now)
  {
    var w := Without(ss, SessionId, id);
    WithoutMembers(ss, SessionId, id);
    forall i | 0 <= i < |w|
      ensures w[i].createdAt <= w[i].updatedAt <= now
    {
      assert w[i] in w;
      var j :| 0 <= j < |ss| && ss[j] == w[i];
    }
  }

  /** `if title:` in `update_session`: None and "" both leave the title. */
  predicate Truthy(title: Option<string>) {
    title.Some? && title.value != ""
  }

  /** The `UPDATE sessions ... WHERE id = ?` of `update_session`, row by row. */
  function Touch(s: Session, id: string, title: Option<string>, now: int): Session {
    if s.id != id then s
    else if Truthy(title) then s.(title := title.value, updatedAt := now)
    else s.(updatedAt := now)
  }

  function TouchAll(ss: seq<Session>, id: string, title: Option<string>, now: int): (r: seq<Session>)
    ensures |r| == |ss|
    ensures forall i | 0 <= i < |ss| :: r[i] == Touch(ss[i], id, title, now)
  {
    seq(|ss|, i requires 0 <= i < |ss| => Touch(ss[i], id, title, now))
  }

  /** Touching keeps ids and their uniqueness, keeps the clock bound, and
      is the identity when no session has the id. */
  lemma TouchAllKeeps(ss: seq<Session>, id: string, title: Option<string>, now: int)
    requires Distinct(ss, SessionId) && Timely(ss, now)
    ensures Ids(TouchAll(ss, id, title, now)) == Ids(ss)
    ensures Distinct(TouchAll(ss, id, title, now), SessionId)
    ensures Timely(TouchAll(ss, id, title, now), now)
    ensures id !in Ids(ss) ==> TouchAll(ss, id, title, now) == ss
  {
    var t := TouchAll(ss, id, title, now);
    assert forall i | 0 <= i < |ss| :: t[i].id == ss[i].id;
    if id !in Ids(ss) {
      assert forall i | 0 <= i < |ss| :: ss[i].id != id;
    }
  }

  /** Looking up the touched table gives the touched session. */
  lemma {:induction false} FindTouchAll(ss: seq<Session>, id: string, title: Option<string>, now: int)
    ensures Find(TouchAll(ss, id, title, now), id)
         == if Find(ss, id).Some? then Some(Touch(Find(ss, id).value, id, title, now)) else None
  {
    if ss != [] {
      var t := TouchAll(ss, id, title, now);
      assert t[1..] == TouchAll(ss[1..], id, title, now);
      FindTouchAll(ss[1..], id, title, now);
    }
  }

  /** `json.dumps({'size': size})`, the parameters `save_draw_history` stores. */
  function SizeParameters(size: string): string {
    "{\"size\": " + JsonFrames.Quote(size) + "}"
  }

  /** `datetime('now', '+' || ttl || ' seconds')`. A negative `ttl` makes
      the modifier `+-n seconds`, which SQLite's modifier parser rejects
      (no digit follows the `+`), so the expression is NULL. */
  function Expiry(now: int, ttl: int): (r: Option<int>)
    ensures ttl >= 0 <==> r.Some?
    ensures r.Some? ==> r.value - now == ttl
  {
    if ttl < 0 then None else Some(now + ttl)
  }

  /** `expires_at IS NULL OR expires_at > datetime('now')`. */
  predicate Fresh(row: CacheRow, now: int) {
    row.expiresAt.None? || row.expiresAt.value > now
  }

  // ---------------------------------------------------------------------
  // The connection
  // ---------------------------------------------------------------------

  class Database {
    var sessions: seq<Session>
    var journal: seq<JournalRow>
    var chat: seq<ChatRow>
    var config: map<string, ConfigRow>
    var draws: seq<DrawRow>
    var cache: map<string, CacheRow>
    var now: int
    ghost var log: seq<Statement>

    /** The constraints the schema and the clock keep: session ids are
        unique, a session's times never run ahead of the clock, every
        journal and chat row belongs to an existing session, and rowids
        increase in insertion order. */
    ghost predicate Valid()
      reads this
    {
      Consistent(sessions, journal, chat, now) && Increasing(draws, DrawId)
    }

    /** A freshly initialised database file: every table empty. */
    constructor (start: int)
      ensures Valid()
      ensures sessions == [] && journal == [] && chat == [] && draws == []
      ensures config == map[] && cache == map[]
      ensures now == start && log == []
    {
      sessions, journal, chat, draws := [], [], [], [];
      config, cache := map[], map[];
      now, log := start, [];
    }

    /** Wall-clock time passes. */
    method Tick(dt: nat)
      requires Valid()
      modifies this`now
      ensures Valid()
      ensures now == old(now) + dt
    {
      now := now + dt;
    }

    /** `add_messages`: one journal row, or the foreign-key failure when
        the session does not exist. */
    method AddMessages(sid: string, batch: seq<Agents.ModelMessage>) returns (st: Status)
      requires Valid()
      modifies this`journal, this`log
      ensures Valid()
      ensures sid in Ids(sessions) ==>
        && st == Done
        && journal == old(journal) + [JournalRow(NextId(old(journal), JournalId), sid, batch)]
        && log == old(log) + [InsertMessages(sid)]
      ensures sid !in Ids(sessions) ==>
        st == Failed(ForeignKeyFailure) && journal == old(journal) && log == old(log)
      ensures forall other :: Replay(journal, other) == Replay(old(journal), other) + (if other == sid && st == Done then batch else [])
    {
      if sid !in Ids(sessions) {
        return Failed(ForeignKeyFailure);
      }
      var row := JournalRow(NextId(journal, JournalId), sid, batch);
      forall other
        ensures Replay(journal + [row], other) == Replay(journal, other) + (if other == sid then batch else [])
      {
        ReplayAppend(journal, row, other);
      }
      journal := journal + [row];
      log := log + [InsertMessages(sid)];
      st := Done;
    }

    /** `get_messages`: the batches of the session in id order, flattened. */
    method GetMessages(sid: string) returns (msgs: seq<Agents.ModelMessage>)
      ensures msgs == Replay(journal, sid)
    {
      msgs := [];
      var i := 0;
      while i < |journal|
        invariant 0 <= i <= |journal|
        invariant msgs == Replay(journal[..i], sid)
      {
        var row := journal[i];
        ReplayAppend(journal[..i], row, sid);
        assert journal[..i + 1] == journal[..i] + [row];
        if row.sessionId == sid {
          msgs := msgs + row.batch;
        }
        i := i + 1;
      }
      assert journal[..i] == journal;
    }

    /** `add_chat_message`: one chat row, or the foreign-key failure. */
    method AddChatMessage(sid: string, role: string, content: string, contentType: string := DefaultContentType,
                          imageUrl: Option<string> := None)
      returns (st: Status)
      requires Valid()
      modifies this`chat, this`log
      ensures Valid()
      ensures sid in Ids(sessions) ==>
        && st == Done
        && chat == old(chat) + [ChatRow(NextId(old(chat), ChatId), sid, role, content, contentType, imageUrl, now)]
        && log == old(log) + [InsertChatMessage(sid, role)]
      ensures sid !in Ids(sessions) ==>
        st == Failed(ForeignKeyFailure) && chat == old(chat) && log == old(log)
    {
      if sid !in Ids(sessions) {
        return Failed(ForeignKeyFailure);
      }
      chat := chat + [ChatRow(NextId(chat, ChatId), sid, role, content, contentType, imageUrl, now)];
      log := log + [InsertChatMessage(sid, role)];
      st := Done;
    }

    /** `get_chat_messages`. */
    function ChatMessages(sid: string): (r: seq<ChatEntry>)
      reads this
      requires Valid()
      ensures Increasing(r, EntryId)
    {
      EntriesIncreasing(chat, sid);
      Entries(chat, sid)
    }

    /** `create_session`: a new session stamped with the clock, or the
        unique-constraint failure when the id is taken. */
    method CreateSession(id: string, title: string, mode: string := DefaultMode) returns (st: Status)
      requires Valid()
      modifies this`sessions, this`log
      ensures Valid()
      ensures id !in old(Ids(sessions)) ==>
        && st == Done
        && sessions == old(sessions) + [Session(id, title, mode, now, now)]
        && log == old(log) + [InsertSession(id)]
      ensures id in old(Ids(sessions)) ==>
        st == Failed(UniqueSessionFailure) && sessions == old(sessions) && log == old(log)
    {
      if id in Ids(sessions) {
        return Failed(UniqueSessionFailure);
      }
      var s := Session(id, title, mode, now, now);
      IdsAppend(sessions, s);
      assert Timely(sessions + [s], now);
      sessions := sessions + [s];
      log := log + [InsertSession(id)];
      st := Done;
    }

    /** `get_sessions(limit)`: most recently updated first. */
    function Sessions(limit: int := DefaultSessionLimit): (r: seq<Session>)
      reads this
      ensures Ordering.SortedDesc(r, UpdatedAt)
      ensures multiset(r) <= multiset(sessions)
      ensures |r| == if 0 <= limit < |sessions| then limit else |sessions|
      ensures forall x | x in multiset(sessions) - multiset(r) :: forall j | 0 <= j < |r| :: x.updatedAt <= r[j].updatedAt
    {
      Ordering.Top(sessions, UpdatedAt, limit)
    }

    /** `get_session`. */
    function GetSession(id: string): (r: Option<Session>)
      reads this
      ensures r.Some? <==> id in Ids(sessions)
      ensures r.Some? ==> r.value in sessions && r.value.id == id
    {
      Find(sessions, id)
    }

    /** `update_session`: bumps `updated_at`, and sets the title only when
        it is given and not empty; an unknown id changes nothing. */
    method UpdateSession(id: string, title: Option<string>)
      requires Valid()
      modifies this`sessions, this`log
      ensures Valid()
      ensures sessions == TouchAll(old(sessions), id, title, now)
      ensures log == old(log) + [UpdateSessionRow(id, title)]
      ensures Ids(sessions) == old(Ids(sessions))
      ensures id !in Ids(sessions) ==> sessions == old(sessions)
      ensures id in Ids(sessions) ==>
        && GetSession(id).value.updatedAt == now
        && GetSession(id).value.title == (if Truthy(title) then title.value else old(GetSession(id)).value.title)
    {
      var ss := TouchAll(sessions, id, title, now);
      TouchAllKeeps(sessions, id, title, now);
      FindTouchAll(sessions, id, title, now);
      sessions := ss;
      log := log + [UpdateSessionRow(id, title)];
    }

    /** `delete_session`, with the cascade to the journal and the chat log.
        Deleting an unknown id changes nothing. */
    method DeleteSession(id: string)
      requires Valid()
      modifies this`sessions, this`journal, this`chat, this`log
      ensures Valid()
      ensures sessions == Without(old(sessions), SessionId, id)
      ensures journal == Without(old(journal), JournalOwner, id)
      ensures chat == Without(old(chat), ChatOwner, id)
      ensures log == old(log) + [DeleteSessionRow(id)]
      ensures Replay(journal, id) == [] && Entries(chat, id) == []
      ensures OthersKept(old(journal), journal, old(chat), chat, id)
      ensures id !in old(Ids(sessions)) ==> sessions == old(sessions) && journal == old(journal) && chat == old(chat)
    {
      sessions, journal, chat, log :=
        Without(sessions, SessionId, id), Without(journal, JournalOwner, id), Without(chat, ChatOwner, id),
        log + [DeleteSessionRow(id)];
      assert Valid() by {
        DeleteConsistent(old(sessions), old(journal), old(chat), now, id);
      }
      if id !in old(Ids(sessions)) {
        assert sessions == old(sessions) && journal == old(journal) && chat == old(chat) by {
          DeleteConsistent(old(sessions), old(journal), old(chat), now, id);
        }
      }
      assert Replay(journal, id) == [] && Entries(chat, id) == [] && OthersKept(old(journal), journal, old(chat), chat, id) by {
        Cascade(old(journal), old(chat), id);
      }
    }

    /** `save_config`: INSERT OR REPLACE, so the key keeps one row, holding
        the latest value. */
    method SaveConfig(key: string, value: string)
      requires Valid()
      modifies this`config, this`log
      ensures Valid()
      ensures config == old(config)[key := ConfigRow(value, now)]
      ensures log == old(log) + [UpsertConfig(key)]
      ensures GetConfig(key) == Some(value)
      ensures AllConfigs() == old(AllConfigs())[key := value]
    {
      config := config[key := ConfigRow(value, now)];
      log := log + [UpsertConfig(key)];
    }

    /** `get_config`: the value, or None for a missing key. */
    function GetConfig(key: string): (r: Option<string>)
      reads this
      ensures r.Some? <==> key in config
      ensures r.Some? ==> r.value == config[key].value
    {
      if key in config then Some(config[key].value) else None
    }

    /** `get_all_configs`: one entry per stored key. */
    function AllConfigs(): (r: map<string, string>)
      reads this
      ensures r.Keys == config.Keys
      ensures forall k | k in r :: GetConfig(k) == Some(r[k])
    {
      map k | k in config :: config[k].value
    }

    /** `save_draw_history`: the model and the size, the latter stored as
        the JSON text of `{"size": size}`. */
    method SaveDrawHistory(prompt: string, imageUrl: string, model: string := DefaultDrawModel,
                           size: string := DefaultDrawSize)
      requires Valid()
      modifies this`draws, this`log
      ensures Valid()
      ensures draws == old(draws) + [DrawRow(NextId(old(draws), DrawId), prompt, imageUrl, Some(model), Some(SizeParameters(size)), now)]
      ensures log == old(log) + [InsertDraw(prompt)]
    {
      draws := draws + [DrawRow(NextId(draws, DrawId), prompt, imageUrl, Some(model), Some(SizeParameters(size)), now)];
      log := log + [InsertDraw(prompt)];
    }

    /** `add_draw_history`: model and parameters as given, possibly null. */
    method AddDrawHistory(prompt: string, imageUrl: string, model: Option<string> := None,
                          parameters: Option<string> := None)
      requires Valid()
      modifies this`draws, this`log
      ensures Valid()
      ensures draws == old(draws) + [DrawRow(NextId(old(draws), DrawId), prompt, imageUrl, model, parameters, now)]
      ensures log == old(log) + [InsertDraw(prompt)]
    {
      draws := draws + [DrawRow(NextId(draws, DrawId), prompt, imageUrl, model, parameters, now)];
      log := log + [InsertDraw(prompt)];
    }

    /** `get_draw_history(limit)`: newest first. */
    function DrawHistory(limit: int := DefaultDrawLimit): (r: seq<DrawRow>)
      reads this
      ensures Ordering.SortedDesc(r, DrawCreatedAt)
      ensures multiset(r) <= multiset(draws)
      ensures |r| == if 0 <= limit < |draws| then limit else |draws|
      ensures forall x | x in multiset(draws) - multiset(r) :: forall j | 0 <= j < |r| :: x.createdAt <= r[j].createdAt
    {
      Ordering.Top(draws, DrawCreatedAt, limit)
    }

    /** `save_web_cache`: INSERT OR REPLACE with `expires_at` the clock plus
        `ttl` seconds, or NULL when `ttl` is negative. The entry reads back
        at once unless `ttl` is zero; with a negative `ttl` it never expires. */
    method SaveWebCache(url: string, title: Option<string>, content: string, summary: Option<string> := None,
                        jsonData: Option<string> := None, ttl: int := DefaultCacheTtl)
      requires Valid()
      modifies this`cache, this`log
      ensures Valid()
      ensures cache == old(cache)[url := CacheRow(title, content, summary, jsonData, Expiry(now, ttl), now)]
      ensures log == old(log) + [UpsertWebCache(url)]
      ensures GetWebCache(url) == if ttl != 0 then Some(CacheEntry(url, title, content, summary, jsonData, now)) else None
      ensures ttl < 0 ==> forall later | later >= now :: Fresh(cache[url], later)
    {
      cache := cache[url := CacheRow(title, content, summary, jsonData, Expiry(now, ttl), now)];
      log := log + [UpsertWebCache(url)];
    }

    /** `get_web_cache`: the entry, unless it is missing or has expired. */
    function GetWebCache(url: string): (r: Option<CacheEntry>)
      reads this
      ensures r.Some? <==> url in cache && Fresh(cache[url], now)
      ensures r.Some? ==> r.value.url == url && r.value.content == cache[url].content
      ensures r.Some? ==> r.value == CacheEntry(url, cache[url].title, cache[url].content, cache[url].summary,
                                                cache[url].jsonData, cache[url].createdAt)
    {
      if url in cache && Fresh(cache[url], now) then
        var row := cache[url];
        Some(CacheEntry(url, row.title, row.content, row.summary, row.jsonData, row.createdAt))
      else None
    }
  }
}
