/**
 * The request handlers of backend/main.py that hold logic of their own:
 * the streaming chat turn, the non-streaming turn, the two streaming web
 * tasks, the web-content extraction and what `generate_image` stores once
 * the image service has answered.
 *
 * The language model is a parameter: a function from what the handler
 * gives it (the prompt, and for chat turns the replayed history) to what it
 * does — the cumulative text snapshots it streams, the batch of new
 * messages it reports, and, when it raises, the message of the exception.
 * Timestamps are parameters too. A handler's reply is a `Reply`; how that
 * reply reaches the client is `Render` (see the Findings in the README for
 * `RenderAsWritten`, what FastAPI does with the `(dict, code)` tuples the
 * source returns).
 */
module Server {

  import opened Wrappers
  import opened JsonFrames
  import Agents
  import Store

  /** One run of `agent.run_stream`: the snapshots `stream_text` yields, in
      order, each the whole text so far; the batch `new_messages_json`
      reports; and, when the run raises after the snapshots, the message. */
  datatype StreamRun = StreamRun(snapshots: seq<string>, batch: seq<Agents.ModelMessage>, failure: Option<string>)

  /** One run of `agent.run`: the output and the new messages, or the
      message of the exception it raises. */
  datatype Completion = Completed(output: string, batch: seq<Agents.ModelMessage>) | Raised(message: string)

  /** What a handler returns: a value, or an error message with the HTTP
      status code the source pairs it with. */
  datatype Reply<T> = Ok(value: T) | Err(message: string, code: int)

  /** The body of `post_chat_message`'s answer. */
  datatype Answer = Answer(response: string, timestamp: string)

  /** The body of `extract_web_content`'s answer. */
  datatype Extracted = Extracted(title: string, content: string, url: string)

  /** The body of `generate_image`'s answer. */
  datatype Drawing = Drawing(prompt: string, imageUrl: Option<string>)

  /** The two streaming web tasks: `summarize_web` and `web_to_json`. They
      differ only in the instruction around the page text. */
  datatype WebTask = Summarize | ToJson

  /** The prompt of a web task: its instruction, the url shown to the model
      and the page text it is given. */
  datatype WebPrompt = WebPrompt(task: WebTask, url: string, excerpt: string)

  const UserContentTitle := "User Content"
  const UrlContentTitle := "URL Content"
  const NoInputMessage := "No content or URL provided"
  const MissingUrl := "N/A"
  const ExtractLimit := 5000
  const PromptLimit := 3000
  const DrawPrefix := "🎨 "
  const DrawReplyPrefix := "已为您生成图片\n\n提示词: "

  /** Python truthiness of an optional string: None and "" are false. */
  predicate Given(s: Option<string>) {
    s.Some? && s.value != ""
  }

  /** `s or default`. */
  function OrElse(s: Option<string>, default: string): (r: string)
    ensures Given(s) ==> r == s.value
    ensures !Given(s) ==> r == default
  {
    if Given(s) then s.value else default
  }

  /** Python's `s[:n]` for `n >= 0`. */
  function Prefix(s: string, n: nat): (r: string)
    ensures |r| == if |s| <= n then |s| else n
    ensures r <= s
  {
    if |s| <= n then s else s[..n]
  }

  /** The text the chat turn stores for the assistant: the last snapshot,
      or "" when the agent yielded none. */
  function FinalText(snapshots: seq<string>): (r: string)
    ensures snapshots == [] ==> r == ""
    ensures snapshots != [] ==> r == snapshots[|snapshots| - 1]
  {
    if snapshots == [] then "" else snapshots[|snapshots| - 1]
  }

  /** One `content` frame per snapshot, in order. */
  function ContentFrames(snapshots: seq<string>): (r: seq<Frame>)
    ensures |r| == |snapshots|
    ensures forall i | 0 <= i < |r| :: r[i] == Content(snapshots[i])
  {
    if snapshots == [] then [] else ContentFrames(snapshots[..|snapshots| - 1]) + [Content(snapshots[|snapshots| - 1])]
  }

  /** The frames of a stream that opens with `first` and closes with
      `last`: every snapshot in between, then the closing frame. */
  function StreamFrames(first: Frame, snapshots: seq<string>, last: Frame): seq<Frame> {
    [first] + ContentFrames(snapshots) + [last]
  }

  /** The shape every stream of the protocol has: one opening `start`,
      then only `content` frames, then exactly one `end` or `error`. */
  predicate WellFormed(frames: seq<Frame>) {
    && |frames| >= 2
    && (frames[0].Start? || frames[0].StartUrl?)
    && (forall i | 0 < i < |frames| - 1 :: frames[i].Content?)
    && (frames[|frames| - 1].End? || frames[|frames| - 1].EndPlain? || frames[|frames| - 1].Error?)
  }

  lemma StreamFramesWellFormed(first: Frame, snapshots: seq<string>, last: Frame)
    requires first.Start? || first.StartUrl?
    requires last.End? || last.EndPlain? || last.Error?
    ensures WellFormed(StreamFrames(first, snapshots, last))
    ensures |StreamFrames(first, snapshots, last)| == |snapshots| + 2
    ensures forall i | 0 <= i < |snapshots| :: StreamFrames(first, snapshots, last)[i + 1] == Content(snapshots[i])
  {
    var f, middle := StreamFrames(first, snapshots, last), ContentFrames(snapshots);
    Framed(first, middle, last);
    forall i | 0 < i < |f| - 1
      ensures f[i].Content?
    {
      assert f[i] == middle[i - 1];
    }
  }

  /** The indices of a sequence with one element added at each end. */
  lemma Framed<T>(a: T, m: seq<T>, b: T)
    ensures |[a] + m + [b]| == |m| + 2
    ensures ([a] + m + [b])[0] == a && ([a] + m + [b])[|m| + 1] == b
    ensures forall i | 0 <= i < |m| :: ([a] + m + [b])[i + 1] == m[i]
  {
  }

  /** Whether a chat turn commits: the agent finished and the session
      exists, so the foreign key admits the journal row. */
  predicate Commits(run: StreamRun, sid: string, ids: set<string>) {
    run.failure.None? && sid in ids
  }

  /** The frame that closes a chat turn. */
  function ChatOutcome(run: StreamRun, sid: string, ids: set<string>, endStamp: string): (f: Frame)
    ensures f.End? <==> Commits(run, sid, ids)
    ensures run.failure.Some? ==> f == Error(run.failure.value)
    ensures run.failure.None? && sid !in ids ==> f == Error(Store.ForeignKeyFailure)
  {
    if run.failure.Some? then Error(run.failure.value)
    else if sid !in ids then Error(Store.ForeignKeyFailure)
    else End(endStamp)
  }

  /** The statements a committed chat turn runs, in order. */
  function ChatCommit(sid: string): seq<Store.Statement> {
    [Store.InsertMessages(sid)] + ExchangeLog(sid) + [Store.UpdateSessionRow(sid, None)]
  }

  /** The statements of an exchange: the user's row, then the assistant's. */
  function ExchangeLog(sid: string): seq<Store.Statement> {
    [Store.InsertChatMessage(sid, "user"), Store.InsertChatMessage(sid, "assistant")]
  }

  /** The `async for` over `stream_text`: each snapshot becomes the whole
      response so far and is relayed as a content frame after `first`. */
  method Relay(first: Frame, snapshots: seq<string>) returns (frames: seq<Frame>, fullResponse: string)
    ensures frames == [first] + ContentFrames(snapshots)
    ensures fullResponse == FinalText(snapshots)
  {
    frames := [first];
    fullResponse := "";
    var i := 0;
    while i < |snapshots|
      invariant 0 <= i <= |snapshots|
      invariant frames == [first] + ContentFrames(snapshots[..i])
      invariant fullResponse == FinalText(snapshots[..i])
    {
      fullResponse := snapshots[i];
      frames := frames + [Content(snapshots[i])];
      assert snapshots[..i + 1][..i] == snapshots[..i];
      i := i + 1;
    }
    assert snapshots[..i] == snapshots;
  }

  /** Two `add_chat_message` calls for an existing session: the user's
      entry, then the assistant's. Both rows land at the end of the chat
      log and show up last, in that order, in the session's history. */
  method AddExchange(db: Store.Database, sid: string, request: string, reply: string, replyType: string,
                     imageUrl: Option<string>)
    requires db.Valid() && sid in Store.Ids(db.sessions)
    modifies db`chat, db`log
    ensures db.Valid()
    ensures var u := Store.ChatRow(Store.NextId(old(db.chat), Store.ChatId), sid, "user", request, "text", None, db.now);
      var a := Store.ChatRow(Store.NextId(old(db.chat) + [u], Store.ChatId), sid, "assistant", reply, replyType, imageUrl, db.now);
      && db.chat == old(db.chat) + [u, a]
      && Store.Entries(db.chat, sid) == Store.Entries(old(db.chat), sid) + [Store.Entry(u), Store.Entry(a)]
    ensures db.log == old(db.log) + ExchangeLog(sid)
  {
    ghost var before := db.chat;
    var st1 := db.AddChatMessage(sid, "user", request);
    ghost var middle := db.chat;
    var st2 := db.AddChatMessage(sid, "assistant", reply, replyType, imageUrl);
    Store.EntriesAppend(before, middle[|before|], sid);
    Store.EntriesAppend(middle, db.chat[|middle|], sid);
    ExchangeOrder(old(db.log), sid);
    Pair(before, middle[|before|], db.chat[|middle|]);
  }

  lemma Pair<T>(s: seq<T>, x: T, y: T)
    ensures s + [x] + [y] == s + [x, y]
  {
  }

  lemma ExchangeOrder(log: seq<Store.Statement>, sid: string)
    ensures log + [Store.InsertChatMessage(sid, "user")] + [Store.InsertChatMessage(sid, "assistant")] == log + ExchangeLog(sid)
  {
  }

  /** The writes after a finished agent run: the journal batch, the
      exchange, the touch. The first write fails, and then nothing is
      written, when the session does not exist. */
  method CommitTurn(db: Store.Database, sid: string, message: string, reply: string, batch: seq<Agents.ModelMessage>)
    returns (st: Store.Status)
    requires db.Valid()
    modifies db`journal, db`chat, db`sessions, db`log
    ensures db.Valid()
    ensures st.Done? <==> sid in old(Store.Ids(db.sessions))
    ensures st.Failed? ==> st.message == Store.ForeignKeyFailure
    ensures st.Done? ==>
      var u := Store.ChatRow(Store.NextId(old(db.chat), Store.ChatId), sid, "user", message, "text", None, db.now);
      var a := Store.ChatRow(Store.NextId(old(db.chat) + [u], Store.ChatId), sid, "assistant", reply, "text", None, db.now);
      && db.journal == old(db.journal) + [Store.JournalRow(Store.NextId(old(db.journal), Store.JournalId), sid, batch)]
      && Store.Replay(db.journal, sid) == Store.Replay(old(db.journal), sid) + batch
      && db.chat == old(db.chat) + [u, a]
      && Store.Entries(db.chat, sid) == Store.Entries(old(db.chat), sid) + [Store.Entry(u), Store.Entry(a)]
      && db.sessions == Store.TouchAll(old(db.sessions), sid, None, db.now)
      && db.log == old(db.log) + ChatCommit(sid)
    ensures st.Failed? ==>
      db.journal == old(db.journal) && db.chat == old(db.chat) && db.sessions == old(db.sessions) && db.log == old(db.log)
  {
    st := db.AddMessages(sid, batch);
    if st.Failed? {
      return;
    }
    AddExchange(db, sid, message, reply, "text", None);
    db.UpdateSession(sid, None);
    CommitOrder(old(db.log), sid);
  }

  /** Statement `s` is logged before statement `t`. */
  ghost predicate Before(log: seq<Store.Statement>, s: Store.Statement, t: Store.Statement) {
    exists i, j | 0 <= i < j < |log| :: log[i] == s && log[j] == t
  }

  /** A write of the chat tables about session `sid`. */
  predicate TurnWrite(st: Store.Statement, sid: string) {
    (st.InsertMessages? || st.InsertChatMessage? || st.UpdateSessionRow?) && st.sessionId == sid
  }

  /** After a committed turn the log has grown by four writes, all about
      the turn's session: the journal row is written before both chat rows,
      the user's row before the assistant's, and the touch comes last. */
  lemma TurnOrder(log: seq<Store.Statement>, sid: string)
    ensures var l := log + ChatCommit(sid);
      && |l| == |log| + 4
      && (forall k | |log| <= k < |l| :: TurnWrite(l[k], sid))
      && Before(l, Store.InsertMessages(sid), Store.InsertChatMessage(sid, "user"))
      && Before(l, Store.InsertMessages(sid), Store.InsertChatMessage(sid, "assistant"))
      && Before(l, Store.InsertChatMessage(sid, "user"), Store.InsertChatMessage(sid, "assistant"))
      && l[|l| - 1] == Store.UpdateSessionRow(sid, None)
  {
    var l, n := log + ChatCommit(sid), |log|;
    assert l[n] == Store.InsertMessages(sid);
    assert l[n + 1] == Store.InsertChatMessage(sid, "user");
    assert l[n + 2] == Store.InsertChatMessage(sid, "assistant");
    assert l[n + 3] == Store.UpdateSessionRow(sid, None);
    forall k | n <= k < |l|
      ensures TurnWrite(l[k], sid)
    {
      assert k == n || k == n + 1 || k == n + 2 || k == n + 3;
    }
  }

  /** Regrouping the four writes as the commit sequence (a proof step). */
  lemma CommitOrder(log: seq<Store.Statement>, sid: string)
    ensures log + [Store.InsertMessages(sid)] + ExchangeLog(sid) + [Store.UpdateSessionRow(sid, None)] == log + ChatCommit(sid)
  {
  }

  /**
   * `chat_stream.stream_messages`: a start frame, the replayed history given
   * to the agent, a content frame per snapshot while the agent streams, then
   * the four writes and the end frame. An exception anywhere ends the stream
   * with one error frame: from the agent, before any write; from the first
   * write when the session does not exist, which the foreign key refuses.
   */
  method StreamChat(db: Store.Database, sid: string, message: string,
                    agent: (string, seq<Agents.ModelMessage>) -> StreamRun,
                    startStamp: string, endStamp: string)
    returns (frames: seq<Frame>)
    requires db.Valid()
    modifies db`journal, db`chat, db`sessions, db`log
    ensures db.Valid()
    ensures var run := agent(message, Store.Replay(old(db.journal), sid));
      && frames == StreamFrames(Start(startStamp), run.snapshots, ChatOutcome(run, sid, old(Store.Ids(db.sessions)), endStamp))
      && (Commits(run, sid, old(Store.Ids(db.sessions))) ==>
           var u := Store.ChatRow(Store.NextId(old(db.chat), Store.ChatId), sid, "user", message, "text", None, db.now);
           var a := Store.ChatRow(Store.NextId(old(db.chat) + [u], Store.ChatId), sid, "assistant", FinalText(run.snapshots), "text", None, db.now);
           && db.journal == old(db.journal) + [Store.JournalRow(Store.NextId(old(db.journal), Store.JournalId), sid, run.batch)]
           && Store.Replay(db.journal, sid) == Store.Replay(old(db.journal), sid) + run.batch
           && db.chat == old(db.chat) + [u, a]
           && Store.Entries(db.chat, sid) == Store.Entries(old(db.chat), sid) + [Store.Entry(u), Store.Entry(a)]
           && db.sessions == Store.TouchAll(old(db.sessions), sid, None, db.now)
           && db.log == old(db.log) + ChatCommit(sid))
      && (!Commits(run, sid, old(Store.Ids(db.sessions))) ==>
           db.journal == old(db.journal) && db.chat == old(db.chat) && db.sessions == old(db.sessions) && db.log == old(db.log))
  {
    var history := db.GetMessages(sid);
    var run := agent(message, history);
    var fullResponse;
    frames, fullResponse := Relay(Start(startStamp), run.snapshots);
    if run.failure.Some? {
      frames := frames + [Error(run.failure.value)];
      return;
    }
    var st := CommitTurn(db, sid, message, fullResponse, run.batch);
    if st.Failed? {
      frames := frames + [Error(st.message)];
    } else {
      frames := frames + [End(endStamp)];
    }
  }

  /**
   * `post_chat_message`: the same turn without streaming. It appends the
   * journal batch and touches the session, and never writes the chat log;
   * an exception becomes an error with status 500.
   */
  method PostChatMessage(db: Store.Database, prompt: string, sid: string,
                         agent: (string, seq<Agents.ModelMessage>) -> Completion, stamp: string)
    returns (r: Reply<Answer>)
    requires db.Valid()
    modifies db`journal, db`sessions, db`log
    ensures db.Valid()
    ensures db.chat == old(db.chat)
    ensures var c := agent(prompt, Store.Replay(old(db.journal), sid));
      && (c.Raised? ==> r == Err(c.message, 500))
      && (c.Completed? && sid !in old(Store.Ids(db.sessions)) ==> r == Err(Store.ForeignKeyFailure, 500))
      && (c.Completed? && sid in old(Store.Ids(db.sessions)) ==>
           && r == Ok(Answer(c.output, stamp))
           && db.journal == old(db.journal) + [Store.JournalRow(Store.NextId(old(db.journal), Store.JournalId), sid, c.batch)]
           && Store.Replay(db.journal, sid) == Store.Replay(old(db.journal), sid) + c.batch
           && db.sessions == Store.TouchAll(old(db.sessions), sid, None, db.now)
           && db.log == old(db.log) + [Store.InsertMessages(sid), Store.UpdateSessionRow(sid, None)])
      && (r.Err? ==> db.journal == old(db.journal) && db.sessions == old(db.sessions) && db.log == old(db.log))
  {
    var history := db.GetMessages(sid);
    var c := agent(prompt, history);
    if c.Raised? {
      return Err(c.message, 500);
    }
    var st := db.AddMessages(sid, c.batch);
    if st.Failed? {
      return Err(st.message, 500);
    }
    db.UpdateSession(sid, None);
    Pair(old(db.log), Store.InsertMessages(sid), Store.UpdateSessionRow(sid, None));
    r := Ok(Answer(c.output, stamp));
  }

  /**
   * `extract_web_content`: the given text cut to 5000 characters, else a
   * placeholder naming the url, else an error with status 400.
   */
  function ExtractWebContent(content: Option<string>, url: Option<string>): (r: Reply<Extracted>)
    ensures r.Err? <==> !Given(content) && !Given(url)
    ensures r.Err? ==> r.message == NoInputMessage && r.code == 400
    ensures Given(content) ==>
      && r.Ok? && r.value.title == UserContentTitle
      && r.value.content <= content.value
      && |r.value.content| == (if |content.value| <= ExtractLimit then |content.value| else ExtractLimit)
      && r.value.url == (if Given(url) then url.value else MissingUrl)
    ensures !Given(content) && Given(url) ==>
      && r.Ok? && r.value.title == UrlContentTitle
      && r.value.url == url.value
      && r.value.content == "Content from " + url.value
  {
    if Given(content) then
      Ok(Extracted(UserContentTitle, Prefix(content.value, ExtractLimit), OrElse(url, MissingUrl)))
    else if Given(url) then
      Ok(Extracted(UrlContentTitle, "Content from " + url.value, url.value))
    else
      Err(NoInputMessage, 400)
  }

  /** The prompt of a web task: the url or "N/A", and the first 3000
      characters of the page text or "" (all of it when shorter). */
  function WebTaskPrompt(task: WebTask, content: Option<string>, url: Option<string>): (p: WebPrompt)
    ensures p.task == task
    ensures p.url == OrElse(url, MissingUrl)
    ensures p.excerpt <= OrElse(content, "")
    ensures |p.excerpt| == if |OrElse(content, "")| <= PromptLimit then |OrElse(content, "")| else PromptLimit
  {
    WebPrompt(task, OrElse(url, MissingUrl), Prefix(OrElse(content, ""), PromptLimit))
  }

  /**
   * `summarize_web` and `web_to_json`: a start frame carrying the url, a
   * content frame per snapshot, then a bare end frame, or an error frame
   * when the agent raises. Nothing is stored.
   */
  method StreamWebTask(task: WebTask, content: Option<string>, url: Option<string>, agent: WebPrompt -> StreamRun)
    returns (frames: seq<Frame>)
    ensures var run := agent(WebTaskPrompt(task, content, url));
      frames == StreamFrames(StartUrl(OrElse(url, MissingUrl)), run.snapshots,
                             if run.failure.Some? then Error(run.failure.value) else EndPlain)
    ensures WellFormed(frames)
  {
    var page := OrElse(content, "");
    var shownUrl := OrElse(url, MissingUrl);
    var prompt := WebPrompt(task, shownUrl, Prefix(page, PromptLimit));
    var run := agent(prompt);
    var fullResponse;
    frames, fullResponse := Relay(StartUrl(shownUrl), run.snapshots);
    var last := if run.failure.Some? then Error(run.failure.value) else EndPlain;
    frames := frames + [last];
    StreamFramesWellFormed(StartUrl(shownUrl), run.snapshots, last);
  }

  /** The two chat entries `generate_image` writes for a drawing. */
  function DrawRequestText(prompt: string): string {
    DrawPrefix + prompt
  }

  function DrawReplyText(prompt: string): string {
    DrawReplyPrefix + prompt
  }

  /** The chat side of a drawing: the request, the image entry, the
      touch. The foreign key refuses the first row of an unknown session,
      and then nothing of it is written. */
  method RecordDrawing(db: Store.Database, sid: string, prompt: string, imageUrl: string) returns (st: Store.Status)
    requires db.Valid()
    modifies db`chat, db`sessions, db`log
    ensures db.Valid()
    ensures db.draws == old(db.draws)
    ensures st.Done? <==> sid in old(Store.Ids(db.sessions))
    ensures st.Failed? ==> st.message == Store.ForeignKeyFailure
    ensures st.Done? ==>
      var u := Store.ChatRow(Store.NextId(old(db.chat), Store.ChatId), sid, "user", DrawRequestText(prompt), "text", None, db.now);
      var a := Store.ChatRow(Store.NextId(old(db.chat) + [u], Store.ChatId), sid, "assistant", DrawReplyText(prompt),
                             "image", Some(imageUrl), db.now);
      && db.chat == old(db.chat) + [u, a]
      && db.sessions == Store.TouchAll(old(db.sessions), sid, None, db.now)
      && db.log == old(db.log) + ExchangeLog(sid) + [Store.UpdateSessionRow(sid, None)]
    ensures st.Failed? ==> db.chat == old(db.chat) && db.sessions == old(db.sessions) && db.log == old(db.log)
  {
    st := db.AddChatMessage(sid, "user", DrawRequestText(prompt));
    if st.Failed? {
      return;
    }
    ghost var middle := db.chat;
    var st2 := db.AddChatMessage(sid, "assistant", DrawReplyText(prompt), "image", Some(imageUrl));
    Pair(old(db.chat), middle[|old(db.chat)|], db.chat[|middle|]);
    ExchangeOrder(old(db.log), sid);
    db.UpdateSession(sid, None);
  }

  /**
   * What `generate_image` stores after the image service answered with
   * `imageUrl` (None when it returned no data). With an image, the draw
   * history gets a row; with a session id as well, the chat log gets the
   * request and an image entry and the session is touched. The foreign key
   * refuses the first chat row of an unknown session: the exception becomes
   * an error with status 500, and the draw row already written stays.
   */
  method PersistDrawing(db: Store.Database, prompt: string, imageUrl: Option<string>, model: string, size: string,
                        sid: Option<string>)
    returns (r: Reply<Drawing>)
    requires db.Valid()
    modifies db`draws, db`chat, db`sessions, db`log
    ensures db.Valid()
    ensures Given(imageUrl) ==>
      db.draws == old(db.draws) + [Store.DrawRow(Store.NextId(old(db.draws), Store.DrawId), prompt, imageUrl.value, Some(model),
                                                 Some(Store.SizeParameters(size)), db.now)]
    ensures !Given(imageUrl) ==> db.draws == old(db.draws)
    ensures r.Err? <==> Given(imageUrl) && Given(sid) && sid.value !in old(Store.Ids(db.sessions))
    ensures r.Err? ==> r == Err(Store.ForeignKeyFailure, 500)
    ensures r.Ok? ==> r.value == Drawing(prompt, imageUrl)
    ensures Given(imageUrl) && Given(sid) && sid.value in old(Store.Ids(db.sessions)) ==>
      var u := Store.ChatRow(Store.NextId(old(db.chat), Store.ChatId), sid.value, "user", DrawRequestText(prompt), "text", None, db.now);
      var a := Store.ChatRow(Store.NextId(old(db.chat) + [u], Store.ChatId), sid.value, "assistant", DrawReplyText(prompt),
                             "image", imageUrl, db.now);
      && db.chat == old(db.chat) + [u, a]
      && db.sessions == Store.TouchAll(old(db.sessions), sid.value, None, db.now)
      && db.log == old(db.log) + [Store.InsertDraw(prompt)] + ExchangeLog(sid.value) + [Store.UpdateSessionRow(sid.value, None)]
    ensures !(Given(imageUrl) && Given(sid) && sid.value in old(Store.Ids(db.sessions))) ==>
      db.chat == old(db.chat) && db.sessions == old(db.sessions)
  {
    if Given(imageUrl) {
      db.SaveDrawHistory(prompt, imageUrl.value, model, size);
      if Given(sid) {
        ghost var logged := db.log;
        var st := RecordDrawing(db, sid.value, prompt, imageUrl.value);
        if st.Failed? {
          return Err(st.message, 500);
        }
        assert db.log == logged + ExchangeLog(sid.value) + [Store.UpdateSessionRow(sid.value, None)];
      }
    }
    r := Ok(Drawing(prompt, imageUrl));
  }

  /** An HTTP response: status code and JSON body. */
  datatype Json = JString(s: string) | JInt(n: int) | JObject(members: seq<(string, Json)>) | JArray(items: seq<Json>)
  datatype Response = Response(status: int, body: Json)

  /** The error object `{'error': message}`. */
  function ErrorBody(message: string): (j: Json)
    ensures j.JObject? && |j.members| == 1 && j.members[0] == ("error", JString(message))
  {
    JObject([("error", JString(message))])
  }

  /**
   * What FastAPI sends for the value a handler returns. A dict goes out as
   * an object with status 200. The source returns its errors as a tuple
   * `({'error': message}, code)`: FastAPI has no special case for tuples,
   * so it encodes one as a JSON array and still answers 200.
   */
  function RenderAsWritten<T>(r: Reply<T>, fields: T -> seq<(string, Json)>): Response {
    match r
    case Ok(v) => Response(200, JObject(fields(v)))
    case Err(message, code) => Response(200, JArray([ErrorBody(message), JInt(code)]))
  }

  /** The error of `extract_web_content` and the exception of
      `post_chat_message` both reach the client as a success whose body is
      an array, not an object with an "error" key. */
  lemma ErrorTupleIsSuccess<T>(r: Reply<T>, fields: T -> seq<(string, Json)>)
    requires r.Err?
    ensures RenderAsWritten(r, fields).status == 200
    ensures RenderAsWritten(r, fields).body.JArray?
    ensures RenderAsWritten(r, fields).body != ErrorBody(r.message)
  {
  }

  /** What the source means by the tuple: the error object, sent with the
      paired status code (`JSONResponse(status_code=code, ...)`). */
  function Render<T>(r: Reply<T>, fields: T -> seq<(string, Json)>): (resp: Response)
    ensures r.Ok? ==> resp.status == 200 && resp.body == JObject(fields(r.value))
    ensures r.Err? ==> resp.status == r.code && resp.body == ErrorBody(r.message)
  {
    match r
    case Ok(v) => Response(200, JObject(fields(v)))
    case Err(message, code) => Response(code, ErrorBody(message))
  }

  function ExtractedFields(e: Extracted): seq<(string, Json)> {
    [("title", JString(e.title)), ("content", JString(e.content)), ("url", JString(e.url))]
  }

  /** With the intended rendering, a request to `/api/web/extract` without
      content or url is refused with 400 and an "error" key. */
  lemma ExtractRefusal(content: Option<string>, url: Option<string>)
    requires !Given(content) && !Given(url)
    ensures Render(ExtractWebContent(content, url), ExtractedFields).status == 400
    ensures Render(ExtractWebContent(content, url), ExtractedFields).body == ErrorBody(NoInputMessage)
    ensures RenderAsWritten(ExtractWebContent(content, url), ExtractedFields).status == 200
  {
  }
}
