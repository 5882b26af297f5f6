/**
 * The logic of the embedded chat widget (frontend/embedded/popup.js) that
 * is not DOM work: cleaning the page text, the keyword tests that pick an
 * intent, the state the widget keeps (`isOpen`, `selectedText`,
 * `currentSessionId`, `sessionPromise`), what `sendMessage` does with a
 * message, and the loop that reassembles stream lines from chunks.
 *
 * Strings are JavaScript strings: UTF-16 code units (JsText). What the
 * page, the selection and the network deliver comes in as parameters.
 */
module Popup {

  import opened Wrappers
  import opened JsText
  import FrameParse

  // ---------------------------------------------------------------------
  // extractPageContent
  // ---------------------------------------------------------------------

  const MaxPageLength := 3000
  const Ellipsis: JsString := [0x2E, 0x2E, 0x2E]

  /** What the page offers: `document.title`, `document.body.innerText`
      and `window.location.href`. */
  datatype Page = Page(title: JsString, bodyText: JsString, url: JsString)

  /** What `extractPageContent` returns. */
  datatype PageContent = PageContent(title: JsString, content: JsString, url: JsString)

  /** `.map(line => line.trim()).filter(line => line.length > 0)`. */
  function NonBlank(lines: seq<JsString>): (r: seq<JsString>)
    ensures |r| <= |lines|
    ensures forall i | 0 <= i < |r| :: r[i] != [] && Trim(r[i]) == r[i]
  {
    if lines == [] then []
    else
      var t := Trim(lines[0]);
      TrimIdempotent(lines[0]);
      (if t == [] then [] else [t]) + NonBlank(lines[1..])
  }

  /** A trimmed piece of a line-feed-free string holds no line feed. */
  lemma {:induction false} NonBlankPieces(lines: seq<JsString>)
    requires forall i, k | 0 <= i < |lines| && 0 <= k < |lines[i]| :: lines[i][k] != NL
    ensures forall i, k | 0 <= i < |NonBlank(lines)| && 0 <= k < |NonBlank(lines)[i]| :: NonBlank(lines)[i][k] != NL
  {
    if lines != [] {
      NonBlankPieces(lines[1..]);
      var t := Trim(lines[0]);
      forall k | 0 <= k < |t|
        ensures t[k] != NL
      {
        var rest := lines[0][LeadingSpaces(lines[0])..];
        assert t[k] == lines[0][LeadingSpaces(lines[0]) + k];
      }
    }
  }

  /** Lines whose every entry is already trimmed and non-empty pass
      through unchanged. */
  lemma {:induction false} NonBlankFixed(lines: seq<JsString>)
    requires forall i | 0 <= i < |lines| :: lines[i] != [] && Trim(lines[i]) == lines[i]
    ensures NonBlank(lines) == lines
  {
    if lines != [] {
      NonBlankFixed(lines[1..]);
      assert lines == [lines[0]] + lines[1..];
    }
  }

  /** The cleaned text: every line trimmed, empty lines dropped, joined
      again with line feeds. */
  function Clean(text: JsString): JsString {
    Join(NonBlank(Split(text)))
  }

  /** The lines of the cleaned text are the non-blank lines of the page,
      trimmed: none is empty and none starts or ends with white space. */
  lemma CleanLines(text: JsString)
    requires Clean(text) != []
    ensures Split(Clean(text)) == NonBlank(Split(text))
    ensures forall i | 0 <= i < |Split(Clean(text))| :: Split(Clean(text))[i] != [] && Trim(Split(Clean(text))[i]) == Split(Clean(text))[i]
  {
    var lines := NonBlank(Split(text));
    assert lines != [];
    SplitPieces(text);
    NonBlankPieces(Split(text));
    SplitJoin(lines);
  }

  /** Cleaning is idempotent: a cleaned text is left as it is. */
  lemma CleanIdempotent(text: JsString)
    ensures Clean(Clean(text)) == Clean(text)
  {
    if Clean(text) == [] {
      assert Split([]) == [[]];
      assert Trim([]) == [];
      assert NonBlank([[]]) == [];
    } else {
      CleanLines(text);
      NonBlankFixed(NonBlank(Split(text)));
    }
  }

  /** `cleanText.length > 3000 ? cleanText.substring(0, 3000) + '...' : cleanText`. */
  function Truncate(text: JsString): (r: JsString)
    ensures |text| <= MaxPageLength ==> r == text
    ensures |text| > MaxPageLength ==> |r| == MaxPageLength + 3 && r[..MaxPageLength] == text[..MaxPageLength] && r[MaxPageLength..] == Ellipsis
    ensures |r| <= MaxPageLength + 3
  {
    if |text| > MaxPageLength then text[..MaxPageLength] + Ellipsis else text
  }

  /** `extractPageContent`. */
  function ExtractPageContent(page: Page): (r: PageContent)
    ensures r.title == page.title && r.url == page.url
    ensures |r.content| <= MaxPageLength + 3
    ensures |Clean(page.bodyText)| <= MaxPageLength ==> r.content == Clean(page.bodyText)
    ensures |Clean(page.bodyText)| > MaxPageLength ==>
      r.content == Clean(page.bodyText)[..MaxPageLength] + Ellipsis
  {
    PageContent(page.title, Truncate(Clean(page.bodyText)), page.url)
  }

  // ---------------------------------------------------------------------
  // The keyword tests
  // ---------------------------------------------------------------------

  const SummarizeWords: seq<string> := ["总结", "摘要", "概括", "归纳", "这个网页", "这个页面", "当前页面", "当前网页", "网页内容", "页面内容"]
  const SearchWords: seq<string> := ["找", "搜索", "查找", "寻找", "在页面", "在网页", "页面里", "网页里", "有没有", "哪里有"]
  const ExplainWords: seq<string> := ["解释", "说明", "什么意思", "是什么", "讲解", "翻译"]
  const CopyWords: seq<string> := ["复制网页", "复制html", "复制页面", "导出html", "获取html", "网页源码", "页面代码"]

  /** A keyword list as JavaScript strings. */
  function Keywords(words: seq<string>): (r: seq<JsString>)
    ensures |r| == |words|
    ensures forall j | 0 <= j < |words| :: r[j] == ToUtf16(words[j])
  {
    seq(|words|, j requires 0 <= j < |words| => ToUtf16(words[j]))
  }

  /** `keywords.some(keyword => message.toLowerCase().includes(keyword))`. */
  function Mentions(message: JsString, words: seq<string>): (r: bool)
    ensures r <==> exists j | 0 <= j < |words| :: Includes(Lower(message), ToUtf16(words[j]))
  {
    var ks := Keywords(words);
    var r := IncludesAny(Lower(message), ks);
    assert r <==> exists j | 0 <= j < |ks| :: Includes(Lower(message), ks[j]);
    r
  }

  /** `shouldSummarizePage`. */
  predicate ShouldSummarizePage(message: JsString) {
    Mentions(message, SummarizeWords)
  }

  /** `shouldSearchPage`. */
  predicate ShouldSearchPage(message: JsString) {
    Mentions(message, SearchWords)
  }

  /** `shouldCopyPageHTML`. */
  predicate ShouldCopyPageHtml(message: JsString) {
    Mentions(message, CopyWords)
  }

  /** `shouldExplainSelection`: a keyword and a non-empty selection. */
  predicate ShouldExplainSelection(message: JsString, selectedText: JsString) {
    Mentions(message, ExplainWords) && selectedText != []
  }

  /** The tests ignore case: a message and its lower-case form agree. */
  lemma MentionsIgnoresCase(message: JsString, words: seq<string>)
    ensures Mentions(Lower(message), words) == Mentions(message, words)
  {
    LowerIdempotent(message);
  }

  /** A message that holds a keyword, whatever surrounds it, passes the
      test, provided the keyword is its own lower-case form (as every
      keyword above is). */
  lemma MentionedAnywhere(before: JsString, after: JsString, words: seq<string>, j: int)
    requires 0 <= j < |words| && Lower(ToUtf16(words[j])) == ToUtf16(words[j])
    ensures Mentions(before + ToUtf16(words[j]) + after, words)
  {
    var k := ToUtf16(words[j]);
    var m := before + k + after;
    LowerAppend(before + k, after);
    LowerAppend(before, k);
    var lm := Lower(before) + k + Lower(after);
    assert lm[|Lower(before)|..|Lower(before)| + |k|] == k;
    assert OccursAt(lm, k, |Lower(before)|);
  }

  // ---------------------------------------------------------------------
  // The intent of a message
  // ---------------------------------------------------------------------

  /** What `sendMessage` does with a message, in the order it tests. */
  datatype Intent = CopyHtml | Explain | Search | Summarize | Plain

  /** The first test that holds picks the intent; explaining needs a
      selection as well as a keyword. */
  function Classify(message: JsString, selectedText: JsString): (i: Intent)
    ensures i == CopyHtml <==> ShouldCopyPageHtml(message)
    ensures i == Explain <==> !ShouldCopyPageHtml(message) && ShouldExplainSelection(message, selectedText)
    ensures i == Search <==>
      !ShouldCopyPageHtml(message) && !ShouldExplainSelection(message, selectedText) && ShouldSearchPage(message)
    ensures i == Summarize <==>
      && !ShouldCopyPageHtml(message) && !ShouldExplainSelection(message, selectedText)
      && !ShouldSearchPage(message) && ShouldSummarizePage(message)
    ensures i == Explain ==> selectedText != []
  {
    if ShouldCopyPageHtml(message) then CopyHtml
    else if ShouldExplainSelection(message, selectedText) then Explain
    else if ShouldSearchPage(message) then Search
    else if ShouldSummarizePage(message) then Summarize
    else Plain
  }

  /** With no selection a message is never explained, whatever it says. */
  lemma NoSelectionNoExplain(message: JsString)
    ensures Classify(message, []) != Explain
  {
  }

  /** The request `sendMessage` builds for the chat stream. The wording of
      the instructions around these parts is not modelled. */
  datatype Prompt =
    | ExplainPrompt(question: JsString, selection: JsString, title: JsString, excerpt: JsString)
    | SearchPrompt(question: JsString, page: PageContent)
    | SummaryPrompt(question: JsString, page: PageContent)
    | PlainPrompt(question: JsString)

  const ExcerptLength := 500

  /** The prompt for an intent other than copying. */
  function PromptFor(intent: Intent, question: JsString, selectedText: JsString, page: Page): (p: Prompt)
    requires intent != CopyHtml
    ensures intent == Explain <==> p.ExplainPrompt?
    ensures intent == Search <==> p.SearchPrompt?
    ensures intent == Summarize <==> p.SummaryPrompt?
    ensures intent == Plain <==> p == PlainPrompt(question)
    ensures p.question == question
    ensures p.ExplainPrompt? ==>
      && p.selection == selectedText
      && p.title == ExtractPageContent(page).title
      && p.excerpt <= ExtractPageContent(page).content
      && |p.excerpt| == if |ExtractPageContent(page).content| <= ExcerptLength then |ExtractPageContent(page).content| else ExcerptLength
    ensures p.SearchPrompt? || p.SummaryPrompt? ==> p.page == ExtractPageContent(page)
  {
    var content := ExtractPageContent(page);
    match intent
    case Explain =>
      var excerpt := if |content.content| <= ExcerptLength then content.content else content.content[..ExcerptLength];
      ExplainPrompt(question, selectedText, content.title, excerpt)
    case Search => SearchPrompt(question, content)
    case Summarize => SummaryPrompt(question, content)
    case Plain => PlainPrompt(question)
  }

  // ---------------------------------------------------------------------
  // The widget
  // ---------------------------------------------------------------------

  /** How the session creation started by `init` settles: with the id the
      server returned, or rejected with the error's message. */
  datatype Creation = Created(id: string) | Rejected(message: string)

  /** A step that can fail with a message. */
  datatype Outcome<T> = Success(value: T) | Failure(message: string)

  /** What `sendMessage` ends with, before the stream is read. */
  datatype Sent = Ignored | Failed(message: string) | CopiedHtml | Asked(sessionId: string, prompt: Prompt)

  const NoSessionMessage := "会话未创建"
  const SelectionLimit := 500

  /** `!!currentSessionId`: a session id that is set and not empty. */
  predicate HasSession(id: Option<string>) {
    id.Some? && id.value != ""
  }

  /** The session id after `ensureSession`: an id already set is kept,
      otherwise the pending creation's id is taken when it succeeded. */
  function Resolved(current: Option<string>, promise: Option<Creation>): Option<string> {
    if !HasSession(current) && promise.Some? && promise.value.Created? then Some(promise.value.id) else current
  }

  /** The message `ensureSession` rejects with: the failed creation's own
      message, or the fixed one when no id came back. */
  function RejectionMessage(promise: Option<Creation>): string {
    if promise.Some? && promise.value.Rejected? then promise.value.message else NoSessionMessage
  }

  /** The selection rule of `initTextSelection`: the trimmed selection when
      it has 1 to 499 code units, nothing for an empty selection, and the
      previous value for a longer one. */
  function Selected(previous: JsString, selection: JsString): (r: JsString)
    ensures Trim(selection) == [] ==> r == []
    ensures 0 < |Trim(selection)| < SelectionLimit ==> r == Trim(selection)
    ensures |Trim(selection)| >= SelectionLimit ==> r == previous
  {
    var text := Trim(selection);
    if 0 < |text| < SelectionLimit then text
    else if |text| == 0 then []
    else previous
  }

  /** A stored selection is trimmed and shorter than the limit. */
  predicate SelectionOk(text: JsString) {
    |text| < SelectionLimit && Trim(text) == text
  }

  lemma SelectedOk(previous: JsString, selection: JsString)
    requires SelectionOk(previous)
    ensures SelectionOk(Selected(previous, selection))
  {
    TrimIdempotent(selection);
  }

  class Widget {
    var isOpen: bool
    var selectedText: JsString
    var currentSessionId: Option<string>
    var sessionPromise: Option<Creation>

    /** The widget's own invariant: the selection it holds is one the
        selection rule could have stored. */
    predicate Valid()
      reads this
    {
      SelectionOk(selectedText)
    }

    /** `init`: closed, nothing selected, no session yet, and the session
        creation under way. */
    constructor (creation: Creation)
      ensures Valid()
      ensures !isOpen && selectedText == [] && currentSessionId == None && sessionPromise == Some(creation)
    {
      isOpen := false;
      selectedText := [];
      currentSessionId := None;
      sessionPromise := Some(creation);
    }

    /** `open`. */
    method Open()
      modifies this`isOpen
      ensures isOpen
    {
      isOpen := true;
    }

    /** `close`. */
    method Close()
      modifies this`isOpen
      ensures !isOpen
    {
      isOpen := false;
    }

    /** `toggle`. */
    method Toggle()
      modifies this`isOpen
      ensures isOpen == !old(isOpen)
    {
      if isOpen {
        Close();
      } else {
        Open();
      }
    }

    /** The `mouseup` listener of `initTextSelection`. */
    method OnMouseUp(selection: JsString)
      requires Valid()
      modifies this`selectedText
      ensures Valid()
      ensures selectedText == Selected(old(selectedText), selection)
    {
      SelectedOk(selectedText, selection);
      var text := Trim(selection);
      if 0 < |text| < SelectionLimit {
        selectedText := text;
      } else if |text| == 0 {
        selectedText := [];
      }
    }

    /** `ensureSession`: with no id yet, wait for the pending creation; fail
        if there is still no id. */
    method EnsureSession() returns (r: Outcome<string>)
      modifies this`currentSessionId
      ensures HasSession(old(currentSessionId)) ==> currentSessionId == old(currentSessionId)
      ensures !HasSession(old(currentSessionId)) && sessionPromise.Some? && sessionPromise.value.Created? ==>
        currentSessionId == Some(sessionPromise.value.id)
      ensures !HasSession(old(currentSessionId)) && !(sessionPromise.Some? && sessionPromise.value.Created?) ==>
        currentSessionId == old(currentSessionId)
      ensures r.Success? <==> HasSession(currentSessionId)
      ensures r.Success? ==> r.value == currentSessionId.value
      ensures r.Failure? && !HasSession(old(currentSessionId)) && sessionPromise.Some? && sessionPromise.value.Rejected? ==>
        r.message == sessionPromise.value.message
      ensures r.Failure? && !(sessionPromise.Some? && sessionPromise.value.Rejected?) ==> r.message == NoSessionMessage
      ensures currentSessionId == Resolved(old(currentSessionId), sessionPromise)
      ensures r.Failure? ==> r.message == RejectionMessage(sessionPromise)
    {
      if !HasSession(currentSessionId) && sessionPromise.Some? {
        match sessionPromise.value
        case Rejected(message) =>
          return Failure(message);
        case Created(id) =>
          currentSessionId := Some(id);
      }
      if !HasSession(currentSessionId) {
        return Failure(NoSessionMessage);
      }
      r := Success(currentSessionId.value);
    }

    /**
     * `sendMessage`, up to the request it sends. A message that is empty
     * once trimmed does nothing. Otherwise the session must exist; a
     * request to copy the page is served without the server; an
     * explanation uses up the selection.
     */
    method SendMessage(input: JsString, page: Page) returns (sent: Sent)
      requires Valid()
      modifies this`selectedText, this`currentSessionId
      ensures Valid()
      ensures Trim(input) == [] ==>
        sent == Ignored && selectedText == old(selectedText) && currentSessionId == old(currentSessionId)
      ensures sent.Failed? || sent == CopiedHtml ==> selectedText == old(selectedText)
      ensures sent.Asked? ==>
        var intent := Classify(Trim(input), old(selectedText));
        && intent != CopyHtml
        && sent.prompt == PromptFor(intent, Trim(input), old(selectedText), page)
        && HasSession(currentSessionId) && sent.sessionId == currentSessionId.value
        && selectedText == (if intent == Explain then [] else old(selectedText))
      ensures Trim(input) != [] ==>
        (sent.Failed? <==> !HasSession(currentSessionId))
        && (sent == CopiedHtml <==> HasSession(currentSessionId) && Classify(Trim(input), old(selectedText)) == CopyHtml)
        && sent != Ignored
      ensures Trim(input) != [] ==> currentSessionId == Resolved(old(currentSessionId), sessionPromise)
      ensures sent.Failed? ==> sent.message == RejectionMessage(sessionPromise)
    {
      var message := Trim(input);
      if message == [] {
        return Ignored;
      }
      var session := EnsureSession();
      if session.Failure? {
        return Failed(session.message);
      }
      var intent := Classify(message, selectedText);
      if intent == CopyHtml {
        return CopiedHtml;
      }
      var prompt := PromptFor(intent, message, selectedText, page);
      if intent == Explain {
        selectedText := [];
      }
      sent := Asked(session.value, prompt);
    }
  }

  // ---------------------------------------------------------------------
  // Reading the stream
  // ---------------------------------------------------------------------

  /** The chunks the reader delivers, decoded and concatenated. */
  function Concat(chunks: seq<JsString>): JsString {
    if chunks == [] then [] else Concat(chunks[..|chunks| - 1]) + chunks[|chunks| - 1]
  }

  /** A line the loop acts on: not blank, and a content frame. */
  predicate IsContentLine(line: JsString) {
    Trim(line) != [] && FrameParse.ContentOf(line).Some?
  }

  /** What the message shows after one more complete line. */
  function Step(shown: JsString, line: JsString): JsString {
    if IsContentLine(line) then FrameParse.ContentOf(line).value else shown
  }

  /** What the message shows after the given complete lines, starting from
      `shown`: each content line replaces the text before it. */
  function Displayed(lines: seq<JsString>, shown: JsString): JsString {
    if lines == [] then shown
    else Step(Displayed(lines[..|lines| - 1], shown), lines[|lines| - 1])
  }

  /** Line `i` is the last content line of `lines`. */
  predicate LastContentLine(lines: seq<JsString>, i: int) {
    0 <= i < |lines| && IsContentLine(lines[i]) && forall j | i < j < |lines| :: !IsContentLine(lines[j])
  }

  /** Only the last content frame counts: the message shows its text. */
  lemma {:induction false} DisplayedLast(lines: seq<JsString>, shown: JsString, i: int)
    requires LastContentLine(lines, i)
    ensures Displayed(lines, shown) == FrameParse.ContentOf(lines[i]).value
    decreases |lines|
  {
    var init, last := lines[..|lines| - 1], lines[|lines| - 1];
    if i < |lines| - 1 {
      assert !IsContentLine(last);
      assert LastContentLine(init, i) by {
        assert init[i] == lines[i];
        forall j | i < j < |init|
          ensures !IsContentLine(init[j])
        {
          assert init[j] == lines[j];
        }
      }
      DisplayedLast(init, shown, i);
    }
  }

  /** Without a content frame the message keeps what it showed. */
  lemma {:induction false} DisplayedNone(lines: seq<JsString>, shown: JsString)
    requires forall i | 0 <= i < |lines| :: !IsContentLine(lines[i])
    ensures Displayed(lines, shown) == shown
    decreases |lines|
  {
    if lines != [] {
      var init := lines[..|lines| - 1];
      assert forall i | 0 <= i < |init| :: init[i] == lines[i];
      DisplayedNone(init, shown);
    }
  }

  lemma {:induction false} DisplayedAppend(a: seq<JsString>, b: seq<JsString>, shown: JsString)
    ensures Displayed(a + b, shown) == Displayed(b, Displayed(a, shown))
    decreases |b|
  {
    if b == [] {
      assert a + b == a;
    } else {
      var b' := b[..|b| - 1];
      assert (a + b)[..|a + b| - 1] == a + b';
      DisplayedAppend(a, b', shown);
    }
  }

  /** Receiving one more chunk: the lines it completes are those of the
      kept piece followed by the chunk, acted on after the earlier ones. */
  lemma DisplayedStep(received: JsString, chunk: JsString)
    ensures Displayed(CompleteLines(received + chunk), [])
         == Displayed(CompleteLines(Tail(received) + chunk), Displayed(CompleteLines(received), []))
    ensures Tail(received + chunk) == Tail(Tail(received) + chunk)
  {
    CompleteLinesAppend(received, chunk);
    DisplayedAppend(CompleteLines(received), CompleteLines(Tail(received) + chunk), []);
  }

  lemma ConcatStep(chunks: seq<JsString>, k: nat)
    requires k < |chunks|
    ensures Concat(chunks[..k + 1]) == Concat(chunks[..k]) + chunks[k]
  {
    assert chunks[..k + 1][..k] == chunks[..k];
  }

  /** The `for (const line of lines)` loop: blank lines are skipped, a
      content frame replaces the text shown, any other line is ignored. */
  method ShowLines(lines: seq<JsString>, before: JsString) returns (shown: JsString)
    ensures shown == Displayed(lines, before)
  {
    shown := before;
    var j := 0;
    while j < |lines|
      invariant 0 <= j <= |lines|
      invariant shown == Displayed(lines[..j], before)
    {
      var line := lines[j];
      if Trim(line) != [] {
        match FrameParse.ContentOf(line)
        case Some(text) =>
          shown := text;
        case None =>
      }
      assert lines[..j + 1][..j] == lines[..j];
      j := j + 1;
    }
    assert lines[..j] == lines;
  }

  /**
   * The `while (true)` loop of `sendMessage`: append each chunk to the
   * buffer, split it, act on every complete line and keep the unfinished
   * last piece. The message ends up showing the text of the last content
   * frame among the complete lines of everything received; a last piece
   * without a line feed is never read.
   */
  method ReadStream(chunks: seq<JsString>) returns (shown: JsString)
    ensures shown == Displayed(CompleteLines(Concat(chunks)), [])
  {
    shown := [];
    var buffer: JsString := [];
    var k := 0;
    while k < |chunks|
      invariant 0 <= k <= |chunks|
      invariant buffer == Tail(Concat(chunks[..k]))
      invariant shown == Displayed(CompleteLines(Concat(chunks[..k])), [])
    {
      ConcatStep(chunks, k);
      DisplayedStep(Concat(chunks[..k]), chunks[k]);
      buffer, shown := Feed(buffer, shown, chunks[k]);
      k := k + 1;
    }
    assert chunks[..k] == chunks;
  }

  /** One pass of the read loop: the chunk is appended to the buffer, the
      complete lines are shown in turn, and the unfinished piece is kept
      as the new buffer. */
  method Feed(buffer: JsString, shown: JsString, chunk: JsString) returns (buffer': JsString, shown': JsString)
    ensures buffer' == Tail(buffer + chunk)
    ensures shown' == Displayed(CompleteLines(buffer + chunk), shown)
  {
    var lines := Split(buffer + chunk);
    shown' := ShowLines(lines[..|lines| - 1], shown);
    buffer' := lines[|lines| - 1];
  }
}
