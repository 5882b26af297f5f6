/**
 * The agent configuration and the conversion of one stored agent-protocol
 * message into a display record (backend/agents.py).
 *
 * Messages are a closed variant type: a request from the client side (user
 * prompt, system prompt, tool return, retry prompt parts) or a response from
 * the model (text, tool call, thinking parts). Time stamps are the ISO-8601
 * strings the runtime attaches; the wall clock is a parameter.
 */
module Agents {

  /** The content of a user prompt: plain text, or a list of items such as
      images, which is not a string. */
  datatype UserContent = Plain(text: string) | Items(items: seq<string>)

  datatype RequestPart =
    | UserPrompt(content: UserContent, timestamp: string)
    | SystemPrompt(text: string)
    | ToolReturn(toolName: string, output: string)
    | RetryPrompt(text: string)

  datatype ResponsePart =
    | TextPart(text: string)
    | ToolCall(toolName: string, args: string)
    | ThinkingPart(text: string)

  datatype ModelMessage =
    | ModelRequest(requestParts: seq<RequestPart>)
    | ModelResponse(responseParts: seq<ResponsePart>, timestamp: string)
  {
    /** The number of parts, whatever their kind. */
    function PartCount(): nat {
      match this
      case ModelRequest(ps) => |ps|
      case ModelResponse(ps, _) => |ps|
    }
  }

  datatype Role = User | Assistant | Unknown {
    /** The role as it is written into the display record. */
    function Name(): string {
      match this
      case User => "user"
      case Assistant => "assistant"
      case Unknown => "unknown"
    }
  }

  /** What a display record shows: a text, or the message's own printed
      representation (Python's `str(m)`), which this model keeps opaque. */
  datatype Shown = Text(text: string) | ReprOf(message: ModelMessage)

  /** The display record: role, time stamp and content. */
  datatype ChatView = ChatView(role: Role, timestamp: string, content: Shown)

  /** The agent the handlers run: one model behind an OpenAI-compatible
      provider. */
  datatype Agent = Agent(modelName: string)

  const ZhipuModelName := "glm-4-flashx"

  /** `get_agent`: only the Zhipu agent exists, whatever name is asked for. */
  function GetAgent(name: string): (a: Agent)
    ensures a.modelName == ZhipuModelName
  {
    Agent(ZhipuModelName)
  }

  /** `to_chat_message`: a message whose first part is a user prompt with
      string content is the user's, one whose first part is text is the
      assistant's; everything else, including a message without parts, is
      of unknown role. `now` is the wall clock at the time of the call. */
  function ToChatMessage(m: ModelMessage, now: string): (r: ChatView)
    ensures r.role.Name() in {"user", "assistant", "unknown"}
    ensures m.PartCount() == 0 ==> r == ChatView(Unknown, now, Text(""))
    ensures r.role == User <==>
      m.ModelRequest? && |m.requestParts| > 0
      && m.requestParts[0].UserPrompt? && m.requestParts[0].content.Plain?
    ensures r.role == Assistant <==>
      m.ModelResponse? && |m.responseParts| > 0 && m.responseParts[0].TextPart?
    ensures r.role == User ==>
      r.content == Text(m.requestParts[0].content.text) && r.timestamp == m.requestParts[0].timestamp
    ensures r.role == Assistant ==>
      r.content == Text(m.responseParts[0].text) && r.timestamp == m.timestamp
    ensures r.role == Unknown && m.PartCount() > 0 ==> r == ChatView(Unknown, now, ReprOf(m))
  {
    if m.PartCount() == 0 then ChatView(Unknown, now, Text(""))
    else
      match m
      case ModelRequest(parts) =>
        (match parts[0]
         case UserPrompt(Plain(text), stamp) => ChatView(User, stamp, Text(text))
         case _ => ChatView(Unknown, now, ReprOf(m)))
      case ModelResponse(parts, stamp) =>
        (match parts[0]
         case TextPart(text) => ChatView(Assistant, stamp, Text(text))
         case _ => ChatView(Unknown, now, ReprOf(m)))
  }

  /** The role is decided by the kind of message and its first part alone:
      appending parts never changes it, and for the user and assistant
      roles it does not change the time stamp or the content either. Only
      the unknown role's content, the whole message printed, sees them. */
  lemma OnlyFirstPartDecides(m: ModelMessage, extra: seq<RequestPart>, more: seq<ResponsePart>, now: string)
    requires m.PartCount() > 0
    ensures var m' := if m.ModelRequest? then ModelRequest(m.requestParts + extra)
                      else ModelResponse(m.responseParts + more, m.timestamp);
            var r, r' := ToChatMessage(m, now), ToChatMessage(m', now);
            && r'.role == r.role
            && (r.role != Unknown ==> r' == r)
  {
    if m.ModelRequest? {
      assert (m.requestParts + extra)[0] == m.requestParts[0];
    } else {
      assert (m.responseParts + more)[0] == m.responseParts[0];
    }
  }
}
