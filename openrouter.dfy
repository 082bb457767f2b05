/** The OpenRouter chat-completions client: the request and message shapes,
    request building, and the checks `Send` makes before and after the HTTP
    exchange. The exchange itself (transport, timeout, JSON decoding of the
    reply) is a parameter. */
module OpenRouter {
  import opened Wrappers

  /** A float64 carried as its IEEE-754 bit pattern: the client only copies
      the temperature into the request and encodes it. */
  datatype Float64 = Float64(bits: bv64) {
    /** False for NaN and the infinities (all eleven exponent bits set),
        which encoding/json refuses to encode. */
    predicate IsFinite() {
      (bits >> 52) & 0x7FF != 0x7FF
    }
  }

  datatype FunctionCall = FunctionCall(name: string, arguments: string)

  datatype ToolCall = ToolCall(id: string, kind: string, call: FunctionCall)

  /** One chat message; `toolCalls` is what the Go code spells `TollCalls`. */
  datatype Message = Message(role: string, name: string, content: string, toolCallId: string, toolCalls: seq<ToolCall>)

  datatype Parameters = Parameters(kind: string, properties: map<string, string>, required: seq<string>)

  datatype ToolFunction = ToolFunction(name: string, description: string, parameters: map<string, Parameters>)

  datatype Tool = Tool(kind: string, spec: ToolFunction)

  /** The client configuration (the Go `OpenRouter` struct). */
  datatype Client = Client(key: string, systemPrompt: string, temperature: Float64, maxTokens: int,
                           maxMessagesInContext: int, model: string)

  datatype ApiError = ApiError(code: int, message: string)

  datatype Choice = Choice(message: Message)

  datatype Response = Response(choices: seq<Choice>, error: Option<ApiError>)

  /** What the network did with the POST: no reply at all, or a status code
      with a body that decoded into a Response (`Some`) or did not (`None`). */
  datatype Exchange = Unreachable(reason: string) | Replied(status: int, decoded: Option<Response>)

  datatype SendError =
    | EmptyPrompt
    | Unencodable
    | Transport(reason: string)
    | Status(code: int)
    | Undecodable
    | Api(message: string)

  const StatusOK: int := 200

  /** The single tool every request declares: a web search taking a query. */
  const SearchTool: Tool :=
    Tool("function", ToolFunction("search", "Search the internet for information",
      map["query" := Parameters("string", map["query" := "string"], ["query"])]))

  /** A message with only a role and a content. */
  function Plain(role: string, content: string): Message {
    Message(role, "", content, "", [])
  }

  class Request {
    var messages: seq<Message>
    var prompt: string
    var model: string
    var responseFormat: string
    var maxTokens: int
    var temperature: Float64
    var tools: seq<Tool>

    /** A request literal; the fields the Go literal leaves out are empty. */
    constructor (model: string, maxTokens: int, temperature: Float64, messages: seq<Message>, tools: seq<Tool>)
      ensures this.model == model && this.maxTokens == maxTokens && this.temperature == temperature
      ensures this.messages == messages && this.tools == tools
      ensures prompt == "" && responseFormat == ""
    {
      this.messages := messages;
      this.prompt := "";
      this.model := model;
      this.responseFormat := "";
      this.maxTokens := maxTokens;
      this.temperature := temperature;
      this.tools := tools;
    }

    /** Appends one message with the given role and content. */
    method AddMessage(role: string, content: string)
      modifies this`messages
      ensures messages == old(messages) + [Plain(role, content)]
    {
      messages := messages + [Plain(role, content)];
    }

    /** Appends all given messages, in order, after the existing ones. */
    method AddMessages(more: seq<Message>)
      modifies this`messages
      ensures messages == old(messages) + more
    {
      messages := messages + more;
    }
  }

  /** The guard `Send` applies before touching the network: a request needs
      more than the system message, or a raw prompt. */
  predicate Sendable(messages: seq<Message>, prompt: string) {
    |messages| > 1 || prompt != ""
  }

  /** A fresh request: the client's model, token limit and temperature, the
      system prompt as its only message, and the search tool. Send refuses it
      whatever the network would do. */
  method NewRequest(o: Client) returns (r: Request)
    ensures fresh(r)
    ensures r.messages == [Plain("system", o.systemPrompt)] && r.prompt == ""
    ensures r.model == o.model && r.maxTokens == o.maxTokens && r.temperature == o.temperature
    ensures |r.tools| == 1 && r.tools[0].spec.name == "search"
    ensures forall x :: Send(r, x) == Failure(EmptyPrompt)
  {
    r := new Request(o.model, o.maxTokens, o.temperature, [Plain("system", o.systemPrompt)], [SearchTool]);
  }

  /** Send, with the HTTP exchange as a parameter. A request that fails the
      guard is refused whatever the exchange; a response comes back only for
      status 200, a decodable body and no API error in it. */
  function Send(r: Request, exchange: Exchange): (res: Result<Response, SendError>)
    reads r
    ensures !Sendable(r.messages, r.prompt) ==> res == Failure(EmptyPrompt)
    ensures res.Success? <==>
              && Sendable(r.messages, r.prompt)
              && r.temperature.IsFinite()
              && exchange.Replied?
              && exchange.status == StatusOK
              && exchange.decoded.Some?
              && exchange.decoded.value.error.None?
    ensures res.Success? ==> res.value == exchange.decoded.value
    ensures (exchange.Replied? && exchange.status != StatusOK && Sendable(r.messages, r.prompt) && r.temperature.IsFinite())
              ==> res == Failure(Status(exchange.status))
  {
    if !Sendable(r.messages, r.prompt) then Failure(EmptyPrompt)
    else if !r.temperature.IsFinite() then Failure(Unencodable)
    else match exchange
      case Unreachable(reason) => Failure(Transport(reason))
      case Replied(status, decoded) =>
        if status != StatusOK then Failure(Status(status))
        else if decoded.None? then Failure(Undecodable)
        else if decoded.value.error.Some? then Failure(Api(decoded.value.error.value.message))
        else Success(decoded.value)
  }
}
