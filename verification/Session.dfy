/**
 A client session as a state machine of twelve actions. Next is the specification of one
 action; class Session carries it out on its fields and two buffers.
 */
module Session {
  import opened Results
  import opened Wire
  import opened Buffers
  import Startup

  type Bytes = seq<byte>
  type Error = map<byte, Bytes>

  datatype State =
    | Initiate
    | PrepareToReceiveRequest
    | ReceiveRequest
    | ApplyPreRequestPlugins
    | PrepareToForwardRequest
    | ForwardRequest
    | PrepareToReceiveResponse
    | ReceiveResponse
    | ApplyPostResponsePlugins
    | PrepareToForwardResponse
    | ForwardResponse
    | ResetContext

  datatype Side = Client | Server
  datatype Direction = In | Out

  /** The socket and the readiness a session waits for. */
  datatype Interest = Interest(side: Side, dir: Direction)

  /** A buffer holds received bytes, or a message the proxy wrote into it by hand. */
  datatype Buf = Received(content: Bytes) | Handmade(content: Bytes) {
    function Concrete(): BufState {
      match this
      case Received(c) => Filled(c)
      case Handmade(c) => Manual(c)
    }
  }

  /** A session: no state is the null state of a terminated machine. */
  datatype Sess = Sess(
    state: Option<State>,
    waiting: bool,
    interest: Option<Interest>,
    initiated: bool,
    request: Buf,
    response: Buf)

  const NEW_SESSION: Sess := Sess(Some(PrepareToReceiveRequest), false, None, false, Received([]), Received([]))

  datatype Verdict = Pass | Refuse(err: Error) | Throw(text: Bytes)

  /** What one plugin did: perhaps replaced the request by a query, then passed or not. */
  datatype PluginRun = PluginRun(query: Option<Bytes>, verdict: Verdict)

  /** All that an action takes from outside: what the socket delivers, the result of send, what
      the plugins do, and the answer of a readiness test that reads before the buffer. */
  datatype Input = Input(
    chunks: seq<Bytes>,
    end: End,
    sent: int,
    pre: seq<PluginRun>,
    post: seq<PluginRun>,
    guess: bool)

  const PRE_REQUEST_PLUGINS: nat := 6
  const POST_RESPONSE_PLUGINS: nat := 2

  predicate Printable(err: Error) {
    SEVERITY in err && CODE in err && MESSAGE in err
  }

  predicate ValidInput(inp: Input) {
    && |inp.pre| == PRE_REQUEST_PLUGINS && |inp.post| == POST_RESPONSE_PLUGINS
    && forall i | 0 <= i < |inp.pre| && inp.pre[i].verdict.Refuse? :: Printable(inp.pre[i].verdict.err)
  }

  /** What an action did, for the record. */
  datatype Event =
    | Prepared(interest: Interest)
    | RequestReceived(data: Bytes)
    | InitiateDone(initiated: bool)
    | PluginsPassed(query: Option<Bytes>)
    | PluginsRefused(err: Error)
    | RequestForwarded(data: Bytes)
    | ResponsePart(data: Bytes)
    | ResponseReceived(data: Bytes)
    | PostApplied(thrown: Option<Error>)
    | ResponseForwarded(data: Bytes)
    | ContextReset
    | Died

  /** manual records that a receive found the buffer hand-written. */
  datatype Outcome = Outcome(sess: Sess, event: Event, manual: bool)

  function InternalError(text: Bytes): (err: Error)
    ensures Printable(err)
  {
    map[SEVERITY := [69, 82, 82, 79, 82], CODE := [88, 88, 48, 48, 48], MESSAGE := text]
  }

  /** The plugins before a request: the last query any of them set, and the gate they leave. */
  function PreRun(runs: seq<PluginRun>, query: Option<Bytes>): (r: (Option<Bytes>, Event))
    ensures r.1.PluginsPassed? || r.1.PluginsRefused?
    ensures r.1.PluginsPassed? ==> r.1.query == r.0
  {
    if runs == [] then (query, PluginsPassed(query))
    else
      var q := if runs[0].query.Some? then runs[0].query else query;
      match runs[0].verdict
      case Pass => PreRun(runs[1..], q)
      case Refuse(err) => (q, PluginsRefused(err))
      case Throw(text) => (q, PluginsRefused(InternalError(text)))
  }

  /** The plugins after a response: only an exception shows. */
  function PostRun(runs: seq<PluginRun>): (err: Option<Error>)
    ensures err.Some? ==> Printable(err.value)
  {
    if runs == [] then None
    else if runs[0].verdict.Throw? then Some(InternalError(runs[0].verdict.text))
    else PostRun(runs[1..])
  }

  /** The readiness test on the bytes received so far. */
  predicate ReadyForQuery(initiated: bool, data: Bytes, guess: bool) {
    var n := |data|;
    || !initiated
    || (data != [] && data[0] == 82)
    || if n < 6 then guess
       else data[n - 6..n - 1] == [90, 0, 0, 0, 5] && data[n - 1] in [73, 84, 69]
  }

  function Prepare(s: Sess, i: Interest, next: State): Outcome {
    Outcome(s.(state := Some(next), waiting := true, interest := Some(i)), Prepared(i), false)
  }

  function Next(s: Sess, inp: Input): Outcome
    requires s.state.Some?
    requires s.state.value == ApplyPreRequestPlugins ==> ValidInput(inp)
  {
    match s.state.value
    case Initiate =>
      var done := |s.request.content| > 8;
      Outcome(s.(state := Some(PrepareToForwardRequest), initiated := s.initiated || done),
              InitiateDone(s.initiated || done), false)
    case PrepareToReceiveRequest => Prepare(s, Interest(Client, In), ReceiveRequest)
    case ReceiveRequest =>
      var request := Received(s.request.content + Concat(inp.chunks));
      var manual := s.request.Handmade?;
      if RecvResult(inp.end, |request.content|) <= 0 then Outcome(s.(state := None, request := request), Died, manual)
      else
        var next := if s.initiated then ApplyPreRequestPlugins else Initiate;
        Outcome(s.(state := Some(next), waiting := false, request := request), RequestReceived(request.content), manual)
    case ApplyPreRequestPlugins =>
      var (query, gate) := PreRun(inp.pre, None);
      var s' := s.(request := if query.Some? then Handmade(EncodeQuery(query.value)) else s.request);
      if gate.PluginsPassed? then Outcome(s'.(state := Some(PrepareToForwardRequest)), gate, false)
      else
        RefusalPrintable(inp.pre, None);
        Outcome(s'.(state := Some(PrepareToForwardResponse), response := Handmade(EncodeError(gate.err))), gate, false)
    case PrepareToForwardRequest => Prepare(s, Interest(Server, Out), ForwardRequest)
    case ForwardRequest =>
      if inp.sent <= 0 then Outcome(s.(state := None), Died, false)
      else
        var s' := s.(state := Some(PrepareToReceiveResponse), waiting := false);
        Outcome(s', RequestForwarded(s.request.content), false)
    case PrepareToReceiveResponse => Prepare(s, Interest(Server, In), ReceiveResponse)
    case ReceiveResponse =>
      var response := Received(s.response.content + Concat(inp.chunks));
      var manual := s.response.Handmade?;
      if RecvResult(inp.end, |response.content|) <= 0 then
        Outcome(s.(state := None, response := response), Died, manual)
      else if !ReadyForQuery(s.initiated, response.content, inp.guess) then
        Outcome(s.(response := response), ResponsePart(Concat(inp.chunks)), manual)
      else
        Outcome(s.(state := Some(ApplyPostResponsePlugins), waiting := false, response := response),
                ResponseReceived(Concat(inp.chunks)), manual)
    case ApplyPostResponsePlugins =>
      var err := PostRun(inp.post);
      var response := if err.Some? then Handmade(EncodeError(err.value)) else s.response;
      Outcome(s.(state := Some(PrepareToForwardResponse), response := response), PostApplied(err), false)
    case PrepareToForwardResponse => Prepare(s, Interest(Client, Out), ForwardResponse)
    case ForwardResponse =>
      if inp.sent <= 0 then Outcome(s.(state := None), Died, false)
      else Outcome(s.(state := Some(ResetContext), waiting := false), ResponseForwarded(s.response.content), false)
    case ResetContext =>
      Outcome(NEW_SESSION.(initiated := s.initiated), ContextReset, false)
  }

  lemma {:induction false} RefusalPrintable(runs: seq<PluginRun>, query: Option<Bytes>)
    requires forall i | 0 <= i < |runs| && runs[i].verdict.Refuse? :: Printable(runs[i].verdict.err)
    ensures PreRun(runs, query).1.PluginsRefused? ==> Printable(PreRun(runs, query).1.err)
  {
    if runs != [] {
      RefusalPrintable(runs[1..], if runs[0].query.Some? then runs[0].query else query);
    }
  }

  /** The gate opens exactly when every plugin passed. */
  lemma {:induction false} GateOpensIff(runs: seq<PluginRun>, query: Option<Bytes>)
    ensures PreRun(runs, query).1.PluginsPassed? <==> forall i | 0 <= i < |runs| :: runs[i].verdict.Pass?
  {
    if runs != [] {
      GateOpensIff(runs[1..], if runs[0].query.Some? then runs[0].query else query);
      assert forall i | 1 <= i < |runs| :: runs[i] == runs[1..][i - 1];
    }
  }

  // ---------- what every action keeps ----------

  /** The interest an I/O action needs; None for the other actions. */
  function Needs(st: State): Option<Interest> {
    match st
    case ReceiveRequest => Some(Interest(Client, In))
    case ForwardRequest => Some(Interest(Server, Out))
    case ReceiveResponse => Some(Interest(Server, In))
    case ForwardResponse => Some(Interest(Client, Out))
    case _ => None
  }

  /** A session waits exactly in the four I/O states, for the socket and direction its next
      action uses, and after termination. */
  predicate Waits(s: Sess) {
    match s.state
    case None => s.waiting && s.interest.Some?
    case Some(st) => s.waiting == Needs(st).Some? && (s.waiting ==> s.interest == Needs(st))
  }

  /** Which buffers are untouched, received or hand-written in each state. */
  predicate Buffered(s: Sess) {
    match s.state
    case None => true
    case Some(st) =>
      match st
      case PrepareToReceiveRequest => s.request == Received([]) && s.response == Received([])
      case ReceiveRequest => s.request == Received([]) && s.response == Received([])
      case Initiate => s.request.Received? && s.response == Received([]) && !s.initiated
      case ApplyPreRequestPlugins => s.request.Received? && s.response == Received([]) && s.initiated
      case PrepareToForwardRequest => s.response == Received([])
      case ForwardRequest => s.response == Received([])
      case PrepareToReceiveResponse => s.response == Received([])
      case ReceiveResponse => s.response.Received?
      case _ => true
  }

  predicate Inv(s: Sess) {
    Waits(s) && Buffered(s)
  }

  lemma NextKeeps(s: Sess, inp: Input)
    requires Inv(s) && s.state.Some? && ValidInput(inp)
    ensures Inv(Next(s, inp).sess) && !Next(s, inp).manual
    ensures s.initiated ==> Next(s, inp).sess.initiated
  {
  }

  // ---------- the class ----------

  class Session {
    var state: Option<State>
    var waiting: bool
    var interest: Option<Interest>
    var initiated: bool
    const request: Buffer
    const response: Buffer
    var params: Startup.Params
    ghost var requestBuf: Buf
    ghost var responseBuf: Buf

    ghost predicate Valid()
      reads this, request, response
    {
      && request != response
      && request.View() == requestBuf.Concrete() && response.View() == responseBuf.Concrete()
      && Inv(View())
    }

    ghost function View(): Sess
      reads this
    {
      Sess(state, waiting, interest, initiated, requestBuf, responseBuf)
    }

    constructor ()
      ensures Valid() && View() == NEW_SESSION && fresh(request) && fresh(response) && params == map[]
    {
      state, waiting, interest, initiated := Some(PrepareToReceiveRequest), false, None, false;
      request := new Buffer();
      response := new Buffer();
      params := map[];
      requestBuf, responseBuf := Received([]), Received([]);
    }

    /** One action of the machine; a terminated session does nothing. */
    method TakeAction(inp: Input) returns (event: Event)
      requires Valid() && ValidInput(inp)
      modifies this, request, response
      ensures Valid()
      ensures old(state).None? ==> View() == old(View()) && event == Died
      ensures old(state).Some? ==> Next(old(View()), inp) == Outcome(View(), event, false)
    {
      if state.None? { return Died; }
      NextKeeps(View(), inp);
      match state.value
      case Initiate => event := DoInitiate(inp);
      case PrepareToReceiveRequest => event := Await(Interest(Client, In), ReceiveRequest);
      case ReceiveRequest => event := DoReceiveRequest(inp);
      case ApplyPreRequestPlugins => event := DoApplyPreRequestPlugins(inp);
      case PrepareToForwardRequest => event := Await(Interest(Server, Out), ForwardRequest);
      case ForwardRequest => event := DoForwardRequest(inp);
      case PrepareToReceiveResponse => event := Await(Interest(Server, In), ReceiveResponse);
      case ReceiveResponse => event := DoReceiveResponse(inp);
      case ApplyPostResponsePlugins => event := DoApplyPostResponsePlugins(inp);
      case PrepareToForwardResponse => event := Await(Interest(Client, Out), ForwardResponse);
      case ForwardResponse => event := DoForwardResponse(inp);
      case ResetContext => event := DoResetContext(inp);
    }

    method Await(i: Interest, next: State) returns (event: Event)
      requires Valid() && state.Some?
      modifies this
      ensures request.View() == requestBuf.Concrete() && response.View() == responseBuf.Concrete()
      ensures Outcome(View(), event, false) == Prepare(old(View()), i, next)
    {
      interest := Some(i);
      waiting := true;
      state := Some(next);
      event := Prepared(i);
    }

    method DoInitiate(inp: Input) returns (event: Event)
      requires Valid() && state == Some(Initiate)
      modifies this
      ensures request.View() == requestBuf.Concrete() && response.View() == responseBuf.Concrete()
      ensures Outcome(View(), event, false) == Next(old(View()), inp)
      ensures if initiated then Startup.Parse(request.buf, 8, old(params)) == Some(params) else params == old(params)
    {
      if request.dataSize > 8 {
        params := Startup.ParseParameters(request, params, requestBuf.content);
        initiated := true;
      }
      state := Some(PrepareToForwardRequest);
      event := InitiateDone(initiated);
    }

    method DoReceiveRequest(inp: Input) returns (event: Event)
      requires Valid() && state == Some(ReceiveRequest)
      modifies this, request
      ensures request.View() == requestBuf.Concrete() && response.View() == responseBuf.Concrete()
      ensures Outcome(View(), event, false) == Next(old(View()), inp)
    {
      var res := request.RecvFrom(inp.chunks, inp.end, requestBuf.content);
      requestBuf := Received(requestBuf.content + Concat(inp.chunks));
      FilledFacts(requestBuf.content);
      if res <= 0 {
        state := None;
        return Died;
      }
      waiting := false;
      state := Some(if initiated then ApplyPreRequestPlugins else Initiate);
      event := RequestReceived(request.buf[..request.dataSize]);
    }

    method DoApplyPreRequestPlugins(inp: Input) returns (event: Event)
      requires Valid() && state == Some(ApplyPreRequestPlugins) && ValidInput(inp)
      modifies this, request, response
      ensures request.View() == requestBuf.Concrete() && response.View() == responseBuf.Concrete()
      ensures Outcome(View(), event, false) == Next(old(View()), inp)
    {
      var runs, i, query := inp.pre, 0, None;
      ghost var before := requestBuf;
      RefusalPrintable(runs, None);
      assert runs[0..] == runs;
      while i < |runs|
        invariant 0 <= i <= |runs|
        invariant PreRun(runs, None) == PreRun(runs[i..], query)
        invariant requestBuf == if query.Some? then Handmade(EncodeQuery(query.value)) else before
        invariant request.View() == requestBuf.Concrete()
        invariant state == old(state) && waiting == old(waiting) && interest == old(interest)
                  && initiated == old(initiated)
        invariant responseBuf == old(responseBuf) && response.View() == old(response.View())
      {
        assert runs[i..][0] == runs[i] && runs[i..][1..] == runs[i + 1..];
        if runs[i].query.Some? {
          request.SetQuery(runs[i].query.value);
          requestBuf := Handmade(EncodeQuery(runs[i].query.value));
          query := runs[i].query;
        }
        if !runs[i].verdict.Pass? {
          var err := if runs[i].verdict.Refuse? then runs[i].verdict.err else InternalError(runs[i].verdict.text);
          response.SetError(err);
          responseBuf := Handmade(EncodeError(err));
          state := Some(PrepareToForwardResponse);
          return PluginsRefused(err);
        }
        i := i + 1;
      }
      state := Some(PrepareToForwardRequest);
      event := PluginsPassed(query);
    }

    method DoForwardRequest(inp: Input) returns (event: Event)
      requires Valid() && state == Some(ForwardRequest)
      modifies this
      ensures request.View() == requestBuf.Concrete() && response.View() == responseBuf.Concrete()
      ensures Outcome(View(), event, false) == Next(old(View()), inp)
    {
      if requestBuf.Received? { FilledFacts(requestBuf.content); }
      var data := request.SendTo();
      assert data == requestBuf.content;
      if inp.sent <= 0 {
        state := None;
        return Died;
      }
      waiting := false;
      state := Some(PrepareToReceiveResponse);
      event := RequestForwarded(data);
    }

    method DoReceiveResponse(inp: Input) returns (event: Event)
      requires Valid() && state == Some(ReceiveResponse)
      modifies this, response
      ensures request.View() == requestBuf.Concrete() && response.View() == responseBuf.Concrete()
      ensures Outcome(View(), event, false) == Next(old(View()), inp)
    {
      hide ReadyForQuery, Capacity, Zeros, PreRun, PostRun, EncodeQuery, EncodeError;
      var held := response.dataSize;
      var res := response.RecvFrom(inp.chunks, inp.end, responseBuf.content);
      ghost var content := responseBuf.content + Concat(inp.chunks);
      responseBuf := Received(content);
      FilledFacts(content);
      var data := response.buf[..response.dataSize];
      assert data == content && data[held..] == Concat(inp.chunks);
      if res <= 0 {
        state := None;
        return Died;
      }
      if !ReadyForQuery(initiated, data, inp.guess) {
        return ResponsePart(data[held..]);
      }
      waiting := false;
      state := Some(ApplyPostResponsePlugins);
      event := ResponseReceived(data[held..]);
    }

    method DoApplyPostResponsePlugins(inp: Input) returns (event: Event)
      requires Valid() && state == Some(ApplyPostResponsePlugins)
      modifies this, response
      ensures request.View() == requestBuf.Concrete() && response.View() == responseBuf.Concrete()
      ensures Outcome(View(), event, false) == Next(old(View()), inp)
    {
      var runs, i := inp.post, 0;
      assert runs[0..] == runs;
      event := PostApplied(None);
      while i < |runs|
        invariant 0 <= i <= |runs|
        invariant PostRun(runs) == PostRun(runs[i..])
      {
        assert runs[i..][0] == runs[i] && runs[i..][1..] == runs[i + 1..];
        if runs[i].verdict.Throw? {
          var err := InternalError(runs[i].verdict.text);
          response.SetError(err);
          responseBuf := Handmade(EncodeError(err));
          state := Some(PrepareToForwardResponse);
          return PostApplied(Some(err));
        }
        i := i + 1;
      }
      state := Some(PrepareToForwardResponse);
    }

    method DoForwardResponse(inp: Input) returns (event: Event)
      requires Valid() && state == Some(ForwardResponse)
      modifies this
      ensures request.View() == requestBuf.Concrete() && response.View() == responseBuf.Concrete()
      ensures Outcome(View(), event, false) == Next(old(View()), inp)
    {
      if responseBuf.Received? { FilledFacts(responseBuf.content); }
      var data := response.SendTo();
      assert data == responseBuf.content;
      if inp.sent <= 0 {
        state := None;
        return Died;
      }
      waiting := false;
      state := Some(ResetContext);
      event := ResponseForwarded(data);
    }

    method DoResetContext(inp: Input) returns (event: Event)
      requires Valid() && state == Some(ResetContext)
      modifies this, request, response
      ensures request.View() == requestBuf.Concrete() && response.View() == responseBuf.Concrete()
      ensures Outcome(View(), event, false) == Next(old(View()), inp)
    {
      var kept := initiated;
      interest, initiated, waiting := None, false, false;
      request.Reset();
      response.Reset();
      requestBuf, responseBuf := Received([]), Received([]);
      initiated := kept;
      state := Some(PrepareToReceiveRequest);
      event := ContextReset;
    }
  }
}
