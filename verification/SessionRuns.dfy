/**
 Whole runs of a session: every run is a sequence of request cycles, the last one perhaps cut
 short, and what a cycle forwards is determined by what it received and what its plugins did.
 */
module SessionRuns {
  import opened Results
  import opened Wire
  import opened Buffers
  import opened Session
  import opened PluginGate

  /** What lets a request through: the startup action, or every plugin passing. */
  datatype Gate = Opening(done: bool) | Plugins(query: Option<Bytes>)

  /** One request cycle, by what went into it. */
  datatype Cycle =
    | Served(req: Bytes, gate: Gate, parts: seq<Bytes>, last: Bytes, thrown: Option<Error>)
    | Refused(req: Bytes, err: Error)

  function GateEvent(g: Gate): Event {
    match g
    case Opening(done) => InitiateDone(done)
    case Plugins(query) => PluginsPassed(query)
  }

  /** The request as sent on: what was received, unless a plugin set a query. */
  function SentOn(req: Bytes, gate: Gate): Bytes {
    if gate.Plugins? && gate.query.Some? then EncodeQuery(gate.query.value) else req
  }

  /** The response as sent back: what was received in this cycle, unless an error took its place. */
  function Answer(c: Cycle): Bytes
    requires Wellformed(c)
  {
    match c
    case Served(_, _, parts, last, thrown) =>
      if thrown.Some? then EncodeError(thrown.value) else Concat(parts) + last
    case Refused(_, err) => EncodeError(err)
  }

  predicate Wellformed(c: Cycle) {
    match c
    case Served(_, _, _, _, thrown) => thrown.Some? ==> Printable(thrown.value)
    case Refused(_, err) => Printable(err)
  }

  function Parts(parts: seq<Bytes>): seq<Event> {
    seq(|parts|, i requires 0 <= i < |parts| => ResponsePart(parts[i]))
  }

  /** The record of a complete cycle. */
  function CycleEvents(c: Cycle): seq<Event>
    requires Wellformed(c)
  {
    match c
    case Served(req, gate, parts, last, thrown) =>
      [ Prepared(Interest(Client, In)), RequestReceived(req), GateEvent(gate),
        Prepared(Interest(Server, Out)), RequestForwarded(SentOn(req, gate)),
        Prepared(Interest(Server, In)) ] + Parts(parts) +
      [ ResponseReceived(last), PostApplied(thrown),
        Prepared(Interest(Client, Out)), ResponseForwarded(Answer(c)), ContextReset ]
    case Refused(req, err) =>
      [ Prepared(Interest(Client, In)), RequestReceived(req), PluginsRefused(err),
        Prepared(Interest(Client, Out)), ResponseForwarded(Answer(c)), ContextReset ]
  }

  /** Before startup is done a cycle goes through the startup action; afterwards never again, and
      its request passes the plugins or is refused. */
  predicate Allowed(c: Cycle, before: bool) {
    Wellformed(c) && (c.Served? && c.gate.Opening? <==> !before)
  }

  function After(c: Cycle, before: bool): bool {
    before || (c.Served? && c.gate == Opening(true))
  }

  predicate AllowedAll(cs: seq<Cycle>, before: bool) {
    cs == [] || (Allowed(cs[0], before) && AllowedAll(cs[1..], After(cs[0], before)))
  }

  function AfterAll(cs: seq<Cycle>, before: bool): bool {
    if cs == [] then before else AfterAll(cs[1..], After(cs[0], before))
  }

  function AllEvents(cs: seq<Cycle>): seq<Event>
    requires forall i | 0 <= i < |cs| :: Wellformed(cs[i])
  {
    if cs == [] then [] else CycleEvents(cs[0]) + AllEvents(cs[1..])
  }

  // ---------- runs ----------

  predicate ValidInputs(inputs: seq<Input>) {
    forall i | 0 <= i < |inputs| :: ValidInput(inputs[i])
  }

  /** The actions taken on a list of inputs, until they run out or the machine terminates. */
  function Run(s: Sess, inputs: seq<Input>): (Sess, seq<Event>)
    requires ValidInputs(inputs)
    decreases |inputs|
  {
    if inputs == [] || s.state.None? then (s, [])
    else
      var o := Next(s, inputs[0]);
      var (s', es) := Run(o.sess, inputs[1..]);
      (s', [o.event] + es)
  }

  // ---------- where in a cycle a session is ----------

  /** Does a cycle of this kind come through the state? */
  predicate Visits(st: State, c: Cycle) {
    match st
    case Initiate => c.Served?
    case PrepareToForwardRequest => c.Served?
    case ForwardRequest => c.Served?
    case PrepareToReceiveResponse => c.Served?
    case ReceiveResponse => c.Served?
    case ApplyPostResponsePlugins => c.Served?
    case _ => true
  }

  /** The part of a cycle that is behind a session in state st. */
  function Behind(st: State, c: Cycle): seq<Event>
    requires Wellformed(c) && Visits(st, c)
    decreases Place(st)
  {
    match st
    case PrepareToReceiveRequest => []
    case ReceiveRequest => [Prepared(Interest(Client, In))]
    case Initiate => [Prepared(Interest(Client, In)), RequestReceived(c.req)]
    case ApplyPreRequestPlugins => [Prepared(Interest(Client, In)), RequestReceived(c.req)]
    case PrepareToForwardRequest => Behind(Initiate, c) + [GateEvent(c.gate)]
    case ForwardRequest => Behind(PrepareToForwardRequest, c) + [Prepared(Interest(Server, Out))]
    case PrepareToReceiveResponse => Behind(ForwardRequest, c) + [RequestForwarded(SentOn(c.req, c.gate))]
    case ReceiveResponse => Behind(PrepareToReceiveResponse, c) + [Prepared(Interest(Server, In))] + Parts(c.parts)
    case ApplyPostResponsePlugins => Behind(ReceiveResponse, c) + [ResponseReceived(c.last)]
    case PrepareToForwardResponse =>
      if c.Served? then Behind(ApplyPostResponsePlugins, c) + [PostApplied(c.thrown)]
      else Behind(ApplyPreRequestPlugins, c) + [PluginsRefused(c.err)]
    case ForwardResponse => Behind(PrepareToForwardResponse, c) + [Prepared(Interest(Client, Out))]
    case ResetContext => Behind(ForwardResponse, c) + [ResponseForwarded(Answer(c))]
  }

  function Place(st: State): nat {
    match st
    case PrepareToReceiveRequest => 0
    case ReceiveRequest => 1
    case Initiate => 2
    case ApplyPreRequestPlugins => 2
    case PrepareToForwardRequest => 3
    case ForwardRequest => 4
    case PrepareToReceiveResponse => 5
    case ReceiveResponse => 6
    case ApplyPostResponsePlugins => 7
    case PrepareToForwardResponse => 8
    case ForwardResponse => 9
    case ResetContext => 10
  }

  lemma ServedUpToResponses(c: Cycle)
    requires Wellformed(c) && c.Served?
    ensures Behind(ReceiveResponse, c) ==
      [ Prepared(Interest(Client, In)), RequestReceived(c.req), GateEvent(c.gate),
        Prepared(Interest(Server, Out)), RequestForwarded(SentOn(c.req, c.gate)),
        Prepared(Interest(Server, In)) ] + Parts(c.parts)
  {
    assert Behind(PrepareToForwardRequest, c)
        == [Prepared(Interest(Client, In)), RequestReceived(c.req), GateEvent(c.gate)];
    assert Behind(ForwardRequest, c) ==
        [Prepared(Interest(Client, In)), RequestReceived(c.req), GateEvent(c.gate), Prepared(Interest(Server, Out))];
    assert Behind(PrepareToReceiveResponse, c) ==
      [ Prepared(Interest(Client, In)), RequestReceived(c.req), GateEvent(c.gate),
        Prepared(Interest(Server, Out)), RequestForwarded(SentOn(c.req, c.gate)) ];
  }

  lemma FiveMore(a: seq<Event>, p: Event, q: Event, r: Event, s: Event, t: Event)
    ensures a + [p] + [q] + [r] + [s] + [t] == a + [p, q, r, s, t]
  {
  }

  lemma WholeCycle(c: Cycle)
    requires Wellformed(c)
    ensures Behind(ResetContext, c) + [ContextReset] == CycleEvents(c)
  {
    if c.Served? {
      ServedUpToResponses(c);
      FiveMore(Behind(ReceiveResponse, c), ResponseReceived(c.last), PostApplied(c.thrown),
               Prepared(Interest(Client, Out)), ResponseForwarded(Answer(c)), ContextReset);
      assert Behind(PrepareToForwardResponse, c)
          == Behind(ReceiveResponse, c) + [ResponseReceived(c.last)] + [PostApplied(c.thrown)];
    } else {
      assert Behind(PrepareToForwardResponse, c) ==
          [Prepared(Interest(Client, In)), RequestReceived(c.req), PluginsRefused(c.err)];
    }
  }

  /** The state after st in a cycle of this kind. */
  function Following(st: State, c: Cycle): State {
    match st
    case PrepareToReceiveRequest => ReceiveRequest
    case ReceiveRequest => if c.Served? then Initiate else ApplyPreRequestPlugins
    case Initiate => PrepareToForwardRequest
    case ApplyPreRequestPlugins => if c.Served? then PrepareToForwardRequest else PrepareToForwardResponse
    case PrepareToForwardRequest => ForwardRequest
    case ForwardRequest => PrepareToReceiveResponse
    case PrepareToReceiveResponse => ReceiveResponse
    case ReceiveResponse => ApplyPostResponsePlugins
    case ApplyPostResponsePlugins => PrepareToForwardResponse
    case PrepareToForwardResponse => ForwardResponse
    case _ => ResetContext
  }

  lemma BehindGrows(st: State, c: Cycle)
    requires Wellformed(c) && Visits(st, c) && st != ResetContext
    ensures Visits(Following(st, c), c) && Behind(st, c) <= Behind(Following(st, c), c)
  {
    if st == PrepareToReceiveResponse {
      var a, b := Behind(st, c) + [Prepared(Interest(Server, In))], Parts(c.parts);
      assert Behind(st, c) <= a && a <= a + b;
    }
  }

  lemma PrefixTrans(a: seq<Event>, b: seq<Event>, c: seq<Event>)
    requires a <= b && b <= c
    ensures a <= c
  {
  }

  /** What is behind a session is the beginning of the record of a cycle. */
  lemma {:induction false} BehindIsPrefix(st: State, c: Cycle)
    requires Wellformed(c) && Visits(st, c)
    ensures Behind(st, c) <= CycleEvents(c)
    decreases 10 - Place(st)
  {
    if st == ResetContext {
      WholeCycle(c);
    } else {
      var next := Following(st, c);
      BehindGrows(st, c);
      BehindIsPrefix(next, c);
      PrefixTrans(Behind(st, c), Behind(next, c), CycleEvents(c));
    }
  }

  /** The session agrees with the cycle it is in: its buffers hold what the cycle says. */
  predicate InCycle(s: Sess, c: Cycle, before: bool) {
    && s.state.Some? && Inv(s) && Allowed(c, before) && Visits(s.state.value, c)
    && match s.state.value
       case PrepareToReceiveRequest => s.initiated == before
       case ReceiveRequest => s.initiated == before
       case Initiate => s.initiated == before && s.request == Received(c.req)
       case ApplyPreRequestPlugins => s.initiated == before && s.request == Received(c.req)
       case PrepareToForwardRequest => s.initiated == After(c, before) && s.request.content == SentOn(c.req, c.gate)
       case ForwardRequest => s.initiated == After(c, before) && s.request.content == SentOn(c.req, c.gate)
       case PrepareToReceiveResponse => s.initiated == After(c, before) && c.parts == []
       case ReceiveResponse => s.initiated == After(c, before) && s.response.content == Concat(c.parts)
       case ApplyPostResponsePlugins =>
         s.initiated == After(c, before) && s.response.content == Concat(c.parts) + c.last
       case PrepareToForwardResponse => s.initiated == After(c, before) && s.response.content == Answer(c)
       case ForwardResponse => s.initiated == After(c, before) && s.response.content == Answer(c)
       case ResetContext => s.initiated == After(c, before)
  }

  /** Some cycle that is allowed, to start from before anything of it is known. */
  function Blank(before: bool, req: Bytes): Cycle {
    if before then Refused(req, InternalError([])) else Served(req, Opening(false), [], [], None)
  }

  lemma {:induction false} ConcatSnoc(parts: seq<Bytes>, p: Bytes)
    ensures Concat(parts + [p]) == Concat(parts) + p
  {
    if parts == [] {
      assert ([] + [p])[1..] == [];
    } else {
      assert (parts + [p])[1..] == parts[1..] + [p];
      ConcatSnoc(parts[1..], p);
    }
  }

  /** The session moved on within a cycle, and what is behind it grew by the event. */
  ghost predicate MovedOn(s: Sess, c: Cycle, before: bool, o: Outcome, c': Cycle)
    requires InCycle(s, c, before)
  {
    && InCycle(o.sess, c', before)
    && Behind(o.sess.state.value, c') == Behind(s.state.value, c) + [o.event]
  }

  lemma AdvancePrepare(s: Sess, c: Cycle, before: bool, inp: Input)
    requires InCycle(s, c, before) && ValidInput(inp)
    requires s.state.value in {PrepareToReceiveRequest, PrepareToForwardRequest, PrepareToReceiveResponse,
                               PrepareToForwardResponse}
    ensures MovedOn(s, c, before, Next(s, inp), c)
  {
    NextKeeps(s, inp);
    if s.state.value.PrepareToReceiveResponse? {
      assert Parts([]) == [];
      var more := Behind(PrepareToReceiveResponse, c) + [Prepared(Interest(Server, In))];
      assert more + [] == more;
    }
  }

  lemma AdvanceRequest(s: Sess, c: Cycle, before: bool, inp: Input) returns (c': Cycle)
    requires InCycle(s, c, before) && ValidInput(inp)
    requires s.state.value.ReceiveRequest? && Next(s, inp).sess.state.Some?
    ensures MovedOn(s, c, before, Next(s, inp), c')
  {
    NextKeeps(s, inp);
    c' := Blank(before, s.request.content + Concat(inp.chunks));
  }

  lemma AdvanceGate(s: Sess, c: Cycle, before: bool, inp: Input) returns (c': Cycle)
    requires InCycle(s, c, before) && ValidInput(inp)
    requires s.state.value.Initiate? || s.state.value.ApplyPreRequestPlugins?
    ensures MovedOn(s, c, before, Next(s, inp), c')
  {
    NextKeeps(s, inp);
    if s.state.value.Initiate? {
      c' := Served(c.req, Opening(|c.req| > 8), [], [], None);
    } else {
      var (query, gate) := PreRun(inp.pre, None);
      RefusalPrintable(inp.pre, None);
      c' := if gate.PluginsPassed? then Served(c.req, Plugins(query), [], [], None) else Refused(c.req, gate.err);
      assert Behind(ApplyPreRequestPlugins, c') == Behind(ApplyPreRequestPlugins, c);
    }
  }

  lemma AdvanceForward(s: Sess, c: Cycle, before: bool, inp: Input) returns (c': Cycle)
    requires InCycle(s, c, before) && ValidInput(inp)
    requires s.state.value.ForwardRequest? && Next(s, inp).sess.state.Some?
    ensures MovedOn(s, c, before, Next(s, inp), c')
  {
    NextKeeps(s, inp);
    c' := c.(parts := [], last := [], thrown := None);
    assert Behind(PrepareToForwardRequest, c') == Behind(PrepareToForwardRequest, c);
    assert Behind(ForwardRequest, c') == Behind(ForwardRequest, c);
  }

  lemma SameUpToResponses(c: Cycle, c': Cycle)
    requires Wellformed(c) && Wellformed(c') && c.Served? && c'.Served? && c.req == c'.req && c.gate == c'.gate
    ensures Behind(PrepareToReceiveResponse, c) == Behind(PrepareToReceiveResponse, c')
    ensures c.parts == c'.parts ==> Behind(ReceiveResponse, c) == Behind(ReceiveResponse, c')
  {
    assert Behind(PrepareToForwardRequest, c') == Behind(PrepareToForwardRequest, c);
    assert Behind(ForwardRequest, c') == Behind(ForwardRequest, c);
  }

  lemma AdvanceResponse(s: Sess, c: Cycle, before: bool, inp: Input) returns (c': Cycle)
    requires InCycle(s, c, before) && ValidInput(inp)
    requires s.state.value.ReceiveResponse? && Next(s, inp).sess.state.Some?
    ensures MovedOn(s, c, before, Next(s, inp), c')
  {
    NextKeeps(s, inp);
    var data := Concat(inp.chunks);
    if Next(s, inp).sess.state.value.ReceiveResponse? {
      c' := c.(parts := c.parts + [data]);
      ConcatSnoc(c.parts, data);
      assert Parts(c'.parts) == Parts(c.parts) + [ResponsePart(data)];
      SameUpToResponses(c, c');
      PartAdded(Behind(PrepareToReceiveResponse, c) + [Prepared(Interest(Server, In))], Parts(c.parts),
                ResponsePart(data));
    } else {
      c' := c.(last := data);
      SameUpToResponses(c, c');
    }
  }

  lemma PartAdded(a: seq<Event>, parts: seq<Event>, e: Event)
    ensures a + (parts + [e]) == a + parts + [e]
  {
  }

  lemma AdvanceAnswer(s: Sess, c: Cycle, before: bool, inp: Input) returns (c': Cycle)
    requires InCycle(s, c, before) && ValidInput(inp)
    requires s.state.value.ApplyPostResponsePlugins? || s.state.value.ForwardResponse?
    requires Next(s, inp).sess.state.Some?
    ensures MovedOn(s, c, before, Next(s, inp), c')
  {
    NextKeeps(s, inp);
    c' := c;
    if s.state.value.ApplyPostResponsePlugins? {
      c' := c.(thrown := PostRun(inp.post));
      SameUpToResponses(c, c');
      assert Behind(ApplyPostResponsePlugins, c') == Behind(ApplyPostResponsePlugins, c);
    }
  }

  /** One action that neither resets nor dies stays in the cycle and adds its event to what is
      behind; the cycle is the same in all that already happened. */
  lemma Advance(s: Sess, c: Cycle, before: bool, inp: Input) returns (c': Cycle)
    requires InCycle(s, c, before) && ValidInput(inp)
    requires !s.state.value.ResetContext? && Next(s, inp).sess.state.Some?
    ensures MovedOn(s, c, before, Next(s, inp), c')
  {
    match s.state.value
    case ReceiveRequest => c' := AdvanceRequest(s, c, before, inp);
    case Initiate => c' := AdvanceGate(s, c, before, inp);
    case ApplyPreRequestPlugins => c' := AdvanceGate(s, c, before, inp);
    case ForwardRequest => c' := AdvanceForward(s, c, before, inp);
    case ReceiveResponse => c' := AdvanceResponse(s, c, before, inp);
    case ApplyPostResponsePlugins => c' := AdvanceAnswer(s, c, before, inp);
    case ForwardResponse => c' := AdvanceAnswer(s, c, before, inp);
    case _ => AdvancePrepare(s, c, before, inp); c' := c;
  }

  // ---------- every run is a sequence of cycles ----------

  lemma AllowedWellformed(cs: seq<Cycle>, before: bool)
    requires AllowedAll(cs, before)
    ensures forall i | 0 <= i < |cs| :: Wellformed(cs[i])
  {
    if cs != [] {
      AllowedWellformed(cs[1..], After(cs[0], before));
      assert forall i | 1 <= i < |cs| :: cs[i] == cs[1..][i - 1];
    }
  }

  /** The record es: complete cycles, then the part of one more that is behind state st, then
      perhaps the end of the session in that state. */
  ghost predicate Recorded(es: seq<Event>, before: bool, cs: seq<Cycle>, c: Cycle, st: State, died: bool) {
    && AllowedAll(cs, before) && Allowed(c, AfterAll(cs, before)) && Visits(st, c)
    && (forall i | 0 <= i < |cs| :: Wellformed(cs[i]))
    && (died ==> Needs(st).Some?)
    && es == AllEvents(cs) + Behind(st, c) + if died then [Died] else []
  }

  lemma Assoc(a: seq<Event>, b: seq<Event>, c: seq<Event>, d: seq<Event>)
    ensures a + (b + c + d) == a + b + c + d
  {
  }

  lemma RecordedAfter(d: Cycle, es: seq<Event>, before: bool, cs: seq<Cycle>, c: Cycle, st: State, died: bool)
    requires Allowed(d, before) && Recorded(es, After(d, before), cs, c, st, died)
    ensures Recorded(CycleEvents(d) + es, before, [d] + cs, c, st, died)
  {
    assert ([d] + cs)[1..] == cs;
    Assoc(CycleEvents(d), AllEvents(cs), Behind(st, c), if died then [Died] else []);
  }

  lemma RecordedHere(before: bool, c: Cycle, st: State, died: bool)
    requires Allowed(c, before) && Visits(st, c) && (died ==> Needs(st).Some?)
    ensures Recorded(Behind(st, c) + (if died then [Died] else []), before, [], c, st, died)
  {
    assert AllEvents([]) + Behind(st, c) == Behind(st, c);
  }

  /** The run of a session that is in cycle c, together with what is behind it, is recorded. */
  ghost predicate Explained(s: Sess, inputs: seq<Input>, c: Cycle, before: bool, cs: seq<Cycle>, last: Cycle, st: State)
    requires InCycle(s, c, before) && ValidInputs(inputs)
  {
    var (s', es) := Run(s, inputs);
    && Recorded(Behind(s.state.value, c) + es, before, cs, last, st, s'.state.None?)
    && (s'.state.Some? ==> s'.state.value == st && InCycle(s', last, AfterAll(cs, before)))
  }

  lemma RunStep(s: Sess, inputs: seq<Input>)
    requires ValidInputs(inputs) && inputs != [] && s.state.Some?
    ensures var o := Next(s, inputs[0]);
            Run(s, inputs) == (Run(o.sess, inputs[1..]).0, [o.event] + Run(o.sess, inputs[1..]).1)
  {
  }

  lemma ExplainedHere(s: Sess, c: Cycle, before: bool)
    requires InCycle(s, c, before)
    ensures Explained(s, [], c, before, [], c, s.state.value)
  {
    RecordedHere(before, c, s.state.value, false);
  }

  lemma ExplainedDied(s: Sess, inputs: seq<Input>, c: Cycle, before: bool)
    requires InCycle(s, c, before) && ValidInputs(inputs) && inputs != [] && Next(s, inputs[0]).sess.state.None?
    ensures Explained(s, inputs, c, before, [], c, s.state.value)
  {
    RunStep(s, inputs);
    assert Run(s, inputs).1 == [Died];
    RecordedHere(before, c, s.state.value, true);
  }

  lemma ExplainedReset(s: Sess, inputs: seq<Input>, c: Cycle, before: bool, cs: seq<Cycle>, last: Cycle, st: State)
    requires InCycle(s, c, before) && ValidInputs(inputs) && inputs != [] && s.state.value.ResetContext?
    requires var after := After(c, before); var s' := Next(s, inputs[0]).sess;
             InCycle(s', Blank(after, []), after) && Explained(s', inputs[1..], Blank(after, []), after, cs, last, st)
    ensures Explained(s, inputs, c, before, [c] + cs, last, st)
  {
    RunStep(s, inputs);
    var (s', es) := Run(Next(s, inputs[0]).sess, inputs[1..]);
    assert Behind(PrepareToReceiveRequest, Blank(After(c, before), [])) + es == es;
    WholeCycle(c);
    RecordedAfter(c, es, before, cs, last, st, s'.state.None?);
    PrefixThen(Behind(ResetContext, c), ContextReset, es);
    assert ([c] + cs)[1..] == cs;
  }

  lemma PrefixThen(a: seq<Event>, e: Event, es: seq<Event>)
    ensures a + ([e] + es) == a + [e] + es
  {
  }

  lemma ExplainedOn(s: Sess, inputs: seq<Input>, c: Cycle, c': Cycle, before: bool, cs: seq<Cycle>, last: Cycle,
                    st: State)
    requires InCycle(s, c, before) && ValidInputs(inputs) && inputs != []
    requires MovedOn(s, c, before, Next(s, inputs[0]), c')
    requires Explained(Next(s, inputs[0]).sess, inputs[1..], c', before, cs, last, st)
    ensures Explained(s, inputs, c, before, cs, last, st)
  {
    RunStep(s, inputs);
    var o := Next(s, inputs[0]);
    PrefixThen(Behind(s.state.value, c), o.event, Run(o.sess, inputs[1..]).1);
  }

  lemma {:induction false} RunRecorded(s: Sess, inputs: seq<Input>, c: Cycle, before: bool)
    returns (cs: seq<Cycle>, last: Cycle, st: State)
    requires InCycle(s, c, before) && ValidInputs(inputs)
    ensures Explained(s, inputs, c, before, cs, last, st)
    decreases |inputs|
  {
    cs, last, st := [], c, s.state.value;
    if inputs == [] {
      ExplainedHere(s, c, before);
    } else if Next(s, inputs[0]).sess.state.None? {
      ExplainedDied(s, inputs, c, before);
    } else if st.ResetContext? {
      var after := After(c, before);
      cs, last, st := RunRecorded(Next(s, inputs[0]).sess, inputs[1..], Blank(after, []), after);
      ExplainedReset(s, inputs, c, before, cs, last, st);
      cs := [c] + cs;
    } else {
      var c' := Advance(s, c, before, inputs[0]);
      cs, last, st := RunRecorded(Next(s, inputs[0]).sess, inputs[1..], c', before);
      ExplainedOn(s, inputs, c, c', before, cs, last, st);
    }
  }

  /** Every run of a new session is a sequence of complete cycles and the beginning of one more, up
      to state st, perhaps ended by the machine terminating in st, which then is one of the four I/O
      states; startup is left behind once, and from then on only requests that passed every plugin
      of their own cycle are forwarded. */
  lemma RunsAreCycles(inputs: seq<Input>) returns (cs: seq<Cycle>, c: Cycle, st: State)
    requires ValidInputs(inputs)
    ensures AllowedAll(cs, false) && Allowed(c, AfterAll(cs, false)) && Visits(st, c) && Behind(st, c) <= CycleEvents(c)
    ensures forall i | 0 <= i < |cs| :: Wellformed(cs[i])
    ensures var (s, es) := Run(NEW_SESSION, inputs);
            && es == AllEvents(cs) + Behind(st, c) + (if s.state.None? then [Died] else [])
            && (s.state.None? ==> Needs(st).Some?)
            && (s.state.Some? ==> s.state.value == st && Inv(s))
  {
    var blank := Blank(false, []);
    cs, c, st := RunRecorded(NEW_SESSION, inputs, blank, false);
    var (s, es) := Run(NEW_SESSION, inputs);
    assert Behind(PrepareToReceiveRequest, blank) + es == es;
    BehindIsPrefix(st, c);
  }

  // ---------- what a forwarded request has passed ----------

  /** The session before its action i. */
  function Before(s: Sess, inputs: seq<Input>, i: nat): Sess
    requires ValidInputs(inputs) && i <= |inputs|
  {
    Run(s, inputs[..i]).0
  }

  lemma {:induction false} BeforeStep(s: Sess, inputs: seq<Input>, i: nat)
    requires Inv(s) && ValidInputs(inputs) && i < |inputs| && i < |Run(s, inputs).1|
    ensures var b := Before(s, inputs, i);
            && Inv(b) && b.state.Some? && Run(s, inputs).1[i] == Next(b, inputs[i]).event
            && Before(s, inputs, i + 1) == Next(b, inputs[i]).sess
    decreases i
  {
    hide Next, Inv;
    if i == 0 {
      var o := Next(s, inputs[0]);
      RunStep(s, inputs);
      RunStep(s, inputs[..1]);
      assert inputs[..0] == [] && inputs[..1][1..] == [] && Run(o.sess, []) == (o.sess, []);
    } else {
      NextKeeps(s, inputs[0]);
      assert inputs[..i][1..] == inputs[1..][..i - 1] && inputs[..i + 1][1..] == inputs[1..][..i];
      BeforeStep(Next(s, inputs[0]).sess, inputs[1..], i - 1);
    }
  }

  /** What takes a session to the request's way out. */
  lemma OnlyWayToForward(s: Sess, inp: Input)
    requires Inv(s) && s.state.Some? && ValidInput(inp)
    ensures Next(s, inp).sess.state == Some(ForwardRequest) ==> s.state == Some(PrepareToForwardRequest)
    ensures Next(s, inp).sess.state == Some(PrepareToForwardRequest) ==>
              if s.initiated then s.state == Some(ApplyPreRequestPlugins) && PreRun(inp.pre, None).1.PluginsPassed?
              else s.state == Some(Initiate)
  {
  }

  lemma ForwardsInForward(s: Sess, inp: Input)
    requires s.state.Some? && (s.state.value == ApplyPreRequestPlugins ==> ValidInput(inp))
    ensures Next(s, inp).event.RequestForwarded? ==> s.state == Some(ForwardRequest)
  {
  }

  /** A request that is forwarded after startup has passed every plugin two actions before. */
  lemma ForwardedHasPassed(inputs: seq<Input>, i: nat)
    requires ValidInputs(inputs) && i < |Run(NEW_SESSION, inputs).1| && i < |inputs|
    requires Run(NEW_SESSION, inputs).1[i].RequestForwarded?
    ensures i >= 2
    ensures Before(NEW_SESSION, inputs, i - 2).initiated ==>
              && Run(NEW_SESSION, inputs).1[i - 2].PluginsPassed?
              && AllPass(inputs[i - 2].pre)
  {
    hide Next, Inv;
    var s := NEW_SESSION;
    NewSessionInv();
    BeforeStep(s, inputs, i);
    ForwardsInForward(Before(s, inputs, i), inputs[i]);
    assert Run(s, inputs[..0]) == (s, []);
    assert i > 0;
    BeforeStep(s, inputs, i - 1);
    OnlyWayToForward(Before(s, inputs, i - 1), inputs[i - 1]);
    assert i > 1;
    BeforeStep(s, inputs, i - 2);
    OnlyWayToForward(Before(s, inputs, i - 2), inputs[i - 2]);
    if Before(s, inputs, i - 2).initiated {
      GateOpensIff(inputs[i - 2].pre, None);
      PassedEvent(Before(s, inputs, i - 2), inputs[i - 2]);
    }
  }

  lemma NewSessionInv()
    ensures Inv(NEW_SESSION)
  {
  }

  lemma PassedEvent(s: Sess, inp: Input)
    requires s.state == Some(ApplyPreRequestPlugins) && ValidInput(inp) && PreRun(inp.pre, None).1.PluginsPassed?
    ensures Next(s, inp).event.PluginsPassed?
  {
  }

  /** No receive of a run finds its buffer hand-written, so the growth invariant of the buffers
      holds throughout and the resizing branch is never taken. */
  lemma {:induction false} NoManualReceive(s: Sess, inputs: seq<Input>, i: nat)
    requires Inv(s) && ValidInputs(inputs) && i < |inputs|
    ensures var (s', _) := Run(s, inputs[..i]);
            Inv(s') && (s'.state.Some? ==> !Next(s', inputs[i]).manual)
    decreases i
  {
    if i == 0 || s.state.None? {
      if s.state.Some? { NextKeeps(s, inputs[i]); }
    } else {
      NextKeeps(s, inputs[0]);
      assert inputs[..i][1..] == inputs[1..][..i - 1];
      NoManualReceive(Next(s, inputs[0]).sess, inputs[1..], i - 1);
    }
  }
}
