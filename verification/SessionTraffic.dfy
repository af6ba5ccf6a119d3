/**
 What leaves a session, in terms of what came in: the bytes its sockets delivered and the verdicts
 of its plugins, on every run.
 */
module SessionTraffic {
  import opened Results
  import opened Wire
  import opened Buffers
  import opened Session
  import opened PluginGate
  import opened SessionRuns

  // ---------- single actions ----------

  /** An action ends the session exactly when a receive failed or there is nothing received, or a send
      took nothing. */
  lemma EndsIff(s: Sess, inp: Input)
    requires Inv(s) && s.state.Some? && ValidInput(inp)
    ensures Next(s, inp).event.Died? <==> Next(s, inp).sess.state.None?
    ensures Next(s, inp).sess.state.None? <==>
            match s.state.value
            case ReceiveRequest => inp.end.Failed? || Concat(inp.chunks) == []
            case ForwardRequest => inp.sent <= 0
            case ReceiveResponse => inp.end.Failed? || (s.response.content == [] && Concat(inp.chunks) == [])
            case ForwardResponse => inp.sent <= 0
            case _ => false
  {
  }

  /** The bytes end with a ReadyForQuery message: type Z, length 5, and status I, T or E. */
  ghost predicate EndsReady(data: Bytes) {
    exists head, status :: data == head + [90, 0, 0, 0, 5, status] && status in {73, 84, 69}
  }

  lemma EndsReadyIff(data: Bytes)
    requires |data| >= 6
    ensures EndsReady(data) <==>
            data[|data| - 6..|data| - 1] == [90, 0, 0, 0, 5] && data[|data| - 1] in [73, 84, 69]
  {
    var n := |data|;
    if EndsReady(data) {
      var head, status :| data == head + [90, 0, 0, 0, 5, status] && status in {73, 84, 69};
      assert data[n - 6..n - 1] == [90, 0, 0, 0, 5];
    }
    if data[n - 6..n - 1] == [90, 0, 0, 0, 5] && data[n - 1] in [73, 84, 69] {
      assert data == data[..n - 6] + data[n - 6..n - 1] + [data[n - 1]];
      assert data == data[..n - 6] + [90, 0, 0, 0, 5, data[n - 1]];
    }
  }

  /** A response is complete exactly when startup is not done, or the bytes so far start with an
      authentication message or end with ReadyForQuery; below six bytes the source reads before them. */
  lemma CompleteIff(s: Sess, inp: Input)
    requires s.state == Some(ReceiveResponse) && Next(s, inp).sess.state.Some?
    ensures var data := s.response.content + Concat(inp.chunks);
            data != [] && Next(s, inp).sess.response.content == data &&
            (Next(s, inp).sess.state == Some(ApplyPostResponsePlugins) <==>
              !s.initiated || data[0] == 82 || if |data| < 6 then inp.guess else EndsReady(data))
  {
    var data := s.response.content + Concat(inp.chunks);
    if |data| >= 6 { EndsReadyIff(data); }
  }

  /** The error messages that the proxy composes pass its own readiness test. */
  lemma ErrorIsComplete(err: Error, initiated: bool, guess: bool)
    requires Printable(err)
    ensures EndsReady(EncodeError(err)) && ReadyForQuery(initiated, EncodeError(err), guess)
  {
    var fields := EncodeEntries(ErrorEntries(err));
    var head := [TYPE_ERROR] + Be32(5 + |fields|) + fields + [0];
    assert EncodeError(err) == head + [90, 0, 0, 0, 5, 73];
    EndsReadyIff(EncodeError(err));
  }

  /** The plugins see a request just received, and nothing else is in its buffer. */
  lemma OnlyWayToGate(s: Sess, inp: Input)
    requires Inv(s) && s.state.Some? && ValidInput(inp)
    requires Next(s, inp).sess.state in {Some(Initiate), Some(ApplyPreRequestPlugins)}
    ensures s.state == Some(ReceiveRequest) && Next(s, inp).event == RequestReceived(Concat(inp.chunks))
    ensures Next(s, inp).sess.request.content == Concat(inp.chunks) && Next(s, inp).sess.initiated == s.initiated
    ensures Next(s, inp).sess.state == Some(ApplyPreRequestPlugins) <==> s.initiated
  {
    assert [] + Concat(inp.chunks) == Concat(inp.chunks);
  }

  /** What the gate lets through. */
  lemma GateHolds(s: Sess, inp: Input)
    requires Inv(s) && s.state.Some? && ValidInput(inp)
    requires Next(s, inp).sess.state == Some(PrepareToForwardRequest)
    ensures s.state in {Some(Initiate), Some(ApplyPreRequestPlugins)}
    ensures s.state == Some(Initiate) ==> Next(s, inp).sess.request == s.request
    ensures s.state == Some(ApplyPreRequestPlugins) ==>
              && AllPass(inp.pre)
              && (NoneSet(inp.pre) ==> Next(s, inp).sess.request == s.request)
              && (forall q | LastSet(inp.pre, q) :: Next(s, inp).sess.request.content == EncodeQuery(q))
  {
    hide AllPass, NoneSet, LastSet, PreRun, EncodeQuery;
    if s.state == Some(ApplyPreRequestPlugins) {
      var query := PreRun(inp.pre, None).0;
      assert PreRun(inp.pre, None).1 == PluginsPassed(query);
      forall q ensures LastSet(inp.pre, q) ==> query == Some(q) {
        PassedWithLast(inp.pre, q);
        if query.Some? { PassedWithLast(inp.pre, query.value); }
      }
      if query.Some? { PassedWithLast(inp.pre, query.value); } else { PassedWithLast(inp.pre, []); }
    }
  }

  lemma ForwardHolds(s: Sess, inp: Input)
    requires Inv(s) && s.state.Some? && ValidInput(inp)
    ensures Next(s, inp).event.RequestForwarded? ==>
              s.state == Some(ForwardRequest) && Next(s, inp).event == RequestForwarded(s.request.content)
    ensures Next(s, inp).sess.state == Some(ForwardRequest) ==>
              s.state == Some(PrepareToForwardRequest) && Next(s, inp).sess.request == s.request
  {
  }

  // ---------- requests ----------

  /** What a session sends to the server: two actions before, every plugin passed, and the bytes are
      the message of the last query that any of them set, or else exactly those that the client's
      socket delivered three actions before; before startup is done always those. */
  lemma ForwardedIs(inputs: seq<Input>, i: nat)
    requires ValidInputs(inputs) && i < |inputs| && i < |Run(NEW_SESSION, inputs).1|
    requires Run(NEW_SESSION, inputs).1[i].RequestForwarded?
    ensures i >= 3
    ensures var events := Run(NEW_SESSION, inputs).1;
            var data, received, plugins := events[i].data, Concat(inputs[i - 3].chunks), inputs[i - 2].pre;
            events[i - 3] == RequestReceived(received) &&
            if Before(NEW_SESSION, inputs, i - 2).initiated then
              && AllPass(plugins)
              && (NoneSet(plugins) ==> data == received)
              && (forall q | LastSet(plugins, q) :: data == EncodeQuery(q))
            else data == received
  {
    hide Next, Inv, AllPass, NoneSet, LastSet, EncodeQuery;
    var s := NEW_SESSION;
    NewSessionInv();
    BeforeStep(s, inputs, i);
    ForwardHolds(Before(s, inputs, i), inputs[i]);
    assert Run(s, inputs[..0]) == (s, []);
    assert i > 0;
    BeforeStep(s, inputs, i - 1);
    ForwardHolds(Before(s, inputs, i - 1), inputs[i - 1]);
    assert i > 1;
    BeforeStep(s, inputs, i - 2);
    GateHolds(Before(s, inputs, i - 2), inputs[i - 2]);
    assert i > 2;
    BeforeStep(s, inputs, i - 3);
    OnlyWayToGate(Before(s, inputs, i - 3), inputs[i - 3]);
  }

  /** Startup is done before an action exactly when an earlier startup action had a request of more
      than eight bytes. */
  lemma {:induction false} StartupDoneIff(inputs: seq<Input>, i: nat)
    requires ValidInputs(inputs) && i <= |inputs| && i <= |Run(NEW_SESSION, inputs).1|
    ensures Before(NEW_SESSION, inputs, i).initiated <==>
            exists j :: 1 <= j < i && Run(NEW_SESSION, inputs).1[j].InitiateDone? && |Concat(inputs[j - 1].chunks)| > 8
    decreases i
  {
    hide Next, Inv;
    var s := NEW_SESSION;
    assert Run(s, inputs[..0]) == (s, []);
    if i > 0 {
      StartupDoneIff(inputs, i - 1);
      NewSessionInv();
      BeforeStep(s, inputs, i - 1);
      var b := Before(s, inputs, i - 1);
      StartupStep(b, inputs[i - 1]);
      if b.state == Some(Initiate) {
        assert i > 1;
        BeforeStep(s, inputs, i - 2);
        OnlyWayToGate(Before(s, inputs, i - 2), inputs[i - 2]);
      }
    }
  }

  lemma StartupStep(s: Sess, inp: Input)
    requires Inv(s) && s.state.Some? && ValidInput(inp)
    ensures Next(s, inp).event.InitiateDone? <==> s.state == Some(Initiate)
    ensures Next(s, inp).sess.initiated <==> s.initiated || (s.state == Some(Initiate) && |s.request.content| > 8)
  {
  }

  // ---------- responses ----------

  /** All bytes delivered in these actions. */
  function Delivered(inputs: seq<Input>): Bytes {
    if inputs == [] then [] else Delivered(inputs[..|inputs| - 1]) + Concat(inputs[|inputs| - 1].chunks)
  }

  lemma DeliveredMore(inputs: seq<Input>, k: nat, j: nat)
    requires k < j < |inputs|
    ensures Delivered(inputs[k + 1..j + 1]) == Delivered(inputs[k + 1..j]) + Concat(inputs[j].chunks)
  {
    var parts := inputs[k + 1..j + 1];
    assert parts[..|parts| - 1] == inputs[k + 1..j] && parts[|parts| - 1] == inputs[j];
  }

  /** From action k on the session prepared for a response and then received parts of it up to action j. */
  ghost predicate Receiving(inputs: seq<Input>, k: nat, j: nat)
    requires ValidInputs(inputs)
  {
    var events := Run(NEW_SESSION, inputs).1;
    && k < j <= |events| && j <= |inputs| && events[k] == Prepared(Interest(Server, In))
    && (forall m | k < m < j :: events[m].ResponsePart?)
    && Before(NEW_SESSION, inputs, j).response.content == Delivered(inputs[k + 1..j])
  }

  lemma ReceivingStep(s: Sess, inp: Input)
    requires Inv(s) && s.state.Some? && ValidInput(inp) && Next(s, inp).sess.state == Some(ReceiveResponse)
    ensures if s.state == Some(ReceiveResponse) then
              && Next(s, inp).event.ResponsePart?
              && Next(s, inp).sess.response.content == s.response.content + Concat(inp.chunks)
            else Next(s, inp).event == Prepared(Interest(Server, In)) && Next(s, inp).sess.response.content == []
  {
  }

  lemma ReceivingMore(inputs: seq<Input>, k: nat, j: nat)
    requires ValidInputs(inputs) && Receiving(inputs, k, j) && j < |inputs| && j < |Run(NEW_SESSION, inputs).1|
    requires Run(NEW_SESSION, inputs).1[j].ResponsePart?
    requires Before(NEW_SESSION, inputs, j + 1).response.content
             == Before(NEW_SESSION, inputs, j).response.content + Concat(inputs[j].chunks)
    ensures Receiving(inputs, k, j + 1)
  {
    hide Run, Before, ValidInputs, ValidInput;
    DeliveredMore(inputs, k, j);
  }

  lemma {:induction false} ResponseSoFar(inputs: seq<Input>, j: nat) returns (k: nat)
    requires ValidInputs(inputs) && j <= |inputs| && j <= |Run(NEW_SESSION, inputs).1|
    requires Before(NEW_SESSION, inputs, j).state == Some(ReceiveResponse)
    ensures Receiving(inputs, k, j)
    decreases j
  {
    hide Next, Inv;
    var s := NEW_SESSION;
    assert Run(s, inputs[..0]) == (s, []);
    assert j > 0;
    NewSessionInv();
    BeforeStep(s, inputs, j - 1);
    var b := Before(s, inputs, j - 1);
    ReceivingStep(b, inputs[j - 1]);
    if b.state == Some(ReceiveResponse) {
      k := ResponseSoFar(inputs, j - 1);
      ReceivingMore(inputs, k, j - 1);
    } else {
      k := j - 1;
      assert inputs[k + 1..j] == [];
    }
  }

  lemma AnswerHolds(s: Sess, inp: Input)
    requires Inv(s) && s.state.Some? && ValidInput(inp)
    ensures Next(s, inp).event.ResponseForwarded? ==>
              s.state == Some(ForwardResponse) && Next(s, inp).event == ResponseForwarded(s.response.content)
    ensures Next(s, inp).sess.state == Some(ForwardResponse) ==>
              s.state == Some(PrepareToForwardResponse) && Next(s, inp).sess.response == s.response
    ensures Next(s, inp).sess.state == Some(ApplyPostResponsePlugins) ==>
              && s.state == Some(ReceiveResponse) && Next(s, inp).event.ResponseReceived?
              && Next(s, inp).sess.response.content == s.response.content + Concat(inp.chunks)
  {
  }

  lemma AnswerChosen(s: Sess, inp: Input)
    requires Inv(s) && s.state.Some? && ValidInput(inp)
    requires Next(s, inp).sess.state == Some(PrepareToForwardResponse)
    ensures var (event, content) := (Next(s, inp).event, Next(s, inp).sess.response.content);
            match event
            case PluginsRefused(err) =>
              FirstAnswers(inp.pre, err) && Printable(err) && content == EncodeError(err)
            case PostApplied(Some(err)) =>
              && s.state == Some(ApplyPostResponsePlugins)
              && FirstThrows(inp.post, err) && Printable(err) && content == EncodeError(err)
            case PostApplied(None) =>
              s.state == Some(ApplyPostResponsePlugins) && NoneThrows(inp.post) && content == s.response.content
            case _ => false
  {
    hide FirstAnswers, FirstThrows, NoneThrows, PreRun, PostRun, EncodeError;
    if s.state == Some(ApplyPreRequestPlugins) {
      RefusalPrintable(inp.pre, None);
      var gate := PreRun(inp.pre, None).1;
      if gate.PluginsRefused? { RefusedByFirst(inp.pre, None, gate.err); }
    } else {
      var thrown := PostRun(inp.post);
      ThrownByFirst(inp.post, if thrown.Some? then thrown.value else map[]);
    }
  }

  /** What a session sends to the client: the error of the first plugin that did not pass the request,
      or of the first that threw on the response, or else exactly the bytes that the server's socket
      delivered since the session prepared for this response. */
  lemma AnsweredIs(inputs: seq<Input>, i: nat) returns (k: nat)
    requires ValidInputs(inputs) && i < |inputs| && i < |Run(NEW_SESSION, inputs).1|
    requires Run(NEW_SESSION, inputs).1[i].ResponseForwarded?
    ensures i >= 2
    ensures var events := Run(NEW_SESSION, inputs).1; var data := events[i].data;
            match events[i - 2]
            case PluginsRefused(err) =>
              FirstAnswers(inputs[i - 2].pre, err) && Printable(err) && data == EncodeError(err)
            case PostApplied(Some(err)) =>
              FirstThrows(inputs[i - 2].post, err) && Printable(err) && data == EncodeError(err)
            case PostApplied(None) =>
              && NoneThrows(inputs[i - 2].post)
              && k < i - 3 && events[k] == Prepared(Interest(Server, In)) && events[i - 3].ResponseReceived?
              && (forall m | k < m < i - 3 :: events[m].ResponsePart?)
              && data == Delivered(inputs[k + 1..i - 2])
            case _ => false
  {
    hide Next, Inv, FirstAnswers, FirstThrows, NoneThrows, EncodeError;
    var s := NEW_SESSION;
    NewSessionInv();
    assert Run(s, inputs[..0]) == (s, []);
    BeforeStep(s, inputs, i);
    AnswerHolds(Before(s, inputs, i), inputs[i]);
    assert i > 0;
    BeforeStep(s, inputs, i - 1);
    AnswerHolds(Before(s, inputs, i - 1), inputs[i - 1]);
    assert i > 1;
    BeforeStep(s, inputs, i - 2);
    var b := Before(s, inputs, i - 2);
    AnswerChosen(b, inputs[i - 2]);
    k := 0;
    if b.state == Some(ApplyPostResponsePlugins) {
      assert i > 2;
      BeforeStep(s, inputs, i - 3);
      AnswerHolds(Before(s, inputs, i - 3), inputs[i - 3]);
      k := ResponseSoFar(inputs, i - 3);
      DeliveredMore(inputs, k, i - 3);
    }
  }
}
