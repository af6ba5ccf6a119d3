/**
 What the plugins of a cycle leave: which query goes on, which error is answered. Told by single
 plugins, without reference to the loops over them.
 */
module PluginGate {
  import opened Results
  import opened Session

  predicate AllPass(runs: seq<PluginRun>) {
    forall n | 0 <= n < |runs| :: runs[n].verdict.Pass?
  }

  predicate NoneSet(runs: seq<PluginRun>) {
    forall n | 0 <= n < |runs| :: runs[n].query.None?
  }

  /** Some plugin set this query and no later one set any. */
  predicate LastSet(runs: seq<PluginRun>, q: Bytes) {
    exists n :: 0 <= n < |runs| && runs[n].query == Some(q) && NoneSet(runs[n + 1..])
  }

  /** What a plugin that did not pass has answered: its own error, or the internal one, ERROR and XX000
      under S and C, with the text of the exception under M. */
  predicate Answers(v: Verdict, err: Error) {
    match v
    case Pass => false
    case Refuse(own) => err == own
    case Throw(text) => err == map[83 := [69, 82, 82, 79, 82], 67 := [88, 88, 48, 48, 48], 77 := text]
  }

  /** The error is what the first plugin that did not pass answers. */
  predicate FirstAnswers(runs: seq<PluginRun>, err: Error) {
    exists n :: 0 <= n < |runs| && Answers(runs[n].verdict, err) && AllPass(runs[..n])
  }

  predicate NoneThrows(runs: seq<PluginRun>) {
    forall n | 0 <= n < |runs| :: !runs[n].verdict.Throw?
  }

  /** The error is what the first plugin that threw answers. */
  predicate FirstThrows(runs: seq<PluginRun>, err: Error) {
    exists n :: 0 <= n < |runs| && runs[n].verdict.Throw? && Answers(runs[n].verdict, err) && NoneThrows(runs[..n])
  }

  // ---------- one plugin and the rest ----------

  lemma PassStep(runs: seq<PluginRun>)
    requires runs != []
    ensures AllPass(runs) <==> runs[0].verdict.Pass? && AllPass(runs[1..])
    ensures NoneThrows(runs) <==> !runs[0].verdict.Throw? && NoneThrows(runs[1..])
    ensures NoneSet(runs) <==> runs[0].query.None? && NoneSet(runs[1..])
  {
    assert forall n | 1 <= n < |runs| :: runs[n] == runs[1..][n - 1];
    assert forall n | 0 <= n < |runs| - 1 :: runs[1..][n] == runs[n + 1];
  }

  lemma LastStep(runs: seq<PluginRun>, q: Bytes)
    requires runs != []
    ensures LastSet(runs, q) <==> LastSet(runs[1..], q) || (runs[0].query == Some(q) && NoneSet(runs[1..]))
    ensures LastSet(runs, q) ==> !NoneSet(runs)
  {
    var rest := runs[1..];
    if LastSet(runs, q) {
      var n :| 0 <= n < |runs| && runs[n].query == Some(q) && NoneSet(runs[n + 1..]);
      if n > 0 { assert rest[n - 1] == runs[n] && rest[n..] == runs[n + 1..]; }
    }
    if LastSet(rest, q) {
      var n :| 0 <= n < |rest| && rest[n].query == Some(q) && NoneSet(rest[n + 1..]);
      assert runs[n + 1] == rest[n] && runs[n + 2..] == rest[n + 1..];
    }
  }

  lemma FirstStep(runs: seq<PluginRun>, err: Error)
    requires runs != []
    ensures FirstAnswers(runs, err) <==>
            if runs[0].verdict.Pass? then FirstAnswers(runs[1..], err) else Answers(runs[0].verdict, err)
  {
    hide Answers;
    var rest := runs[1..];
    if FirstAnswers(runs, err) {
      var n :| 0 <= n < |runs| && Answers(runs[n].verdict, err) && AllPass(runs[..n]);
      if n > 0 { assert runs[..n][0] == runs[0] && rest[n - 1] == runs[n] && rest[..n - 1] == runs[..n][1..]; }
      if n == 0 { NotBoth(runs[0].verdict, err); }
    }
    if runs[0].verdict.Pass? && FirstAnswers(rest, err) {
      var n :| 0 <= n < |rest| && Answers(rest[n].verdict, err) && AllPass(rest[..n]);
      assert runs[n + 1] == rest[n] && runs[..n + 1] == [runs[0]] + rest[..n];
    }
    assert runs[..0] == [];
  }

  lemma NotBoth(v: Verdict, err: Error)
    requires Answers(v, err)
    ensures !v.Pass?
  {
  }

  lemma FirstThrowStep(runs: seq<PluginRun>, err: Error)
    requires runs != []
    ensures FirstThrows(runs, err) <==>
            if runs[0].verdict.Throw? then Answers(runs[0].verdict, err) else FirstThrows(runs[1..], err)
  {
    hide Answers;
    var rest := runs[1..];
    if FirstThrows(runs, err) {
      var n :| 0 <= n < |runs| && runs[n].verdict.Throw? && Answers(runs[n].verdict, err) && NoneThrows(runs[..n]);
      if n > 0 { assert runs[..n][0] == runs[0] && rest[n - 1] == runs[n] && rest[..n - 1] == runs[..n][1..]; }
    }
    if !runs[0].verdict.Throw? && FirstThrows(rest, err) {
      var n :| 0 <= n < |rest| && rest[n].verdict.Throw? && Answers(rest[n].verdict, err) && NoneThrows(rest[..n]);
      assert runs[n + 1] == rest[n] && runs[..n + 1] == [runs[0]] + rest[..n];
    }
    assert runs[..0] == [];
  }

  // ---------- what the loops leave ----------

  lemma {:induction false} PassedFrom(runs: seq<PluginRun>, query: Option<Bytes>, r: Option<Bytes>)
    ensures PreRun(runs, query).1 == PluginsPassed(r) <==>
            AllPass(runs) && if NoneSet(runs) then r == query else r.Some? && LastSet(runs, r.value)
  {
    if runs != [] {
      hide AllPass, NoneSet, LastSet;
      PassStep(runs);
      if r.Some? { LastStep(runs, r.value); }
      if r.Some? && |runs| > 1 { LastStep(runs[1..], r.value); }
      hide NoneThrows;
      PassedFrom(runs[1..], if runs[0].query.Some? then runs[0].query else query, r);
      if |runs| == 1 { NothingSet(runs[1..], r); }
    }
  }

  lemma NothingSet(runs: seq<PluginRun>, r: Option<Bytes>)
    requires runs == []
    ensures NoneSet(runs) && (r.Some? ==> !LastSet(runs, r.value))
  {
  }

  /** The request goes on with a query exactly when every plugin passes and it is the last one that any
      of them set, and as it was received exactly when every plugin passes and none set any. */
  lemma PassedWithLast(runs: seq<PluginRun>, q: Bytes)
    ensures PreRun(runs, None).1 == PluginsPassed(Some(q)) <==> AllPass(runs) && LastSet(runs, q)
    ensures PreRun(runs, None).1 == PluginsPassed(None) <==> AllPass(runs) && NoneSet(runs)
  {
    hide AllPass, NoneSet, LastSet, PreRun;
    PassedFrom(runs, None, Some(q));
    PassedFrom(runs, None, None);
    if runs == [] { NothingSet(runs, Some(q)); } else { LastStep(runs, q); }
  }

  /** It is refused with an error exactly when that is what the first plugin that did not pass answers. */
  lemma {:induction false} RefusedByFirst(runs: seq<PluginRun>, query: Option<Bytes>, err: Error)
    ensures PreRun(runs, query).1 == PluginsRefused(err) <==> FirstAnswers(runs, err)
  {
    if runs != [] {
      FirstStep(runs, err);
      RefusedByFirst(runs[1..], if runs[0].query.Some? then runs[0].query else query, err);
    }
  }

  /** After a response only exceptions show, and of them the first. */
  lemma {:induction false} ThrownByFirst(runs: seq<PluginRun>, err: Error)
    ensures PostRun(runs) == Some(err) <==> FirstThrows(runs, err)
    ensures PostRun(runs) == None <==> NoneThrows(runs)
  {
    if runs != [] {
      PassStep(runs);
      FirstThrowStep(runs, err);
      ThrownByFirst(runs[1..], err);
    }
  }
}
