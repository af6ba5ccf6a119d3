/**
 The connection pool. Pool is the interleaved model: a release checks the size of the queue without
 its lock and pushes later, and every other thread may run in between. The classes are the code.
 */
module ConnPool {
  import opened Results

  /** A connection, by the number of connections opened before it. */
  type Conn = nat

  /** What the owner of a connection is doing: using it; destroying it, before the size check; or
      past the check, about to push a new connection in its place. */
  datatype Stage = Using | Ending | Renewing

  /** lost counts releases whose check was false. */
  datatype Pool = Pool(size: nat, idle: seq<Conn>, users: map<Conn, Stage>, made: nat, lost: nat)

  datatype Step = Acquire | Destroy(c: Conn) | Check(c: Conn) | Renew(c: Conn)

  function Upto(n: nat): seq<Conn> {
    seq(n, i requires 0 <= i < n => i)
  }

  function FullPool(size: nat): Pool {
    Pool(size, Upto(size), map[], size, 0)
  }

  predicate Enabled(p: Pool, step: Step) {
    match step
    case Acquire => true
    case Destroy(c) => c in p.users && p.users[c].Using?
    case Check(c) => c in p.users && p.users[c].Ending?
    case Renew(c) => c in p.users && p.users[c].Renewing?
  }

  function Do(p: Pool, step: Step): Pool
    requires Enabled(p, step)
  {
    match step
    case Acquire => if p.idle == [] then p else p.(idle := p.idle[1..], users := p.users[p.idle[0] := Using])
    case Destroy(c) => p.(users := p.users[c := Ending])
    case Check(c) =>
      if p.size > |p.idle| then p.(users := p.users[c := Renewing])
      else p.(users := p.users - {c}, lost := p.lost + 1)
    case Renew(c) => p.(users := p.users - {c}, idle := p.idle + [p.made], made := p.made + 1)
  }

  /** Idle, used and being released together are the pool's size; no connection is in two places. */
  predicate Balanced(p: Pool) {
    && |p.idle| + |p.users| == p.size && p.lost == 0
    && (forall i, j | 0 <= i < j < |p.idle| :: p.idle[i] != p.idle[j])
    && (forall c | c in p.idle :: c !in p.users && c < p.made)
    && (forall c | c in p.users :: c < p.made)
  }

  lemma UsersShrink(users: map<Conn, Stage>, c: Conn)
    requires c in users
    ensures |users - {c}| == |users| - 1
  {
    assert users.Keys == (users - {c}).Keys + {c};
  }

  lemma UsersGrow(users: map<Conn, Stage>, c: Conn, stage: Stage)
    ensures |users[c := stage]| == |users| + if c in users then 0 else 1
  {
    assert users[c := stage].Keys == users.Keys + {c};
    if c in users { assert users[c := stage].Keys == users.Keys; }
  }

  /** Whoever is releasing, the queue is short of at least that connection. */
  lemma CheckHolds(p: Pool, c: Conn)
    requires Balanced(p) && c in p.users
    ensures p.size > |p.idle|
  {
    UsersShrink(p.users, c);
  }

  lemma AcquireBalanced(p: Pool)
    requires Balanced(p) && p.idle != []
    ensures Balanced(p.(idle := p.idle[1..], users := p.users[p.idle[0] := Using]))
  {
    UsersGrow(p.users, p.idle[0], Using);
    var p' := p.(idle := p.idle[1..], users := p.users[p.idle[0] := Using]);
    assert p.idle[0] in p.idle;
    forall d | d in p'.idle ensures d !in p'.users && d < p'.made {
      var i :| 0 <= i < |p'.idle| && p'.idle[i] == d;
      assert p.idle[i + 1] == d;
    }
  }

  lemma RenewBalanced(p: Pool, c: Conn)
    requires Balanced(p) && c in p.users
    ensures Balanced(p.(users := p.users - {c}, idle := p.idle + [p.made], made := p.made + 1))
  {
    UsersShrink(p.users, c);
    var p' := p.(users := p.users - {c}, idle := p.idle + [p.made], made := p.made + 1);
    assert |p'.idle| + |p'.users| == p'.size;
    forall d | d in p'.idle ensures d !in p'.users && d < p'.made {
      assert d in p.idle || d == p.made;
    }
    forall d | d in p'.users ensures d < p'.made { assert d in p.users; }
    forall i, j | 0 <= i < j < |p'.idle| ensures p'.idle[i] != p'.idle[j] { assert p'.idle[i] in p.idle; }
  }

  lemma StageBalanced(p: Pool, c: Conn, stage: Stage)
    requires Balanced(p) && c in p.users
    ensures Balanced(p.(users := p.users[c := stage]))
  {
    UsersGrow(p.users, c, stage);
    var p' := p.(users := p.users[c := stage]);
    assert |p'.idle| + |p'.users| == p'.size;
  }

  lemma StepBalanced(p: Pool, step: Step)
    requires Balanced(p) && Enabled(p, step)
    ensures Balanced(Do(p, step))
  {
    hide Balanced;
    match step
    case Acquire => if p.idle != [] { AcquireBalanced(p); }
    case Destroy(c) => StageBalanced(p, c, Ending);
    case Check(c) => CheckHolds(p, c); StageBalanced(p, c, Renewing);
    case Renew(c) => RenewBalanced(p, c);
  }

  predicate Runnable(p: Pool, steps: seq<Step>)
    decreases |steps|
  {
    steps == [] || (Enabled(p, steps[0]) && Runnable(Do(p, steps[0]), steps[1..]))
  }

  function RunOf(p: Pool, steps: seq<Step>): Pool
    requires Runnable(p, steps)
    decreases |steps|
  {
    if steps == [] then p else RunOf(Do(p, steps[0]), steps[1..])
  }

  lemma {:induction false} RunBalanced(p: Pool, steps: seq<Step>)
    requires Balanced(p) && Runnable(p, steps)
    ensures Balanced(RunOf(p, steps)) && RunOf(p, steps).size == p.size
    decreases |steps|
  {
    if steps != [] {
      StepBalanced(p, steps[0]);
      RunBalanced(Do(p, steps[0]), steps[1..]);
    }
  }

  /** In every interleaving of acquires and releases the unguarded check never fails, so no
      connection is lost or added; and while a release is under way the queue is always short, so
      the check would pass on an outdated size as well. */
  lemma CheckNeverFails(size: nat, steps: seq<Step>, c: Conn)
    requires Runnable(FullPool(size), steps)
    ensures var p := RunOf(FullPool(size), steps);
            && p.lost == 0 && |p.idle| + |p.users| == size
            && (c in p.users ==> |p.idle| < size)
  {
    RunBalanced(FullPool(size), steps);
    var p := RunOf(FullPool(size), steps);
    if c in p.users { CheckHolds(p, c); }
  }

  // ---------- the code ----------

  /** The first wake-up that finds something. */
  predicate FirstTurn<T>(turns: seq<seq<T>>, i: int) {
    0 <= i < |turns| && turns[i] != [] && forall j | 0 <= j < i :: turns[j] == []
  }

  class BlockingQueue<T> {
    var q: seq<T>

    constructor ()
      ensures q == []
    {
      q := [];
    }

    method Push(item: T)
      modifies this
      ensures q == old(q) + [item]
    {
      q := q + [item];
    }

    /** turns says what the queue holds at each wake-up, whatever other threads did meanwhile; after
        them the time runs out with the queue as last says. Takes the front of the first non-empty
        queue seen before that, and gives up on the last one unseen. */
    method Pop(turns: seq<seq<T>>, last: seq<T>) returns (item: Option<T>)
      modifies this
      ensures item.None? <==> old(q) == [] && forall i | 0 <= i < |turns| :: turns[i] == []
      ensures item.None? ==> q == last
      ensures item.Some? && old(q) != [] ==> [item.value] + q == old(q)
      ensures item.Some? && old(q) == [] ==> exists i :: FirstTurn(turns, i) && [item.value] + q == turns[i]
    {
      var i := 0;
      while q == []
        invariant 0 <= i <= |turns|
        invariant old(q) != [] ==> i == 0 && q == old(q)
        invariant old(q) == [] ==> q == if i == 0 then [] else turns[i - 1]
        invariant forall j | 0 <= j < i - 1 :: turns[j] == []
        decreases |turns| - i
      {
        if i == |turns| {
          q := last;
          return None;
        }
        q := turns[i];
        i := i + 1;
      }
      item := Some(q[0]);
      assert [q[0]] + q[1..] == q;
      assert old(q) == [] ==> FirstTurn(turns, i - 1) && [q[0]] + q[1..] == turns[i - 1];
      q := q[1..];
    }

    method Size() returns (n: nat)
      ensures n == |q|
    {
      n := |q|;
    }
  }

  class PqxxConnPool {
    const size: nat
    const conns: BlockingQueue<Conn>
    var made: nat

    constructor (size: nat)
      ensures this.size == size && fresh(conns)
      ensures conns.q == FullPool(size).idle && made == FullPool(size).made
    {
      this.size := size;
      conns := new BlockingQueue();
      made := 0;
      new;
      while made < size
        invariant 0 <= made <= size && conns.q == Upto(made)
        modifies this, conns
      {
        conns.Push(made);
        made := made + 1;
      }
    }

    /** Nothing when the time is up, even if a connection has come back just then. */
    method Acquire(turns: seq<seq<Conn>>, last: seq<Conn>) returns (c: Option<Conn>)
      modifies conns
      ensures c.Some? && old(conns.q) != [] ==> c == Some(old(conns.q)[0]) && conns.q == old(conns.q)[1..]
      ensures c.Some? && old(conns.q) == [] ==> exists i :: FirstTurn(turns, i) && [c.value] + conns.q == turns[i]
      ensures c.None? <==> old(conns.q) == [] && forall i | 0 <= i < |turns| :: turns[i] == []
      ensures c.None? ==> conns.q == last
    {
      c := conns.Pop(turns, last);
      if c.Some? && old(conns.q) != [] {
        assert ([c.value] + conns.q)[1..] == conns.q;
      }
    }

    /** Called by the connection's destructor. With nobody in between it is the check and the renewal
        of the model. */
    method Release(ghost p: Pool, ghost c: Conn)
      requires p.size == size && p.idle == conns.q && p.made == made && Enabled(p, Check(c))
      modifies this, conns
      ensures var p' := Do(p, Check(c));
              if Enabled(p', Renew(c)) then conns.q == Do(p', Renew(c)).idle && made == Do(p', Renew(c)).made
              else conns.q == p'.idle && made == p'.made
    {
      var n := conns.Size();
      if size > n {
        conns.Push(made);
        made := made + 1;
      }
    }
  }
}
