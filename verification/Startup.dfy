/**
 The parameters of a StartupMessage: names and values as C strings after the eight bytes of
 length and protocol version, closed by an empty name (section 55.7 of the PostgreSQL 16
 documentation).
 */
module Startup {
  import opened Results
  import opened Wire
  import opened Buffers

  type Params = map<seq<byte>, seq<byte>>

  const USER: seq<byte> := [117, 115, 101, 114]
  const DATABASE: seq<byte> := [100, 97, 116, 97, 98, 97, 115, 101]

  /** One turn of the loop: the pair is stored, and a user names the database until one is known. */
  function Store(params: Params, name: seq<byte>, val: seq<byte>): Params {
    var stored := params[name := val];
    if name == USER && DATABASE !in stored then stored[DATABASE := val] else stored
  }

  function StoreAll(params: Params, pairs: seq<(seq<byte>, seq<byte>)>): Params
    decreases |pairs|
  {
    if pairs == [] then params else StoreAll(Store(params, pairs[0].0, pairs[0].1), pairs[1..])
  }

  // ---------- the loop is safe on any received bytes ----------

  lemma {:induction false} StringEndBefore(data: seq<byte>, pos: nat, zero: nat)
    requires pos <= zero < |data| && data[zero] == 0
    ensures StringEnd(data, pos).Some? && StringEnd(data, pos).value <= zero
    decreases zero - pos
  {
    if data[pos] != 0 { StringEndBefore(data, pos + 1, zero); }
  }

  /** The name and value at pos and the position after them; None when a read leaves the data. */
  function PairAt(data: seq<byte>, pos: nat): (r: Option<(seq<byte>, seq<byte>, nat)>)
    ensures r.Some? ==> pos < r.value.2 <= |data|
  {
    match StringEnd(data, pos)
    case None => None
    case Some(nameEnd) =>
      match StringEnd(data, nameEnd + 1)
      case None => None
      case Some(valEnd) => Some((data[pos..nameEnd], data[nameEnd + 1..valEnd], valEnd + 1))
  }

  /** What the loop makes of the bytes from pos on; None when a read would leave the data. */
  function Parse(data: seq<byte>, pos: nat, params: Params): Option<Params>
    decreases |data| - pos
  {
    if pos >= |data| then None
    else if data[pos] == 0 then Some(params)
    else
      match PairAt(data, pos)
      case None => None
      case Some((name, val, next)) => Parse(data, next, Store(params, name, val))
  }

  lemma PairStaysInside(content: seq<byte>, pos: nat)
    requires pos <= |content| && Filled(content).buf[pos] != 0
    ensures var data := Filled(content).buf;
            PairAt(data, pos).Some? && PairAt(data, pos).value.2 <= |content| + 2 < |data|
  {
    FilledFacts(content);
    var data := Filled(content).buf;
    StringEndBefore(data, pos, |content|);
    StringEndBefore(data, StringEnd(data, pos).value + 1, |content| + 1);
  }

  /** However malformed the bytes, the zeros behind them stop the loop inside the vector. */
  lemma {:induction false} ParseStaysInside(content: seq<byte>, pos: nat, params: Params)
    requires pos <= |content| + 2
    ensures Parse(Filled(content).buf, pos, params).Some?
    decreases |content| + 2 - pos
  {
    FilledFacts(content);
    var data := Filled(content).buf;
    if data[pos] != 0 {
      PairStaysInside(content, pos);
      var (name, val, next) := PairAt(data, pos).value;
      ParseStaysInside(content, next, Store(params, name, val));
    }
  }

  /** The loop of the initiate action over a received request of more than eight bytes. */
  method ParseParameters(request: Buffer, params: Params, ghost content: seq<byte>) returns (out: Params)
    requires request.View() == Filled(content) && |content| > 8
    ensures Parse(request.buf, 8, params) == Some(out)
  {
    out := params;
    var data, pos := request.buf, 8;
    FilledFacts(content);
    ParseStaysInside(content, 8, params);
    while data[pos] != 0
      invariant pos <= |content| + 2 < |data|
      invariant Parse(data, pos, out) == Parse(data, 8, params)
      decreases |data| - pos
    {
      PairStaysInside(content, pos);
      var nameEnd := StringEnd(data, pos).value;
      var name := data[pos..nameEnd];
      var valEnd := StringEnd(data, nameEnd + 1).value;
      var val := data[nameEnd + 1..valEnd];
      assert PairAt(data, pos) == Some((name, val, valEnd + 1));
      pos := valEnd + 1;
      out := out[name := val];
      if name == USER && DATABASE !in out {
        out := out[DATABASE := val];
      }
    }
  }

  // ---------- well-formed messages ----------

  predicate Encodable(pairs: seq<(seq<byte>, seq<byte>)>) {
    forall i | 0 <= i < |pairs| :: pairs[i].0 != [] && NulFree(pairs[i].0) && NulFree(pairs[i].1)
  }

  function EncodePairs(pairs: seq<(seq<byte>, seq<byte>)>): seq<byte> {
    if pairs == [] then [0] else pairs[0].0 + [0] + pairs[0].1 + [0] + EncodePairs(pairs[1..])
  }

  ghost predicate PairsAt(data: seq<byte>, pos: nat, pairs: seq<(seq<byte>, seq<byte>)>) {
    var stop := pos + |EncodePairs(pairs)|;
    stop <= |data| && data[pos..stop] == EncodePairs(pairs)
  }

  lemma PairShape(pairs: seq<(seq<byte>, seq<byte>)>)
    requires pairs != []
    ensures var (name, val) := pairs[0]; var code := EncodePairs(pairs); var n, m := |name|, |name| + 1 + |val|;
            && |code| == m + 1 + |EncodePairs(pairs[1..])|
            && code[..n] == name && code[n] == 0 && code[n + 1..m] == val && code[m] == 0
            && code[m + 1..] == EncodePairs(pairs[1..])
  {
    var (name, val) := pairs[0];
    FourParts(name, val, EncodePairs(pairs[1..]));
  }

  lemma FourParts(name: seq<byte>, val: seq<byte>, rest: seq<byte>)
    ensures var code := name + [0] + val + [0] + rest; var n, m := |name|, |name| + 1 + |val|;
            && code[..n] == name && code[n] == 0 && code[n + 1..m] == val && code[m] == 0 && code[m + 1..] == rest
  {
    var a := name + [0];
    var b := a + val;
    assert a[..|name|] == name;
    assert b[..|a|] == a && b[|a|..] == val;
    var code := b + [0] + rest;
    assert code == b + ([0] + rest);
    assert code[..|b|] == b;
    assert code[|b|..] == [0] + rest;
    SliceOfSlice(code, 0, |b|, |a|, |b|);
    SliceOfSlice(code, 0, |b|, 0, |name|);
    assert b[0..|name|] == a[..|name|];
    assert code[|b|..][1..] == rest;
  }

  lemma FirstPairText(data: seq<byte>, pos: nat, pairs: seq<(seq<byte>, seq<byte>)>)
    requires pairs != [] && PairsAt(data, pos, pairs)
    ensures var (name, val) := pairs[0]; var n, m := pos + |name|, pos + |name| + 1 + |val|;
            && m < |data| && data[pos..n] == name && data[n] == 0 && data[n + 1..m] == val && data[m] == 0
            && PairsAt(data, m + 1, pairs[1..])
  {
    PairShape(pairs);
    var (name, val) := pairs[0];
    var code := EncodePairs(pairs);
    var n, m, stop := |name|, |name| + 1 + |val|, pos + |code|;
    assert data[pos..stop][n] == data[pos + n] && data[pos..stop][m] == data[pos + m];
    SliceOfSlice(data, pos, stop, 0, n);
    SliceOfSlice(data, pos, stop, n + 1, m);
    SliceOfSlice(data, pos, stop, m + 1, |code|);
    assert code[m + 1..|code|] == code[m + 1..] && code[0..n] == code[..n];
  }

  lemma FirstPair(data: seq<byte>, pos: nat, pairs: seq<(seq<byte>, seq<byte>)>)
    requires pairs != [] && Encodable(pairs) && PairsAt(data, pos, pairs)
    ensures var (name, val) := pairs[0]; var next := pos + |name| + |val| + 2;
            && pos < |data| && data[pos] != 0
            && PairAt(data, pos) == Some((name, val, next))
            && PairsAt(data, next, pairs[1..])
  {
    FirstPairText(data, pos, pairs);
    var (name, val) := pairs[0];
    var n := pos + |name|;
    assert data[pos] == data[pos..n][0] == name[0];
    StringEndAt(data, pos, n);
    StringEndAt(data, n + 1, n + 1 + |val|);
  }

  lemma {:induction false} ParseEncoded(data: seq<byte>, pos: nat, pairs: seq<(seq<byte>, seq<byte>)>, params: Params)
    requires Encodable(pairs) && PairsAt(data, pos, pairs)
    ensures Parse(data, pos, params) == Some(StoreAll(params, pairs))
    decreases |pairs|
  {
    if pairs == [] {
      assert data[pos..pos + 1][0] == 0;
    } else {
      FirstPair(data, pos, pairs);
      var (name, val) := pairs[0];
      ParseEncoded(data, pos + |name| + |val| + 2, pairs[1..], Store(params, name, val));
    }
  }

  function LastOf(pairs: seq<(seq<byte>, seq<byte>)>, name: seq<byte>): Option<seq<byte>> {
    if pairs == [] then None
    else if pairs[|pairs| - 1].0 == name then Some(pairs[|pairs| - 1].1)
    else LastOf(pairs[..|pairs| - 1], name)
  }

  function FirstOf(pairs: seq<(seq<byte>, seq<byte>)>, name: seq<byte>): Option<seq<byte>> {
    if pairs == [] then None
    else if pairs[0].0 == name then Some(pairs[0].1)
    else FirstOf(pairs[1..], name)
  }

  function Find(params: Params, name: seq<byte>): Option<seq<byte>> {
    if name in params then Some(params[name]) else None
  }

  lemma {:induction false} StoreSnoc(params: Params, pairs: seq<(seq<byte>, seq<byte>)>, p: (seq<byte>, seq<byte>))
    ensures StoreAll(params, pairs + [p]) == Store(StoreAll(params, pairs), p.0, p.1)
    decreases |pairs|
  {
    if pairs == [] {
      assert ([] + [p])[1..] == [];
    } else {
      assert (pairs + [p])[1..] == pairs[1..] + [p];
      StoreSnoc(Store(params, pairs[0].0, pairs[0].1), pairs[1..], p);
    }
  }

  lemma {:induction false} FirstSnoc(pairs: seq<(seq<byte>, seq<byte>)>, p: (seq<byte>, seq<byte>), name: seq<byte>)
    ensures FirstOf(pairs + [p], name) ==
            if FirstOf(pairs, name).Some? then FirstOf(pairs, name) else if p.0 == name then Some(p.1) else None
  {
    if pairs == [] {
      assert ([] + [p])[1..] == [];
    } else {
      assert (pairs + [p])[1..] == pairs[1..] + [p];
      FirstSnoc(pairs[1..], p, name);
    }
  }

  /** Every name keeps its last value; the database is the last one given anywhere, else the
      first user, in whatever order they come. */
  lemma {:induction false} StoredValues(pairs: seq<(seq<byte>, seq<byte>)>, name: seq<byte>)
    ensures Find(StoreAll(map[], pairs), name) ==
            if name == DATABASE && LastOf(pairs, DATABASE).None? then FirstOf(pairs, USER) else LastOf(pairs, name)
    decreases |pairs|
  {
    if pairs != [] {
      var init, p := pairs[..|pairs| - 1], pairs[|pairs| - 1];
      assert pairs == init + [p];
      StoreSnoc(map[], init, p);
      FirstSnoc(init, p, USER);
      StoredValues(init, name);
      StoredValues(init, DATABASE);
      assert USER[0] != DATABASE[0];
    }
  }

  /** A well-formed message, followed by anything, is recovered whatever the order of its pairs. */
  lemma StartupRecovered(header: seq<byte>, pairs: seq<(seq<byte>, seq<byte>)>, more: seq<byte>, name: seq<byte>)
    requires |header| == 8 && Encodable(pairs)
    ensures var params := Parse(Filled(header + EncodePairs(pairs) + more).buf, 8, map[]);
            && params.Some?
            && Find(params.value, name) ==
               if name == DATABASE && LastOf(pairs, DATABASE).None? then FirstOf(pairs, USER) else LastOf(pairs, name)
  {
    var content := header + EncodePairs(pairs) + more;
    var data := Filled(content).buf;
    FilledFacts(content);
    assert data[..|content|] == content;
    assert data[8..8 + |EncodePairs(pairs)|] == data[..|content|][8..8 + |EncodePairs(pairs)|] == EncodePairs(pairs);
    ParseEncoded(data, 8, pairs, map[]);
    StoredValues(pairs, name);
  }
}
