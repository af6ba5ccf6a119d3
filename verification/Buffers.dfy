/**
 The receive buffer that doubles when more than half full, and the two messages the proxy
 writes into such a buffer itself.
 */
module Buffers {
  import opened Wire

  const DEFAULT_SIZE: nat := 1024

  datatype BufState = BufState(buf: seq<byte>, bufSize: nat, dataSize: nat) {
    function Content(): seq<byte>
      requires dataSize <= |buf|
    {
      buf[..dataSize]
    }

    /** The bytes recv may write, buf_size_ of them from the end of the data, lie in the vector. */
    predicate WindowInside() {
      dataSize + bufSize <= |buf|
    }
  }

  function Zeros(n: nat): (z: seq<byte>)
    ensures |z| == n
  {
    seq(n, i => 0)
  }

  /** Half the vector's size once n bytes are held: the start size doubled until n fits. */
  function Capacity(n: nat, start: nat): (size: nat)
    requires start > 0
    ensures n <= size && start <= size
    ensures size == start || size < 2 * n
    decreases if n > start then n - start else 0
  {
    if n <= start then start else Capacity(n, 2 * start)
  }

  /** The one state a buffer of received bytes can be in: it depends on the bytes alone, not on
      how they came in. */
  function Filled(content: seq<byte>): BufState {
    var size := Capacity(|content|, DEFAULT_SIZE);
    BufState(content + Zeros(2 * size - |content|), size, |content|)
  }

  /** The state after the proxy wrote a message by hand. */
  function Manual(content: seq<byte>): BufState {
    BufState(content, 0, |content|)
  }

  /** The resize at the head of RecvFrom for a hand-written buffer. */
  function Resized(content: seq<byte>): BufState {
    var size := if |content| > DEFAULT_SIZE then 2 * DEFAULT_SIZE else DEFAULT_SIZE;
    var buf := if 2 * size <= |content| then content[..2 * size] else content + Zeros(2 * size - |content|);
    BufState(buf, size, |content|)
  }

  /** Why recv stops the loop, after every pending byte was taken. */
  datatype End = Closed | WouldBlock | Failed

  function RecvResult(end: End, dataSize: nat): int {
    match end
    case Closed => dataSize
    case WouldBlock => dataSize
    case Failed => -1
  }

  function Concat(chunks: seq<seq<byte>>): seq<byte> {
    if chunks == [] then [] else chunks[0] + Concat(chunks[1..])
  }

  // ---------- what a filled buffer guarantees ----------

  lemma FilledFacts(content: seq<byte>)
    ensures var b := Filled(content);
            && |b.buf| == 2 * b.bufSize && b.dataSize <= b.bufSize && b.bufSize >= 1024
            && b.WindowInside() && b.Content() == content
            && (forall i | b.dataSize <= i < |b.buf| :: b.buf[i] == 0)
            && (|b.buf| == 2048 || |b.buf| < 4 * |content|)
  {
    assert Filled(content).buf[..|content|] == content;
  }

  /** One received chunk takes a filled buffer to a filled buffer, and one doubling is enough. */
  lemma CapacityStep(n: nat, m: nat, start: nat)
    requires start > 0 && m <= Capacity(n, start)
    ensures var size := Capacity(n, start);
            Capacity(n + m, start) == if n + m > size then 2 * size else size
    decreases if n > start then n - start else 0
  {
    if n > start { CapacityStep(n, m, 2 * start); }
  }

  /** The hand-written buffer gets a window inside the vector, and the state it would have had
      if its bytes had been received, exactly when it holds at most 2048 bytes. */
  lemma ResizedFitsIff(content: seq<byte>)
    ensures Resized(content).WindowInside() <==> |content| <= 2048
    ensures Resized(content) == Filled(content) <==> |content| <= 2048
  {
    if |content| <= 2 * DEFAULT_SIZE {
      assert Capacity(|content|, DEFAULT_SIZE) == Resized(content).bufSize;
    }
  }

  lemma ConcatStep(head: seq<byte>, rest: seq<seq<byte>>)
    ensures Concat([head] + rest) == head + Concat(rest)
  {
    assert ([head] + rest)[1..] == rest;
  }

  lemma SumWraps(a: nat, b: nat)
    ensures (a % WORD + b) % WORD == (a + b) % WORD
  {
  }

  lemma FieldAppended(head: seq<byte>, done: seq<Entry>, e: Entry)
    ensures head + EncodeEntries(done) + [e.0] + e.1 + [0] == head + EncodeEntries(done + [e])
    ensures |EncodeEntries(done + [e])| == |EncodeEntries(done)| + |e.1| + 2
  {
    EncodeSnoc(done, e);
    var code := EncodeEntries(done);
    assert head + code + [e.0] + e.1 + [0] == head + (code + [e.0] + e.1 + [0]);
  }

  lemma TakenFrom(pending: seq<seq<byte>>, n: nat, got: seq<byte>)
    requires pending != [] && n <= |pending[0]| && (n == 0 ==> pending[0] == [])
    ensures var left := pending[0][n..];
            var pending' := if left == [] then pending[1..] else [left] + pending[1..];
            && got + Concat(pending) == got + pending[0][..n] + Concat(pending')
            && |Concat(pending)| == n + |Concat(pending')|
            && (n == 0 ==> |pending'| < |pending|)
  {
    var left := pending[0][n..];
    ConcatStep(left, pending[1..]);
    assert pending[0][..n] + left == pending[0];
    assert [] + Concat(pending[1..]) == Concat(pending[1..]);
    assert pending[0] + Concat(pending[1..]) == pending[0][..n] + (left + Concat(pending[1..]));
  }

  class Buffer {
    var buf: seq<byte>
    var bufSize: nat
    var dataSize: nat

    ghost function View(): BufState
      reads this
    {
      BufState(buf, bufSize, dataSize)
    }

    constructor ()
      ensures View() == Filled([])
    {
      buf := Zeros(2 * DEFAULT_SIZE);
      bufSize := DEFAULT_SIZE;
      dataSize := 0;
    }

    /** Reinitialisation of the enclosing context: the buffer becomes a new one. */
    method Reset()
      modifies this
      ensures View() == Filled([])
    {
      buf := Zeros(2 * DEFAULT_SIZE);
      bufSize := DEFAULT_SIZE;
      dataSize := 0;
    }

    /** Receives until the socket has nothing more. A chunk longer than the window is taken in
        pieces. Whatever the chunks, the buffer ends as if all bytes had come at once. */
    method RecvFrom(chunks: seq<seq<byte>>, end: End, ghost content: seq<byte>) returns (res: int)
      requires View() == Filled(content) || (View() == Manual(content) && |content| <= 2 * DEFAULT_SIZE)
      modifies this
      ensures View() == Filled(content + Concat(chunks))
      ensures res == if end.Failed? then -1 else |content| + |Concat(chunks)|
    {
      if bufSize == 0 {
        bufSize := DEFAULT_SIZE;
        if dataSize > bufSize {
          bufSize := bufSize * 2;
        }
        buf := buf + Zeros(bufSize * 2 - |buf|);
        ResizedFitsIff(content);
      }
      var pending := chunks;
      ghost var got := content;
      while pending != []
        invariant View() == Filled(got)
        invariant got + Concat(pending) == content + Concat(chunks)
        decreases |Concat(pending)|, |pending|
      {
        var n := if |pending[0]| <= bufSize then |pending[0]| else bufSize;
        var piece, left := pending[0][..n], pending[0][n..];
        Take(piece, got);
        TakenFrom(pending, n, got);
        got := got + piece;
        pending := if left == [] then pending[1..] else [left] + pending[1..];
      }
      res := RecvResult(end, dataSize);
    }

    /** One call of recv that delivers a piece, and the doubling after it. */
    method Take(piece: seq<byte>, ghost got: seq<byte>)
      requires View() == Filled(got) && |piece| <= bufSize
      modifies this
      ensures View() == Filled(got + piece)
    {
      FilledFacts(got);
      CapacityStep(|got|, |piece|, DEFAULT_SIZE);
      // the whole window recv is given lies inside the vector
      assert View().WindowInside();
      buf := buf[..dataSize] + piece + buf[dataSize + |piece|..];
      dataSize := dataSize + |piece|;
      if dataSize > bufSize {
        bufSize := bufSize * 2;
        buf := buf + Zeros(bufSize * 2 - |buf|);
      }
      assert buf == Filled(got + piece).buf;
    }

    /** What is handed to send. */
    method SendTo() returns (data: seq<byte>)
      requires dataSize <= |buf|
      ensures data == View().Content()
    {
      data := buf[..dataSize];
    }

    method SetQuery(q: seq<byte>)
      modifies this
      ensures View() == Manual(EncodeQuery(q))
    {
      var qlen := |CText(q)|;
      var mlen := qlen + 5;
      buf := [];
      buf := buf + [TYPE_QUERY];
      buf := buf + Be32(mlen);
      buf := buf + CText(q) + [0];
      dataSize := |buf|;
      bufSize := 0;
      assert buf == EncodeQuery(q);
    }

    /** The seven texts of an error, those of S, C and M present. */
    method SetError(err: map<byte, seq<byte>>)
      requires SEVERITY in err && CODE in err && MESSAGE in err
      modifies this
      ensures View() == Manual(EncodeError(err))
    {
      buf := [TYPE_ERROR, 0, 0, 0, 0];
      var mandatory := [(CODE, err[CODE]), (MESSAGE, err[MESSAGE]), (SEVERITY, err[SEVERITY]),
                        (SEVERITY_AGAIN, err[SEVERITY])];
      var totalLen := PushMandatory(mandatory);
      ghost var done := Entries(mandatory);
      totalLen := PushOptional([FILE, LINE, POSITION, ROUTINE], err, totalLen, done);
      done := ErrorEntries(err);
      buf := buf + [0];
      PatchLength(totalLen, EncodeEntries(done));
      WordWraps(5 + |EncodeEntries(done)|);
      buf := buf + READY_FOR_QUERY;
      dataSize := |buf|;
      bufSize := 0;
    }

    /** The loop over the fields that are always present. */
    method PushMandatory(fields: seq<(byte, seq<byte>)>) returns (totalLen: nat)
      requires buf == [TYPE_ERROR, 0, 0, 0, 0]
      modifies this
      ensures Written(Entries(fields), totalLen)
    {
      totalLen := 5;
      ghost var done: seq<Entry> := [];
      var i := 0;
      assert fields[0..] == fields && [] + Entries(fields) == Entries(fields);
      while i < |fields|
        invariant 0 <= i <= |fields|
        invariant done + Entries(fields[i..]) == Entries(fields)
        invariant Written(done, totalLen)
      {
        var (key, val) := fields[i];
        assert fields[i..][1..] == fields[i + 1..];
        assert done + ([(key, CText(val))] + Entries(fields[i + 1..]))
               == done + [(key, CText(val))] + Entries(fields[i + 1..]);
        totalLen := PushField(key, val, totalLen, done);
        done := done + [(key, CText(val))];
        i := i + 1;
      }
      assert fields[i..] == [] && done + [] == done;
    }

    /** The loop over the fields that may be missing. */
    method PushOptional(keys: seq<byte>, err: map<byte, seq<byte>>, totalLen: nat,
                        ghost before: seq<Entry>) returns (len: nat)
      requires Written(before, totalLen)
      modifies this
      ensures Written(before + Present(keys, err), len)
    {
      len := totalLen;
      ghost var done := before;
      var i := 0;
      assert keys[0..] == keys;
      while i < |keys|
        invariant 0 <= i <= |keys|
        invariant done + Present(keys[i..], err) == before + Present(keys, err)
        invariant Written(done, len)
      {
        var key := keys[i];
        assert keys[i..][1..] == keys[i + 1..];
        if key in err {
          assert done + ([(key, CText(err[key]))] + Present(keys[i + 1..], err))
              == done + [(key, CText(err[key]))] + Present(keys[i + 1..], err);
          len := PushField(key, err[key], len, done);
          done := done + [(key, CText(err[key]))];
        } else {
          assert [] + Present(keys[i + 1..], err) == Present(keys[i + 1..], err);
        }
        i := i + 1;
      }
      assert keys[i..] == [] && done + [] == done;
    }

    /** The buffer holds the header and these fields; the running length counts them in 32 bits. */
    ghost predicate Written(done: seq<Entry>, totalLen: nat)
      reads this
    {
      && buf == [TYPE_ERROR, 0, 0, 0, 0] + EncodeEntries(done)
      && totalLen == (5 + |EncodeEntries(done)|) % WORD
    }

    /** The body of both field loops: type, text with its NUL, and the running length. */
    method PushField(key: byte, val: seq<byte>, totalLen: nat, ghost done: seq<Entry>) returns (len: nat)
      requires Written(done, totalLen)
      modifies this
      ensures Written(done + [(key, CText(val))], len)
    {
      var text := CText(val);
      FieldAppended([TYPE_ERROR, 0, 0, 0, 0], done, (key, text));
      buf := buf + [key] + text + [0];
      len := (totalLen + |text| + 2) % WORD;
      SumWraps(5 + |EncodeEntries(done)|, |text| + 2);
    }

    /** Bytes 1 to 4 become the length. */
    method PatchLength(len: nat, ghost fields: seq<byte>)
      requires buf == [TYPE_ERROR, 0, 0, 0, 0] + fields + [0]
      modifies this
      ensures buf == [TYPE_ERROR] + Be32(len) + fields + [0]
    {
      var bytes := Be32(len);
      buf := buf[1 := bytes[0]];
      buf := buf[2 := bytes[1]];
      buf := buf[3 := bytes[2]];
      buf := buf[4 := bytes[3]];
    }
  }
}
