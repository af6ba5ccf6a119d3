/**
 The two messages the proxy composes, Query and ErrorResponse, and the loops that read them
 back (protocol 3.0, sections 55.7 and 55.8 of the PostgreSQL 16 documentation).
 */
module Wire {
  import opened Results

  type byte = b: int | 0 <= b < 256

  const WORD: nat := 0x1_0000_0000

  const TYPE_QUERY: byte := 81
  const TYPE_ERROR: byte := 69

  const SEVERITY: byte := 83
  const SEVERITY_AGAIN: byte := 86
  const CODE: byte := 67
  const MESSAGE: byte := 77
  const FILE: byte := 70
  const LINE: byte := 76
  const POSITION: byte := 80
  const ROUTINE: byte := 82

  /** Type Z, length 5, transaction status I. */
  const READY_FOR_QUERY: seq<byte> := [90, 0, 0, 0, 5, 73]

  /** A field of an error: its type and its text. */
  type Entry = (byte, seq<byte>)

  // ---------- C strings ----------

  predicate NulFree(s: seq<byte>) {
    forall i | 0 <= i < |s| :: s[i] != 0
  }

  /** What a C string shows of a text: everything before its first NUL. */
  function CText(s: seq<byte>): (t: seq<byte>)
    ensures NulFree(t) && t <= s
    ensures |t| == |s| || s[|t|] == 0
  {
    if s == [] || s[0] == 0 then []
    else
      var t := CText(s[1..]);
      assert [s[0]] + s[1..] == s;
      [s[0]] + t
  }

  /** Where the C string starting at pos ends; None when it runs off the data. */
  function StringEnd(data: seq<byte>, pos: nat): (end: Option<nat>)
    ensures end.Some? ==> pos <= end.value < |data| && data[end.value] == 0
    decreases |data| - pos
  {
    if pos >= |data| then None
    else if data[pos] == 0 then Some(pos)
    else StringEnd(data, pos + 1)
  }

  lemma {:induction false} StringEndAt(data: seq<byte>, pos: nat, end: nat)
    requires pos <= end < |data| && data[end] == 0 && NulFree(data[pos..end])
    ensures StringEnd(data, pos) == Some(end)
    decreases end - pos
  {
    if pos < end {
      assert data[pos..end][0] == data[pos];
      assert data[pos + 1..end] == data[pos..end][1..];
      StringEndAt(data, pos + 1, end);
    }
  }

  lemma SliceOfSlice(data: seq<byte>, from: nat, to: nat, i: nat, j: nat)
    requires from <= to <= |data| && i <= j <= to - from
    ensures data[from..to][i..j] == data[from + i..from + j]
  {
    var part := data[from..to];
    forall k | 0 <= k < j - i ensures part[i..j][k] == data[from + i..from + j][k] {
      assert part[i..j][k] == part[i + k] == data[from + i + k];
    }
  }

  // ---------- lengths ----------

  /** The four bytes of n, each left by a shift and a narrowing. */
  function Be32(n: nat): seq<byte> {
    [n / 0x100_0000 % 256, n / 0x1_0000 % 256, n / 0x100 % 256, n % 256]
  }

  function Word(a: int, b: int, c: int, d: int): int {
    a * 0x100_0000 + b * 0x1_0000 + c * 0x100 + d
  }

  /** The length field, bytes 1 to 4. */
  function Length(data: seq<byte>): (len: int)
    requires |data| >= 5
    ensures len >= 0
  {
    Word(data[1], data[2], data[3], data[4])
  }

  lemma ShiftTwice(n: nat)
    ensures n / 0x1_0000 == n / 0x100 / 0x100
  {
  }

  lemma ShiftThrice(n: nat)
    ensures n / 0x100_0000 == n / 0x1_0000 / 0x100
  {
  }

  lemma Remainder(e: nat, w: nat)
    requires w < WORD
    ensures (0x1_0000_0000 * e + w) % WORD == w
  {
  }

  /** The four bytes of n are the digits of n modulo 2^32. */
  lemma WordOfBytes(n: nat)
    ensures Word(n / 0x100_0000 % 256, n / 0x1_0000 % 256, n / 0x100 % 256, n % 256) == n % WORD
  {
    var a, b, c := n / 0x100, n / 0x1_0000, n / 0x100_0000;
    ShiftTwice(n);
    ShiftThrice(n);
    DigitsAdd(n, a, b, c, c / 256);
  }

  lemma DigitsAdd(n: nat, a: nat, b: nat, c: nat, e: nat)
    requires a == n / 256 && b == a / 256 && c == b / 256 && e == c / 256
    ensures Word(c % 256, b % 256, a % 256, n % 256) == n % WORD
  {
    var w := Word(c % 256, b % 256, a % 256, n % 256);
    assert n == 256 * a + n % 256 && a == 256 * b + a % 256 && b == 256 * c + b % 256 && c == 256 * e + c % 256;
    assert n == 0x1_0000_0000 * e + w;
    Remainder(e, w);
  }

  /** The length field is right below 2^32 only. */
  lemma LengthOfBe32(n: nat, t: byte, rest: seq<byte>)
    ensures Length([t] + Be32(n) + rest) == n % WORD
  {
    WordOfBytes(n);
    var head := [t] + Be32(n);
    assert forall i | 0 <= i < 5 :: (head + rest)[i] == head[i];
  }

  lemma LowByte(a: int, m: int)
    ensures (256 * a + m) % 256 == m % 256
  {
  }

  lemma TopByteWraps(q: nat, m: nat)
    ensures (0x1_0000_0000 * q + m) / 0x100_0000 == 256 * q + m / 0x100_0000
  {
  }

  lemma SecondByteWraps(q: nat, m: nat)
    ensures (0x1_0000_0000 * q + m) / 0x1_0000 == 256 * (0x100 * q) + m / 0x1_0000
  {
  }

  lemma ThirdByteWraps(q: nat, m: nat)
    ensures (0x1_0000_0000 * q + m) / 0x100 == 256 * (0x1_0000 * q) + m / 0x100
  {
  }

  /** Accumulating the length in 32 bits changes none of its four bytes. */
  lemma WordWraps(n: nat)
    ensures Be32(n % WORD) == Be32(n)
  {
    var q, m := n / WORD, n % WORD;
    assert n == 0x1_0000_0000 * q + m;
    TopByteWraps(q, m);
    LowByte(q, m / 0x100_0000);
    SecondByteWraps(q, m);
    LowByte(0x100 * q, m / 0x1_0000);
    ThirdByteWraps(q, m);
    LowByte(0x1_0000 * q, m / 0x100);
    LowByte(0x100_0000 * q, m);
  }

  lemma LengthExact(n: nat, t: byte, rest: seq<byte>)
    requires n < WORD
    ensures Length([t] + Be32(n) + rest) == n
  {
    LengthOfBe32(n, t, rest);
  }

  // ---------- encoding ----------

  function EncodeEntries(es: seq<Entry>): seq<byte> {
    if es == [] then [] else [es[0].0] + es[0].1 + [0] + EncodeEntries(es[1..])
  }

  lemma {:induction false} EncodeSnoc(es: seq<Entry>, e: Entry)
    ensures EncodeEntries(es + [e]) == EncodeEntries(es) + [e.0] + e.1 + [0]
  {
    if es == [] {
      assert [e][1..] == [] && [] + [e] == [e];
      assert EncodeEntries([e]) == [e.0] + e.1 + [0] + EncodeEntries([]);
    } else {
      assert (es + [e])[1..] == es[1..] + [e];
      EncodeSnoc(es[1..], e);
    }
  }

  function Entries(fields: seq<(byte, seq<byte>)>): seq<Entry> {
    if fields == [] then [] else [(fields[0].0, CText(fields[0].1))] + Entries(fields[1..])
  }

  function Present(keys: seq<byte>, err: map<byte, seq<byte>>): seq<Entry> {
    if keys == [] then []
    else (if keys[0] in err then [(keys[0], CText(err[keys[0]]))] else []) + Present(keys[1..], err)
  }

  /** The fields an error message carries, in the order of their type bytes within each group;
      V repeats S. */
  function ErrorEntries(err: map<byte, seq<byte>>): seq<Entry>
    requires SEVERITY in err && CODE in err && MESSAGE in err
  {
    Entries([(CODE, err[CODE]), (MESSAGE, err[MESSAGE]), (SEVERITY, err[SEVERITY]), (SEVERITY_AGAIN, err[SEVERITY])])
    + Present([FILE, LINE, POSITION, ROUTINE], err)
  }

  /** ErrorResponse followed by ReadyForQuery. */
  function EncodeError(err: map<byte, seq<byte>>): seq<byte>
    requires SEVERITY in err && CODE in err && MESSAGE in err
  {
    var fields := EncodeEntries(ErrorEntries(err));
    [TYPE_ERROR] + Be32(5 + |fields|) + fields + [0] + READY_FOR_QUERY
  }

  function EncodeQuery(q: seq<byte>): seq<byte> {
    [TYPE_QUERY] + Be32(|CText(q)| + 5) + CText(q) + [0]
  }

  // ---------- decoding ----------

  /** The field at pos and the position after it; None when its text runs off the data. */
  function FieldAt(data: seq<byte>, pos: nat): (r: Option<(Entry, nat)>)
    ensures r.Some? ==> pos < r.value.1 <= |data|
  {
    if pos >= |data| then None
    else
      match StringEnd(data, pos + 1)
      case None => None
      case Some(end) => Some(((data[pos], data[pos + 1..end]), end + 1))
  }

  /** The field loop: types and texts from pos up to the length, and where it stops; None when a
      text runs off the data. */
  function DecodeEntries(data: seq<byte>, pos: nat, len: int): Option<(seq<Entry>, nat)>
    decreases |data| - pos
  {
    if pos >= len then Some(([], pos))
    else
      match FieldAt(data, pos)
      case None => None
      case Some((e, next)) => AfterFields([e], DecodeEntries(data, next, len))
  }

  /** PrintInfo on an error message: the fields it shows and where its loop stops. */
  method DecodeError(data: seq<byte>) returns (es: seq<Entry>, pos: nat)
    requires |data| >= 5 && DecodeEntries(data, 5, Length(data)).Some?
    ensures DecodeEntries(data, 5, Length(data)) == Some((es, pos))
  {
    var len := Length(data);
    es, pos := [], 5;
    AfterNothing([], DecodeEntries(data, 5, len));
    while pos < len
      invariant DecodeEntries(data, pos, len).Some?
      invariant DecodeEntries(data, 5, len) == AfterFields(es, DecodeEntries(data, pos, len))
      decreases |data| - pos
    {
      assert FieldAt(data, pos).Some?;
      var key := data[pos];
      pos := pos + 1;
      var end := StringEnd(data, pos).value;
      AfterMore(es, (key, data[pos..end]), DecodeEntries(data, end + 1, len));
      es := es + [(key, data[pos..end])];
      pos := end + 1;
    }
    assert es + [] == es;
  }

  function AfterFields(es: seq<Entry>, rest: Option<(seq<Entry>, nat)>): Option<(seq<Entry>, nat)> {
    match rest
    case Some((more, stop)) => Some((es + more, stop))
    case None => None
  }

  lemma AfterNothing(es: seq<Entry>, rest: Option<(seq<Entry>, nat)>)
    ensures es == [] ==> AfterFields(es, rest) == rest
  {
    if rest.Some? { assert [] + rest.value.0 == rest.value.0; }
  }

  lemma AfterMore(es: seq<Entry>, e: Entry, rest: Option<(seq<Entry>, nat)>)
    ensures AfterFields(es, AfterFields([e], rest)) == AfterFields(es + [e], rest)
  {
    if rest.Some? { assert es + ([e] + rest.value.0) == es + [e] + rest.value.0; }
  }

  lemma EncodeShape(es: seq<Entry>)
    requires es != []
    ensures var (key, text) := es[0]; var code := EncodeEntries(es); var n := |text|;
            && |code| == n + 2 + |EncodeEntries(es[1..])|
            && code[0] == key && code[1..n + 1] == text && code[n + 1] == 0 && code[n + 2..] == EncodeEntries(es[1..])
  {
    var head := [es[0].0] + es[0].1;
    assert head[1..] == es[0].1;
    var field := head + [0];
    var code := field + EncodeEntries(es[1..]);
    assert code[1..|head|] == head[1..];
  }

  /** The encoding of these fields stands in the data at pos. */
  ghost predicate EncodedAt(data: seq<byte>, pos: nat, es: seq<Entry>) {
    var stop := pos + |EncodeEntries(es)|;
    stop <= |data| && data[pos..stop] == EncodeEntries(es)
  }

  /** What stands in the data where a field's code stands: key, text, NUL, and the rest. */
  lemma CodeParts(data: seq<byte>, pos: nat, code: seq<byte>, text: seq<byte>, rest: seq<byte>)
    requires pos + |code| <= |data| && data[pos..pos + |code|] == code
    requires var n := |text|; |code| == n + 2 + |rest| && code[1..n + 1] == text && code[n + 2..] == rest
    ensures var end := pos + 1 + |text|;
            && end + 1 + |rest| == pos + |code| && data[pos] == code[0] && data[end] == code[|text| + 1]
            && data[pos + 1..end] == text && data[end + 1..end + 1 + |rest|] == rest
  {
    var n, stop := |text|, pos + |code|;
    assert data[pos..stop][0] == data[pos] && data[pos..stop][n + 1] == data[pos + n + 1];
    SliceOfSlice(data, pos, stop, 1, n + 1);
    SliceOfSlice(data, pos, stop, n + 2, |code|);
    assert code[n + 2..|code|] == code[n + 2..];
  }

  lemma FirstFieldText(data: seq<byte>, pos: nat, es: seq<Entry>)
    requires es != [] && EncodedAt(data, pos, es)
    ensures var (key, text) := es[0]; var end := pos + 1 + |text|;
            && end < |data| && data[pos] == key && data[pos + 1..end] == text && data[end] == 0
            && EncodedAt(data, end + 1, es[1..]) && |EncodeEntries(es)| == |text| + 2 + |EncodeEntries(es[1..])|
  {
    EncodeShape(es);
    hide EncodeEntries;
    CodeParts(data, pos, EncodeEntries(es), es[0].1, EncodeEntries(es[1..]));
  }

  lemma FirstField(data: seq<byte>, pos: nat, es: seq<Entry>)
    requires es != [] && NulFree(es[0].1) && EncodedAt(data, pos, es)
    ensures var next := pos + 2 + |es[0].1|;
            && pos < |data| && FieldAt(data, pos) == Some((es[0], next))
            && EncodedAt(data, next, es[1..]) && |EncodeEntries(es)| == |es[0].1| + 2 + |EncodeEntries(es[1..])|
  {
    hide EncodedAt, EncodeEntries, NulFree;
    FirstFieldText(data, pos, es);
    StringEndAt(data, pos + 1, pos + 1 + |es[0].1|);
  }

  /** Wherever the encoding of some fields stands in the data, the field loop reads them back. */
  lemma {:induction false} DecodeEncoded(data: seq<byte>, pos: nat, es: seq<Entry>)
    requires (forall i | 0 <= i < |es| :: NulFree(es[i].1)) && EncodedAt(data, pos, es)
    ensures var stop := pos + |EncodeEntries(es)|; DecodeEntries(data, pos, stop) == Some((es, stop))
    decreases |es|
  {
    if es != [] {
      var stop, next := pos + |EncodeEntries(es)|, pos + 2 + |es[0].1|;
      FirstField(data, pos, es);
      DecodeEncoded(data, next, es[1..]);
      assert DecodeEntries(data, pos, stop) == AfterFields([es[0]], DecodeEntries(data, next, stop));
      assert es == [es[0]] + es[1..];
    }
  }

  lemma {:induction false} EntriesNulFree(fields: seq<(byte, seq<byte>)>)
    ensures forall i | 0 <= i < |Entries(fields)| :: NulFree(Entries(fields)[i].1)
  {
    if fields != [] { EntriesNulFree(fields[1..]); }
  }

  lemma {:induction false} PresentNulFree(keys: seq<byte>, err: map<byte, seq<byte>>)
    ensures forall i | 0 <= i < |Present(keys, err)| :: NulFree(Present(keys, err)[i].1)
  {
    if keys != [] { PresentNulFree(keys[1..], err); }
  }

  lemma ErrorEntriesNulFree(err: map<byte, seq<byte>>)
    requires SEVERITY in err && CODE in err && MESSAGE in err
    ensures forall i | 0 <= i < |ErrorEntries(err)| :: NulFree(ErrorEntries(err)[i].1)
  {
    EntriesNulFree([(CODE, err[CODE]), (MESSAGE, err[MESSAGE]), (SEVERITY, err[SEVERITY]),
                    (SEVERITY_AGAIN, err[SEVERITY])]);
    PresentNulFree([FILE, LINE, POSITION, ROUTINE], err);
  }

  /** An optional field of an error, if it is there. */
  function IfPresent(key: byte, err: map<byte, seq<byte>>): seq<Entry> {
    if key in err then [(key, CText(err[key]))] else []
  }

  /** The fields in full: C, M, S and V, which repeats S, then those of F, L, P and R that are there. */
  lemma ErrorEntriesAre(err: map<byte, seq<byte>>)
    requires SEVERITY in err && CODE in err && MESSAGE in err
    ensures ErrorEntries(err) ==
            [(67, CText(err[67])), (77, CText(err[77])), (83, CText(err[83])), (86, CText(err[83]))]
            + IfPresent(70, err) + IfPresent(76, err) + IfPresent(80, err) + IfPresent(82, err)
  {
    hide CText;
    MandatoryAre(err[67], err[77], err[83]);
    OptionalAre(err);
    var four := [(67, CText(err[67])), (77, CText(err[77])), (83, CText(err[83])), (86, CText(err[83]))];
    FourMore(four, IfPresent(70, err), IfPresent(76, err), IfPresent(80, err), IfPresent(82, err));
  }

  lemma FourMore(a: seq<Entry>, p: seq<Entry>, q: seq<Entry>, r: seq<Entry>, s: seq<Entry>)
    ensures a + (p + (q + (r + s))) == a + p + q + r + s
  {
  }

  lemma MandatoryAre(code: seq<byte>, message: seq<byte>, severity: seq<byte>)
    ensures Entries([(CODE, code), (MESSAGE, message), (SEVERITY, severity), (SEVERITY_AGAIN, severity)]) ==
            [(67, CText(code)), (77, CText(message)), (83, CText(severity)), (86, CText(severity))]
  {
    hide CText, Entries;
    var v := [(SEVERITY_AGAIN, severity)];
    var sv := [(SEVERITY, severity)] + v;
    var msv := [(MESSAGE, message)] + sv;
    assert v == [(SEVERITY_AGAIN, severity)] + [];
    assert [(CODE, code)] + msv == [(CODE, code), (MESSAGE, message), (SEVERITY, severity), (SEVERITY_AGAIN, severity)];
    EntriesFirst(SEVERITY_AGAIN, severity, []);
    EntriesFirst(SEVERITY, severity, v);
    EntriesFirst(MESSAGE, message, sv);
    EntriesFirst(CODE, code, msv);
    NoEntries();
  }

  lemma NoEntries()
    ensures Entries([]) == []
  {
  }

  lemma EntriesFirst(key: byte, text: seq<byte>, rest: seq<(byte, seq<byte>)>)
    ensures Entries([(key, text)] + rest) == [(key, CText(text))] + Entries(rest)
  {
    assert ([(key, text)] + rest)[1..] == rest;
  }

  lemma OptionalAre(err: map<byte, seq<byte>>)
    ensures Present([FILE, LINE, POSITION, ROUTINE], err) ==
            IfPresent(70, err) + (IfPresent(76, err) + (IfPresent(80, err) + IfPresent(82, err)))
  {
    hide CText, IfPresent;
    PresentFirst(FILE, [LINE, POSITION, ROUTINE], err);
    PresentFirst(LINE, [POSITION, ROUTINE], err);
    PresentFirst(POSITION, [ROUTINE], err);
    PresentFirst(ROUTINE, [], err);
    assert [FILE] + [LINE, POSITION, ROUTINE] == [FILE, LINE, POSITION, ROUTINE];
    assert [LINE] + [POSITION, ROUTINE] == [LINE, POSITION, ROUTINE];
    assert [POSITION] + [ROUTINE] == [POSITION, ROUTINE] && [ROUTINE] + [] == [ROUTINE];
    assert Present([], err) == [] && IfPresent(82, err) + [] == IfPresent(82, err);
  }

  lemma PresentFirst(key: byte, keys: seq<byte>, err: map<byte, seq<byte>>)
    ensures Present([key] + keys, err) == IfPresent(key, err) + Present(keys, err)
  {
    assert ([key] + keys)[1..] == keys;
  }

  /** An error message has type E. Reading it back gives code, message and severity, the severity again,
      and the optional fields that are there, each with its own text; it stops exactly at the value of
      the length field, on the terminator, and leaves one ReadyForQuery message of status I. */
  lemma ErrorRoundTrip(err: map<byte, seq<byte>>)
    requires SEVERITY in err && CODE in err && MESSAGE in err && |EncodeError(err)| < WORD + 7
    ensures var data := EncodeError(err); var len := Length(data);
            && data[0] == 69 && len == |data| - 7 && data[len] == 0 && data[len + 1..] == [90, 0, 0, 0, 5, 73]
            && DecodeEntries(data, 5, len) == Some((
                 [(67, CText(err[67])), (77, CText(err[77])), (83, CText(err[83])), (86, CText(err[83]))]
                 + IfPresent(70, err) + IfPresent(76, err) + IfPresent(80, err) + IfPresent(82, err), len))
  {
    hide ErrorEntries, EncodeEntries, DecodeEntries, Be32, Length, NulFree, IfPresent;
    ErrorEntriesNulFree(err);
    ErrorEntriesAre(err);
    ErrorShape(err);
    EncodedMessage(ErrorEntries(err));
  }

  lemma ErrorShape(err: map<byte, seq<byte>>)
    requires SEVERITY in err && CODE in err && MESSAGE in err
    ensures |EncodeError(err)| == |EncodeEntries(ErrorEntries(err))| + 12 && EncodeError(err)[0] == 69
  {
    hide ErrorEntries, EncodeEntries;
  }

  /** The bytes of the message: the type, four bytes for the length of all but the type and ReadyForQuery,
      and each field as its type, its text and a NUL. */
  lemma ErrorBytes(err: map<byte, seq<byte>>, es: seq<Entry>)
    requires SEVERITY in err && CODE in err && MESSAGE in err && |EncodeError(err)| < WORD + 7
    requires es == IfPresent(70, err) + IfPresent(76, err) + IfPresent(80, err) + IfPresent(82, err)
    ensures var data := EncodeError(err);
            var a: int, b: int, c: int, d: int := data[1], data[2], data[3], data[4];
            && a * 0x100_0000 + b * 0x1_0000 + c * 0x100 + d == |data| - 7
            && data[5..] == [67] + CText(err[67]) + [0] + [77] + CText(err[77]) + [0] + [83] + CText(err[83]) + [0]
                            + [86] + CText(err[83]) + [0] + EncodeEntries(es) + [0] + [90, 0, 0, 0, 5, 73]
  {
    hide CText, IfPresent, ErrorEntries, DecodeEntries, NulFree;
    ErrorRoundTrip(err);
    ErrorEntriesAre(err);
    FourFields((67, CText(err[67])), (77, CText(err[77])), (83, CText(err[83])), (86, CText(err[83])), es);
    hide EncodeEntries;
    var four := [(67, CText(err[67])), (77, CText(err[77])), (83, CText(err[83])), (86, CText(err[83]))];
    FourMore(four, IfPresent(70, err), IfPresent(76, err), IfPresent(80, err), IfPresent(82, err));
    FourMore([], IfPresent(70, err), IfPresent(76, err), IfPresent(80, err), IfPresent(82, err));
    assert ErrorEntries(err) == four + es;
    var fields := EncodeEntries(four + es);
    AfterHeader(Be32(5 + |fields|), fields);
  }

  lemma AfterHeader(code: seq<byte>, fields: seq<byte>)
    requires |code| == 4
    ensures ([TYPE_ERROR] + code + fields + [0] + READY_FOR_QUERY)[5..] == fields + [0] + [90, 0, 0, 0, 5, 73]
  {
  }

  lemma FourFields(a: Entry, b: Entry, c: Entry, d: Entry, es: seq<Entry>)
    ensures EncodeEntries([a, b, c, d] + es) ==
            [a.0] + a.1 + [0] + [b.0] + b.1 + [0] + [c.0] + c.1 + [0] + [d.0] + d.1 + [0] + EncodeEntries(es)
  {
    hide EncodeEntries;
    EncodeFirst(d, es);
    EncodeFirst(c, [d] + es);
    EncodeFirst(b, [c] + ([d] + es));
    EncodeFirst(a, [b] + ([c] + ([d] + es)));
    assert [a, b, c, d] + es == [a] + ([b] + ([c] + ([d] + es)));
    FourEncoded([a.0] + a.1 + [0], [b.0] + b.1 + [0], [c.0] + c.1 + [0], [d.0] + d.1 + [0], EncodeEntries(es));
    FourFlat(a, b, c, d, EncodeEntries(es));
  }

  lemma EncodeFirst(e: Entry, es: seq<Entry>)
    ensures EncodeEntries([e] + es) == [e.0] + e.1 + [0] + EncodeEntries(es)
  {
    assert ([e] + es)[1..] == es;
  }

  lemma FourFlat(a: Entry, b: Entry, c: Entry, d: Entry, rest: seq<byte>)
    ensures ([a.0] + a.1 + [0]) + ([b.0] + b.1 + [0]) + ([c.0] + c.1 + [0]) + ([d.0] + d.1 + [0]) + rest ==
            [a.0] + a.1 + [0] + [b.0] + b.1 + [0] + [c.0] + c.1 + [0] + [d.0] + d.1 + [0] + rest
  {
  }

  lemma FourEncoded(a: seq<byte>, b: seq<byte>, c: seq<byte>, d: seq<byte>, e: seq<byte>)
    ensures a + (b + (c + (d + e))) == a + b + c + d + e
  {
  }

  lemma EncodedMessage(es: seq<Entry>)
    requires (forall i | 0 <= i < |es| :: NulFree(es[i].1)) && 5 + |EncodeEntries(es)| < WORD
    ensures var fields := EncodeEntries(es);
            var data := [TYPE_ERROR] + Be32(5 + |fields|) + fields + [0] + READY_FOR_QUERY; var len := Length(data);
            && DecodeEntries(data, 5, len) == Some((es, len))
            && len < |data| && data[len] == 0 && data[len + 1..] == READY_FOR_QUERY
  {
    var fields := EncodeEntries(es);
    LengthExact(5 + |fields|, TYPE_ERROR, fields + ([0] + READY_FOR_QUERY));
    EncodedUnder(Be32(5 + |fields|), es);
  }

  /** The message with any four bytes in place of its length. */
  lemma EncodedUnder(code: seq<byte>, es: seq<Entry>)
    requires |code| == 4 && forall i | 0 <= i < |es| :: NulFree(es[i].1)
    ensures var fields := EncodeEntries(es); var len := 5 + |fields|;
            var data := [TYPE_ERROR] + code + fields + [0] + READY_FOR_QUERY;
            && data == [TYPE_ERROR] + code + (fields + ([0] + READY_FOR_QUERY))
            && DecodeEntries(data, 5, len) == Some((es, len))
            && len < |data| && data[len] == 0 && data[len + 1..] == READY_FOR_QUERY
  {
    var fields := EncodeEntries(es);
    var head, tail := [TYPE_ERROR] + code, [0] + READY_FOR_QUERY;
    assert head + fields + [0] + READY_FOR_QUERY == head + (fields + tail);
    FramedCode(TYPE_ERROR, code, fields, tail);
    DecodeEncoded(head + (fields + tail), 5, es);
    assert tail[1..] == READY_FOR_QUERY;
  }

  lemma Framed(head: seq<byte>, body: seq<byte>, tail: seq<byte>)
    ensures var data, end := head + (body + tail), |head| + |body|;
            && data[|head|..end] == body && data[end..] == tail
            && (tail != [] ==> data[end] == tail[0] && data[end + 1..] == tail[1..])
  {
    var data, end := head + (body + tail), |head| + |body|;
    assert data[|head|..end] == body;
    assert data[end..] == tail;
    if tail != [] { assert data[end..][1..] == data[end + 1..]; }
  }

  lemma FramedCode(t: byte, code: seq<byte>, body: seq<byte>, tail: seq<byte>)
    requires |code| == 4
    ensures var data := [t] + code + (body + tail);
            && |data| == 5 + |body| + |tail| && data[5..5 + |body|] == body && data[5 + |body|..] == tail
            && (tail != [] ==> data[5 + |body|] == tail[0] && data[5 + |body| + 1..] == tail[1..])
  {
    Framed([t] + code, body, tail);
  }

  /** A query message has type Q. Reading it back gives the text and the length of everything after the type. */
  lemma QueryRoundTrip(q: seq<byte>)
    requires |CText(q)| + 5 < WORD
    ensures var data := EncodeQuery(q);
            var a: int, b: int, c: int, d: int := data[1], data[2], data[3], data[4];
            && data[0] == 81 && data[|data| - 1] == 0 && data[5..|data| - 1] == CText(q)
            && a * 0x100_0000 + b * 0x1_0000 + c * 0x100 + d == |data| - 1
            && Length(data) == |data| - 1 && StringEnd(data, 5) == Some(|data| - 1)
  {
    var text := CText(q);
    LengthExact(|text| + 5, TYPE_QUERY, text + [0]);
    QueryUnder(Be32(|text| + 5), text);
  }

  lemma QueryUnder(code: seq<byte>, text: seq<byte>)
    requires |code| == 4 && NulFree(text)
    ensures var data := [TYPE_QUERY] + code + text + [0];
            && data == [TYPE_QUERY] + code + (text + [0])
            && |data| == |text| + 6 && StringEnd(data, 5) == Some(|data| - 1) && data[5..|data| - 1] == text
  {
    var head := [TYPE_QUERY] + code;
    assert head + text + [0] == head + (text + [0]);
    FramedCode(TYPE_QUERY, code, text, [0]);
    StringEndAt(head + text + [0], 5, 5 + |text|);
  }
}
