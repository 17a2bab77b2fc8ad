/**
  The SudoError wire codec: size function, backwards writer, tag-dispatched parser and
  the skipper for unknown fields (Protocol Buffers Encoding, "Base 128 Varints" and
  "Length-Delimited Records").
 */
module SudoErrorCodec {
  import opened Machine
  import opened Varint

  datatype SudoError = SudoError(
    moduleName: Str,
    errorCode: int,
    contractAddress: Str,
    inputPayload: Str,
    errorMessage: Str)

  const EMPTY: SudoError := SudoError([], 0, [], [], [])

  // ---------------------------------------------------------------- encoding

  /** A length-delimited field; proto3 leaves an empty one out. */
  function StringField(tag: Byte, s: Str): (r: seq<Byte>) {
    if s == [] then [] else [tag] + Spell(|s|) + s
  }

  function CodeField(code: int): (r: seq<Byte>)
    requires IsInt32(code)
  {
    if code == 0 then [] else [0x10] + Spell(AsUint64(code))
  }

  /** The canonical encoding: the five fields in field order. */
  function Encode(m: SudoError): (r: seq<Byte>)
    requires IsInt32(m.errorCode)
  {
    StringField(0x0a, m.moduleName) + CodeField(m.errorCode) + StringField(0x1a, m.contractAddress) +
    StringField(0x22, m.inputPayload) + StringField(0x2a, m.errorMessage)
  }

  function StringFieldSize(s: Str): (r: nat) {
    if |s| > 0 then 1 + |s| + Sov(|s|) else 0
  }

  /** SudoError.Size. */
  function Size(m: SudoError): (r: nat)
    requires IsInt32(m.errorCode)
  {
    StringFieldSize(m.moduleName)
    + (if m.errorCode != 0 then 1 + Sov(AsUint64(m.errorCode)) else 0)
    + StringFieldSize(m.contractAddress) + StringFieldSize(m.inputPayload) + StringFieldSize(m.errorMessage)
  }

  /** Size is the exact number of bytes of the encoding. */
  lemma SizeIsExact(m: SudoError)
    requires IsInt32(m.errorCode)
    ensures |Encode(m)| == Size(m)
  {
    SovIsLength(|m.moduleName|);
    SovIsLength(AsUint64(m.errorCode));
    SovIsLength(|m.contractAddress|);
    SovIsLength(|m.inputPayload|);
    SovIsLength(|m.errorMessage|);
  }

  /** Puts one byte in front of what is already written from `i` on. */
  method WriteTag(a: array<Byte>, i: nat, tag: Byte) returns (j: nat)
    requires 1 <= i <= a.Length
    modifies a
    ensures j == i - 1
    ensures forall k :: 0 <= k < j ==> a[k] == old(a[k])
    ensures a[j..] == [tag] + old(a[i..])
  {
    j := i - 1;
    a[j] := tag;
  }

  /** `copy(dAtA[i-len(s):], s)`. */
  method WriteBytes(a: array<Byte>, i: nat, s: Str) returns (j: nat)
    requires |s| <= i <= a.Length
    modifies a
    ensures j == i - |s|
    ensures forall k :: 0 <= k < j ==> a[k] == old(a[k])
    ensures a[j..] == s + old(a[i..])
  {
    j := i - |s|;
    forall k | 0 <= k < |s| {
      a[j + k] := s[k];
    }
  }

  /** One length-delimited field, written below index `i`. */
  method WriteString(a: array<Byte>, i: nat, tag: Byte, s: Str) returns (j: nat)
    requires StringFieldSize(s) <= i <= a.Length
    modifies a
    ensures j == i - StringFieldSize(s)
    ensures forall k :: 0 <= k < j ==> a[k] == old(a[k])
    ensures a[j..] == StringField(tag, s) + old(a[i..])
  {
    j := i;
    if |s| > 0 {
      ghost var rest := a[i..];
      j := WriteBytes(a, j, s);
      var k := EncodeVarint(a, j, |s|);
      j := WriteTag(a, k, tag);
      SpellField(tag, s, rest);
    }
  }

  lemma SpellField(tag: Byte, s: Str, rest: seq<Byte>)
    requires s != []
    ensures [tag] + (Spell(|s|) + (s + rest)) == StringField(tag, s) + rest
  {
    hide Spell;
    Reassociate([tag], Spell(|s|), s, rest);
  }

  lemma Reassociate(a: seq<Byte>, b: seq<Byte>, c: seq<Byte>, d: seq<Byte>)
    ensures a + (b + (c + d)) == (a + b + c) + d
  {
    assert b + (c + d) == (b + c) + d;
    assert a + ((b + c) + d) == (a + (b + c)) + d;
    assert a + (b + c) == a + b + c;
  }

  method WriteCode(a: array<Byte>, i: nat, code: int) returns (j: nat)
    requires IsInt32(code)
    requires |CodeField(code)| <= i <= a.Length
    modifies a
    ensures j == i - |CodeField(code)|
    ensures forall k :: 0 <= k < j ==> a[k] == old(a[k])
    ensures a[j..] == CodeField(code) + old(a[i..])
  {
    j := i;
    if code != 0 {
      ghost var rest := a[i..];
      SovIsLength(AsUint64(code));
      var k := EncodeVarint(a, j, AsUint64(code));
      j := WriteTag(a, k, 0x10);
      assert [0x10] + (Spell(AsUint64(code)) + rest) == CodeField(code) + rest;
    }
  }

  /** MarshalToSizedBuffer: fills the buffer from its end and returns the bytes written. */
  method MarshalToSizedBuffer(m: SudoError, a: array<Byte>) returns (n: nat)
    requires IsInt32(m.errorCode)
    requires Size(m) <= a.Length
    modifies a
    ensures n == Size(m)
    ensures forall k :: 0 <= k < a.Length - n ==> a[k] == old(a[k])
    ensures a[a.Length - n..] == Encode(m)
  {
    SovIsLength(AsUint64(m.errorCode));
    var i5 := WriteString(a, a.Length, 0x2a, m.errorMessage);
    var i4 := WriteString(a, i5, 0x22, m.inputPayload);
    var i3 := WriteString(a, i4, 0x1a, m.contractAddress);
    var i2 := WriteCode(a, i3, m.errorCode);
    var i1 := WriteString(a, i2, 0x0a, m.moduleName);
    n := a.Length - i1;
    JoinFields(m);
  }

  lemma JoinFields(m: SudoError)
    requires IsInt32(m.errorCode)
    ensures Encode(m) ==
            StringField(0x0a, m.moduleName) + (CodeField(m.errorCode) + (StringField(0x1a, m.contractAddress) +
            (StringField(0x22, m.inputPayload) + (StringField(0x2a, m.errorMessage) + []))))
  {
    hide StringField, CodeField;
    var f1, f2, f3 := StringField(0x0a, m.moduleName), CodeField(m.errorCode), StringField(0x1a, m.contractAddress);
    var f4, f5 := StringField(0x22, m.inputPayload), StringField(0x2a, m.errorMessage);
    assert f5 + [] == f5;
    Reassociate(f1, f2, f3, f4 + f5);
    assert (f1 + f2 + f3) + (f4 + f5) == f1 + f2 + f3 + f4 + f5;
  }

  /** Marshal: a buffer of Size bytes is filled exactly, so the writer ends at index 0. */
  method Marshal(m: SudoError) returns (bytes: seq<Byte>)
    requires IsInt32(m.errorCode)
    ensures bytes == Encode(m)
  {
    var size := Size(m);
    var a := new Byte[size](_ => 0);
    var n := MarshalToSizedBuffer(m, a);
    bytes := a[..n];
  }

  // ---------------------------------------------------------------- skipping

  datatype Skipped = Skip(n: nat) | SkipBad(err: WireError)

  /** Where a record of the given wire type ends, its tag having ended at `j`. */
  function PayloadEnd(s: seq<Byte>, j: nat, wireType: nat): (r: Read)
    requires j <= |s| < TWO63
    ensures r.Got? ==> j <= r.next < TWO63
  {
    match wireType
    case 0 => ReadRaw(s, j, MAX_BYTES)
    case 1 => Advance(j, 8)
    case 2 =>
      (match ReadRaw(s, j, MAX_BYTES)
       case Bad(e) => Bad(e)
       case Got(v, k) =>
         var length := AsInt64(v % TWO64);
         if length < 0 then Bad(InvalidLength) else Advance(k, length))
    case 3 => Got(0, j)
    case 4 => Got(0, j)
    case 5 => Advance(j, 4)
    case _ => Bad(IllegalWireType)
  }

  /** `iNdEx += step` on int64, with the check for a negative result. */
  function Advance(i: nat, step: nat): (r: Read)
    requires i < TWO63 && step < TWO63
    ensures r.Got? ==> r.next == i + step < TWO63
  {
    var to := Wrap64(i + step);
    if to < 0 then Bad(InvalidLength) else Got(0, to)
  }

  /** skipCwerrors from index `i` with `depth` groups open. */
  function SkipFrom(s: seq<Byte>, i: nat, depth: nat): (r: Skipped)
    requires |s| < TWO63
    ensures r.Skip? ==> i < r.n < TWO63
    decreases |s| - i
  {
    if i >= |s| then SkipBad(UnexpectedEof) else
    match ReadRaw(s, i, MAX_BYTES)
    case Bad(e) => SkipBad(e)
    case Got(wire, j) =>
      var wireType := wire % 8;
      if wireType == 4 && depth == 0 then SkipBad(UnexpectedEndGroup) else
      match PayloadEnd(s, j, wireType)
      case Bad(e) => SkipBad(e)
      case Got(_, k) =>
        var d := if wireType == 3 then depth + 1 else if wireType == 4 then depth - 1 else depth;
        if d == 0 then Skip(k) else SkipFrom(s, k, d)
  }

  /** The switch on the wire type inside skipCwerrors, up to the check for a negative index. */
  method SkipPayload(s: seq<Byte>, j: nat, wireType: nat) returns (r: Read)
    requires j <= |s| < TWO63
    ensures r.Bad? ==> r == PayloadEnd(s, j, wireType)
    ensures r.Got? ==> PayloadEnd(s, j, wireType).Got? && PayloadEnd(s, j, wireType).next == r.next
  {
    hide ReadRaw;
    var i: int := j;
    match wireType {
      case 0 =>
        var v := ReadVarint(s, j, TWO64);
        if v.Bad? { return v; }
        i := v.next;
      case 1 =>
        i := Wrap64(j + 8);
      case 2 =>
        var v := ReadVarint(s, j, TWO64);
        if v.Bad? { return v; }
        var length := AsInt64(v.value);
        if length < 0 { return Bad(InvalidLength); }
        i := Wrap64(v.next + length);
      case 3 =>
      case 4 =>
      case 5 =>
        i := Wrap64(j + 4);
      case _ =>
        return Bad(IllegalWireType);
    }
    if i < 0 { return Bad(InvalidLength); }
    r := Got(0, i);
  }

  /** skipCwerrors as the source writes it: one loop with a depth counter. */
  method SkipUnknown(s: seq<Byte>) returns (r: Skipped)
    requires |s| < TWO63
    ensures r == SkipFrom(s, 0, 0)
  {
    hide ReadRaw, PayloadEnd;
    var i: nat := 0;
    var depth: nat := 0;
    while i < |s|
      invariant SkipFrom(s, i, depth) == SkipFrom(s, 0, 0)
      decreases |s| - i
    {
      var tag := ReadVarint(s, i, TWO64);
      if tag.Bad? { return SkipBad(tag.err); }
      LowBitsSurvive(ReadRaw(s, i, MAX_BYTES).value);
      var wireType := tag.value % 8;
      if wireType == 4 && depth == 0 { return SkipBad(UnexpectedEndGroup); }
      var end := SkipPayload(s, tag.next, wireType);
      if end.Bad? { return SkipBad(end.err); }
      if wireType == 3 {
        depth := depth + 1;
      } else if wireType == 4 {
        depth := depth - 1;
      }
      i := end.next;
      if depth == 0 { return Skip(i); }
    }
    r := SkipBad(UnexpectedEof);
  }

  lemma LowBitsSurvive(v: nat)
    ensures (v % TWO64) % 8 == v % 8
  {
  }

  /**
    The depth counter is nesting: closing d + e groups is closing d of them and then,
    from where that ended, the remaining e.
   */
  lemma {:induction false} DepthIsNesting(s: seq<Byte>, i: nat, d: nat, e: nat)
    requires |s| < TWO63 && d > 0 && e > 0
    ensures SkipFrom(s, i, d + e) ==
              match SkipFrom(s, i, d)
              case SkipBad(err) => SkipBad(err)
              case Skip(n) => SkipFrom(s, n, e)
    decreases |s| - i
  {
    hide ReadRaw, PayloadEnd;
    if i < |s| && ReadRaw(s, i, MAX_BYTES).Got? {
      var tag := ReadRaw(s, i, MAX_BYTES);
      var wireType := tag.value % 8;
      var end := PayloadEnd(s, tag.next, wireType);
      if end.Got? {
        var step := if wireType == 3 then 1 else if wireType == 4 then -1 else 0;
        if d + step > 0 {
          DepthIsNesting(s, end.next, d + step, e);
          assert d + e + step == (d + step) + e;
        }
      }
    }
  }

  lemma PayloadEndLocal(a: seq<Byte>, b: seq<Byte>, j: nat, wireType: nat)
    requires j <= |a| && |a + b| < TWO63
    requires PayloadEnd(a, j, wireType).Got?
    ensures PayloadEnd(a + b, j, wireType) == PayloadEnd(a, j, wireType)
  {
    if wireType == 0 || wireType == 2 {
      ReadRawLocal(a, b, j, MAX_BYTES);
    }
  }

  /** Skipping a record that lies inside `a` does not depend on what follows `a`. */
  lemma {:induction false} SkipLocal(a: seq<Byte>, b: seq<Byte>, i: nat, depth: nat)
    requires |a + b| < TWO63
    requires SkipFrom(a, i, depth).Skip?
    ensures SkipFrom(a + b, i, depth) == SkipFrom(a, i, depth)
    decreases |a| - i
  {
    var tag := ReadRaw(a, i, MAX_BYTES);
    ReadRawLocal(a, b, i, MAX_BYTES);
    var wireType := tag.value % 8;
    PayloadEndLocal(a, b, tag.next, wireType);
    var k := PayloadEnd(a, tag.next, wireType).next;
    var d := if wireType == 3 then depth + 1 else if wireType == 4 then depth - 1 else depth;
    if d != 0 {
      SkipLocal(a, b, k, d);
    }
  }

  // ---------------------------------------------------------------- parsing

  datatype Parsed = Ok(m: SudoError) | Fail(err: WireError)

  /** One record: the message after it and the bytes it took. */
  datatype Record = Took(m: SudoError, n: nat) | Broken(err: WireError)

  function SetString(m: SudoError, field: int, s: Str): (r: SudoError)
    requires field == 1 || field == 3 || field == 4 || field == 5
  {
    match field
    case 1 => m.(moduleName := s)
    case 3 => m.(contractAddress := s)
    case 4 => m.(inputPayload := s)
    case _ => m.(errorMessage := s)
  }

  /** The string field whose tag ended at `j`; `base` is the offset of `s` in the input. */
  function StringRecord(m: SudoError, s: seq<Byte>, base: nat, field: int, j: nat): (r: Record)
    requires base + |s| < TWO63 && j <= |s|
    requires field == 1 || field == 3 || field == 4 || field == 5
    ensures r.Took? ==> j < r.n <= |s|
  {
    match ReadRaw(s, j, MAX_BYTES)
    case Bad(e) => Broken(e)
    case Got(v, k) =>
      var length := AsInt64(v % TWO64);
      if length < 0 then Broken(InvalidLength)
      else if Wrap64(base + k + length) < 0 then Broken(InvalidLength)
      else if k + length > |s| then Broken(UnexpectedEof)
      else Took(SetString(m, field, s[k..k + length]), k + length)
  }

  /** A field number the message does not know: the whole record is skipped. */
  function UnknownRecord(m: SudoError, s: seq<Byte>, base: nat): (r: Record)
    requires base + |s| < TWO63
    ensures r.Took? ==> 0 < r.n <= |s|
  {
    match SkipFrom(s, 0, 0)
    case SkipBad(e) => Broken(e)
    case Skip(n) =>
      if Wrap64(base + n) < 0 then Broken(InvalidLength)
      else if n > |s| then Broken(UnexpectedEof)
      else Took(m, n)
  }

  /** The record at the front of `s`; every record takes at least one byte of it. */
  function ParseRecord(m: SudoError, s: seq<Byte>, base: nat): (r: Record)
    requires base + |s| < TWO63
    ensures r.Took? ==> 0 < r.n <= |s|
  {
    match ReadRaw(s, 0, MAX_BYTES)
    case Bad(e) => Broken(e)
    case Got(raw, j) =>
      var wire := raw % TWO64;
      var field := AsInt32(wire / 8);
      var wireType := wire % 8;
      if wireType == 4 then Broken(EndGroupForNonGroup)
      else if field <= 0 then Broken(IllegalTag)
      else if field == 1 || field == 3 || field == 4 || field == 5 then
        if wireType != 2 then Broken(WrongWireType) else StringRecord(m, s, base, field, j)
      else if field == 2 then
        if wireType != 0 then Broken(WrongWireType) else
        (match ReadRaw(s, j, MAX_BYTES)
         case Bad(e) => Broken(e)
         case Got(v, k) => Took(m.(errorCode := AsInt32(v)), k))
      else UnknownRecord(m, s, base)
  }

  /** SudoError.Unmarshal of `s` into `m`: the last occurrence of a field wins. */
  function Parse(m: SudoError, s: seq<Byte>, base: nat): (r: Parsed)
    requires base + |s| < TWO63
    decreases |s|
  {
    if s == [] then Ok(m) else
    match ParseRecord(m, s, base)
    case Broken(e) => Fail(e)
    case Took(m', n) => Parse(m', s[n..], base + n)
  }

  /** The length-delimited case of the switch: `i` is the index behind the tag. */
  method UnmarshalString(m: SudoError, data: seq<Byte>, pre: nat, i: nat, field: int) returns (r: Record)
    requires pre <= i <= |data| < TWO63
    requires field == 1 || field == 3 || field == 4 || field == 5
    ensures r == StringRecord(m, data[pre..], pre, field, i - pre)
  {
    hide ReadRaw;
    ReadRawShift(data, pre, i - pre, MAX_BYTES);
    var len := ReadVarint(data, i, TWO64);
    if len.Bad? { return Broken(len.err); }
    var j := len.next;
    var length := AsInt64(len.value);
    if length < 0 { return Broken(InvalidLength); }
    var postIndex := Wrap64(j + length);
    if postIndex < 0 { return Broken(InvalidLength); }
    if postIndex > |data| { return Broken(UnexpectedEof); }
    assert data[j..postIndex] == data[pre..][j - pre..postIndex - pre];
    r := Took(SetString(m, field, data[j..postIndex]), postIndex - pre);
  }

  lemma LowWord(v: nat)
    ensures AsInt32(v % TWO32) == AsInt32(v)
  {
  }

  /** One turn of Unmarshal's outer loop, at index `pre` of the whole input. */
  method UnmarshalRecord(m: SudoError, data: seq<Byte>, pre: nat) returns (r: Record)
    requires pre < |data| < TWO63
    ensures r == ParseRecord(m, data[pre..], pre)
  {
    hide ReadRaw, SkipFrom, StringRecord;
    ReadRawShift(data, pre, 0, MAX_BYTES);
    var tag := ReadVarint(data, pre, TWO64);
    if tag.Bad? { return Broken(tag.err); }
    var i := tag.next;
    ReadRawShift(data, pre, i - pre, MAX_BYTES);
    var wire := tag.value;
    var field := AsInt32(wire / 8);
    var wireType := wire % 8;
    if wireType == 4 { return Broken(EndGroupForNonGroup); }
    if field <= 0 { return Broken(IllegalTag); }
    if field == 1 || field == 3 || field == 4 || field == 5 {
      if wireType != 2 { return Broken(WrongWireType); }
      r := UnmarshalString(m, data, pre, i, field);
    } else if field == 2 {
      if wireType != 0 { return Broken(WrongWireType); }
      var code := ReadVarint(data, i, TWO32);
      if code.Bad? { return Broken(code.err); }
      LowWord(ReadRaw(data, i, MAX_BYTES).value);
      r := Took(m.(errorCode := AsInt32(code.value)), code.next - pre);
    } else {
      var skippy := SkipUnknown(data[pre..]);
      if skippy.SkipBad? { return Broken(skippy.err); }
      if Wrap64(pre + skippy.n) < 0 { return Broken(InvalidLength); }
      if Wrap64(pre + skippy.n) > |data| { return Broken(UnexpectedEof); }
      r := Took(m, skippy.n);
    }
  }

  /** Unmarshal as the source writes it, over absolute indices in the whole input. */
  method Unmarshal(m0: SudoError, data: seq<Byte>) returns (r: Parsed)
    requires |data| < TWO63
    ensures r == Parse(m0, data, 0)
  {
    hide ParseRecord;
    var m := m0;
    var i: nat := 0;
    assert data[0..] == data;
    while i < |data|
      invariant i <= |data|
      invariant Parse(m, data[i..], i) == Parse(m0, data, 0)
      decreases |data| - i
    {
      var record := UnmarshalRecord(m, data, i);
      if record.Broken? { return Fail(record.err); }
      assert data[i..][record.n..] == data[i + record.n..];
      m := record.m;
      i := i + record.n;
    }
    r := Ok(m);
  }

  // ---------------------------------------------------------------- laws

  lemma RecordLocal(m: SudoError, a: seq<Byte>, b: seq<Byte>, base: nat)
    requires base + |a + b| < TWO63
    requires ParseRecord(m, a, base).Took?
    ensures ParseRecord(m, a + b, base) == ParseRecord(m, a, base)
  {
    hide ReadRaw, SkipFrom;
    ReadRawLocal(a, b, 0, MAX_BYTES);
    var tag := ReadRaw(a, 0, MAX_BYTES);
    var field := AsInt32(tag.value % TWO64 / 8);
    if field == 2 {
      ReadRawLocal(a, b, tag.next, MAX_BYTES);
    } else if field == 1 || field == 3 || field == 4 || field == 5 {
      StringRecordLocal(m, a, b, base, field, tag.next);
    } else {
      SkipLocal(a, b, 0, 0);
    }
  }

  lemma StringRecordLocal(m: SudoError, a: seq<Byte>, b: seq<Byte>, base: nat, field: int, j: nat)
    requires base + |a + b| < TWO63 && j <= |a|
    requires field == 1 || field == 3 || field == 4 || field == 5
    requires StringRecord(m, a, base, field, j).Took?
    ensures StringRecord(m, a + b, base, field, j) == StringRecord(m, a, base, field, j)
  {
    hide ReadRaw;
    ReadRawLocal(a, b, j, MAX_BYTES);
    var k := ReadRaw(a, j, MAX_BYTES).next;
    var n := StringRecord(m, a, base, field, j).n;
    assert (a + b)[k..n] == a[k..n];
  }

  /** Parsing a concatenation is parsing the parts in turn into the same message. */
  lemma {:induction false} ParseConcat(m: SudoError, a: seq<Byte>, b: seq<Byte>, base: nat)
    requires base + |a + b| < TWO63
    requires Parse(m, a, base).Ok?
    ensures Parse(m, a + b, base) == Parse(Parse(m, a, base).m, b, base + |a|)
    decreases |a|
  {
    hide ParseRecord;
    if a == [] {
      assert a + b == b;
    } else {
      RecordLocal(m, a, b, base);
      var record := ParseRecord(m, a, base);
      assert (a + b)[record.n..] == a[record.n..] + b;
      assert Parse(m, a + b, base) == Parse(record.m, a[record.n..] + b, base + record.n);
      ParseConcat(record.m, a[record.n..], b, base + record.n);
    }
  }

  /** Bytes that the skipper takes as one record, and whose tag has a field number above 5. */
  predicate SkippedField(u: seq<Byte>)
    requires |u| < TWO63
  {
    var tag := ReadRaw(u, 0, MAX_BYTES);
    && tag.Got?
    && AsInt32(tag.value % TWO64 / 8) > 5
    && tag.value % TWO64 % 8 != 4
    && SkipFrom(u, 0, 0) == Skip(|u|)
  }

  lemma UnknownIsSkipped(m: SudoError, u: seq<Byte>, base: nat)
    requires base + |u| < TWO63 && SkippedField(u)
    ensures u != [] && ParseRecord(m, u, base) == Took(m, |u|)
  {
    hide ReadRaw, SkipFrom;
  }

  lemma SkippedIgnored(m: SudoError, a: seq<Byte>, u: seq<Byte>, b: seq<Byte>, base: nat)
    requires base + |a + u + b| < TWO63
    requires Parse(m, a, base).Ok? && SkippedField(u)
    ensures Parse(m, a + u + b, base) == Parse(Parse(m, a, base).m, b, base + |a + u|)
  {
    hide ParseRecord, SkippedField;
    var m1 := Parse(m, a, base).m;
    UnknownIsSkipped(m1, u, base + |a|);
    SingleRecord(m1, u, base + |a|, m1);
    ParseConcat(m, a, u, base);
    ParseConcat(m, a + u, b, base);
  }

  /** What proto3 merging leaves: a field that was sent replaces the old value. */
  function Merge(m: SudoError, x: SudoError): (r: SudoError) {
    SudoError(
      if x.moduleName == [] then m.moduleName else x.moduleName,
      if x.errorCode == 0 then m.errorCode else x.errorCode,
      if x.contractAddress == [] then m.contractAddress else x.contractAddress,
      if x.inputPayload == [] then m.inputPayload else x.inputPayload,
      if x.errorMessage == [] then m.errorMessage else x.errorMessage)
  }

  /** A message that is one single record is parsed by parsing that record. */
  lemma SingleRecord(m: SudoError, s: seq<Byte>, base: nat, m': SudoError)
    requires base + |s| < TWO63
    requires ParseRecord(m, s, base) == Took(m', |s|)
    ensures Parse(m, s, base) == Ok(m')
  {
    hide ParseRecord;
    assert s[|s|..] == [];
  }

  lemma StringFieldParses(m: SudoError, field: int, s: Str, base: nat)
    requires field == 1 || field == 3 || field == 4 || field == 5
    requires base + |StringField(8 * field + 2, s)| < TWO63
    ensures Parse(m, StringField(8 * field + 2, s), base) == Ok(if s == [] then m else SetString(m, field, s))
  {
    if s != [] {
      var tag: Byte := 8 * field + 2;
      var f := StringField(tag, s);
      Uint64Fits(|s|);
      ReadInvertsWrite(|s|, MAX_BYTES, [tag], s);
      StringRecordParses(m, f, base, field, s);
      SingleRecord(m, f, base, SetString(m, field, s));
    }
  }

  lemma StringRecordParses(m: SudoError, f: seq<Byte>, base: nat, field: int, s: Str)
    requires field == 1 || field == 3 || field == 4 || field == 5
    requires s != [] && f == StringField(8 * field + 2, s) && base + |f| < TWO63
    requires ReadRaw(f, 1, MAX_BYTES) == Got(|s|, 1 + |Spell(|s|)|)
    ensures ParseRecord(m, f, base) == Took(SetString(m, field, s), |f|)
  {
    hide ReadRaw, Spell, SetString, SkipFrom, AsInt32, StringRecord;
    OneByteTag(f);
    StringTag(field);
    StringPayloadParses(m, f, base, field, s);
  }

  lemma StringPayloadParses(m: SudoError, f: seq<Byte>, base: nat, field: int, s: Str)
    requires field == 1 || field == 3 || field == 4 || field == 5
    requires s != [] && f == StringField(8 * field + 2, s) && base + |f| < TWO63
    requires ReadRaw(f, 1, MAX_BYTES) == Got(|s|, 1 + |Spell(|s|)|)
    ensures StringRecord(m, f, base, field, 1) == Took(SetString(m, field, s), |f|)
  {
    hide ReadRaw, Spell, SetString, StringField;
    PayloadSlice(f, field, s);
  }

  lemma PayloadSlice(f: seq<Byte>, field: int, s: Str)
    requires 1 <= field <= 5 && s != [] && f == StringField(8 * field + 2, s)
    ensures var k := 1 + |Spell(|s|)|; |f| == k + |s| && f[k..k + |s|] == s
  {
    hide Spell;
  }

  lemma StringTag(field: int)
    requires 1 <= field <= 5
    ensures var wire := (8 * field + 2) % TWO64; AsInt32(wire / 8) == field && wire % 8 == 2
  {
  }

  lemma CodeFieldParses(m: SudoError, code: int, base: nat)
    requires IsInt32(code)
    requires base + |CodeField(code)| < TWO63
    ensures Parse(m, CodeField(code), base) == Ok(if code == 0 then m else m.(errorCode := code))
  {
    if code != 0 {
      var f := CodeField(code);
      Uint64Fits(AsUint64(code));
      ReadInvertsWrite(AsUint64(code), MAX_BYTES, [0x10], []);
      assert f == [0x10] + Spell(AsUint64(code)) + [];
      CodeRecordParses(m, f, base, code);
      SingleRecord(m, f, base, m.(errorCode := code));
    }
  }

  lemma CodeRecordParses(m: SudoError, f: seq<Byte>, base: nat, code: int)
    requires IsInt32(code) && code != 0 && f == CodeField(code) && base + |f| < TWO63
    requires ReadRaw(f, 1, MAX_BYTES) == Got(AsUint64(code), |f|)
    ensures ParseRecord(m, f, base) == Took(m.(errorCode := code), |f|)
  {
    hide ReadRaw, Spell, SkipFrom, StringRecord;
    OneByteTag(f);
    assert AsInt32(AsUint64(code)) == code;
  }

  lemma OneByteTag(f: seq<Byte>)
    requires f != [] && f[0] < 128
    ensures ReadRaw(f, 0, MAX_BYTES) == Got(f[0], 1)
  {
  }

  /** Unmarshalling an encoding merges the encoded message into the target. */
  lemma EncodeMerges(m: SudoError, x: SudoError, base: nat)
    requires IsInt32(x.errorCode)
    requires base + |Encode(x)| < TWO63
    ensures Parse(m, Encode(x), base) == Ok(Merge(m, x))
  {
    hide Parse, StringField, CodeField;
    var f1 := StringField(0x0a, x.moduleName);
    var f2 := CodeField(x.errorCode);
    var f3 := StringField(0x1a, x.contractAddress);
    var f4 := StringField(0x22, x.inputPayload);
    var f5 := StringField(0x2a, x.errorMessage);
    StringFieldParses(m, 1, x.moduleName, base);
    var m1 := Parse(m, f1, base).m;
    CodeFieldParses(m1, x.errorCode, base + |f1|);
    ParseConcat(m, f1, f2, base);
    var m2 := Parse(m, f1 + f2, base).m;
    StringFieldParses(m2, 3, x.contractAddress, base + |f1 + f2|);
    ParseConcat(m, f1 + f2, f3, base);
    var m3 := Parse(m, f1 + f2 + f3, base).m;
    StringFieldParses(m3, 4, x.inputPayload, base + |f1 + f2 + f3|);
    ParseConcat(m, f1 + f2 + f3, f4, base);
    var m4 := Parse(m, f1 + f2 + f3 + f4, base).m;
    StringFieldParses(m4, 5, x.errorMessage, base + |f1 + f2 + f3 + f4|);
    ParseConcat(m, f1 + f2 + f3 + f4, f5, base);
  }

  /** Wire round trip: a fresh value unmarshalled from Marshal's bytes is the message. */
  lemma RoundTrip(x: SudoError)
    requires IsInt32(x.errorCode)
    requires |Encode(x)| < TWO63
    ensures Parse(EMPTY, Encode(x), 0) == Ok(x)
  {
    EncodeMerges(EMPTY, x, 0);
  }
}
