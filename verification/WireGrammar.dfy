/**
  The wire grammar of the Protocol Buffers Encoding specification, written down without
  the parser: what a record looks like, byte by byte, and that the skipper and the codec
  follow it, both ways.
 */
module WireGrammar {
  import opened Machine
  import opened Varint
  import opened SudoErrorCodec

  // ---------------------------------------------------------------- varints

  /** One to `k` bytes, of which exactly the last has a clear high bit. */
  predicate Spells(v: seq<Byte>, k: nat) {
    1 <= |v| <= k && v[|v| - 1] < 128 && forall i :: 0 <= i < |v| - 1 ==> v[i] >= 128
  }

  /** A varint has at most ten bytes; it need not be the shortest spelling. */
  predicate IsVarint(v: seq<Byte>) {
    Spells(v, 10)
  }

  /** The number whose base-128 digits are the low seven bits, least significant first. */
  function Value(v: seq<Byte>): (r: nat) {
    if v == [] then 0 else v[0] % 128 + 128 * Value(v[1..])
  }

  lemma {:induction false} ReadsVarint(pre: seq<Byte>, v: seq<Byte>, post: seq<Byte>, k: nat)
    requires Spells(v, k)
    ensures ReadRaw(pre + v + post, |pre|, k) == Got(Value(v), |pre| + |v|)
    decreases k
  {
    var s := pre + v + post;
    assert s[|pre|] == v[0];
    if v[0] >= 128 {
      var rest := v[1..];
      assert s == (pre + [v[0]]) + rest + post;
      ReadsVarint(pre + [v[0]], rest, post, k - 1);
    } else {
      assert |v| == 1 && v[1..] == [];
    }
  }

  /** What the reader accepts is a varint, and its value is the one read. */
  lemma {:induction false} VarintRead(s: seq<Byte>, i: nat, k: nat)
    requires ReadRaw(s, i, k).Got?
    ensures var r := ReadRaw(s, i, k); Spells(s[i..r.next], k) && Value(s[i..r.next]) == r.value
    decreases k
  {
    var r := ReadRaw(s, i, k);
    var v := s[i..r.next];
    if s[i] >= 128 {
      VarintRead(s, i + 1, k - 1);
      assert v[1..] == s[i + 1..r.next];
      forall j | 0 <= j < |v| - 1
        ensures v[j] >= 128
      {
        assert j > 0 ==> v[j] == v[1..][j - 1];
      }
    } else {
      assert v == [s[i]] && v[1..] == [];
    }
  }

  /** The writer's spelling is a varint of its number. */
  lemma {:induction false} SpellIsVarint(v: nat, k: nat)
    requires v < Pow128(k) && k >= 1
    ensures Spells(Spell(v), k) && Value(Spell(v)) == v
    decreases v
  {
    if v >= 128 {
      SpellIsVarint(v / 128, k - 1);
      assert Spell(v)[1..] == Spell(v / 128);
    } else {
      assert Spell(v)[1..] == [];
    }
  }

  // ---------------------------------------------------------------- records

  /** A record: its tag and what the wire type says follows. */
  datatype Wire =
    | Number(tag: seq<Byte>, number: seq<Byte>)
    | Fixed64(tag: seq<Byte>, bytes: seq<Byte>)
    | Delimited(tag: seq<Byte>, length: seq<Byte>, bytes: seq<Byte>)
    | Group(tag: seq<Byte>, body: Wires, end: seq<Byte>)
    | Fixed32(tag: seq<Byte>, bytes: seq<Byte>)

  datatype Wires = Done | More(head: Wire, tail: Wires)

  /** A tag is a varint whose low three bits are the wire type. */
  predicate HasType(tag: seq<Byte>, wireType: nat) {
    IsVarint(tag) && Value(tag) % 8 == wireType
  }

  /** The field number, as the parser's int32 has it. */
  function FieldNumber(u: Wire): (r: int) {
    AsInt32(Value(u.tag) % TWO64 / 8)
  }

  predicate WellFormed(u: Wire) {
    match u
    case Number(tag, number) => HasType(tag, 0) && IsVarint(number)
    case Fixed64(tag, bytes) => HasType(tag, 1) && |bytes| == 8
    case Delimited(tag, length, bytes) => HasType(tag, 2) && IsVarint(length) && Value(length) % TWO64 == |bytes|
    case Group(tag, body, end) => HasType(tag, 3) && AllWellFormed(body) && HasType(end, 4)
    case Fixed32(tag, bytes) => HasType(tag, 5) && |bytes| == 4
  }

  predicate AllWellFormed(us: Wires) {
    us.Done? || (WellFormed(us.head) && AllWellFormed(us.tail))
  }

  function Bytes(u: Wire): (r: seq<Byte>) {
    match u
    case Number(tag, number) => tag + number
    case Fixed64(tag, bytes) => tag + bytes
    case Delimited(tag, length, bytes) => tag + (length + bytes)
    case Group(tag, body, end) => tag + (AllBytes(body) + end)
    case Fixed32(tag, bytes) => tag + bytes
  }

  function AllBytes(us: Wires): (r: seq<Byte>) {
    if us.Done? then [] else Bytes(us.head) + AllBytes(us.tail)
  }

  // ---------------------------------------------------------------- the skipper follows the grammar

  /** The skipper stops behind a record unless a group is open. */
  function Onward(s: seq<Byte>, i: nat, depth: nat): (r: Skipped)
    requires |s| < TWO63
  {
    if depth == 0 then Skip(i) else SkipFrom(s, i, depth)
  }

  lemma SkipStep(s: seq<Byte>, i: nat, wire: nat, j: nat, k: nat, depth: nat, after: nat)
    requires |s| < TWO63 && ReadRaw(s, i, MAX_BYTES) == Got(wire, j)
    requires PayloadEnd(s, j, wire % 8).Got? && PayloadEnd(s, j, wire % 8).next == k
    requires after == if wire % 8 == 3 then depth + 1 else if wire % 8 == 4 then depth - 1 else depth
    ensures SkipFrom(s, i, depth) == Onward(s, k, after)
  {
    hide ReadRaw, PayloadEnd;
  }

  lemma Regroup(a: seq<Byte>, b: seq<Byte>, c: seq<Byte>, d: seq<Byte>)
    ensures a + (b + c) + d == a + b + (c + d) == (a + b) + c + d
  {
  }

  /** Every record of the grammar is skipped as a whole, wherever it stands and however deep. */
  lemma {:induction false} SkipsRecord(pre: seq<Byte>, u: Wire, post: seq<Byte>, depth: nat)
    requires WellFormed(u) && |pre + Bytes(u) + post| < TWO63
    ensures SkipFrom(pre + Bytes(u) + post, |pre|, depth) ==
            Onward(pre + Bytes(u) + post, |pre| + |Bytes(u)|, depth)
    decreases u
  {
    hide ReadRaw, SkipFrom, Value, Spells;
    var s, tag := pre + Bytes(u) + post, u.tag;
    var rest := Bytes(u)[|tag|..];
    assert Bytes(u) == tag + rest;
    Regroup(pre, tag, rest, post);
    ReadsVarint(pre, tag, rest + post, MAX_BYTES);
    var j, end := |pre| + |tag|, |pre| + |Bytes(u)|;
    match u {
      case Number(_, number) =>
        ReadsVarint(pre + tag, number, post, MAX_BYTES);
        SkipStep(s, |pre|, Value(tag), j, end, depth, depth);
      case Fixed64(_, bytes) =>
        SkipStep(s, |pre|, Value(tag), j, end, depth, depth);
      case Delimited(_, length, bytes) =>
        Regroup(pre + tag, length, bytes, post);
        ReadsVarint(pre + tag, length, bytes + post, MAX_BYTES);
        SkipStep(s, |pre|, Value(tag), j, end, depth, depth);
      case Group(_, body, close) =>
        SkipStep(s, |pre|, Value(tag), j, j, depth, depth + 1);
        Regroup(pre + tag, AllBytes(body), close, post);
        SkipsRecords(pre + tag, body, close + post, depth + 1);
        var k := j + |AllBytes(body)|;
        ReadsVarint(pre + tag + AllBytes(body), close, post, MAX_BYTES);
        SkipStep(s, k, Value(close), end, end, depth + 1, depth);
      case Fixed32(_, bytes) =>
        SkipStep(s, |pre|, Value(tag), j, end, depth, depth);
    }
  }

  lemma {:induction false} SkipsRecords(pre: seq<Byte>, us: Wires, post: seq<Byte>, depth: nat)
    requires AllWellFormed(us) && depth > 0 && |pre + AllBytes(us) + post| < TWO63
    ensures SkipFrom(pre + AllBytes(us) + post, |pre|, depth) ==
            SkipFrom(pre + AllBytes(us) + post, |pre| + |AllBytes(us)|, depth)
    decreases us
  {
    hide SkipFrom, Bytes;
    if us.More? {
      Regroup(pre, Bytes(us.head), AllBytes(us.tail), post);
      SkipsRecord(pre, us.head, AllBytes(us.tail) + post, depth);
      SkipsRecords(pre + Bytes(us.head), us.tail, post, depth);
    }
  }

  // ---------------------------------------------------------------- and accepts nothing else

  lemma LeafAt(s: seq<Byte>, i: nat, k: nat) returns (u: Wire)
    requires |s| < TWO63 && ReadRaw(s, i, MAX_BYTES).Got?
    requires var tag := ReadRaw(s, i, MAX_BYTES);
             && tag.value % 8 != 3 && tag.value % 8 != 4
             && PayloadEnd(s, tag.next, tag.value % 8).Got? && PayloadEnd(s, tag.next, tag.value % 8).next == k <= |s|
    ensures WellFormed(u) && i < k && Bytes(u) == s[i..k]
  {
    hide ReadRaw, Value, Spells;
    var tag := ReadRaw(s, i, MAX_BYTES);
    var t, j := s[i..tag.next], tag.next;
    VarintRead(s, i, MAX_BYTES);
    match tag.value % 8 {
      case 0 =>
        VarintRead(s, j, MAX_BYTES);
        u := Number(t, s[j..k]);
      case 1 => u := Fixed64(t, s[j..k]);
      case 2 =>
        VarintRead(s, j, MAX_BYTES);
        var l := ReadRaw(s, j, MAX_BYTES).next;
        u := Delimited(t, s[j..l], s[l..k]);
      case _ => u := Fixed32(t, s[j..k]);
    }
  }

  lemma GroupOf(s: seq<Byte>, i: nat, j: nat, k: nat, body: Wires, close: seq<Byte>)
    requires i < j <= k <= |s| && HasType(s[i..j], 3) && AllWellFormed(body) && HasType(close, 4)
    requires s[j..k] == AllBytes(body) + close
    ensures WellFormed(Group(s[i..j], body, close)) && Bytes(Group(s[i..j], body, close)) == s[i..k]
  {
    hide HasType, AllWellFormed, AllBytes;
    assert s[i..k] == s[i..j] + s[j..k];
  }

  lemma MoreOf(s: seq<Byte>, i: nat, k: nat, n: nat, u: Wire, rest: Wires, end: seq<Byte>)
    requires i <= k <= n <= |s| && WellFormed(u) && AllWellFormed(rest)
    requires Bytes(u) == s[i..k] && s[k..n] == AllBytes(rest) + end
    ensures AllWellFormed(More(u, rest)) && s[i..n] == AllBytes(More(u, rest)) + end
  {
    hide WellFormed, Bytes;
    assert s[i..n] == s[i..k] + s[k..n];
    assert Bytes(u) + (AllBytes(rest) + end) == (Bytes(u) + AllBytes(rest)) + end;
  }

  lemma GroupTag(s: seq<Byte>, j: nat)
    requires j <= |s| < TWO63
    ensures PayloadEnd(s, j, 3) == Got(0, j) && PayloadEnd(s, j, 4) == Got(0, j)
  {
  }

  /** What was skipped at the top level is a record of the grammar. */
  lemma {:induction false} RecordAt(s: seq<Byte>, i: nat, n: nat) returns (u: Wire)
    requires |s| < TWO63 && SkipFrom(s, i, 0) == Skip(n) && n <= |s|
    ensures WellFormed(u) && i < n && Bytes(u) == s[i..n]
    decreases |s| - i, 2
  {
    hide ReadRaw, PayloadEnd, Value, Spells, Bytes, AllBytes, WellFormed, AllWellFormed;
    var tag := ReadRaw(s, i, MAX_BYTES);
    if tag.value % 8 == 3 {
      GroupTag(s, tag.next);
      VarintRead(s, i, MAX_BYTES);
      var body, end := RecordsAt(s, tag.next, n);
      u := Group(s[i..tag.next], body, end);
      GroupOf(s, i, tag.next, n, body, end);
    } else {
      u := LeafAt(s, i, n);
    }
  }

  /** What was skipped inside a group are records and the tag that ends it. */
  lemma {:induction false} RecordsAt(s: seq<Byte>, i: nat, n: nat) returns (us: Wires, end: seq<Byte>)
    requires |s| < TWO63 && SkipFrom(s, i, 1) == Skip(n) && n <= |s|
    ensures AllWellFormed(us) && HasType(end, 4) && i < n && s[i..n] == AllBytes(us) + end
    decreases |s| - i, 1
  {
    hide ReadRaw, PayloadEnd, Value, Spells, Bytes, WellFormed;
    var tag := ReadRaw(s, i, MAX_BYTES);
    var j := tag.next;
    GroupTag(s, j);
    VarintRead(s, i, MAX_BYTES);
    if tag.value % 8 == 4 {
      us, end := Done, s[i..n];
      assert [] + s[i..n] == s[i..n];
    } else {
      hide AllBytes, AllWellFormed;
      var u, k := FirstOf(s, i, n);
      var rest, last := RecordsAt(s, k, n);
      us, end := More(u, rest), last;
      MoreOf(s, i, k, n, u, rest, last);
    }
  }

  /** The first record inside a group, unless the group ends there. */
  lemma {:induction false} FirstOf(s: seq<Byte>, i: nat, n: nat) returns (u: Wire, k: nat)
    requires |s| < TWO63 && SkipFrom(s, i, 1) == Skip(n) && n <= |s| && ReadRaw(s, i, MAX_BYTES).value % 8 != 4
    ensures WellFormed(u) && i < k < n && Bytes(u) == s[i..k] && SkipFrom(s, k, 1) == Skip(n)
    decreases |s| - i, 0
  {
    hide ReadRaw, PayloadEnd, Value, Spells, Bytes, AllBytes, WellFormed, AllWellFormed;
    var tag := ReadRaw(s, i, MAX_BYTES);
    var j := tag.next;
    if tag.value % 8 == 3 {
      GroupTag(s, j);
      VarintRead(s, i, MAX_BYTES);
      DepthIsNesting(s, j, 1, 1);
      k := SkipFrom(s, j, 1).n;
      var body, close := RecordsAt(s, j, k);
      u := Group(s[i..j], body, close);
      GroupOf(s, i, j, k, body, close);
    } else {
      k := PayloadEnd(s, j, tag.value % 8).next;
      u := LeafAt(s, i, k);
    }
  }

  /** These bytes are one record of the grammar. */
  ghost predicate IsRecord(s: seq<Byte>) {
    exists u: Wire :: WellFormed(u) && Bytes(u) == s
  }

  /**
    The skipper is the grammar, both ways, on every input: it stops behind the first `n`
    bytes if and only if they are one well-formed record.
   */
  lemma SkipIsGrammar(s: seq<Byte>, n: nat)
    requires n <= |s| < TWO63
    ensures SkipFrom(s, 0, 0) == Skip(n) <==> IsRecord(s[..n])
  {
    hide SkipFrom, Bytes, WellFormed;
    assert s[0..n] == s[..n] && s == s[..n] + s[n..];
    if SkipFrom(s, 0, 0) == Skip(n) {
      var u := RecordAt(s, 0, n);
    }
    if IsRecord(s[..n]) {
      var u: Wire :| WellFormed(u) && Bytes(u) == s[..n];
      RecordIsSkipped(u, s[n..]);
    }
  }

  lemma RecordIsSkipped(u: Wire, post: seq<Byte>)
    requires WellFormed(u) && |Bytes(u) + post| < TWO63
    ensures SkipFrom(Bytes(u) + post, 0, 0) == Skip(|Bytes(u)|)
  {
    hide SkipFrom, Bytes, WellFormed;
    assert [] + Bytes(u) == Bytes(u);
    SkipsRecord([], u, post, 0);
  }

  // ---------------------------------------------------------------- the codec follows the grammar

  /** A record the message can take: a positive field number, and the wire type of a known field. */
  predicate Fits(u: Wire) {
    && FieldNumber(u) > 0
    && (FieldNumber(u) in {1, 3, 4, 5} ==> u.Delimited?)
    && (FieldNumber(u) == 2 ==> u.Number?)
  }

  predicate AllFit(us: Wires) {
    us.Done? || (Fits(us.head) && AllFit(us.tail))
  }

  /** What a record does to the message: its field is replaced, an unknown one has no effect. */
  function Apply(m: SudoError, u: Wire): (r: SudoError)
    requires Fits(u)
  {
    match FieldNumber(u)
    case 1 => m.(moduleName := u.bytes)
    case 2 => m.(errorCode := AsInt32(Value(u.number)))
    case 3 => m.(contractAddress := u.bytes)
    case 4 => m.(inputPayload := u.bytes)
    case 5 => m.(errorMessage := u.bytes)
    case _ => m
  }

  function ApplyAll(m: SudoError, us: Wires): (r: SudoError)
    requires AllFit(us)
    decreases us
  {
    if us.Done? then m else ApplyAll(Apply(m, us.head), us.tail)
  }

  /** The tag of a record at the front, as the parser reads it. */
  lemma TagRead(u: Wire, post: seq<Byte>)
    requires WellFormed(u)
    ensures ReadRaw(Bytes(u) + post, 0, MAX_BYTES) == Got(Value(u.tag), |u.tag|)
    ensures Value(u.tag) % TWO64 % 8 == Value(u.tag) % 8 != 4
  {
    hide ReadRaw, Value, Spells;
    LowBitsSurvive(Value(u.tag));
    var rest := Bytes(u)[|u.tag|..];
    assert Bytes(u) + post == [] + u.tag + (rest + post);
    ReadsVarint([], u.tag, rest + post, MAX_BYTES);
  }

  lemma TextParses(m: SudoError, u: Wire, post: seq<Byte>, base: nat)
    requires WellFormed(u) && u.Delimited? && base + |Bytes(u) + post| < TWO63
    requires FieldNumber(u) in {1, 3, 4, 5}
    ensures StringRecord(m, Bytes(u) + post, base, FieldNumber(u), |u.tag|) ==
            Took(SetString(m, FieldNumber(u), u.bytes), |Bytes(u)|)
  {
    hide ReadRaw, Value, Spells, SetString, FieldNumber;
    var s := Bytes(u) + post;
    assert s == u.tag + u.length + (u.bytes + post);
    ReadsVarint(u.tag, u.length, u.bytes + post, MAX_BYTES);
    var k := |u.tag| + |u.length|;
    assert s[k..k + |u.bytes|] == u.bytes;
  }

  lemma NumberParses(u: Wire, post: seq<Byte>)
    requires WellFormed(u) && u.Number?
    ensures ReadRaw(Bytes(u) + post, |u.tag|, MAX_BYTES) == Got(Value(u.number), |Bytes(u)|)
  {
    hide ReadRaw, Value, Spells;
    assert Bytes(u) + post == u.tag + u.number + post;
    ReadsVarint(u.tag, u.number, post, MAX_BYTES);
  }

  /** The parser takes every fitting record, and does with it what it means. */
  lemma TakesRecord(m: SudoError, u: Wire, post: seq<Byte>, base: nat)
    requires WellFormed(u) && Fits(u) && base + |Bytes(u) + post| < TWO63
    ensures ParseRecord(m, Bytes(u) + post, base) == Took(Apply(m, u), |Bytes(u)|)
  {
    TagRead(u, post);
    var field := FieldNumber(u);
    if field in {1, 3, 4, 5} {
      hide ReadRaw, Value, Spells, SkipFrom, Bytes, StringRecord, WellFormed;
      TextParses(m, u, post, base);
    } else if field == 2 {
      hide ReadRaw, Value, Spells, SkipFrom, Bytes, StringRecord, WellFormed;
      NumberParses(u, post);
    } else {
      hide ReadRaw, Value, Spells, SkipFrom, Bytes, StringRecord, WellFormed;
      RecordIsSkipped(u, post);
    }
  }

  lemma TextAt(m: SudoError, s: seq<Byte>, base: nat) returns (u: Wire)
    requires base + |s| < TWO63 && ReadRaw(s, 0, MAX_BYTES).Got?
    requires var tag := ReadRaw(s, 0, MAX_BYTES);
             && tag.value % 8 == 2 && AsInt32(tag.value % TWO64 / 8) in {1, 3, 4, 5}
             && StringRecord(m, s, base, AsInt32(tag.value % TWO64 / 8), tag.next).Took?
    ensures var tag := ReadRaw(s, 0, MAX_BYTES);
            var r := StringRecord(m, s, base, AsInt32(tag.value % TWO64 / 8), tag.next);
            && u.Delimited? && WellFormed(u) && Bytes(u) == s[..r.n]
            && Value(u.tag) == tag.value && r.m == SetString(m, AsInt32(tag.value % TWO64 / 8), u.bytes)
  {
    hide ReadRaw, Value, Spells, SetString, AsInt32;
    var tag := ReadRaw(s, 0, MAX_BYTES);
    VarintRead(s, 0, MAX_BYTES);
    VarintRead(s, tag.next, MAX_BYTES);
    var length := ReadRaw(s, tag.next, MAX_BYTES);
    var n := StringRecord(m, s, base, AsInt32(tag.value % TWO64 / 8), tag.next).n;
    u := Delimited(s[0..tag.next], s[tag.next..length.next], s[length.next..n]);
    assert s[..n] == s[0..tag.next] + (s[tag.next..length.next] + s[length.next..n]);
  }

  lemma NumberAt(s: seq<Byte>) returns (u: Wire)
    requires ReadRaw(s, 0, MAX_BYTES).Got? && ReadRaw(s, 0, MAX_BYTES).value % 8 == 0
    requires ReadRaw(s, ReadRaw(s, 0, MAX_BYTES).next, MAX_BYTES).Got?
    ensures var tag := ReadRaw(s, 0, MAX_BYTES);
            var number := ReadRaw(s, tag.next, MAX_BYTES);
            && u.Number? && WellFormed(u) && Bytes(u) == s[..number.next]
            && Value(u.tag) == tag.value && Value(u.number) == number.value
  {
    hide ReadRaw, Value, Spells;
    var tag := ReadRaw(s, 0, MAX_BYTES);
    VarintRead(s, 0, MAX_BYTES);
    VarintRead(s, tag.next, MAX_BYTES);
    var n := ReadRaw(s, tag.next, MAX_BYTES).next;
    u := Number(s[0..tag.next], s[tag.next..n]);
    assert s[..n] == s[0..tag.next] + s[tag.next..n];
  }

  lemma UnknownAt(s: seq<Byte>, n: nat) returns (u: Wire)
    requires n <= |s| < TWO63 && SkipFrom(s, 0, 0) == Skip(n)
    ensures WellFormed(u) && Bytes(u) == s[..n] && ReadRaw(s, 0, MAX_BYTES) == Got(Value(u.tag), |u.tag|)
  {
    hide ReadRaw, SkipFrom, Value, Bytes, WellFormed;
    u := RecordAt(s, 0, n);
    assert s[0..n] == s[..n] && s == s[..n] + s[n..];
    TagRead(u, s[n..]);
  }

  /** What the parser takes is a fitting record. */
  lemma TakenRecord(m: SudoError, s: seq<Byte>, base: nat) returns (u: Wire)
    requires base + |s| < TWO63 && ParseRecord(m, s, base).Took?
    ensures var r := ParseRecord(m, s, base); WellFormed(u) && Fits(u) && Bytes(u) == s[..r.n] && r.m == Apply(m, u)
  {
    hide ReadRaw, Value, Spells, SkipFrom, Bytes, StringRecord, WellFormed, AsInt32;
    var tag := ReadRaw(s, 0, MAX_BYTES);
    LowBitsSurvive(tag.value);
    var field := AsInt32(tag.value % TWO64 / 8);
    if field in {1, 3, 4, 5} {
      u := TextAt(m, s, base);
    } else if field == 2 {
      u := NumberAt(s);
    } else {
      u := UnknownAt(s, ParseRecord(m, s, base).n);
    }
  }

  /** The input is a list of fitting records that turn `m` into `r`. */
  ghost predicate Means(m: SudoError, s: seq<Byte>, r: SudoError) {
    exists us: Wires :: AllWellFormed(us) && AllFit(us) && AllBytes(us) == s && ApplyAll(m, us) == r
  }

  lemma {:induction false} ParsesAll(m: SudoError, us: Wires, base: nat)
    requires AllWellFormed(us) && AllFit(us) && base + |AllBytes(us)| < TWO63
    ensures Parse(m, AllBytes(us), base) == Ok(ApplyAll(m, us))
    decreases us
  {
    hide ParseRecord, Bytes, WellFormed, Fits, Apply;
    if us.More? {
      var head, rest := Bytes(us.head), AllBytes(us.tail);
      TakesRecord(m, us.head, rest, base);
      assert (head + rest)[|head|..] == rest;
      ParsesAll(Apply(m, us.head), us.tail, base + |head|);
    }
  }

  lemma {:induction false} ParsedAll(m: SudoError, s: seq<Byte>, base: nat) returns (us: Wires)
    requires base + |s| < TWO63 && Parse(m, s, base).Ok?
    ensures AllWellFormed(us) && AllFit(us) && AllBytes(us) == s && ApplyAll(m, us) == Parse(m, s, base).m
    decreases |s|
  {
    hide ParseRecord, Bytes, WellFormed, Fits, Apply;
    if s == [] {
      us := Done;
    } else {
      var n := ParseRecord(m, s, base).n;
      var u := TakenRecord(m, s, base);
      var rest := ParsedAll(Apply(m, u), s[n..], base + n);
      us := More(u, rest);
      assert s == s[..n] + s[n..];
    }
  }

  /**
    Unmarshal against the wire grammar, both ways, on every input below 2^63 bytes: it
    turns `m` into `r` if and only if the input is a list of records, each with a positive
    field number and known fields in their wire types, that replace the fields of `m` one
    after the other and leave `r`. Every other input is refused.
   */
  lemma UnmarshalIsGrammar(m: SudoError, s: seq<Byte>, r: SudoError)
    requires |s| < TWO63
    ensures Parse(m, s, 0) == Ok(r) <==> Means(m, s, r)
  {
    hide Parse;
    if Parse(m, s, 0) == Ok(r) {
      var us := ParsedAll(m, s, 0);
    }
    if Means(m, s, r) {
      var us: Wires :| AllWellFormed(us) && AllFit(us) && AllBytes(us) == s && ApplyAll(m, us) == r;
      ParsesAll(m, us, 0);
    }
  }

  /** A record of the grammar with a field number above 5 can be put anywhere between records. */
  lemma UnknownFieldsIgnored(m: SudoError, a: seq<Byte>, u: Wire, b: seq<Byte>, base: nat)
    requires base + |a + Bytes(u) + b| < TWO63
    requires Parse(m, a, base).Ok? && WellFormed(u) && FieldNumber(u) > 5
    ensures Parse(m, a + Bytes(u) + b, base) == Parse(Parse(m, a, base).m, b, base + |a + Bytes(u)|)
  {
    hide ReadRaw, SkipFrom, Parse, Value, Spells;
    var s, tag := Bytes(u), u.tag;
    assert s + [] == s;
    RecordIsSkipped(u, []);
    assert s == [] + tag + s[|tag|..];
    ReadsVarint([], tag, s[|tag|..], MAX_BYTES);
    LowBitsSurvive(Value(tag));
    SkippedIgnored(m, a, s, b, base);
  }

  /** A string field of the message as a record: field `n`, wire type 2, left out when empty. */
  function Text(n: nat, s: Str, rest: Wires): (r: Wires)
    requires 1 <= n <= 5
  {
    if s == [] then rest else More(Delimited([8 * n + 2], Spell(|s|), s), rest)
  }

  /** The message in the terms of its proto definition: fields 1 to 5, an int32 as field 2. */
  function Message(m: SudoError): (r: Wires)
    requires IsInt32(m.errorCode)
  {
    var tail := Text(3, m.contractAddress, Text(4, m.inputPayload, Text(5, m.errorMessage, Done)));
    Text(1, m.moduleName,
         if m.errorCode == 0 then tail else More(Number([8 * 2 + 0], Spell(AsUint64(m.errorCode))), tail))
  }

  lemma TextIs(n: nat, s: Str, rest: Wires)
    requires 1 <= n <= 5 && |s| < TWO63 && AllWellFormed(rest)
    ensures AllWellFormed(Text(n, s, rest))
    ensures AllBytes(Text(n, s, rest)) == StringField(8 * n + 2, s) + AllBytes(rest)
  {
    hide Spell, Spells;
    if s != [] {
      Uint64Fits(|s|);
      SpellIsVarint(|s|, MAX_BYTES);
      OneByte(8 * n + 2);
      var tag: seq<Byte> := [8 * n + 2];
      assert tag + (Spell(|s|) + s) == tag + Spell(|s|) + s;
    }
  }

  lemma OneByte(b: Byte)
    requires b < 128
    ensures IsVarint([b]) && Value([b]) == b
  {
    assert [b][1..] == [];
  }

  /** The encoding is the message's fields, record by record, as its proto definition numbers them. */
  lemma EncodeIsMessage(m: SudoError)
    requires IsInt32(m.errorCode)
    requires |m.moduleName| < TWO63 && |m.contractAddress| < TWO63
    requires |m.inputPayload| < TWO63 && |m.errorMessage| < TWO63
    ensures AllWellFormed(Message(m)) && AllBytes(Message(m)) == Encode(m)
  {
    hide Text, StringField, Spell, Spells;
    var w5 := Text(5, m.errorMessage, Done);
    var w4 := Text(4, m.inputPayload, w5);
    var w3 := Text(3, m.contractAddress, w4);
    TextIs(5, m.errorMessage, Done);
    TextIs(4, m.inputPayload, w5);
    TextIs(3, m.contractAddress, w4);
    var code := AsUint64(m.errorCode);
    var w2 := if m.errorCode == 0 then w3 else More(Number([16], Spell(code)), w3);
    if m.errorCode != 0 {
      Uint64Fits(code);
      SpellIsVarint(code, MAX_BYTES);
      OneByte(16);
    }
    assert AllBytes(w2) == CodeField(m.errorCode) + AllBytes(w3);
    TextIs(1, m.moduleName, w2);
    JoinFields(m);
  }
}
