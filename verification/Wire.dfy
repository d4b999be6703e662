// Model usage recovered from unknown protobuf fields: the wire format, the two
// hand-written decoding loops, and their agreement with an encoder.
module Wire {
  import opened Common

  // ---- Consuming the wire format ------------------------------------------
  // Sections 'Base 128 Varints' and 'Message Structure' of the Protocol Buffers
  // Encoding guide. A Go slice of the input is the buffer b and an offset i; a
  // result carries the offset after what was read, and None stands for the
  // negative lengths that report an error.

  datatype Parsed<+T> = Parsed(value: T, next: nat)

  const MAX_VARINT := 10
  const MAX_DEPTH := 10000
  const MAX_NUMBER := 0x7FFF_FFFF

  const VARINT := 0
  const FIXED64 := 1
  const BYTES := 2
  const START_GROUP := 3
  const END_GROUP := 4
  const FIXED32 := 5

  /** A varint in at most k more bytes; the tenth byte may only add one bit. */
  function Varint(b: seq<Byte>, i: nat, k: nat): (r: Option<Parsed<nat>>)
    requires i <= |b|
    ensures r.Some? ==> i < r.value.next <= |b|
    decreases |b| - i
  {
    if i == |b| || k == 0 then None
    else if k == 1 && b[i] >= 2 then None
    else if b[i] < 128 then Some(Parsed(b[i], i + 1))
    else
      match Varint(b, i + 1, k - 1)
      case None => None
      case Some(p) => Some(Parsed(b[i] - 128 + 128 * p.value, p.next))
  }

  function ConsumeVarint(b: seq<Byte>, i: nat): (r: Option<Parsed<nat>>)
    requires i <= |b|
    ensures r.Some? ==> i < r.value.next <= |b|
  {
    Varint(b, i, MAX_VARINT)
  }

  datatype Tag = Tag(number: nat, wireType: nat)

  function ConsumeTag(b: seq<Byte>, i: nat): (r: Option<Parsed<Tag>>)
    requires i <= |b|
    ensures r.Some? ==> i < r.value.next <= |b|
  {
    match ConsumeVarint(b, i)
    case None => None
    case Some(p) =>
      var number := p.value / 8;
      if number < 1 || number > MAX_NUMBER then None else Some(Parsed(Tag(number, p.value % 8), p.next))
  }

  function ConsumeBytes(b: seq<Byte>, i: nat): (r: Option<Parsed<seq<Byte>>>)
    requires i <= |b|
    ensures r.Some? ==> i < r.value.next <= |b|
  {
    match ConsumeVarint(b, i)
    case None => None
    case Some(p) =>
      if p.value > |b| - p.next then None else Some(Parsed(b[p.next..p.next + p.value], p.next + p.value))
  }

  function NextOf<T>(p: Option<Parsed<T>>): Option<nat> {
    if p.Some? then Some(p.value.next) else None
  }

  function ConsumeScalar(wireType: nat, b: seq<Byte>, i: nat): (r: Option<nat>)
    requires i <= |b|
    ensures r.Some? ==> i <= r.value <= |b|
  {
    if wireType == VARINT then NextOf(ConsumeVarint(b, i))
    else if wireType == FIXED64 then if |b| - i < 8 then None else Some(i + 8)
    else if wireType == FIXED32 then if |b| - i < 4 then None else Some(i + 4)
    else if wireType == BYTES then NextOf(ConsumeBytes(b, i))
    else None
  }

  /** The offset after a field value of the given wire type. */
  function ConsumeValue(number: nat, wireType: nat, b: seq<Byte>, i: nat, depth: int): (r: Option<nat>)
    requires i <= |b|
    ensures r.Some? ==> i <= r.value <= |b|
    decreases |b| - i, 1
  {
    if wireType != START_GROUP then ConsumeScalar(wireType, b, i)
    else if depth >= 0 then ConsumeGroup(number, b, i, depth)
    else None
  }

  /** The offset after the rest of a group, its end tag included. */
  function ConsumeGroup(number: nat, b: seq<Byte>, i: nat, depth: int): (r: Option<nat>)
    requires i <= |b|
    ensures r.Some? ==> i <= r.value <= |b|
    decreases |b| - i, 0
  {
    match ConsumeTag(b, i)
    case None => None
    case Some(t) =>
      if t.value.wireType == END_GROUP then
        if t.value.number == number then Some(t.next) else None
      else
        match ConsumeValue(t.value.number, t.value.wireType, b, t.next, depth - 1)
        case None => None
        case Some(next) => ConsumeGroup(number, b, next, depth)
  }

  function ConsumeFieldValue(number: nat, wireType: nat, b: seq<Byte>, i: nat): (r: Option<nat>)
    requires i <= |b|
    ensures r.Some? ==> i <= r.value <= |b|
  {
    ConsumeValue(number, wireType, b, i, MAX_DEPTH)
  }

  // ---- The decoders --------------------------------------------------------

  datatype Usage = Usage(modelID: seq<Byte>, provider: seq<Byte>, model: seq<Byte>,
                         promptTokens: int, completionTokens: int, totalTokens: int, requestCount: int)

  const EMPTY := Usage([], [], [], 0, 0, 0, 0)

  /** Go's int32(v) of a uint64: the low 32 bits, read in two's complement. */
  function Int32(v: nat): (i: int)
    ensures -0x8000_0000 <= i < 0x8000_0000
  {
    var low := v % 0x1_0000_0000;
    if low < 0x8000_0000 then low else low - 0x1_0000_0000
  }

  function SetText(u: Usage, number: nat, text: seq<Byte>): Usage {
    if number == 1 then u.(modelID := text)
    else if number == 2 then u.(provider := text)
    else if number == 3 then u.(model := text)
    else u
  }

  function SetCount(u: Usage, number: nat, v: nat): Usage {
    if number == 4 then u.(promptTokens := Int32(v))
    else if number == 5 then u.(completionTokens := Int32(v))
    else if number == 6 then u.(totalTokens := Int32(v))
    else if number == 7 then u.(requestCount := Int32(v))
    else u
  }

  predicate IsText(t: Tag) {
    1 <= t.number <= 3 && t.wireType == BYTES
  }

  predicate IsCount(t: Tag) {
    4 <= t.number <= 7 && t.wireType == VARINT
  }

  predicate IsRecord(t: Tag) {
    t.number == 12 && t.wireType == BYTES
  }

  /** What reading the rest of b makes of a partly filled record u. */
  function Decode(b: seq<Byte>, i: nat, u: Usage): Usage
    requires i <= |b|
    decreases |b| - i
  {
    match ConsumeTag(b, i)
    case None => u
    case Some(t) =>
      if IsText(t.value) then
        match ConsumeBytes(b, t.next)
        case None => u
        case Some(p) => Decode(b, p.next, SetText(u, t.value.number, p.value))
      else if IsCount(t.value) then
        match ConsumeVarint(b, t.next)
        case None => u
        case Some(p) => Decode(b, p.next, SetCount(u, t.value.number, p.value))
      else
        match ConsumeFieldValue(t.value.number, t.value.wireType, b, t.next)
        case None => u
        case Some(next) => Decode(b, next, u)
  }

  method DecodeModelUsage(b: seq<Byte>) returns (result: Usage)
    ensures result == Decode(b, 0, EMPTY)
  {
    result := EMPTY;
    var i := 0;
    while i < |b|
      invariant i <= |b| && Decode(b, i, result) == Decode(b, 0, EMPTY)
      decreases |b| - i
    {
      var tag := ConsumeTag(b, i);
      if tag == None {
        return;
      }
      var t := tag.value.value;
      i := tag.value.next;
      if IsText(t) {
        var text := ConsumeBytes(b, i);
        if text == None {
          return;
        }
        result := SetText(result, t.number, text.value.value);
        i := text.value.next;
      } else if IsCount(t) {
        var count := ConsumeVarint(b, i);
        if count == None {
          return;
        }
        result := SetCount(result, t.number, count.value.value);
        i := count.value.next;
      } else {
        var next := ConsumeFieldValue(t.number, t.wireType, b, i);
        if next == None {
          return;
        }
        i := next.value;
      }
    }
  }

  /** The usage records among the unknown fields from offset i on. */
  function Records(b: seq<Byte>, i: nat): seq<Usage>
    requires i <= |b|
    decreases |b| - i
  {
    match ConsumeTag(b, i)
    case None => []
    case Some(t) =>
      if IsRecord(t.value) then
        match ConsumeBytes(b, t.next)
        case None => []
        case Some(p) => [Decode(p.value, 0, EMPTY)] + Records(b, p.next)
      else
        match ConsumeFieldValue(t.value.number, t.value.wireType, b, t.next)
        case None => []
        case Some(next) => Records(b, next)
  }

  method ModelUsageFromUnknown(b: seq<Byte>) returns (result: seq<Usage>)
    ensures result == Records(b, 0)
  {
    result := [];
    var i := 0;
    while i < |b|
      invariant i <= |b| && result + Records(b, i) == Records(b, 0)
      decreases |b| - i
    {
      var tag := ConsumeTag(b, i);
      if tag == None {
        return;
      }
      var t := tag.value.value;
      i := tag.value.next;
      if IsRecord(t) {
        var payload := ConsumeBytes(b, i);
        if payload == None {
          return;
        }
        var usage := DecodeModelUsage(payload.value.value);
        result := result + [usage];
        i := payload.value.next;
      } else {
        var next := ConsumeFieldValue(t.number, t.wireType, b, i);
        if next == None {
          return;
        }
        i := next.value;
      }
    }
  }

  // ---- The encoder -----------------------------------------------------------

  datatype Fields = Nil | Cons(head: Field, tail: Fields)
  datatype Field = Field(number: nat, value: Value)
  datatype Value =
    | VarintValue(v: nat)
    | Fixed64Value(b: seq<Byte>)
    | BytesValue(b: seq<Byte>)
    | GroupValue(fields: Fields)
    | Fixed32Value(b: seq<Byte>)

  function WireType(value: Value): nat {
    match value
    case VarintValue(_) => VARINT
    case Fixed64Value(_) => FIXED64
    case BytesValue(_) => BYTES
    case GroupValue(_) => START_GROUP
    case Fixed32Value(_) => FIXED32
  }

  function TagOf(f: Field): Tag {
    Tag(f.number, WireType(f.value))
  }

  /** A value whose groups nest at most depth + 1 levels deep. */
  ghost predicate WellFormedValue(value: Value, depth: int) {
    match value
    case VarintValue(v) => v < 0x1_0000_0000_0000_0000
    case Fixed64Value(b) => |b| == 8
    case BytesValue(b) => |b| < 0x1_0000_0000_0000_0000
    case GroupValue(fields) => depth >= 0 && WellFormedFields(fields, depth - 1)
    case Fixed32Value(b) => |b| == 4
  }

  ghost predicate WellFormedField(f: Field, depth: int) {
    1 <= f.number <= MAX_NUMBER && WellFormedValue(f.value, depth)
  }

  ghost predicate WellFormedFields(fields: Fields, depth: int) {
    match fields
    case Nil => true
    case Cons(f, rest) => WellFormedField(f, depth) && WellFormedFields(rest, depth)
  }

  function EncodeVarint(v: nat): (e: seq<Byte>)
    ensures |e| >= 1
  {
    if v < 128 then [v] else [v % 128 + 128] + EncodeVarint(v / 128)
  }

  function EncodeTag(t: Tag): (e: seq<Byte>)
    ensures |e| >= 1
  {
    EncodeVarint(t.number * 8 + t.wireType)
  }

  function EncodeValue(number: nat, value: Value): seq<Byte>
    decreases value
  {
    match value
    case VarintValue(v) => EncodeVarint(v)
    case Fixed64Value(b) => b
    case BytesValue(b) => EncodeVarint(|b|) + b
    case GroupValue(fields) => EncodeFields(fields) + EncodeTag(Tag(number, END_GROUP))
    case Fixed32Value(b) => b
  }

  function EncodeField(f: Field): seq<Byte>
    decreases f
  {
    EncodeTag(TagOf(f)) + EncodeValue(f.number, f.value)
  }

  function EncodeFields(fields: Fields): seq<Byte>
    decreases fields
  {
    match fields
    case Nil => []
    case Cons(f, rest) => EncodeField(f) + EncodeFields(rest)
  }

  // ---- Reading back what was encoded -------------------------------------------

  /** e lies in b at offset i. */
  /** The bytes of small fields: a tag byte of the number and the wire type, a length or a
      value in one byte, and the end tag of a group. */
  lemma FieldBytes(n: nat, v: nat, b: seq<Byte>, fields: Fields)
    requires 1 <= n <= 15 && v < 128 && |b| < 128
    ensures EncodeField(Field(n, VarintValue(v))) == [8 * n, v]
    ensures EncodeField(Field(n, Fixed64Value(b))) == [8 * n + 1] + b
    ensures EncodeField(Field(n, BytesValue(b))) == [8 * n + 2, |b|] + b
    ensures EncodeField(Field(n, GroupValue(fields))) == [8 * n + 3] + EncodeFields(fields) + [8 * n + 4]
    ensures EncodeField(Field(n, Fixed32Value(b))) == [8 * n + 5] + b
  {
    assert EncodeVarint(8 * n + 2) + (EncodeVarint(|b|) + b) == [8 * n + 2, |b|] + b;
    assert EncodeVarint(8 * n + 3) + (EncodeFields(fields) + EncodeVarint(8 * n + 4))
        == [8 * n + 3] + EncodeFields(fields) + [8 * n + 4];
  }

  /** A larger number is seven bits a byte, the low ones first, with the high bit on all but the last. */
  lemma TwoByteVarint(high: nat, low: nat)
    requires 1 <= high < 128 && low < 128
    ensures EncodeVarint(128 * high + low) == [low + 128, high]
  {
    assert (128 * high + low) / 128 == high && (128 * high + low) % 128 == low;
  }

  ghost predicate At(b: seq<Byte>, i: nat, e: seq<Byte>) {
    i + |e| <= |b| && forall k :: 0 <= k < |e| ==> b[i + k] == e[k]
  }

  lemma AtSplit(b: seq<Byte>, i: nat, e: seq<Byte>, e': seq<Byte>)
    requires At(b, i, e + e')
    ensures At(b, i, e) && At(b, i + |e|, e')
  {
    var w := e + e';
    forall k | 0 <= k < |e| ensures b[i + k] == e[k] { assert w[k] == e[k]; }
    forall k | 0 <= k < |e'| ensures b[i + |e| + k] == e'[k] { assert w[|e| + k] == e'[k]; }
  }

  /** What fits in k varint bytes when the tenth may hold a single bit. */
  function Room(k: nat): nat {
    if k == 0 then 0 else if k == 1 then 2 else 128 * Room(k - 1)
  }

  lemma {:induction false} VarintRoundTrip(v: nat, k: nat, b: seq<Byte>, i: nat)
    requires v < Room(k) && At(b, i, EncodeVarint(v))
    ensures Varint(b, i, k) == Some(Parsed(v, i + |EncodeVarint(v)|))
  {
    var e := EncodeVarint(v);
    assert b[i + 0] == e[0];
    if v >= 128 {
      AtSplit(b, i, [v % 128 + 128], EncodeVarint(v / 128));
      VarintRoundTrip(v / 128, k - 1, b, i + 1);
    }
  }

  lemma VarintConsumed(v: nat, b: seq<Byte>, i: nat)
    requires v < 0x1_0000_0000_0000_0000 && At(b, i, EncodeVarint(v))
    ensures ConsumeVarint(b, i) == Some(Parsed(v, i + |EncodeVarint(v)|))
  {
    assert Room(5) == 0x2000_0000;
    VarintRoundTrip(v, MAX_VARINT, b, i);
  }

  lemma TagConsumed(t: Tag, b: seq<Byte>, i: nat)
    requires 1 <= t.number <= MAX_NUMBER && t.wireType < 8 && At(b, i, EncodeTag(t))
    ensures ConsumeTag(b, i) == Some(Parsed(t, i + |EncodeTag(t)|))
  {
    VarintConsumed(t.number * 8 + t.wireType, b, i);
  }

  lemma BytesConsumed(e: seq<Byte>, b: seq<Byte>, i: nat)
    requires |e| < 0x1_0000_0000_0000_0000 && At(b, i, EncodeVarint(|e|) + e)
    ensures ConsumeBytes(b, i) == Some(Parsed(e, i + |EncodeVarint(|e|)| + |e|))
  {
    AtSplit(b, i, EncodeVarint(|e|), e);
    VarintConsumed(|e|, b, i);
    var j := i + |EncodeVarint(|e|)|;
    assert b[j..j + |e|] == e;
  }

  lemma {:induction false} ValueConsumed(number: nat, value: Value, b: seq<Byte>, i: nat, depth: int)
    requires 1 <= number <= MAX_NUMBER && WellFormedValue(value, depth) && At(b, i, EncodeValue(number, value))
    ensures ConsumeValue(number, WireType(value), b, i, depth) == Some(i + |EncodeValue(number, value)|)
    decreases value, 0
  {
    match value
    case VarintValue(v) => VarintConsumed(v, b, i);
    case Fixed64Value(_) =>
    case BytesValue(e) => BytesConsumed(e, b, i);
    case GroupValue(fields) => GroupConsumed(number, fields, b, i, depth);
    case Fixed32Value(_) =>
  }

  lemma {:induction false} GroupConsumed(number: nat, fields: Fields, b: seq<Byte>, i: nat, depth: int)
    requires 1 <= number <= MAX_NUMBER && WellFormedFields(fields, depth - 1)
    requires At(b, i, EncodeFields(fields) + EncodeTag(Tag(number, END_GROUP)))
    ensures ConsumeGroup(number, b, i, depth) == Some(i + |EncodeFields(fields)| + |EncodeTag(Tag(number, END_GROUP))|)
    decreases fields, 1
  {
    var j := i + |EncodeFields(fields)|;
    AtSplit(b, i, EncodeFields(fields), EncodeTag(Tag(number, END_GROUP)));
    assert SkipsTo(number, b, i, j, depth) by { GroupFields(number, fields, b, i, depth); }
    GroupEnd(number, b, j, depth);
  }

  lemma {:induction false} FieldConsumed(f: Field, b: seq<Byte>, i: nat, depth: int)
    requires WellFormedField(f, depth) && At(b, i, EncodeField(f))
    ensures ConsumeTag(b, i) == Some(Parsed(TagOf(f), i + |EncodeTag(TagOf(f))|))
    ensures ConsumeValue(f.number, WireType(f.value), b, i + |EncodeTag(TagOf(f))|, depth) == Some(i + |EncodeField(f)|)
    decreases f, 0
  {
    AtSplit(b, i, EncodeTag(TagOf(f)), EncodeValue(f.number, f.value));
    TagConsumed(TagOf(f), b, i);
    ValueConsumed(f.number, f.value, b, i + |EncodeTag(TagOf(f))|, depth);
  }

  lemma GroupStep(number: nat, b: seq<Byte>, i: nat, depth: int, t: Tag, j: nat, k: nat)
    requires i <= |b| && ConsumeTag(b, i) == Some(Parsed(t, j)) && t.wireType != END_GROUP
    requires ConsumeValue(t.number, t.wireType, b, j, depth - 1) == Some(k)
    ensures ConsumeGroup(number, b, i, depth) == ConsumeGroup(number, b, k, depth)
  {
  }

  lemma GroupEnd(number: nat, b: seq<Byte>, i: nat, depth: int)
    requires 1 <= number <= MAX_NUMBER && At(b, i, EncodeTag(Tag(number, END_GROUP)))
    ensures ConsumeGroup(number, b, i, depth) == Some(i + |EncodeTag(Tag(number, END_GROUP))|)
  {
    TagConsumed(Tag(number, END_GROUP), b, i);
  }

  lemma {:induction false} GroupField(number: nat, f: Field, b: seq<Byte>, i: nat, depth: int)
    requires WellFormedField(f, depth - 1) && At(b, i, EncodeField(f))
    ensures SkipsTo(number, b, i, i + |EncodeField(f)|, depth)
    decreases f, 1
  {
    FieldConsumed(f, b, i, depth - 1);
    GroupStep(number, b, i, depth, TagOf(f), i + |EncodeTag(TagOf(f))|, i + |EncodeField(f)|);
  }

  /** Reading on from i comes to the same as reading on from j. */
  ghost predicate SkipsTo(number: nat, b: seq<Byte>, i: nat, j: nat, depth: int) {
    i <= |b| && j <= |b| && ConsumeGroup(number, b, i, depth) == ConsumeGroup(number, b, j, depth)
  }

  lemma FirstOfFields(f: Field, rest: Fields, b: seq<Byte>, i: nat)
    requires At(b, i, EncodeFields(Cons(f, rest)))
    ensures At(b, i, EncodeField(f)) && At(b, i + |EncodeField(f)|, EncodeFields(rest))
    ensures |EncodeFields(Cons(f, rest))| == |EncodeField(f)| + |EncodeFields(rest)|
  {
    AtSplit(b, i, EncodeField(f), EncodeFields(rest));
  }

  lemma {:induction false} GroupFields(number: nat, fields: Fields, b: seq<Byte>, i: nat, depth: int)
    requires WellFormedFields(fields, depth - 1) && At(b, i, EncodeFields(fields))
    ensures SkipsTo(number, b, i, i + |EncodeFields(fields)|, depth)
    decreases fields, 0
  {
    if fields.Cons? {
      var j := i + |EncodeField(fields.head)|;
      FirstOfFields(fields.head, fields.tail, b, i);
      assert SkipsTo(number, b, i, j, depth) by { GroupField(number, fields.head, b, i, depth); }
      assert SkipsTo(number, b, j, j + |EncodeFields(fields.tail)|, depth) by {
        GroupFields(number, fields.tail, b, j, depth);
      }
    }
  }

  // ---- Round trip ----------------------------------------------------------------

  /** What one sub-field means for a usage record. */
  function ApplyField(f: Field, u: Usage): Usage {
    if 1 <= f.number <= 3 && f.value.BytesValue? then SetText(u, f.number, f.value.b)
    else if 4 <= f.number <= 7 && f.value.VarintValue? then SetCount(u, f.number, f.value.v)
    else u
  }

  function Apply(fields: Fields, u: Usage): Usage {
    match fields
    case Nil => u
    case Cons(f, rest) => Apply(rest, ApplyField(f, u))
  }

  /** The last text sent for a field number; Section 'Last One Wins' of the guide. */
  function LastText(fields: Fields, number: nat, before: seq<Byte>): seq<Byte> {
    match fields
    case Nil => before
    case Cons(f, rest) =>
      LastText(rest, number, if f.number == number && f.value.BytesValue? then f.value.b else before)
  }

  function LastCount(fields: Fields, number: nat, before: int): int {
    match fields
    case Nil => before
    case Cons(f, rest) =>
      LastCount(rest, number, if f.number == number && f.value.VarintValue? then Int32(f.value.v) else before)
  }

  /** The record a list of sub-fields stands for: per number, the last value sent. */
  function Meaning(fields: Fields): Usage {
    Usage(LastText(fields, 1, []), LastText(fields, 2, []), LastText(fields, 3, []),
          LastCount(fields, 4, 0), LastCount(fields, 5, 0), LastCount(fields, 6, 0), LastCount(fields, 7, 0))
  }

  lemma {:induction false} ApplyIsLast(fields: Fields, u: Usage)
    ensures Apply(fields, u)
         == Usage(LastText(fields, 1, u.modelID), LastText(fields, 2, u.provider), LastText(fields, 3, u.model),
                  LastCount(fields, 4, u.promptTokens), LastCount(fields, 5, u.completionTokens),
                  LastCount(fields, 6, u.totalTokens), LastCount(fields, 7, u.requestCount))
  {
    match fields
    case Nil =>
    case Cons(f, rest) => ApplyIsLast(rest, ApplyField(f, u));
  }

  /** The payload of a length-delimited field, read back. */
  lemma BytesFieldConsumed(f: Field, b: seq<Byte>, i: nat)
    requires WellFormedField(f, MAX_DEPTH) && f.value.BytesValue? && At(b, i, EncodeField(f))
    ensures ConsumeBytes(b, i + |EncodeTag(TagOf(f))|) == Some(Parsed(f.value.b, i + |EncodeField(f)|))
  {
    AtSplit(b, i, EncodeTag(TagOf(f)), EncodeValue(f.number, f.value));
    BytesConsumed(f.value.b, b, i + |EncodeTag(TagOf(f))|);
  }

  lemma VarintFieldConsumed(f: Field, b: seq<Byte>, i: nat)
    requires WellFormedField(f, MAX_DEPTH) && f.value.VarintValue? && At(b, i, EncodeField(f))
    ensures ConsumeVarint(b, i + |EncodeTag(TagOf(f))|) == Some(Parsed(f.value.v, i + |EncodeField(f)|))
  {
    AtSplit(b, i, EncodeTag(TagOf(f)), EncodeValue(f.number, f.value));
    VarintConsumed(f.value.v, b, i + |EncodeTag(TagOf(f))|);
  }

  lemma DecodeAtText(b: seq<Byte>, i: nat, t: Tag, j: nat, text: seq<Byte>, k: nat, u: Usage)
    requires i <= |b| && ConsumeTag(b, i) == Some(Parsed(t, j)) && IsText(t)
    requires ConsumeBytes(b, j) == Some(Parsed(text, k))
    ensures Decode(b, i, u) == Decode(b, k, SetText(u, t.number, text))
  {
  }

  lemma DecodeAtCount(b: seq<Byte>, i: nat, t: Tag, j: nat, v: nat, k: nat, u: Usage)
    requires i <= |b| && ConsumeTag(b, i) == Some(Parsed(t, j)) && IsCount(t)
    requires ConsumeVarint(b, j) == Some(Parsed(v, k))
    ensures Decode(b, i, u) == Decode(b, k, SetCount(u, t.number, v))
  {
  }

  lemma DecodeAtOther(b: seq<Byte>, i: nat, t: Tag, j: nat, k: nat, u: Usage)
    requires i <= |b| && ConsumeTag(b, i) == Some(Parsed(t, j)) && !IsText(t) && !IsCount(t)
    requires ConsumeFieldValue(t.number, t.wireType, b, j) == Some(k)
    ensures Decode(b, i, u) == Decode(b, k, u)
  {
  }

  lemma DecodeField(f: Field, b: seq<Byte>, i: nat, u: Usage)
    requires WellFormedField(f, MAX_DEPTH) && At(b, i, EncodeField(f))
    ensures Decode(b, i, u) == Decode(b, i + |EncodeField(f)|, ApplyField(f, u))
  {
    var j := i + |EncodeTag(TagOf(f))|;
    var k := i + |EncodeField(f)|;
    assert ConsumeTag(b, i) == Some(Parsed(TagOf(f), j)) by { FieldConsumed(f, b, i, MAX_DEPTH); }
    if IsText(TagOf(f)) {
      assert ConsumeBytes(b, j) == Some(Parsed(f.value.b, k)) by { BytesFieldConsumed(f, b, i); }
      DecodeAtText(b, i, TagOf(f), j, f.value.b, k, u);
    } else if IsCount(TagOf(f)) {
      assert ConsumeVarint(b, j) == Some(Parsed(f.value.v, k)) by { VarintFieldConsumed(f, b, i); }
      DecodeAtCount(b, i, TagOf(f), j, f.value.v, k, u);
    } else {
      FieldConsumed(f, b, i, MAX_DEPTH);
      DecodeAtOther(b, i, TagOf(f), j, k, u);
    }
  }

  lemma {:induction false} DecodeFields(fields: Fields, b: seq<Byte>, i: nat, u: Usage)
    requires WellFormedFields(fields, MAX_DEPTH) && At(b, i, EncodeFields(fields)) && i + |EncodeFields(fields)| == |b|
    ensures Decode(b, i, u) == Apply(fields, u)
  {
    match fields
    case Nil =>
    case Cons(f, rest) =>
      var j := i + |EncodeField(f)|;
      var u' := ApplyField(f, u);
      FirstOfFields(f, rest, b, i);
      assert Decode(b, i, u) == Decode(b, j, u') by { DecodeField(f, b, i, u); }
      assert Decode(b, j, u') == Apply(rest, u') by { DecodeFields(rest, b, j, u'); }
  }

  /** decodeModelUsage returns what its sub-fields mean, whatever their order and company. */
  lemma DecodeMeaning(fields: Fields)
    requires WellFormedFields(fields, MAX_DEPTH)
    ensures Decode(EncodeFields(fields), 0, EMPTY) == Meaning(fields)
  {
    DecodeFields(fields, EncodeFields(fields), 0, EMPTY);
    ApplyIsLast(fields, EMPTY);
  }

  /** An unknown field of the message: a usage record, or anything else. */
  datatype Item = Record(sub: Fields) | Other(f: Field)

  function ItemField(item: Item): Field {
    match item
    case Record(sub) => Field(12, BytesValue(EncodeFields(sub)))
    case Other(f) => f
  }

  datatype Items = End | More(item: Item, rest: Items)

  function ItemFields(items: Items): Fields {
    match items
    case End => Nil
    case More(item, rest) => Cons(ItemField(item), ItemFields(rest))
  }

  function Meanings(items: Items): seq<Usage> {
    match items
    case End => []
    case More(item, rest) => ItemMeaning(item) + Meanings(rest)
  }

  ghost predicate WellFormedItem(item: Item) {
    WellFormedField(ItemField(item), MAX_DEPTH)
    && (item.Record? ==> WellFormedFields(item.sub, MAX_DEPTH))
    && (item.Other? ==> !IsRecord(TagOf(item.f)))
  }

  ghost predicate WellFormedItems(items: Items) {
    items.More? ==> WellFormedItem(items.item) && WellFormedItems(items.rest)
  }

  lemma RecordsAtRecord(b: seq<Byte>, i: nat, t: Tag, j: nat, payload: seq<Byte>, k: nat)
    requires i <= |b| && ConsumeTag(b, i) == Some(Parsed(t, j)) && IsRecord(t)
    requires ConsumeBytes(b, j) == Some(Parsed(payload, k))
    ensures Records(b, i) == [Decode(payload, 0, EMPTY)] + Records(b, k)
  {
  }

  lemma RecordsAtOther(b: seq<Byte>, i: nat, t: Tag, j: nat, k: nat)
    requires i <= |b| && ConsumeTag(b, i) == Some(Parsed(t, j)) && !IsRecord(t)
    requires ConsumeFieldValue(t.number, t.wireType, b, j) == Some(k)
    ensures Records(b, i) == Records(b, k)
  {
  }

  lemma RecordItem(sub: Fields, b: seq<Byte>, i: nat)
    requires WellFormedItem(Record(sub)) && At(b, i, EncodeField(ItemField(Record(sub))))
    ensures Records(b, i) == [Meaning(sub)] + Records(b, i + |EncodeField(ItemField(Record(sub)))|)
  {
    var f := ItemField(Record(sub));
    var j := i + |EncodeTag(TagOf(f))|;
    assert ConsumeTag(b, i) == Some(Parsed(TagOf(f), j)) by { FieldConsumed(f, b, i, MAX_DEPTH); }
    assert ConsumeBytes(b, j) == Some(Parsed(f.value.b, i + |EncodeField(f)|)) by { BytesFieldConsumed(f, b, i); }
    RecordsAtRecord(b, i, TagOf(f), j, f.value.b, i + |EncodeField(f)|);
    assert Decode(EncodeFields(sub), 0, EMPTY) == Meaning(sub) by { DecodeMeaning(sub); }
  }

  lemma OtherItem(f: Field, b: seq<Byte>, i: nat)
    requires WellFormedField(f, MAX_DEPTH) && !IsRecord(TagOf(f)) && At(b, i, EncodeField(f))
    ensures Records(b, i) == Records(b, i + |EncodeField(f)|)
  {
    var j := i + |EncodeTag(TagOf(f))|;
    FieldConsumed(f, b, i, MAX_DEPTH);
    RecordsAtOther(b, i, TagOf(f), j, i + |EncodeField(f)|);
  }

  /** What one unknown field adds to the result. */
  function ItemMeaning(item: Item): seq<Usage> {
    match item
    case Record(sub) => [Meaning(sub)]
    case Other(_) => []
  }

  lemma ItemStep(item: Item, b: seq<Byte>, i: nat)
    requires WellFormedItem(item) && At(b, i, EncodeField(ItemField(item)))
    ensures Records(b, i) == ItemMeaning(item) + Records(b, i + |EncodeField(ItemField(item))|)
  {
    match item
    case Record(sub) => RecordItem(sub, b, i);
    case Other(f) => OtherItem(f, b, i);
  }

  lemma {:induction false} RecordItems(items: Items, b: seq<Byte>, i: nat)
    requires WellFormedItems(items)
    requires At(b, i, EncodeFields(ItemFields(items))) && i + |EncodeFields(ItemFields(items))| == |b|
    ensures Records(b, i) == Meanings(items)
  {
    if items.More? {
      var j := i + |EncodeField(ItemField(items.item))|;
      FirstOfFields(ItemField(items.item), ItemFields(items.rest), b, i);
      assert Records(b, i) == ItemMeaning(items.item) + Records(b, j) by { ItemStep(items.item, b, i); }
      assert Records(b, j) == Meanings(items.rest) by { RecordItems(items.rest, b, j); }
    }
  }

  /** modelUsageFromUnknown returns exactly the records that were encoded, in order. */
  lemma RoundTrip(items: Items)
    requires WellFormedItems(items)
    ensures Records(EncodeFields(ItemFields(items)), 0) == Meanings(items)
  {
    RecordItems(items, EncodeFields(ItemFields(items)), 0);
  }

  // ---- Sub-fields in any order ------------------------------------------------------

  /** An int32 on the wire: sign-extended to 64 bits. */
  function Uint64(c: int): nat
    requires -0x8000_0000 <= c < 0x8000_0000
  {
    if c >= 0 then c else c + 0x1_0000_0000_0000_0000
  }

  function Pow128(k: nat): nat {
    if k == 0 then 1 else 128 * Pow128(k - 1)
  }

  lemma {:induction false} VarintLength(v: nat, k: nat)
    requires k >= 2 && Pow128(k - 1) <= v < Pow128(k)
    ensures |EncodeVarint(v)| == k
  {
    if k > 2 {
      VarintLength(v / 128, k - 1);
    }
  }

  /** Negative counters travel as ten-byte varints and come back unchanged. */
  lemma SignedCounter(c: int)
    requires -0x8000_0000 <= c < 0x8000_0000
    ensures Int32(Uint64(c)) == c
    ensures c < 0 ==> |EncodeVarint(Uint64(c))| == 10
  {
    if c < 0 {
      assert Pow128(9) == 0x8000_0000_0000_0000;
      VarintLength(Uint64(c), 10);
    }
  }

  /** Some sub-field sets the text, and all that set it agree on it. */
  ghost predicate SetsText(fields: Fields, number: nat, text: seq<Byte>) {
    match fields
    case Nil => false
    case Cons(f, rest) =>
      if f.number == number && f.value.BytesValue? then f.value.b == text && (NoText(rest, number) || SetsText(rest, number, text))
      else SetsText(rest, number, text)
  }

  ghost predicate NoText(fields: Fields, number: nat) {
    match fields
    case Nil => true
    case Cons(f, rest) => !(f.number == number && f.value.BytesValue?) && NoText(rest, number)
  }

  ghost predicate SetsCount(fields: Fields, number: nat, c: int) {
    match fields
    case Nil => false
    case Cons(f, rest) =>
      if f.number == number && f.value.VarintValue? then Int32(f.value.v) == c && (NoCount(rest, number) || SetsCount(rest, number, c))
      else SetsCount(rest, number, c)
  }

  ghost predicate NoCount(fields: Fields, number: nat) {
    match fields
    case Nil => true
    case Cons(f, rest) => !(f.number == number && f.value.VarintValue?) && NoCount(rest, number)
  }

  lemma {:induction false} LastTextSet(fields: Fields, number: nat, text: seq<Byte>, before: seq<Byte>)
    ensures NoText(fields, number) ==> LastText(fields, number, before) == before
    ensures SetsText(fields, number, text) ==> LastText(fields, number, before) == text
  {
    match fields
    case Nil =>
    case Cons(f, rest) =>
      LastTextSet(rest, number, text, if f.number == number && f.value.BytesValue? then f.value.b else before);
  }

  lemma {:induction false} LastCountSet(fields: Fields, number: nat, c: int, before: int)
    ensures NoCount(fields, number) ==> LastCount(fields, number, before) == before
    ensures SetsCount(fields, number, c) ==> LastCount(fields, number, before) == c
  {
    match fields
    case Nil =>
    case Cons(f, rest) =>
      LastCountSet(rest, number, c, if f.number == number && f.value.VarintValue? then Int32(f.value.v) else before);
  }

  /** Any arrangement of the seven sub-fields of u, with anything in between, means u. */
  lemma AnyOrder(fields: Fields, u: Usage)
    requires SetsText(fields, 1, u.modelID) && SetsText(fields, 2, u.provider) && SetsText(fields, 3, u.model)
    requires SetsCount(fields, 4, u.promptTokens) && SetsCount(fields, 5, u.completionTokens)
    requires SetsCount(fields, 6, u.totalTokens) && SetsCount(fields, 7, u.requestCount)
    ensures Meaning(fields) == u
  {
    LastTextSet(fields, 1, u.modelID, []);
    LastTextSet(fields, 2, u.provider, []);
    LastTextSet(fields, 3, u.model, []);
    LastCountSet(fields, 4, u.promptTokens, 0);
    LastCountSet(fields, 5, u.completionTokens, 0);
    LastCountSet(fields, 6, u.totalTokens, 0);
    LastCountSet(fields, 7, u.requestCount, 0);
  }

  // ---- Arbitrary bytes ---------------------------------------------------------------

  /** The offset after a complete field, if one starts at i. */
  function FieldEnd(b: seq<Byte>, i: nat): (r: Option<nat>)
    requires i <= |b|
    ensures r.Some? ==> i < r.value <= |b|
  {
    match ConsumeTag(b, i)
    case None => None
    case Some(t) => ConsumeFieldValue(t.value.number, t.value.wireType, b, t.next)
  }

  /** From i to its end, b is a sequence of complete fields. */
  predicate AllFields(b: seq<Byte>, i: nat)
    requires i <= |b|
    decreases |b| - i
  {
    i == |b| || (FieldEnd(b, i).Some? && AllFields(b, FieldEnd(b, i).value))
  }

  /** Where the complete fields that start at i run out. */
  function FieldsEnd(b: seq<Byte>, i: nat): (k: nat)
    requires i <= |b|
    ensures i <= k <= |b|
    decreases |b| - i
  {
    if FieldEnd(b, i).Some? then FieldsEnd(b, FieldEnd(b, i).value) else i
  }

  ghost predicate Agree(b: seq<Byte>, c: seq<Byte>, k: nat) {
    k <= |b| && k <= |c| && b[..k] == c[..k]
  }

  // What was read from the first k bytes is read the same from any input that
  // starts with them.

  lemma {:induction false} SameVarint(b: seq<Byte>, c: seq<Byte>, k: nat, i: nat, n: nat)
    requires Agree(b, c, k) && i <= k && Varint(b, i, n).Some? && Varint(b, i, n).value.next <= k
    ensures Varint(c, i, n) == Varint(b, i, n)
    decreases n
  {
    assert b[i] == b[..k][i] == c[i];
    if b[i] >= 128 && n > 1 {
      SameVarint(b, c, k, i + 1, n - 1);
    }
  }

  lemma SameTag(b: seq<Byte>, c: seq<Byte>, k: nat, i: nat)
    requires Agree(b, c, k) && i <= k && ConsumeTag(b, i).Some? && ConsumeTag(b, i).value.next <= k
    ensures ConsumeTag(c, i) == ConsumeTag(b, i)
  {
    SameVarint(b, c, k, i, MAX_VARINT);
  }

  lemma SameBytes(b: seq<Byte>, c: seq<Byte>, k: nat, i: nat)
    requires Agree(b, c, k) && i <= k && ConsumeBytes(b, i).Some? && ConsumeBytes(b, i).value.next <= k
    ensures ConsumeBytes(c, i) == ConsumeBytes(b, i)
  {
    SameVarint(b, c, k, i, MAX_VARINT);
    var p := ConsumeVarint(b, i).value;
    var next := ConsumeBytes(b, i).value.next;
    assert b[p.next..next] == b[..k][p.next..next] == c[p.next..next];
  }

  lemma SameScalar(wireType: nat, b: seq<Byte>, c: seq<Byte>, k: nat, i: nat)
    requires Agree(b, c, k) && i <= k && ConsumeScalar(wireType, b, i).Some? && ConsumeScalar(wireType, b, i).value <= k
    ensures ConsumeScalar(wireType, c, i) == ConsumeScalar(wireType, b, i)
  {
    if wireType == VARINT {
      SameVarint(b, c, k, i, MAX_VARINT);
    } else if wireType == BYTES {
      SameBytes(b, c, k, i);
    }
  }

  lemma {:induction false} SameValue(number: nat, wireType: nat, b: seq<Byte>, c: seq<Byte>, k: nat, i: nat, depth: int)
    requires Agree(b, c, k) && i <= k
    requires ConsumeValue(number, wireType, b, i, depth).Some? && ConsumeValue(number, wireType, b, i, depth).value <= k
    ensures ConsumeValue(number, wireType, c, i, depth) == ConsumeValue(number, wireType, b, i, depth)
    decreases |b| - i, 1
  {
    if wireType != START_GROUP {
      SameScalar(wireType, b, c, k, i);
    } else {
      SameGroup(number, b, c, k, i, depth);
    }
  }

  lemma {:induction false} SameGroup(number: nat, b: seq<Byte>, c: seq<Byte>, k: nat, i: nat, depth: int)
    requires Agree(b, c, k) && i <= k
    requires ConsumeGroup(number, b, i, depth).Some? && ConsumeGroup(number, b, i, depth).value <= k
    ensures ConsumeGroup(number, c, i, depth) == ConsumeGroup(number, b, i, depth)
    decreases |b| - i, 0
  {
    SameTag(b, c, k, i);
    var t := ConsumeTag(b, i).value;
    if t.value.wireType != END_GROUP {
      SameValue(t.value.number, t.value.wireType, b, c, k, t.next, depth - 1);
      var next := ConsumeValue(t.value.number, t.value.wireType, b, t.next, depth - 1).value;
      SameGroup(number, b, c, k, next, depth);
    }
  }

  lemma SameField(b: seq<Byte>, c: seq<Byte>, k: nat, i: nat)
    requires Agree(b, c, k) && i <= k && FieldEnd(b, i).Some? && FieldEnd(b, i).value <= k
    ensures ConsumeTag(c, i) == ConsumeTag(b, i) && FieldEnd(c, i) == FieldEnd(b, i)
  {
    SameTag(b, c, k, i);
    var t := ConsumeTag(b, i).value;
    SameValue(t.value.number, t.value.wireType, b, c, k, t.next, MAX_DEPTH);
  }

  lemma {:induction false} PrefixSplits(b: seq<Byte>, i: nat)
    requires i <= |b|
    ensures var k := FieldsEnd(b, i); AllFields(b[..k], i) && Records(b[..k], i) == Records(b, i)
    decreases |b| - i
  {
    var k := FieldsEnd(b, i);
    var c := b[..k];
    if FieldEnd(b, i).Some? {
      PrefixSplits(b, FieldEnd(b, i).value);
      SameField(b, c, k, i);
      SameRecord(b, c, k, i);
    } else {
      NoRecord(b, i);
    }
  }

  lemma SameRecord(b: seq<Byte>, c: seq<Byte>, k: nat, i: nat)
    requires Agree(b, c, k) && i <= k && FieldEnd(b, i).Some? && FieldEnd(b, i).value <= k
    requires FieldEnd(c, i) == FieldEnd(b, i) && ConsumeTag(c, i) == ConsumeTag(b, i)
    requires Records(c, FieldEnd(b, i).value) == Records(b, FieldEnd(b, i).value)
    ensures Records(c, i) == Records(b, i)
  {
    var t := ConsumeTag(b, i).value;
    if IsRecord(t.value) {
      SameBytes(b, c, k, t.next);
    }
  }

  lemma NoRecord(b: seq<Byte>, i: nat)
    requires i <= |b| && FieldEnd(b, i).None?
    ensures Records(b, i) == []
  {
  }

  lemma {:induction false} NoLongerPrefix(b: seq<Byte>, k: nat, i: nat)
    requires i <= k <= |b| && AllFields(b[..k], i)
    ensures k <= FieldsEnd(b, i)
    decreases k - i
  {
    if i < k {
      SameField(b[..k], b, k, i);
      NoLongerPrefix(b, k, FieldEnd(b, i).value);
    }
  }

  /** On any bytes, the result is the records of the longest prefix made of complete fields. */
  lemma LongestPrefix(b: seq<Byte>)
    ensures var k := FieldsEnd(b, 0);
            && AllFields(b[..k], 0)
            && (forall k' :: k < k' <= |b| ==> !AllFields(b[..k'], 0))
            && Records(b, 0) == Records(b[..k], 0)
  {
    var k := FieldsEnd(b, 0);
    PrefixSplits(b, 0);
    forall k' | k < k' <= |b|
      ensures !AllFields(b[..k'], 0)
    {
      if AllFields(b[..k'], 0) {
        NoLongerPrefix(b, k', 0);
      }
    }
  }
}
