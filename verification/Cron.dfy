// Five-field cron expressions: splitting, numbers, stepped ranges, and matching a time.
module Cron {
  import opened Common
  import opened Strings

  // ---- Splitting -------------------------------------------------------------------------

  /** strings.Split at a single character. */
  function Split(s: string, sep: char): (r: seq<string>)
    ensures r != []
  {
    if s == "" then [""]
    else
      var rest := Split(s[1..], sep);
      if s[0] == sep then [""] + rest else [[s[0]] + rest[0]] + rest[1..]
  }

  function JoinWith(parts: seq<string>, sep: char): string {
    if parts == [] then ""
    else if |parts| == 1 then parts[0]
    else parts[0] + [sep] + JoinWith(parts[1..], sep)
  }

  /** The pieces put together again give the text, and none contains the separator. */
  lemma {:induction false} SplitJoins(s: string, sep: char)
    ensures JoinWith(Split(s, sep), sep) == s
    ensures forall k :: 0 <= k < |Split(s, sep)| ==> sep !in Split(s, sep)[k]
  {
    if s != "" {
      SplitJoins(s[1..], sep);
      var rest := Split(s[1..], sep);
      var all := Split(s, sep);
      assert s == [s[0]] + s[1..];
      if s[0] == sep {
        assert all[1..] == rest && all[0] == "";
      } else {
        assert all[1..] == rest[1..];
      }
    }
  }

  /** The end of the word that s begins with. */
  function WordEnd(s: string): (n: nat)
    ensures n <= |s|
    ensures forall k :: 0 <= k < n ==> !IsSpace(s[k])
    ensures n < |s| ==> IsSpace(s[n])
  {
    if s == "" || IsSpace(s[0]) then 0 else 1 + WordEnd(s[1..])
  }

  /** strings.Fields: the words between white space. */
  function Words(s: string): (r: seq<string>)
    ensures forall k :: 0 <= k < |r| ==> r[k] != "" && forall i :: 0 <= i < |r[k]| ==> !IsSpace(r[k][i])
  {
    if s == "" then []
    else if IsSpace(s[0]) then Words(s[1..])
    else [s[..WordEnd(s)]] + Words(s[WordEnd(s)..])
  }

  // ---- Numbers ---------------------------------------------------------------------------

  const MAX_INT := 0x7FFF_FFFF_FFFF_FFFF

  predicate IsDigit(c: char) {
    '0' <= c <= '9'
  }

  function Magnitude(s: string): Option<nat> {
    if s == "" then Some(0)
    else
      var n := |s| - 1;
      var high := Magnitude(s[..n]);
      if high.None? || !IsDigit(s[n]) then None else Some(high.value * 10 + (s[n] as int - '0' as int))
  }

  /** strconv.Atoi on a 64-bit platform. */
  function Atoi(s: string): Option<int> {
    var digits := if s != "" && (s[0] == '-' || s[0] == '+') then s[1..] else s;
    if digits == "" then None
    else match Magnitude(digits)
      case None => None
      case Some(n) =>
        var negative := -(n as int);
        if s[0] == '-' then (if n <= MAX_INT + 1 then Some(negative) else None)
        else if n <= MAX_INT then Some(n) else None
  }

  function Decimal(n: nat): (s: string)
    ensures s != "" && IsDigit(s[0])
  {
    var digit := ['0' + (n % 10) as char];
    if n < 10 then digit else Decimal(n / 10) + digit
  }

  lemma {:induction false} MagnitudeOfDecimal(n: nat)
    ensures Magnitude(Decimal(n)) == Some(n)
  {
    var d := '0' + (n % 10) as char;
    if n < 10 {
      assert [d][..0] == "";
    } else {
      MagnitudeOfDecimal(n / 10);
      assert (Decimal(n / 10) + [d])[..|Decimal(n / 10)|] == Decimal(n / 10);
    }
  }

  /** Every number that fits is read back from its decimal digits. */
  lemma AtoiReadsDecimal(n: nat)
    requires n <= MAX_INT
    ensures var negative := -(n as int);
            Atoi(Decimal(n)) == Some(n) && Atoi("-" + Decimal(n)) == Some(negative)
  {
    MagnitudeOfDecimal(n);
    assert ("-" + Decimal(n))[1..] == Decimal(n);
  }

  // ---- Tokens ----------------------------------------------------------------------------

  datatype Range = Range(start: int, end: int, step: int)

  /** One token of a field: *, n or a-b, each with an optional /step. */
  function ParseToken(token: string, min: int, max: int): Option<Range> {
    var pieces := Split(token, '/');
    if |pieces| > 2 then None
    else if |pieces| == 2 && (Atoi(pieces[1]) == None || Atoi(pieces[1]).value <= 0) then None
    else
      var step := if |pieces| == 2 then Atoi(pieces[1]).value else 1;
      match ParseBase(pieces[0], min, max)
      case None => None
      case Some((start, end)) =>
        if start < min || end > max || start > end then None else Some(Range(start, end, step))
  }

  function ParseBase(base: string, min: int, max: int): Option<(int, int)> {
    if base == "*" then Some((min, max))
    else if '-' in base then
      var bounds := Split(base, '-');
      if |bounds| != 2 then None
      else match (Atoi(bounds[0]), Atoi(bounds[1]))
        case (Some(start), Some(end)) => Some((start, end))
        case _ => None
    else match Atoi(base)
      case Some(value) => Some((value, value))
      case None => None
  }

  /** The values of a range from its start in steps. */
  predicate InRange(r: Range, v: int) {
    r.step > 0 && r.start <= v <= r.end && (v - r.start) % r.step == 0
  }

  // ---- The loop over a range -------------------------------------------------------------

  const WORD := 0x1_0000_0000_0000_0000

  /** Addition of 64-bit integers. */
  function Add64(a: int, b: int): int {
    if a + b > MAX_INT then a + b - WORD else if a + b < -MAX_INT - 1 then a + b + WORD else a + b
  }

  /** The loop variable after k turns. */
  function Value(r: Range, k: nat): int {
    if k == 0 then r.start else Add64(Value(r, k - 1), r.step)
  }

  predicate ReachedAt(r: Range, k: nat, v: int) {
    v == Value(r, k) && forall j :: 0 <= j <= k ==> Value(r, j) <= r.end
  }

  /** The values that the loop puts into the set; the addition may have wrapped around. */
  ghost predicate Reached(r: Range, v: int) {
    exists k: nat :: ReachedAt(r, k, v)
  }

  /** What fields have: bounds far below the largest integer. */
  predicate Bounded(r: Range) {
    0 <= r.start <= r.end < MAX_INT / 4 && 0 < r.step <= MAX_INT
  }

  /** Where the loop can be: at a value near the bounds, deep below after a wrap, or past the end. */
  predicate Plausible(r: Range, value: int) {
    var q := MAX_INT - r.step;
    if q >= r.end then value >= r.start
    else value > r.end || -q - 1 <= value || -MAX_INT - 1 <= value <= r.end - q - 1 - (MAX_INT + 1)
  }

  /** What every turn of the loop lowers, wrapping or not. */
  function Turns(r: Range, value: int): int {
    var q := MAX_INT - r.step;
    if value > r.end then 0
    else if q >= r.end then r.end - value + 1
    else if -q - 1 <= value then 2 * (value + q + 2)
    else 2 * (value + 2 * q + 3 + MAX_INT + 1) - 1
  }

  lemma OneTurn(r: Range, value: int)
    requires Bounded(r) && Plausible(r, value) && value <= r.end
    ensures Plausible(r, Add64(value, r.step)) && 0 <= Turns(r, Add64(value, r.step)) < Turns(r, value)
  {
  }

  method AddRange(allowed: set<int>, r: Range) returns (out: set<int>)
    requires Bounded(r)
    ensures forall v :: v in out <==> v in allowed || Reached(r, v)
  {
    out := allowed;
    var value := r.start;
    ghost var k: nat := 0;
    while value <= r.end
      invariant value == Value(r, k) && Plausible(r, value)
      invariant forall j :: 0 <= j < k ==> Value(r, j) <= r.end
      invariant forall v :: v in out <==> v in allowed || ReachedWithin(r, k, v)
      decreases Turns(r, value)
    {
      OneTurn(r, value);
      forall v ensures ReachedWithin(r, k + 1, v) <==> ReachedWithin(r, k, v) || v == value {
        ReachedNext(r, k, v);
      }
      out := out + {value};
      value := Add64(value, r.step);
      k := k + 1;
    }
    forall v ensures Reached(r, v) <==> ReachedWithin(r, k, v) {
      ReachedBefore(r, k, v);
    }
  }

  ghost predicate ReachedWithin(r: Range, k: nat, v: int) {
    exists j: nat :: j < k && ReachedAt(r, j, v)
  }

  lemma ReachedNext(r: Range, k: nat, v: int)
    requires forall j :: 0 <= j <= k ==> Value(r, j) <= r.end
    ensures ReachedWithin(r, k + 1, v) <==> ReachedWithin(r, k, v) || v == Value(r, k)
  {
    assert ReachedAt(r, k, Value(r, k));
  }

  lemma ReachedBefore(r: Range, k: nat, v: int)
    requires Value(r, k) > r.end
    ensures Reached(r, v) <==> ReachedWithin(r, k, v)
  {
    if Reached(r, v) {
      var j: nat :| ReachedAt(r, j, v);
      assert j < k;
    }
  }

  // ---- When the loop yields the stepped range --------------------------------------------

  /** The addition after the last value of the range goes past the largest integer. */
  predicate Overflows(r: Range)
    requires r.step > 0
  {
    r.start + ((r.end - r.start) / r.step) * r.step + r.step > MAX_INT
  }

  lemma QuotientIs(a: int, n: int, q: int, d: int)
    requires n > 0 && a == q * n + d && 0 <= d < n
    ensures a / n == q && a % n == d
  {
    var k := a / n - q;
    assert a == (a / n) * n + a % n;
    assert k * n == d - a % n;
    assert (k >= 1 ==> k * n >= n) && (k <= -1 ==> k * n <= -n);
  }

  /** The last of the stepped values is the greatest multiple below the end. */
  lemma LastStep(r: Range, k: nat)
    requires Bounded(r) && r.start + k * r.step <= r.end
    ensures k <= (r.end - r.start) / r.step
    ensures r.start + k * r.step <= r.start + ((r.end - r.start) / r.step) * r.step <= r.end
  {
    var n := (r.end - r.start) / r.step;
    assert r.end - r.start == n * r.step + (r.end - r.start) % r.step;
    assert k > n ==> k * r.step >= (n + 1) * r.step;
    assert (n + 1) * r.step == n * r.step + r.step;
    assert k <= n ==> k * r.step <= n * r.step;
  }

  /** It overflows exactly when the very first addition does. */
  lemma OverflowsAtOnce(r: Range)
    requires Bounded(r)
    ensures Overflows(r) <==> r.start + r.step > MAX_INT
  {
    LastStep(r, 0);
    var n := (r.end - r.start) / r.step;
    if n >= 1 {
      assert n * r.step >= r.step;
    }
  }

  /** Without overflow the k-th value is k steps from the start. */
  lemma {:induction false} StraightValue(r: Range, k: nat)
    requires Bounded(r) && !Overflows(r) && forall j :: 0 <= j < k ==> Value(r, j) <= r.end
    ensures Value(r, k) == r.start + k * r.step
  {
    if k > 0 {
      StraightValue(r, k - 1);
      LastStep(r, k - 1);
      assert (k - 1) * r.step + r.step == k * r.step;
      assert (k - 1) * r.step >= 0;
    }
  }

  lemma {:induction false} StraightReached(r: Range, k: nat)
    requires Bounded(r) && !Overflows(r) && r.start + k * r.step <= r.end
    ensures ReachedAt(r, k, r.start + k * r.step)
  {
    if k > 0 {
      assert (k - 1) * r.step + r.step == k * r.step;
      StraightReached(r, k - 1);
    }
    StraightValue(r, k);
  }

  lemma SteppedIsMultiple(r: Range, v: int)
    requires Bounded(r)
    ensures InRange(r, v) <==> r.start <= v <= r.end && v == r.start + ((v - r.start) / r.step) * r.step
  {
    var d := v - r.start;
    assert d == (d / r.step) * r.step + d % r.step;
  }

  /** Without overflow the loop yields the stepped range. */
  lemma ReachedIsStepped(r: Range, v: int)
    requires Bounded(r) && !Overflows(r)
    ensures Reached(r, v) <==> InRange(r, v)
  {
    SteppedIsMultiple(r, v);
    if Reached(r, v) {
      var k: nat :| ReachedAt(r, k, v);
      StraightValue(r, k);
      assert k * r.step >= 0;
      QuotientIs(v - r.start, r.step, k, 0);
    }
    if InRange(r, v) {
      var k := (v - r.start) / r.step;
      StraightReached(r, k);
    }
  }

  /** With overflow it yields a negative value as well. */
  lemma OverflowGoesNegative(r: Range)
    requires Bounded(r) && r.start + r.step > MAX_INT
    ensures Reached(r, Value(r, 1)) && Value(r, 1) < 0
  {
    assert Value(r, 0) == r.start && Value(r, 1) == r.start + r.step - WORD;
    assert ReachedAt(r, 1, Value(r, 1));
  }

  // ---- Fields ------------------------------------------------------------------------------

  predicate FieldBounds(min: int, max: int) {
    0 <= min <= max < MAX_INT / 4
  }

  ghost predicate TokenAllows(token: string, min: int, max: int, v: int) {
    ParseToken(token, min, max).Some? && Reached(ParseToken(token, min, max).value, v)
  }

  predicate AllParse(tokens: seq<string>, min: int, max: int) {
    forall k :: 0 <= k < |tokens| ==> ParseToken(tokens[k], min, max).Some?
  }

  /** Some token allows the value. */
  ghost predicate Allows(tokens: seq<string>, min: int, max: int, v: int) {
    exists k :: 0 <= k < |tokens| && TokenAllows(tokens[k], min, max, v)
  }

  /** The set is the union of what the tokens' loops reach. */
  ghost predicate IsUnion(allowed: set<int>, tokens: seq<string>, min: int, max: int) {
    forall v :: v in allowed <==> Allows(tokens, min, max, v)
  }

  lemma UnionGrows(allowed: set<int>, next: set<int>, tokens: seq<string>, k: nat, min: int, max: int)
    requires k < |tokens| && IsUnion(allowed, tokens[..k], min, max)
    requires forall v :: v in next <==> v in allowed || TokenAllows(tokens[k], min, max, v)
    ensures IsUnion(next, tokens[..k + 1], min, max)
  {
    forall v ensures v in next <==> Allows(tokens[..k + 1], min, max, v) {
      AllowsSnoc(tokens, k, min, max, v);
    }
  }

  lemma ParsedIsBounded(token: string, min: int, max: int)
    requires FieldBounds(min, max) && ParseToken(token, min, max).Some?
    ensures Bounded(ParseToken(token, min, max).value)
  {
  }

  lemma FirstIsAllowed(tokens: seq<string>, min: int, max: int)
    requires FieldBounds(min, max) && tokens != [] && AllParse(tokens, min, max)
    ensures Allows(tokens, min, max, ParseToken(tokens[0], min, max).value.start)
  {
    var r := ParseToken(tokens[0], min, max).value;
    ParsedIsBounded(tokens[0], min, max);
    assert ReachedAt(r, 0, r.start);
    assert TokenAllows(tokens[0], min, max, r.start);
  }

  /** The values a field allows: whatever the loops of its tokens reach. */
  method ExpandCronField(raw: string, min: int, max: int) returns (r: Option<set<int>>)
    requires FieldBounds(min, max)
    ensures r.Some? <==> AllParse(Split(raw, ','), min, max)
    ensures r.Some? ==> IsUnion(r.value, Split(raw, ','), min, max) && r.value != {}
  {
    var tokens := Split(raw, ',');
    var out: set<int> := {};
    for k := 0 to |tokens|
      invariant AllParse(tokens[..k], min, max)
      invariant IsUnion(out, tokens[..k], min, max)
    {
      var parsed := ParseToken(tokens[k], min, max);
      if parsed == None {
        return None;
      }
      ParsedIsBounded(tokens[k], min, max);
      var next := AddRange(out, parsed.value);
      UnionGrows(out, next, tokens, k, min, max);
      out := next;
    }
    assert tokens[..|tokens|] == tokens;
    FirstIsAllowed(tokens, min, max);
    if |out| == 0 {
      assert false;
    }
    r := Some(out);
  }

  lemma AllowsSnoc(tokens: seq<string>, k: nat, min: int, max: int, v: int)
    requires k < |tokens|
    ensures Allows(tokens[..k + 1], min, max, v) <==> Allows(tokens[..k], min, max, v) || TokenAllows(tokens[k], min, max, v)
  {
    var (a, b) := (tokens[..k], tokens[..k + 1]);
    assert b == a + [tokens[k]];
    if Allows(a, min, max, v) {
      var i :| 0 <= i < |a| && TokenAllows(a[i], min, max, v);
      assert b[i] == a[i];
    }
    if TokenAllows(tokens[k], min, max, v) {
      assert b[k] == tokens[k];
    }
  }

  predicate TokenSteps(token: string, min: int, max: int, v: int) {
    ParseToken(token, min, max).Some? && InRange(ParseToken(token, min, max).value, v)
  }

  /** The value is in some token's stepped range, as cron expressions mean it. */
  predicate Stepped(tokens: seq<string>, min: int, max: int, v: int) {
    exists k :: 0 <= k < |tokens| && TokenSteps(tokens[k], min, max, v)
  }

  predicate TokenOverflows(token: string, min: int, max: int)
    requires FieldBounds(min, max)
  {
    ParseToken(token, min, max).Some? && Overflows(ParseToken(token, min, max).value)
  }

  lemma TokenStandardIff(token: string, min: int, max: int)
    requires FieldBounds(min, max) && ParseToken(token, min, max).Some?
    ensures !TokenOverflows(token, min, max) ==> forall v :: TokenAllows(token, min, max, v) <==> TokenSteps(token, min, max, v)
    ensures TokenOverflows(token, min, max) ==> exists v :: v < min && TokenAllows(token, min, max, v)
  {
    var r := ParseToken(token, min, max).value;
    ParsedIsBounded(token, min, max);
    if Overflows(r) {
      OverflowsAtOnce(r);
      OverflowGoesNegative(r);
      assert TokenAllows(token, min, max, Value(r, 1));
    } else {
      forall v ensures Reached(r, v) <==> InRange(r, v) {
        ReachedIsStepped(r, v);
      }
    }
  }

  /** The field allows the union of its stepped ranges, within its bounds. */
  ghost predicate IsStandard(tokens: seq<string>, min: int, max: int) {
    forall v :: (Allows(tokens, min, max, v) <==> Stepped(tokens, min, max, v)) && (Allows(tokens, min, max, v) ==> min <= v <= max)
  }

  lemma StandardWithoutOverflow(tokens: seq<string>, min: int, max: int, v: int)
    requires FieldBounds(min, max) && AllParse(tokens, min, max)
    requires forall k :: 0 <= k < |tokens| ==> !TokenOverflows(tokens[k], min, max)
    ensures Allows(tokens, min, max, v) <==> Stepped(tokens, min, max, v)
    ensures Allows(tokens, min, max, v) ==> min <= v <= max
  {
    forall k | 0 <= k < |tokens| ensures TokenAllows(tokens[k], min, max, v) <==> TokenSteps(tokens[k], min, max, v) {
      TokenStandardIff(tokens[k], min, max);
    }
  }

  /** A field means what cron says, within its bounds, exactly when no token's loop goes
      past the largest integer. */
  lemma FieldIsStandardIff(tokens: seq<string>, min: int, max: int)
    requires FieldBounds(min, max) && AllParse(tokens, min, max)
    ensures IsStandard(tokens, min, max) <==> forall k :: 0 <= k < |tokens| ==> !TokenOverflows(tokens[k], min, max)
  {
    if forall k :: 0 <= k < |tokens| ==> !TokenOverflows(tokens[k], min, max) {
      forall v
        ensures Allows(tokens, min, max, v) <==> Stepped(tokens, min, max, v)
        ensures Allows(tokens, min, max, v) ==> min <= v <= max
      {
        StandardWithoutOverflow(tokens, min, max, v);
      }
    } else {
      var k :| 0 <= k < |tokens| && TokenOverflows(tokens[k], min, max);
      TokenStandardIff(tokens[k], min, max);
      var v :| v < min && TokenAllows(tokens[k], min, max, v);
      assert Allows(tokens, min, max, v);
    }
  }

  // ---- A step that wraps -----------------------------------------------------------------------

  lemma {:induction false} SplitNone(a: string, sep: char)
    requires sep !in a
    ensures Split(a, sep) == [a]
  {
    if a != "" {
      SplitNone(a[1..], sep);
      assert a == [a[0]] + a[1..];
    }
  }

  lemma {:induction false} SplitOnce(a: string, b: string, sep: char)
    requires sep !in a && sep !in b
    ensures Split(a + [sep] + b, sep) == [a, b]
  {
    var s := a + [sep] + b;
    if a == "" {
      SplitNone(b, sep);
      assert s[1..] == b;
    } else {
      SplitOnce(a[1..], b, sep);
      assert s[1..] == a[1..] + [sep] + b && s[0] == a[0];
      assert a == [a[0]] + a[1..];
    }
  }

  lemma {:induction false} DecimalHasDigits(n: nat, c: char)
    requires !IsDigit(c)
    ensures c !in Decimal(n)
  {
    if n >= 10 {
      DecimalHasDigits(n / 10, c);
    }
  }

  /** A step on the last minute: 59/step. */
  function LastMinuteToken(step: nat): string {
    "59" + ['/'] + Decimal(step)
  }

  lemma LastMinuteParses(step: nat)
    requires 0 < step <= MAX_INT
    ensures ParseToken(LastMinuteToken(step), 0, 59) == Some(Range(59, 59, step))
  {
    DecimalHasDigits(step, '/');
    SplitOnce("59", Decimal(step), '/');
    AtoiReadsDecimal(step);
    FiftyNine();
  }

  lemma FiftyNine()
    ensures ParseBase("59", 0, 59) == Some((59, 59))
  {
    var n := 59;
    AtoiReadsDecimal(n);
    assert Decimal(n) == Decimal(n / 10) + ['9'] && Decimal(n / 10) == ['5'];
    assert Decimal(n) == "59";
  }

  /** The loop goes down by two with every second turn. */
  lemma {:induction false} EverySecondTurn(r: Range, i: nat)
    requires r == Range(59, 59, MAX_INT) && i <= 30
    ensures Value(r, 2 * i) == 59 - 2 * i
    ensures Value(r, 2 * i + 1) == if i < 30 then 58 - 2 * i - (MAX_INT + 1) else MAX_INT - 1
  {
    if i > 0 {
      EverySecondTurn(r, i - 1);
      assert Value(r, 2 * i) == Add64(Value(r, 2 * i - 1), r.step);
    }
    assert Value(r, 2 * i + 1) == Add64(Value(r, 2 * i), r.step);
  }

  lemma OddReached(r: Range, i: nat)
    requires r == Range(59, 59, MAX_INT) && i <= 29
    ensures ReachedAt(r, 2 * i, 59 - 2 * i)
  {
    EverySecondTurn(r, i);
    forall j | 0 <= j <= 2 * i ensures Value(r, j) <= r.end {
      ValueAt(r, j);
    }
  }

  lemma ValueAt(r: Range, k: nat)
    requires r == Range(59, 59, MAX_INT) && k <= 60
    ensures Value(r, k) <= r.end && (Value(r, k) >= 0 ==> exists i :: 0 <= i <= 29 && Value(r, k) == 59 - 2 * i)
  {
    var i := k / 2;
    EverySecondTurn(r, i);
    assert k == 2 * i || k == 2 * i + 1;
  }

  lemma OnlyOddReached(r: Range, v: int)
    requires r == Range(59, 59, MAX_INT) && Reached(r, v) && v >= 0
    ensures exists i :: 0 <= i <= 29 && v == 59 - 2 * i
  {
    var k: nat :| ReachedAt(r, k, v);
    EverySecondTurn(r, 30);
    assert Value(r, 61) > r.end;
    ValueAt(r, k);
  }

  lemma OddRange(r: Range, v: int)
    requires r == Range(59, 59, MAX_INT) && 0 <= v <= 59
    ensures Reached(r, v) <==> exists i :: 0 <= i <= 29 && v == 59 - 2 * i
  {
    if Reached(r, v) {
      OnlyOddReached(r, v);
    }
    if i :| 0 <= i <= 29 && v == 59 - 2 * i {
      OddReached(r, i);
    }
  }

  /** So the largest step, 59/9223372036854775807, allows every odd minute instead of the 59th alone. */
  lemma OddMinutes(step: nat, v: int)
    requires step == MAX_INT && 0 <= v <= 59
    ensures var token := LastMinuteToken(step);
            && (TokenAllows(token, 0, 59, v) <==> exists i :: 0 <= i <= 29 && v == 59 - 2 * i)
            && (TokenSteps(token, 0, 59, v) <==> v == 59)
            && TokenOverflows(token, 0, 59)
  {
    LastMinuteParses(step);
    WrapsOddly(LastMinuteToken(step), Range(59, 59, step), v);
  }

  lemma WrapsOddly(token: string, r: Range, v: int)
    requires r == Range(59, 59, MAX_INT) && ParseToken(token, 0, 59) == Some(r) && 0 <= v <= 59
    ensures TokenAllows(token, 0, 59, v) <==> exists i :: 0 <= i <= 29 && v == 59 - 2 * i
    ensures TokenSteps(token, 0, 59, v) <==> v == 59
    ensures TokenOverflows(token, 0, 59)
  {
    OddRange(r, v);
    OverflowsAtOnce(r);
  }

  // ---- Expressions -------------------------------------------------------------------------

  datatype Time = Time(year: int, month: int, day: int, hour: int, minute: int, weekday: int)

  /** Lowest and highest value of each field. */
  const BOUNDS: seq<(int, int)> := [(0, 59), (0, 23), (1, 31), (1, 12), (0, 6)]

  function Values(at: Time): (r: seq<int>)
    ensures |r| == 5
  {
    [at.minute, at.hour, at.day, at.month, at.weekday]
  }

  predicate FieldParses(part: string, k: nat)
    requires k < 5
  {
    AllParse(Split(part, ','), BOUNDS[k].0, BOUNDS[k].1)
  }

  ghost predicate FieldAllows(part: string, k: nat, v: int)
    requires k < 5
  {
    Allows(Split(part, ','), BOUNDS[k].0, BOUNDS[k].1, v)
  }

  predicate Parses(expr: string) {
    |Words(expr)| == 5 && forall k :: 0 <= k < 5 ==> FieldParses(Words(expr)[k], k)
  }

  /** The expression is well formed and each of the five values is allowed by its field. */
  ghost predicate Matches(expr: string, at: Time) {
    Parses(expr) && forall k :: 0 <= k < 5 ==> FieldAllows(Words(expr)[k], k, Values(at)[k])
  }

  method ParseCron(expr: string) returns (r: Option<seq<set<int>>>)
    ensures r.Some? <==> Parses(expr)
    ensures r.Some? ==> |r.value| == 5
    ensures r.Some? ==> forall k, v :: 0 <= k < 5 ==> (v in r.value[k] <==> FieldAllows(Words(expr)[k], k, v))
  {
    var parts := Words(expr);
    if |parts| != 5 {
      return None;
    }
    var out: seq<set<int>> := [];
    for k := 0 to 5
      invariant |out| == k
      invariant forall j :: 0 <= j < k ==> FieldParses(parts[j], j)
      invariant forall j, v :: 0 <= j < k ==> (v in out[j] <==> FieldAllows(parts[j], j, v))
    {
      var allowed := ExpandCronField(parts[k], BOUNDS[k].0, BOUNDS[k].1);
      if allowed == None {
        return None;
      }
      out := out + [allowed.value];
    }
    r := Some(out);
  }

  method CronMatches(expr: string, at: Time) returns (ok: bool)
    ensures ok <==> Matches(expr, at)
  {
    var fields := ParseCron(expr);
    if fields == None {
      return false;
    }
    var values := Values(at);
    for k := 0 to 5
      invariant forall j :: 0 <= j < k ==> FieldAllows(Words(expr)[j], j, values[j])
    {
      if values[k] !in fields.value[k] {
        return false;
      }
    }
    ok := true;
  }
}
