// What cron expressions mean, told from how they are written: lists of *, numbers and
// ranges, each with an optional step.
module CronText {
  import opened Common
  import opened Cron
  import opened Strings

  datatype Base = Every | One(value: nat) | Span(first: nat, last: nat)

  datatype Token = Token(base: Base, step: Option<nat>)

  function BaseText(base: Base): string {
    match base
    case Every => "*"
    case One(n) => Decimal(n)
    case Span(a, b) => Decimal(a) + "-" + Decimal(b)
  }

  function TokenText(token: Token): string {
    if token.step.None? then BaseText(token.base) else BaseText(token.base) + "/" + Decimal(token.step.value)
  }

  /** The numbers are integers of the machine. */
  predicate Fits(token: Token) {
    && (token.step.Some? ==> token.step.value <= MAX_INT)
    && match token.base
       case Every => true
       case One(n) => n <= MAX_INT
       case Span(a, b) => a <= MAX_INT && b <= MAX_INT
  }

  function First(token: Token, min: int): int {
    match token.base
    case Every => min
    case One(n) => n
    case Span(a, _) => a
  }

  function Last(token: Token, max: int): int {
    match token.base
    case Every => max
    case One(n) => n
    case Span(_, b) => b
  }

  function StepOf(token: Token): nat {
    if token.step.None? then 1 else token.step.value
  }

  /** A range from low to high within the field's bounds, and a step that is not zero. */
  predicate WellFormed(token: Token, min: int, max: int) {
    min <= First(token, min) <= Last(token, max) <= max && StepOf(token) > 0
  }

  /** The token means the value. */
  predicate Means(token: Token, min: int, max: int, v: int) {
    First(token, min) <= v <= Last(token, max) && StepOf(token) > 0 && (v - First(token, min)) % StepOf(token) == 0
  }

  // ---- Characters --------------------------------------------------------------------------

  predicate IsTokenChar(c: char) {
    IsDigit(c) || c == '*' || c == '-' || c == '/'
  }

  lemma {:induction false} DecimalDigits(n: nat)
    ensures forall k :: 0 <= k < |Decimal(n)| ==> IsDigit(Decimal(n)[k])
  {
    if n >= 10 {
      DecimalDigits(n / 10);
    }
  }

  lemma BaseChars(base: Base)
    ensures BaseText(base) != "" && '/' !in BaseText(base)
    ensures forall k :: 0 <= k < |BaseText(base)| ==> IsTokenChar(BaseText(base)[k])
  {
    match base
    case Every =>
    case One(n) => DecimalDigits(n);
    case Span(a, b) =>
      DecimalDigits(a);
      DecimalDigits(b);
  }

  lemma TokenChars(token: Token)
    ensures TokenText(token) != ""
    ensures forall k :: 0 <= k < |TokenText(token)| ==> IsTokenChar(TokenText(token)[k])
  {
    BaseChars(token.base);
    if token.step.Some? {
      DecimalDigits(token.step.value);
    }
  }

  // ---- One token ---------------------------------------------------------------------------

  lemma BaseReads(token: Token, min: int, max: int)
    requires Fits(token)
    ensures ParseBase(BaseText(token.base), min, max) == Some((First(token, min), Last(token, max)))
  {
    match token.base
    case Every =>
    case One(n) =>
      DecimalHasDigits(n, '-');
      DecimalDigits(n);
      AtoiReadsDecimal(n);
    case Span(a, b) =>
      DecimalHasDigits(a, '-');
      DecimalHasDigits(b, '-');
      SplitOnce(Decimal(a), Decimal(b), '-');
      AtoiReadsDecimal(a);
      AtoiReadsDecimal(b);
      assert BaseText(token.base)[0] == Decimal(a)[0];
      assert BaseText(token.base)[|Decimal(a)|] == '-';
  }

  /** A token is accepted exactly if it is well formed, and is read as its range and step. */
  lemma TokenReads(token: Token, min: int, max: int)
    requires Fits(token)
    ensures ParseToken(TokenText(token), min, max)
            == if WellFormed(token, min, max) then Some(Range(First(token, min), Last(token, max), StepOf(token))) else None
  {
    BaseReads(token, min, max);
    BaseChars(token.base);
    if token.step.None? {
      SplitNone(BaseText(token.base), '/');
    } else {
      DecimalHasDigits(token.step.value, '/');
      SplitOnce(BaseText(token.base), Decimal(token.step.value), '/');
      AtoiReadsDecimal(token.step.value);
    }
  }

  /** The first step does not go past the largest integer. */
  predicate Short(token: Token, min: int) {
    First(token, min) + StepOf(token) <= MAX_INT
  }

  lemma TokenMeans(token: Token, min: int, max: int, v: int)
    requires FieldBounds(min, max) && Fits(token) && WellFormed(token, min, max) && Short(token, min)
    ensures TokenAllows(TokenText(token), min, max, v) <==> Means(token, min, max, v)
  {
    TokenReads(token, min, max);
    var r := Range(First(token, min), Last(token, max), StepOf(token));
    ParsedIsBounded(TokenText(token), min, max);
    OverflowsAtOnce(r);
    ReachedIsStepped(r, v);
  }

  // ---- A field -----------------------------------------------------------------------------

  function TokenTexts(tokens: seq<Token>): seq<string> {
    seq(|tokens|, k requires 0 <= k < |tokens| => TokenText(tokens[k]))
  }

  function FieldText(tokens: seq<Token>): string {
    JoinWith(TokenTexts(tokens), ',')
  }

  /** Parts without the separator, put together, are split into the same parts. */
  lemma {:induction false} JoinSplits(parts: seq<string>, sep: char)
    requires parts != [] && forall k :: 0 <= k < |parts| ==> sep !in parts[k]
    ensures Split(JoinWith(parts, sep), sep) == parts
  {
    SplitNone(parts[0], sep);
    if |parts| > 1 {
      JoinSplits(parts[1..], sep);
      SplitFirst(parts[0], JoinWith(parts[1..], sep), sep);
      assert parts == [parts[0]] + parts[1..];
    }
  }

  lemma {:induction false} SplitFirst(a: string, b: string, sep: char)
    requires sep !in a
    ensures Split(a + [sep] + b, sep) == [a] + Split(b, sep)
  {
    var s := a + [sep] + b;
    if a == "" {
      assert s[1..] == b;
    } else {
      SplitFirst(a[1..], b, sep);
      assert s[1..] == a[1..] + [sep] + b && s[0] == a[0];
      assert a == [a[0]] + a[1..];
    }
  }

  lemma FieldSplits(tokens: seq<Token>)
    requires tokens != []
    ensures Split(FieldText(tokens), ',') == TokenTexts(tokens)
  {
    forall k | 0 <= k < |tokens| ensures ',' !in TokenTexts(tokens)[k] {
      TokenChars(tokens[k]);
    }
    JoinSplits(TokenTexts(tokens), ',');
  }

  predicate AllFit(tokens: seq<Token>, min: int) {
    tokens != [] && forall k :: 0 <= k < |tokens| ==> Fits(tokens[k]) && Short(tokens[k], min)
  }

  predicate AllWellFormed(tokens: seq<Token>, min: int, max: int) {
    forall k :: 0 <= k < |tokens| ==> WellFormed(tokens[k], min, max)
  }

  predicate SomeMeans(tokens: seq<Token>, min: int, max: int, v: int) {
    exists k :: 0 <= k < |tokens| && Means(tokens[k], min, max, v)
  }

  /** A field is accepted exactly if all its tokens are well formed, and then allows what some
      token means. */
  lemma FieldMeans(tokens: seq<Token>, min: int, max: int, v: int)
    requires FieldBounds(min, max) && AllFit(tokens, min)
    ensures AllParse(Split(FieldText(tokens), ','), min, max) <==> AllWellFormed(tokens, min, max)
    ensures AllWellFormed(tokens, min, max) ==>
              (Allows(Split(FieldText(tokens), ','), min, max, v) <==> SomeMeans(tokens, min, max, v))
  {
    FieldSplits(tokens);
    var texts := TokenTexts(tokens);
    forall k | 0 <= k < |tokens| ensures ParseToken(texts[k], min, max).Some? <==> WellFormed(tokens[k], min, max) {
      TokenReads(tokens[k], min, max);
    }
    if AllWellFormed(tokens, min, max) {
      forall k | 0 <= k < |tokens| ensures TokenAllows(texts[k], min, max, v) <==> Means(tokens[k], min, max, v) {
        TokenMeans(tokens[k], min, max, v);
      }
      assert Allows(texts, min, max, v) <==> SomeMeans(tokens, min, max, v);
    }
  }

  // ---- An expression -----------------------------------------------------------------------

  predicate IsWord(s: string) {
    s != "" && forall k :: 0 <= k < |s| ==> !IsSpace(s[k])
  }

  lemma {:induction false} WordEndOf(word: string, rest: string)
    requires forall k :: 0 <= k < |word| ==> !IsSpace(word[k])
    requires rest == "" || IsSpace(rest[0])
    ensures WordEnd(word + rest) == |word|
  {
    if word == "" {
      assert word + rest == rest;
    } else {
      WordEndOf(word[1..], rest);
      assert (word + rest)[1..] == word[1..] + rest;
    }
  }

  /** Words put together with blanks are found again. */
  lemma {:induction false} JoinedWords(parts: seq<string>)
    requires forall k :: 0 <= k < |parts| ==> IsWord(parts[k])
    ensures Words(JoinWith(parts, ' ')) == parts
  {
    if parts != [] {
      var rest := if |parts| == 1 then "" else [' '] + JoinWith(parts[1..], ' ');
      assert JoinWith(parts, ' ') == parts[0] + rest;
      WordEndOf(parts[0], rest);
      assert (parts[0] + rest)[..|parts[0]|] == parts[0] && (parts[0] + rest)[|parts[0]|..] == rest;
      if |parts| > 1 {
        JoinedWords(parts[1..]);
        assert rest[1..] == JoinWith(parts[1..], ' ');
      }
      assert parts == [parts[0]] + parts[1..];
    }
  }

  lemma {:induction false} JoinedIsWord(parts: seq<string>)
    requires parts != [] && forall k :: 0 <= k < |parts| ==> IsWord(parts[k])
    ensures IsWord(JoinWith(parts, ','))
  {
    if |parts| > 1 {
      JoinedIsWord(parts[1..]);
    }
  }

  lemma FieldIsWord(tokens: seq<Token>)
    requires tokens != []
    ensures IsWord(FieldText(tokens))
  {
    forall k | 0 <= k < |tokens| ensures IsWord(TokenTexts(tokens)[k]) {
      TokenChars(tokens[k]);
    }
    JoinedIsWord(TokenTexts(tokens));
  }

  /** Five fields with a blank between them. */
  function Expression(minutes: seq<Token>, hours: seq<Token>, days: seq<Token>, months: seq<Token>, weekdays: seq<Token>): string {
    JoinWith([FieldText(minutes), FieldText(hours), FieldText(days), FieldText(months), FieldText(weekdays)], ' ')
  }

  /** An expression matches a time exactly if every token is well formed for its field and each
      field has a token that means its part of the time. */
  lemma ExpressionMeans(minutes: seq<Token>, hours: seq<Token>, days: seq<Token>, months: seq<Token>, weekdays: seq<Token>, at: Time)
    requires AllFit(minutes, 0) && AllFit(hours, 0) && AllFit(days, 1) && AllFit(months, 1) && AllFit(weekdays, 0)
    ensures Parses(Expression(minutes, hours, days, months, weekdays))
            <==> && AllWellFormed(minutes, 0, 59) && AllWellFormed(hours, 0, 23) && AllWellFormed(days, 1, 31)
                 && AllWellFormed(months, 1, 12) && AllWellFormed(weekdays, 0, 6)
    ensures Matches(Expression(minutes, hours, days, months, weekdays), at)
            <==> && Parses(Expression(minutes, hours, days, months, weekdays))
                 && SomeMeans(minutes, 0, 59, at.minute) && SomeMeans(hours, 0, 23, at.hour) && SomeMeans(days, 1, 31, at.day)
                 && SomeMeans(months, 1, 12, at.month) && SomeMeans(weekdays, 0, 6, at.weekday)
  {
    FieldIsWord(minutes);
    FieldIsWord(hours);
    FieldIsWord(days);
    FieldIsWord(months);
    FieldIsWord(weekdays);
    JoinedWords([FieldText(minutes), FieldText(hours), FieldText(days), FieldText(months), FieldText(weekdays)]);
    FieldMeans(minutes, 0, 59, at.minute);
    FieldMeans(hours, 0, 23, at.hour);
    FieldMeans(days, 1, 31, at.day);
    FieldMeans(months, 1, 12, at.month);
    FieldMeans(weekdays, 0, 6, at.weekday);
    FiveFields(Expression(minutes, hours, days, months, weekdays), at);
  }

  lemma FiveFields(expr: string, at: Time)
    requires |Words(expr)| == 5
    ensures var w := Words(expr);
            && (Parses(expr) <==> FieldParses(w[0], 0) && FieldParses(w[1], 1) && FieldParses(w[2], 2) && FieldParses(w[3], 3)
                                  && FieldParses(w[4], 4))
            && (Matches(expr, at) <==>
                  && Parses(expr) && FieldAllows(w[0], 0, at.minute) && FieldAllows(w[1], 1, at.hour)
                  && FieldAllows(w[2], 2, at.day) && FieldAllows(w[3], 3, at.month) && FieldAllows(w[4], 4, at.weekday))
  {
    var w, v := Words(expr), Values(at);
    if Parses(expr) {
      FieldsAllow(w, v);
      assert v[0] == at.minute && v[1] == at.hour && v[2] == at.day && v[3] == at.month && v[4] == at.weekday;
    }
    FieldsParse(w);
  }

  lemma FieldsParse(w: seq<string>)
    requires |w| == 5
    ensures (forall k :: 0 <= k < 5 ==> FieldParses(w[k], k))
            <==> FieldParses(w[0], 0) && FieldParses(w[1], 1) && FieldParses(w[2], 2) && FieldParses(w[3], 3) && FieldParses(w[4], 4)
  {
  }

  lemma FieldsAllow(w: seq<string>, v: seq<int>)
    requires |w| == |v| == 5
    ensures (forall k :: 0 <= k < 5 ==> FieldAllows(w[k], k, v[k]))
            <==> && FieldAllows(w[0], 0, v[0]) && FieldAllows(w[1], 1, v[1]) && FieldAllows(w[2], 2, v[2])
                 && FieldAllows(w[3], 3, v[3]) && FieldAllows(w[4], 4, v[4])
  {
  }
}
