// Building a workspace patch: line-range edits, replacement of the k-th match,
// and a batch of line edits applied bottom-up.
module Workspace {
  import opened Common

  datatype Error =
    | InvalidRange
    | EmptyFile
    | BeyondLastLine
    | Incomplete
    | InvalidPath
    | NotAFile
    | TooLarge
    | NoMatch
    | Ambiguous(lines: seq<nat>)
    | OccurrenceTooLarge

  datatype Result<+T> = Ok(value: T) | Err(error: Error)

  // ---- Lines -----------------------------------------------------------------

  predicate Terminated(c: string) {
    c != "" && c[|c| - 1] == '\n'
  }

  /** Where the first line of c ends, its newline included. */
  function FirstLine(c: string): (n: nat)
    requires c != ""
    ensures 1 <= n <= |c|
    ensures forall i :: 0 <= i < n - 1 ==> c[i] != '\n'
    ensures n < |c| ==> c[n - 1] == '\n'
  {
    if c[0] == '\n' || |c| == 1 then 1 else 1 + FirstLine(c[1..])
  }

  /** The lines of c, each with its newline; only the last may lack one. */
  function Lines(c: string): seq<string> {
    if c == "" then [] else [c[..FirstLine(c)]] + Lines(c[FirstLine(c)..])
  }

  function Join(lines: seq<string>): string {
    if lines == [] then "" else lines[0] + Join(lines[1..])
  }

  lemma {:induction false} JoinLines(c: string)
    ensures Join(Lines(c)) == c
  {
    if c != "" {
      JoinLines(c[FirstLine(c)..]);
    }
  }

  lemma {:induction false} JoinConcat(a: seq<string>, b: seq<string>)
    ensures Join(a + b) == Join(a) + Join(b)
  {
    if a == [] {
      assert a + b == b;
    } else {
      assert (a + b)[1..] == a[1..] + b;
      JoinConcat(a[1..], b);
    }
  }

  /** A complete line put before other lines becomes the first of them. */
  lemma LinesCons(line: string, rest: string)
    requires line != "" && FirstLine(line) == |line| && (Terminated(line) || rest == "")
    ensures Lines(line + rest) == [line] + Lines(rest)
  {
    var c := line + rest;
    var n := FirstLine(c);
    if rest == "" {
      assert c == line;
    } else {
      assert c[|line| - 1] == line[|line| - 1] == '\n';
      assert forall i :: 0 <= i < |line| ==> c[i] == line[i];
    }
    assert n == |line|;
    assert c[..n] == line && c[n..] == rest;
  }

  lemma FirstLineIsLine(c: string)
    requires c != ""
    ensures var line := c[..FirstLine(c)]; FirstLine(line) == |line| && (FirstLine(c) < |c| ==> Terminated(line))
  {
    var n := FirstLine(c);
    var line := c[..n];
    assert forall i :: 0 <= i < n ==> line[i] == c[i];
  }

  lemma ConcatAfterLine(line: string, rest: string, t: string)
    requires line != "" && FirstLine(line) == |line| && (Terminated(line) || rest + t == "")
    requires Lines(rest + t) == Lines(rest) + Lines(t)
    ensures Lines(line + rest + t) == Lines(line + rest) + Lines(t)
  {
    ConcatAssociative(line, rest, t);
    LinesCons(line, rest + t);
    LinesCons(line, rest);
    ConcatAssociative([line], Lines(rest), Lines(t));
  }

  /** After a complete line the text that follows starts a line of its own. */
  lemma {:induction false} LinesConcat(p: string, t: string)
    requires p == "" || Terminated(p) || t == ""
    ensures Lines(p + t) == Lines(p) + Lines(t)
    decreases |p|
  {
    if p == "" {
      assert p + t == t;
    } else {
      var line, rest := p[..FirstLine(p)], p[FirstLine(p)..];
      FirstLineIsLine(p);
      assert p == line + rest;
      LinesConcat(rest, t);
      ConcatAfterLine(line, rest, t);
    }
  }

  /** Lines are non-empty and, except perhaps the last, end in a newline. */
  lemma {:induction false} LineShape(c: string, k: nat)
    requires k < |Lines(c)|
    ensures Lines(c)[k] != "" && (k < |Lines(c)| - 1 || Terminated(c) ==> Terminated(Lines(c)[k]))
    ensures k == |Lines(c)| - 1 && !Terminated(c) ==> !Terminated(Lines(c)[k])
  {
    var n := FirstLine(c);
    if k > 0 {
      LineShape(c[n..], k - 1);
    }
  }

  /** A prefix of the lines ends where a line does. */
  lemma {:induction false} PrefixComplete(c: string, k: nat)
    requires k <= |Lines(c)|
    ensures Join(Lines(c)[..k]) == "" <==> k == 0
    ensures 0 < k && (k < |Lines(c)| || Terminated(c)) ==> Terminated(Join(Lines(c)[..k]))
  {
    var L := Lines(c);
    if k > 0 {
      LineShape(c, k - 1);
      assert L[..k] == L[..k - 1] + [L[k - 1]];
      JoinConcat(L[..k - 1], [L[k - 1]]);
      assert Join([L[k - 1]]) == L[k - 1];
    }
  }

  lemma LinesOfPrefix(c: string, k: nat)
    requires k <= |Lines(c)|
    ensures Lines(Join(Lines(c)[..k])) == Lines(c)[..k]
  {
    var L := Lines(c);
    JoinLines(c);
    assert L[..k] + L[k..] == L;
    JoinConcat(L[..k], L[k..]);
    PrefixComplete(c, k);
    if k == |L| {
      assert L[..k] == L && L[k..] == [];
    } else {
      LinesConcat(Join(L[..k]), Join(L[k..]));
      SuffixLines(c, k);
    }
  }

  lemma {:induction false} SuffixLines(c: string, k: nat)
    requires k <= |Lines(c)|
    ensures Lines(Join(Lines(c)[k..])) == Lines(c)[k..]
  {
    var L := Lines(c);
    if k == 0 {
      assert L[0..] == L;
      JoinLines(c);
    } else {
      var n := FirstLine(c);
      SuffixLines(c[n..], k - 1);
      assert L[k..] == Lines(c[n..])[k - 1..];
    }
  }

  lemma PrefixText(c: string, k: nat)
    requires k <= |Lines(c)|
    ensures var n := |Join(Lines(c)[..k])|;
            n <= |c| && c[..n] == Join(Lines(c)[..k]) && c[n..] == Join(Lines(c)[k..])
    ensures |Join(Lines(c)[..k])| == |c| <==> k == |Lines(c)|
  {
    var L := Lines(c);
    JoinLines(c);
    assert L[..k] + L[k..] == L;
    JoinConcat(L[..k], L[k..]);
    if k < |L| {
      LineShape(c, k);
      assert L[k..][0] == L[k];
    }
  }

  // ---- Counting lines ----------------------------------------------------------

  /** Where each line starts. */
  function Offsets(lines: seq<string>): (r: seq<nat>)
    ensures |r| == |lines|
    ensures forall k :: 0 <= k < |r| ==> r[k] == |Join(lines[..k])|
  {
    seq(|lines|, k requires 0 <= k < |lines| => |Join(lines[..k])|)
  }

  lemma NoInnerNewline(c: string, k: nat, i: nat)
    requires k < |Lines(c)| && i < |Lines(c)[k]| - 1
    ensures Lines(c)[k][i] != '\n'
  {
    if k > 0 {
      NoInnerNewline(c[FirstLine(c)..], k - 1, i);
    }
  }

  lemma SingleLine(w: string)
    requires w != "" && forall i :: 0 <= i < |w| - 1 ==> w[i] != '\n'
    ensures Lines(w) == [w]
  {
    assert FirstLine(w) == |w|;
    assert w[..|w|] == w;
  }

  /** An unfinished text is complete lines followed by one line without a newline. */
  lemma LastLine(p: string)
    requires p != "" && !Terminated(p)
    ensures var L := Lines(p);
            var m := |L| - 1;
            && m >= 0 && p == Join(L[..m]) + L[m]
            && (Join(L[..m]) == "" || Terminated(Join(L[..m]))) && Lines(Join(L[..m])) == L[..m]
            && forall i :: 0 <= i < |L[m]| ==> L[m][i] != '\n'
  {
    var m := |Lines(p)| - 1;
    PrefixComplete(p, m);
    LinesOfPrefix(p, m);
    LastIsRest(p, m);
    LastIsBare(p, m);
  }

  lemma LastIsBare(p: string, m: nat)
    requires !Terminated(p) && m == |Lines(p)| - 1
    ensures forall i :: 0 <= i < |Lines(p)[m]| ==> Lines(p)[m][i] != '\n'
  {
    LineShape(p, m);
    forall i | 0 <= i < |Lines(p)[m]| ensures Lines(p)[m][i] != '\n' {
      if i < |Lines(p)[m]| - 1 {
        NoInnerNewline(p, m, i);
      }
    }
  }

  lemma LastIsRest(p: string, m: nat)
    requires m == |Lines(p)| - 1
    ensures p == Join(Lines(p)[..m]) + Lines(p)[m]
  {
    var L := Lines(p);
    PrefixText(p, m);
    assert L[m..] == [L[m]];
    assert Join([L[m]]) == L[m];
    assert p == p[..|Join(L[..m])|] + p[|Join(L[..m])|..];
  }

  lemma ExtendLast(q: string, last: string, ch: char)
    requires (q == "" || Terminated(q)) && forall i :: 0 <= i < |last| ==> last[i] != '\n'
    ensures Lines(q + last + [ch]) == Lines(q) + [last + [ch]]
  {
    ConcatAssociative(q, last, [ch]);
    SingleLine(last + [ch]);
    LinesConcat(q, last + [ch]);
  }

  /** One more character either starts a line or extends the last one. */
  lemma LinesSnoc(p: string, ch: char)
    ensures var L := Lines(p);
            Lines(p + [ch]) == if p == "" || Terminated(p) then L + [[ch]] else L[..|L| - 1] + [L[|L| - 1] + [ch]]
  {
    if p == "" || Terminated(p) {
      assert Lines([ch]) == [[ch]] by { SingleLine([ch]); }
      LinesConcat(p, [ch]);
    } else {
      var L := Lines(p);
      var m := |L| - 1;
      LastLine(p);
      ExtendLast(Join(L[..m]), L[m], ch);
    }
  }

  lemma OffsetsSnoc(lines: seq<string>, last: string)
    ensures Offsets(lines + [last]) == Offsets(lines) + [|Join(lines)|]
  {
    var all := lines + [last];
    forall k | 0 <= k < |all| ensures Offsets(all)[k] == (Offsets(lines) + [|Join(lines)|])[k] {
      if k < |lines| {
        assert all[..k] == lines[..k];
      } else {
        assert all[..k] == lines;
      }
    }
  }

  /** The starts after reading the first i characters, the next start included once it is certain. */
  ghost function StartsUpTo(c: string, i: nat): seq<nat>
    requires i <= |c|
  {
    Offsets(Lines(c[..i])) + if (i == 0 || c[i - 1] == '\n') && i < |c| then [i] else []
  }

  lemma NextLineStarts(p: string, ch: char)
    requires p == "" || Terminated(p)
    ensures Offsets(Lines(p + [ch])) == Offsets(Lines(p)) + [|p|]
  {
    LinesSnoc(p, ch);
    JoinLines(p);
    OffsetsSnoc(Lines(p), [ch]);
  }

  lemma SameLineGrows(p: string, ch: char)
    requires p != "" && !Terminated(p)
    ensures Offsets(Lines(p + [ch])) == Offsets(Lines(p))
  {
    var L := Lines(p);
    var m := |L| - 1;
    LinesSnoc(p, ch);
    assert L == L[..m] + [L[m]];
    OffsetsSnoc(L[..m], L[m]);
    OffsetsSnoc(L[..m], L[m] + [ch]);
  }

  lemma StartsStep(c: string, i: nat)
    requires i < |c|
    ensures StartsUpTo(c, i + 1) == StartsUpTo(c, i) + if c[i] == '\n' && i + 1 < |c| then [i + 1] else []
  {
    var p := c[..i];
    assert c[..i + 1] == p + [c[i]];
    if i == 0 || c[i - 1] == '\n' {
      NextLineStarts(p, c[i]);
    } else {
      SameLineGrows(p, c[i]);
    }
  }

  method LineStarts(content: string) returns (starts: seq<nat>)
    requires content != ""
    ensures starts == Offsets(Lines(content))
  {
    starts := [0];
    assert Lines(content[..0]) == [];
    for i := 0 to |content|
      invariant starts == StartsUpTo(content, i)
    {
      StartsStep(content, i);
      if content[i] == '\n' && i + 1 < |content| {
        starts := starts + [i + 1];
      }
    }
    assert content[..|content|] == content;
  }

  function CountNewlines(c: string): nat {
    if c == "" then 0 else CountNewlines(c[..|c| - 1]) + if c[|c| - 1] == '\n' then 1 else 0
  }

  function TextLineCount(content: string): nat {
    if content == "" then 0
    else CountNewlines(content) + if Terminated(content) then 0 else 1
  }

  /** The line count shown to clients is the count that line ranges are checked against. */
  lemma {:induction false} TextLineCountIsLines(c: string)
    ensures TextLineCount(c) == |Lines(c)|
  {
    if c != "" {
      var p := c[..|c| - 1];
      assert c == p + [c[|c| - 1]];
      TextLineCountIsLines(p);
      LinesSnoc(p, c[|c| - 1]);
      if p != "" {
        assert Lines(p) != [];
      }
    }
  }

  // ---- Replacing a line range ------------------------------------------------------

  /** The newline a replacement is given so that it stays whole lines. */
  function Normalised(text: string, closed: bool): string {
    if text != "" && closed && !Terminated(text) then text + "\n" else text
  }

  /** Lines start..end, counted from 1, replaced by text; or text added after the last line. */
  function ReplaceLines(c: string, start: int, end: int, text: string): Result<string> {
    var L := Lines(c);
    if start <= 0 || end < start then Err(InvalidRange)
    else if c == "" then Err(EmptyFile)
    else if start == |L| + 1 then
      Ok(if text == "" then c else c + (if Terminated(c) then "" else "\n") + Normalised(text, Terminated(c)))
    else if end > |L| then Err(BeyondLastLine)
    else Ok(Join(L[..start - 1]) + Normalised(text, end < |L| || Terminated(c)) + Join(L[end..]))
  }

  method ReplaceLineRange(content: string, startLine: int, endLine: int, text: string) returns (r: Result<string>)
    ensures r == ReplaceLines(content, startLine, endLine, text)
  {
    if startLine <= 0 || endLine < startLine {
      return Err(InvalidRange);
    }
    if content == "" {
      return Err(EmptyFile);
    }
    var replacement := text;
    var starts := LineStarts(content);
    var lineCount := |starts|;
    if startLine == lineCount + 1 {
      if replacement == "" {
        return Ok(content);
      }
      var separator := "";
      if content != "" && !Terminated(content) {
        separator := "\n";
      }
      if Terminated(content) && !Terminated(replacement) {
        replacement := replacement + "\n";
      }
      return Ok(content + separator + replacement);
    }
    if endLine > |starts| {
      return Err(BeyondLastLine);
    }
    var startOffset := starts[startLine - 1];
    var endOffset := |content|;
    if endLine < |starts| {
      endOffset := starts[endLine];
    }
    PrefixText(content, startLine - 1);
    PrefixText(content, endLine);
    if replacement != "" && endOffset < |content| && !Terminated(replacement) {
      replacement := replacement + "\n";
    }
    if replacement != "" && endOffset == |content| && Terminated(content) && !Terminated(replacement) {
      replacement := replacement + "\n";
    }
    r := Ok(content[..startOffset] + replacement + content[endOffset..]);
  }

  /** The text itself, followed by a newline exactly if it is not empty, does not end in one
      and has to be closed. */
  predicate IsClosed(piece: string, text: string, closed: bool) {
    piece == text + if text != "" && text[|text| - 1] != '\n' && closed then "\n" else ""
  }

  lemma NormalisedText(text: string, closed: bool)
    ensures IsClosed(Normalised(text, closed), text, closed)
  {
  }

  /** What an edit yields, case by case: the text between the lines around the range, closed
      where it is followed by something or the file was closed; after the last line the text
      on a line of its own; and the three refusals. */
  lemma ReplaceOutcome(c: string, start: int, end: int, text: string)
    ensures var (L, r) := (Lines(c), ReplaceLines(c, start, end, text));
            && (start <= 0 || end < start ==> r == Err(InvalidRange))
            && (1 <= start <= end && c == "" ==> r == Err(EmptyFile))
            && (1 <= start <= end && c != "" && end > |L| && start != |L| + 1 ==> r == Err(BeyondLastLine))
            && (1 <= start <= end <= |L| ==>
                  r == Ok(Join(L[..start - 1]) + text
                          + (if text != "" && text[|text| - 1] != '\n' && (end < |L| || c[|c| - 1] == '\n') then "\n" else "")
                          + Join(L[end..])))
            && (start == |L| + 1 <= end && c != "" && text == "" ==> r == Ok(c))
            && (start == |L| + 1 <= end && c != "" && text != "" && c[|c| - 1] != '\n' ==> r == Ok(c + "\n" + text))
            && (start == |L| + 1 <= end && c != "" && text != "" && c[|c| - 1] == '\n' ==>
                  r == Ok(c + text + if text[|text| - 1] != '\n' then "\n" else ""))
  {
    if 1 <= start <= end <= |Lines(c)| {
      InRangeOutcome(c, start, end, text);
    } else if start == |Lines(c)| + 1 <= end && c != "" {
      AppendOutcome(c, start, end, text);
    }
  }

  lemma AppendOutcome(c: string, start: int, end: int, text: string)
    requires start == |Lines(c)| + 1 <= end && c != ""
    ensures var r := ReplaceLines(c, start, end, text);
            && (text == "" ==> r == Ok(c))
            && (text != "" && c[|c| - 1] != '\n' ==> r == Ok(c + "\n" + text))
            && (text != "" && c[|c| - 1] == '\n' ==> r == Ok(c + text + if text[|text| - 1] != '\n' then "\n" else ""))
  {
    NormalisedText(text, Terminated(c));
    assert text + "" == text && c + "" == c;
    ConcatAssociative(c, text, if text != "" && text[|text| - 1] != '\n' then "\n" else "");
  }

  lemma InRangeOutcome(c: string, start: int, end: int, text: string)
    requires 1 <= start <= end <= |Lines(c)|
    ensures var L := Lines(c);
            ReplaceLines(c, start, end, text)
              == Ok(Join(L[..start - 1]) + text
                    + (if text != "" && text[|text| - 1] != '\n' && (end < |L| || c[|c| - 1] == '\n') then "\n" else "")
                    + Join(L[end..]))
  {
    var L := Lines(c);
    NormalisedText(text, end < |L| || Terminated(c));
    ConcatAssociative(Join(L[..start - 1]), text,
                      if text != "" && text[|text| - 1] != '\n' && (end < |L| || Terminated(c)) then "\n" else "");
  }

  /** Lines outside the range are untouched, and the replacement stands between them. */
  lemma OtherLinesUntouched(c: string, start: int, end: int, text: string)
    requires 1 <= start <= end <= |Lines(c)|
    ensures var L := Lines(c);
            var r := ReplaceLines(c, start, end, text);
            r.Ok? && Lines(r.value) == L[..start - 1] + Lines(Normalised(text, end < |L| || Terminated(c))) + L[end..]
  {
    var L := Lines(c);
    var t := Normalised(text, end < |L| || Terminated(c));
    PrefixComplete(c, start - 1);
    LinesOfPrefix(c, start - 1);
    SuffixLines(c, end);
    assert end == |L| ==> L[end..] == [];
    LinesOfThree(Join(L[..start - 1]), t, Join(L[end..]));
  }

  lemma LinesOfThree(a: string, t: string, b: string)
    requires (a == "" || Terminated(a)) && (t == "" || Terminated(t) || b == "")
    ensures Lines(a + t + b) == Lines(a) + Lines(t) + Lines(b)
  {
    LinesConcat(t, b);
    LinesConcat(a, t + b);
    ConcatAssociative(a, t, b);
    ConcatAssociative(Lines(a), Lines(t), Lines(b));
  }

  // ---- Matches ---------------------------------------------------------------------

  predicate IsMatch(c: string, find: string, p: nat) {
    p + |find| <= |c| && forall i :: 0 <= i < |find| ==> c[p + i] == find[i]
  }

  /** strings.Index on the text from an offset on, as an absolute position. */
  function Index(c: string, find: string, from: nat): (r: Option<nat>)
    ensures r.Some? ==> from <= r.value && r.value + |find| <= |c|
    decreases |c| - from
  {
    if from + |find| > |c| then None
    else if IsMatch(c, find, from) then Some(from)
    else if from == |c| then None
    else Index(c, find, from + 1)
  }

  lemma {:induction false} IndexIsFirst(c: string, find: string, from: nat)
    ensures var r := Index(c, find, from);
            && (r.Some? ==> IsMatch(c, find, r.value))
            && forall p :: from <= p && (r.Some? ==> p < r.value) ==> !IsMatch(c, find, p)
    decreases |c| - from
  {
    if from + |find| <= |c| && !IsMatch(c, find, from) && from < |c| {
      IndexIsFirst(c, find, from + 1);
    }
  }

  /** The leftmost non-overlapping matches; their number is strings.Count. */
  function Matches(c: string, find: string, from: nat): (r: seq<nat>)
    requires find != ""
    ensures forall k :: 0 <= k < |r| ==> from <= r[k] && r[k] + |find| <= |c|
    decreases |c| - from
  {
    match Index(c, find, from)
    case None => []
    case Some(p) => [p] + Matches(c, find, p + |find|)
  }

  /** Where the search for the k-th match (counted from 0) starts. */
  function SearchFrom(c: string, find: string, from: nat, k: nat): nat
    requires find != "" && k <= |Matches(c, find, from)|
  {
    if k == 0 then from else Matches(c, find, from)[k - 1] + |find|
  }

  /** The first match after the k-th is the next of the leftmost matches. */
  lemma {:induction false} NextMatch(c: string, find: string, from: nat, k: nat)
    requires find != "" && k <= |Matches(c, find, from)|
    ensures var M := Matches(c, find, from);
            Index(c, find, SearchFrom(c, find, from, k)) == if k < |M| then Some(M[k]) else None
    decreases k
  {
    if k > 0 {
      var next := Matches(c, find, from)[0] + |find|;
      TailMatches(c, find, from, k);
      NextMatch(c, find, next, k - 1);
    }
  }

  /** The matches after the first are those found from its end on. */
  lemma TailMatches(c: string, find: string, from: nat, k: nat)
    requires find != "" && 0 < k <= |Matches(c, find, from)|
    ensures var M := Matches(c, find, from);
            var next := M[0] + |find|;
            && |Matches(c, find, next)| == |M| - 1
            && SearchFrom(c, find, from, k) == SearchFrom(c, find, next, k - 1)
            && (k < |M| ==> M[k] == Matches(c, find, next)[k - 1])
  {
    var M := Matches(c, find, from);
    assert M == [M[0]] + Matches(c, find, M[0] + |find|);
  }

  /** Every match is the leftmost one after its predecessor, and none follows the last. */
  lemma MatchesAreLeftmost(c: string, find: string, k: nat)
    requires find != "" && k <= |Matches(c, find, 0)|
    ensures var M := Matches(c, find, 0);
            var low := SearchFrom(c, find, 0, k);
            && (k < |M| ==> low <= M[k] && IsMatch(c, find, M[k]))
            && forall p :: low <= p && (k < |M| ==> p < M[k]) ==> !IsMatch(c, find, p)
  {
    NextMatch(c, find, 0, k);
    IndexIsFirst(c, find, SearchFrom(c, find, 0, k));
  }

  function LineNumber(c: string, p: nat): nat
    requires p <= |c|
  {
    CountNewlines(c[..p]) + 1
  }

  /** The line numbers of the first n matches. */
  function LineNumbers(c: string, find: string, n: nat): (r: seq<nat>)
    requires find != "" && n <= |Matches(c, find, 0)|
    ensures |r| == n
  {
    seq(n, k requires 0 <= k < n => LineNumber(c, Matches(c, find, 0)[k]))
  }

  function FirstLineNumbers(c: string, find: string, limit: int): seq<nat> {
    if find == "" || limit <= 0 then []
    else LineNumbers(c, find, Min(limit, |Matches(c, find, 0)|))
  }

  lemma {:induction false} LineNumberGrows(c: string, p: nat, q: nat)
    requires p <= q <= |c|
    ensures LineNumber(c, p) <= LineNumber(c, q)
    decreases q - p
  {
    if p < q {
      LineNumberGrows(c, p, q - 1);
      assert c[..q][..q - 1] == c[..q - 1];
    }
  }

  predicate Ascending(lines: seq<nat>) {
    forall i, j :: 0 <= i < j < |lines| ==> lines[i] <= lines[j]
  }

  /** Later matches are reported with the same or a later line. */
  lemma LinesAscend(c: string, find: string, limit: int)
    ensures Ascending(FirstLineNumbers(c, find, limit))
  {
    var lines := FirstLineNumbers(c, find, limit);
    forall i, j | 0 <= i < j < |lines| ensures lines[i] <= lines[j] {
      MatchesSpaced(c, find, i, j);
      LineNumberGrows(c, Matches(c, find, 0)[i], Matches(c, find, 0)[j]);
    }
  }

  method FindMatchLines(content: string, find: string, limit: int) returns (lines: seq<nat>)
    ensures lines == FirstLineNumbers(content, find, limit)
    ensures Ascending(lines)
  {
    LinesAscend(content, find, limit);
    if find == "" || limit <= 0 {
      return [];
    }
    ghost var M := Matches(content, find, 0);
    lines := [];
    var offset := 0;
    while offset <= |content| - |find| && |lines| < limit
      invariant |lines| <= |M| && |lines| <= limit
      invariant offset == SearchFrom(content, find, 0, |lines|)
      invariant lines == LineNumbers(content, find, |lines|)
      decreases |content| - offset
    {
      NextMatch(content, find, 0, |lines|);
      var index := Index(content, find, offset);
      if index == None {
        return;
      }
      lines := lines + [LineNumber(content, index.value)];
      offset := index.value + |find|;
    }
    if |lines| < limit {
      NextMatch(content, find, 0, |lines|);
    }
  }

  /** The text with its k-th match replaced; unchanged when there is no such match. */
  function ReplaceNth(c: string, find: string, replacement: string, k: int): string {
    if k <= 0 then c
    else if find == "" then replacement + c
    else if k > |Matches(c, find, 0)| then c
    else
      var M := Matches(c, find, 0);
      var p := M[k - 1];
      c[..p] + replacement + c[p + |find|..]
  }

  method ReplaceOccurrence(content: string, find: string, replacement: string, occurrence: int) returns (r: string)
    ensures r == ReplaceNth(content, find, replacement, occurrence)
  {
    if occurrence <= 0 {
      return content;
    }
    var offset := 0;
    for current := 1 to occurrence + 1
      invariant current <= occurrence
      invariant find == "" ==> offset == 0
      invariant find != "" ==> current - 1 <= |Matches(content, find, 0)|
      invariant find != "" ==> offset == SearchFrom(content, find, 0, current - 1)
    {
      SearchStep(content, find, replacement, offset, current);
      var index := Index(content, find, offset);
      if index == None {
        return content;
      }
      var absolute := index.value;
      if current == occurrence {
        return content[..absolute] + replacement + content[absolute + |find|..];
      }
      offset := absolute + |find|;
    }
    assert false;
    r := content;
  }

  /** The k-th of the leftmost matches, and nothing else, becomes the replacement; an empty
      text is found at the start, and a match that does not exist changes nothing. */
  lemma ReplacedMatch(c: string, find: string, replacement: string, k: int)
    ensures var r := ReplaceNth(c, find, replacement, k);
            && (k <= 0 ==> r == c) && (k > 0 && find == "" ==> r == replacement + c)
            && (find != "" && k > |Matches(c, find, 0)| ==> r == c)
            && (find != "" && 1 <= k <= |Matches(c, find, 0)| ==>
                  exists a, b :: c == a + find + b && r == a + replacement + b && |a| == Matches(c, find, 0)[k - 1])
  {
    if find != "" && 1 <= k <= |Matches(c, find, 0)| {
      var p := Matches(c, find, 0)[k - 1];
      MatchesAreLeftmost(c, find, k - 1);
      var a, b := c[..p], c[p + |find|..];
      assert c == a + find + b && ReplaceNth(c, find, replacement, k) == a + replacement + b && |a| == p;
    }
  }

  /** What one search of the loop finds, for an empty find text as well. */
  lemma SearchStep(c: string, find: string, replacement: string, offset: nat, current: nat)
    requires current > 0
    requires find == "" ==> offset == 0
    requires find != "" ==> current - 1 <= |Matches(c, find, 0)| && offset == SearchFrom(c, find, 0, current - 1)
    ensures var r := Index(c, find, offset);
            && (r.None? ==> find != "" && |Matches(c, find, 0)| == current - 1)
            && (r.Some? ==> ReplaceNth(c, find, replacement, current) == c[..r.value] + replacement + c[r.value + |find|..])
            && (r.Some? && find != "" ==> current <= |Matches(c, find, 0)| && r.value + |find| == SearchFrom(c, find, 0, current))
            && (find == "" ==> r == Some(0))
  {
    if find != "" {
      NextMatch(c, find, 0, current - 1);
    } else {
      assert c[0..] == c;
    }
  }

  /** Replacing the k-th match leaves the text before it and the earlier matches where they were. */
  lemma EarlierMatchesStay(c: string, find: string, replacement: string, k: nat, i: nat)
    requires find != "" && i + 1 < k <= |Matches(c, find, 0)|
    ensures var r := ReplaceNth(c, find, replacement, k);
            |Matches(r, find, 0)| > i && Matches(r, find, 0)[i] == Matches(c, find, 0)[i]
  {
    var r := ReplaceNth(c, find, replacement, k);
    var p := Matches(c, find, 0)[k - 1];
    assert c[..p] == r[..p];
    MatchesInSharedPrefix(c, r, find, p, k - 1, i);
  }

  /** Texts that agree before the k-th match have the earlier matches in common. */
  lemma {:induction false} MatchesInSharedPrefix(c: string, r: string, find: string, n: nat, k: nat, i: nat)
    requires find != "" && i < k < |Matches(c, find, 0)| && n == Matches(c, find, 0)[k]
    requires n <= |c| && n <= |r| && c[..n] == r[..n]
    ensures |Matches(r, find, 0)| > i && Matches(r, find, 0)[i] == Matches(c, find, 0)[i]
    decreases i
  {
    MatchesSpaced(c, find, i, k);
    if i > 0 {
      MatchesInSharedPrefix(c, r, find, n, k, i - 1);
    }
    SharedMatch(c, r, find, n, i);
  }

  /** Texts that agree up to the end of the j-th match have the same j-th match. */
  lemma SharedMatch(c: string, r: string, find: string, n: nat, j: nat)
    requires find != "" && j < |Matches(c, find, 0)| && j <= |Matches(r, find, 0)|
    requires SearchFrom(r, find, 0, j) == SearchFrom(c, find, 0, j)
    requires n <= |c| && n <= |r| && c[..n] == r[..n] && Matches(c, find, 0)[j] + |find| <= n
    ensures j < |Matches(r, find, 0)| && Matches(r, find, 0)[j] == Matches(c, find, 0)[j]
  {
    var p := Matches(c, find, 0)[j];
    MatchesAreLeftmost(c, find, j);
    MatchesAreLeftmost(r, find, j);
    SamePrefixMatch(c, r, find, n, p);
    var q := Matches(r, find, 0)[j];
    if q < p {
      SamePrefixMatch(r, c, find, n, q);
    }
  }

  lemma SamePrefixMatch(a: string, b: string, find: string, n: nat, p: nat)
    requires n <= |a| && n <= |b| && a[..n] == b[..n] && IsMatch(a, find, p) && p + |find| <= n
    ensures IsMatch(b, find, p)
  {
    forall i | 0 <= i < |find| ensures b[p + i] == find[i] {
      assert b[..n][p + i] == a[..n][p + i];
    }
  }

  /** Matches do not overlap. */
  lemma {:induction false} MatchesSpaced(c: string, find: string, i: nat, j: nat)
    requires find != "" && i < j < |Matches(c, find, 0)|
    ensures Matches(c, find, 0)[i] + |find| <= Matches(c, find, 0)[j]
    decreases j
  {
    MatchesAreLeftmost(c, find, j);
    if i < j - 1 {
      MatchesSpaced(c, find, i, j - 1);
    }
  }

  /** The reported line of a position is the line that an edit of that number replaces. */
  lemma LineNumberIsLine(c: string, p: nat)
    requires p < |c|
    ensures var k := LineNumber(c, p);
            k <= |Lines(c)| && |Join(Lines(c)[..k - 1])| <= p < |Join(Lines(c)[..k])|
  {
    var a, b := c[..p], c[p..];
    assert c == a + b;
    TextLineCountIsLines(a);
    if a == "" || Terminated(a) {
      NextLineBegins(a, b);
    } else {
      LineGoesOn(a, b);
    }
  }

  lemma NextLineBegins(a: string, b: string)
    requires b != "" && (a == "" || Terminated(a))
    ensures var m := |Lines(a)|;
            m < |Lines(a + b)| && |Join(Lines(a + b)[..m])| == |a| < |Join(Lines(a + b)[..m + 1])|
  {
    var m := |Lines(a)|;
    assert m < |Lines(a + b)| && Lines(a + b)[..m] == Lines(a) by {
      LinesConcat(a, b);
    }
    assert |Join(Lines(a))| == |a| by {
      JoinLines(a);
    }
    LineEndsAfter(a + b, m);
  }

  lemma LineGoesOn(a: string, b: string)
    requires b != "" && a != "" && !Terminated(a)
    ensures var m := |Lines(a)| - 1;
            0 <= m < |Lines(a + b)| && |Join(Lines(a + b)[..m])| <= |a| < |Join(Lines(a + b)[..m + 1])|
  {
    var m := |Lines(a)| - 1;
    LastLine(a);
    SplitGoesOn(a, b, Join(Lines(a)[..m]), Lines(a)[m]);
    LineEndsAfter(a + b, m);
  }

  lemma SplitGoesOn(a: string, b: string, q: string, last: string)
    requires b != "" && a == q + last && (q == "" || Terminated(q)) && forall i :: 0 <= i < |last| ==> last[i] != '\n'
    ensures var m := |Lines(q)|;
            && m < |Lines(a + b)| && Lines(a + b)[..m] == Lines(q) && |Lines(a + b)[m]| > |last|
            && |Join(Lines(q))| == |q|
  {
    ConcatAssociative(q, last, b);
    LinesConcat(q, last + b);
    LongFirstLine(last, b);
    JoinLines(q);
    var m := |Lines(q)|;
    assert (Lines(q) + Lines(last + b))[m] == Lines(last + b)[0];
  }

  lemma LongFirstLine(last: string, b: string)
    requires b != "" && forall i :: 0 <= i < |last| ==> last[i] != '\n'
    ensures Lines(last + b) != [] && |Lines(last + b)[0]| > |last|
  {
    var w := last + b;
    assert forall i :: 0 <= i < |last| ==> w[i] == last[i];
  }

  lemma LineEndsAfter(c: string, m: nat)
    requires m < |Lines(c)|
    ensures |Join(Lines(c)[..m + 1])| == |Join(Lines(c)[..m])| + |Lines(c)[m]|
    ensures Lines(c)[m] != ""
  {
    var L := Lines(c);
    LineShape(c, m);
    assert L[..m + 1] == L[..m] + [L[m]];
    JoinConcat(L[..m], [L[m]]);
    assert Join([L[m]]) == L[m];
  }
}
