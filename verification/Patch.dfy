// A batch of changes to workspace files: the order they are applied in, what
// happens to each file, and line edits as one simultaneous substitution.
module Patch {
  import opened Common
  import opened Strings
  import opened Workspace

  const MAX_CHANGES := 20
  const MAX_READ_BYTES := 256 * 1024
  const SHOWN_MATCHES := 8

  datatype Change = Change(path: string, find: string, replace: string, startLine: int, endLine: int, occurrence: int)

  /** What the patch builder sees of the disk: path strings inside the workspace
      with the relative path each resolves to, and the files under those paths. */
  datatype Root = Root(resolve: map<string, string>, files: map<string, File>)

  /** A file's text, and its size in bytes. */
  datatype File = File(text: string, size: nat)

  datatype Failure =
    | NoChanges
    | TooManyChanges
    | NothingModified
    | Rejected(change: nat, error: Error)

  datatype Outcome<+T> = Done(value: T) | Failed(failure: Failure)

  // ---- One change ------------------------------------------------------------------

  function LastLineOf(change: Change): int {
    if change.endLine == 0 then change.startLine else change.endLine
  }

  /** The text of a file after one change to it. */
  function ApplyChange(content: string, change: Change): Result<string>
    requires change.startLine > 0 || change.find != ""
  {
    if change.startLine > 0 then
      ReplaceLines(content, change.startLine, LastLineOf(change), change.replace)
    else
      var count := |Matches(content, change.find, 0)|;
      if count == 0 then Err(NoMatch)
      else if count > 1 && change.occurrence == 0 then
        Err(Ambiguous(FirstLineNumbers(content, change.find, SHOWN_MATCHES)))
      else if change.occurrence > count then Err(OccurrenceTooLarge)
      else Ok(ReplaceNth(content, change.find, change.replace, if change.occurrence == 0 then 1 else change.occurrence))
  }

  predicate Named(change: Change) {
    TrimSpace(change.path) != ""
  }

  predicate Complete(change: Change) {
    Named(change) && (change.startLine > 0 || change.find != "")
  }

  /** The file a change is about: its edited text if it was edited before, else its text on disk. */
  function Current(root: Root, updated: map<string, string>, change: Change): Result<(string, string)> {
    if !Complete(change) then Err(Incomplete)
    else if change.path !in root.resolve then Err(InvalidPath)
    else
      var rel := root.resolve[change.path];
      if rel in updated then Ok((rel, updated[rel]))
      else if rel !in root.files then Err(NotAFile)
      else if root.files[rel].size > MAX_READ_BYTES then Err(TooLarge)
      else Ok((rel, root.files[rel].text))
  }

  function Step(root: Root, updated: map<string, string>, change: Change): Result<map<string, string>> {
    match Current(root, updated, change)
    case Err(e) => Err(e)
    case Ok((rel, content)) =>
      match ApplyChange(content, change)
      case Err(e) => Err(e)
      case Ok(text) => Ok(updated[rel := text])
  }

  /** All changes in their order; the first that fails is reported by its position. */
  function Apply(root: Root, changes: seq<Change>): Outcome<map<string, string>> {
    if changes == [] then Done(map[])
    else
      var n := |changes| - 1;
      match Apply(root, changes[..n])
      case Failed(f) => Failed(f)
      case Done(updated) =>
        match Step(root, updated, changes[n])
        case Err(e) => Failed(Rejected(n + 1, e))
        case Ok(next) => Done(next)
  }

  // ---- Order -----------------------------------------------------------------------

  /** The sort's comparison: only line edits with the same path string are ordered. */
  predicate Before(a: Change, b: Change) {
    a.path == b.path && a.startLine > 0 && b.startLine > 0 && a.startLine > b.startLine
  }

  function Insert(sorted: seq<Change>, change: Change): seq<Change> {
    if sorted == [] || !Before(change, sorted[|sorted| - 1]) then sorted + [change]
    else Insert(sorted[..|sorted| - 1], change) + [sorted[|sorted| - 1]]
  }

  function Sorted(changes: seq<Change>): seq<Change> {
    if changes == [] then [] else Insert(Sorted(changes[..|changes| - 1]), changes[|changes| - 1])
  }

  lemma {:induction false} InsertKeeps(p: seq<Change>, x: Change)
    ensures multiset(Insert(p, x)) == multiset(p) + multiset{x}
  {
    if p != [] {
      var n := |p| - 1;
      assert p == p[..n] + [p[n]];
      InsertKeeps(p[..n], x);
    }
  }

  /** No change is lost or repeated by the sort, whatever it compares. */
  lemma {:induction false} SortedKeeps(changes: seq<Change>)
    ensures multiset(Sorted(changes)) == multiset(changes)
  {
    if changes != [] {
      var n := |changes| - 1;
      assert changes == changes[..n] + [changes[n]];
      SortedKeeps(changes[..n]);
      InsertKeeps(Sorted(changes[..n]), changes[n]);
    }
  }

  /** p with x put in at position j. */
  function With(p: seq<Change>, x: Change, j: nat): seq<Change>
    requires j <= |p|
  {
    p[..j] + [x] + p[j..]
  }

  /** A change goes after the last one it does not come before. */
  lemma {:induction false} InsertedAt(p: seq<Change>, x: Change, j: nat)
    requires j <= |p| && forall k :: j <= k < |p| ==> Before(x, p[k])
    requires j == 0 || !Before(x, p[j - 1])
    ensures Insert(p, x) == With(p, x, j)
  {
    if j < |p| {
      var n := |p| - 1;
      InsertedAt(p[..n], x, j);
      assert With(p, x, j) == With(p[..n], x, j) + [p[n]];
    }
  }

  /** sort.SliceStable on at most 20 elements is this insertion sort. */
  method SortStable(a: array<Change>)
    modifies a
    ensures a[..] == Sorted(old(a[..]))
  {
    ghost var was := a[..];
    var i := 0;
    assert was[..0] == [];
    while i < a.Length
      invariant 0 <= i <= a.Length
      invariant a[..i] == Sorted(was[..i])
      invariant forall k :: i <= k < a.Length ==> a[k] == was[k]
    {
      SinkInto(a, i);
      assert was[..i + 1][..i] == was[..i];
      i := i + 1;
    }
    assert was[..a.Length] == was;
  }

  method SinkInto(a: array<Change>, i: nat)
    requires i < a.Length
    modifies a
    ensures a[..i + 1] == Insert(old(a[..i]), old(a[i]))
    ensures forall k :: i < k < a.Length ==> a[k] == old(a[k])
  {
    ghost var p, x := a[..i], a[i];
    var j := i;
    assert a[..i + 1] == With(p, x, i);
    while j > 0 && Before(a[j], a[j - 1])
      invariant 0 <= j <= i
      invariant a[..i + 1] == With(p, x, j)
      invariant forall k :: i < k < a.Length ==> a[k] == old(a[k])
      invariant forall k :: j <= k < i ==> Before(x, p[k])
    {
      Looks(a[..i + 1], p, x, j);
      a[j], a[j - 1] := a[j - 1], a[j];
      j := j - 1;
    }
    Looks(a[..i + 1], p, x, j);
    InsertedAt(p, x, j);
  }

  lemma Looks(w: seq<Change>, p: seq<Change>, x: Change, j: nat)
    requires j <= |p| && w == With(p, x, j)
    ensures |w| == |p| + 1 && w[j] == x && (j > 0 ==> w[j - 1] == p[j - 1])
    ensures j > 0 ==> w[j := w[j - 1]][j - 1 := w[j]] == With(p, x, j - 1)
  {
  }

  // ---- The whole patch ---------------------------------------------------------------

  lemma {:induction false} AppliedToFiles(root: Root, changes: seq<Change>)
    ensures Apply(root, changes).Done? ==> Apply(root, changes).value.Keys <= root.files.Keys
  {
    if changes != [] {
      AppliedToFiles(root, changes[..|changes| - 1]);
    }
  }

  /** The texts on disk of the files that were edited. */
  function Originals(root: Root, updated: map<string, string>): map<string, string>
    requires updated.Keys <= root.files.Keys
  {
    map rel | rel in updated :: root.files[rel].text
  }

  lemma OriginalsGrow(root: Root, updated: map<string, string>, rel: string, text: string)
    requires updated.Keys <= root.files.Keys && rel in root.files
    ensures Originals(root, updated[rel := text]) == Originals(root, updated)[rel := root.files[rel].text]
  {
  }

  /** The files as they were and as they are after the changes; a patch that changes nothing is refused. */
  function Build(root: Root, changes: seq<Change>): Outcome<(map<string, string>, map<string, string>)> {
    if |changes| == 0 then Failed(NoChanges)
    else if |changes| > MAX_CHANGES then Failed(TooManyChanges)
    else
      match Apply(root, Sorted(changes))
      case Failed(f) => Failed(f)
      case Done(updated) =>
        AppliedToFiles(root, Sorted(changes));
        var original := Originals(root, updated);
        if updated == original then Failed(NothingModified) else Done((original, updated))
  }

  method BuildWorkspacePatch(root: Root, changes: seq<Change>)
    returns (r: Outcome<(map<string, string>, map<string, string>)>)
    ensures r == Build(root, changes)
  {
    if |changes| == 0 {
      return Failed(NoChanges);
    }
    if |changes| > MAX_CHANGES {
      return Failed(TooManyChanges);
    }
    var ordered := OrderedCopy(changes);
    var failure, original, updated := ApplyAll(root, ordered);
    if failure != None {
      return Failed(failure.value);
    }
    r := if updated == original then Failed(NothingModified) else Done((original, updated));
  }

  method OrderedCopy(changes: seq<Change>) returns (ordered: array<Change>)
    ensures fresh(ordered) && ordered[..] == Sorted(changes)
  {
    ordered := new Change[|changes|](i requires 0 <= i < |changes| => changes[i]);
    assert ordered[..] == changes;
    SortStable(ordered);
  }

  method ApplyAll(root: Root, ordered: array<Change>)
    returns (failure: Option<Failure>, original: map<string, string>, updated: map<string, string>)
    ensures failure.Some? ==> Apply(root, ordered[..]) == Failed(failure.value)
    ensures failure.None? ==> Apply(root, ordered[..]) == Done(updated)
    ensures failure.None? ==> updated.Keys <= root.files.Keys && original == Originals(root, updated)
  {
    failure, original, updated := None, map[], map[];
    ghost var sorted := ordered[..];
    assert sorted[..0] == [];
    for i := 0 to ordered.Length
      invariant Apply(root, sorted[..i]) == Done(updated)
      invariant updated.Keys <= root.files.Keys && original == Originals(root, updated)
    {
      assert sorted[..i + 1][..i] == sorted[..i];
      var next := ApplyOne(root, ordered[i], updated);
      if next.Err? {
        StopsAt(root, sorted, i + 1);
        failure := Some(Rejected(i + 1, next.error));
        return;
      }
      var (rel, text) := next.value;
      OriginalsGrow(root, updated, rel, text);
      original := original[rel := root.files[rel].text];
      updated := updated[rel := text];
    }
    assert sorted[..ordered.Length] == sorted;
  }

  lemma {:induction false} StopsAt(root: Root, changes: seq<Change>, i: nat)
    requires i <= |changes| && Apply(root, changes[..i]).Failed?
    ensures Apply(root, changes) == Apply(root, changes[..i])
  {
    if i < |changes| {
      assert changes[..|changes| - 1][..i] == changes[..i];
      StopsAt(root, changes[..|changes| - 1], i);
    } else {
      assert changes[..i] == changes;
    }
  }

  /** One turn of the loop over the changes: the file it edits and its new text. */
  method ApplyOne(root: Root, change: Change, updated: map<string, string>) returns (r: Result<(string, string)>)
    ensures r.Err? ==> Step(root, updated, change) == Err(r.error)
    ensures r.Ok? ==> Step(root, updated, change) == Ok(updated[r.value.0 := r.value.1])
    ensures r.Ok? ==> r.value.0 in updated || r.value.0 in root.files
  {
    if TrimSpace(change.path) == "" || (change.startLine <= 0 && change.find == "") {
      return Err(Incomplete);
    }
    if change.path !in root.resolve {
      return Err(InvalidPath);
    }
    var rel := root.resolve[change.path];
    var content: string;
    if rel in updated {
      content := updated[rel];
    } else {
      if rel !in root.files {
        return Err(NotAFile);
      }
      if root.files[rel].size > MAX_READ_BYTES {
        return Err(TooLarge);
      }
      content := root.files[rel].text;
    }
    if change.startLine > 0 {
      var endLine := change.endLine;
      if endLine == 0 {
        endLine := change.startLine;
      }
      var next := ReplaceLineRange(content, change.startLine, endLine, change.replace);
      if next.Err? {
        return Err(next.error);
      }
      return Ok((rel, next.value));
    }
    var matches := |Matches(content, change.find, 0)|;
    if matches == 0 {
      return Err(NoMatch);
    }
    if matches > 1 && change.occurrence == 0 {
      var lines := FindMatchLines(content, change.find, SHOWN_MATCHES);
      return Err(Ambiguous(lines));
    }
    var occurrence := change.occurrence;
    if occurrence == 0 {
      occurrence := 1;
    }
    if occurrence > matches {
      return Err(OccurrenceTooLarge);
    }
    var text := ReplaceOccurrence(content, change.find, change.replace, occurrence);
    r := Ok((rel, text));
  }

  // ---- What is refused, and what a text edit does --------------------------------------

  /** A refused batch names the first change that could not be made to what those before it
      had left, and why: it names no file, or nothing to find and no line; its path leads
      out of the workspace; the file is missing or too large; or its edit does not apply. */
  lemma {:induction false} RefusedAtFirst(root: Root, changes: seq<Change>) returns (k: nat, updated: map<string, string>)
    requires Apply(root, changes).Failed?
    ensures k < |changes| && Apply(root, changes[..k]) == Done(updated)
    ensures Step(root, updated, changes[k]).Err?
    ensures Apply(root, changes) == Failed(Rejected(k + 1, Step(root, updated, changes[k]).error))
  {
    var n := |changes| - 1;
    if Apply(root, changes[..n]).Failed? {
      k, updated := RefusedAtFirst(root, changes[..n]);
      assert changes[..n][..k] == changes[..k];
    } else {
      k, updated := n, Apply(root, changes[..n]).value;
    }
  }

  lemma ChangeOutcome(root: Root, updated: map<string, string>, e: Change)
    ensures var r := Step(root, updated, e);
            if (forall k :: 0 <= k < |e.path| ==> IsSpace(e.path[k])) || (e.startLine <= 0 && e.find == "") then r == Err(Incomplete)
            else if e.path !in root.resolve then r == Err(InvalidPath)
            else
              var rel := root.resolve[e.path];
              if rel !in updated && rel !in root.files then r == Err(NotAFile)
              else if rel !in updated && root.files[rel].size > 262144 then r == Err(TooLarge)
              else
                var text := ApplyChange(if rel in updated then updated[rel] else root.files[rel].text, e);
                if text.Err? then r == Err(text.error) else r == Ok(updated[rel := text.value])
  {
    TrimsToNothingIff(e.path);
  }

  /** An edit by text needs a match, and a unique one unless it says which; it replaces that
      one of the leftmost matches and nothing else. A negative occurrence changes nothing. */
  lemma TextEditOutcome(content: string, e: Change)
    requires e.startLine <= 0 && e.find != ""
    ensures var r, m := ApplyChange(content, e), Matches(content, e.find, 0);
            if m == [] then r == Err(NoMatch)
            else if |m| > 1 && e.occurrence == 0 then r == Err(Ambiguous(FirstLineNumbers(content, e.find, 8)))
            else if e.occurrence > |m| then r == Err(OccurrenceTooLarge)
            else if e.occurrence < 0 then r == Ok(content)
            else
              exists a, b :: content == a + e.find + b && r == Ok(a + e.replace + b)
                             && |a| == m[if e.occurrence == 0 then 0 else e.occurrence - 1]
  {
    ReplacedMatch(content, e.find, e.replace, if e.occurrence == 0 then 1 else e.occurrence);
  }

  /** A line edit with no last line is one of its first line alone. */
  lemma LineEditOutcome(content: string, e: Change)
    requires e.startLine > 0
    ensures ApplyChange(content, e)
            == ReplaceLines(content, e.startLine, if e.endLine == 0 then e.startLine else e.endLine, e.replace)
  {
  }

  // ---- Each file sees only its own changes ---------------------------------------------

  predicate Targets(root: Root, change: Change, rel: string) {
    change.path in root.resolve && root.resolve[change.path] == rel
  }

  function Own(root: Root, changes: seq<Change>, rel: string): seq<Change> {
    if changes == [] then []
    else
      var n := |changes| - 1;
      Own(root, changes[..n], rel) + if Targets(root, changes[n], rel) then [changes[n]] else []
  }

  /** Changes to one text, one after the other. */
  function Fold(content: string, changes: seq<Change>): Result<string> {
    if changes == [] then Ok(content)
    else
      var n := |changes| - 1;
      match Fold(content, changes[..n])
      case Err(e) => Err(e)
      case Ok(text) => if Complete(changes[n]) then ApplyChange(text, changes[n]) else Err(Incomplete)
  }

  /** A file's new text is its own changes applied to its text on disk, in their order. */
  lemma {:induction false} FilesAreIndependent(root: Root, changes: seq<Change>, rel: string)
    requires Apply(root, changes).Done?
    ensures var updated := Apply(root, changes).value;
            && (rel in updated <==> Own(root, changes, rel) != [])
            && (rel in updated ==> rel in root.files && Fold(root.files[rel].text, Own(root, changes, rel)) == Ok(updated[rel]))
  {
    if changes != [] {
      var n := |changes| - 1;
      FilesAreIndependent(root, changes[..n], rel);
      var own := Own(root, changes[..n], rel);
      if Targets(root, changes[n], rel) {
        assert (own + [changes[n]])[..|own|] == own;
      } else {
        assert own + [] == own;
      }
    }
  }

  // ---- Line edits as one substitution --------------------------------------------------

  predicate LineEdit(change: Change, n: nat) {
    1 <= change.startLine <= LastLineOf(change) <= n
  }

  predicate AllNamed(changes: seq<Change>) {
    forall e {:trigger Named(e)} :: e in changes ==> Named(e)
  }

  /** All edits name a file and lie within its n lines. */
  predicate InFile(changes: seq<Change>, n: nat) {
    AllNamed(changes) && forall e {:trigger LineEdit(e, n)} :: e in changes ==> LineEdit(e, n)
  }

  predicate Apart(a: Change, b: Change) {
    LastLineOf(a) < b.startLine || LastLineOf(b) < a.startLine
  }

  predicate Disjoint(changes: seq<Change>) {
    forall i, j {:trigger Apart(changes[i], changes[j])} :: 0 <= i < j < |changes| ==> Apart(changes[i], changes[j])
  }

  predicate Descending(changes: seq<Change>) {
    forall i, j :: 0 <= i < j < |changes| ==> LastLineOf(changes[j]) < changes[i].startLine
  }

  lemma {:induction false} InsertDescending(p: seq<Change>, x: Change, path: string, n: nat)
    requires LineEdit(x, n) && x.path == path && Descending(p)
    requires forall y :: y in p ==> LineEdit(y, n) && y.path == path && Apart(x, y)
    ensures Descending(Insert(p, x))
    ensures forall y :: y in Insert(p, x) <==> y in p || y == x
  {
    if p != [] {
      var m := |p| - 1;
      assert p == p[..m] + [p[m]];
      assert LineEdit(p[m], n) && Apart(x, p[m]);
      if Before(x, p[m]) {
        InsertDescending(p[..m], x, path, n);
        DescendingSnoc(Insert(p[..m], x), p[m]);
      } else {
        DescendingSnoc(p, x);
      }
    }
  }

  lemma DescendingSnoc(p: seq<Change>, x: Change)
    requires Descending(p) && forall y :: y in p ==> LastLineOf(x) < y.startLine
    ensures Descending(p + [x])
  {
  }

  /** Disjoint line edits of one path are put in strictly descending order. */
  lemma {:induction false} SortedDescending(changes: seq<Change>, path: string, n: nat)
    requires Disjoint(changes) && forall y :: y in changes ==> LineEdit(y, n) && y.path == path
    ensures Descending(Sorted(changes))
    ensures forall y :: y in Sorted(changes) <==> y in changes
  {
    if changes != [] {
      var m := |changes| - 1;
      assert changes == changes[..m] + [changes[m]];
      SortedDescending(changes[..m], path, n);
      forall y | y in changes[..m] ensures Apart(changes[m], y) {
        var k :| 0 <= k < m && changes[k] == y;
        assert Apart(changes[k], changes[m]);
      }
      InsertDescending(Sorted(changes[..m]), changes[m], path, n);
    }
  }

  predicate Covers(change: Change, line: int) {
    change.startLine <= line <= LastLineOf(change)
  }

  /** What becomes of line k + 1: an edit's text stands at its first line, closed by a
      newline if it is not empty, has none at its end and is followed by something; the
      edit's other lines vanish; and a line outside every edit stays. */
  predicate IsPiece(c: string, edits: seq<Change>, k: nat, piece: string)
    requires k < |Lines(c)|
  {
    && (forall e :: e in edits && e.startLine == k + 1 ==>
          IsClosed(piece, e.replace, LastLineOf(e) < |Lines(c)| || Terminated(c)))
    && (forall e :: e in edits && e.startLine < k + 1 <= LastLineOf(e) ==> piece == "")
    && ((forall e :: e in edits ==> !Covers(e, k + 1)) ==> piece == Lines(c)[k])
  }

  /** All lines replaced at once; the order of the edits does not matter. */
  predicate IsSubstitution(c: string, edits: seq<Change>, pieces: seq<string>) {
    |pieces| == |Lines(c)| && forall k :: 0 <= k < |pieces| ==> IsPiece(c, edits, k, pieces[k])
  }

  function Piece(c: string, edits: seq<Change>, k: nat): string
    requires k < |Lines(c)|
  {
    if edits == [] then Lines(c)[k]
    else if edits[0].startLine == k + 1 then Normalised(edits[0].replace, LastLineOf(edits[0]) < |Lines(c)| || Terminated(c))
    else if Covers(edits[0], k + 1) then ""
    else Piece(c, edits[1..], k)
  }

  lemma {:induction false} PieceOutside(c: string, edits: seq<Change>, k: nat)
    requires k < |Lines(c)| && forall e :: e in edits ==> !Covers(e, k + 1) && e.startLine <= LastLineOf(e)
    ensures Piece(c, edits, k) == Lines(c)[k]
  {
    if edits != [] {
      assert edits[0] in edits;
      PieceOutside(c, edits[1..], k);
    }
  }

  lemma {:induction false} PieceInside(c: string, edits: seq<Change>, k: nat, i: nat)
    requires k < |Lines(c)| && i < |edits| && Disjoint(edits) && Covers(edits[i], k + 1)
    requires forall e :: e in edits ==> e.startLine <= LastLineOf(e)
    ensures Piece(c, edits, k) == if edits[i].startLine == k + 1
              then Normalised(edits[i].replace, LastLineOf(edits[i]) < |Lines(c)| || Terminated(c)) else ""
  {
    if i > 0 {
      assert Apart(edits[0], edits[i]);
      assert edits[0] in edits;
      PieceInside(c, edits[1..], k, i - 1);
    }
  }

  function Pieces(c: string, edits: seq<Change>): seq<string> {
    seq(|Lines(c)|, k requires 0 <= k < |Lines(c)| => Piece(c, edits, k))
  }

  /** Disjoint edits do define a substitution. */
  lemma PiecesSubstitute(c: string, edits: seq<Change>)
    requires Disjoint(edits) && forall e :: e in edits ==> LineEdit(e, |Lines(c)|)
    ensures IsSubstitution(c, edits, Pieces(c, edits))
  {
    forall k | 0 <= k < |Lines(c)| ensures IsPiece(c, edits, k, Piece(c, edits, k)) {
      forall e | e in edits && Covers(e, k + 1)
        ensures Piece(c, edits, k) == if e.startLine == k + 1
                  then Normalised(e.replace, LastLineOf(e) < |Lines(c)| || Terminated(c)) else ""
      {
        var i :| 0 <= i < |edits| && edits[i] == e;
        PieceInside(c, edits, k, i);
      }
      forall e | e in edits && e.startLine == k + 1
        ensures IsClosed(Piece(c, edits, k), e.replace, LastLineOf(e) < |Lines(c)| || Terminated(c))
      {
        NormalisedText(e.replace, LastLineOf(e) < |Lines(c)| || Terminated(c));
      }
      if forall e :: e in edits ==> !Covers(e, k + 1) {
        PieceOutside(c, edits, k);
      }
    }
  }

  /** Editing lines that stand before an already edited tail edits the original lines. */
  lemma EditBeforeTail(c: string, k: nat, tail: string, start: int, end: int, text: string)
    requires 1 <= start <= end <= k <= |Lines(c)| && (k == |Lines(c)| ==> tail == "")
    ensures var L := Lines(c);
            ReplaceLines(Join(L[..k]) + tail, start, end, text)
              == Ok(Join(L[..start - 1]) + Normalised(text, end < |L| || Terminated(c)) + (Join(L[end..k]) + tail))
  {
    var L, T := Lines(c), Lines(tail);
    var now := Join(L[..k]) + tail;
    assert Lines(now) == L[..k] + T by {
      PrefixComplete(c, k);
      LinesOfPrefix(c, k);
      LinesConcat(Join(L[..k]), tail);
    }
    assert Join(L[end..k] + T) == Join(L[end..k]) + tail by {
      JoinConcat(L[end..k], T);
      JoinLines(tail);
    }
    SameClosing(c, k, tail, end);
    SpliceBeforeTail(now, L[..k], T, start, end, text);
    assert L[..k][..start - 1] == L[..start - 1] && L[..k][end..] == L[end..k];
  }

  lemma SpliceBeforeTail(now: string, head: seq<string>, T: seq<string>, start: int, end: int, text: string)
    requires Lines(now) == head + T && 1 <= start <= end <= |head|
    ensures ReplaceLines(now, start, end, text)
              == Ok(Join(head[..start - 1]) + Normalised(text, end < |head + T| || Terminated(now)) + Join(head[end..] + T))
  {
    var N := head + T;
    assert N[..start - 1] == head[..start - 1];
    assert N[end..] == head[end..] + T;
  }

  lemma SameClosing(c: string, k: nat, tail: string, end: int)
    requires 1 <= end <= k <= |Lines(c)| && (k == |Lines(c)| ==> tail == "")
    ensures (end < k + |Lines(tail)| || Terminated(Join(Lines(c)[..k]) + tail)) == (end < |Lines(c)| || Terminated(c))
  {
    var L := Lines(c);
    if k == |L| {
      assert L[..k] == L;
      JoinLines(c);
      assert Join(L) + tail == c;
    } else {
      PrefixComplete(c, k);
      if tail == "" {
        assert Join(L[..k]) + tail == Join(L[..k]);
      }
    }
  }

  /** The lines above this one are untouched by the first i edits of a descending list. */
  function Edge(c: string, s: seq<Change>, i: nat): int
    requires i <= |s|
  {
    if i == 0 then |Lines(c)| else s[i - 1].startLine - 1
  }

  /** The text after the first i edits: original lines up to the edge, substituted lines below. */
  function Partly(c: string, pieces: seq<string>, edge: nat): string
    requires edge <= |Lines(c)| == |pieces|
  {
    Join(Lines(c)[..edge]) + Join(pieces[edge..])
  }

  lemma {:induction false} JoinBlank(pieces: seq<string>)
    requires forall k :: 0 <= k < |pieces| ==> pieces[k] == ""
    ensures Join(pieces) == ""
  {
    if pieces != [] {
      JoinBlank(pieces[1..]);
    }
  }

  lemma EditBelowEdge(c: string, s: seq<Change>, i: nat)
    requires Descending(s) && (forall e :: e in s ==> LineEdit(e, |Lines(c)|)) && i < |s|
    ensures 1 <= s[i].startLine <= LastLineOf(s[i]) <= Edge(c, s, i) <= |Lines(c)|
  {
    assert s[i] in s;
    if i > 0 {
      assert s[i - 1] in s;
    }
  }

  /** No edit covers a line between an edit and the one applied before it. */
  lemma UncoveredGap(c: string, s: seq<Change>, i: nat, q: nat)
    requires Descending(s) && (forall e :: e in s ==> LineEdit(e, |Lines(c)|)) && i <= |s|
    requires (if i == |s| then 0 else LastLineOf(s[i])) <= q < Edge(c, s, i)
    ensures forall e :: e in s ==> !Covers(e, q + 1)
  {
    assert i < |s| ==> s[i] in s;
    assert i > 0 ==> s[i - 1] in s;
    forall j | 0 <= j < |s| ensures !Covers(s[j], q + 1) {
      if j + 1 < i {
        assert LastLineOf(s[i - 1]) < s[j].startLine;
      } else if i < j {
        assert LastLineOf(s[j]) < s[i].startLine;
      }
    }
  }

  /** Between two edits the substituted lines are one edit's text and untouched lines. */
  lemma PiecesOfEdit(c: string, s: seq<Change>, pieces: seq<string>, i: nat)
    requires Descending(s) && (forall e :: e in s ==> LineEdit(e, |Lines(c)|)) && i < |s|
    requires IsSubstitution(c, s, pieces)
    requires 1 <= s[i].startLine <= LastLineOf(s[i]) <= Edge(c, s, i) <= |Lines(c)|
    ensures var (a, b, k) := (s[i].startLine, LastLineOf(s[i]), Edge(c, s, i));
            && pieces[b..k] == Lines(c)[b..k]
            && pieces[a - 1] == Normalised(s[i].replace, b < |Lines(c)| || Terminated(c))
            && forall q :: a <= q < b ==> pieces[q] == ""
  {
    var (a, b, k) := (s[i].startLine, LastLineOf(s[i]), Edge(c, s, i));
    assert s[i] in s;
    forall q | b <= q < k ensures pieces[q] == Lines(c)[q] {
      UncoveredGap(c, s, i, q);
      assert IsPiece(c, s, q, pieces[q]);
    }
    assert IsPiece(c, s, a - 1, pieces[a - 1]);
    NormalisedText(s[i].replace, b < |Lines(c)| || Terminated(c));
    forall q | a <= q < b ensures pieces[q] == "" {
      assert IsPiece(c, s, q, pieces[q]);
    }
  }

  lemma JoinOfEdit(pieces: seq<string>, lines: seq<string>, text: string, a: int, b: int, k: int)
    requires 1 <= a <= b <= k <= |pieces| && pieces[b..k] == lines
    requires pieces[a - 1] == text && forall q :: a <= q < b ==> pieces[q] == ""
    ensures Join(pieces[a - 1..]) == text + (Join(lines) + Join(pieces[k..]))
  {
    JoinBlank(pieces[a..b]);
    assert pieces[a - 1..] == [text] + (pieces[a..b] + (lines + pieces[k..]));
    JoinConcat(lines, pieces[k..]);
    JoinConcat(pieces[a..b], lines + pieces[k..]);
    JoinConcat([text], pieces[a..b] + (lines + pieces[k..]));
    assert Join([text]) == text;
  }

  lemma OneMoreEdit(c: string, s: seq<Change>, pieces: seq<string>, i: nat)
    requires Descending(s) && (forall e :: e in s ==> LineEdit(e, |Lines(c)|)) && i < |s|
    requires IsSubstitution(c, s, pieces)
    requires 1 <= s[i].startLine <= LastLineOf(s[i]) <= Edge(c, s, i) <= |Lines(c)|
    ensures ApplyChange(Partly(c, pieces, Edge(c, s, i)), s[i]) == Ok(Partly(c, pieces, s[i].startLine - 1))
  {
    var k := Edge(c, s, i);
    PiecesOfEdit(c, s, pieces, i);
    EditYieldsPieces(c, pieces, s[i], k);
  }

  lemma EditYieldsPieces(c: string, pieces: seq<string>, e: Change, k: int)
    requires |pieces| == |Lines(c)| && 1 <= e.startLine <= LastLineOf(e) <= k <= |Lines(c)|
    requires pieces[LastLineOf(e)..k] == Lines(c)[LastLineOf(e)..k]
    requires pieces[e.startLine - 1] == Normalised(e.replace, LastLineOf(e) < |Lines(c)| || Terminated(c))
    requires forall q :: e.startLine <= q < LastLineOf(e) ==> pieces[q] == ""
    ensures ApplyChange(Partly(c, pieces, k), e) == Ok(Partly(c, pieces, e.startLine - 1))
  {
    var (a, b) := (e.startLine, LastLineOf(e));
    EditBeforeTail(c, k, Join(pieces[k..]), a, b, e.replace);
    JoinOfEdit(pieces, Lines(c)[b..k], pieces[a - 1], a, b, k);
    ConcatAssociative(Join(Lines(c)[..a - 1]), pieces[a - 1], Join(Lines(c)[b..k]) + Join(pieces[k..]));
  }

  lemma {:induction false} DescendingFold(c: string, s: seq<Change>, pieces: seq<string>, i: nat)
    requires Descending(s) && AllNamed(s) && forall e :: e in s ==> LineEdit(e, |Lines(c)|)
    requires IsSubstitution(c, s, pieces) && i <= |s|
    ensures 0 <= Edge(c, s, i) <= |pieces|
    ensures Fold(c, s[..i]) == Ok(Partly(c, pieces, Edge(c, s, i)))
  {
    if i == 0 {
      assert Partly(c, pieces, |pieces|) == c by {
        JoinLines(c);
        assert Lines(c)[..|pieces|] == Lines(c) && pieces[|pieces|..] == [];
      }
    } else {
      DescendingFold(c, s, pieces, i - 1);
      EditBelowEdge(c, s, i - 1);
      OneMoreEdit(c, s, pieces, i - 1);
      assert s[i - 1] in s && Named(s[i - 1]);
      FoldSnoc(c, s, i - 1);
    }
  }

  lemma FoldSnoc(c: string, s: seq<Change>, i: nat)
    requires i < |s| && Fold(c, s[..i]).Ok? && Complete(s[i])
    ensures Fold(c, s[..i + 1]) == ApplyChange(Fold(c, s[..i]).value, s[i])
  {
    assert s[..i + 1][..i] == s[..i];
  }

  lemma EdgeIsUntouched(c: string, s: seq<Change>, pieces: seq<string>)
    requires Descending(s) && s != [] && forall e :: e in s ==> LineEdit(e, |Lines(c)|)
    requires IsSubstitution(c, s, pieces)
    ensures 0 <= Edge(c, s, |s|) <= |pieces| && Partly(c, pieces, Edge(c, s, |s|)) == Join(pieces)
  {
    var k := Edge(c, s, |s|);
    assert s[|s| - 1] in s;
    forall q | 0 <= q < k ensures pieces[q] == Lines(c)[q] {
      UncoveredGap(c, s, |s|, q);
      assert IsPiece(c, s, q, pieces[q]);
    }
    assert Lines(c)[..k] == pieces[..k];
    assert pieces == pieces[..k] + pieces[k..];
    JoinConcat(pieces[..k], pieces[k..]);
  }

  lemma {:induction false} SingleFile(root: Root, changes: seq<Change>, rel: string)
    requires rel in root.files && root.files[rel].size <= MAX_READ_BYTES
    requires changes != [] && forall e :: e in changes ==> Targets(root, e, rel) && Complete(e)
    requires Fold(root.files[rel].text, changes).Ok?
    ensures Apply(root, changes) == Done(map[rel := Fold(root.files[rel].text, changes).value])
  {
    var n := |changes| - 1;
    assert changes[n] in changes;
    if n > 0 {
      SingleFile(root, changes[..n], rel);
      StepInFile(root, map[rel := Fold(root.files[rel].text, changes[..n]).value], changes[n], rel);
    } else {
      assert changes[..0] == [];
      StepInFile(root, map[], changes[n], rel);
    }
  }

  lemma StepInFile(root: Root, updated: map<string, string>, change: Change, rel: string)
    requires Complete(change) && Targets(root, change, rel) && rel in root.files && root.files[rel].size <= MAX_READ_BYTES
    requires updated.Keys <= {rel}
    ensures var text := ApplyChange(if rel in updated then updated[rel] else root.files[rel].text, change);
            text.Ok? ==> Step(root, updated, change) == Ok(map[rel := text.value])
  {
    var text := ApplyChange(if rel in updated then updated[rel] else root.files[rel].text, change);
    if text.Ok? {
      assert updated[rel := text.value] == map[rel := text.value];
    }
  }

  /** Line edits of the file rel of n lines, under whatever spellings of its path. */
  predicate EditsOf(root: Root, changes: seq<Change>, rel: string, n: nat) {
    AllNamed(changes) && forall e :: e in changes ==> LineEdit(e, n) && Targets(root, e, rel)
  }

  /** Edits that are applied in descending order are made as if all at once. */
  lemma DescendingIsSimultaneous(root: Root, s: seq<Change>, rel: string, pieces: seq<string>)
    requires rel in root.files && root.files[rel].size <= MAX_READ_BYTES && s != []
    requires EditsOf(root, s, rel, |Lines(root.files[rel].text)|) && Descending(s)
    requires IsSubstitution(root.files[rel].text, s, pieces)
    ensures Apply(root, s) == Done(map[rel := Join(pieces)])
  {
    var c := root.files[rel].text;
    DescendingFold(c, s, pieces, |s|);
    EdgeIsUntouched(c, s, pieces);
    assert s[..|s|] == s;
    SingleFile(root, s, rel);
  }

  /** Disjoint line edits of one path are all made against the line numbers of the
      file on disk: the result is the simultaneous substitution, in whatever order
      the edits were listed. */
  lemma LineEditsAreSimultaneous(root: Root, changes: seq<Change>, path: string, pieces: seq<string>)
    requires TrimSpace(path) != "" && path in root.resolve && root.resolve[path] in root.files
    requires var c := root.files[root.resolve[path]].text;
             && root.files[root.resolve[path]].size <= MAX_READ_BYTES
             && (forall e :: e in changes ==> LineEdit(e, |Lines(c)|) && e.path == path)
             && IsSubstitution(c, changes, pieces)
    requires changes != [] && Disjoint(changes)
    ensures Apply(root, Sorted(changes)) == Done(map[root.resolve[path] := Join(pieces)])
  {
    var c := root.files[root.resolve[path]].text;
    var s := Sorted(changes);
    SortedDescending(changes, path, |Lines(c)|);
    assert changes[0] in s;
    SameSubstitution(c, changes, s, pieces);
    DescendingIsSimultaneous(root, s, root.resolve[path], pieces);
  }

  lemma SameSubstitution(c: string, a: seq<Change>, b: seq<Change>, pieces: seq<string>)
    requires IsSubstitution(c, a, pieces) && SameMembers(a, b)
    ensures IsSubstitution(c, b, pieces)
  {
    forall k | 0 <= k < |pieces| ensures IsPiece(c, b, k, pieces[k]) {
      assert IsPiece(c, a, k, pieces[k]);
    }
  }

  /** The patch such a batch produces, and the refusal when it changes nothing. */
  lemma BatchPatch(root: Root, changes: seq<Change>, path: string, pieces: seq<string>)
    requires TrimSpace(path) != "" && path in root.resolve && root.resolve[path] in root.files
    requires var c := root.files[root.resolve[path]].text;
             && root.files[root.resolve[path]].size <= MAX_READ_BYTES
             && (forall e :: e in changes ==> LineEdit(e, |Lines(c)|) && e.path == path)
             && IsSubstitution(c, changes, pieces)
    requires 0 < |changes| <= MAX_CHANGES && Disjoint(changes)
    ensures var rel := root.resolve[path];
            var c := root.files[rel].text;
            Build(root, changes) == if Join(pieces) == c then Failed(NothingModified)
                                    else Done((map[rel := c], map[rel := Join(pieces)]))
  {
    LineEditsAreSimultaneous(root, changes, path, pieces);
    OneFile(root, Sorted(changes), root.resolve[path], Join(pieces));
  }

  lemma OneFile(root: Root, sorted: seq<Change>, rel: string, text: string)
    requires Apply(root, sorted) == Done(map[rel := text]) && rel in root.files
    ensures Originals(root, map[rel := text]) == map[rel := root.files[rel].text]
    ensures map[rel := text] == map[rel := root.files[rel].text] <==> text == root.files[rel].text
  {
    assert map[rel := text][rel] == text;
  }

  // ---- Which order the sort gives -------------------------------------------------------

  /** Both are line edits of one path string, and a is the lower one. */
  predicate Overtook(a: Change, b: Change) {
    a.path == b.path && a.startLine > b.startLine > 0
  }

  /** at names the listed position of each sorted change; only a line edit that stands below
      another edit of the same path string has overtaken it. */
  ghost predicate IsOrder(changes: seq<Change>, sorted: seq<Change>, at: seq<nat>) {
    && |at| == |sorted| == |changes|
    && (forall k :: 0 <= k < |at| ==> at[k] < |changes| && sorted[k] == changes[at[k]])
    && (forall k, l :: 0 <= k < l < |at| ==> at[k] != at[l])
    && (forall k, l :: 0 <= k < l < |at| && at[l] < at[k] ==> Overtook(changes[at[k]], changes[at[l]]))
  }

  lemma {:induction false} PlaceFor(p: seq<Change>, x: Change) returns (j: nat)
    ensures j <= |p| && (forall k :: j <= k < |p| ==> Before(x, p[k])) && (j == 0 || !Before(x, p[j - 1]))
  {
    j := |p|;
    while j > 0 && Before(x, p[j - 1])
      invariant j <= |p| && forall k :: j <= k < |p| ==> Before(x, p[k])
    {
      j := j - 1;
    }
  }

  /** at with n put in at position j. */
  function PutAt(at: seq<nat>, n: nat, j: nat): (r: seq<nat>)
    requires j <= |at|
    ensures |r| == |at| + 1
    ensures forall k :: 0 <= k < |r| ==> r[k] == if k < j then at[k] else if k == j then n else at[k - 1]
  {
    at[..j] + [n] + at[j..]
  }

  lemma InsertNames(changes: seq<Change>, sorted: seq<Change>, at: seq<nat>, x: Change, j: nat)
    requires IsOrder(changes, sorted, at) && j <= |sorted|
    ensures var r := PutAt(at, |changes|, j);
            forall k :: 0 <= k < |r| ==> r[k] <= |changes| && With(sorted, x, j)[k] == (changes + [x])[r[k]]
  {
  }

  lemma InsertOrder(changes: seq<Change>, sorted: seq<Change>, at: seq<nat>, x: Change, j: nat)
    requires IsOrder(changes, sorted, at) && j <= |sorted| && forall k :: j <= k < |sorted| ==> Before(x, sorted[k])
    ensures IsOrder(changes + [x], With(sorted, x, j), PutAt(at, |changes|, j))
  {
    var r := PutAt(at, |changes|, j);
    InsertNames(changes, sorted, at, x, j);
    forall k, l | 0 <= k < l < |r| ensures r[k] != r[l] && (r[l] < r[k] ==> Overtook((changes + [x])[r[k]], (changes + [x])[r[l]])) {
      var p, q := if k < j then k else k - 1, if l < j then l else l - 1;
      if k != j && l != j {
        assert at[p] != at[q] && (at[q] < at[p] ==> Overtook(changes[at[p]], changes[at[q]]));
      } else if k == j {
        assert sorted[q] == changes[at[q]] && Before(x, sorted[q]);
      }
    }
  }

  lemma OneMoreInOrder(changes: seq<Change>, sorted: seq<Change>, before: seq<nat>, x: Change) returns (at: seq<nat>)
    requires IsOrder(changes, sorted, before)
    ensures IsOrder(changes + [x], Insert(sorted, x), at)
  {
    var j := PlaceFor(sorted, x);
    InsertedAt(sorted, x, j);
    InsertOrder(changes, sorted, before, x, j);
    at := PutAt(before, |changes|, j);
  }

  /** The sort loses no change and moves none past another but a line edit past one of the
      same path string further up. Changes of different path strings, though they may name
      one file, stay in the order they were listed. */
  lemma {:induction false} OtherPathsStayInPlace(changes: seq<Change>) returns (at: seq<nat>)
    ensures IsOrder(changes, Sorted(changes), at)
    ensures forall k, l :: 0 <= k < l < |at| && changes[at[k]].path != changes[at[l]].path ==> at[k] < at[l]
  {
    if changes == [] {
      at := [];
    } else {
      var n := |changes| - 1;
      var before := OtherPathsStayInPlace(changes[..n]);
      assert changes[..n] + [changes[n]] == changes;
      at := OneMoreInOrder(changes[..n], Sorted(changes[..n]), before, changes[n]);
    }
  }

  // ---- When line edits of one file are simultaneous ---------------------------------------

  /** The same edits with other texts. */
  function Rewritten(changes: seq<Change>, texts: Change -> string): (r: seq<Change>)
    ensures |r| == |changes| && forall k :: 0 <= k < |r| ==> r[k] == changes[k].(replace := texts(changes[k]))
  {
    seq(|changes|, k requires 0 <= k < |changes| => changes[k].(replace := texts(changes[k])))
  }

  lemma {:induction false} InsertRewritten(p: seq<Change>, x: Change, texts: Change -> string)
    ensures Insert(Rewritten(p, texts), x.(replace := texts(x))) == Rewritten(Insert(p, x), texts)
  {
    if p != [] {
      var n := |p| - 1;
      assert Rewritten(p, texts)[..n] == Rewritten(p[..n], texts);
      InsertRewritten(p[..n], x, texts);
    }
  }

  /** The sort does not look at the texts. */
  lemma {:induction false} SortedRewritten(changes: seq<Change>, texts: Change -> string)
    ensures Sorted(Rewritten(changes, texts)) == Rewritten(Sorted(changes), texts)
  {
    if changes != [] {
      var n := |changes| - 1;
      assert Rewritten(changes, texts)[..n] == Rewritten(changes[..n], texts);
      SortedRewritten(changes[..n], texts);
      InsertRewritten(Sorted(changes[..n]), changes[n], texts);
    }
  }

  lemma InSorted(changes: seq<Change>)
    ensures |Sorted(changes)| == |changes| && forall e :: e in Sorted(changes) <==> e in changes
  {
    SortedKeeps(changes);
    assert |multiset(changes)| == |changes| && |multiset(Sorted(changes))| == |Sorted(changes)|;
    assert forall e :: e in Sorted(changes) <==> e in multiset(Sorted(changes));
    assert forall e :: e in changes <==> e in multiset(changes);
  }

  lemma RewrittenEdits(root: Root, changes: seq<Change>, rel: string, n: nat, texts: Change -> string)
    requires EditsOf(root, changes, rel, n)
    ensures EditsOf(root, Rewritten(changes, texts), rel, n)
  {
    forall e | e in Rewritten(changes, texts) ensures LineEdit(e, n) && Targets(root, e, rel) && Named(e) {
      var k :| 0 <= k < |changes| && Rewritten(changes, texts)[k] == e;
      assert changes[k] in changes && Named(changes[k]);
    }
  }

  /** Whatever the texts are, the batch is the simultaneous substitution. */
  ghost predicate Substitutes(root: Root, changes: seq<Change>, rel: string)
    requires rel in root.files
  {
    forall texts: Change -> string ::
      Apply(root, Sorted(Rewritten(changes, texts)))
        == Done(map[rel := Join(Pieces(root.files[rel].text, Rewritten(changes, texts)))])
  }

  lemma RewrittenSubstitution(c: string, changes: seq<Change>, texts: Change -> string)
    requires Disjoint(changes) && forall e :: e in changes ==> LineEdit(e, |Lines(c)|)
    ensures var edits := Rewritten(changes, texts);
            IsSubstitution(c, edits, Pieces(c, edits)) && IsSubstitution(c, Sorted(edits), Pieces(c, edits))
  {
    var edits := Rewritten(changes, texts);
    forall e | e in edits ensures LineEdit(e, |Lines(c)|) {
      var k :| 0 <= k < |edits| && edits[k] == e;
      assert changes[k] in changes;
    }
    forall i, j | 0 <= i < j < |edits| ensures Apart(edits[i], edits[j]) {
      assert Apart(changes[i], changes[j]);
    }
    PiecesSubstitute(c, edits);
    InSorted(edits);
    SameSubstitution(c, edits, Sorted(edits), Pieces(c, edits));
  }

  lemma SortedEdits(root: Root, changes: seq<Change>, rel: string, n: nat, texts: Change -> string)
    requires EditsOf(root, changes, rel, n)
    ensures EditsOf(root, Sorted(Rewritten(changes, texts)), rel, n)
    ensures Descending(Sorted(changes)) ==> Descending(Sorted(Rewritten(changes, texts)))
  {
    RewrittenEdits(root, changes, rel, n, texts);
    InSorted(Rewritten(changes, texts));
    SortedRewritten(changes, texts);
  }

  /** If the sort puts them in descending order, they are, with any texts. */
  lemma DescendingSubstitutes(root: Root, changes: seq<Change>, rel: string, texts: Change -> string)
    requires rel in root.files && root.files[rel].size <= MAX_READ_BYTES && changes != [] && Disjoint(changes)
    requires EditsOf(root, changes, rel, |Lines(root.files[rel].text)|) && Descending(Sorted(changes))
    ensures Apply(root, Sorted(Rewritten(changes, texts)))
              == Done(map[rel := Join(Pieces(root.files[rel].text, Rewritten(changes, texts)))])
  {
    var c, edits := root.files[rel].text, Rewritten(changes, texts);
    InSorted(edits);
    SortedEdits(root, changes, rel, |Lines(c)|, texts);
    RewrittenSubstitution(c, changes, texts);
    DescendingIsSimultaneous(root, Sorted(edits), rel, Pieces(c, edits));
  }

  // Texts that show an edit made at the wrong line.

  function BlankLines(k: int): string {
    if k <= 0 then "" else ['\n'] + BlankLines(k - 1)
  }

  lemma BlankFirst(rest: string)
    requires rest == "" || Terminated(rest)
    ensures Lines(['\n'] + rest) == ["\n"] + Lines(rest) && Terminated(['\n'] + rest)
  {
    LinesCons(['\n'], rest);
  }

  lemma {:induction false} LinesOfBlank(k: int)
    requires k >= 0
    ensures |Lines(BlankLines(k))| == k && forall i :: 0 <= i < k ==> Lines(BlankLines(k))[i] == "\n"
    ensures k > 0 ==> Terminated(BlankLines(k))
  {
    if k > 0 {
      LinesOfBlank(k - 1);
      BlankFirst(BlankLines(k - 1));
    }
  }

  function Span(change: Change): int {
    LastLineOf(change) - change.startLine + 1
  }

  /** x gets more blank lines than the file has lines, y a mark in front of blank lines, and
      every other edit blank lines. */
  function Revealing(x: Change, y: Change, n: nat): Change -> string {
    e => if e == x then BlankLines(n + 1) else if e == y then "m\n" + BlankLines(Span(e) - 1) else BlankLines(Span(e))
  }

  lemma LinesOfRevealing(x: Change, y: Change, n: nat, e: Change)
    requires LineEdit(e, n) && e != y
    ensures var text := Revealing(x, y, n)(e);
            && Terminated(text) && |Lines(text)| == (if e == x then n + 1 else Span(e))
            && (e == x ==> forall k :: 0 <= k <= n ==> Lines(text)[k] == "\n")
  {
    LinesOfBlank(if e == x then n + 1 else Span(e));
  }

  lemma LinesOfMark(x: Change, y: Change, n: nat)
    requires LineEdit(y, n) && x != y
    ensures var text := Revealing(x, y, n)(y);
            Terminated(text) && |Lines(text)| == Span(y) && Lines(text)[0] == "m\n"
  {
    var rest := BlankLines(Span(y) - 1);
    LinesOfBlank(Span(y) - 1);
    LinesCons("m\n", rest);
    assert Terminated("m\n" + rest);
  }

  /** An edit with a closed text of at least as many lines as it replaces. */
  predicate Grows(e: Change, n: nat) {
    LineEdit(e, n) && Terminated(e.replace) && |Lines(e.replace)| >= Span(e)
  }

  predicate AllGrow(s: seq<Change>, n: nat) {
    AllNamed(s) && forall k {:trigger Grows(s[k], n)} :: 0 <= k < |s| ==> Grows(s[k], n)
  }

  /** The edit keeps the number of lines and leaves this line alone. */
  predicate Elsewhere(e: Change, line: int) {
    |Lines(e.replace)| == Span(e) && !Covers(e, line)
  }

  // The lines of a text while such edits are applied.

  function Splice(lines: seq<string>, e: Change): seq<string>
    requires LineEdit(e, |lines|)
  {
    lines[..e.startLine - 1] + Lines(e.replace) + lines[LastLineOf(e)..]
  }

  lemma SpliceLines(lines: seq<string>, e: Change)
    requires LineEdit(e, |lines|)
    ensures var r, text := Splice(lines, e), Lines(e.replace);
            && |r| == |lines| - Span(e) + |text|
            && (forall k :: 0 <= k < |text| ==> r[e.startLine - 1 + k] == text[k])
            && (|text| == Span(e) ==> forall k :: 0 <= k < |lines| && !Covers(e, k + 1) ==> r[k] == lines[k])
  {
  }

  function SpliceAll(lines: seq<string>, s: seq<Change>, i: nat): seq<string>
    requires i <= |s|
  {
    if i == 0 then lines
    else
      var before := SpliceAll(lines, s, i - 1);
      if LineEdit(s[i - 1], |before|) then Splice(before, s[i - 1]) else before
  }

  lemma {:induction false} SpliceGrows(lines: seq<string>, s: seq<Change>, i: nat)
    requires AllGrow(s, |lines|) && i <= |s|
    ensures |SpliceAll(lines, s, i)| >= |lines|
  {
    if i > 0 {
      SpliceGrows(lines, s, i - 1);
      assert Grows(s[i - 1], |lines|);
      SpliceLines(SpliceAll(lines, s, i - 1), s[i - 1]);
    }
  }

  lemma ClosedEdit(t: string, e: Change)
    requires LineEdit(e, |Lines(t)|) && Terminated(e.replace)
    ensures ApplyChange(t, e).Ok? && Lines(ApplyChange(t, e).value) == Splice(Lines(t), e)
  {
    OtherLinesUntouched(t, e.startLine, LastLineOf(e), e.replace);
  }

  lemma SplicedFold(c: string, s: seq<Change>, i: nat)
    requires i < |s| && Terminated(s[i].replace) && Named(s[i])
    requires Fold(c, s[..i]).Ok? && LineEdit(s[i], |Lines(Fold(c, s[..i]).value)|)
    ensures Fold(c, s[..i + 1]).Ok?
    ensures Lines(Fold(c, s[..i + 1]).value) == Splice(Lines(Fold(c, s[..i]).value), s[i])
  {
    FoldSnoc(c, s, i);
    ClosedEdit(Fold(c, s[..i]).value, s[i]);
  }

  /** All these edits succeed, and the lines are spliced one after the other. */
  lemma {:induction false} FoldSplices(c: string, s: seq<Change>, i: nat)
    requires AllGrow(s, |Lines(c)|) && i <= |s|
    ensures Fold(c, s[..i]).Ok? && Lines(Fold(c, s[..i]).value) == SpliceAll(Lines(c), s, i)
  {
    if i > 0 {
      FoldSplices(c, s, i - 1);
      SpliceGrows(Lines(c), s, i - 1);
      assert Named(s[i - 1]) && Grows(s[i - 1], |Lines(c)|);
      SplicedFold(c, s, i - 1);
    }
  }

  /** Right after edit i, the lines of its text stand from its first line on. */
  lemma EditShows(lines: seq<string>, s: seq<Change>, i: nat, k: nat)
    requires AllGrow(s, |lines|) && i < |s| && k < |Lines(s[i].replace)|
    ensures 0 <= s[i].startLine - 1 + k < |SpliceAll(lines, s, i + 1)|
    ensures SpliceAll(lines, s, i + 1)[s[i].startLine - 1 + k] == Lines(s[i].replace)[k]
  {
    SpliceGrows(lines, s, i);
    assert Grows(s[i], |lines|);
    SpliceLines(SpliceAll(lines, s, i), s[i]);
  }

  /** Later edits elsewhere, with as many lines as they replace, leave a line alone. */
  lemma {:induction false} LineStays(lines: seq<string>, s: seq<Change>, i: nat, j: nat, line: int)
    requires AllGrow(s, |lines|) && i <= j <= |s| && 1 <= line <= |lines|
    requires forall k {:trigger Elsewhere(s[k], line)} :: i <= k < j ==> Elsewhere(s[k], line)
    ensures |SpliceAll(lines, s, i)| >= |lines| && |SpliceAll(lines, s, j)| >= |lines|
    ensures SpliceAll(lines, s, j)[line - 1] == SpliceAll(lines, s, i)[line - 1]
    decreases j - i
  {
    SpliceGrows(lines, s, i);
    SpliceGrows(lines, s, j);
    if i < j {
      LineStays(lines, s, i, j - 1, line);
      assert Grows(s[j - 1], |lines|) && Elsewhere(s[j - 1], line);
      SpliceLines(SpliceAll(lines, s, j - 1), s[j - 1]);
    }
  }

  lemma RevealingGrows(s: seq<Change>, x: Change, y: Change, n: nat)
    requires AllNamed(s) && (forall e :: e in s ==> LineEdit(e, n)) && x != y
    ensures AllGrow(Rewritten(s, Revealing(x, y, n)), n)
  {
    var edits := Rewritten(s, Revealing(x, y, n));
    forall k | 0 <= k < |edits| ensures Grows(edits[k], n) && Named(edits[k]) {
      assert Named(s[k]);
      RevealingGrowsAt(s[k], x, y, n);
    }
  }

  lemma RevealingGrowsAt(e: Change, x: Change, y: Change, n: nat)
    requires LineEdit(e, n) && x != y
    ensures Grows(e.(replace := Revealing(x, y, n)(e)), n)
    ensures e != x ==> |Lines(Revealing(x, y, n)(e))| == Span(e)
  {
    if e == y {
      LinesOfMark(x, y, n);
    } else {
      LinesOfRevealing(x, y, n, e);
    }
  }

  lemma EditElsewhere(s: seq<Change>, x: Change, j: nat, n: nat, k: nat)
    requires (forall e :: e in s ==> LineEdit(e, n)) && Disjoint(s)
    requires j < k < |s| && x != s[j] && x != s[k]
    ensures var e := Rewritten(s, Revealing(x, s[j], n))[k];
            Elsewhere(e, s[j].startLine)
  {
    assert Apart(s[j], s[k]);
    assert s[j] in s && s[k] in s;
    RevealingGrowsAt(s[k], x, s[j], n);
  }

  lemma ApartDiffer(s: seq<Change>, i: nat, k: nat, n: nat)
    requires (forall e :: e in s ==> LineEdit(e, n)) && Disjoint(s) && i < k < |s|
    ensures s[i] != s[k]
  {
    assert s[i] in s && Apart(s[i], s[k]);
  }

  lemma MarkIsMade(lines: seq<string>, s: seq<Change>, x: Change, j: nat)
    requires AllNamed(s) && forall e :: e in s ==> LineEdit(e, |lines|)
    requires j < |s| && x != s[j]
    ensures var edits := Rewritten(s, Revealing(x, s[j], |lines|));
            && 1 <= s[j].startLine <= |lines| && |SpliceAll(lines, edits, j + 1)| >= |lines|
            && SpliceAll(lines, edits, j + 1)[s[j].startLine - 1] == "m\n"
  {
    var edits := Rewritten(s, Revealing(x, s[j], |lines|));
    RevealingGrows(s, x, s[j], |lines|);
    SpliceGrows(lines, edits, j + 1);
    assert s[j] in s;
    LinesOfMark(x, s[j], |lines|);
    EditShows(lines, edits, j, 0);
  }

  /** When x is applied before y, y's mark stands at y's line. */
  lemma MarkStands(lines: seq<string>, s: seq<Change>, i: nat, j: nat)
    requires AllNamed(s) && forall e :: e in s ==> LineEdit(e, |lines|)
    requires Disjoint(s) && i < j < |s|
    ensures var edits := Rewritten(s, Revealing(s[i], s[j], |lines|));
            && 1 <= s[j].startLine <= |lines| && |SpliceAll(lines, edits, |s|)| >= |lines|
            && SpliceAll(lines, edits, |s|)[s[j].startLine - 1] == "m\n"
  {
    var x, edits := s[i], Rewritten(s, Revealing(s[i], s[j], |lines|));
    forall k | i < k < |s| ensures x != s[k] {
      ApartDiffer(s, i, k, |lines|);
    }
    MarkIsMade(lines, s, x, j);
    RevealingGrows(s, x, s[j], |lines|);
    forall k | j + 1 <= k < |s| ensures Elsewhere(edits[k], s[j].startLine) {
      EditElsewhere(s, x, j, |lines|, k);
    }
    LineStays(lines, edits, j + 1, |s|, s[j].startLine);
  }

  // The substitution read off from the same edits in descending order.

  function Repathed(edits: seq<Change>, path: string): (r: seq<Change>)
    ensures |r| == |edits| && forall k :: 0 <= k < |r| ==> r[k] == edits[k].(path := path)
  {
    seq(|edits|, k requires 0 <= k < |edits| => edits[k].(path := path))
  }

  lemma RepathedSubstitution(c: string, edits: seq<Change>, path: string, pieces: seq<string>)
    requires IsSubstitution(c, edits, pieces)
    ensures IsSubstitution(c, Repathed(edits, path), pieces)
  {
    var moved := Repathed(edits, path);
    forall k | 0 <= k < |pieces| ensures IsPiece(c, moved, k, pieces[k]) {
      assert IsPiece(c, edits, k, pieces[k]);
      forall e | e in moved ensures exists f :: f in edits && e == f.(path := path) {
        var q :| 0 <= q < |moved| && moved[q] == e;
        assert edits[q] in edits;
      }
      forall f | f in edits ensures f.(path := path) in moved {
        var q :| 0 <= q < |edits| && edits[q] == f;
        assert moved[q] == f.(path := path);
      }
    }
  }

  lemma FoldIsSubstitution(c: string, s: seq<Change>, pieces: seq<string>)
    requires Descending(s) && s != [] && AllNamed(s) && forall e :: e in s ==> LineEdit(e, |Lines(c)|)
    requires IsSubstitution(c, s, pieces)
    ensures Fold(c, s) == Ok(Join(pieces))
  {
    DescendingFold(c, s, pieces, |s|);
    EdgeIsUntouched(c, s, pieces);
    assert s[..|s|] == s;
  }

  /** The revealing edits, all moved to one path. */
  function Moved(changes: seq<Change>, x: Change, y: Change, n: nat, path: string): seq<Change> {
    Repathed(Rewritten(changes, Revealing(x, y, n)), path)
  }

  lemma MovedDisjoint(changes: seq<Change>, x: Change, y: Change, n: nat, path: string)
    requires Disjoint(changes)
    ensures Disjoint(Moved(changes, x, y, n, path))
  {
    var moved := Moved(changes, x, y, n, path);
    forall i, j | 0 <= i < j < |moved| ensures Apart(moved[i], moved[j]) {
      assert Apart(changes[i], changes[j]);
    }
  }

  /** A moved edit; all but the one at the line first keep their numbers of lines. */
  predicate IsMoved(e: Change, n: nat, path: string, first: int) {
    Grows(e, n) && e.path == path && (e.startLine != first ==> |Lines(e.replace)| == Span(e))
  }

  lemma MovedGrow(changes: seq<Change>, x: Change, y: Change, n: nat)
    requires AllNamed(changes) && (forall e :: e in changes ==> LineEdit(e, n)) && x in changes && x != y
    ensures forall e {:trigger IsMoved(e, n, x.path, x.startLine)} ::
              e in Moved(changes, x, y, n, x.path) ==> IsMoved(e, n, x.path, x.startLine)
    ensures AllNamed(Moved(changes, x, y, n, x.path))
  {
    var moved := Moved(changes, x, y, n, x.path);
    assert Named(x);
    forall e | e in moved ensures IsMoved(e, n, x.path, x.startLine) {
      var k :| 0 <= k < |moved| && moved[k] == e;
      assert changes[k] in changes;
      RevealingGrowsAt(changes[k], x, y, n);
    }
  }

  predicate KeepsAbove(e: Change, line: int) {
    |Lines(e.replace)| == Span(e) && LastLineOf(e) < line
  }

  predicate IsBlank(text: string, n: nat) {
    |Lines(text)| == n && forall k :: 0 <= k < n ==> Lines(text)[k] == "\n"
  }

  /** In descending order, the p-th edit puts more blank lines than there are at the line
      first, and the edits after it are above and keep their numbers of lines. */
  ghost predicate LongTextAt(s: seq<Change>, n: nat, first: int, p: nat) {
    && AllGrow(s, n) && p < |s| && s[p].startLine == first && IsBlank(s[p].replace, n + 1)
    && forall q {:trigger KeepsAbove(s[q], first)} :: p < q < |s| ==> KeepsAbove(s[q], first)
  }

  lemma BlankAfterAll(lines: seq<string>, s: seq<Change>, first: int, p: nat, line: int)
    requires LongTextAt(s, |lines|, first, p) && first <= line <= |lines|
    ensures 1 <= line && |SpliceAll(lines, s, |s|)| >= |lines| && SpliceAll(lines, s, |s|)[line - 1] == "\n"
  {
    assert Grows(s[p], |lines|);
    EditShows(lines, s, p, line - first);
    forall k | p + 1 <= k < |s| ensures Elsewhere(s[k], line) {
      assert KeepsAbove(s[k], first);
    }
    LineStays(lines, s, p + 1, |s|, line);
  }

  lemma LaterKeepLines(s: seq<Change>, first: int, p: nat, n: nat, path: string)
    requires Descending(s) && p < |s| && s[p].startLine == first
    requires forall e {:trigger IsMoved(e, n, path, first)} :: e in s ==> IsMoved(e, n, path, first)
    ensures forall q {:trigger KeepsAbove(s[q], first)} :: p < q < |s| ==> KeepsAbove(s[q], first)
  {
    forall q | p < q < |s| ensures KeepsAbove(s[q], first) {
      assert s[q] in s && IsMoved(s[q], n, path, first);
      assert LastLineOf(s[q]) < s[p].startLine;
    }
  }

  lemma SortedGrow(edits: seq<Change>, n: nat, path: string, first: int)
    requires AllNamed(edits) && Disjoint(edits)
    requires forall e {:trigger IsMoved(e, n, path, first)} :: e in edits ==> IsMoved(e, n, path, first)
    ensures AllGrow(Sorted(edits), n) && Descending(Sorted(edits))
    ensures forall e :: e in Sorted(edits) <==> e in edits
  {
    forall e | e in edits ensures LineEdit(e, n) && e.path == path {
      assert IsMoved(e, n, path, first);
    }
    SortedDescending(edits, path, n);
    var s := Sorted(edits);
    forall k | 0 <= k < |s| ensures Grows(s[k], n) {
      assert s[k] in s && IsMoved(s[k], n, path, first);
    }
  }

  /** The moved edits in descending order, and where x's text is. */
  lemma MovedInOrder(changes: seq<Change>, x: Change, y: Change, n: nat) returns (s: seq<Change>, p: nat)
    requires AllNamed(changes) && forall e :: e in changes ==> LineEdit(e, n)
    requires Disjoint(changes) && x in changes && x != y
    ensures LongTextAt(s, n, x.startLine, p) && Descending(s) && SameMembers(Moved(changes, x, y, n, x.path), s)
  {
    var moved := Moved(changes, x, y, n, x.path);
    s := Sorted(moved);
    MovedGrow(changes, x, y, n);
    MovedDisjoint(changes, x, y, n, x.path);
    SortedGrow(moved, n, x.path, x.startLine);
    var long := LongText(changes, x, y, n);
    p :| 0 <= p < |s| && s[p] == long;
    LaterKeepLines(s, x.startLine, p, n, x.path);
  }

  ghost predicate SameMembers(a: seq<Change>, b: seq<Change>) {
    forall e :: e in a <==> e in b
  }

  lemma MovedSubstitution(c: string, edits: seq<Change>, path: string, s: seq<Change>, pieces: seq<string>)
    requires IsSubstitution(c, edits, pieces) && SameMembers(Repathed(edits, path), s)
    ensures IsSubstitution(c, s, pieces)
  {
    RepathedSubstitution(c, edits, path, pieces);
    SameSubstitution(c, Repathed(edits, path), s, pieces);
  }

  lemma LongText(changes: seq<Change>, x: Change, y: Change, n: nat) returns (e: Change)
    requires x in changes
    ensures e in Moved(changes, x, y, n, x.path) && e.startLine == x.startLine && IsBlank(e.replace, n + 1)
  {
    var i :| 0 <= i < |changes| && changes[i] == x;
    e := Moved(changes, x, y, n, x.path)[i];
    LinesOfBlank(n + 1);
  }

  /** They define the same substitution. */
  lemma MovedReads(c: string, changes: seq<Change>, x: Change, y: Change, pieces: seq<string>) returns (s: seq<Change>, p: nat)
    requires InFile(changes, |Lines(c)|)
    requires Disjoint(changes) && x in changes && x != y
    requires IsSubstitution(c, Rewritten(changes, Revealing(x, y, |Lines(c)|)), pieces)
    ensures LongTextAt(s, |Lines(c)|, x.startLine, p) && Descending(s) && IsSubstitution(c, s, pieces)
  {
    s, p := MovedInOrder(changes, x, y, |Lines(c)|);
    MovedSubstitution(c, Rewritten(changes, Revealing(x, y, |Lines(c)|)), x.path, s, pieces);
  }

  lemma EditsInOrder(changes: seq<Change>, x: Change, y: Change, n: nat)
    requires InFile(changes, n) && x in changes && y in changes && LastLineOf(x) < y.startLine
    ensures 1 <= x.startLine < y.startLine <= n
  {
    assert LineEdit(x, n) && LineEdit(y, n);
  }

  /** In the substitution a blank line of x's text stands at any later line. */
  lemma BlankStands(c: string, changes: seq<Change>, x: Change, y: Change, line: int, pieces: seq<string>)
    requires InFile(changes, |Lines(c)|)
    requires Disjoint(changes) && x in changes && x != y && x.startLine <= line <= |Lines(c)|
    requires IsSubstitution(c, Rewritten(changes, Revealing(x, y, |Lines(c)|)), pieces)
    ensures 1 <= line <= |Lines(Join(pieces))| && Lines(Join(pieces))[line - 1] == "\n"
  {
    var s, p := MovedReads(c, changes, x, y, pieces);
    BlankIsRead(c, s, x.startLine, p, line, pieces);
  }

  lemma BlankIsRead(c: string, s: seq<Change>, first: int, p: nat, line: int, pieces: seq<string>)
    requires LongTextAt(s, |Lines(c)|, first, p) && Descending(s)
    requires first <= line <= |Lines(c)| && IsSubstitution(c, s, pieces)
    ensures 1 <= line <= |Lines(Join(pieces))| && Lines(Join(pieces))[line - 1] == "\n"
  {
    forall e | e in s ensures LineEdit(e, |Lines(c)|) {
      var k :| 0 <= k < |s| && s[k] == e;
      assert Grows(s[k], |Lines(c)|);
    }
    FoldIsSubstitution(c, s, pieces);
    BlankAfterAll(Lines(c), s, first, p, line);
    FoldSplices(c, s, |s|);
    assert s[..|s|] == s;
  }

  lemma {:induction false} SortedDisjoint(changes: seq<Change>)
    requires Disjoint(changes)
    ensures Disjoint(Sorted(changes))
  {
    if changes != [] {
      var n := |changes| - 1;
      var p := Sorted(changes[..n]);
      SortedDisjoint(changes[..n]);
      InSorted(changes[..n]);
      forall k | 0 <= k < |p| ensures Apart(p[k], changes[n]) {
        assert p[k] in changes[..n];
        var q :| 0 <= q < n && changes[..n][q] == p[k];
        assert Apart(changes[q], changes[n]);
      }
      var place := PlaceFor(p, changes[n]);
      InsertedAt(p, changes[n], place);
      WithDisjoint(p, changes[n], place);
    }
  }

  lemma WithDisjoint(p: seq<Change>, x: Change, j: nat)
    requires Disjoint(p) && j <= |p| && forall k :: 0 <= k < |p| ==> Apart(p[k], x)
    ensures Disjoint(With(p, x, j))
  {
  }

  /** What the batch makes of the file with the revealing texts. */
  lemma RevealingResult(root: Root, s: seq<Change>, rel: string, i: nat, j: nat)
    requires rel in root.files && root.files[rel].size <= MAX_READ_BYTES && Disjoint(s)
    requires EditsOf(root, s, rel, |Lines(root.files[rel].text)|) && i < j < |s|
    ensures var edits := Rewritten(s, Revealing(s[i], s[j], |Lines(root.files[rel].text)|));
            var text := Fold(root.files[rel].text, edits);
            && text.Ok? && Apply(root, edits) == Done(map[rel := text.value])
            && 1 <= s[j].startLine <= |Lines(text.value)| && Lines(text.value)[s[j].startLine - 1] == "m\n"
  {
    var c := root.files[rel].text;
    var edits := Rewritten(s, Revealing(s[i], s[j], |Lines(c)|));
    ApartDiffer(s, i, j, |Lines(c)|);
    RevealingGrows(s, s[i], s[j], |Lines(c)|);
    RewrittenEdits(root, s, rel, |Lines(c)|, Revealing(s[i], s[j], |Lines(c)|));
    MarkStands(Lines(c), s, i, j);
    FoldSplices(c, edits, |s|);
    assert edits[..|s|] == edits;
    SingleFile(root, edits, rel);
  }

  lemma SubstitutionOfRevealing(c: string, changes: seq<Change>, x: Change, y: Change, line: int) returns (meant: string)
    requires InFile(changes, |Lines(c)|)
    requires Disjoint(changes) && x in changes && x != y && x.startLine <= line <= |Lines(c)|
    ensures meant == Join(Pieces(c, Rewritten(changes, Revealing(x, y, |Lines(c)|))))
    ensures 1 <= line <= |Lines(meant)| && Lines(meant)[line - 1] == "\n"
  {
    var edits := Rewritten(changes, Revealing(x, y, |Lines(c)|));
    RewrittenSubstitution(c, changes, Revealing(x, y, |Lines(c)|));
    meant := Join(Pieces(c, edits));
    BlankStands(c, changes, x, y, line, Pieces(c, edits));
  }

  lemma DifferentLine(rel: string, made: string, meant: string, line: int)
    requires 1 <= line <= |Lines(made)| && Lines(made)[line - 1] == "m\n"
    requires line <= |Lines(meant)| && Lines(meant)[line - 1] == "\n"
    ensures Done(map[rel := made]) != Done(map[rel := meant])
  {
    assert |Lines(made)[line - 1]| != |Lines(meant)[line - 1]|;
    assert map[rel := made][rel] != map[rel := meant][rel];
  }

  lemma RevealingMade(root: Root, changes: seq<Change>, s: seq<Change>, rel: string, i: nat, j: nat) returns (made: string)
    requires rel in root.files && root.files[rel].size <= MAX_READ_BYTES && s == Sorted(changes) && Disjoint(s)
    requires EditsOf(root, s, rel, |Lines(root.files[rel].text)|) && i < j < |s|
    ensures 1 <= s[j].startLine <= |Lines(made)| && Lines(made)[s[j].startLine - 1] == "m\n"
    ensures Apply(root, Sorted(Rewritten(changes, Revealing(s[i], s[j], |Lines(root.files[rel].text)|))))
              == Done(map[rel := made])
  {
    var texts := Revealing(s[i], s[j], |Lines(root.files[rel].text)|);
    RevealingResult(root, s, rel, i, j);
    assert Sorted(Rewritten(changes, texts)) == Rewritten(s, texts) by {
      SortedRewritten(changes, texts);
    }
    made := Fold(root.files[rel].text, Rewritten(s, texts)).value;
  }

  lemma WrongOrderIsAbove(changes: seq<Change>, i: nat, j: nat)
    requires Disjoint(changes) && i < j < |Sorted(changes)| && LastLineOf(Sorted(changes)[j]) >= Sorted(changes)[i].startLine
    ensures LastLineOf(Sorted(changes)[i]) < Sorted(changes)[j].startLine
    ensures Sorted(changes)[i] in changes && Sorted(changes)[j] in changes
  {
    InSorted(changes);
    SortedDisjoint(changes);
    assert Apart(Sorted(changes)[i], Sorted(changes)[j]);
    assert Sorted(changes)[i] in Sorted(changes) && Sorted(changes)[j] in Sorted(changes);
  }

  lemma RevealingMisses(root: Root, changes: seq<Change>, s: seq<Change>, rel: string, i: nat, j: nat, meant: string)
    requires rel in root.files && root.files[rel].size <= MAX_READ_BYTES && s == Sorted(changes) && Disjoint(s)
    requires EditsOf(root, s, rel, |Lines(root.files[rel].text)|) && i < j < |s|
    requires meant == Join(Pieces(root.files[rel].text,
                                  Rewritten(changes, Revealing(s[i], s[j], |Lines(root.files[rel].text)|))))
    requires 1 <= s[j].startLine <= |Lines(meant)| && Lines(meant)[s[j].startLine - 1] == "\n"
    ensures !Substitutes(root, changes, rel)
  {
    var made := RevealingMade(root, changes, s, rel, i, j);
    DifferentLine(rel, made, meant, s[j].startLine);
    NotSubstituted(root, changes, rel, Revealing(s[i], s[j], |Lines(root.files[rel].text)|), made, meant);
  }

  lemma NotSubstituted(root: Root, changes: seq<Change>, rel: string, texts: Change -> string, made: string, meant: string)
    requires rel in root.files && Done(map[rel := made]) != Done(map[rel := meant])
    requires Apply(root, Sorted(Rewritten(changes, texts))) == Done(map[rel := made])
    requires meant == Join(Pieces(root.files[rel].text, Rewritten(changes, texts)))
    ensures !Substitutes(root, changes, rel)
  {
  }

  lemma RevealedDifference(root: Root, changes: seq<Change>, s: seq<Change>, rel: string, i: nat, j: nat)
    requires rel in root.files && root.files[rel].size <= MAX_READ_BYTES
    requires s == Sorted(changes) && Disjoint(s) && Disjoint(changes)
    requires EditsOf(root, changes, rel, |Lines(root.files[rel].text)|) && EditsOf(root, s, rel, |Lines(root.files[rel].text)|)
    requires i < j < |s| && s[i] in changes && s[i].startLine < s[j].startLine <= |Lines(root.files[rel].text)|
    ensures !Substitutes(root, changes, rel)
  {
    var c := root.files[rel].text;
    var meant := SubstitutionOfRevealing(c, changes, s[i], s[j], s[j].startLine);
    RevealingMisses(root, changes, s, rel, i, j, meant);
  }

  /** Two edits in the wrong order: the revealing texts tell the batch from the substitution. */
  lemma WrongOrderMisses(root: Root, changes: seq<Change>, rel: string, i: nat, j: nat)
    requires rel in root.files && root.files[rel].size <= MAX_READ_BYTES && Disjoint(changes)
    requires EditsOf(root, changes, rel, |Lines(root.files[rel].text)|)
    requires i < j < |Sorted(changes)| && LastLineOf(Sorted(changes)[j]) >= Sorted(changes)[i].startLine
    ensures !Substitutes(root, changes, rel)
  {
    WrongOrderIsAbove(changes, i, j);
    EditsInOrder(changes, Sorted(changes)[i], Sorted(changes)[j], |Lines(root.files[rel].text)|);
    InSorted(changes);
    SortedDisjoint(changes);
    RevealedDifference(root, changes, Sorted(changes), rel, i, j);
  }

  /** Disjoint line edits of one file, under whatever spellings of its path, are made as if
      all at once, with any texts, exactly when the sort puts them in descending order. */
  lemma SubstitutesIff(root: Root, changes: seq<Change>, rel: string)
    requires rel in root.files && root.files[rel].size <= MAX_READ_BYTES && changes != [] && Disjoint(changes)
    requires EditsOf(root, changes, rel, |Lines(root.files[rel].text)|)
    ensures Substitutes(root, changes, rel) <==> Descending(Sorted(changes))
  {
    if Descending(Sorted(changes)) {
      forall texts: Change -> string
        ensures Apply(root, Sorted(Rewritten(changes, texts)))
                  == Done(map[rel := Join(Pieces(root.files[rel].text, Rewritten(changes, texts)))])
      {
        DescendingSubstitutes(root, changes, rel, texts);
      }
    } else {
      var i, j :| 0 <= i < j < |Sorted(changes)| && LastLineOf(Sorted(changes)[j]) >= Sorted(changes)[i].startLine;
      WrongOrderMisses(root, changes, rel, i, j);
    }
  }

  predicate IsLine(line: string) {
    Terminated(line) && FirstLine(line) == |line|
  }

  /** So edits of one file under two spellings of its path miss: when line 1 is deleted
      first, the replacement of line 2 is appended after it, and line 2 survives. */
  lemma TwoSpellingsMiss(root: Root, x: Change, y: Change, rel: string, first: string, second: string)
    requires x.path != y.path && Targets(root, x, rel) && Targets(root, y, rel)
    requires Complete(x) && x.startLine == 1 && x.endLine == 1 && x.replace == ""
    requires Complete(y) && y.startLine == 2 && y.endLine == 2 && y.replace != ""
    requires IsLine(first) && IsLine(second)
    requires rel in root.files && root.files[rel].text == first + second && root.files[rel].size <= MAX_READ_BYTES
    ensures IsSubstitution(first + second, [x, y], ["", Normalised(y.replace, true)])
    ensures Apply(root, Sorted([x, y])) == Done(map[rel := second + Normalised(y.replace, true)])
  {
    assert Sorted([x, y]) == [x, y] by { StaysListed(x, y); }
    MissedApply(root, x, y, rel, first, second);
    assert |Lines(first + second)| == 2 && Terminated(first + second) by { TwoLines(first, second, y.replace); }
    MissedPieces(first + second, x, y);
  }

  lemma StaysListed(x: Change, y: Change)
    requires x.path != y.path
    ensures Sorted([x, y]) == [x, y]
  {
    assert [x][..0] == [] && [x, y][..1] == [x];
    assert Sorted([x]) == [x];
  }

  lemma MissedApply(root: Root, x: Change, y: Change, rel: string, first: string, second: string)
    requires Targets(root, x, rel) && Targets(root, y, rel)
    requires Complete(x) && x.startLine == 1 && x.endLine == 1 && x.replace == ""
    requires Complete(y) && y.startLine == 2 && y.endLine == 2 && y.replace != ""
    requires IsLine(first) && IsLine(second)
    requires rel in root.files && root.files[rel].text == first + second && root.files[rel].size <= MAX_READ_BYTES
    ensures Apply(root, [x, y]) == Done(map[rel := second + Normalised(y.replace, true)])
  {
    assert ApplyChange(first + second, x) == Ok(second) && ApplyChange(second, y) == Ok(second + Normalised(y.replace, true)) by {
      TwoLines(first, second, y.replace);
    }
    StepInFile(root, map[], x, rel);
    StepInFile(root, map[rel := second], y, rel);
    AppliedTwo(root, x, y);
  }

  lemma MissedPieces(c: string, x: Change, y: Change)
    requires |Lines(c)| == 2 && Terminated(c)
    requires x.startLine == 1 && x.endLine == 1 && x.replace == "" && y.startLine == 2 && y.endLine == 2
    ensures IsSubstitution(c, [x, y], ["", Normalised(y.replace, true)])
  {
    assert [x, y][0] == x && [x, y][1] == y;
    assert x in [x, y] && y in [x, y];
    assert Covers(x, 1) && Covers(y, 2);
    NormalisedText(y.replace, true);
  }

  lemma AppliedTwo(root: Root, x: Change, y: Change)
    requires Step(root, map[], x).Ok? && Step(root, Step(root, map[], x).value, y).Ok?
    ensures Apply(root, [x, y]) == Done(Step(root, Step(root, map[], x).value, y).value)
  {
    assert [x, y][..1] == [x] && [x][..0] == [];
    assert Apply(root, [x]) == Done(Step(root, map[], x).value);
  }

  lemma TwoLines(first: string, second: string, text: string)
    requires IsLine(first) && IsLine(second) && text != ""
    ensures Lines(first + second) == [first, second] && Terminated(first + second)
    ensures ReplaceLines(first + second, 1, 1, "") == Ok(second)
    ensures ReplaceLines(second, 2, 2, text) == Ok(second + Normalised(text, true))
  {
    assert Terminated(first + second) by {
      assert (first + second)[|first + second| - 1] == second[|second| - 1];
    }
    assert Lines(first + second) == [first, second] by {
      OneLine(second);
      LinesCons(first, second);
    }
    assert ReplaceLines(first + second, 1, 1, "") == Ok(second) by {
      FirstDeleted(first + second, first, second);
    }
    OneLine(second);
    Appended(second, text);
  }

  lemma OneLine(line: string)
    requires IsLine(line)
    ensures Lines(line) == [line]
  {
    var n := |line|;
    assert line[..n] == line && line[n..] == "";
  }

  lemma Appended(c: string, text: string)
    requires |Lines(c)| == 1 && Terminated(c) && text != ""
    ensures ReplaceLines(c, 2, 2, text) == Ok(c + Normalised(text, true))
  {
    assert c + "" == c;
  }

  lemma FirstDeleted(c: string, first: string, second: string)
    requires c != "" && Lines(c) == [first, second]
    ensures ReplaceLines(c, 1, 1, "") == Ok(second)
  {
    var L := Lines(c);
    var none := L[..1 - 1];
    assert none == [] && L[1..] == [second];
    assert Join([second]) == second && Join(none) == "";
    assert Join(none) + "" + Join([second]) == second;
    assert ReplaceLines(c, 1, 1, "") == Ok(Join(none) + "" + Join(L[1..]));
  }
}
