// Small shared vocabulary.
module Common {

  datatype Option<+T> = None | Some(value: T)

  type Byte = b: int | 0 <= b < 256

  function Min(a: int, b: int): int {
    if a < b then a else b
  }

  lemma ConcatAssociative<T>(a: seq<T>, b: seq<T>, c: seq<T>)
    ensures (a + b) + c == a + (b + c)
  {
  }

  /** Text in front of a separator that it does not hold can be read back. */
  lemma SeparatedOnce<T>(a: seq<T>, b: seq<T>, x: seq<T>, y: seq<T>, separator: T)
    requires separator !in a && separator !in x && a + [separator] + b == x + [separator] + y
    ensures a == x && b == y
  {
    var whole := a + [separator] + b;
    assert whole[|a|] == separator && (x + [separator] + y)[|x|] == separator;
    assert forall k :: 0 <= k < |a| ==> whole[k] == a[k];
    assert forall k :: 0 <= k < |x| ==> whole[k] == x[k];
    assert |a| == |x|;
    assert a == whole[..|a|] && b == whole[|a| + 1..];
    assert x == (x + [separator] + y)[..|x|] && y == (x + [separator] + y)[|x| + 1..];
  }
}
