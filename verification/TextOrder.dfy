/** Comparison results, and the order of strings by code point. */
module TextOrder {
  datatype Ordering = Less | Equal | Greater

  function Reversed(o: Ordering): Ordering {
    match o
    case Less => Greater
    case Equal => Equal
    case Greater => Less
  }

  function Then(first: Ordering, second: Ordering): Ordering {
    if first == Equal then second else first
  }

  function CompareInts(a: int, b: int): Ordering {
    if a < b then Less else if a == b then Equal else Greater
  }

  /** Comparison by code point, a proper prefix first. */
  function CompareText(a: string, b: string): Ordering {
    if a == "" || b == "" then CompareInts(|a|, |b|)
    else if a[0] != b[0] then CompareInts(a[0] as int, b[0] as int)
    else CompareText(a[1..], b[1..])
  }

  lemma {:induction false} EqualTexts(a: string, b: string)
    ensures CompareText(a, b) == Equal <==> a == b
  {
    if a != "" && b != "" && a[0] == b[0] {
      EqualTexts(a[1..], b[1..]);
      assert a == [a[0]] + a[1..] && b == [b[0]] + b[1..];
    }
  }

  lemma {:induction false} TextsFlip(a: string, b: string)
    ensures CompareText(b, a) == Reversed(CompareText(a, b))
  {
    if a != "" && b != "" && a[0] == b[0] {
      TextsFlip(a[1..], b[1..]);
    }
  }

  lemma {:induction false} TextsTransitive(a: string, b: string, c: string)
    requires CompareText(a, b) == Less && CompareText(b, c) == Less
    ensures CompareText(a, c) == Less
  {
    if a != "" && a[0] == b[0] && b[0] == c[0] {
      TextsTransitive(a[1..], b[1..], c[1..]);
    }
  }
}
