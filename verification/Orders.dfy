/** Three-way comparison, and why the composed comparisons are total orders. */
module Orders {
  import opened Wrappers
  import opened Sorting

  datatype Ordering = Less | Equal | Greater

  /** The first comparison that tells the two apart decides. */
  function Then(first: Ordering, second: Ordering): (r: Ordering) {
    if first == Equal then second else first
  }

  function Reversed(o: Ordering): (r: Ordering) {
    match o case Less => Greater case Equal => Equal case Greater => Less
  }

  function CompareInt(a: int, b: int): (r: Ordering) {
    if a < b then Less else if a == b then Equal else Greater
  }

  /** Lexicographic by code point, which is also the byte order of UTF-8. */
  function CompareText(a: string, b: string): (r: Ordering) {
    if a == "" then if b == "" then Equal else Less
    else if b == "" then Greater
    else Then(CompareInt(a[0] as int, b[0] as int), CompareText(a[1..], b[1..]))
  }

  /** `None` comes before every `Some`. */
  function CompareOptional(a: Option<string>, b: Option<string>): (r: Ordering) {
    match (a, b)
    case (None, None) => Equal
    case (None, Some(_)) => Less
    case (Some(_), None) => Greater
    case (Some(x), Some(y)) => CompareText(x, y)
  }

  /** What the comparisons of `a` with `b` and of `b` with `c` say about `a` and `c`. */
  predicate Transitive(ab: Ordering, bc: Ordering, ac: Ordering) {
    if ab == Equal then ac == bc else if bc == Equal || ab == bc then ac == ab else true
  }

  lemma {:induction false} TextEqual(a: string, b: string)
    ensures CompareText(a, b) == Equal <==> a == b
    ensures CompareText(b, a) == Reversed(CompareText(a, b))
  {
    if a != "" && b != "" {
      TextEqual(a[1..], b[1..]);
      assert a == [a[0]] + a[1..] && b == [b[0]] + b[1..];
    }
  }

  lemma {:induction false} TextTransitive(a: string, b: string, c: string)
    ensures Transitive(CompareText(a, b), CompareText(b, c), CompareText(a, c))
  {
    if a != "" && b != "" && c != "" {
      TextTransitive(a[1..], b[1..], c[1..]);
    }
  }

  lemma OptionalEqual(a: Option<string>, b: Option<string>)
    ensures CompareOptional(a, b) == Equal <==> a == b
    ensures CompareOptional(b, a) == Reversed(CompareOptional(a, b))
  {
    if a.Some? && b.Some? {
      TextEqual(a.value, b.value);
    }
  }

  lemma OptionalTransitive(a: Option<string>, b: Option<string>, c: Option<string>)
    ensures Transitive(CompareOptional(a, b), CompareOptional(b, c), CompareOptional(a, c))
  {
    if a.Some? && b.Some? && c.Some? {
      TextTransitive(a.value, b.value, c.value);
    }
  }

  predicate TextLe(a: string, b: string) {
    CompareText(a, b) != Greater
  }

  lemma TextOrder()
    ensures Preorder(TextLe)
    ensures forall a, b :: TextLe(a, b) && TextLe(b, a) ==> a == b
  {
    forall a, b ensures (TextLe(a, b) || TextLe(b, a)) && (TextLe(a, b) && TextLe(b, a) ==> a == b) {
      TextEqual(a, b);
    }
    forall a, b, c | TextLe(a, b) && TextLe(b, c) ensures TextLe(a, c) {
      TextTransitive(a, b, c);
    }
  }
}
