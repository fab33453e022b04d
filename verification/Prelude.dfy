/** Shared vocabulary: optional values and a few facts about sequences. */
module Prelude {

  datatype Option<+T> = None | Some(value: T) {
    function GetOr(default: T): T {
      match this
      case Some(v) => v
      case None => default
    }
  }

  function Min(a: int, b: int): int { if a < b then a else b }
  function Max(a: int, b: int): int { if a < b then b else a }

  /** The concatenation of a sequence of chunks, in order. */
  function Flat<T>(chunks: seq<seq<T>>): seq<T> {
    if chunks == [] then [] else chunks[0] + Flat(chunks[1..])
  }

  lemma {:induction false} FlatAppend<T>(a: seq<seq<T>>, b: seq<seq<T>>)
    ensures Flat(a + b) == Flat(a) + Flat(b)
  {
    if a == [] {
      assert a + b == b;
    } else {
      FlatAppend(a[1..], b);
      assert (a + b)[1..] == a[1..] + b;
      assert Flat(a + b) == a[0] + (Flat(a[1..]) + Flat(b));
    }
  }

  lemma FlatFirst<T>(before: seq<T>, chunks: seq<seq<T>>)
    requires chunks != []
    ensures before + Flat(chunks) == (before + chunks[0]) + Flat(chunks[1..])
  {
  }

  lemma FlatOne<T>(a: seq<seq<T>>, last: seq<T>)
    ensures Flat(a + [last]) == Flat(a) + last
  {
    FlatAppend(a, [last]);
    assert Flat([last]) == last + Flat([last][1..]);
  }
}
