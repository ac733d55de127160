/** Concatenation of a sequence of sequences: a string built by repeated `+=`
    and `itertools.chain.from_iterable` for lists. */
module Seqs {

  /** The parts joined left to right; defined by its last part, so that a loop
      that appends one part per iteration keeps `acc == Concat(parts[..i])`. */
  function Concat<T>(parts: seq<seq<T>>): seq<T>
  {
    if |parts| == 0 then [] else Concat(parts[..|parts| - 1]) + parts[|parts| - 1]
  }

  /** Appending one part to the list appends it to the concatenation. */
  lemma ConcatSnoc<T>(parts: seq<seq<T>>, last: seq<T>)
    ensures Concat(parts + [last]) == Concat(parts) + last
  {
    assert (parts + [last])[..|parts|] == parts;
  }

  /** Concatenation is a monoid homomorphism from lists of parts. */
  lemma {:induction false} ConcatAppend<T>(a: seq<seq<T>>, b: seq<seq<T>>)
    ensures Concat(a + b) == Concat(a) + Concat(b)
    decreases |b|
  {
    if |b| == 0 {
      assert a + b == a;
    } else {
      var init := b[..|b| - 1];
      assert a + b == (a + init) + [b[|b| - 1]];
      ConcatAppend(a, init);
      ConcatSnoc(a + init, b[|b| - 1]);
      ConcatSnoc(init, b[|b| - 1]);
      assert init + [b[|b| - 1]] == b;
    }
  }

  /** Part k sits in the concatenation right after the parts before it. */
  lemma {:induction false} ConcatAt<T>(parts: seq<seq<T>>, k: nat)
    requires k < |parts|
    ensures |Concat(parts[..k])| + |parts[k]| <= |Concat(parts)|
    ensures Concat(parts)[|Concat(parts[..k])|..|Concat(parts[..k])| + |parts[k]|] == parts[k]
  {
    var before := parts[..k];
    var after := parts[k + 1..];
    assert parts == (before + [parts[k]]) + after;
    ConcatAppend(before + [parts[k]], after);
    ConcatSnoc(before, parts[k]);
  }

  /** A single part concatenates to itself. */
  lemma ConcatSingleton<T>(x: seq<T>)
    ensures Concat([x]) == x
  {
    assert [x][..0] == [];
  }

  /** Concatenating a list that starts with a part starts with that part. */
  lemma ConcatCons<T>(head: seq<T>, parts: seq<seq<T>>)
    ensures Concat([head] + parts) == head + Concat(parts)
  {
    ConcatAppend([head], parts);
    ConcatSingleton(head);
  }
}
