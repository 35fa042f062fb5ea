/** Flattening a list of lists, shared by the transcribers (`flatMap`, repeated
    `push(...)`) and the audio concatenation (`+=`). */
module Lists {

  /** The lists in order, end to end. */
  function Flatten<T>(parts: seq<seq<T>>): seq<T>
  {
    if parts == [] then []
    else Flatten(parts[..|parts| - 1]) + parts[|parts| - 1]
  }

  /** The sum of the lengths of the parts. */
  function TotalLength<T>(parts: seq<seq<T>>): nat
  {
    if parts == [] then 0 else TotalLength(parts[..|parts| - 1]) + |parts[|parts| - 1]|
  }

  lemma {:induction false} FlattenLength<T>(parts: seq<seq<T>>)
    ensures |Flatten(parts)| == TotalLength(parts)
  {
    if parts != [] {
      FlattenLength(parts[..|parts| - 1]);
    }
  }

  lemma {:induction false} FlattenAppend<T>(a: seq<seq<T>>, b: seq<seq<T>>)
    ensures Flatten(a + b) == Flatten(a) + Flatten(b)
  {
    if b == [] {
      assert a + b == a;
    } else {
      assert (a + b)[..|a + b| - 1] == a + b[..|b| - 1];
      FlattenAppend(a, b[..|b| - 1]);
    }
  }

  /** Element `j` of part `k` sits in the flat list right after the elements of the
      parts before `k`. */
  lemma FlattenIndex<T>(parts: seq<seq<T>>, k: nat, j: nat)
    requires k < |parts| && j < |parts[k]|
    ensures |Flatten(parts[..k])| + j < |Flatten(parts)|
    ensures Flatten(parts)[|Flatten(parts[..k])| + j] == parts[k][j]
  {
    assert parts == parts[..k] + [parts[k]] + parts[k + 1..];
    FlattenAppend(parts[..k] + [parts[k]], parts[k + 1..]);
    FlattenAppend(parts[..k], [parts[k]]);
    assert [parts[k]][..0] == [];
  }
}
