/** Prompt assembly as an ordered pipeline of text fragments.

    Both composers build their prompt by appending fragments to an
    accumulator, one conditional step after another. This module gives the
    meaning of such a run: the fragments joined left to right, and the
    offset at which each fragment lands. */
module Pipeline {

  /** The fragments joined left to right: the first fragment followed by
      the join of the rest. */
  function Concat(parts: seq<string>): (s: string)
    ensures |s| == TotalLength(parts)
  {
    if parts == [] then "" else parts[0] + Concat(parts[1..])
  }

  /** The sum of the fragments' lengths. */
  function TotalLength(parts: seq<string>): nat
  {
    if parts == [] then 0 else |parts[0]| + TotalLength(parts[1..])
  }

  /** The accumulator after appending the fragments one by one, left to
      right, to the initial text `acc`. */
  function Run(acc: string, parts: seq<string>): string
    decreases |parts|
  {
    if parts == [] then acc else Run(acc + parts[0], parts[1..])
  }

  /** Appending fragment by fragment leaves the initial text followed by the
      join of the fragments. */
  lemma {:induction false} RunAppendsConcat(acc: string, parts: seq<string>)
    ensures Run(acc, parts) == acc + Concat(parts)
    decreases |parts|
  {
    if parts != [] {
      RunAppendsConcat(acc + parts[0], parts[1..]);
      assert acc + parts[0] + Concat(parts[1..]) == acc + (parts[0] + Concat(parts[1..]));
    }
  }

  /** One step of a run from position `k`: the fragment at `k` is appended. */
  lemma RunDrop(acc: string, parts: seq<string>, k: nat)
    requires k < |parts|
    ensures Run(acc, parts[k..]) == Run(acc + parts[k], parts[k + 1..])
  {
    assert parts[k..][1..] == parts[k + 1..];
  }

  /** A run with nothing left to append is its accumulator. */
  lemma RunDone(acc: string, parts: seq<string>)
    ensures Run(acc, parts[|parts|..]) == acc
  {
    assert parts[|parts|..] == [];
  }

  /** The lengths of two runs of fragments, one after the other, add up. */
  lemma {:induction false} TotalLengthAppend(a: seq<string>, b: seq<string>)
    ensures TotalLength(a + b) == TotalLength(a) + TotalLength(b)
  {
    if a == [] {
      assert a + b == b;
    } else {
      TotalLengthAppend(a[1..], b);
      assert (a + b)[1..] == a[1..] + b;
    }
  }

  /** The fragments before position `i + 1` are those before `i` and then
      fragment `i`. */
  lemma PrefixStep(parts: seq<string>, i: nat)
    requires i < |parts|
    ensures TotalLength(parts[..i + 1]) == TotalLength(parts[..i]) + |parts[i]|
  {
    assert parts[..i + 1] == parts[..i] + [parts[i]];
    TotalLengthAppend(parts[..i], [parts[i]]);
    assert [parts[i]][1..] == [];
  }

  /** Fragment `i` sits in the join, unaltered, right after the fragments
      before it. */
  lemma {:induction false} ConcatAt(parts: seq<string>, i: nat)
    requires i < |parts|
    ensures TotalLength(parts[..i]) + |parts[i]| <= |Concat(parts)|
    ensures Concat(parts)[TotalLength(parts[..i])..TotalLength(parts[..i]) + |parts[i]|] == parts[i]
  {
    var rest := parts[1..];
    if i == 0 {
      assert parts[..0] == [];
      assert Concat(parts)[..|parts[0]|] == parts[0];
    } else {
      ConcatAt(rest, i - 1);
      assert parts[..i][1..] == rest[..i - 1];
      assert rest[i - 1] == parts[i];
      var at := TotalLength(rest[..i - 1]);
      ShiftedSlice(parts[0], Concat(rest), at, at + |parts[i]|);
    }
  }

  /** `piece` occurs in `s`, unaltered, starting at offset `at`. */
  predicate OccursAt(s: string, at: nat, piece: string)
  {
    at + |piece| <= |s| && s[at..at + |piece|] == piece
  }

  /** Fragment `i` sits unaltered in the join appended to `head`, right after
      the head and the fragments before it. */
  lemma AppearsAfter(head: string, parts: seq<string>, i: nat, piece: string)
    requires i < |parts| && parts[i] == piece
    ensures OccursAt(head + Concat(parts), |head| + TotalLength(parts[..i]), piece)
  {
    ConcatAt(parts, i);
    var at := TotalLength(parts[..i]);
    ShiftedSlice(head, Concat(parts), at, at + |piece|);
  }

  /** A slice of the second operand of an append, read through the append. */
  lemma ShiftedSlice(a: string, b: string, lo: nat, hi: nat)
    requires lo <= hi <= |b|
    ensures (a + b)[|a| + lo..|a| + hi] == b[lo..hi]
  {
    forall j | 0 <= j < hi - lo
      ensures (a + b)[|a| + lo..|a| + hi][j] == b[lo..hi][j]
    {
    }
  }

  /** A fragment ends no later than any later fragment begins. */
  lemma {:induction false} OffsetsIncrease(parts: seq<string>, i: nat, j: nat)
    requires i < j <= |parts|
    ensures TotalLength(parts[..i]) + |parts[i]| <= TotalLength(parts[..j])
  {
    PrefixStep(parts, j - 1);
    if j > i + 1 {
      OffsetsIncrease(parts, i, j - 1);
    }
  }

  /** The join is empty exactly when every fragment is. */
  lemma {:induction false} ConcatEmptyIff(parts: seq<string>)
    ensures Concat(parts) == "" <==> forall i :: 0 <= i < |parts| ==> parts[i] == ""
  {
    if parts != [] {
      var rest := parts[1..];
      ConcatEmptyIff(rest);
      if Concat(parts) == "" {
        forall i | 0 <= i < |parts| ensures parts[i] == "" {
          if i > 0 {
            assert rest[i - 1] == parts[i];
          }
        }
      }
      if forall i :: 0 <= i < |parts| ==> parts[i] == "" {
        assert forall i :: 0 <= i < |rest| ==> rest[i] == parts[i + 1];
      }
    }
  }

  /** When every fragment but one is empty, the join is that fragment. */
  lemma {:induction false} ConcatSingle(parts: seq<string>, k: nat)
    requires k < |parts|
    requires forall i :: 0 <= i < |parts| && i != k ==> parts[i] == ""
    ensures Concat(parts) == parts[k]
  {
    var rest := parts[1..];
    if k == 0 {
      ConcatEmptyIff(rest);
      assert parts[0] + "" == parts[0];
    } else {
      assert forall i :: 0 <= i < |rest| && i != k - 1 ==> rest[i] == parts[i + 1];
      ConcatSingle(rest, k - 1);
    }
  }

  /** When every fragment but two is empty, the join is those two, in order. */
  lemma {:induction false} ConcatPair(parts: seq<string>, j: nat, k: nat)
    requires j < k < |parts|
    requires forall i :: 0 <= i < |parts| && i != j && i != k ==> parts[i] == ""
    ensures Concat(parts) == parts[j] + parts[k]
  {
    var rest := parts[1..];
    assert forall i :: 0 <= i < |rest| ==> rest[i] == parts[i + 1];
    if j == 0 {
      ConcatSingle(rest, k - 1);
    } else {
      ConcatPair(rest, j - 1, k - 1);
    }
  }

  /** A join of 6 fragments appended to `acc`, written out as 6 appends
      in order: the shape a composer with 6 conditional steps produces. */
  lemma Unroll6(acc: string, parts: seq<string>)
    requires |parts| == 6
    ensures acc + Concat(parts) == acc + parts[0] + parts[1] + parts[2] + parts[3] + parts[4] + parts[5]
  {
    assert parts[0..] == parts;
    RunDrop(acc, parts, 0);
    RunDrop(acc + parts[0], parts, 1);
    RunDrop(acc + parts[0] + parts[1], parts, 2);
    RunDrop(acc + parts[0] + parts[1] + parts[2], parts, 3);
    RunDrop(acc + parts[0] + parts[1] + parts[2] + parts[3], parts, 4);
    RunDrop(acc + parts[0] + parts[1] + parts[2] + parts[3] + parts[4], parts, 5);
    RunDone(acc + parts[0] + parts[1] + parts[2] + parts[3] + parts[4] + parts[5], parts);
    RunAppendsConcat(acc, parts);
  }

  /** A join of 16 fragments appended to `acc`, written out as 16 appends
      in order: the shape a composer with 16 conditional steps produces. */
  lemma Unroll16(acc: string, parts: seq<string>)
    requires |parts| == 16
    ensures acc + Concat(parts) == acc + parts[0] + parts[1] + parts[2] + parts[3] + parts[4] + parts[5] + parts[6] + parts[7] + parts[8] + parts[9] + parts[10] + parts[11] + parts[12] + parts[13] + parts[14] + parts[15]
  {
    assert parts[0..] == parts;
    RunDrop(acc, parts, 0);
    RunDrop(acc + parts[0], parts, 1);
    RunDrop(acc + parts[0] + parts[1], parts, 2);
    RunDrop(acc + parts[0] + parts[1] + parts[2], parts, 3);
    RunDrop(acc + parts[0] + parts[1] + parts[2] + parts[3], parts, 4);
    RunDrop(acc + parts[0] + parts[1] + parts[2] + parts[3] + parts[4], parts, 5);
    RunDrop(acc + parts[0] + parts[1] + parts[2] + parts[3] + parts[4] + parts[5], parts, 6);
    RunDrop(acc + parts[0] + parts[1] + parts[2] + parts[3] + parts[4] + parts[5] + parts[6], parts, 7);
    RunDrop(acc + parts[0] + parts[1] + parts[2] + parts[3] + parts[4] + parts[5] + parts[6] + parts[7], parts, 8);
    RunDrop(acc + parts[0] + parts[1] + parts[2] + parts[3] + parts[4] + parts[5] + parts[6] + parts[7] + parts[8], parts, 9);
    RunDrop(acc + parts[0] + parts[1] + parts[2] + parts[3] + parts[4] + parts[5] + parts[6] + parts[7] + parts[8] + parts[9], parts, 10);
    RunDrop(acc + parts[0] + parts[1] + parts[2] + parts[3] + parts[4] + parts[5] + parts[6] + parts[7] + parts[8] + parts[9] + parts[10], parts, 11);
    RunDrop(acc + parts[0] + parts[1] + parts[2] + parts[3] + parts[4] + parts[5] + parts[6] + parts[7] + parts[8] + parts[9] + parts[10] + parts[11], parts, 12);
    RunDrop(acc + parts[0] + parts[1] + parts[2] + parts[3] + parts[4] + parts[5] + parts[6] + parts[7] + parts[8] + parts[9] + parts[10] + parts[11] + parts[12], parts, 13);
    RunDrop(acc + parts[0] + parts[1] + parts[2] + parts[3] + parts[4] + parts[5] + parts[6] + parts[7] + parts[8] + parts[9] + parts[10] + parts[11] + parts[12] + parts[13], parts, 14);
    RunDrop(acc + parts[0] + parts[1] + parts[2] + parts[3] + parts[4] + parts[5] + parts[6] + parts[7] + parts[8] + parts[9] + parts[10] + parts[11] + parts[12] + parts[13] + parts[14], parts, 15);
    RunDone(acc + parts[0] + parts[1] + parts[2] + parts[3] + parts[4] + parts[5] + parts[6] + parts[7] + parts[8] + parts[9] + parts[10] + parts[11] + parts[12] + parts[13] + parts[14] + parts[15], parts);
    RunAppendsConcat(acc, parts);
  }
}
