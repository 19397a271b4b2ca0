/** The greedy last-object walk over agent output, for any JSON decoder that advances. */
module Verdict {
  import opened Wrappers

  /** `decode(i)` is where the object decoded at position i ends, or None when decoding fails there. */
  type Decoder = nat -> Option<nat>

  ghost predicate Advances(text: string, decode: Decoder) {
    forall i: nat :: i < |text| && decode(i).Some? ==> i < decode(i).value <= |text|
  }

  /** Position i opens an object the decoder accepts. */
  predicate Decodes(text: string, decode: Decoder, i: nat) {
    i < |text| && text[i] == '{' && decode(i).Some?
  }

  function Find(text: string, pos: nat): (r: Option<nat>)
    requires pos <= |text|
    ensures r.Some? ==> pos <= r.value < |text| && text[r.value] == '{' &&
                        forall j :: pos <= j < r.value ==> text[j] != '{'
    ensures r.None? ==> forall j :: pos <= j < |text| ==> text[j] != '{'
    decreases |text| - pos
  {
    if pos == |text| then None else if text[pos] == '{' then Some(pos) else Find(text, pos + 1)
  }

  /** A sequence of slices, left to right, from pos on: each decodes and none overlaps the next. */
  predicate Disjoint(text: string, decode: Decoder, pos: nat, slices: seq<(nat, nat)>) {
    (forall k :: 0 <= k < |slices| ==> Decodes(text, decode, slices[k].0) && decode(slices[k].0) == Some(slices[k].1)) &&
    (forall k :: 0 <= k < |slices| ==> pos <= slices[k].0 < slices[k].1 <= |text|) &&
    (forall k, l :: 0 <= k < l < |slices| ==> slices[k].1 <= slices[l].0)
  }

  predicate Inside(slices: seq<(nat, nat)>, p: nat) {
    exists k :: 0 <= k < |slices| && slices[k].0 < p < slices[k].1
  }

  predicate Starts(slices: seq<(nat, nat)>, p: nat) {
    exists k :: 0 <= k < |slices| && slices[k].0 == p
  }

  /** Greedy: a position that decodes is skipped only when an earlier slice has swallowed it. */
  predicate Greedy(text: string, decode: Decoder, pos: nat, slices: seq<(nat, nat)>) {
    forall p :: pos <= p < |text| && Decodes(text, decode, p) ==> Starts(slices, p) || Inside(slices, p)
  }

  /** The greedy chain of a text is unique, so "the last slice of the chain" is well defined. */
  lemma {:induction false} GreedyIsUnique(text: string, decode: Decoder, pos: nat, a: seq<(nat, nat)>, b: seq<(nat, nat)>)
    requires Disjoint(text, decode, pos, a) && Greedy(text, decode, pos, a)
    requires Disjoint(text, decode, pos, b) && Greedy(text, decode, pos, b)
    ensures a == b
    decreases |a|
  {
    if a == [] {
      EmptyChain(text, decode, pos, b);
    } else if b == [] {
      EmptyChain(text, decode, pos, a);
    } else {
      FirstIsLeast(text, decode, pos, a, b);
      FirstIsLeast(text, decode, pos, b, a);
      TailIsGreedy(text, decode, pos, a);
      TailIsGreedy(text, decode, pos, b);
      GreedyIsUnique(text, decode, a[0].1, a[1..], b[1..]);
      assert a == [a[0]] + a[1..] && b == [b[0]] + b[1..];
    }
  }

  lemma EmptyChain(text: string, decode: Decoder, pos: nat, b: seq<(nat, nat)>)
    requires Greedy(text, decode, pos, []) && Disjoint(text, decode, pos, b)
    ensures b == []
  {
    assert b != [] ==> Decodes(text, decode, b[0].0) && !Starts([], b[0].0) && !Inside([], b[0].0);
  }

  lemma FirstIsLeast(text: string, decode: Decoder, pos: nat, a: seq<(nat, nat)>, b: seq<(nat, nat)>)
    requires Disjoint(text, decode, pos, a) && Greedy(text, decode, pos, a) && a != []
    requires Disjoint(text, decode, pos, b) && b != []
    ensures a[0].0 <= b[0].0
  {
    assert Decodes(text, decode, b[0].0);
  }

  lemma TailIsGreedy(text: string, decode: Decoder, pos: nat, a: seq<(nat, nat)>)
    requires Disjoint(text, decode, pos, a) && Greedy(text, decode, pos, a) && a != []
    ensures Disjoint(text, decode, a[0].1, a[1..]) && Greedy(text, decode, a[0].1, a[1..])
  {
    forall p | a[0].1 <= p < |text| && Decodes(text, decode, p)
      ensures Starts(a[1..], p) || Inside(a[1..], p)
    {
      if Starts(a, p) {
        var k :| 0 <= k < |a| && a[k].0 == p;
        assert a[1..][k - 1].0 == p;
      } else {
        var k :| 0 <= k < |a| && a[k].0 < p < a[k].1;
        assert a[1..][k - 1] == a[k];
      }
    }
  }

  /** The greedy chain from pos on. */
  ghost function Walk(text: string, decode: Decoder, pos: nat): (slices: seq<(nat, nat)>)
    requires Advances(text, decode) && pos <= |text|
    ensures Disjoint(text, decode, pos, slices)
    decreases |text| - pos
  {
    var idx := Find(text, pos);
    if idx.None? then []
    else if decode(idx.value).None? then Walk(text, decode, idx.value + 1)
    else [(idx.value, decode(idx.value).value)] + Walk(text, decode, decode(idx.value).value)
  }

  lemma {:induction false} WalkIsGreedy(text: string, decode: Decoder, pos: nat)
    requires Advances(text, decode) && pos <= |text|
    ensures Greedy(text, decode, pos, Walk(text, decode, pos))
    decreases |text| - pos
  {
    var idx := Find(text, pos);
    if idx.Some? {
      if decode(idx.value).None? {
        WalkIsGreedy(text, decode, idx.value + 1);
      } else {
        var end := decode(idx.value).value;
        var slice, rest := (idx.value, end), Walk(text, decode, end);
        WalkIsGreedy(text, decode, end);
        forall p | pos <= p < |text| && Decodes(text, decode, p)
          ensures Starts([slice] + rest, p) || Inside([slice] + rest, p)
        {
          assert ([slice] + rest)[0] == slice;
          if p >= end {
            Prepended(slice, rest, p);
          }
        }
      }
    }
  }

  lemma Prepended(slice: (nat, nat), rest: seq<(nat, nat)>, p: nat)
    requires Starts(rest, p) || Inside(rest, p)
    ensures Starts([slice] + rest, p) || Inside([slice] + rest, p)
  {
    if Starts(rest, p) {
      var k :| 0 <= k < |rest| && rest[k].0 == p;
      assert ([slice] + rest)[k + 1].0 == p;
    } else {
      var k :| 0 <= k < |rest| && rest[k].0 < p < rest[k].1;
      assert ([slice] + rest)[k + 1] == rest[k];
    }
  }

  ghost function LastOf(slices: seq<(nat, nat)>, otherwise: Option<(nat, nat)>): Option<(nat, nat)> {
    if slices == [] then otherwise else Some(slices[|slices| - 1])
  }

  lemma OnlyTheWalk(text: string, decode: Decoder)
    requires Advances(text, decode)
    ensures forall slices :: Disjoint(text, decode, 0, slices) && Greedy(text, decode, 0, slices) ==> slices == Walk(text, decode, 0)
  {
    forall slices | Disjoint(text, decode, 0, slices) && Greedy(text, decode, 0, slices)
      ensures slices == Walk(text, decode, 0)
    {
      WalkIsGreedy(text, decode, 0);
      GreedyIsUnique(text, decode, 0, slices, Walk(text, decode, 0));
    }
  }

  /** The search: the last slice of the chain from the beginning. */
  method LastOfWalk(text: string, decode: Decoder) returns (last: Option<(nat, nat)>)
    requires Advances(text, decode)
    ensures last == LastOf(Walk(text, decode, 0), None)
  {
    var pos := 0;
    last := None;
    var idx := Find(text, pos);
    while idx.Some?
      invariant pos <= |text| && idx == Find(text, pos)
      invariant LastOf(Walk(text, decode, 0), None) == LastOf(Walk(text, decode, pos), last)
      decreases |text| - pos
    {
      var end := decode(idx.value);
      if end.None? {
        pos := idx.value + 1;
      } else {
        last := Some((idx.value, end.value));
        pos := end.value;
      }
      idx := Find(text, pos);
    }
  }

  /** The walk: it terminates for every advancing decoder and returns the last slice of the one greedy chain. */
  method LastJsonObject(text: string, decode: Decoder) returns (last: Option<(nat, nat)>)
    requires Advances(text, decode)
    ensures last == LastOf(Walk(text, decode, 0), None)
    ensures forall slices :: Disjoint(text, decode, 0, slices) && Greedy(text, decode, 0, slices) ==> last == LastOf(slices, None)
  {
    OnlyTheWalk(text, decode);
    last := LastOfWalk(text, decode);
  }

  /** The walk fails exactly when no brace in the text opens an object that decodes. */
  lemma FailsExactly(text: string, decode: Decoder)
    requires Advances(text, decode)
    ensures Walk(text, decode, 0) == [] <==> forall p :: 0 <= p < |text| ==> !Decodes(text, decode, p)
  {
    var slices := Walk(text, decode, 0);
    WalkIsGreedy(text, decode, 0);
    if slices != [] {
      assert Decodes(text, decode, slices[0].0);
    } else {
      assert forall p :: !Starts([], p) && !Inside([], p);
    }
  }

  /** The chain's last slice: nothing decodable starts at or after its end, no other slice of the
      chain contains or overlaps it, and every slice before it ends before it starts. */
  lemma LastIsOutermostAndFinal(text: string, decode: Decoder, slices: seq<(nat, nat)>)
    requires Disjoint(text, decode, 0, slices) && Greedy(text, decode, 0, slices) && slices != []
    ensures var last := slices[|slices| - 1];
            (forall p :: last.1 <= p < |text| ==> !Decodes(text, decode, p)) &&
            !Inside(slices, last.0) &&
            (forall k :: 0 <= k < |slices| - 1 ==> slices[k].1 <= last.0)
  {
  }

  /** A planted object cannot win over the real answer: an object at p that no earlier decodable object
      reaches into, and that nothing decodable follows, is the answer - and only such an object is. */
  lemma AnswerIsExactly(text: string, decode: Decoder, slices: seq<(nat, nat)>, p: nat)
    requires Advances(text, decode)
    requires Disjoint(text, decode, 0, slices) && Greedy(text, decode, 0, slices) && Decodes(text, decode, p)
    requires forall q :: 0 <= q < p && Decodes(text, decode, q) ==> decode(q).value <= p
    ensures (slices != [] && slices[|slices| - 1] == (p, decode(p).value)) <==>
            forall q :: decode(p).value <= q < |text| ==> !Decodes(text, decode, q)
  {
    assert forall k :: 0 <= k < |slices| ==> Decodes(text, decode, slices[k].0);
    assert !Inside(slices, p);
    var k :| 0 <= k < |slices| && slices[k].0 == p;
    LastIsOutermostAndFinal(text, decode, slices);
    if k < |slices| - 1 {
      assert Decodes(text, decode, slices[k + 1].0);
    }
  }
}
