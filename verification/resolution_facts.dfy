/** What resolving references guarantees. */
module ResolutionFacts {

  import opened Base
  import opened Tree
  import opened Formatting
  import opened Registry
  import opened Resolution

  /** The number of references placed directly in the list. */
  function RefCount(cs: seq<Block>): nat {
    if cs == [] then 0 else (if cs[0].kind.Reference? then 1 else 0) + RefCount(cs[1..])
  }

  /** The target of the first reference placed directly in the list. */
  function FirstRef(cs: seq<Block>): (r: Option<string>)
    ensures r.None? <==> RefCount(cs) == 0
  {
    if cs == [] then None
    else if cs[0].kind.Reference? then Some(cs[0].kind.target)
    else FirstRef(cs[1..])
  }

  /** Every reference of the subtree sits directly in a macro marker, and no
      marker holds two references directly. */
  predicate RefsPlaced(b: Block)
    decreases b
  {
    && AllPlaced(b.children, b.kind.MacroMarker?)
    && (b.kind.MacroMarker? ==> RefCount(b.children) <= 1)
  }

  predicate AllPlaced(cs: seq<Block>, underMarker: bool)
    decreases cs
  {
    forall i :: 0 <= i < |cs| ==> (cs[i].kind.Reference? ==> underMarker) && RefsPlaced(cs[i])
  }

  /** No reference anywhere in the subtree. */
  predicate NoRefs(b: Block)
    decreases b
  {
    && !b.kind.Reference?
    && forall i :: 0 <= i < |b.children| ==> NoRefs(b.children[i])
  }

  predicate NoRefsSeq(cs: seq<Block>) {
    forall i :: 0 <= i < |cs| ==> NoRefs(cs[i])
  }

  /** The generator returns no reference placeholder, whatever it is asked
      to show. */
  ghost predicate ErrorsHaveNoRefs(gen: ErrorGen) {
    forall m, d, inline :: NoRefsSeq(gen(m, d, inline))
  }

  lemma AllPlacedSplit(cs: seq<Block>, m: bool)
    requires |cs| > 0
    ensures AllPlaced(cs, m) <==> (cs[0].kind.Reference? ==> m) && RefsPlaced(cs[0]) && AllPlaced(cs[1..], m)
  {
    assert forall i :: 1 <= i < |cs| ==> cs[1..][i - 1] == cs[i];
  }

  lemma NoRefsAppend(a: seq<Block>, b: seq<Block>)
    ensures NoRefsSeq(a + b) <==> NoRefsSeq(a) && NoRefsSeq(b)
  {
    assert forall i :: 0 <= i < |a| ==> (a + b)[i] == a[i];
    assert forall i :: 0 <= i < |b| ==> (a + b)[|a| + i] == b[i];
  }

  /** A replacement holds no reference, unless the generator puts one there. */
  lemma ReplacementHasNoRefs(target: string, inline: bool, reg: Registry, gen: ErrorGen)
    ensures target in reg || ErrorsHaveNoRefs(gen) ==> NoRefsSeq(Replacement(target, inline, reg, gen))
  {
    if target in reg {
      var bs := SerializeNumber(reg[target]);
      forall i | 0 <= i < |bs| ensures NoRefs(bs[i]) {
        SerializeAlternates(reg[target]);
      }
      assert NoRefs(Replacement(target, inline, reg, gen)[0]);
    }
  }

  /** The outcome of resolving a list that is not directly in a marker. */
  ghost predicate SeqOutcome(r: Result<seq<Block>>, placed: bool, gen: ErrorGen) {
    && (r.Ok? <==> placed)
    && (r.Fail? ==> IsResolutionCrash(r.crash))
    && (r.Ok? && ErrorsHaveNoRefs(gen) ==> NoRefsSeq(r.value))
  }

  /** Resolution succeeds exactly when every reference sits directly in a
      macro marker holding no other reference directly; it then leaves no
      reference in the document (as long as the generator adds none), and
      otherwise crashes on a misplaced reference. */
  lemma {:induction false} ResolveSeqOutcome(cs: seq<Block>, reg: Registry, gen: ErrorGen)
    ensures SeqOutcome(ResolveSeq(cs, reg, gen), AllPlaced(cs, false), gen)
    decreases cs, 0
  {
    if cs != [] {
      AllPlacedSplit(cs, false);
      if !cs[0].kind.Reference? {
        ResolveNodeOutcome(cs[0], reg, gen);
        ResolveSeqOutcome(cs[1..], reg, gen);
        var head := ResolveNode(cs[0], reg, gen);
        var tail := ResolveSeq(cs[1..], reg, gen);
        if head.Ok? && tail.Ok? {
          NoRefsAppend(head.value, tail.value);
        }
      }
    }
  }

  lemma {:induction false} ResolveNodeOutcome(b: Block, reg: Registry, gen: ErrorGen)
    requires !b.kind.Reference?
    ensures var r := ResolveNode(b, reg, gen);
      && (r.Ok? <==> RefsPlaced(b))
      && (r.Ok? && ErrorsHaveNoRefs(gen) ==> NoRefsSeq(r.value))
    decreases b, 1
  {
    if b.kind.MacroMarker? {
      MarkerSeqOutcome(b.children, reg, gen, None);
      var inner := MarkerSeq(b.children, reg, gen, None);
      if inner.Ok? && inner.value.1.Some? {
        ReplacementHasNoRefs(inner.value.1.value, b.kind.inline, reg, gen);
      } else if inner.Ok? && ErrorsHaveNoRefs(gen) {
        assert NoRefs(Block(b.kind, inner.value.0));
      }
    } else {
      ResolveSeqOutcome(b.children, reg, gen);
      var cs := ResolveSeq(b.children, reg, gen);
      if cs.Ok? {
        assert NoRefs(ResolveNode(b, reg, gen).value[0]) <== NoRefsSeq(cs.value);
      }
    }
  }

  lemma {:induction false} MarkerSeqOutcome(cs: seq<Block>, reg: Registry, gen: ErrorGen, first: Option<string>)
    ensures var r := MarkerSeq(cs, reg, gen, first);
      && (r.Ok? <==> AllPlaced(cs, true) && RefCount(cs) + (if first.Some? then 1 else 0) <= 1)
      && (r.Ok? ==> r.value.1 == if first.Some? then first else FirstRef(cs))
      && (r.Ok? && r.value.1.None? && ErrorsHaveNoRefs(gen) ==> NoRefsSeq(r.value.0))
    decreases cs, 0
  {
    if cs != [] {
      AllPlacedSplit(cs, true);
      if cs[0].kind.Reference? {
        if first.None? {
          ResolveSeqOutcome(cs[0].children, reg, gen);
          MarkerSeqOutcome(cs[1..], reg, gen, Some(cs[0].kind.target));
        }
      } else {
        ResolveNodeOutcome(cs[0], reg, gen);
        MarkerSeqOutcome(cs[1..], reg, gen, first);
        var head := ResolveNode(cs[0], reg, gen);
        var rest := MarkerSeq(cs[1..], reg, gen, first);
        if head.Ok? && rest.Ok? {
          NoRefsAppend(head.value, rest.value.0);
        }
      }
    }
  }

  /** A marker holding a reference directly is replaced, as a whole, by the
      replacement for that reference's target. */
  lemma MarkerReplaced(b: Block, reg: Registry, gen: ErrorGen)
    requires b.kind.MacroMarker? && RefsPlaced(b) && RefCount(b.children) == 1
    ensures ResolveNode(b, reg, gen) == Ok(Replacement(FirstRef(b.children).value, b.kind.inline, reg, gen))
  {
    MarkerSeqOutcome(b.children, reg, gen, None);
  }

  /** A document without references comes out of resolution unchanged. */
  lemma {:induction false} NoRefsSeqUnchanged(cs: seq<Block>, reg: Registry, gen: ErrorGen)
    requires NoRefsSeq(cs)
    ensures ResolveSeq(cs, reg, gen) == Ok(cs)
    decreases cs, 0
  {
    if cs != [] {
      NoRefsUnchanged(cs[0], reg, gen);
      assert NoRefsSeq(cs[1..]) by {
        assert forall i :: 0 <= i < |cs| - 1 ==> cs[1..][i] == cs[i + 1];
      }
      NoRefsSeqUnchanged(cs[1..], reg, gen);
      assert [cs[0]] + cs[1..] == cs;
    }
  }

  lemma {:induction false} NoRefsUnchanged(b: Block, reg: Registry, gen: ErrorGen)
    requires NoRefs(b)
    ensures ResolveNode(b, reg, gen) == Ok([b])
    decreases b, 1
  {
    if b.kind.MacroMarker? {
      NoRefsMarkerUnchanged(b.children, reg, gen);
    } else {
      NoRefsSeqUnchanged(b.children, reg, gen);
    }
  }

  lemma {:induction false} NoRefsMarkerUnchanged(cs: seq<Block>, reg: Registry, gen: ErrorGen)
    requires NoRefsSeq(cs)
    ensures MarkerSeq(cs, reg, gen, None) == Ok((cs, None))
    decreases cs, 0
  {
    if cs != [] {
      NoRefsUnchanged(cs[0], reg, gen);
      assert NoRefsSeq(cs[1..]) by {
        assert forall i :: 0 <= i < |cs| - 1 ==> cs[1..][i] == cs[i + 1];
      }
      NoRefsMarkerUnchanged(cs[1..], reg, gen);
      assert [cs[0]] + cs[1..] == cs;
    }
  }

  /** Two outcomes of resolution put side by side: the first crash wins. */
  function Splice(x: Result<seq<Block>>, y: Result<seq<Block>>): Result<seq<Block>> {
    if x.Fail? then x else if y.Fail? then y else Ok(x.value + y.value)
  }

  /** Outside markers, resolution works in place: resolving two lists put
      together puts their resolutions together. */
  lemma {:induction false} ResolveSeqAppend(a: seq<Block>, b: seq<Block>, reg: Registry, gen: ErrorGen)
    ensures ResolveSeq(a + b, reg, gen) == Splice(ResolveSeq(a, reg, gen), ResolveSeq(b, reg, gen))
    decreases a
  {
    if a == [] {
      assert a + b == b;
      var rb := ResolveSeq(b, reg, gen);
      if rb.Ok? {
        Nil(rb.value);
      }
    } else {
      assert (a + b)[0] == a[0];
      assert (a + b)[1..] == a[1..] + b;
      ResolveSeqAppend(a[1..], b, reg, gen);
      var head := ResolveNode(a[0], reg, gen);
      var ra := ResolveSeq(a[1..], reg, gen);
      var rb := ResolveSeq(b, reg, gen);
      if !a[0].kind.Reference? && head.Ok? && ra.Ok? && rb.Ok? {
        assert head.value + (ra.value + rb.value) == head.value + ra.value + rb.value;
      }
    }
  }

  /** A single block that is no reference resolves to the blocks taking its place. */
  lemma ResolveSeqSingle(b: Block, reg: Registry, gen: ErrorGen)
    requires !b.kind.Reference?
    ensures ResolveSeq([b], reg, gen) == ResolveNode(b, reg, gen)
  {
    One(b);
    var head := ResolveNode(b, reg, gen);
    if head.Ok? {
      Nil(head.value);
    }
  }

  /** Outside markers, blocks that each stay a single block resolve
      position by position. */
  lemma {:induction false} ResolveSeqElementwise(cs: seq<Block>, out: seq<Block>, reg: Registry, gen: ErrorGen)
    requires |out| == |cs|
    requires forall i :: 0 <= i < |cs| ==> !cs[i].kind.Reference? && ResolveNode(cs[i], reg, gen) == Ok([out[i]])
    ensures ResolveSeq(cs, reg, gen) == Ok(out)
    decreases cs
  {
    if cs != [] {
      assert forall i :: 0 <= i < |cs| - 1 ==> cs[1..][i] == cs[i + 1] && out[1..][i] == out[i + 1];
      ResolveSeqElementwise(cs[1..], out[1..], reg, gen);
      assert [out[0]] + out[1..] == out;
    }
  }

  /** The number inserted in a header holds no reference. */
  lemma PrefixHasNoRefs(n: Num)
    ensures NoRefsSeq(NumberPrefix(n))
  {
    var bs := SerializeNumber(n);
    forall j | 0 <= j < |bs| ensures NoRefs(bs[j]) {
      SerializeAlternates(n);
    }
    assert NoRefs(NumberPrefix(n)[0]);
  }
}
