/** The whole transformation: number the headers, then resolve the
    references against the numbers recorded. */
module Transformation {

  import opened Base
  import opened Tree
  import opened Formatting
  import opened Numbering
  import opened NumberingFacts
  import opened Registry
  import opened Resolution
  import opened ResolutionFacts
  import opened FreshNumbering

  /** The registry built while numbering: header ids and the names of the
      document's id blocks. */
  function RegistryOf(numbered: seq<Block>, events: seq<Event>): Registry {
    BuildRegistry(events, IdNamesSeq(numbered))
  }

  lemma {:induction false} AllPlacedAppend(a: seq<Block>, b: seq<Block>, m: bool)
    ensures AllPlaced(a + b, m) <==> AllPlaced(a, m) && AllPlaced(b, m)
  {
    assert forall i :: 0 <= i < |a| ==> (a + b)[i] == a[i];
    assert forall i :: 0 <= i < |b| ==> (a + b)[|a| + i] == b[i];
  }

  lemma {:induction false} RefCountAppend(a: seq<Block>, b: seq<Block>)
    ensures RefCount(a + b) == RefCount(a) + RefCount(b)
    decreases a
  {
    if a == [] {
      assert a + b == b;
    } else {
      assert (a + b)[1..] == a[1..] + b;
      RefCountAppend(a[1..], b);
    }
  }

  /** The number put in front of a header's content holds no reference. */
  lemma PrefixPlaced(n: Num, m: bool)
    ensures AllPlaced(NumberPrefix(n), m) && RefCount(NumberPrefix(n)) == 0
  {
    var bs := SerializeNumber(n);
    forall j | 0 <= j < |bs| ensures RefsPlaced(bs[j]) && !bs[j].kind.Reference? {
      SerializeAlternates(n);
    }
    var p := NumberPrefix(n);
    assert RefsPlaced(p[0]);
    assert p[1..] == [Leaf(Space)] && p[1..][1..] == [];
    assert RefCount(p) == RefCount(p[1..]) == RefCount(p[1..][1..]);
  }

  /** Swapping one block for another of the same kind, placed the same way,
      changes neither the placement nor the count of direct references. */
  lemma SwapKeepsPlaced(done: seq<Block>, y: Block, z: Block, tail: seq<Block>, m: bool)
    requires y.kind == z.kind && (RefsPlaced(y) <==> RefsPlaced(z))
    ensures AllPlaced(done + [y] + tail, m) <==> AllPlaced(done + [z] + tail, m)
    ensures RefCount(done + [y] + tail) == RefCount(done + [z] + tail)
  {
    AllPlacedAppend(done + [y], tail, m);
    AllPlacedAppend(done + [z], tail, m);
    AllPlacedAppend(done, [y], m);
    AllPlacedAppend(done, [z], m);
    RefCountAppend(done + [y], tail);
    RefCountAppend(done + [z], tail);
    RefCountAppend(done, [y]);
    RefCountAppend(done, [z]);
    One(y);
    One(z);
  }

  /** Numbering moves no reference: a block is well placed after numbering
      exactly when it was before. */
  lemma {:induction false} NumberBlockKeepsPlaced(b: Block, ctx: Ctx)
    ensures NumberBlock(b, ctx).Ok? ==> (RefsPlaced(NumberBlock(b, ctx).value.0) <==> RefsPlaced(b))
    decreases b, 1
  {
    var fate := Fate(b, ctx.prot, ctx.section);
    var inner := NumberSeq(b.children, ChildEnv(b, ctx), [], []);
    NumberSeqKeepsPlaced(b.children, ChildEnv(b, ctx), [], [], b.kind.MacroMarker?);
    if fate.Ok? && inner.Ok? {
      Nil(b.children);
      if fate.value.Some? {
        var n := fate.value.value;
        PrefixPlaced(n, b.kind.MacroMarker?);
        AllPlacedAppend(NumberPrefix(n), inner.value.0, b.kind.MacroMarker?);
        RefCountAppend(NumberPrefix(n), inner.value.0);
      }
    }
  }

  lemma {:induction false} NumberSeqKeepsPlaced(rest: seq<Block>, env: Env, done: seq<Block>, events: seq<Event>, m: bool)
    ensures var r := NumberSeq(rest, env, done, events);
      r.Ok? ==> && (AllPlaced(r.value.0, m) <==> AllPlaced(done + rest, m))
                && RefCount(r.value.0) == RefCount(done + rest)
    decreases rest, 0
  {
    if rest == [] {
      Nil(done);
    } else {
      var ctx := ChildCtx(env, done, rest);
      var first := NumberBlock(rest[0], ctx);
      NumberBlockKeepsPlaced(rest[0], ctx);
      if first.Ok? {
        var x := first.value;
        NumberSeqStep(rest, env, done, events, x.0, x.1);
        NumberSeqKeepsPlaced(rest[1..], env, done + [x.0], events + x.1, m);
        ShiftHead(done, rest);
        SwapKeepsPlaced(done, x.0, rest[0], rest[1..], m);
      }
    }
  }

  /** Transforms the children of the document root; gen is the error block
      generator. */
  function Transform(top: seq<Block>, gen: ErrorGen): Result<seq<Block>> {
    var numbered :- NumberHeadings(top);
    ResolveSeq(numbered.0, RegistryOf(numbered.0, numbered.1), gen)
  }

  /** The transformation succeeds exactly when the headers can be numbered
      and every reference of the document sits directly in a macro marker
      holding no other one; it then leaves no reference placeholder, as long
      as the generator shows none. */
  lemma TransformResolvesAll(top: seq<Block>, gen: ErrorGen)
    ensures Transform(top, gen).Ok? <==> NumberHeadings(top).Ok? && AllPlaced(top, false)
    ensures Transform(top, gen).Ok? && ErrorsHaveNoRefs(gen) ==> NoRefsSeq(Transform(top, gen).value)
  {
    var numbered := NumberHeadings(top);
    if numbered.Ok? {
      NumberSeqKeepsPlaced(top, TopEnv, [], [], false);
      Nil(top);
      ResolveSeqOutcome(numbered.value.0, RegistryOf(numbered.value.0, numbered.value.1), gen);
    }
  }

  /** On a document without numbers, a header to number outside any section
      is the one reason for the numbering part to fail. */
  lemma FreshTransformCrash(top: seq<Block>, gen: ErrorGen)
    requires FreshSeq(top)
    ensures Transform(top, gen) == Fail(HeaderOutsideSection) <==> !PlacedSeq(top, false, false)
    ensures PlacedSeq(top, false, false) && Transform(top, gen).Fail? ==> IsResolutionCrash(Transform(top, gen).crash)
  {
    FreshDocumentNumbering(top);
  }
}
