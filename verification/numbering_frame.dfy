/** What numbering does to a tree, and nothing more: it puts a number prefix
    in front of the content of some headers and changes nothing else. */
module NumberingFrame {

  import opened Base
  import opened Tree
  import opened Formatting
  import opened Numbering
  import opened NumberingFacts

  /** b is a, with a number prefix (a numbered format block and a space) put
      in front of the content of some of a's headers; every kind, every other
      block and the order of all blocks are the same. */
  ghost predicate Grown(a: Block, b: Block)
    decreases a
  {
    && b.kind == a.kind
    && (|| GrownSeq(a.children, b.children)
        || (&& a.kind.Header?
            && |b.children| >= 2
            && (exists n: Num :: b.children[..2] == NumberPrefix(n))
            && GrownSeq(a.children, b.children[2..])))
  }

  ghost predicate GrownSeq(xs: seq<Block>, ys: seq<Block>)
    decreases xs
  {
    |xs| == |ys| && forall i :: 0 <= i < |xs| ==> Grown(xs[i], ys[i])
  }

  /** A grown first block in front of a grown list. */
  lemma GrownCons(xs: seq<Block>, ys: seq<Block>, k: nat)
    requires |xs| > 0 && k < |ys|
    requires Grown(xs[0], ys[k]) && GrownSeq(xs[1..], ys[k + 1..])
    ensures GrownSeq(xs, ys[k..])
  {
    forall i | 0 <= i < |xs| ensures Grown(xs[i], ys[k..][i]) {
      if i > 0 {
        assert xs[i] == xs[1..][i - 1] && ys[k..][i] == ys[k + 1..][i - 1];
      }
    }
  }

  /** A header that receives number n: its new content is the prefix in front
      of its visited content. */
  lemma PrefixGrown(b: Block, n: Num, inner: seq<Block>)
    requires b.kind.Header? && GrownSeq(b.children, inner)
    ensures Grown(b, Block(b.kind, NumberPrefix(n) + inner))
  {
    var cs := NumberPrefix(n) + inner;
    assert cs[..2] == NumberPrefix(n);
    assert cs[2..] == inner;
  }

  /** Numbering a block only grows it. */
  lemma {:induction false} BlockGrown(b: Block, ctx: Ctx)
    ensures NumberBlock(b, ctx).Ok? ==> Grown(b, NumberBlock(b, ctx).value.0)
    decreases b, 1
  {
    var fate := Fate(b, ctx.prot, ctx.section);
    var inner := NumberSeq(b.children, ChildEnv(b, ctx), [], []);
    SeqGrown(b.children, ChildEnv(b, ctx), [], []);
    if fate.Ok? && inner.Ok? {
      assert inner.value.0[0..] == inner.value.0;
      if fate.value.Some? {
        PrefixGrown(b, fate.value.value, inner.value.0);
      }
    }
  }

  /** Numbering a list of siblings only grows the blocks still to visit,
      position by position. */
  lemma {:induction false} SeqGrown(rest: seq<Block>, env: Env, done: seq<Block>, events: seq<Event>)
    ensures var r := NumberSeq(rest, env, done, events);
      r.Ok? ==> GrownSeq(rest, r.value.0[|done|..])
    decreases rest, 0
  {
    if rest == [] {
      assert done[|done|..] == [];
    } else {
      var ctx := ChildCtx(env, done, rest);
      var first := NumberBlock(rest[0], ctx);
      BlockGrown(rest[0], ctx);
      if first.Ok? {
        var x := first.value;
        NumberSeqStep(rest, env, done, events, x.0, x.1);
        SeqGrown(rest[1..], env, done + [x.0], events + x.1);
        var r := NumberSeq(rest[1..], env, done + [x.0], events + x.1);
        if r.Ok? {
          var out := r.value.0;
          assert out[..|done| + 1] == done + [x.0];
          assert out[|done|] == (done + [x.0])[|done|];
          GrownCons(rest, out, |done|);
        }
      }
    }
  }

  /** The whole document: numbering puts number prefixes in front of header
      content and changes nothing else. */
  lemma DocumentGrown(top: seq<Block>)
    ensures NumberHeadings(top).Ok? ==> GrownSeq(top, NumberHeadings(top).value.0)
  {
    SeqGrown(top, TopEnv, [], []);
    var r := NumberHeadings(top);
    if r.Ok? {
      assert r.value.0[0..] == r.value.0;
    }
  }
}
