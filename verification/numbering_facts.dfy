/** What the numbering pass guarantees. */
module NumberingFacts {

  import opened Base
  import opened Tree
  import opened Formatting
  import opened Protection
  import opened Search
  import opened Numbering

  /** No header of the subtree would be numbered: each one is empty or protected. */
  predicate Inert(b: Block, prot: bool)
    decreases b
  {
    && (b.kind.Header? ==> Skipped(b, prot))
    && forall i :: 0 <= i < |b.children| ==> Inert(b.children[i], prot || IsProtectedBlock(b))
  }

  predicate InertSeq(cs: seq<Block>, prot: bool) {
    forall i :: 0 <= i < |cs| ==> Inert(cs[i], prot)
  }

  /** A subtree without live headers comes out of the numbering pass exactly as
      it went in, and records nothing. */
  lemma {:induction false} InertBlockUnchanged(b: Block, ctx: Ctx)
    requires Inert(b, ctx.prot)
    ensures NumberBlock(b, ctx) == Ok((b, []))
    decreases b, 1
  {
    InertSeqUnchanged(b.children, ChildEnv(b, ctx), [], []);
    assert [] + b.children == b.children;
  }

  lemma {:induction false} InertSeqUnchanged(rest: seq<Block>, env: Env, done: seq<Block>, events: seq<Event>)
    requires InertSeq(rest, env.prot)
    ensures NumberSeq(rest, env, done, events) == Ok((done + rest, events))
    decreases rest, 0
  {
    if rest == [] {
      assert done + rest == done;
    } else {
      InertBlockUnchanged(rest[0], ChildCtx(env, done, rest));
      InertSeqUnchanged(rest[1..], env, done + [rest[0]], events + []);
      ShiftHead(done, rest);
      assert events + [] == events;
    }
  }

  /** A numbered header whose content holds no live header: the marked number
      and a space are put in front of the content, which is otherwise
      unchanged, and one event records the header's id and number. */
  lemma NumberedHeaderPrefix(b: Block, ctx: Ctx, n: Num)
    requires Fate(b, ctx.prot, ctx.section) == Ok(Some(n))
    requires InertSeq(b.children, ctx.prot)
    ensures NumberBlock(b, ctx) == Ok((Block(b.kind, NumberPrefix(n) + b.children), [Event(b.kind.id, n)]))
  {
    var inner := NumberSeq(b.children, ChildEnv(b, ctx), [], []);
    InertSeqUnchanged(b.children, ChildEnv(b, ctx), [], []);
    assert [] + b.children == b.children;
    assert inner == Ok((b.children, []));
    assert NumberBlock(b, ctx) == Ok((Block(b.kind, NumberPrefix(n) + inner.value.0), [Event(b.kind.id, n)] + inner.value.1));
    assert inner.value.0 == b.children;
    assert [Event(b.kind.id, n)] + inner.value.1 == [Event(b.kind.id, n)];
  }

  /** The preceding-sibling search finds the nearest numbered section. */
  lemma SiblingSearchNearest(done: seq<Block>, j: int, s: Num)
    requires 0 <= j < |done| && done[j].kind.Section? && HeadingNumber(done[j]) == Ok(s) && s != []
    requires forall k :: j < k < |done| ==> Silent(done[k])
    ensures SiblingSearch(done) == Ok(s)
  {
    var cands := Reverse(done);
    var i0 := |done| - 1 - j;
    assert cands[i0] == done[j];
    assert !Silent(cands[i0]);
    forall k | 0 <= k < i0
      ensures Silent(cands[k])
    {
      assert cands[k] == done[|done| - 1 - k];
    }
    var r := FirstNumbered(cands);
    var i :| && 0 <= i < |cands| && cands[i].kind.Section?
             && HeadingNumber(cands[i]) == r
             && forall k :: 0 <= k < i ==> Silent(cands[k]);
    assert i == i0;
  }

  /** With no numbered section among the preceding siblings, the search is empty. */
  lemma SiblingSearchNone(done: seq<Block>)
    requires forall k :: 0 <= k < |done| ==> Silent(done[k])
    ensures SiblingSearch(done) == Ok([])
  {
    var cands := Reverse(done);
    forall i | 0 <= i < |cands|
      ensures Silent(cands[i])
    {
      assert cands[i] == done[|done| - 1 - i];
    }
  }

  /** A header that gets number n has the marked number and a space in front
      of its content and records n first. */
  lemma NumberedHeaderStart(b: Block, ctx: Ctx, n: Num)
    requires Fate(b, ctx.prot, ctx.section) == Ok(Some(n))
    ensures NumberBlock(b, ctx).Ok? ==>
      var x := NumberBlock(b, ctx).value;
      && |x.0.children| >= 2 && x.0.children[..2] == NumberPrefix(n)
      && |x.1| > 0 && x.1[0] == Event(b.kind.id, n)
  {
    var inner := NumberSeq(b.children, ChildEnv(b, ctx), [], []);
    if inner.Ok? {
      assert (NumberPrefix(n) + inner.value.0)[..2] == NumberPrefix(n);
    }
  }

  /** The fold over a list starts with what its first element produced. */
  lemma FoldStartsWithFirst(rest: seq<Block>, env: Env, x: Block, xs: seq<Event>)
    requires |rest| > 0 && NumberBlock(rest[0], ChildCtx(env, [], rest)) == Ok((x, xs))
    ensures NumberSeq(rest, env, [], []).Ok? ==>
      var r := NumberSeq(rest, env, [], []).value;
      |r.0| > 0 && r.0[0] == x && |r.1| >= |xs| && r.1[..|xs|] == xs
  {
    NumberSeqStep(rest, env, [], [], x, xs);
    Nil([x]);
    Nil(xs);
    var r := NumberSeq(rest[1..], env, [x], xs);
    if r.Ok? {
      assert r.value.0[..1] == [x];
    }
  }

  /** Within a section whose first child is a header to number, that header
      gets NextNumber of the section's two searches: its content starts with
      that number, and it is the first event the section records. */
  lemma SectionHeaderNumbered(s: Block, ctx: Ctx, siblings: Num, ancestors: Num)
    requires s.kind.Section? && |s.children| > 0
    requires s.children[0].kind.Header? && !Skipped(s.children[0], ctx.prot)
    requires ctx.siblings == Ok(siblings) && ctx.up == Ok(ancestors)
    ensures NumberBlock(s, ctx).Ok? ==>
      var r := NumberBlock(s, ctx).value;
      && |r.0.children| > 0 && |r.1| > 0 && |r.0.children[0].children| >= 2
      && r.0.children[0].children[..2] == NumberPrefix(NextNumber(siblings, ancestors))
      && r.1[0] == Event(s.children[0].kind.id, NextNumber(siblings, ancestors))
  {
    var n := NextNumber(siblings, ancestors);
    var env := ChildEnv(s, ctx);
    var h := s.children[0];
    assert !IsProtectedBlock(s);
    assert Fate(h, env.prot, env.section) == Ok(Some(n));
    var hctx := ChildCtx(env, [], s.children);
    assert Fate(h, hctx.prot, hctx.section) == Ok(Some(n));
    NumberedHeaderStart(h, hctx, n);
    var first := NumberBlock(h, hctx);
    var inner := NumberSeq(s.children, env, [], []);
    if first.Ok? && inner.Ok? {
      assert Fate(s, ctx.prot, ctx.section) == Ok(None);
      assert NumberBlock(s, ctx) == Ok((Block(s.kind, inner.value.0), inner.value.1));
      FoldStartsWithFirst(s.children, env, first.value.0, first.value.1);
    }
  }

  lemma {:induction false} SerializeHasNoIds(n: Num)
    ensures IdNamesSeq(SerializeNumber(n)) == []
    decreases |n|
  {
    if |n| == 1 {
      assert IdNamesSeq([NumberWord(n[0])]) == IdNames(NumberWord(n[0])) + IdNamesSeq([]);
    } else if |n| > 1 {
      SerializeHasNoIds(n[1..]);
      IdNamesSeqAppend([NumberWord(n[0]), DotBlock], SerializeNumber(n[1..]));
      assert [NumberWord(n[0]), DotBlock][1..] == [DotBlock];
      assert IdNamesSeq([DotBlock]) == IdNames(DotBlock) + IdNamesSeq([]);
    }
  }

  /** The inserted number holds no id block. */
  lemma PrefixHasNoIds(n: Num)
    ensures IdNamesSeq(NumberPrefix(n)) == []
  {
    SerializeHasNoIds(n);
    var p := NumberPrefix(n);
    assert p[1..] == [Leaf(Space)];
    assert IdNames(p[0]) == [] + IdNamesSeq(SerializeNumber(n));
    assert IdNamesSeq(p[1..]) == IdNames(Leaf(Space)) + IdNamesSeq([]);
  }

  /** Numbering keeps every id block of the document, in order: the registry
      may take the id names from the document before numbering. */
  lemma {:induction false} NumberBlockKeepsIds(b: Block, ctx: Ctx)
    ensures NumberBlock(b, ctx).Ok? ==> IdNames(NumberBlock(b, ctx).value.0) == IdNames(b)
    decreases b, 1
  {
    var fate := Fate(b, ctx.prot, ctx.section);
    var inner := NumberSeq(b.children, ChildEnv(b, ctx), [], []);
    NumberSeqKeepsIds(b.children, ChildEnv(b, ctx), [], []);
    if fate.Ok? && inner.Ok? && fate.value.Some? {
      var n := fate.value.value;
      IdNamesSeqAppend(NumberPrefix(n), inner.value.0);
      PrefixHasNoIds(n);
    }
  }

  lemma {:induction false} NumberSeqKeepsIds(rest: seq<Block>, env: Env, done: seq<Block>, events: seq<Event>)
    ensures var r := NumberSeq(rest, env, done, events);
      r.Ok? ==> IdNamesSeq(r.value.0) == IdNamesSeq(done) + IdNamesSeq(rest)
    decreases rest, 0
  {
    if rest != [] {
      var ctx := ChildCtx(env, done, rest);
      var first := NumberBlock(rest[0], ctx);
      NumberBlockKeepsIds(rest[0], ctx);
      if first.Ok? {
        var x := first.value;
        NumberSeqKeepsIds(rest[1..], env, done + [x.0], events + x.1);
        IdNamesSeqAppend(done, [x.0]);
        assert IdNamesSeq([x.0]) == IdNames(x.0) + IdNamesSeq([]);
        assert IdNamesSeq(rest) == IdNames(rest[0]) + IdNamesSeq(rest[1..]);
      }
    } else {
      assert IdNamesSeq(rest) == [];
    }
  }

  lemma DocumentKeepsIds(top: seq<Block>)
    ensures NumberHeadings(top).Ok? ==> IdNamesSeq(NumberHeadings(top).value.0) == IdNamesSeq(top)
  {
    NumberSeqKeepsIds(top, TopEnv, [], []);
  }

  /** A section holding only a header to number, whose content holds no live
      header: the header gets NextNumber of the section's two searches. */
  lemma LoneHeaderSection(h: Block, ctx: Ctx, siblings: Num, ancestors: Num)
    requires h.kind.Header? && !Skipped(h, ctx.prot) && InertSeq(h.children, ctx.prot)
    requires ctx.siblings == Ok(siblings) && ctx.up == Ok(ancestors)
    ensures var n := NextNumber(siblings, ancestors);
      NumberBlock(Block(Section, [h]), ctx)
        == Ok((Block(Section, [Block(h.kind, NumberPrefix(n) + h.children)]), [Event(h.kind.id, n)]))
  {
    var s := Block(Section, [h]);
    var n := NextNumber(siblings, ancestors);
    var env := ChildEnv(s, ctx);
    var hctx := ChildCtx(env, [], [h]);
    assert !IsProtectedBlock(s);
    assert Fate(h, env.prot, env.section) == Ok(Some(n));
    NumberedHeaderPrefix(h, hctx, n);
    var h' := Block(h.kind, NumberPrefix(n) + h.children);
    assert NumberSeq([h], env, [], []) == NumberSeq([], env, [h'], [Event(h.kind.id, n)]);
  }

  /** One step of the fold over a list of siblings. */
  lemma NumberSeqStep(rest: seq<Block>, env: Env, done: seq<Block>, events: seq<Event>, x: Block, xs: seq<Event>)
    requires |rest| > 0 && NumberBlock(rest[0], ChildCtx(env, done, rest)) == Ok((x, xs))
    ensures NumberSeq(rest, env, done, events) == NumberSeq(rest[1..], env, done + [x], events + xs)
  {
  }

  /** A block that is no header keeps its kind and gets its numbered children. */
  lemma NotHeaderBlock(b: Block, ctx: Ctx, cs: seq<Block>, events: seq<Event>)
    requires !b.kind.Header? && NumberSeq(b.children, ChildEnv(b, ctx), [], []) == Ok((cs, events))
    ensures NumberBlock(b, ctx) == Ok((Block(b.kind, cs), events))
  {
  }
}
