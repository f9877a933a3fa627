/** Numbering a document that carries no number yet: it succeeds exactly when
    every header to number sits directly in a section, and every number it
    assigns is a non-empty sequence of positive integers. */
module FreshNumbering {

  import opened Base
  import opened Tree
  import opened Formatting
  import opened Protection
  import opened Search
  import opened Numbering

  /** No block of the subtree is a marked format block. */
  predicate Fresh(b: Block)
    decreases b
  {
    && !IsNumberedFormat(b)
    && forall i :: 0 <= i < |b.children| ==> Fresh(b.children[i])
  }

  predicate FreshSeq(cs: seq<Block>) {
    forall i :: 0 <= i < |cs| ==> Fresh(cs[i])
  }

  /** Every header to number in the subtree is the direct child of a section. */
  predicate Placed(b: Block, prot: bool, inSection: bool)
    decreases b
  {
    && (b.kind.Header? && !Skipped(b, prot) ==> inSection)
    && forall i :: 0 <= i < |b.children| ==>
         Placed(b.children[i], prot || IsProtectedBlock(b), b.kind.Section?)
  }

  predicate PlacedSeq(cs: seq<Block>, prot: bool, inSection: bool) {
    forall i :: 0 <= i < |cs| ==> Placed(cs[i], prot, inSection)
  }

  predicate Positive(n: Num) {
    forall i :: 0 <= i < |n| ==> n[i] >= 1
  }

  /** Every recorded number is non-empty and positive. */
  predicate AllPositive(events: seq<Event>) {
    forall i :: 0 <= i < |events| ==> events[i].number != [] && Positive(events[i].number)
  }

  /** A search result that cannot occur as a crash or a non-positive number. */
  predicate Found(r: Result<Num>) {
    r.Ok? && Positive(r.value)
  }

  predicate FoundScan(s: Option<SectionScan>) {
    s.Some? ==> Found(s.value.siblings) && Found(s.value.ancestors)
  }

  predicate FoundCtx(ctx: Ctx) {
    Found(ctx.up) && Found(ctx.siblings) && FoundScan(ctx.section)
  }

  /** A numbered block reads back a positive number (or none), whether it is
      consulted as the first child of a section or as a section. */
  predicate Readable(x: Block) {
    && Found(HeadingNumber(Block(Section, [x])))
    && (x.kind.Section? ==> Found(HeadingNumber(x)))
  }

  /** A section's heading number depends on its first child only. */
  lemma HeadingNumberFirst(s: Block)
    requires s.kind.Section? && |s.children| > 0
    ensures HeadingNumber(s) == HeadingNumber(Block(Section, [s.children[0]]))
  {
  }

  lemma FreshReadable(x: Block)
    requires Fresh(x)
    ensures HeadingNumber(Block(Section, [x])) == Ok([])
    ensures x.kind.Section? ==> HeadingNumber(x) == Ok([])
  {
    if x.kind.Header? && |x.children| > 0 {
      assert Fresh(x.children[0]);
    }
    if x.kind.Section? && |x.children| > 0 {
      var h := x.children[0];
      assert Fresh(h);
      if h.kind.Header? && |h.children| > 0 {
        assert Fresh(h.children[0]);
      }
    }
  }

  lemma NextNumberPositive(siblings: Num, ancestors: Num)
    requires Positive(siblings) && Positive(ancestors)
    ensures Positive(NextNumber(siblings, ancestors))
  {
    var n := NextNumber(siblings, ancestors);
    if siblings != [] {
      forall i | 0 <= i < |n| ensures n[i] >= 1 {
        if i < |n| - 1 {
          assert n[i] == n[..|n| - 1][i] == siblings[..|siblings| - 1][i];
        }
      }
    } else {
      forall i | 0 <= i < |n| ensures n[i] >= 1 {
        if i < |ancestors| {
          assert n[i] == n[..|ancestors|][i];
        }
      }
    }
  }

  /** With found scans a header never crashes and gets a positive number. */
  lemma FateFound(b: Block, prot: bool, section: Option<SectionScan>)
    requires FoundScan(section)
    ensures var f := Fate(b, prot, section);
      && (f.Ok? <==> !(b.kind.Header? && !Skipped(b, prot) && section.None?))
      && (f.Fail? ==> f.crash == HeaderOutsideSection)
      && (f.Ok? && f.value.Some? ==> f.value.value != [] && Positive(f.value.value))
  {
    if b.kind.Header? && !Skipped(b, prot) && section.Some? {
      var scan := section.value;
      if scan.siblings.value != [] {
        NextNumberPositive(scan.siblings.value, []);
      } else {
        NextNumberPositive([], scan.ancestors.value);
      }
    }
  }

  lemma SiblingSearchFound(done: seq<Block>)
    requires AllReadable(done)
    ensures Found(SiblingSearch(done))
  {
    var cands := Reverse(done);
    var r := FirstNumbered(cands);
    if r != Ok([]) {
      var i :| 0 <= i < |cands| && cands[i].kind.Section? && HeadingNumber(cands[i]) == r;
      assert cands[i] == done[|done| - 1 - i];
    }
  }

  lemma AncestorStepFound(s: Block, outer: Result<Num>)
    requires s.kind.Section? && |s.children| > 0
    requires Found(HeadingNumber(Block(Section, [s.children[0]]))) && Found(outer)
    ensures Found(AncestorStep(s, outer))
  {
    HeadingNumberFirst(s);
  }

  /** The context of every child of a fresh list is found. */
  lemma ChildCtxFound(env: Env, done: seq<Block>, rest: seq<Block>)
    requires |rest| > 0 && Fresh(rest[0])
    requires Found(env.up) && FoundScan(env.section)
    requires env.section.Some? ==> env.section.value.ancestors == env.up
    requires AllReadable(done)
    ensures FoundCtx(ChildCtx(env, done, rest))
  {
    SiblingSearchFound(done);
    if env.section.Some? {
      if |done| > 0 {
        assert (done + rest)[0] == done[0];
        AncestorStepFound(Block(Section, done + rest), env.up);
      } else {
        FateFound(rest[0], env.prot, env.section);
        var f := Fate(rest[0], env.prot, env.section).value;
        var s := Block(Section, [Head(rest[0], f)] + rest[1..]);
        if f.Some? {
          RecogniseInserted(rest[0].kind.id, f.value, rest[0].children, rest[1..]);
        } else {
          FreshReadable(rest[0]);
          HeadingNumberFirst(s);
        }
      }
    }
  }

  predicate AllReadable(s: seq<Block>) {
    forall k :: 0 <= k < |s| ==> Readable(s[k])
  }

  lemma PlacedUnfold(b: Block, prot: bool, inSection: bool)
    ensures Placed(b, prot, inSection) <==>
      && (b.kind.Header? && !Skipped(b, prot) ==> inSection)
      && PlacedSeq(b.children, prot || IsProtectedBlock(b), b.kind.Section?)
  {
  }

  lemma PlacedSeqSplit(rest: seq<Block>, prot: bool, inSection: bool)
    requires |rest| > 0
    ensures PlacedSeq(rest, prot, inSection) <==> Placed(rest[0], prot, inSection) && PlacedSeq(rest[1..], prot, inSection)
  {
    assert forall i :: 1 <= i < |rest| ==> rest[1..][i - 1] == rest[i];
  }

  lemma FreshSeqSplit(rest: seq<Block>)
    requires |rest| > 0 && FreshSeq(rest)
    ensures Fresh(rest[0]) && FreshSeq(rest[1..])
  {
    assert forall i :: 0 <= i < |rest| - 1 ==> rest[1..][i] == rest[i + 1];
  }

  lemma AllReadableSnoc(done: seq<Block>, x: Block)
    requires AllReadable(done) && Readable(x)
    ensures AllReadable(done + [x])
  {
  }

  lemma AllPositiveAppend(a: seq<Event>, b: seq<Event>)
    requires AllPositive(a) && AllPositive(b)
    ensures AllPositive(a + b)
  {
  }

  /** A header just numbered reads back its positive number. */
  lemma NumberedReadable(k: Kind, n: Num, cs: seq<Block>)
    requires k.Header? && Positive(n)
    ensures Readable(Block(k, NumberPrefix(n) + cs))
  {
    RecogniseInserted(k.id, n, cs, []);
    assert [Block(k, NumberPrefix(n) + cs)] + [] == [Block(k, NumberPrefix(n) + cs)];
  }

  /** A fresh block whose children were numbered reads back a positive number. */
  lemma RebuiltReadable(b: Block, cs: seq<Block>)
    requires Fresh(b) && AllReadable(cs)
    requires |cs| == |b.children|
    requires forall i :: 0 <= i < |cs| ==> cs[i].kind == b.children[i].kind
    ensures Readable(Block(b.kind, cs))
  {
    var res := Block(b.kind, cs);
    if |cs| > 0 {
      assert Fresh(b.children[0]);
      assert !IsNumberedFormat(cs[0]);
      if res.kind.Section? {
        HeadingNumberFirst(res);
      }
    }
  }

  /** The outcome of numbering a fresh list of blocks. */
  predicate SeqOutcome(r: Result<(seq<Block>, seq<Event>)>, placed: bool) {
    && (r.Ok? <==> placed)
    && (r.Fail? ==> r.crash == HeaderOutsideSection)
    && (r.Ok? ==> AllReadable(r.value.0) && AllPositive(r.value.1))
  }

  /** The outcome of numbering one fresh block. */
  predicate BlockOutcome(r: Result<(Block, seq<Event>)>, placed: bool) {
    && (r.Ok? <==> placed)
    && (r.Fail? ==> r.crash == HeaderOutsideSection)
    && (r.Ok? ==> Readable(r.value.0) && AllPositive(r.value.1))
  }

  lemma {:induction false} FreshBlockNumbering(b: Block, ctx: Ctx)
    requires Fresh(b) && FoundCtx(ctx)
    ensures BlockOutcome(NumberBlock(b, ctx), Placed(b, ctx.prot, ctx.section.Some?))
    decreases b, 1
  {
    FateFound(b, ctx.prot, ctx.section);
    PlacedUnfold(b, ctx.prot, ctx.section.Some?);
    var fate := Fate(b, ctx.prot, ctx.section);
    var env := ChildEnv(b, ctx);
    assert FreshSeq(b.children);
    FreshSeqNumbering(b.children, env, [], []);
    if fate.Ok? {
      var inner := NumberSeq(b.children, env, [], []);
      if inner.Ok? {
        var cs := inner.value.0;
        if fate.value.Some? {
          NumberedReadable(b.kind, fate.value.value, cs);
          AllPositiveAppend([Event(b.kind.id, fate.value.value)], inner.value.1);
        } else {
          RebuiltReadable(b, cs);
        }
      }
    }
  }

  lemma {:induction false} FreshSeqNumbering(rest: seq<Block>, env: Env, done: seq<Block>, events: seq<Event>)
    requires FreshSeq(rest) && Found(env.up) && FoundScan(env.section)
    requires env.section.Some? ==> env.section.value.ancestors == env.up
    requires AllReadable(done) && AllPositive(events)
    ensures SeqOutcome(NumberSeq(rest, env, done, events), PlacedSeq(rest, env.prot, env.section.Some?))
    decreases rest, 0
  {
    if rest != [] {
      FreshSeqSplit(rest);
      PlacedSeqSplit(rest, env.prot, env.section.Some?);
      var ctx := ChildCtx(env, done, rest);
      ChildCtxFound(env, done, rest);
      FreshBlockNumbering(rest[0], ctx);
      var first := NumberBlock(rest[0], ctx);
      if first.Ok? {
        AllReadableSnoc(done, first.value.0);
        AllPositiveAppend(events, first.value.1);
        FreshSeqNumbering(rest[1..], env, done + [first.value.0], events + first.value.1);
      }
    }
  }

  /** Numbering a document without numbers succeeds exactly when every header
      to number is the direct child of a section; it can then only have
      recorded non-empty numbers of positive components. */
  lemma FreshDocumentNumbering(top: seq<Block>)
    requires FreshSeq(top)
    ensures var r := NumberHeadings(top);
      && (r.Ok? <==> PlacedSeq(top, false, false))
      && (r.Fail? ==> r.crash == HeaderOutsideSection)
      && (r.Ok? ==> AllPositive(r.value.1))
  {
    FreshSeqNumbering(top, TopEnv, [], []);
  }
}
