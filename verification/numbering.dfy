/** Part 1 of the transformation: every header, in document order, receives a
    hierarchical number computed from the sections already numbered before it.

    The source walks a mutable tree; here the walk is a left-to-right fold over
    each list of children. A block is visited with a context describing its
    position at the moment the source reaches it: whether an ancestor is
    protected, the two searches of its parent section, the ancestor search its
    descendants will see, and the search over its preceding siblings (which
    are already fully numbered, as they come earlier in document order). */
module Numbering {

  import opened Base
  import opened Tree
  import opened Formatting
  import opened Protection
  import opened Search

  /** Recorded for every header that receives a number, in document order. */
  datatype Event = Event(id: Option<string>, number: Num)

  /** The two searches of the section that contains a header. */
  datatype SectionScan = SectionScan(siblings: Result<Num>, ancestors: Result<Num>)

  /** A block's position, as the numbering pass sees it. */
  datatype Ctx = Ctx(
    /** Some ancestor is a "code" macro marker. */
    prot: bool,
    /** The parent is a section; the results of that section's two searches. */
    section: Option<SectionScan>,
    /** The ancestor search as the block's descendants see it. */
    up: Result<Num>,
    /** The search over the block's preceding siblings. */
    siblings: Result<Num>)

  /** What all children of one block share. */
  datatype Env = Env(prot: bool, section: Option<SectionScan>, up: Result<Num>)

  /** A number with its last component increased by one. */
  function Increment(n: Num): (r: Num)
    requires n != []
    ensures |r| == |n| && r[..|r| - 1] == n[..|n| - 1] && r[|r| - 1] == n[|n| - 1] + 1
  {
    n[|n| - 1 := n[|n| - 1] + 1]
  }

  /** The number a header receives from the searches of its section: the
      nearest numbered preceding sibling section's number, incremented; else
      the nearest numbered ancestor section's number with a 1 appended, which
      is [1] when there is none. */
  function NextNumber(siblings: Num, ancestors: Num): (n: Num)
    ensures |n| >= 1
    ensures siblings != [] ==> |n| == |siblings| && n[..|n| - 1] == siblings[..|siblings| - 1]
                               && n[|n| - 1] == siblings[|siblings| - 1] + 1
    ensures siblings == [] ==> |n| == |ancestors| + 1 && n[..|ancestors|] == ancestors && n[|ancestors|] == 1
  {
    if siblings != [] then Increment(siblings) else ancestors + [1]
  }

  /** A header is skipped when it has no content or is protected. */
  predicate Skipped(b: Block, prot: bool) {
    |b.children| == 0 || IsProtectedBlock(b) || prot
  }

  /** The block's own outcome: None when it is no header to number, the new
      number otherwise, or the crash met while computing it. */
  function Fate(b: Block, prot: bool, section: Option<SectionScan>): (r: Result<Option<Num>>)
    ensures !b.kind.Header? || Skipped(b, prot) ==> r == Ok(None)
    ensures r.Ok? && r.value.Some? ==> b.kind.Header? && !Skipped(b, prot) && section.Some?
    ensures b.kind.Header? && !Skipped(b, prot) && section.None? ==> r == Fail(HeaderOutsideSection)
  {
    if !b.kind.Header? || Skipped(b, prot) then Ok(None)
    else match section
      case None => Fail(HeaderOutsideSection)
      case Some(scan) =>
        var siblings :- scan.siblings;
        if siblings != [] then Ok(Some(NextNumber(siblings, [])))
        else
          var ancestors :- scan.ancestors;
          Ok(Some(NextNumber([], ancestors)))
  }

  /** The block with its own number inserted, children not yet visited. */
  function Head(b: Block, fate: Option<Num>): Block {
    if fate.Some? then Block(b.kind, NumberPrefix(fate.value) + b.children) else b
  }

  /** What the children of b share. */
  function ChildEnv(b: Block, ctx: Ctx): Env {
    Env(ctx.prot || IsProtectedBlock(b),
        if b.kind.Section? then Some(SectionScan(ctx.siblings, ctx.up)) else None,
        ctx.up)
  }

  /** The context of the next child of a block, given the children already
      numbered (done) and those still to visit (rest, the next one first). The
      ancestor search seen below a child of a section consults that section in
      its current state: with its first child numbered (for the first child,
      only the child's own prefix is in place when its descendants are
      visited). */
  function ChildCtx(env: Env, done: seq<Block>, rest: seq<Block>): Ctx
    requires |rest| > 0
  {
    var up :=
      if env.section.None? then env.up
      else if |done| > 0 then AncestorStep(Block(Section, done + rest), env.up)
      else match Fate(rest[0], env.prot, env.section)
        case Fail(c) => Fail(c)
        case Ok(f) => AncestorStep(Block(Section, [Head(rest[0], f)] + rest[1..]), env.up);
    Ctx(env.prot, env.section, up, SiblingSearch(done))
  }

  /** Numbers the headers of one block's subtree, the block itself first. */
  function NumberBlock(b: Block, ctx: Ctx): (r: Result<(Block, seq<Event>)>)
    ensures r.Ok? ==> r.value.0.kind == b.kind
    decreases b
  {
    var fate :- Fate(b, ctx.prot, ctx.section);
    var inner :- NumberSeq(b.children, ChildEnv(b, ctx), [], []);
    if fate.Some? then
      Ok((Block(b.kind, NumberPrefix(fate.value) + inner.0), [Event(b.kind.id, fate.value)] + inner.1))
    else
      Ok((Block(b.kind, inner.0), inner.1))
  }

  /** Numbers a list of siblings left to right; done holds the siblings
      already numbered and events what they recorded. */
  function NumberSeq(rest: seq<Block>, env: Env, done: seq<Block>, events: seq<Event>)
    : (r: Result<(seq<Block>, seq<Event>)>)
    ensures r.Ok? ==> |r.value.0| == |done| + |rest| && r.value.0[..|done|] == done
    ensures r.Ok? ==> forall i :: |done| <= i < |r.value.0| ==> r.value.0[i].kind == rest[i - |done|].kind
    ensures r.Ok? ==> |r.value.1| >= |events| && r.value.1[..|events|] == events
    decreases rest
  {
    if rest == [] then Ok((done, events))
    else
      var visited :- NumberBlock(rest[0], ChildCtx(env, done, rest));
      var r := NumberSeq(rest[1..], env, done + [visited.0], events + visited.1);
      assert r.Ok? ==> r.value.0[..|done|] == (done + [visited.0])[..|done|];
      assert r.Ok? ==> r.value.1[..|events|] == (events + visited.1)[..|events|];
      r
  }

  /** What the children of the document root share: the root is neither a
      section nor protected, and has no ancestors. */
  const TopEnv := Env(false, None, Ok([]))

  /** Part 1 over the document. */
  function NumberHeadings(top: seq<Block>): Result<(seq<Block>, seq<Event>)> {
    NumberSeq(top, TopEnv, [], [])
  }
}
