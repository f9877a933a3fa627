/** Part 2 of the transformation: every reference placeholder is resolved
    against the registry, and the macro marker holding it is replaced, in its
    parent's list of children, by a link labelled with the section's number,
    or by the error generator's blocks when the id is unknown.

    The source collects all reference blocks of the document first and then
    replaces, for each in document order, the reference's parent marker inside
    the marker's own parent. Consequences modelled here:
    - a reference whose parent is not a macro marker crashes the cast;
    - once a marker is replaced it is detached, so a second reference placed
      directly in the same marker crashes;
    - replacements made inside a marker that is itself replaced are lost with
      it, so only the first direct reference of a marker decides what the
      marker becomes;
    - the blocks the error generator returns are never searched for
      references, as the list of references was taken beforehand. */
module Resolution {

  import opened Base
  import opened Tree
  import opened Formatting
  import opened Registry

  /** The error block generator: the blocks shown for a message, a
      description and whether they sit inline. Its internals are not
      modelled; every operation of this part takes it as a parameter. */
  type ErrorGen = (string, string, bool) -> seq<Block>

  const MissingDescription := "Verify the section id used."

  function MissingMessage(target: string): (m: string)
    ensures Contains(m, target)
  {
    ContainsMiddle("No section id named [", target, "] was found");
    "No section id named [" + target + "] was found"
  }

  /** The crashes of this part: the cast of a reference's parent, and the
      replacement inside a marker that is already detached. */
  predicate IsResolutionCrash(c: Crash) {
    c.ReferenceOutsideMarker? || c.MarkerAlreadyReplaced?
  }

  /** What a marker whose reference names target becomes: one link whose
      label reads back as the recorded number, or the generator's blocks for
      a message naming the target. */
  function Replacement(target: string, inline: bool, reg: Registry, gen: ErrorGen): (r: seq<Block>)
    ensures target in reg ==> r == [Block(Link(target), SerializeNumber(reg[target]))]
                               && ParseNumbers(r[0].children) == Ok(reg[target])
    ensures target !in reg ==> r == gen(MissingMessage(target), MissingDescription, inline)
  {
    if target in reg then
      ParseSerializeRoundTrip(reg[target]);
      [Block(Link(target), SerializeNumber(reg[target]))]
    else
      gen(MissingMessage(target), MissingDescription, inline)
  }

  /** Resolves the children of a block that is not a macro marker (or of the
      document root): a reference placed directly among them crashes. */
  function ResolveSeq(cs: seq<Block>, reg: Registry, gen: ErrorGen): (r: Result<seq<Block>>)
    ensures r.Fail? ==> IsResolutionCrash(r.crash)
    ensures r.Ok? ==> forall i :: 0 <= i < |cs| ==> !cs[i].kind.Reference?
    decreases cs
  {
    if cs == [] then Ok([])
    else if cs[0].kind.Reference? then Fail(ReferenceOutsideMarker(cs[0].kind.target))
    else
      var head :- ResolveNode(cs[0], reg, gen);
      var tail :- ResolveSeq(cs[1..], reg, gen);
      Ok(head + tail)
  }

  /** Resolves one block that is not itself a reference, giving the blocks
      that take its place. */
  function ResolveNode(b: Block, reg: Registry, gen: ErrorGen): (r: Result<seq<Block>>)
    ensures r.Fail? ==> IsResolutionCrash(r.crash)
    ensures r.Ok? && !b.kind.MacroMarker? ==> |r.value| == 1 && r.value[0].kind == b.kind
    decreases b
  {
    if b.kind.MacroMarker? then
      var inner :- MarkerSeq(b.children, reg, gen, None);
      match inner.1
      case Some(target) => Ok(Replacement(target, b.kind.inline, reg, gen))
      case None => Ok([Block(b.kind, inner.0)])
    else
      var cs :- ResolveSeq(b.children, reg, gen);
      Ok([Block(b.kind, cs)])
  }

  /** Resolves the children of a macro marker; first is the target of the
      first reference met directly among them. */
  function MarkerSeq(cs: seq<Block>, reg: Registry, gen: ErrorGen, first: Option<string>)
    : (r: Result<(seq<Block>, Option<string>)>)
    ensures r.Fail? ==> IsResolutionCrash(r.crash)
    ensures r.Ok? && first.Some? ==> r.value.1 == first
    decreases cs
  {
    if cs == [] then Ok(([], first))
    else if cs[0].kind.Reference? then
      if first.Some? then Fail(MarkerAlreadyReplaced(cs[0].kind.target))
      else
        var below :- ResolveSeq(cs[0].children, reg, gen);
        var rest :- MarkerSeq(cs[1..], reg, gen, Some(cs[0].kind.target));
        Ok(([Block(cs[0].kind, below)] + rest.0, rest.1))
    else
      var head :- ResolveNode(cs[0], reg, gen);
      var rest :- MarkerSeq(cs[1..], reg, gen, first);
      Ok((head + rest.0, rest.1))
  }
}
