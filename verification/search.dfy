/** extractNumberFromPreviousBlocks: the search for the nearest section that
    already carries a number, along the preceding-sibling axis or along the
    ancestor axis. */
module Search {

  import opened Base
  import opened Tree
  import opened Formatting

  /** A candidate the search passes over: not a section, or a section whose
      heading carries no number. */
  predicate Silent(b: Block) {
    !b.kind.Section? || HeadingNumber(b) == Ok([])
  }

  /** Scans candidates nearest first: the first section whose heading number
      is not empty (or cannot be read) decides; otherwise the result is empty. */
  function FirstNumbered(cands: seq<Block>): (r: Result<Num>)
    ensures r == Ok([]) <==> forall i :: 0 <= i < |cands| ==> Silent(cands[i])
    ensures r != Ok([]) ==>
              exists i :: && 0 <= i < |cands| && cands[i].kind.Section?
                          && HeadingNumber(cands[i]) == r
                          && forall j :: 0 <= j < i ==> Silent(cands[j])
    decreases |cands|
  {
    if cands == [] then Ok([])
    else
      var rest := FirstNumbered(cands[1..]);
      assert forall i :: 1 <= i < |cands| ==> cands[1..][i - 1] == cands[i];
      if !cands[0].kind.Section? then rest
      else match HeadingNumber(cands[0])
        case Fail(c) => Fail(c)
        case Ok(n) => if n != [] then Ok(n) else rest
  }

  function Reverse(s: seq<Block>): (r: seq<Block>)
    ensures |r| == |s|
    ensures forall i :: 0 <= i < |s| ==> r[i] == s[|s| - 1 - i]
    decreases |s|
  {
    if s == [] then [] else [s[|s| - 1]] + Reverse(s[..|s| - 1])
  }

  /** The preceding-sibling search: the preceding siblings, nearest first. */
  function SiblingSearch(preceding: seq<Block>): Result<Num> {
    FirstNumbered(Reverse(preceding))
  }

  /** The ancestor search, one level at a time: the section s is consulted
      before the ancestors further out, whose search result is outer. */
  function AncestorStep(s: Block, outer: Result<Num>): Result<Num>
    requires s.kind.Section?
  {
    match HeadingNumber(s)
    case Fail(c) => Fail(c)
    case Ok(n) => if n != [] then Ok(n) else outer
  }

  /** Extending the ancestor path by one block: a section is consulted by
      AncestorStep, any other block is passed over. */
  lemma AncestorAxis(b: Block, path: seq<Block>)
    ensures FirstNumbered([b] + path)
      == if b.kind.Section? then AncestorStep(b, FirstNumbered(path)) else FirstNumbered(path)
  {
    assert ([b] + path)[1..] == path;
  }
}
