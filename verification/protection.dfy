/** The protection filter: blocks inside a "code" macro are never numbered. */
module Protection {

  import opened Tree

  /** The macro id whose content is raw text and never numbered. */
  const CodeMacroId: string := "code"

  /** isProtectedBlock: the block is a "code" macro marker. */
  predicate IsProtectedBlock(b: Block) {
    b.kind.MacroMarker? && b.kind.macroId == CodeMacroId
  }

  /** Some block of the chain is protected. */
  predicate AnyProtected(chain: seq<Block>) {
    exists i :: 0 <= i < |chain| && IsProtectedBlock(chain[i])
  }

  /** isInsProtectedBlock: walks outward from a block through its parents and
      stops at the first protected one. The chain holds the block itself, then
      its parent, its grand-parent, and so on up to the root. */
  method IsInProtectedBlock(chain: seq<Block>) returns (p: bool)
    ensures p <==> AnyProtected(chain)
  {
    var k := 0;
    while k < |chain|
      invariant 0 <= k <= |chain|
      invariant forall j :: 0 <= j < k ==> !IsProtectedBlock(chain[j])
    {
      if IsProtectedBlock(chain[k]) {
        return true;
      }
      k := k + 1;
    }
    return false;
  }

  /** The numbering pass carries protection down as one flag: a block's chain
      is protected exactly when the block is, or its parent's chain is. */
  lemma ProtectionInherited(b: Block, ancestors: seq<Block>)
    ensures AnyProtected([b] + ancestors) <==> IsProtectedBlock(b) || AnyProtected(ancestors)
  {
    assert ([b] + ancestors)[0] == b;
    if AnyProtected(ancestors) {
      var i :| 0 <= i < |ancestors| && IsProtectedBlock(ancestors[i]);
      assert ([b] + ancestors)[i + 1] == ancestors[i];
    }
    if AnyProtected([b] + ancestors) && !IsProtectedBlock(b) {
      var i :| 0 <= i < |[b] + ancestors| && IsProtectedBlock(([b] + ancestors)[i]);
      assert ancestors[i - 1] == ([b] + ancestors)[i];
    }
  }
}
