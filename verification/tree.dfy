/** The block tree the transformation rewrites: a closed set of block roles,
    each block owning an ordered list of children. Parent links are not stored;
    the passes carry what they need from the ancestors down the recursion. */
module Tree {

  import opened Base

  /** A hierarchical number, most significant component first: [1, 2, 1] is "1.2.1". */
  type Num = seq<int>

  /** The role of a block and its role-specific payload. */
  datatype Kind =
    | Section
    | Header(id: Option<string>)
    | MacroMarker(macroId: string, inline: bool)
    /** The placeholder the reference macro leaves behind, naming its target id. */
    | Reference(target: string)
    /** An anchor placed in the content by the id macro. */
    | Id(name: string)
    | Word(text: string)
    | Space
    | Symbol(symbol: char)
    /** A styled span; only its "class" parameter matters here. */
    | Format(cls: Option<string>)
    /** A link to an anchor of the current document; its children are the label. */
    | Link(anchor: string)
    /** Any other block: the document root, paragraphs, lists, groups, ... */
    | Other

  datatype Block = Block(kind: Kind, children: seq<Block>)

  function Leaf(k: Kind): Block {
    Block(k, [])
  }

  /** The names of all id blocks of a block's subtree, in document order. */
  function IdNames(b: Block): seq<string>
    decreases b
  {
    (if b.kind.Id? then [b.kind.name] else []) + IdNamesSeq(b.children)
  }

  function IdNamesSeq(cs: seq<Block>): seq<string>
    decreases cs
  {
    if cs == [] then [] else IdNames(cs[0]) + IdNamesSeq(cs[1..])
  }

  lemma {:induction false} IdNamesSeqAppend(a: seq<Block>, b: seq<Block>)
    ensures IdNamesSeq(a + b) == IdNamesSeq(a) + IdNamesSeq(b)
    decreases a
  {
    if a == [] {
      assert a + b == b;
    } else {
      assert (a + b)[1..] == a[1..] + b;
      IdNamesSeqAppend(a[1..], b);
    }
  }

  lemma {:induction false} IdNamesSeqNone(cs: seq<Block>)
    requires forall i :: 0 <= i < |cs| ==> IdNames(cs[i]) == []
    ensures IdNamesSeq(cs) == []
    decreases cs
  {
    if cs != [] {
      IdNamesSeqNone(cs[1..]);
    }
  }
}
