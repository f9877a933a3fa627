/** Documents worked through the whole transformation. */
module Examples {

  import opened Base
  import opened Tree
  import opened Formatting
  import opened Numbering
  import opened NumberingFacts
  import opened Resolution
  import opened ResolutionFacts
  import opened Transformation

  function Heading(id: string, title: string): Block {
    Block(Header(Some(id)), [Leaf(Word(title))])
  }

  function Numbered(id: string, n: Num, title: string): Block {
    Block(Header(Some(id)), NumberPrefix(n) + [Leaf(Word(title))])
  }

  lemma NumberedHasNoRefs(id: string, n: Num, title: string)
    ensures NoRefs(Numbered(id, n, title))
  {
    PrefixHasNoRefs(n);
    var cs := NumberPrefix(n) + [Leaf(Word(title))];
    assert forall i :: 0 <= i < |cs| ==> NoRefs(cs[i]);
  }

  const A := Block(Section, [Heading("A", "a")])
  const B := Block(Section, [Heading("B", "b")])
  const A1 := Block(Section, [Numbered("A", [1], "a")])
  const B2 := Block(Section, [Numbered("B", [2], "b")])

  lemma TwoSectionsFirst()
    ensures NumberBlock(A, ChildCtx(TopEnv, [], [A, B])) == Ok((A1, [Event(Some("A"), [1])]))
  {
    SiblingSearchNone([]);
    LoneHeaderSection(Heading("A", "a"), ChildCtx(TopEnv, [], [A, B]), [], []);
  }

  lemma TwoSectionsSecond()
    ensures NumberBlock(B, ChildCtx(TopEnv, [A1], [B])) == Ok((B2, [Event(Some("B"), [2])]))
  {
    RecogniseInserted(Some("A"), [1], [Leaf(Word("a"))], []);
    SiblingSearchNearest([A1], 0, [1]);
    assert NextNumber([1], []) == [2];
    LoneHeaderSection(Heading("B", "b"), ChildCtx(TopEnv, [A1], [B]), [1], []);
  }

  lemma TwoSectionsNumbered()
    ensures NumberHeadings([A, B]) == Ok(([A1, B2], [Event(Some("A"), [1]), Event(Some("B"), [2])]))
  {
    var ea := Event(Some("A"), [1]);
    var eb := Event(Some("B"), [2]);
    TwoSectionsFirst();
    NumberSeqStep([A, B], TopEnv, [], [], A1, [ea]);
    Two(A, B);
    Nil([A1]);
    Nil([ea]);
    TwoSectionsSecond();
    NumberSeqStep([B], TopEnv, [A1], [ea], B2, [eb]);
    One(B);
    Two(A1, B2);
    Two(ea, eb);
  }

  /** Two top-level sections are numbered 1 and 2. */
  lemma TwoSections(gen: ErrorGen)
    ensures Transform([A, B], gen) == Ok([A1, B2])
  {
    TwoSectionsNumbered();
    NumberedHasNoRefs("A", [1], "a");
    NumberedHasNoRefs("B", [2], "b");
    assert NoRefsSeq([A1, B2]);
    NoRefsSeqUnchanged([A1, B2], RegistryOf([A1, B2], [Event(Some("A"), [1]), Event(Some("B"), [2])]), gen);
  }

  const Code := Block(MacroMarker("code", false), [Block(Section, [Block(Header(None), [Leaf(Word("heading"))])])])

  lemma CodeNumbered()
    ensures NumberHeadings([Code]) == Ok(([Code], []))
  {
    assert Inert(Code, false);
    InertSeqUnchanged([Code], TopEnv, [], []);
    Nil([Code]);
  }

  /** A section inside a "code" macro is left exactly as it is. */
  lemma ProtectedUnchanged(gen: ErrorGen)
    ensures Transform([Code], gen) == Ok([Code])
  {
    CodeNumbered();
    assert NoRefs(Code);
    NoRefsSeqUnchanged([Code], RegistryOf([Code], []), gen);
  }

  /** A header placed directly in the document root, outside any section,
      makes the transformation crash. */
  lemma HeaderOutsideSectionCrashes(gen: ErrorGen)
    ensures Transform([Heading("A", "a")], gen) == Fail(HeaderOutsideSection)
  {
  }

  /** A marker holding two references directly makes the resolution crash on
      the second one. */
  lemma TwoReferencesInOneMarker(gen: ErrorGen)
    ensures Transform([Block(MacroMarker("reference", true), [Leaf(Reference("x")), Leaf(Reference("y"))])], gen)
         == Fail(MarkerAlreadyReplaced("y"))
  {
    var m := Block(MacroMarker("reference", true), [Leaf(Reference("x")), Leaf(Reference("y"))]);
    assert Inert(m, false);
    InertSeqUnchanged([m], TopEnv, [], []);
    Nil([m]);
    var reg := RegistryOf([m], []);
    assert m.children[1..] == [Leaf(Reference("y"))];
    assert MarkerSeq(m.children[1..], reg, gen, Some("x")) == Fail(MarkerAlreadyReplaced("y"));
  }

  const Dangling := Block(MacroMarker("reference", false), [Leaf(Reference("zzz"))])

  lemma ZzzMessage()
    ensures MissingMessage("zzz") == "No section id named [zzz] was found"
  {
  }

  /** A standalone reference to an id that no header and no id block has: the
      marker is replaced, in place, by all the blocks the generator returns. */
  lemma UnknownReferenceSpliced(gen: ErrorGen)
    ensures Transform([Dangling], gen)
         == Ok(gen("No section id named [zzz] was found", "Verify the section id used.", false))
  {
    assert Inert(Dangling, false);
    InertSeqUnchanged([Dangling], TopEnv, [], []);
    Nil([Dangling]);
    assert IdNamesSeq([Dangling]) == [] by {
      assert IdNames(Leaf(Reference("zzz"))) == [] + IdNamesSeq([]);
      assert IdNamesSeq([Dangling]) == IdNames(Dangling) + IdNamesSeq([]);
    }
    var reg := RegistryOf([Dangling], []);
    assert reg == map[];
    assert RefsPlaced(Leaf(Reference("zzz")));
    assert AllPlaced(Dangling.children, true);
    MarkerReplaced(Dangling, reg, gen);
    ZzzMessage();
    ResolveSeqSingle(Dangling, reg, gen);
  }
}
