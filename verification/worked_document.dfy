/** The document of the transformation's own unit test, after the macros ran:
    a paragraph with two reference markers (to "C" and to "invalid") followed
    by the sections

      = heading A =
      == heading B ==
      == {{id name='C'/}}heading C ==
      === heading D ===

    Headings are numbered 1, 1.1, 1.2 and 1.2.1. The id block "C" sits in
    heading C, yet the reference to C shows 1.2.1: every numbered header maps
    all id blocks of the document to its own number, so the last header wins. */
module WorkedDocument {

  import opened Base
  import opened Tree
  import opened Formatting
  import opened Numbering
  import opened NumberingFacts
  import opened Registry
  import opened Resolution
  import opened ResolutionFacts
  import opened Transformation

  function Title(x: string): seq<Block> {
    [Leaf(Word("heading")), Leaf(Space), Leaf(Word(x))]
  }

  const IdMarker := Block(MacroMarker("id", true), [Leaf(Id("C"))])

  const HA := Block(Header(Some("HheadingA")), Title("A"))
  const HB := Block(Header(Some("HheadingB")), Title("B"))
  const HC := Block(Header(Some("HheadingC")), [IdMarker] + Title("C"))
  const HD := Block(Header(Some("HheadingD")), Title("D"))

  const SD := Block(Section, [HD])
  const SC := Block(Section, [HC, SD])
  const SB := Block(Section, [HB])
  const SA := Block(Section, [HA, SB, SC])

  function RefMarker(target: string): Block {
    Block(MacroMarker("reference", true), [Leaf(Reference(target))])
  }

  /** The paragraph up to the reference to "invalid". */
  function Lead(toC: Block): seq<Block> {
    [Leaf(Word("See")), Leaf(Space), Leaf(Word("section")), Leaf(Space), toC, Leaf(Symbol('.')),
     Leaf(Space), Leaf(Word("Invalid")), Leaf(Space)]
  }

  /** The paragraph, with what stands for the reference to "invalid" spliced
      in before the final full stop. */
  function Paragraph(toC: Block, toInvalid: seq<Block>): Block {
    Block(Other, Lead(toC) + toInvalid + [Leaf(Symbol('.'))])
  }

  const P := Paragraph(RefMarker("C"), [RefMarker("invalid")])

  const Doc := [P, SA]

  // The numbered document.
  const SD' := Block(Section, [Head(HD, Some([1, 2, 1]))])
  const SC' := Block(Section, [Head(HC, Some([1, 2])), SD'])
  const SB' := Block(Section, [Head(HB, Some([1, 1]))])
  const SA' := Block(Section, [Head(HA, Some([1])), SB', SC'])

  const EA := Event(Some("HheadingA"), [1])
  const EB := Event(Some("HheadingB"), [1, 1])
  const EC := Event(Some("HheadingC"), [1, 2])
  const ED := Event(Some("HheadingD"), [1, 2, 1])

  /** What the children of section A share: no preceding numbered sibling
      section, no numbered ancestor. */
  const EnvA := Env(false, Some(SectionScan(Ok([]), Ok([]))), Ok([]))
  /** What the children of section C share: the preceding sibling section is
      numbered 1.1, the enclosing one 1. */
  const EnvC := Env(false, Some(SectionScan(Ok([1, 1]), Ok([1]))), Ok([1]))

  lemma TitleInert(x: string)
    ensures InertSeq(Title(x), false)
  {
  }

  lemma ParagraphInert()
    ensures Inert(P, false)
  {
    var lead := Lead(RefMarker("C"));
    assert Inert(RefMarker("C"), false);
    assert Inert(RefMarker("invalid"), false);
    assert InertSeq(lead, false);
    forall i | 0 <= i < |P.children| ensures Inert(P.children[i], false) {
      if i < |lead| {
        assert P.children[i] == lead[i];
      } else if i == |lead| {
        assert P.children[i] == RefMarker("invalid");
      } else {
        assert P.children[i] == Leaf(Symbol('.'));
      }
    }
  }

  lemma HeadingCInert()
    ensures InertSeq(HC.children, false)
  {
    assert Inert(IdMarker, false);
    TitleInert("C");
  }

  lemma EnvAShape()
    ensures ChildEnv(SA, ChildCtx(TopEnv, [P], [SA])) == EnvA
  {
    SiblingSearchNone([P]);
  }

  lemma StepA()
    ensures NumberBlock(HA, ChildCtx(EnvA, [], [HA, SB, SC])) == Ok((Head(HA, Some([1])), [EA]))
  {
    TitleInert("A");
    NumberedHeaderPrefix(HA, ChildCtx(EnvA, [], [HA, SB, SC]), [1]);
  }

  /** Where section B sits: after the numbered heading A, inside section A. */
  lemma CtxBShape()
    ensures ChildCtx(EnvA, [Head(HA, Some([1]))], [SB, SC])
         == Ctx(false, Some(SectionScan(Ok([]), Ok([]))), Ok([1]), Ok([]))
  {
    var ha' := Head(HA, Some([1]));
    RecogniseInserted(HA.kind.id, [1], HA.children, [SB, SC]);
    Three(ha', SB, SC);
    SiblingSearchNone([ha']);
  }

  lemma StepB()
    ensures NumberBlock(SB, ChildCtx(EnvA, [Head(HA, Some([1]))], [SB, SC])) == Ok((SB', [EB]))
  {
    var ctx := Ctx(false, Some(SectionScan(Ok([]), Ok([]))), Ok([1]), Ok([]));
    CtxBShape();
    TitleInert("B");
    LoneHeaderSection(HB, ctx, [], [1]);
    Two(1, 1);
  }

  lemma EnvCShape()
    ensures ChildEnv(SC, ChildCtx(EnvA, [Head(HA, Some([1])), SB'], [SC])) == EnvC
  {
    var ha' := Head(HA, Some([1]));
    RecogniseInserted(HA.kind.id, [1], HA.children, [SB', SC]);
    Three(ha', SB', SC);
    RecogniseInserted(HB.kind.id, [1, 1], HB.children, []);
    Nil([Head(HB, Some([1, 1]))]);
    SiblingSearchNearest([ha', SB'], 1, [1, 1]);
  }

  lemma StepC()
    ensures NumberBlock(HC, ChildCtx(EnvC, [], [HC, SD])) == Ok((Head(HC, Some([1, 2])), [EC]))
  {
    var ctx := ChildCtx(EnvC, [], [HC, SD]);
    assert Fate(HC, false, ctx.section) == Ok(Some([1, 2])) by {
      assert Increment([1, 1]) == [1, 2];
    }
    HeadingCInert();
    NumberedHeaderPrefix(HC, ctx, [1, 2]);
  }

  /** Where heading D sits: after the numbered heading C, inside section C. */
  lemma CtxDShape()
    ensures ChildCtx(EnvC, [Head(HC, Some([1, 2]))], [SD])
         == Ctx(false, Some(SectionScan(Ok([1, 1]), Ok([1]))), Ok([1, 2]), Ok([]))
  {
    var hc' := Head(HC, Some([1, 2]));
    RecogniseInserted(HC.kind.id, [1, 2], HC.children, [SD]);
    Two(hc', SD);
    SiblingSearchNone([hc']);
  }

  lemma StepD()
    ensures NumberBlock(SD, ChildCtx(EnvC, [Head(HC, Some([1, 2]))], [SD])) == Ok((SD', [ED]))
  {
    var ctx := Ctx(false, Some(SectionScan(Ok([1, 1]), Ok([1]))), Ok([1, 2]), Ok([]));
    CtxDShape();
    TitleInert("D");
    LoneHeaderSection(HD, ctx, [], [1, 2]);
    Three(1, 2, 1);
  }

  lemma StepSC()
    ensures NumberBlock(SC, ChildCtx(EnvA, [Head(HA, Some([1])), SB'], [SC])) == Ok((SC', [EC, ED]))
  {
    var hc' := Head(HC, Some([1, 2]));
    EnvCShape();
    StepC();
    NumberSeqStep([HC, SD], EnvC, [], [], hc', [EC]);
    Two(HC, SD);
    Nil([hc']);
    Nil([EC]);
    StepD();
    NumberSeqStep([SD], EnvC, [hc'], [EC], SD', [ED]);
    One(SD);
    Two(hc', SD');
    Two(EC, ED);
    NotHeaderBlock(SC, ChildCtx(EnvA, [Head(HA, Some([1])), SB'], [SC]), [hc', SD'], [EC, ED]);
  }

  lemma SectionAHeadAndB()
    ensures NumberSeq([HA, SB, SC], EnvA, [], [])
         == NumberSeq([SC], EnvA, [Head(HA, Some([1])), SB'], [EA, EB])
  {
    var ha' := Head(HA, Some([1]));
    StepA();
    NumberSeqStep([HA, SB, SC], EnvA, [], [], ha', [EA]);
    Three(HA, SB, SC);
    Nil([ha']);
    Nil([EA]);
    StepB();
    NumberSeqStep([SB, SC], EnvA, [ha'], [EA], SB', [EB]);
    Two(SB, SC);
    Two(ha', SB');
    Two(EA, EB);
  }

  lemma SectionAChildren()
    ensures NumberSeq([HA, SB, SC], EnvA, [], []) == Ok((SA'.children, [EA, EB, EC, ED]))
  {
    var ha' := Head(HA, Some([1]));
    SectionAHeadAndB();
    StepSC();
    NumberSeqStep([SC], EnvA, [ha', SB'], [EA, EB], SC', [EC, ED]);
    One(SC);
    Three(ha', SB', SC');
    Four(EA, EB, EC, ED);
  }

  lemma StepSA()
    ensures NumberBlock(SA, ChildCtx(TopEnv, [P], [SA])) == Ok((SA', [EA, EB, EC, ED]))
  {
    EnvAShape();
    SectionAChildren();
    NotHeaderBlock(SA, ChildCtx(TopEnv, [P], [SA]), SA'.children, [EA, EB, EC, ED]);
  }

  /** Part 1 on the document: 1, 1.1, 1.2 and 1.2.1, the paragraph untouched. */
  lemma DocNumbered()
    ensures NumberHeadings(Doc) == Ok(([P, SA'], [EA, EB, EC, ED]))
  {
    ParagraphInert();
    InertBlockUnchanged(P, ChildCtx(TopEnv, [], Doc));
    NumberSeqStep(Doc, TopEnv, [], [], P, []);
    Two(P, SA);
    Nil([P]);
    StepSA();
    NumberSeqStep([SA], TopEnv, [P], [], SA', [EA, EB, EC, ED]);
    One(SA);
    Two(P, SA');
    Nil([EA, EB, EC, ED]);
  }

  const Reg := BuildRegistry([EA, EB, EC, ED], ["C"])

  /** The link that replaces the reference to C, labelled 1.2.1. */
  const LinkToC := Block(Link("C"), SerializeNumber([1, 2, 1]))

  /** The resolved paragraph: the link to C, and the generator's blocks in
      place of the reference to "invalid". */
  function ParagraphOut(gen: ErrorGen): Block {
    Paragraph(LinkToC, gen("No section id named [invalid] was found", "Verify the section id used.", true))
  }

  lemma LeafNoIds(k: Kind)
    requires !k.Id?
    ensures IdNames(Leaf(k)) == []
  {
    assert IdNamesSeq([]) == [];
  }

  lemma LeadNoIds()
    ensures IdNamesSeq(Lead(RefMarker("C"))) == []
  {
    var lead := Lead(RefMarker("C"));
    forall i | 0 <= i < |lead| ensures IdNames(lead[i]) == [] {
      if i == 4 {
        LeafNoIds(Reference("C"));
        IdNamesSeqNone(lead[i].children);
      } else {
        LeafNoIds(lead[i].kind);
      }
    }
    IdNamesSeqNone(lead);
  }

  lemma AppendOneNoIds(a: seq<Block>, x: Block)
    requires IdNamesSeq(a) == [] && IdNames(x) == []
    ensures IdNamesSeq(a + [x]) == []
  {
    IdNamesSeqAppend(a, [x]);
    IdNamesSeqNone([x]);
  }

  lemma ParagraphNoIds()
    ensures IdNames(P) == []
  {
    var lead := Lead(RefMarker("C"));
    var invalid := RefMarker("invalid");
    LeadNoIds();
    LeafNoIds(Reference("invalid"));
    IdNamesSeqNone(invalid.children);
    AppendOneNoIds(lead, invalid);
    LeafNoIds(Symbol('.'));
    AppendOneNoIds(lead + [invalid], Leaf(Symbol('.')));
  }


  lemma TitleNoIds(x: string)
    ensures IdNamesSeq(Title(x)) == []
  {
    forall i | 0 <= i < 3 ensures IdNames(Title(x)[i]) == [] {
      LeafNoIds(Title(x)[i].kind);
    }
    IdNamesSeqNone(Title(x));
  }

  lemma LoneSectionNoIds(h: Block)
    requires !h.kind.Id? && IdNamesSeq(h.children) == []
    ensures IdNames(Block(Section, [h])) == []
  {
    assert IdNamesSeq([h]) == IdNames(h) + IdNamesSeq([]);
  }

  lemma SectionCIds()
    ensures IdNames(SC) == ["C"]
  {
    TitleNoIds("C");
    assert IdNames(Leaf(Id("C"))) == ["C"] + IdNamesSeq([]);
    assert IdNamesSeq(IdMarker.children) == IdNames(Leaf(Id("C"))) + IdNamesSeq([]);
    IdNamesSeqAppend([IdMarker], Title("C"));
    assert IdNamesSeq([IdMarker]) == IdNames(IdMarker) + IdNamesSeq([]);
    TitleNoIds("D");
    LoneSectionNoIds(HD);
    assert IdNamesSeq(SC.children) == IdNames(HC) + IdNamesSeq([SD]);
    assert IdNamesSeq([SD]) == IdNames(SD) + IdNamesSeq([]);
  }

  lemma IdNamesPair(a: Block, b: Block)
    ensures IdNamesSeq([a, b]) == IdNames(a) + IdNames(b)
  {
    Two(a, b);
    assert IdNamesSeq([b]) == IdNames(b) + IdNamesSeq([]);
  }

  lemma IdNamesTriple(a: Block, b: Block, c: Block)
    ensures IdNamesSeq([a, b, c]) == IdNames(a) + IdNames(b) + IdNames(c)
  {
    Three(a, b, c);
    IdNamesPair(b, c);
  }

  lemma SectionAIds()
    ensures IdNames(SA) == ["C"]
  {
    TitleNoIds("A");
    TitleNoIds("B");
    LoneSectionNoIds(HB);
    SectionCIds();
    IdNamesTriple(HA, SB, SC);
  }

  lemma DocIds()
    ensures IdNamesSeq(Doc) == ["C"]
  {
    ParagraphNoIds();
    SectionAIds();
    IdNamesPair(P, SA);
  }

  lemma NumberedDocIds()
    ensures IdNamesSeq([P, SA']) == ["C"]
  {
    DocNumbered();
    DocumentKeepsIds(Doc);
    DocIds();
  }

  lemma RegistryFromDocument()
    ensures RegistryOf([P, SA'], [EA, EB, EC, ED]) == Reg
  {
    NumberedDocIds();
  }

  /** The id block C maps to the last header's number. */
  lemma RegistryMapsC()
    ensures "C" in Reg && Reg["C"] == [1, 2, 1]
  {
    assert "C" in ["C"];
  }

  lemma NotAHeaderId(e: Event)
    requires e.id.Some? && |e.id.value| > 0 && e.id.value[0] == 'H'
    ensures e.id != Some("invalid")
  {
    assert "invalid"[0] == 'i';
  }

  /** No header and no id block is named "invalid". */
  lemma RegistryLacksInvalid()
    ensures "invalid" !in Reg
  {
    assert "invalid" !in ["C"] by {
      assert "C" != "invalid";
    }
    NotAHeaderId(EA);
    NotAHeaderId(EB);
    NotAHeaderId(EC);
    NotAHeaderId(ED);
    var events := [EA, EB, EC, ED];
    assert forall i :: 0 <= i < |events| ==> events[i].id != Some("invalid");
    RegistryUnknown(events, ["C"], "invalid");
  }

  lemma ReferenceMarkerPlaced(t: string)
    ensures RefsPlaced(RefMarker(t)) && RefCount(RefMarker(t).children) == 1
    ensures FirstRef(RefMarker(t).children) == Some(t)
  {
    assert RefsPlaced(Leaf(Reference(t)));
    assert AllPlaced(RefMarker(t).children, true);
    assert RefMarker(t).children[1..] == [];
  }

  /** What the resolution of the document needs to know of the registry. */
  predicate DocRegistryFacts(reg: Registry) {
    "C" in reg && reg["C"] == [1, 2, 1] && "invalid" !in reg
  }

  lemma ReferenceToCResolved(reg: Registry, gen: ErrorGen)
    requires DocRegistryFacts(reg)
    ensures ResolveNode(RefMarker("C"), reg, gen) == Ok([LinkToC])
  {
    ReferenceMarkerPlaced("C");
    MarkerReplaced(RefMarker("C"), reg, gen);
  }

  lemma InvalidMessage()
    ensures MissingMessage("invalid") == "No section id named [invalid] was found"
  {
  }

  lemma ReferenceToInvalidResolved(reg: Registry, gen: ErrorGen)
    requires DocRegistryFacts(reg)
    ensures ResolveNode(RefMarker("invalid"), reg, gen)
         == Ok(gen("No section id named [invalid] was found", "Verify the section id used.", true))
  {
    InvalidMessage();
    ReferenceMarkerPlaced("invalid");
    MarkerReplaced(RefMarker("invalid"), reg, gen);
  }

  lemma LeadResolved(reg: Registry, gen: ErrorGen)
    requires DocRegistryFacts(reg)
    ensures ResolveSeq(Lead(RefMarker("C")), reg, gen) == Ok(Lead(LinkToC))
  {
    var lead := Lead(RefMarker("C"));
    var out := Lead(LinkToC);
    forall i | 0 <= i < |lead|
      ensures !lead[i].kind.Reference? && ResolveNode(lead[i], reg, gen) == Ok([out[i]])
    {
      if i == 4 {
        ReferenceToCResolved(reg, gen);
      } else {
        NoRefsUnchanged(lead[i], reg, gen);
      }
    }
    ResolveSeqElementwise(lead, out, reg, gen);
  }

  lemma ParagraphResolved(reg: Registry, gen: ErrorGen)
    requires DocRegistryFacts(reg)
    ensures ResolveNode(P, reg, gen) == Ok([ParagraphOut(gen)])
  {
    var lead := Lead(RefMarker("C"));
    var dot := Leaf(Symbol('.'));
    var errors := gen("No section id named [invalid] was found", "Verify the section id used.", true);
    LeadResolved(reg, gen);
    ReferenceToInvalidResolved(reg, gen);
    ResolveSeqSingle(RefMarker("invalid"), reg, gen);
    NoRefsUnchanged(dot, reg, gen);
    ResolveSeqSingle(dot, reg, gen);
    ResolveSeqAppend(lead, [RefMarker("invalid")], reg, gen);
    ResolveSeqAppend(lead + [RefMarker("invalid")], [dot], reg, gen);
    assert ResolveSeq(P.children, reg, gen) == Ok(Lead(LinkToC) + errors + [dot]);
  }

  lemma HeadNoRefs(h: Block, n: Num)
    requires NoRefs(h)
    ensures NoRefs(Head(h, Some(n)))
  {
    PrefixHasNoRefs(n);
    var cs := NumberPrefix(n) + h.children;
    forall i | 0 <= i < |cs| ensures NoRefs(cs[i]) {
      if i >= |NumberPrefix(n)| {
        assert cs[i] == h.children[i - |NumberPrefix(n)|];
      }
    }
  }

  lemma TitleNoRefs(x: string)
    ensures NoRefsSeq(Title(x))
  {
  }

  lemma LoneSectionNoRefs(h: Block, n: Num)
    requires h.kind.Header? && NoRefsSeq(h.children)
    ensures NoRefs(Block(Section, [Head(h, Some(n))]))
  {
    HeadNoRefs(h, n);
  }

  lemma SectionCNoRefs()
    ensures NoRefs(SC')
  {
    TitleNoRefs("D");
    LoneSectionNoRefs(HD, [1, 2, 1]);
    TitleNoRefs("C");
    assert NoRefs(IdMarker);
    assert NoRefsSeq(HC.children);
    HeadNoRefs(HC, [1, 2]);
  }

  lemma SectionTripleNoRefs(a: Block, b: Block, c: Block)
    requires NoRefs(a) && NoRefs(b) && NoRefs(c)
    ensures NoRefs(Block(Section, [a, b, c]))
  {
  }

  lemma SectionANoRefs()
    ensures NoRefs(SA')
  {
    TitleNoRefs("A");
    TitleNoRefs("B");
    HeadNoRefs(HA, [1]);
    LoneSectionNoRefs(HB, [1, 1]);
    SectionCNoRefs();
    SectionTripleNoRefs(Head(HA, Some([1])), SB', SC');
  }

  lemma NumberedDocResolved(reg: Registry, gen: ErrorGen)
    requires DocRegistryFacts(reg)
    ensures ResolveSeq([P, SA'], reg, gen) == Ok([ParagraphOut(gen), SA'])
  {
    ParagraphResolved(reg, gen);
    ResolveSeqSingle(P, reg, gen);
    SectionANoRefs();
    NoRefsUnchanged(SA', reg, gen);
    ResolveSeqSingle(SA', reg, gen);
    ResolveSeqAppend([P], [SA'], reg, gen);
    Two(P, SA');
    Two(ParagraphOut(gen), SA');
  }

  /** The whole transformation on the document: the reference to C becomes
      a link labelled 1.2.1, the reference to "invalid" the error blocks for
      the message naming it, and the headings are numbered 1, 1.1, 1.2 and
      1.2.1. */
  lemma DocTransformed(gen: ErrorGen)
    ensures Transform(Doc, gen) == Ok([ParagraphOut(gen), SA'])
  {
    DocNumbered();
    RegistryFromDocument();
    RegistryMapsC();
    RegistryLacksInvalid();
    NumberedDocResolved(Reg, gen);
  }
}
