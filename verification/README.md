# Numbered headings and section references, in Dafny

A model of the XWiki rendering transformation `NumberedHeadingsTransformation`.
The transformation runs on a parsed document tree after the macros have run.

**Part 1: numbering.** The transformation visits every header block in document order.
It skips a header that has no content, and a header that lies inside a `code` macro marker.
Every other header receives a hierarchical number:

- If the nearest preceding sibling section carries a number, the header takes that number with its last component incremented.
- Otherwise, if the nearest enclosing section carries a number, the header takes that number with a 1 appended.
- Otherwise, the header's number is 1.

The number is written in front of the header's content as a format block marked with the class `numbered-reference`.
That block holds the number's words and dots, and a space follows it.
The number is also recorded in a map: the header's own id is mapped to it, and so is the name of every id block of the whole document.

**Part 2: resolution.** Every reference placeholder left by the reference macro is resolved.
The macro marker around the placeholder is replaced by one of two things:

- a link to the id, labelled with the recorded number;
- error blocks saying `No section id named [<id>] was found`, when the id is not in the map.

Model layout, one module per file:

- `Base`: `Option` and `Result`. A `Crash` names each place where the Java code would throw: a failed cast, a `NumberFormatException`, or a marker that was already replaced.
- `Tree`: the block tree. A block is a `Kind` (the block's class and its payload) plus a list of children. Parent pointers are replaced by context passed down the recursion.
- `Numerals`: `Integer.parseInt` and `String.valueOf` on integers.
- `Formatting`: `serializeNumber`, `parseNumbers`, `serializeAndFormatNumber` and `extractNumberFromHeading`.
- `Protection`: `isProtectedBlock` and `isInsProtectedBlock`.
- `Search`: `extractNumberFromPreviousBlocks` on the preceding-sibling and ancestor axes.
- `Numbering` and `NumberingFacts`: part 1 as a left-to-right fold over each list of children, with its properties; `NumberingFrame`: the fold changes a tree only by number prefixes in front of header content.
- `FreshNumbering`: part 1 on a document that carries no number yet.
- `Registry`: the map, as the sequence of `put`s the code performs.
- `Resolution` and `ResolutionFacts`: `replaceReferenceBlocks` and its properties.
- `Transformation`: `transform`.
- `Examples` and `WorkedDocument`: whole documents taken through the transformation. One of them is the document of the unit test.

Behaviour of the code that the model follows:

- **Visit order and context.** Headers are visited in pre-order.
  - When a header's descendants are visited, the header already has its own number in place.
  - Every section that precedes it in document order is fully numbered.
- **Headers outside a section crash.** `getSection()` casts the header's parent to a section. A header whose parent is not a section therefore crashes, unless it is skipped first.
- **Lazy parsing.** `parseNumbers` applies `Integer.parseInt` to every word of a marked format block. A malformed word crashes only when a search actually reaches that block.
- **Id blocks.** The comment at lines 135-137 speaks of the id blocks under the header. The code at line 141 collects them from the whole document instead. The model follows the code, which is what the unit test expects: a reference to the id block `C` in heading 1.2 is labelled 1.2.1.
- **Protection in part 2.** Resolution does not look at protection. A reference inside a `code` macro is resolved like any other. An id block inside a `code` macro is registered like any other.
- **Markers with several references.** The references are collected before any replacement.
  - Replacing a marker detaches it from its parent.
  - A second reference placed directly in the same marker therefore crashes.
  - A reference nested deeper in a marker that is itself replaced is resolved, but the result is lost with that marker.

## Model

| member | source | states |
|---|---|---|
| Numerals.ParseInt | src/main/java/org/xwiki/contrib/numberedreferences/internal/NumberedHeadingsTransformation.java:213 | parsing succeeds exactly on an optional sign followed by at least one decimal digit, and the sign of the result follows the text |
| Numerals.ParseIntToString | src/main/java/org/xwiki/contrib/numberedreferences/internal/NumberedHeadingsTransformation.java:211-225 | parsing the decimal text of any integer gives that integer back |
| Formatting.SerializeNumber | src/main/java/org/xwiki/contrib/numberedreferences/internal/NumberedHeadingsTransformation.java:220-231 | the empty number gives no block; a number of k components gives 2k-1 blocks, the first being the word of the first component |
| Formatting.SerializeAlternates | src/main/java/org/xwiki/contrib/numberedreferences/internal/NumberedHeadingsTransformation.java:220-231 | the blocks alternate: position 2i holds the word of component i and every odd position holds the dot symbol |
| Formatting.ParseNumbers | src/main/java/org/xwiki/contrib/numberedreferences/internal/NumberedHeadingsTransformation.java:206-218 | parsing fails only by a malformed number |
| Formatting.ParseNumbersKeepsWords | src/main/java/org/xwiki/contrib/numberedreferences/internal/NumberedHeadingsTransformation.java:206-218 | there is one value per word block, in order, and each is the parse of that word; a failure names a word of the list that is not a numeral |
| Formatting.ParseSerializeRoundTrip | src/main/java/org/xwiki/contrib/numberedreferences/internal/NumberedHeadingsTransformation.java:206-231 | parsing the serialization of any number gives that number back |
| Formatting.SerializeAndFormatNumber | src/main/java/org/xwiki/contrib/numberedreferences/internal/NumberedHeadingsTransformation.java:233-236 | the format block carries the numbered-reference class and its content parses back to the number |
| Formatting.HeadingNumber | src/main/java/org/xwiki/contrib/numberedreferences/internal/NumberedHeadingsTransformation.java:180-191 | the result is empty unless the section's header starts with a format block whose class contains numbered-reference; in that case it is the parse of that block's content |
| Formatting.RecogniseInserted | src/main/java/org/xwiki/contrib/numberedreferences/internal/NumberedHeadingsTransformation.java:180-191 | a section whose header starts with the inserted prefix for n is recognised with exactly n, whatever follows |
| Protection.IsInProtectedBlock | src/main/java/org/xwiki/contrib/numberedreferences/internal/NumberedHeadingsTransformation.java:239-254 | the result is true exactly when some block on the chain from the block up to the root is a code macro marker |
| Protection.ProtectionInherited | src/main/java/org/xwiki/contrib/numberedreferences/internal/NumberedHeadingsTransformation.java:239-249 | a chain is protected exactly when its first block is, or the rest of the chain is; so the walk can be replaced by a flag passed down |
| Search.FirstNumbered | src/main/java/org/xwiki/contrib/numberedreferences/internal/NumberedHeadingsTransformation.java:193-204 | the result is empty exactly when every candidate is no section or has an empty heading number; otherwise it is the heading number of the first candidate that is not, and all earlier candidates are passed over |
| Search.AncestorAxis | src/main/java/org/xwiki/contrib/numberedreferences/internal/NumberedHeadingsTransformation.java:193-204 | searching the ancestor chain equals consulting the nearest ancestor section and then the rest of the chain |
| Numbering.Increment | src/main/java/org/xwiki/contrib/numberedreferences/internal/NumberedHeadingsTransformation.java:126-127 | the length and every component but the last are kept, and the last component grows by one |
| Numbering.NextNumber | src/main/java/org/xwiki/contrib/numberedreferences/internal/NumberedHeadingsTransformation.java:115-128 | sibling rule: the last component of the sibling's number is incremented; ancestor rule: the ancestor's number gets a 1 appended; start rule: the number is 1; the result is never empty |
| Numbering.Fate | src/main/java/org/xwiki/contrib/numberedreferences/internal/NumberedHeadingsTransformation.java:108-119 | a block that is no header, or a header that is empty or protected, gets no number; a header to number outside a section crashes; only a header to number inside a section gets a number |
| Numbering.NumberBlock | src/main/java/org/xwiki/contrib/numberedreferences/internal/NumberedHeadingsTransformation.java:107-133 | a numbered block keeps its own kind (the frame property for the whole subtree is NumberingFrame.BlockGrown) |
| Numbering.NumberSeq | src/main/java/org/xwiki/contrib/numberedreferences/internal/NumberedHeadingsTransformation.java:107-146 | the siblings already numbered are kept, each block keeps its place and kind, and the records of earlier headers are kept |
| NumberingFacts.InertBlockUnchanged | src/main/java/org/xwiki/contrib/numberedreferences/internal/NumberedHeadingsTransformation.java:108-112 | a subtree whose headers are all empty or protected comes out unchanged and records nothing |
| NumberingFacts.InertSeqUnchanged | src/main/java/org/xwiki/contrib/numberedreferences/internal/NumberedHeadingsTransformation.java:108-112 | a list of such subtrees comes out unchanged and records nothing |
| NumberingFacts.NumberedHeaderPrefix | src/main/java/org/xwiki/contrib/numberedreferences/internal/NumberedHeadingsTransformation.java:130-140 | a numbered header whose content holds no header that will itself be numbered (header content is inline) gets as content the marked number, a space and the old content; one record holds the header's id and number |
| NumberingFacts.SiblingSearchNearest | src/main/java/org/xwiki/contrib/numberedreferences/internal/NumberedHeadingsTransformation.java:193-204 | the nearest preceding sibling section with a non-empty number decides the sibling search |
| NumberingFacts.SiblingSearchNone | src/main/java/org/xwiki/contrib/numberedreferences/internal/NumberedHeadingsTransformation.java:117-124 | with no numbered preceding sibling section the sibling search is empty |
| NumberingFacts.SectionHeaderNumbered | src/main/java/org/xwiki/contrib/numberedreferences/internal/NumberedHeadingsTransformation.java:114-140 | the header of a section gets the number the three rules give for the section's searches, and its record comes first |
| NumberingFacts.LoneHeaderSection | src/main/java/org/xwiki/contrib/numberedreferences/internal/NumberedHeadingsTransformation.java:114-140 | a section holding only a header with plain content gets exactly that header numbered by the rules and one record |
| NumberingFacts.PrefixHasNoIds | src/main/java/org/xwiki/contrib/numberedreferences/internal/NumberedHeadingsTransformation.java:132-133 | the inserted number holds no id block |
| NumberingFacts.NumberBlockKeepsIds | src/main/java/org/xwiki/contrib/numberedreferences/internal/NumberedHeadingsTransformation.java:132-141 | numbering a block keeps its id block names, in order |
| NumberingFacts.NumberSeqKeepsIds | src/main/java/org/xwiki/contrib/numberedreferences/internal/NumberedHeadingsTransformation.java:132-141 | numbering a list keeps its id block names, in order |
| NumberingFacts.DocumentKeepsIds | src/main/java/org/xwiki/contrib/numberedreferences/internal/NumberedHeadingsTransformation.java:141 | the finished numbered document has exactly the id block names of the original, in order, so the names may be taken from the original |
| NumberingFrame.BlockGrown | src/main/java/org/xwiki/contrib/numberedreferences/internal/NumberedHeadingsTransformation.java:130-133 | numbering a block only puts a number prefix (a numbered format block and a space) in front of the content of some headers of its subtree; every kind, every other block and the order of all blocks stay the same |
| NumberingFrame.SeqGrown | src/main/java/org/xwiki/contrib/numberedreferences/internal/NumberedHeadingsTransformation.java:107-133 | the same for a list of siblings, position by position, whatever siblings were numbered before |
| NumberingFrame.DocumentGrown | src/main/java/org/xwiki/contrib/numberedreferences/internal/NumberedHeadingsTransformation.java:107-146 | part 1 as a whole changes the document only by number prefixes in front of header content |
| FreshNumbering.NextNumberPositive | src/main/java/org/xwiki/contrib/numberedreferences/internal/NumberedHeadingsTransformation.java:117-128 | from positive searches the rules give a positive number |
| FreshNumbering.FateFound | src/main/java/org/xwiki/contrib/numberedreferences/internal/NumberedHeadingsTransformation.java:110-128 | with readable searches a header never crashes except outside a section, and its number is non-empty and positive |
| FreshNumbering.FreshBlockNumbering | src/main/java/org/xwiki/contrib/numberedreferences/internal/NumberedHeadingsTransformation.java:107-146 | on a block without numbers, numbering succeeds exactly when every header to number sits in a section; it then records only positive numbers |
| FreshNumbering.FreshSeqNumbering | src/main/java/org/xwiki/contrib/numberedreferences/internal/NumberedHeadingsTransformation.java:107-146 | the same for a list of siblings |
| FreshNumbering.FreshDocumentNumbering | src/main/java/org/xwiki/contrib/numberedreferences/internal/NumberedHeadingsTransformation.java:107-146 | on a document without numbers, numbering succeeds exactly when every header to number sits in a section; it fails only on a header outside a section; every recorded number is non-empty with all components at least 1 |
| Registry.PutAll | src/main/java/org/xwiki/contrib/numberedreferences/internal/NumberedHeadingsTransformation.java:142-145 | every listed name maps to the number, and every other entry is kept |
| Registry.Record | src/main/java/org/xwiki/contrib/numberedreferences/internal/NumberedHeadingsTransformation.java:138-145 | after a header is numbered, its id and every id block name map to its number, and every other entry is kept |
| Registry.BuildRegistry | src/main/java/org/xwiki/contrib/numberedreferences/internal/NumberedHeadingsTransformation.java:135-145 | the map is empty while no header is numbered; afterwards every id block name maps to the number of the last numbered header |
| Registry.RegistryKeys | src/main/java/org/xwiki/contrib/numberedreferences/internal/NumberedHeadingsTransformation.java:138-145 | the keys are exactly the ids of the numbered headers and the id block names |
| Registry.RegistryHeaderId | src/main/java/org/xwiki/contrib/numberedreferences/internal/NumberedHeadingsTransformation.java:138-140 | a header id that names no id block maps to the number of the last header carrying that id |
| Registry.RegistryUnknown | src/main/java/org/xwiki/contrib/numberedreferences/internal/NumberedHeadingsTransformation.java:161-163 | a name that is neither a header id nor an id block name is not in the map |
| Resolution.MissingMessage | src/main/java/org/xwiki/contrib/numberedreferences/internal/NumberedHeadingsTransformation.java:165 | the error message names the id |
| Resolution.Replacement | src/main/java/org/xwiki/contrib/numberedreferences/internal/NumberedHeadingsTransformation.java:161-176 | a known id gives exactly one link to that id labelled with the serialization of the recorded number, a label that parses back to that number; an unknown id gives exactly the generator's blocks for a message naming the id, the fixed description and the marker's inline flag |
| Resolution.ResolveNode | src/main/java/org/xwiki/contrib/numberedreferences/internal/NumberedHeadingsTransformation.java:159-176 | a block that is not a macro marker stays a single block of the same kind; only a marker can be replaced by several blocks; failures are only the two crashes of this part |
| Resolution.ResolveSeq | src/main/java/org/xwiki/contrib/numberedreferences/internal/NumberedHeadingsTransformation.java:154-177 | resolving a list fails only with one of the two crashes of this part (a reference outside a marker, a marker already replaced), and succeeds only when no reference sits directly in the list |
| Resolution.MarkerSeq | src/main/java/org/xwiki/contrib/numberedreferences/internal/NumberedHeadingsTransformation.java:154-177 | resolving a marker's content fails only with one of the two crashes of this part, and once a direct reference has been met it stays the one that decides what the marker becomes |
| ResolutionFacts.ReplacementHasNoRefs | src/main/java/org/xwiki/contrib/numberedreferences/internal/NumberedHeadingsTransformation.java:167-175 | a link replacement holds no reference, and an error replacement holds none when the generator shows none |
| ResolutionFacts.ResolveSeqOutcome | src/main/java/org/xwiki/contrib/numberedreferences/internal/NumberedHeadingsTransformation.java:152-178 | resolution succeeds exactly when every reference sits directly in a macro marker that directly holds no other reference; it then leaves no reference anywhere when the generator shows none, and otherwise it fails on a misplaced reference |
| ResolutionFacts.ResolveNodeOutcome | src/main/java/org/xwiki/contrib/numberedreferences/internal/NumberedHeadingsTransformation.java:152-178 | the same for one block |
| ResolutionFacts.MarkerSeqOutcome | src/main/java/org/xwiki/contrib/numberedreferences/internal/NumberedHeadingsTransformation.java:152-178 | the same for the content of a marker, where the first direct reference is the one that decides |
| ResolutionFacts.MarkerReplaced | src/main/java/org/xwiki/contrib/numberedreferences/internal/NumberedHeadingsTransformation.java:159-176 | a marker holding one reference directly is replaced as a whole by that reference's replacement |
| ResolutionFacts.NoRefsSeqUnchanged | src/main/java/org/xwiki/contrib/numberedreferences/internal/NumberedHeadingsTransformation.java:154-156 | content without references is left unchanged |
| ResolutionFacts.NoRefsUnchanged | src/main/java/org/xwiki/contrib/numberedreferences/internal/NumberedHeadingsTransformation.java:154-156 | a block without references is left unchanged, as a single block |
| ResolutionFacts.ResolveSeqAppend | src/main/java/org/xwiki/contrib/numberedreferences/internal/NumberedHeadingsTransformation.java:169-175 | outside markers, resolution works in place: resolving two lists put together gives their two resolutions put together, and the first crash wins |
| ResolutionFacts.ResolveSeqElementwise | src/main/java/org/xwiki/contrib/numberedreferences/internal/NumberedHeadingsTransformation.java:169-175 | outside markers, blocks that each resolve to a single block resolve position by position |
| Transformation.TransformResolvesAll | src/main/java/org/xwiki/contrib/numberedreferences/internal/NumberedHeadingsTransformation.java:87-178 | the transformation succeeds exactly when the headers can be numbered and every reference of the input sits directly in a macro marker that directly holds no other reference; it then leaves no reference placeholder when the generator shows none |
| Transformation.NumberBlockKeepsPlaced | src/main/java/org/xwiki/contrib/numberedreferences/internal/NumberedHeadingsTransformation.java:130-133 | numbering only puts reference-free blocks in front of header content, so a block's references are well placed after numbering exactly when they were before |
| Transformation.NumberSeqKeepsPlaced | src/main/java/org/xwiki/contrib/numberedreferences/internal/NumberedHeadingsTransformation.java:130-133 | the same for a list, whose count of direct references is also kept |
| Transformation.FreshTransformCrash | src/main/java/org/xwiki/contrib/numberedreferences/internal/NumberedHeadingsTransformation.java:106-149 | on a document without numbers, the transformation fails with a header outside a section exactly when such a header is to be numbered; any other failure comes from a misplaced reference |
| Examples.TwoSections | src/main/java/org/xwiki/contrib/numberedreferences/internal/NumberedHeadingsTransformation.java:114-128 | two top-level sections are numbered 1 and 2 |
| Examples.ProtectedUnchanged | src/test/java/org/xwiki/contrib/numberedreferences/internal/NumberedHeadingsTransformationTest.java:94-117 | a section inside a code macro is left exactly as it is |
| Examples.HeaderOutsideSectionCrashes | src/main/java/org/xwiki/contrib/numberedreferences/internal/NumberedHeadingsTransformation.java:116 | a header directly under the root makes the transformation crash |
| Examples.TwoReferencesInOneMarker | src/main/java/org/xwiki/contrib/numberedreferences/internal/NumberedHeadingsTransformation.java:162-175 | a marker holding two references directly crashes on the second |
| Examples.UnknownReferenceSpliced | src/main/java/org/xwiki/contrib/numberedreferences/internal/NumberedHeadingsTransformation.java:163-169 | a standalone marker referring to an id that nothing defines is replaced, in place, by all the blocks the generator returns for the message naming it |
| WorkedDocument.DocNumbered | src/test/java/org/xwiki/contrib/numberedreferences/internal/NumberedHeadingsTransformationTest.java:65-88 | the unit test's headings are numbered 1, 1.1, 1.2 and 1.2.1, and the paragraph is untouched |
| WorkedDocument.RegistryMapsC | src/test/java/org/xwiki/contrib/numberedreferences/internal/NumberedHeadingsTransformationTest.java:82 | the id block C, placed in heading 1.2, maps to 1.2.1 |
| WorkedDocument.ReferenceToInvalidResolved | src/test/java/org/xwiki/contrib/numberedreferences/internal/NumberedHeadingsTransformationTest.java:83-84 | the marker of the reference to an unknown id becomes the generator's blocks for `No section id named [invalid] was found`, `Verify the section id used.` and the inline flag |
| WorkedDocument.DocTransformed | src/test/java/org/xwiki/contrib/numberedreferences/internal/NumberedHeadingsTransformationTest.java:82-88 | the whole unit-test document becomes the expected one: a link labelled 1.2.1 to C, the generator's error blocks spliced in place of the reference to invalid, and the numbered headings |

## Left out

- Component wiring and scheduling are not modelled. This covers `@Component`, `@Named`, `@Inject` and `getPriority`, which belong to the host pipeline.
- The error block generator is a parameter of part 2, and its internals are not modelled. Nothing is assumed about the blocks it returns, except in the properties that say "when the generator shows no reference".
- Links are modelled as an anchor plus label children. The document reference with its empty page and the freestanding flag are not modelled.
- `ReferenceMacro` is not modelled: its placeholder is a tree node. The placeholder's type parameter is not modelled either, because the pass processes every reference block.
- The figure and table numbering transformation is not part of this model.
- Parser, renderers and other test harness code are not modelled.
- Header levels are not modelled, because the pass never reads them.
- A format block is modelled by its `class` parameter only.
- `transform` is modelled on a root, given as the list of its children. A root is neither a section, a header nor a macro marker, as is the case for the document's root block.
- Numbering.Increment: does not model 32-bit wrap-around of `int`; integers are unbounded.
- Numerals.ParseInt: accepts a numeral of any size and only ASCII digits. Java's `Integer.parseInt` also rejects values outside 32 bits and also accepts other Unicode decimal digits.
- NumberingFacts.DocumentKeepsIds: compares only the finished document with the original. The source collects the id blocks again at every numbered header (line 141), from a partly numbered document. The fold does not build those intermediate documents, so the model only promises the equality for the finished one. Insertion adds nothing but number prefixes (NumberingFrame.DocumentGrown), which hold no id block (NumberingFacts.PrefixHasNoIds).
- FreshNumbering.FreshDocumentNumbering: positivity is proved only for a document that carries no number yet. Numbers already present in marked format blocks may hold any integers, and the rules extend them as they are.
