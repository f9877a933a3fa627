/** How a heading number is written into the tree and read back from it. */
module Formatting {

  import opened Base
  import opened Tree
  import opened Numerals

  /** The value of the "class" parameter that marks an inserted number. */
  const ClassValue: string := "numbered-reference"

  /** The '.' special symbol written between two components. */
  const DotBlock: Block := Leaf(Symbol('.'))

  function NumberWord(x: int): Block {
    Leaf(Word(IntToString(x)))
  }

  /** serializeNumber: one word per component, with a dot between two words. */
  function SerializeNumber(n: Num): (bs: seq<Block>)
    ensures |n| == 0 ==> bs == []
    ensures |n| > 0 ==> |bs| == 2 * |n| - 1 && bs[0] == NumberWord(n[0])
    decreases |n|
  {
    if |n| == 0 then []
    else if |n| == 1 then [NumberWord(n[0])]
    else [NumberWord(n[0]), DotBlock] + SerializeNumber(n[1..])
  }

  /** The word of component k sits at position 2k of the serialized blocks. */
  lemma {:induction false} SerializeWordAt(n: Num, k: nat)
    requires k < |n|
    ensures 2 * k < |SerializeNumber(n)| && SerializeNumber(n)[2 * k] == NumberWord(n[k])
    decreases |n|
  {
    if k == 0 {
      assert SerializeNumber(n)[0] == NumberWord(n[0]);
    } else {
      var m := n[1..];
      SerializeWordAt(m, k - 1);
      SerializeShift(n, 2 * (k - 1));
      assert m[k - 1] == n[k];
    }
  }

  /** Past the first word and dot, the serialization continues with that of
      the remaining components. */
  lemma SerializeShift(n: Num, i: nat)
    requires |n| > 1 && i < |SerializeNumber(n[1..])|
    ensures i + 2 < |SerializeNumber(n)| && SerializeNumber(n)[i + 2] == SerializeNumber(n[1..])[i]
  {
    assert SerializeNumber(n) == [NumberWord(n[0]), DotBlock] + SerializeNumber(n[1..]);
  }

  /** A dot sits at position 2k + 1, between components k and k + 1. */
  lemma {:induction false} SerializeDotAt(n: Num, k: nat)
    requires k + 1 < |n|
    ensures 2 * k + 1 < |SerializeNumber(n)| && SerializeNumber(n)[2 * k + 1] == DotBlock
    decreases |n|
  {
    var bs := SerializeNumber(n);
    assert bs == [NumberWord(n[0]), DotBlock] + SerializeNumber(n[1..]);
    if k > 0 {
      SerializeDotAt(n[1..], k - 1);
      assert bs[2 * k + 1] == SerializeNumber(n[1..])[2 * (k - 1) + 1];
    }
  }

  /** The serialized blocks alternate between the components' words and dots. */
  lemma SerializeAlternates(n: Num)
    ensures forall i :: 0 <= i < |SerializeNumber(n)| ==>
      SerializeNumber(n)[i] == if i % 2 == 0 then NumberWord(n[i / 2]) else DotBlock
  {
    forall i | 0 <= i < |SerializeNumber(n)|
      ensures SerializeNumber(n)[i] == if i % 2 == 0 then NumberWord(n[i / 2]) else DotBlock
    {
      if i % 2 == 0 {
        assert i == 2 * (i / 2);
        SerializeWordAt(n, i / 2);
      } else {
        assert i == 2 * (i / 2) + 1;
        SerializeDotAt(n, i / 2);
      }
    }
  }

  /** The texts of the word blocks of a list, in order. */
  function WordTexts(bs: seq<Block>): seq<string>
    decreases |bs|
  {
    if bs == [] then []
    else (if bs[0].kind.Word? then [bs[0].kind.text] else []) + WordTexts(bs[1..])
  }

  /** parseNumbers: every word block is parsed as an integer, every other block
      (the dots) is skipped; the first word that is no numeral aborts. */
  function ParseNumbers(bs: seq<Block>): (r: Result<Num>)
    ensures r.Fail? ==> r.crash.MalformedNumber?
    decreases |bs|
  {
    if bs == [] then Ok([])
    else
      var head :- if !bs[0].kind.Word? then Ok([])
                  else match ParseInt(bs[0].kind.text)
                    case Some(v) => Ok([v])
                    case None => Fail(MalformedNumber(bs[0].kind.text));
      var rest :- ParseNumbers(bs[1..]);
      Ok(head + rest)
  }

  /** parseNumbers keeps exactly the words: it yields one integer per word
      block, the value of that word, and fails only on a word that is no
      numeral. */
  lemma {:induction false} ParseNumbersKeepsWords(bs: seq<Block>)
    ensures ParseNumbers(bs).Ok? ==> |ParseNumbers(bs).value| == |WordTexts(bs)|
    ensures ParseNumbers(bs).Ok? ==> forall i :: 0 <= i < |WordTexts(bs)| ==>
      ParseInt(WordTexts(bs)[i]) == Some(ParseNumbers(bs).value[i])
    ensures ParseNumbers(bs).Fail? ==>
      ParseNumbers(bs).crash.word in WordTexts(bs) && !IsNumeral(ParseNumbers(bs).crash.word)
    decreases |bs|
  {
    if bs != [] {
      ParseNumbersKeepsWords(bs[1..]);
      var ws := WordTexts(bs);
      var tail := WordTexts(bs[1..]);
      if bs[0].kind.Word? {
        assert ws == [bs[0].kind.text] + tail;
        if ParseNumbers(bs).Ok? {
          var r := ParseNumbers(bs).value;
          assert forall i :: 1 <= i < |ws| ==> ws[i] == tail[i - 1];
          assert r[1..] == ParseNumbers(bs[1..]).value;
        }
      } else {
        assert ws == tail;
      }
    }
  }

  lemma ParseSkipsNonWord(bs: seq<Block>)
    requires |bs| > 0 && !bs[0].kind.Word?
    ensures ParseNumbers(bs) == ParseNumbers(bs[1..])
  {
    var rest := ParseNumbers(bs[1..]);
    if rest.Ok? {
      assert [] + rest.value == rest.value;
    }
  }

  /** A number's word in front of a list is read as that number. */
  lemma ParseWordThen(x: int, bs: seq<Block>)
    requires ParseNumbers(bs).Ok?
    ensures ParseNumbers([NumberWord(x)] + bs) == Ok([x] + ParseNumbers(bs).value)
  {
    ParseIntToString(x);
    assert ([NumberWord(x)] + bs)[1..] == bs;
  }

  /** Reading back the words of a serialized number gives the number. */
  lemma {:induction false} ParseSerializeRoundTrip(n: Num)
    ensures ParseNumbers(SerializeNumber(n)) == Ok(n)
    decreases |n|
  {
    if |n| == 1 {
      ParseWordThen(n[0], []);
      assert SerializeNumber(n) == [NumberWord(n[0])] + [];
      assert [n[0]] + [] == n;
    } else if |n| > 1 {
      var tail := SerializeNumber(n[1..]);
      ParseSerializeRoundTrip(n[1..]);
      ParseSkipsNonWord([DotBlock] + tail);
      assert ([DotBlock] + tail)[1..] == tail;
      ParseWordThen(n[0], [DotBlock] + tail);
      assert SerializeNumber(n) == [NumberWord(n[0])] + ([DotBlock] + tail);
      assert [n[0]] + n[1..] == n;
    }
  }

  /** String.contains */
  predicate Contains(s: string, sub: string)
    decreases |s|
  {
    sub <= s || (|s| > 0 && Contains(s[1..], sub))
  }

  lemma {:induction false} ContainsMiddle(a: string, sub: string, b: string)
    ensures Contains(a + sub + b, sub)
    decreases |a|
  {
    if a == [] {
      assert a + sub + b == sub + b;
    } else {
      assert (a + sub + b)[1..] == a[1..] + sub + b;
      ContainsMiddle(a[1..], sub, b);
    }
  }

  /** A format block whose class parameter contains the marker class. */
  predicate IsNumberedFormat(b: Block) {
    b.kind.Format? && b.kind.cls.Some? && Contains(b.kind.cls.value, ClassValue)
  }

  /** serializeAndFormatNumber: the number's blocks wrapped in a marked format block. */
  function SerializeAndFormatNumber(n: Num): (b: Block)
    ensures IsNumberedFormat(b)
    ensures ParseNumbers(b.children) == Ok(n)
  {
    assert ClassValue <= ClassValue;
    ParseSerializeRoundTrip(n);
    Block(Format(Some(ClassValue)), SerializeNumber(n))
  }

  /** What the transformation puts in front of a numbered header's content:
      the marked number, then one space. */
  function NumberPrefix(n: Num): seq<Block> {
    [SerializeAndFormatNumber(n), Leaf(Space)]
  }

  /** SectionBlock.getHeaderBlock: the first child, when it is a header. */
  function SectionHeader(s: Block): Option<Block>
    requires s.kind.Section?
  {
    if |s.children| > 0 && s.children[0].kind.Header? then Some(s.children[0]) else None
  }

  /** The section carries a recognisable number: its header's first child is a
      marked format block. */
  predicate IsNumberedSection(s: Block)
    requires s.kind.Section?
  {
    SectionHeader(s).Some? && |SectionHeader(s).value.children| > 0
      && IsNumberedFormat(SectionHeader(s).value.children[0])
  }

  /** extractNumberFromHeading: the number a section's header carries; empty
      when it carries none. */
  function HeadingNumber(s: Block): (r: Result<Num>)
    requires s.kind.Section?
    ensures !IsNumberedSection(s) ==> r == Ok([])
    ensures IsNumberedSection(s) ==> r == ParseNumbers(SectionHeader(s).value.children[0].children)
  {
    match SectionHeader(s)
    case None => Ok([])
    case Some(h) =>
      if |h.children| > 0 && IsNumberedFormat(h.children[0]) then ParseNumbers(h.children[0].children)
      else Ok([])
  }

  /** A header numbered by the transformation is recognised with exactly that
      number, whatever follows it in the section. */
  lemma RecogniseInserted(id: Option<string>, n: Num, content: seq<Block>, rest: seq<Block>)
    ensures HeadingNumber(Block(Section, [Block(Header(id), NumberPrefix(n) + content)] + rest)) == Ok(n)
  {
    var s := Block(Section, [Block(Header(id), NumberPrefix(n) + content)] + rest);
    assert SectionHeader(s).value.children[0] == SerializeAndFormatNumber(n);
  }
}
