/** The terms of service on the terms page: `store.terms` is split on '\n'
    and every line becomes a block, a heading when it is the first line or
    starts with digits followed by '.', a paragraph otherwise. */
module Terms {
  import opened Text

  datatype Block = Heading(text: string) | Paragraph(text: string)

  /** Number of ASCII digits at the start of `line`. */
  function LeadingDigits(line: string): (d: nat)
    ensures d <= |line|
    ensures forall i :: 0 <= i < d ==> IsDigit(line[i])
    ensures d < |line| ==> !IsDigit(line[d])
  {
    if line == [] || !IsDigit(line[0]) then 0 else 1 + LeadingDigits(line[1..])
  }

  /** `line.match(/^[0-9]+\./)` is truthy: the leading digits are followed
      by a '.'. */
  predicate IsNumberedHeading(line: string)
  {
    var d := LeadingDigits(line);
    1 <= d < |line| && line[d] == '.'
  }

  /** The regular expression `^[0-9]+\.` matches at the start of `line`
      with `k` digits. */
  ghost predicate NumberedAt(line: string, k: int)
  {
    1 <= k < |line| && AllDigits(line[..k]) && line[k] == '.'
  }

  /** The regular expression `^[0-9]+\.` matches `line`. */
  ghost predicate NumberedPattern(line: string)
  {
    exists k :: NumberedAt(line, k)
  }

  /** The recogniser agrees with the regular expression. */
  lemma NumberedHeadingIffPattern(line: string)
    ensures IsNumberedHeading(line) <==> NumberedPattern(line)
  {
    var d := LeadingDigits(line);
    if IsNumberedHeading(line) {
      assert NumberedAt(line, d);
    }
    if exists k :: NumberedAt(line, k) {
      var k :| NumberedAt(line, k);
      forall i | 0 <= i < k
        ensures IsDigit(line[i])
      {
        assert line[i] == line[..k][i];
      }
    }
  }

  /** The block for the line at `index`. */
  function ClassifyLine(index: nat, line: string): Block
  {
    if index == 0 || IsNumberedHeading(line) then Heading(line) else Paragraph(line)
  }

  /** `store.terms && store.terms.split('\n').map(...)`: absent or empty
      terms render no block. */
  function TermsBlocks(terms: Option<string>): seq<Block>
  {
    if terms.None? || terms.value == "" then []
    else
      var lines := Split(terms.value, '\n');
      seq(|lines|, i requires 0 <= i < |lines| => ClassifyLine(i, lines[i]))
  }

  /** The text of each block, in order. */
  function Texts(blocks: seq<Block>): seq<string>
  {
    seq(|blocks|, i requires 0 <= i < |blocks| => blocks[i].text)
  }

  /** Absent or empty terms produce no block; otherwise there is one block
      per line, one more than there are newlines, each carrying its line. */
  lemma BlocksFollowLines(terms: Option<string>)
    ensures terms.None? || terms.value == "" ==> TermsBlocks(terms) == []
    ensures terms.Some? && terms.value != "" ==>
      && |TermsBlocks(terms)| == Count(terms.value, '\n') + 1
      && Texts(TermsBlocks(terms)) == Split(terms.value, '\n')
  {
  }

  /** The texts of the blocks joined with '\n' give back the terms. */
  lemma BlocksRejoin(terms: string)
    requires terms != ""
    ensures Join(Texts(TermsBlocks(Some(terms))), '\n') == terms
  {
    BlocksFollowLines(Some(terms));
    JoinSplit(terms, '\n');
  }

  /** The first line is a heading whatever it holds; a later line is a
      heading exactly when it starts with one or more digits and a '.'. */
  lemma HeadingRule(terms: string, i: nat)
    requires terms != "" && i < |TermsBlocks(Some(terms))|
    ensures i == 0 ==> TermsBlocks(Some(terms))[i].Heading?
    ensures i > 0 ==>
      (TermsBlocks(Some(terms))[i].Heading? <==>
       NumberedPattern(Split(terms, '\n')[i]))
  {
    var line := Split(terms, '\n')[i];
    var b := TermsBlocks(Some(terms))[i];
    assert b == ClassifyLine(i, line);
    NumberedHeadingIffPattern(line);
  }

  /** Lines that only resemble a numbered heading are paragraphs. */
  lemma ParagraphExamples()
    ensures ClassifyLine(1, "1 Foo") == Paragraph("1 Foo")
    ensures ClassifyLine(1, ".x") == Paragraph(".x")
    ensures ClassifyLine(1, "a1.") == Paragraph("a1.")
    ensures ClassifyLine(1, "12. Pagamento") == Heading("12. Pagamento")
    ensures ClassifyLine(0, "Termos") == Heading("Termos")
  {
    assert LeadingDigits("1 Foo") == 1 by { assert LeadingDigits(" Foo") == 0; }
    assert LeadingDigits(".x") == 0;
    assert LeadingDigits("a1.") == 0;
    assert LeadingDigits("12. Pagamento") == 2 by {
      assert LeadingDigits("2. Pagamento") == 1 by { assert LeadingDigits(". Pagamento") == 0; }
    }
  }
}
