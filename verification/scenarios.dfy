/** Whole documents from the repository's tests, rendered by the model of
    render/bean.go. Paragraph chunks are shown before wrap.WrapString. */
module Scenarios {
  import opened Text
  import Ansi
  import opened Blocks
  import opened Render
  import Spacing

  const Sentence: string := "This is a paragraph."

  lemma SentenceIsText()
    ensures |Sentence| > 0 && 'A' <= Sentence[0] <= 'Z'
    ensures '`' !in Sentence && '*' !in Sentence && '_' !in Sentence && '~' !in Sentence
    ensures !IsBlank(Sentence) && !HasSuffix(Sentence, "<br>") && Sentence[|Sentence| - 1] != ' '
  {
    assert !IsUnicodeSpace(Sentence[0]);
  }

  /** test/hr_test.go:60-64: a rule after a paragraph is set
      off by an empty line. */
  lemma RuleAfterParagraph(width: nat)
    ensures Chunks([Sentence, "---"], width)
      == [Wrapped(Sentence + " "), Raw("\n\n" + Replicate(Ansi.RuleChar, width) + "\n\n")]
  {
    SentenceIsText();
    RuleAfterText(Sentence, "---", width);
  }
}
