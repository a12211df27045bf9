/** The SGR control sequences (section 8.3.117 of ECMA-48) and the glyphs the
    renderers emit. They are treated as opaque strings. */
module Ansi {
  import opened Text

  const Bold: string := "\U{1B}[1m"
  const Underline: string := "\U{1B}[4m"
  const Italic: string := "\U{1B}[3m"
  const Strike: string := "\U{1B}[9m"
  /** Background 238, foreground 1: inline code. */
  const Code: string := "\U{1B}[48;5;238;38;5;1m"
  const Reset: string := "\U{1B}[0m"

  /** "• " */
  const Bullet: string := "\U{2022} "
  /** "─", used for rules and for the header decoration. */
  const RuleChar: char := '\U{2500}'
  /** The unit-separator character that stands in for an inline code span. */
  const Placeholder: char := '\U{1F}'

  /** Every character an SGR sequence above, or a space, is made of. */
  predicate IsSgrChar(c: char) {
    c == '\U{1B}' || c == '[' || c == ';' || c == 'm' || c == ' ' || IsDigit(c)
  }

  predicate IsSgrText(s: string) {
    forall i | 0 <= i < |s| :: IsSgrChar(s[i])
  }
}
