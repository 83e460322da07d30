/** What the parser promises about whole inputs. */
module ParserTheorems {
  import opened Ast
  import opened Tokens
  import opened Parsing
  import opened Grammar
  import opened ParserSound
  import opened ParserComplete

  /** The parser returns `p` without errors exactly when the tokens spell `p`. */
  lemma ParserExact(ts: seq<Token>, p: Program)
    requires AllScanned(ts)
    ensures var (r, q) := Parse(ts);
      r.count == 0 && q == p <==> CompleteProgram(p) && EndOfProgram(ts, 0, p) >= 0
  {
    var (r, q) := Parse(ts);
    if r.count == 0 {
      ProgramSound(ts, START);
    }
    if CompleteProgram(p) && EndOfProgram(ts, 0, p) >= 0 {
      ProgramAccepted(ts, START, p);
    }
  }

  /** Without errors the program is there and complete, the consumed tokens spell it, and no null list was met. */
  lemma ParserSoundness(ts: seq<Token>)
    requires AllScanned(ts)
    ensures var (r, p) := Parse(ts);
      r.count == 0 ==> CompleteProgram(p) && EndOfProgram(ts, 0, p) == r.pos && !r.fault
  {
    if Parse(ts).0.count == 0 {
      ProgramSound(ts, START);
    }
  }

  /** One token sequence spells at most one program. */
  lemma SpellingUnambiguous(ts: seq<Token>, p: Program, q: Program)
    requires CompleteProgram(p) && EndOfProgram(ts, 0, p) >= 0
    requires CompleteProgram(q) && EndOfProgram(ts, 0, q) >= 0
    ensures p == q && EndOfProgram(ts, 0, p) == EndOfProgram(ts, 0, q)
  {
    ProgramAccepted(ts, START, p);
    ProgramAccepted(ts, START, q);
  }
}
