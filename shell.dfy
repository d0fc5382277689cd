/**
 * How a POSIX shell reads the body of a quoted word, as far as the commands the
 * tool functions send to the device's shell need it.
 */
module Shell {
  import opened Common

  /**
   * The body of a single-quoted word: everything up to the next single quote,
   * taken literally. Returns the word and what follows the closing quote, or
   * None when no closing quote comes.
   */
  function ReadSingleQuoted(s: string): (r: Option<(string, string)>)
    ensures r.Some? ==> |r.value.0| < |s| && s == r.value.0 + "'" + r.value.1 && '\'' !in r.value.0
    ensures r.None? <==> '\'' !in s
  {
    if s == [] then None
    else if s[0] == '\'' then Some(([], s[1..]))
    else match ReadSingleQuoted(s[1..])
      case None => None
      case Some((w, rest)) => Some(([s[0]] + w, rest))
  }

  /**
   * The outcome of reading a double-quoted word: its literal value and the text
   * after the closing quote; or an unescaped $ or ` that hands the text to
   * parameter or command substitution; or no closing quote.
   */
  datatype DqResult = Word(value: string, rest: string) | Substitution | Unterminated

  /** Inside double quotes a backslash escapes exactly these characters (and a newline). */
  predicate DqSpecial(c: char)
  {
    c == '$' || c == '`' || c == '"' || c == '\\'
  }

  function Prepend(c: char, r: DqResult): DqResult
  {
    match r
    case Word(v, rest) => Word([c] + v, rest)
    case _ => r
  }

  /**
   * The body of a double-quoted word, read as section 2.2.3 of the POSIX shell
   * standard prescribes: a backslash before $, `, ", \ yields that character,
   * a backslash before a newline vanishes, and before anything else it stays.
   */
  function ReadDq(s: string): DqResult
  {
    if s == [] then Unterminated
    else if s[0] == '"' then Word([], s[1..])
    else if s[0] == '$' || s[0] == '`' then Substitution
    else if s[0] == '\\' then
      if |s| == 1 then Unterminated
      else if DqSpecial(s[1]) then Prepend(s[1], ReadDq(s[2..]))
      else if s[1] == '\n' then ReadDq(s[2..])
      else Prepend('\\', ReadDq(s[1..]))
    else Prepend(s[0], ReadDq(s[1..]))
  }
}
