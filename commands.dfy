/**
 * The shell commands and status strings the tool functions build: the tap of
 * performClick, the escaped text of performTextInput and the broadcast and
 * verdict of testTask.
 */
module Commands {
  import opened Common
  import opened Text
  import opened Shell

  // ---------------------------------------------------------------- performClick

  const TapPrefix: string := "input tap "
  const ClickPrefix: string := "Clicked at ("

  /** Splits s at the first occurrence of sep. */
  function SplitAt(s: string, sep: char): (r: Option<(string, string)>)
    ensures r.Some? ==> s == r.value.0 + [sep] + r.value.1 && sep !in r.value.0
    ensures r.None? <==> sep !in s
  {
    if s == [] then None
    else if s[0] == sep then Some(([], s[1..]))
    else match SplitAt(s[1..], sep)
      case None => None
      case Some((a, b)) => Some(([s[0]] + a, b))
  }

  lemma {:induction false} SplitAtJoin(a: string, sep: char, b: string)
    requires sep !in a
    ensures SplitAt(a + [sep] + b, sep) == Some((a, b))
  {
    if a != [] {
      assert a[0] in a;
      assert (a + [sep] + b)[0] == a[0];
      assert (a + [sep] + b)[1..] == a[1..] + [sep] + b;
      assert sep !in a[1..] by { assert forall c :: c in a[1..] ==> c in a; }
      SplitAtJoin(a[1..], sep, b);
      assert [a[0]] + a[1..] == a;
    }
  }

  /** How the device's `input tap` reads its two integer arguments back. */
  function ParseTap(cmd: string): Option<(int, int)>
  {
    if |cmd| >= |TapPrefix| && cmd[..|TapPrefix|] == TapPrefix then
      match SplitAt(cmd[|TapPrefix|..], ' ')
      case None => None
      case Some((a, b)) =>
        match (ParseInt(a), ParseInt(b))
        case (Some(x), Some(y)) => Some((x, y))
        case _ => None
    else None
  }

  /** The tap command's arguments read back as exactly the coordinates they render. */
  lemma TapCommandRoundTrip(x: int, y: int)
    ensures ParseTap(TapPrefix + IntToString(x) + " " + IntToString(y)) == Some((x, y))
  {
    var sx, sy := IntToString(x), IntToString(y);
    var cmd := TapPrefix + sx + " " + sy;
    assert cmd[..|TapPrefix|] == TapPrefix;
    assert cmd[|TapPrefix|..] == sx + [' '] + sy;
    SplitAtJoin(sx, ' ', sy);
    IntToStringRoundTrip(x);
    IntToStringRoundTrip(y);
  }

  /** "input tap " + str(x) + " " + str(y): a tap command that delivers exactly (x, y). */
  function TapCommand(x: int, y: int): (cmd: string)
    ensures |cmd| > |TapPrefix| && cmd[..|TapPrefix|] == TapPrefix
    ensures ParseTap(cmd) == Some((x, y))
  {
    TapCommandRoundTrip(x, y);
    TapPrefix + IntToString(x) + " " + IntToString(y)
  }

  /** Reads the two integers back out of a "Clicked at (x, y)" status. */
  function ParseClickStatus(status: string): Option<(int, int)>
  {
    if |status| > |ClickPrefix| && status[..|ClickPrefix|] == ClickPrefix && status[|status| - 1] == ')' then
      match SplitAt(status[|ClickPrefix|..|status| - 1], ',')
      case None => None
      case Some((a, b)) =>
        if |b| > 0 && b[0] == ' ' then
          match (ParseInt(a), ParseInt(b[1..]))
          case (Some(x), Some(y)) => Some((x, y))
          case _ => None
        else None
    else None
  }

  lemma ClickStatusRoundTrip(x: int, y: int)
    ensures ParseClickStatus(ClickPrefix + IntToString(x) + ", " + IntToString(y) + ")") == Some((x, y))
  {
    var sx, sy := IntToString(x), IntToString(y);
    var status := ClickPrefix + sx + ", " + sy + ")";
    assert status[..|ClickPrefix|] == ClickPrefix;
    assert status[|ClickPrefix|..|status| - 1] == sx + [','] + (" " + sy);
    SplitAtJoin(sx, ',', " " + sy);
    assert (" " + sy)[1..] == sy;
    IntToStringRoundTrip(x);
    IntToStringRoundTrip(y);
  }

  /** "Clicked at (" + str(x) + ", " + str(y) + ")": a status that names exactly the point tapped. */
  function ClickStatus(x: int, y: int): (status: string)
    ensures |status| > |ClickPrefix| && status[..|ClickPrefix|] == ClickPrefix
    ensures ParseClickStatus(status) == Some((x, y))
  {
    ClickStatusRoundTrip(x, y);
    ClickPrefix + IntToString(x) + ", " + IntToString(y) + ")"
  }

  // ----------------------------------------------------------- performTextInput

  predicate IsQuote(c: char)
  {
    c == '"' || c == '\''
  }

  /**
   * Python's s.replace(c, rep) for a one-character pattern: text without c is
   * returned as it is, and when rep holds no c, no c is left.
   */
  function ReplaceChar(s: string, c: char, rep: string): (r: string)
    ensures c !in s ==> r == s
    ensures c !in rep ==> c !in r
    ensures |s| == 1 ==> r == (if s[0] == c then rep else s)
  {
    if s == [] then []
    else
      var tail := ReplaceChar(s[1..], c, rep);
      assert s[0] != c ==> s == [s[0]] + s[1..];
      (if s[0] == c then rep else [s[0]]) + tail
  }

  /**
   * text.replace('"', '\\"').replace("'", "\\'"), the escaping as tools.py
   * writes it; it amounts to escaping each character on its own.
   */
  function Escape(text: string): (escaped: string)
    ensures escaped == EscapeEach(text)
  {
    EscapeIsPerCharacter(text);
    ReplaceChar(ReplaceChar(text, '"', "\\\""), '\'', "\\'")
  }

  /** The intended effect on one character: a backslash before each quote. */
  function EscapeChar(c: char): string
  {
    if IsQuote(c) then ['\\', c] else [c]
  }

  /** Escapes character by character. */
  function EscapeEach(s: string): (r: string)
    ensures r == [] <==> s == []
  {
    if s == [] then [] else EscapeChar(s[0]) + EscapeEach(s[1..])
  }

  lemma {:induction false} ReplaceCharAppend(a: string, b: string, c: char, rep: string)
    ensures ReplaceChar(a + b, c, rep) == ReplaceChar(a, c, rep) + ReplaceChar(b, c, rep)
  {
    if a != [] {
      assert (a + b)[0] == a[0];
      assert (a + b)[1..] == a[1..] + b;
      ReplaceCharAppend(a[1..], b, c, rep);
    } else {
      assert a + b == b;
    }
  }

  /**
   * The two chained replace calls act as one per-character escape: the second
   * call never touches the backslash and double quote the first one inserted.
   */
  lemma {:induction false} EscapeIsPerCharacter(s: string)
    ensures ReplaceChar(ReplaceChar(s, '"', "\\\""), '\'', "\\'") == EscapeEach(s)
  {
    if s != [] {
      var head := if s[0] == '"' then "\\\"" else [s[0]];
      assert ReplaceChar(s, '"', "\\\"") == head + ReplaceChar(s[1..], '"', "\\\"");
      ReplaceCharAppend(head, ReplaceChar(s[1..], '"', "\\\""), '\'', "\\'");
      assert ReplaceChar(head, '\'', "\\'") == EscapeChar(s[0]);
      EscapeIsPerCharacter(s[1..]);
    }
  }

  /** The output is the input plus one backslash per quote character. */
  lemma {:induction false} EscapeLength(s: string)
    ensures |Escape(s)| == |s| + multiset(s)['"'] + multiset(s)['\'']
  {
    EscapeIsPerCharacter(s);
    EscapeEachLength(s);
  }

  lemma {:induction false} EscapeEachLength(s: string)
    ensures |EscapeEach(s)| == |s| + multiset(s)['"'] + multiset(s)['\'']
  {
    if s != [] {
      assert s == [s[0]] + s[1..];
      assert multiset(s) == multiset([s[0]]) + multiset(s[1..]);
      EscapeEachLength(s[1..]);
    }
  }

  /** Text without quotes is passed through unchanged. */
  lemma {:induction false} EscapeWithoutQuotes(s: string)
    requires '"' !in s && '\'' !in s
    ensures Escape(s) == s
  {
    EscapeIsPerCharacter(s);
    EscapeEachWithoutQuotes(s);
  }

  lemma {:induction false} EscapeEachWithoutQuotes(s: string)
    requires '"' !in s && '\'' !in s
    ensures EscapeEach(s) == s
  {
    if s != [] {
      assert s[0] in s;
      assert forall c :: c in s[1..] ==> c in s;
      EscapeEachWithoutQuotes(s[1..]);
    }
  }

  /** Removes the backslash in front of each quote. */
  function Unescape(t: string): string
  {
    if t == [] then []
    else if |t| >= 2 && t[0] == '\\' && IsQuote(t[1]) then [t[1]] + Unescape(t[2..])
    else [t[0]] + Unescape(t[1..])
  }

  lemma EscapeEachStartsUnquoted(s: string)
    requires s != []
    ensures !IsQuote(EscapeEach(s)[0])
  {
  }

  lemma {:induction false} UnescapeEscapeEach(s: string)
    ensures Unescape(EscapeEach(s)) == s
  {
    if s != [] {
      var rest := EscapeEach(s[1..]);
      UnescapeEscapeEach(s[1..]);
      if IsQuote(s[0]) {
        assert EscapeEach(s) == ['\\', s[0]] + rest;
        assert EscapeEach(s)[2..] == rest;
      } else {
        assert EscapeEach(s) == [s[0]] + rest;
        if rest != [] { EscapeEachStartsUnquoted(s[1..]); }
        assert EscapeEach(s)[1..] == rest;
      }
    }
  }

  /**
   * Escaping loses nothing: every character of the text stays, in order, and
   * the backslashes added are exactly the ones Unescape removes.
   */
  lemma EscapeRoundTrip(s: string)
    ensures Unescape(Escape(s)) == s
  {
    EscapeIsPerCharacter(s);
    UnescapeEscapeEach(s);
  }

  /**
   * The characters a backslash must protect inside double quotes, so that the
   * shell hands the text to `input text` literally.
   */
  function EscapeDqChar(c: char): string
  {
    if DqSpecial(c) then ['\\', c] else [c]
  }

  /** The corrected escaping for a double-quoted shell argument. */
  function EscapeDq(s: string): (r: string)
    ensures |r| >= |s|
  {
    if s == [] then [] else EscapeDqChar(s[0]) + EscapeDq(s[1..])
  }

  /** The shell reads the corrected argument back as the original text, and stops right after it. */
  lemma {:induction false} EscapeDqReadsBack(text: string, rest: string)
    ensures ReadDq(EscapeDq(text) + "\"" + rest) == Word(text, rest)
  {
    if text != [] {
      var tail := EscapeDq(text[1..]) + "\"" + rest;
      EscapeDqReadsBack(text[1..], rest);
      assert EscapeDq(text) + "\"" + rest == EscapeDqChar(text[0]) + tail;
      if DqSpecial(text[0]) {
        assert (['\\', text[0]] + tail)[2..] == tail;
      } else {
        assert ([text[0]] + tail)[1..] == tail;
      }
    }
  }

  const TextInputPrefix: string := "input text \""

  /** The text has none of \ $ ` ', the characters the escaping of tools.py mishandles. */
  predicate LiteralUnderAsWritten(text: string)
  {
    forall i :: 0 <= i < |text| ==> text[i] !in "\\$`'"
  }

  /**
   * 'input text "' + escaped_text + '"', the command performTextInput sends.
   * Its quoted argument reads back as the text when the text avoids \ $ ` '.
   */
  function TextInputCommand(text: string): (cmd: string)
    ensures cmd == TextInputPrefix + Escape(text) + "\""
    ensures LiteralUnderAsWritten(text) ==> ReadDq(cmd[|TextInputPrefix|..]) == Word(text, "")
  {
    var cmd := TextInputPrefix + Escape(text) + "\"";
    assert cmd[|TextInputPrefix|..] == Escape(text) + "\"";
    assert LiteralUnderAsWritten(text) ==> ReadDq(cmd[|TextInputPrefix|..]) == Word(text, "") by {
      if LiteralUnderAsWritten(text) { EscapeAsWrittenSafeDomain(text); }
    }
    cmd
  }

  /** The corrected command: its quoted argument reads back as exactly the text, whatever it holds. */
  function CorrectedTextInputCommand(text: string): (cmd: string)
    ensures |cmd| > |TextInputPrefix| && cmd[..|TextInputPrefix|] == TextInputPrefix
    ensures ReadDq(cmd[|TextInputPrefix|..]) == Word(text, "")
  {
    var cmd := TextInputPrefix + EscapeDq(text) + "\"";
    assert cmd[|TextInputPrefix|..] == EscapeDq(text) + "\"" + "";
    EscapeDqReadsBack(text, "");
    cmd
  }

  const InputPrefix: string := "Input text: "

  /** "Input text: " + text: the status reports the text before escaping. */
  function InputStatus(text: string): (status: string)
    ensures |status| == |InputPrefix| + |text|
    ensures status[..|InputPrefix|] == InputPrefix && status[|InputPrefix|..] == text
  {
    "Input text: " + text
  }

  /** As written, a single quote reaches `input text` with the backslash still in front of it. */
  lemma EscapeAsWrittenKeepsBackslash()
    ensures ReadDq(Escape("'") + "\"") == Word("\\'", "")
  {
    EscapeIsPerCharacter("'");
    assert Escape("'") == "\\'";
    assert ReadDq("'\"") == Word("'", "");
  }

  /**
   * As written, a backslash before a double quote ends the quoted word early:
   * the shell reads \\ as one backslash and the quote as the closing one.
   */
  lemma EscapeAsWrittenBreaksOut()
    ensures ReadDq(Escape("\\\"") + "\"") == Word("\\", "\"")
  {
    var text := "\\\"";
    assert text[0] == '\\' && text[1..] == "\"" && "\""[1..] == [];
    assert EscapeEach("\"") == "\\\"";
    assert Escape(text) == "\\" + "\\\"";
    var s := Escape(text) + "\"";
    assert s[0] == '\\' && s[1] == '\\' && s[2..] == "\"\"";
    assert ReadDq(s[2..]) == Word([], "\"");
  }

  /** As written, a dollar sign is left to parameter substitution. */
  lemma EscapeAsWrittenSubstitutes()
    ensures ReadDq(Escape("$HOME") + "\"") == Substitution
  {
    var text := "$HOME";
    assert text[0] == '$' && text != [];
    assert Escape(text) == EscapeChar('$') + EscapeEach(text[1..]);
    assert (Escape(text) + "\"")[0] == '$';
  }

  /** Text with none of \ $ ` ' is the one kind that the escaping of tools.py already passes literally. */
  lemma EscapeAsWrittenSafeDomain(text: string)
    requires LiteralUnderAsWritten(text)
    ensures ReadDq(Escape(text) + "\"") == Word(text, "")
  {
    EscapeIsPerCharacter(text);
    EscapeEachAgreesWithDq(text);
    EscapeDqReadsBack(text, "");
    assert EscapeDq(text) + "\"" + "" == EscapeDq(text) + "\"";
  }

  lemma {:induction false} EscapeEachAgreesWithDq(text: string)
    requires LiteralUnderAsWritten(text)
    ensures EscapeEach(text) == EscapeDq(text)
  {
    if text != [] {
      assert text[0] !in "\\$`'";
      EscapeEachAgreesWithDq(text[1..]);
    }
  }

  // ------------------------------------------------------------------- testTask

  const BroadcastPrefix: string := "am broadcast -a net.dinglisch.android.tasker.ACTION_TASK -e task_name "

  /** What follows the opening quote of the task name in the broadcast command. */
  function BroadcastArgument(taskName: string): string
  {
    taskName + "'"
  }

  /**
   * The shell's single-quoted word is the task name exactly when the name
   * holds no single quote; a quote in the name ends the word early.
   */
  lemma BroadcastQuotesTaskName(taskName: string)
    ensures ReadSingleQuoted(BroadcastArgument(taskName)) == Some((taskName, "")) <==> '\'' !in taskName
  {
    if '\'' !in taskName {
      SingleQuotedStopsAtQuote(taskName, "");
      assert taskName + "'" + "" == BroadcastArgument(taskName);
    }
  }

  /**
   * The broadcast command of testTask: the task name, not escaped, between
   * single quotes, so the shell passes it on intact only when it has no quote.
   */
  function BroadcastCommand(taskName: string): (cmd: string)
    ensures |cmd| > |BroadcastPrefix| && cmd[..|BroadcastPrefix| + 1] == BroadcastPrefix + "'"
    ensures cmd[|BroadcastPrefix| + 1..] == taskName + "'"
    ensures ReadSingleQuoted(cmd[|BroadcastPrefix| + 1..]) == Some((taskName, "")) <==> '\'' !in taskName
    ensures forall k :: 0 <= k < |taskName| && taskName[k] == '\'' && '\'' !in taskName[..k] ==>
      ReadSingleQuoted(cmd[|BroadcastPrefix| + 1..]) == Some((taskName[..k], taskName[k + 1..] + "'"))
  {
    var cmd := BroadcastPrefix + "'" + taskName + "'";
    assert cmd[|BroadcastPrefix| + 1..] == BroadcastArgument(taskName);
    BroadcastQuotesTaskName(taskName);
    BroadcastSplitsAtFirstQuote(taskName);
    cmd
  }

  /**
   * A name with a quote in it: the shell's word is the name up to its first
   * quote, and the rest of the name is read as further shell text.
   */
  lemma BroadcastSplitsAtFirstQuote(taskName: string)
    ensures forall k :: 0 <= k < |taskName| && taskName[k] == '\'' && '\'' !in taskName[..k] ==>
      ReadSingleQuoted(BroadcastArgument(taskName)) == Some((taskName[..k], taskName[k + 1..] + "'"))
  {
    forall k | 0 <= k < |taskName| && taskName[k] == '\'' && '\'' !in taskName[..k]
      ensures ReadSingleQuoted(BroadcastArgument(taskName)) == Some((taskName[..k], taskName[k + 1..] + "'"))
    {
      assert taskName == taskName[..k] + [taskName[k]] + taskName[k + 1..];
      assert BroadcastArgument(taskName) == taskName[..k] + "'" + (taskName[k + 1..] + "'");
      SingleQuotedStopsAtQuote(taskName[..k], taskName[k + 1..] + "'");
    }
  }

  lemma {:induction false} SingleQuotedStopsAtQuote(w: string, rest: string)
    requires '\'' !in w
    ensures ReadSingleQuoted(w + "'" + rest) == Some((w, rest))
  {
    if w != [] {
      assert (w + "'" + rest)[0] == w[0];
      assert (w + "'" + rest)[1..] == w[1..] + "'" + rest;
      assert [w[0]] + w[1..] == w;
      assert w[0] in w;
      assert forall c :: c in w[1..] ==> c in w;
      SingleQuotedStopsAtQuote(w[1..], rest);
    }
  }

  const SuccessWord: string := "success"

  /**
   * passed = "success" in result.lower(): some seven-character window of the
   * output spells "success" in any letter case.
   */
  function Passed(output: string): (passed: bool)
    ensures passed <==> exists i :: OccursAt(Lower(output), SuccessWord, i)
  {
    ContainsIff(Lower(output), SuccessWord);
    Contains(Lower(output), SuccessWord)
  }

  /** The verdict is case-insensitive: lower-casing the output first changes nothing. */
  lemma PassedCaseInsensitive(output: string)
    ensures Passed(Lower(output)) == Passed(output)
  {
    LowerIdempotent(output);
  }

  /** An output shorter than "success", the empty one included, never passes. */
  lemma PassedNeedsWord(output: string)
    requires |output| < |SuccessWord|
    ensures !Passed(output)
  {
  }

  /** A passing output still passes with anything around it, words like "error" included. */
  lemma PassedInContext(before: string, output: string, after: string)
    requires Passed(output)
    ensures Passed(before + output + after)
  {
    var i :| OccursAt(Lower(output), SuccessWord, i);
    var whole := before + output + after;
    assert Lower(whole)[|before| + i..|before| + i + 7] == Lower(output)[i..i + 7];
    assert OccursAt(Lower(whole), SuccessWord, |before| + i);
  }

  /** Concrete verdicts: "SUCCESS" passes and "error" does not. */
  lemma PassedExamples()
    ensures Passed("Task SUCCESS")
    ensures !Passed("error")
  {
    assert Lower("Task SUCCESS")[5..12] == SuccessWord;
    assert OccursAt(Lower("Task SUCCESS"), SuccessWord, 5);
    PassedNeedsWord("error");
  }
}
