/**
 * MessageHelper.cs: turns a StringTemplate diagnostic into the pieces a
 * PowerShell error record needs: a description and a script extent (line,
 * column and the text of the offending source line).
 */
module MessageHelper {

  import opened Wrappers
  import opened Text
  import opened Host

  /** An ANTLR token: a `CommonToken` with its position data, or a token of any other class. */
  datatype Token =
    | CommonToken(charPositionInLine: int, inputStream: Option<string>, startIndex: int)
    | OtherToken

  /** The fields of an ANTLR `RecognitionException` the helper reads; `input` is the
      text of its input stream, if it has one. */
  datatype Recognition = Recognition(charPositionInLine: int, input: Option<string>, index: int,
                                     line: int, token: Option<Token>)

  /** `TemplateMessage.Cause`: a recognition exception, another exception, or none. */
  datatype Cause = RecognitionCause(re: Recognition) | OtherCause | NoCause

  /** The runtime class of the message and the fields only that class has. */
  datatype MessageKind =
    | LexerMessage(message: Option<string>, templateToken: Option<Token>)
    | CompiletimeMessage(token: Option<Token>)
    | OtherMessage

  datatype TemplateMessage = TemplateMessage(kind: MessageKind, arg: Value, cause: Cause)

  /** PowerShell's `ScriptPosition` (file name, line, column, line text). */
  datatype ScriptPosition = ScriptPosition(file: string, line: int, column: int, lineText: string)

  datatype ScriptExtent = ScriptExtent(start: ScriptPosition, end: ScriptPosition)

  /** What the constructor computes once: `ErrorDescription` and `ErrorExtent`. */
  datatype Diagnostic = Diagnostic(description: string, extent: ScriptExtent)

  /** `msg.Cause as RecognitionException`. */
  function CauseOf(m: TemplateMessage): (r: Option<Recognition>)
    ensures r.Some? <==> m.cause.RecognitionCause?
  {
    if m.cause.RecognitionCause? then Some(m.cause.re) else None
  }

  /** `GetToken`: the compile-time token, else the lexer's template token, else the
      cause's token; the first of these that is present must be a `CommonToken`. */
  function GetToken(m: TemplateMessage): (r: Option<Token>)
    ensures r.Some? ==> r.value.CommonToken?
    ensures m.kind.CompiletimeMessage? && m.kind.token.Some? ==>
      r == (if m.kind.token.value.CommonToken? then m.kind.token else None)
    ensures m.kind.LexerMessage? && m.kind.templateToken.Some? ==>
      r == (if m.kind.templateToken.value.CommonToken? then m.kind.templateToken else None)
    ensures (m.kind.OtherMessage? || (m.kind.CompiletimeMessage? && m.kind.token.None?) ||
             (m.kind.LexerMessage? && m.kind.templateToken.None?)) ==>
      r == (if m.cause.RecognitionCause? && m.cause.re.token.Some? && m.cause.re.token.value.CommonToken?
            then m.cause.re.token else None)
  {
    var compiletime := if m.kind.CompiletimeMessage? then m.kind.token else None;
    var lexer := if m.kind.LexerMessage? then m.kind.templateToken else None;
    var fromCause := if m.cause.RecognitionCause? then m.cause.re.token else None;
    var t := compiletime.OrElse(lexer).OrElse(fromCause);
    if t.Some? && t.value.CommonToken? then t else None
  }

  /** `GetDescription`: the lexer's own message text, else `Arg` when it is a string, else "". */
  function GetDescription(m: TemplateMessage): (r: string)
    ensures m.kind.LexerMessage? && m.kind.message.Some? ==> r == m.kind.message.value
    ensures !(m.kind.LexerMessage? && m.kind.message.Some?) && m.arg.Str? ==> r == m.arg.s
    ensures !(m.kind.LexerMessage? && m.kind.message.Some?) && !m.arg.Str? ==> r == ""
  {
    var lexerText := if m.kind.LexerMessage? then m.kind.message else None;
    lexerText.OrElse(AsString(m.arg)).GetOr("")
  }

  /** The in-line offset: the cause's, else the token's, else 0. */
  function StartOffsetInLine(cause: Option<Recognition>, token: Option<Token>): (r: int)
    requires token.Some? ==> token.value.CommonToken?
    ensures cause.Some? ==> r == cause.value.charPositionInLine
    ensures cause.None? && token.Some? ==> r == token.value.charPositionInLine
    ensures cause.None? && token.None? ==> r == 0
  {
    if cause.Some? then cause.value.charPositionInLine
    else if token.Some? then token.value.charPositionInLine
    else 0
  }

  /** The character offset of the failure: the cause's index, else the token's start index, else 0. */
  function FailureOffset(cause: Option<Recognition>, token: Option<Token>): (r: int)
    requires token.Some? ==> token.value.CommonToken?
    ensures cause.Some? ==> r == cause.value.index
    ensures cause.None? && token.Some? ==> r == token.value.startIndex
    ensures cause.None? && token.None? ==> r == 0
  {
    if cause.Some? then cause.value.index
    else if token.Some? then token.value.startIndex
    else 0
  }

  /** The source text: the cause's input, else the token's input stream, else "". */
  function FullText(cause: Option<Recognition>, token: Option<Token>): (r: string)
    requires token.Some? ==> token.value.CommonToken?
    ensures cause.Some? && cause.value.input.Some? ==> r == cause.value.input.value
    ensures !(cause.Some? && cause.value.input.Some?) && token.Some? && token.value.inputStream.Some? ==>
      r == token.value.inputStream.value
    ensures !(cause.Some? && cause.value.input.Some?) && !(token.Some? && token.value.inputStream.Some?) ==>
      r == ""
  {
    var fromCause := if cause.Some? then cause.value.input else None;
    var fromToken := if token.Some? then token.value.inputStream else None;
    fromCause.OrElse(fromToken).GetOr("")
  }

  /** LINQ `Take(k)`: the first `k` characters, all of them when `k` is too large, none when it is not positive. */
  function Take(s: string, k: int): (r: string)
    ensures r == s[..if k <= 0 then 0 else if k >= |s| then |s| else k]
  {
    if k <= 0 then [] else if k >= |s| then s else s[..k]
  }

  /** `Replace("\r", "")`. */
  function RemoveCR(s: string): (r: string)
    ensures '\r' !in r
    ensures CountChar(r, '\n') == CountChar(s, '\n')
    ensures '\r' !in s ==> r == s
    ensures |r| == |s| - CountChar(s, '\r')
    ensures |r| <= |s|
  {
    if s == [] then []
    else
      var head := if s[0] == '\r' then [] else [s[0]];
      var rest := RemoveCR(s[1..]);
      CountCharAppend(head, rest, '\n');
      assert s == [s[0]] + s[1..];
      CountCharAppend([s[0]], s[1..], '\n');
      CountCharAppend([s[0]], s[1..], '\r');
      head + rest
  }

  /** Removing carriage returns works piece by piece, so every other character is
      kept, in order. */
  lemma {:induction false} RemoveCRAppend(a: string, b: string)
    ensures RemoveCR(a + b) == RemoveCR(a) + RemoveCR(b)
    decreases |a|
  {
    if a == [] {
      assert a + b == b;
    } else {
      var c, a' := a[0], a[1..];
      assert a == [c] + a';
      assert a + b == [c] + (a' + b);
      RemoveCRAppend(a', b);
      RemoveCRCons(c, a');
      RemoveCRCons(c, a' + b);
      Concat(if c == '\r' then [] else [c], RemoveCR(a'), RemoveCR(b));
    }
  }

  /** One character in front: dropped when it is a carriage return, kept otherwise. */
  lemma RemoveCRCons(c: char, s: string)
    ensures RemoveCR([c] + s) == (if c == '\r' then [] else [c]) + RemoveCR(s)
  {
    assert ([c] + s)[0] == c && ([c] + s)[1..] == s;
  }

  /** `Split('\n')`: the pieces between newlines, there being one more piece than newlines. */
  function Split(s: string): (r: seq<string>)
    ensures |r| == CountChar(s, '\n') + 1
    ensures forall i :: 0 <= i < |r| ==> '\n' !in r[i]
  {
    if s == [] then [""]
    else
      var rest := Split(s[1..]);
      if s[0] == '\n' then [""] + rest
      else [[s[0]] + rest[0]] + rest[1..]
  }

  /** The lines joined back with newlines (the inverse of `Split`). */
  function Join(lines: seq<string>): string
    requires |lines| > 0
  {
    if |lines| == 1 then lines[0] else lines[0] + "\n" + Join(lines[1..])
  }

  lemma {:induction false} JoinSplit(s: string)
    ensures Join(Split(s)) == s
  {
    if s != [] {
      JoinSplit(s[1..]);
      if s[0] == '\n' {
        JoinSplitNewline(s);
      } else {
        JoinSplitOther(s);
      }
    }
  }

  lemma {:induction false} JoinSplitNewline(s: string)
    requires s != [] && s[0] == '\n' && Join(Split(s[1..])) == s[1..]
    ensures Join(Split(s)) == s
  {
    var rest := Split(s[1..]);
    assert Split(s) == [""] + rest;
    JoinCons("", rest);
    assert s == "\n" + s[1..];
  }

  lemma {:induction false} JoinSplitOther(s: string)
    requires s != [] && s[0] != '\n' && Join(Split(s[1..])) == s[1..]
    ensures Join(Split(s)) == s
  {
    var rest := Split(s[1..]);
    var first := [s[0]] + rest[0];
    assert Split(s) == [first] + rest[1..];
    if |rest| > 1 {
      JoinPrepend(s[0], rest);
    } else {
      assert Split(s) == [first];
    }
    assert s == [s[0]] + s[1..];
  }

  /** Prepending a character to the first line prepends it to the joined text. */
  lemma {:induction false} JoinPrepend(c: char, lines: seq<string>)
    requires |lines| > 1
    ensures Join([[c] + lines[0]] + lines[1..]) == [c] + Join(lines)
  {
    var tail := lines[1..];
    JoinCons([c] + lines[0], tail);
    assert lines == [lines[0]] + tail;
    JoinCons(lines[0], tail);
    assert ([c] + lines[0]) + "\n" + Join(tail) == [c] + (lines[0] + "\n" + Join(tail));
  }

  lemma {:induction false} JoinCons(line: string, more: seq<string>)
    requires |more| > 0
    ensures Join([line] + more) == line + "\n" + Join(more)
  {
    assert ([line] + more)[1..] == more;
  }

  /** A character absent from the text is absent from every piece of it. */
  lemma {:induction false} SplitKeepsAbsent(s: string, c: char)
    requires c !in s
    ensures forall i :: 0 <= i < |Split(s)| ==> c !in Split(s)[i]
  {
    if s != [] {
      assert c !in s[1..];
      SplitKeepsAbsent(s[1..], c);
    }
  }

  /** The source text's lines, carriage returns removed. */
  function Lines(fullText: string): (r: seq<string>)
    ensures |r| == CountChar(fullText, '\n') + 1
    ensures forall i :: 0 <= i < |r| ==> '\n' !in r[i] && '\r' !in r[i]
  {
    SplitKeepsAbsent(RemoveCR(fullText), '\r');
    Split(RemoveCR(fullText))
  }

  /** The zero-based line of the failure: the newlines before its offset. */
  function LineIndex(fullText: string, offset: int): (n: nat)
    ensures n < |Lines(fullText)|
  {
    var prefix := Take(fullText, offset);
    CountCharPrefix(fullText, |prefix|, '\n');
    CountChar(prefix, '\n')
  }

  /** `lines[lineNumber]` when in range, else "". The index is always in range, so
      this is the line the offset is on. */
  function LineText(fullText: string, offset: int): (r: string)
    ensures r == Lines(fullText)[LineIndex(fullText, offset)]
    ensures '\n' !in r && '\r' !in r
  {
    var lines := Lines(fullText);
    var n := LineIndex(fullText, offset);
    if |lines| > n then lines[n] else ""
  }

  /** `GetScriptExtent`. The reported line is the cause's `Line`, or 0; the computed
      line index only selects the line text. */
  function GetScriptExtent(m: TemplateMessage): (r: ScriptExtent)
    ensures r.start == r.end
    ensures r.start.file == ""
    ensures r.start.line == (if m.cause.RecognitionCause? then m.cause.re.line else 0)
    ensures r.start.column == StartOffsetInLine(CauseOf(m), GetToken(m)) + 1
    ensures r.start.lineText == LineText(FullText(CauseOf(m), GetToken(m)), FailureOffset(CauseOf(m), GetToken(m)))
  {
    var cause := CauseOf(m);
    var token := GetToken(m);
    var fullText := FullText(cause, token);
    var line := LineText(fullText, FailureOffset(cause, token));
    var start := ScriptPosition("", if cause.Some? then cause.value.line else 0,
                                StartOffsetInLine(cause, token) + 1, line);
    ScriptExtent(start, start)
  }

  /** The constructor: `ErrorDescription` and `ErrorExtent`, computed once from the message. */
  function Translate(m: TemplateMessage): (d: Diagnostic)
    // the description: the lexer's text, else a string `Arg`, else ""
    ensures m.kind.LexerMessage? && m.kind.message.Some? ==> d.description == m.kind.message.value
    ensures !(m.kind.LexerMessage? && m.kind.message.Some?) && m.arg.Str? ==> d.description == m.arg.s
    ensures !(m.kind.LexerMessage? && m.kind.message.Some?) && !m.arg.Str? ==> d.description == ""
    // the extent: one position, no file, the cause's line or 0, the in-line offset plus one
    ensures d.extent.start == d.extent.end && d.extent.start.file == ""
    ensures d.extent.start.line == (if m.cause.RecognitionCause? then m.cause.re.line else 0)
    ensures d.extent.start.column == StartOffsetInLine(CauseOf(m), GetToken(m)) + 1
    // the line text: the line of the source text holding the failure offset
    ensures var text := FullText(CauseOf(m), GetToken(m));
      d.extent.start.lineText == Lines(text)[LineIndex(text, FailureOffset(CauseOf(m), GetToken(m)))]
  {
    Diagnostic(GetDescription(m), GetScriptExtent(m))
  }

  /** The line text is always a whole line of the source text: whatever the offset,
      the newline count before it is a valid line index, so the "" fallback is only
      reached for an empty line. */
  lemma {:induction false} LineTextIsSourceLine(fullText: string, offset: int)
    ensures var n := LineIndex(fullText, offset);
      LineText(fullText, offset) == Lines(fullText)[n] &&
      Join(Lines(fullText)) == RemoveCR(fullText)
    ensures '\n' !in LineText(fullText, offset) && '\r' !in LineText(fullText, offset)
  {
    JoinSplit(RemoveCR(fullText));
  }

  /** A failure at the very start of the text, or with no offset at all, is on the first line. */
  lemma FirstLineWhenNoNewlineBefore(fullText: string, offset: int)
    requires offset <= 0 || '\n' !in Take(fullText, offset)
    ensures LineText(fullText, offset) == Lines(fullText)[0]
  {
  }
}
