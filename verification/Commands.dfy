/** SCPI commands and their validation (execution.py). */
module Commands {

  import opened Wrappers
  import opened Errors

  datatype Command = Write(text: string) | Query(text: string)

  /** str.isspace for one character. */
  predicate IsSpace(c: char) {
    || '\t' <= c <= '\r'
    || '\U{1c}' <= c <= ' '
    || c in ['\U{85}', '\U{a0}', '\U{1680}', '\U{2028}', '\U{2029}', '\U{202f}', '\U{205f}', '\U{3000}']
    || '\U{2000}' <= c <= '\U{200a}'
  }

  predicate IsAscii(text: string) {
    forall i :: 0 <= i < |text| ==> text[i] < '\U{80}'
  }

  predicate IsBlank(text: string) {
    forall i :: 0 <= i < |text| ==> IsSpace(text[i])
  }

  /** What the constructors of Write and Query raise for a text, if anything. */
  function TextError(text: string): Option<Error> {
    if IsBlank(text) then
      Some(ValidationError("SCPI command must be a non-empty string"))
    else if '\n' in text || '\r' in text then
      Some(ValidationError("SCPI command must not contain a line terminator"))
    else if !IsAscii(text) then
      Some(ValidationError("SCPI command must contain ASCII characters only"))
    else
      None
  }

  /** A text is taken if and only if it has a character that is no space, no line terminator, and nothing beyond
      ASCII; what it is refused for is the first of these it lacks, in this order. */
  lemma AcceptedText(text: string)
    ensures TextError(text).None? <==>
      && (exists i :: 0 <= i < |text| && !IsSpace(text[i]))
      && (forall i :: 0 <= i < |text| ==> text[i] != '\n' && text[i] != '\r' && text[i] as int < 128)
    ensures TextError(text).Some? ==>
      TextError(text).value == South("SPD3000ValidationError", [TextArg(
        if forall i :: 0 <= i < |text| ==> IsSpace(text[i]) then "SCPI command must be a non-empty string"
        else if exists i :: 0 <= i < |text| && (text[i] == '\n' || text[i] == '\r') then
          "SCPI command must not contain a line terminator"
        else "SCPI command must contain ASCII characters only")], UNPLACED)
  {
  }

  /** The spaces within ASCII are the blank, the controls from tab to carriage return and the four separators. */
  lemma AsciiSpaces(c: char)
    requires c as int < 128
    ensures IsSpace(c) <==> c as int in {9, 10, 11, 12, 13, 28, 29, 30, 31, 32}
  {
  }

  /** The first constructor error among the commands, in order. */
  function FirstTextError(commands: seq<Command>): Option<Error> {
    if commands == [] then None
    else
      var earlier := FirstTextError(commands[..|commands| - 1]);
      if earlier.Some? then earlier else TextError(commands[|commands| - 1].text)
  }

  predicate AllValid(commands: seq<Command>) {
    forall i :: 0 <= i < |commands| ==> TextError(commands[i].text).None?
  }

  lemma {:induction false} ValidMeansNoTextError(commands: seq<Command>)
    ensures AllValid(commands) <==> FirstTextError(commands).None?
  {
    if commands != [] {
      var n := |commands| - 1;
      ValidMeansNoTextError(commands[..n]);
      assert forall i :: 0 <= i < n ==> commands[..n][i] == commands[i];
    }
  }

  lemma {:induction false} FirstTextErrorOfAppend(a: seq<Command>, b: seq<Command>)
    ensures FirstTextError(a + b) == if FirstTextError(a).Some? then FirstTextError(a) else FirstTextError(b)
  {
    if b == [] {
      assert a + b == a;
    } else {
      assert (a + b)[..|a + b| - 1] == a + b[..|b| - 1];
      FirstTextErrorOfAppend(a, b[..|b| - 1]);
    }
  }

}
