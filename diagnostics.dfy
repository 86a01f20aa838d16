/**
 * The message builders of `AbstractParser`: `build`, `createHelpMessage`,
 * `createHelpMessageWithScope`, `getWholeScope` and the composition of the
 * `CodeCheckMessage` that `throwException` raises. Each builder is a method
 * with the loops of the Java code, proved to compute a reference function;
 * the properties of the messages are lemmas about those functions.
 *
 * A Java exception raised by `substring` or `List.get` on bad indices is the
 * `Failure` of a `Result`.
 */
module Diagnostics {

  import opened Wrappers
  import opened Strings

  /** `URIParsingContext`: where an error was found and the code lines shown with it. */
  datatype ParsingContext = ParsingContext(source: string, startline: int, endline: int, column: int, code: seq<string>)

  /** `CodeCheckMessage.withHelp` gives `Some` help, `withoutHelp` gives `None`. */
  datatype CodeCheckMessage = CodeCheckMessage(context: ParsingContext, description: string, help: Option<string>)

  const IndexError: string := "index out of range"

  // ---------------------------------------------------------------------------
  // Edit distance

  function Min3(a: nat, b: nat, c: nat): nat
  {
    if a <= b && a <= c then a else if b <= c then b else c
  }

  /** Levenshtein distance (insertions, deletions and substitutions of one
      character, each of cost 1), the value `LevenshteinDistance.apply` returns. */
  function Levenshtein(a: string, b: string): nat
    decreases |a| + |b|
  {
    if |a| == 0 then |b|
    else if |b| == 0 then |a|
    else
      var a', b' := a[..|a| - 1], b[..|b| - 1];
      Min3(Levenshtein(a', b) + 1, Levenshtein(a, b') + 1,
           Levenshtein(a', b') + (if a[|a| - 1] == b[|b| - 1] then 0 else 1))
  }

  /** A word is at distance 0 from itself. */
  lemma {:induction false} LevenshteinSelf(a: string)
    ensures Levenshtein(a, a) == 0
    decreases |a|
  {
    if |a| > 0 {
      LevenshteinSelf(a[..|a| - 1]);
    }
  }

  /** The distance is at least the difference of the lengths. */
  lemma {:induction false} LevenshteinLengthGap(a: string, b: string)
    ensures Levenshtein(a, b) >= |a| - |b| && Levenshtein(a, b) >= |b| - |a|
    decreases |a| + |b|
  {
    if |a| > 0 && |b| > 0 {
      LevenshteinLengthGap(a[..|a| - 1], b);
      LevenshteinLengthGap(a, b[..|b| - 1]);
      LevenshteinLengthGap(a[..|a| - 1], b[..|b| - 1]);
    }
  }

  /** The terms within edit distance 2 of `content`, in the order of `terms`. */
  function Proposals(content: string, terms: seq<string>): seq<string>
  {
    if terms == [] then []
    else
      var last := terms[|terms| - 1];
      Proposals(content, terms[..|terms| - 1]) + (if Levenshtein(content, last) <= 2 then [last] else [])
  }

  /** A term is proposed exactly when it is one of the terms and within distance 2. */
  lemma {:induction false} ProposalsMembers(content: string, terms: seq<string>, t: string)
    ensures t in Proposals(content, terms) <==> t in terms && Levenshtein(content, t) <= 2
    decreases |terms|
  {
    if terms != [] {
      var init := terms[..|terms| - 1];
      ProposalsMembers(content, init, t);
      assert terms == init + [terms[|terms| - 1]];
    }
  }

  /** The term itself, when it is a possible term, is always proposed, and no
      term whose length differs from it by more than 2 ever is. */
  lemma ProposalsNear(content: string, terms: seq<string>, t: string)
    ensures content in terms ==> content in Proposals(content, terms)
    ensures t in Proposals(content, terms) ==> |content| - 2 <= |t| <= |content| + 2
  {
    LevenshteinSelf(content);
    ProposalsMembers(content, terms, content);
    ProposalsMembers(content, terms, t);
    LevenshteinLengthGap(content, t);
  }

  // ---------------------------------------------------------------------------
  // createHelpMessage

  const MissingKeyword: string := "You are missing a keyword. Possible inputs are:\n"
  const NoMatch: string := "The term did not match possible terms. Possible inputs are:\n"
  const Similar: string := "Your term is similar to what would be valid input: "
  const PerhapsMeant: string := ". Perhaps you meant:\n"

  /** Column of the caret: the context column shifted by the width of the
      `startline:` prefix of the code line. */
  function ColumnSpace(context: ParsingContext): int
  {
    context.column + |IntToString(context.startline) + ":"|
  }

  /** The first code line with `content` at column `cs` replaced by `word`. */
  function Corrected(line: string, cs: int, content: string, word: string): string
    requires 0 <= cs && cs + |content| <= |line|
  {
    line[..cs] + word + line[cs + |content|..]
  }

  /** What `createHelpMessage` returns for `content` and the possible terms. */
  function HelpMessage(context: ParsingContext, content: string, terms: seq<string>): Result<string>
  {
    if content == "" then Ok(MissingKeyword + Join(", ", terms))
    else
      var proposed := Proposals(content, terms);
      if proposed == [] then Ok(NoMatch + Join(", ", terms))
      else
        var cs := ColumnSpace(context);
        if |context.code| == 0 || cs < 0 || cs > |context.code[0]| || cs + |content| > |context.code[0]| then
          Failure(IndexError)
        else
          var line := context.code[0];
          Ok(Similar + Join(", ", proposed) + PerhapsMeant + Corrected(line, cs, content, proposed[0])
             + (if EndsWith(line, "\n") then "" else "\n") + Repeat(" ", cs) + "^")
  }

  /** The loop that collects the terms within distance 2 of `content`. */
  method Propose(content: string, terms: seq<string>) returns (proposed: seq<string>)
    ensures proposed == Proposals(content, terms)
  {
    proposed := [];
    for i := 0 to |terms|
      invariant proposed == Proposals(content, terms[..i])
    {
      assert terms[..i + 1][..i] == terms[..i];
      if Levenshtein(content, terms[i]) <= 2 {
        proposed := proposed + [terms[i]];
      }
    }
    assert terms[..|terms|] == terms;
  }

  /** `createHelpMessage`. */
  method CreateHelpMessage(context: ParsingContext, content: string, terms: seq<string>) returns (r: Result<string>)
    ensures r == HelpMessage(context, content, terms)
  {
    if content == "" {
      return Ok(MissingKeyword + Join(", ", terms));
    }
    var proposed := Propose(content, terms);
    if proposed == [] {
      return Ok(NoMatch + Join(", ", terms));
    }
    var columnSpace := context.column + |IntToString(context.startline) + ":"|;
    if |context.code| == 0 || columnSpace < 0 || columnSpace > |context.code[0]| {
      return Failure(IndexError);
    }
    var line := context.code[0];
    if |content| + columnSpace > |line| {
      return Failure(IndexError);
    }
    var help := Similar + Join(", ", proposed) + PerhapsMeant;
    help := help + (line[..columnSpace] + proposed[0] + line[|content| + columnSpace..]);
    ghost var shown := help;
    if !EndsWith(line, "\n") {
      help := help + "\n";
    } else {
      assert help == shown + "";
    }
    var spaces := Spaces(columnSpace);
    help := help + spaces + "^";
    r := Ok(help);
  }

  /** The run of spaces the Java loops append before the caret. */
  method Spaces(n: int) returns (r: string)
    ensures r == Repeat(" ", n)
  {
    r := "";
    if n > 0 {
      for j := 0 to n
        invariant r == Repeat(" ", j)
      {
        r := r + " ";
      }
    }
  }

  /** Without proposals the help lists every possible term; its first lines
      say whether the term was missing or did not match. */
  lemma HelpListsTerms(context: ParsingContext, content: string, terms: seq<string>)
    requires content == "" || Proposals(content, terms) == []
    ensures HelpMessage(context, content, terms)
         == Ok((if content == "" then MissingKeyword else NoMatch) + Join(", ", terms))
  {
  }

  /** With proposals, the help ends with the caret `^` at column `cs`, preceded
      by `cs` spaces, and the first code line shown above has the first proposal
      written at that same column. A newline comes before those spaces unless
      the replaced term ran up to the code line's own final newline, since the
      newline test is made on the original line. */
  lemma HelpCaret(context: ParsingContext, content: string, terms: seq<string>)
    requires content != "" && Proposals(content, terms) != []
    requires HelpMessage(context, content, terms).Ok?
    ensures var r := HelpMessage(context, content, terms).value;
      var cs := ColumnSpace(context);
      var line := context.code[0];
      && 0 <= cs && cs + |content| <= |line|
      && EndsWith(r, Repeat(" ", cs) + "^")
      && (forall k :: |r| - cs - 1 <= k < |r| ==> r[k] != '\n')
      && (cs + |content| < |line| || !EndsWith(line, "\n") ==> r[|r| - cs - 2] == '\n')
      && Corrected(line, cs, content, Proposals(content, terms)[0])[cs..cs + |Proposals(content, terms)[0]|]
         == Proposals(content, terms)[0]
  {
    var cs := ColumnSpace(context);
    var line := context.code[0];
    var p := Proposals(content, terms);
    var corrected := Corrected(line, cs, content, p[0]);
    var shown := Similar + Join(", ", p) + PerhapsMeant + corrected;
    assert HelpMessage(context, content, terms).value
        == shown + (if EndsWith(line, "\n") then "" else "\n") + Repeat(" ", cs) + "^";
    CorrectedShape(line, cs, content, p[0]);
    var kept := cs + |content| < |line|;
    if kept {
      assert shown[|shown| - 1] == corrected[|corrected| - 1];
    }
    CaretAfterShown(shown, line, cs, kept);
  }

  /** The end of a help message with proposals: the shown text, a newline
      unless the code line brought its own, and the caret line. `kept` says
      that the shown text ends like the code line. */
  lemma CaretAfterShown(shown: string, line: string, cs: int, kept: bool)
    requires cs >= 0
    requires kept ==> shown != [] && line != [] && shown[|shown| - 1] == line[|line| - 1]
    ensures var r := shown + (if EndsWith(line, "\n") then "" else "\n") + Repeat(" ", cs) + "^";
      && EndsWith(r, Repeat(" ", cs) + "^")
      && (forall k :: |r| - cs - 1 <= k < |r| ==> r[k] != '\n')
      && (kept || !EndsWith(line, "\n") ==> r[|r| - cs - 2] == '\n')
  {
    var head := shown + (if EndsWith(line, "\n") then "" else "\n");
    CaretLine(head, cs);
    if EndsWith(line, "\n") {
      assert line[|line| - 1] == '\n';
    }
  }

  /** The caret line: `cs` spaces and `^`, after a head whose last character
      comes just before it. */
  lemma CaretLine(head: string, cs: int)
    requires cs >= 0
    ensures var r := head + Repeat(" ", cs) + "^";
      && EndsWith(r, Repeat(" ", cs) + "^")
      && (forall k :: |r| - cs - 1 <= k < |r| ==> r[k] != '\n')
      && (head != [] ==> r[|r| - cs - 2] == head[|head| - 1])
  {
    var tail := Repeat(" ", cs) + "^";
    var r := head + tail;
    assert head + Repeat(" ", cs) + "^" == r;
    assert r[|r| - |tail|..] == tail;
    forall k | |r| - cs - 1 <= k < |r|
      ensures r[k] != '\n'
    {
      if k < |r| - 1 {
        RepeatChar(' ', cs, k - (|r| - cs - 1));
        assert r[k] == tail[k - |head|];
      }
    }
  }

  /** The corrected line holds the proposal at the column, and ends like the
      code line when something of the line follows the replaced term. */
  lemma CorrectedShape(line: string, cs: int, content: string, word: string)
    requires 0 <= cs && cs + |content| <= |line|
    ensures var c := Corrected(line, cs, content, word);
      && c[cs..cs + |word|] == word
      && (cs + |content| < |line| ==> c[|c| - 1] == line[|line| - 1])
  {
  }

  /** `throwException` asks for help with no possible terms, which always gives
      the plain "did not match" text. */
  lemma HelpWithoutTerms(context: ParsingContext, content: string)
    requires content != ""
    ensures HelpMessage(context, content, []) == Ok(NoMatch)
  {
    assert Proposals(content, []) == [];
    assert NoMatch + Join(", ", []) == NoMatch;
  }

  // ---------------------------------------------------------------------------
  // createHelpMessageWithScope

  const TermMissing: string := "A term is missing. Possible inputs are:\n"
  const ScopedSimilar: string := "\nYour term is similar to what would be valid input: "

  /** `text` with a newline added when the code line `line` does not already end
      with one. */
  function Terminated(text: string, line: string): string
  {
    if EndsWith(line, "\n") then text else text + "\n"
  }

  /** How `createHelpMessageWithScope` shows one code line: the line holding the
      `endline:` marker gets the first proposal written at column `ns`. */
  function RenderLine(line: string, marker: string, ns: int, content: string, word: string): (r: Result<string>)
    ensures r.Failure? <==> Contains(line, marker) && (ns < 0 || ns > |line| || ns + |content| > |line|)
    ensures r.Ok? && !Contains(line, marker) ==>
      |line| <= |r.value| && r.value[..|line|] == line && EndsWith(r.value, "\n")
    ensures r.Ok? && Contains(line, marker) ==>
      0 <= ns && ns + |word| <= |r.value| && r.value[..ns] == line[..ns] && r.value[ns..ns + |word|] == word
  {
    if Contains(line, marker) then
      if ns < 0 || ns > |line| || ns + |content| > |line| then Failure(IndexError)
      else
        var corrected := line[..ns] + word + line[ns + |content|..];
        assert corrected[..ns] == line[..ns] && corrected[ns..ns + |word|] == word;
        Ok(Terminated(corrected, line))
    else
      Ok(Terminated(line, line))
  }

  /** A marked line whose replaced term runs up to the line's final newline
      loses that newline: the test for it is made on the original line. */
  lemma MarkedLineLosesNewline()
    ensures RenderLine("1:abc\n", "1:", 2, "abcd", "xy") == Ok("1:xy")
  {
    assert OccursAt("1:abc\n", "1:", 0);
    ContainsIff("1:abc\n", "1:");
    assert "1:abc\n"[..2] + "xy" + "1:abc\n"[6..] == "1:xy";
  }

  /** The code lines shown in order, or the failure of the first one that fails. */
  function RenderLines(lines: seq<string>, marker: string, ns: int, content: string, word: string): Result<string>
  {
    if lines == [] then Ok("")
    else
      match RenderLines(lines[..|lines| - 1], marker, ns, content, word)
      case Failure(e) => Failure(e)
      case Ok(init) =>
        match RenderLine(lines[|lines| - 1], marker, ns, content, word)
        case Failure(e) => Failure(e)
        case Ok(last) => Ok(init + last)
  }

  /** What `createHelpMessageWithScope` returns; `terms` is the keyword list of
      the scope. */
  function HelpMessageWithScope(context: ParsingContext, content: string, terms: seq<string>): Result<string>
  {
    if content == "" then Ok(TermMissing + Suffixed(terms, "\n"))
    else
      var proposed := Proposals(content, terms);
      if proposed == [] then Ok("")
      else
        var ns := context.column + |":" + IntToString(context.startline)|;
        match RenderLines(context.code, IntToString(context.endline) + ":", ns, content, proposed[0])
        case Failure(e) => Failure(e)
        case Ok(body) => Ok(ScopedSimilar + Join(", ", proposed) + PerhapsMeant + body + Repeat(" ", ns) + "^")
  }

  /** `createHelpMessageWithScope`. */
  method CreateHelpMessageWithScope(context: ParsingContext, content: string, terms: seq<string>)
    returns (r: Result<string>)
    ensures r == HelpMessageWithScope(context, content, terms)
  {
    if content == "" {
      var listed := ListTerms(terms);
      return Ok(TermMissing + listed);
    }
    var proposed := Propose(content, terms);
    if proposed == [] {
      return Ok("");
    }
    var numberSpaces := context.column + |":" + IntToString(context.startline)|;
    var marker := IntToString(context.endline) + ":";
    var body := ShowCode(context.code, marker, numberSpaces, content, proposed[0]);
    ghost var reference := HelpMessageWithScope(context, content, terms);
    assert body.Failure? ==> reference == Failure(body.error);
    if body.Failure? {
      return Failure(body.error);
    }
    var spaces := Spaces(numberSpaces);
    r := Ok(ScopedSimilar + Join(", ", proposed) + PerhapsMeant + body.value + spaces + "^");
    assert r == reference;
  }

  /** The loop that lists every term on its own line. */
  method ListTerms(terms: seq<string>) returns (r: string)
    ensures r == Suffixed(terms, "\n")
  {
    r := "";
    for i := 0 to |terms|
      invariant r == Suffixed(terms[..i], "\n")
    {
      assert terms[..i + 1][..i] == terms[..i];
      r := r + terms[i] + "\n";
    }
    assert terms[..|terms|] == terms;
  }

  /** The loop over the code lines of the context. */
  method ShowCode(code: seq<string>, marker: string, ns: int, content: string, word: string) returns (r: Result<string>)
    ensures r == RenderLines(code, marker, ns, content, word)
  {
    var help := "";
    for i := 0 to |code|
      invariant RenderLines(code[..i], marker, ns, content, word) == Ok(help)
    {
      assert code[..i + 1][..i] == code[..i];
      var line := code[i];
      var shown := line;
      if Contains(line, marker) {
        if ns < 0 || ns > |line| || ns + |content| > |line| {
          RenderLinesFailure(code, i + 1, marker, ns, content, word);
          return Failure(IndexError);
        }
        shown := line[..ns] + word + line[ns + |content|..];
      }
      if !EndsWith(line, "\n") {
        shown := shown + "\n";
      }
      help := help + shown;
    }
    assert code[..|code|] == code;
    r := Ok(help);
  }

  /** Once a prefix of the lines fails, so do all the lines. */
  lemma {:induction false} RenderLinesFailure(lines: seq<string>, n: nat, marker: string, ns: int, content: string, word: string)
    requires n <= |lines|
    requires RenderLines(lines[..n], marker, ns, content, word).Failure?
    ensures RenderLines(lines, marker, ns, content, word) == Failure(IndexError)
    decreases |lines| - n
  {
    if n < |lines| {
      assert lines[..n + 1][..n] == lines[..n];
      RenderLinesFailure(lines, n + 1, marker, ns, content, word);
    } else {
      assert lines[..n] == lines;
      RenderLinesError(lines, marker, ns, content, word);
    }
  }

  /** The only failure of the rendering is the index error. */
  lemma {:induction false} RenderLinesError(lines: seq<string>, marker: string, ns: int, content: string, word: string)
    ensures RenderLines(lines, marker, ns, content, word).Failure? ==> RenderLines(lines, marker, ns, content, word) == Failure(IndexError)
    decreases |lines|
  {
    if lines != [] {
      RenderLinesError(lines[..|lines| - 1], marker, ns, content, word);
    }
  }

  /** With an empty content the help lists every term on its own line; with a
      content no term is close to, there is no help text at all. */
  lemma HelpWithScopeCases(context: ParsingContext, content: string, terms: seq<string>)
    ensures content == "" ==> HelpMessageWithScope(context, content, terms) == Ok(TermMissing + Suffixed(terms, "\n"))
    ensures content != "" && Proposals(content, terms) == [] ==> HelpMessageWithScope(context, content, terms) == Ok("")
  {
  }

  // ---------------------------------------------------------------------------
  // getWholeScope

  /** The lines `from` to `to` of `allLines`, each prefixed by its number and `:`. */
  function WholeScope(allLines: seq<string>, from: int, to: int): Result<seq<string>>
    decreases if from <= to then to - from + 1 else 0
  {
    if from > to then Ok([])
    else if from < 0 || from >= |allLines| then Failure(IndexError)
    else
      match WholeScope(allLines, from + 1, to)
      case Failure(e) => Failure(e)
      case Ok(rest) => Ok([IntToString(from) + ":" + allLines[from]] + rest)
  }

  /** `getWholeScope`: `allLines` is what the scanner's `getAllCodeLines` gives,
      `from` and `to` its `startline` and `endline`. */
  method GetWholeScope(allLines: seq<string>, from: int, to: int) returns (r: Result<seq<string>>)
    ensures r == WholeScope(allLines, from, to)
  {
    var lines: seq<string> := [];
    var i := from;
    PrependNothing(WholeScope(allLines, from, to));
    while i <= to
      invariant from <= i <= to + 1 || (from > to && i == from)
      invariant WholeScope(allLines, from, to) == Prepend(lines, WholeScope(allLines, i, to))
      decreases if i <= to then to - i + 1 else 0
    {
      if i < 0 || i >= |allLines| {
        return Failure(IndexError);
      }
      var line := IntToString(i) + ":" + allLines[i];
      PrependSnoc(lines, line, WholeScope(allLines, i + 1, to));
      lines := lines + [line];
      i := i + 1;
    }
    assert lines + [] == lines;
    r := Ok(lines);
  }

  /** `done` in front of a result list; a failure stays a failure. */
  function Prepend(done: seq<string>, rest: Result<seq<string>>): Result<seq<string>>
  {
    match rest
    case Failure(e) => Failure(e)
    case Ok(xs) => Ok(done + xs)
  }

  lemma PrependNothing(rest: Result<seq<string>>)
    ensures Prepend([], rest) == rest
  {
    if rest.Ok? {
      assert [] + rest.value == rest.value;
    }
  }

  lemma PrependSnoc(done: seq<string>, x: string, rest: Result<seq<string>>)
    ensures Prepend(done, Prepend([x], rest)) == Prepend(done + [x], rest)
  {
    if rest.Ok? {
      assert done + ([x] + rest.value) == (done + [x]) + rest.value;
    }
  }

  /** The text of a line up to its first `c`. */
  function UpTo(s: string, c: char): string
  {
    if s == [] || s[0] == c then [] else [s[0]] + UpTo(s[1..], c)
  }

  lemma {:induction false} UpToPrefix(prefix: string, c: char, rest: string)
    requires forall k :: 0 <= k < |prefix| ==> prefix[k] != c
    ensures UpTo(prefix + [c] + rest, c) == prefix
    decreases |prefix|
  {
    if prefix != [] {
      assert (prefix + [c] + rest)[1..] == prefix[1..] + [c] + rest;
      UpToPrefix(prefix[1..], c, rest);
    }
  }

  /** The scope holds one line per line number from `from` to `to`, and fails
      exactly when one of them is not a line of `allLines`. Each line is the code
      line behind its number and `:`, so the text before its first `:` is the
      decimal rendering of the number, which reads back
      (`Strings.IntToStringRoundTrip`). */
  lemma {:induction false} WholeScopeLines(allLines: seq<string>, from: int, to: int)
    ensures WholeScope(allLines, from, to).Failure? <==> from <= to && (from < 0 || to >= |allLines|)
    ensures WholeScope(allLines, from, to).Ok? ==>
      var r := WholeScope(allLines, from, to).value;
      && |r| == (if from <= to then to - from + 1 else 0)
      && (forall k :: 0 <= k < |r| ==>
           && r[k] == IntToString(from + k) + ":" + allLines[from + k]
           && UpTo(r[k], ':') == IntToString(from + k))
    decreases if from <= to then to - from + 1 else 0
  {
    if from <= to && 0 <= from < |allLines| {
      WholeScopeLines(allLines, from + 1, to);
      var w := WholeScope(allLines, from, to);
      if w.Ok? {
        var r := w.value;
        var rest := WholeScope(allLines, from + 1, to).value;
        assert r == [IntToString(from) + ":" + allLines[from]] + rest;
        forall k | 0 <= k < |r|
          ensures r[k] == IntToString(from + k) + ":" + allLines[from + k]
          ensures UpTo(r[k], ':') == IntToString(from + k)
        {
          var n := IntToString(from + k);
          if k > 0 {
            assert r[k] == rest[k - 1];
          }
          assert forall i :: 0 <= i < |n| ==> n[i] != ':';
          assert n + ":" + allLines[from + k] == n + [':'] + allLines[from + k];
          UpToPrefix(n, ':', allLines[from + k]);
        }
      }
    }
  }

  // ---------------------------------------------------------------------------
  // build and throwException

  /** `build`: the arguments appended in order. */
  method Build(args: seq<string>) returns (r: string)
    ensures r == Concat(args)
    ensures |r| == TotalLength(args)
  {
    r := "";
    for i := 0 to |args|
      invariant r == Concat(args[..i])
    {
      assert args[..i + 1][..i] == args[..i];
      r := r + args[i];
    }
    assert args[..|args|] == args;
    ConcatLength(args);
  }

  /** The `CodeCheckMessage` that `throwException(mesg)` raises when the current
      token's content is `content` and the error context is `context`. */
  function ExceptionMessage(context: ParsingContext, content: string, mesg: string): (m: CodeCheckMessage)
    ensures m.help.Some? <==> content != ""
    ensures content != "" ==> m.context == context && EndsWith(m.description, content)
    ensures content != "" && mesg != "" ==> |mesg| <= |m.description| && m.description[..|mesg|] == mesg
    ensures content == "" ==> m.context == context.(column := context.column - 1) && m.description == mesg
    ensures content != "" && mesg != "" ==> m.description == mesg + ": " + content
    ensures content != "" && mesg == "" ==> m.description == ". Found term: " + content
  {
    if content != "" then
      var description := if mesg != "" then mesg + ": " + content else mesg + ". Found term: " + content;
      var help := HelpMessage(context, content, []);
      CodeCheckMessage(context, description, Some(if help.Ok? then help.value else ""))
    else
      CodeCheckMessage(context.(column := context.column - 1), mesg, None)
  }

  /** The help attached by `throwException` is always the "did not match" text. */
  lemma ExceptionHelp(context: ParsingContext, content: string, mesg: string)
    requires content != ""
    ensures ExceptionMessage(context, content, mesg).help == Some(NoMatch)
  {
    HelpWithoutTerms(context, content);
  }

  const FoundTerm: string := ". Found term: "
  const EmptyServiceTrigger: string := "unexpected term found inside service"
  const EmptyService: string := " is empty and does not have an ending }"

  /** The description of the exception that `throwExceptionWithScope` raises:
      the message with the offending term appended, except for a service
      reported empty, whose description names the service instead. */
  function ScopedDescription(mesg: string, content: string, scopeName: string, scope: string): (d: string)
    ensures content != "" ==> d == mesg + FoundTerm + content
    ensures content == "" && !(scope == "service" && Contains(mesg, EmptyServiceTrigger)) ==> d == mesg
    ensures content == "" && scope == "service" && Contains(mesg, EmptyServiceTrigger)
      ==> d == "Service " + scopeName + EmptyService
  {
    var m := if content != "" then mesg + FoundTerm + content else mesg;
    if scope == "service" && Contains(m, EmptyServiceTrigger) && content == "" then
      "Service " + scopeName + EmptyService
    else m
  }
}
