// Shell quoting, read back by the token rules of the POSIX shell (POSIX.1-2017, Shell
// Command Language, sections 2.2.1 to 2.2.3 and 2.6.7).
module Quoting {
  import opened Wrappers

  // ---------------------------------------------------------------- the two quoting forms

  function ReplaceQuotes(s: string, with: string): string {
    if s == "" then ""
    else (if s[0] == '\'' then with else [s[0]]) + ReplaceQuotes(s[1..], with)
  }

  // Leaves the quotes and escapes each embedded quote with a backslash.
  function ShellEscape(value: string): string {
    "'" + ReplaceQuotes(value, "'\\''") + "'"
  }

  // Leaves the quotes and puts each embedded quote between double quotes.
  function ShellQuote(value: string): string {
    "'" + ReplaceQuotes(value, "'\"'\"'") + "'"
  }

  // ---------------------------------------------------------------- reading one word

  // The literal value of a word after quote removal, and what follows it. A word that
  // holds a NUL, or an unquoted character that asks for an expansion, has no literal value.
  datatype Lexed = Word(value: string, rest: string) | Unfinished | NotLiteral

  function Prepend(c: char, l: Lexed): Lexed {
    match l
    case Word(value, rest) => Word([c] + value, rest)
    case _ => l
  }

  predicate EndsWord(c: char) {
    c in " \t\n|&;<>()"
  }

  // Whether an unquoted character asks for an expansion or begins a comment. Inside a word
  // that has begun, `~` and `#` stand for themselves.
  predicate Expands(c: char, begun: bool) {
    c in "$`*?[" || (!begun && c in "~#")
  }

  function LexWord(s: string, begun: bool): Lexed
    decreases |s|
  {
    if s == "" || EndsWord(s[0]) then Word("", s)
    else if s[0] == '\'' then LexSingle(s[1..])
    else if s[0] == '"' then LexDouble(s[1..])
    else if s[0] == '\\' then
      if |s| == 1 then Unfinished
      else if s[1] == '\n' then LexWord(s[2..], begun)
      else if s[1] == '\0' then NotLiteral
      else Prepend(s[1], LexWord(s[2..], true))
    else if s[0] == '\0' || Expands(s[0], begun) then NotLiteral
    else Prepend(s[0], LexWord(s[1..], true))
  }

  function LexSingle(s: string): Lexed
    decreases |s|
  {
    if s == "" then Unfinished
    else if s[0] == '\'' then LexWord(s[1..], true)
    else if s[0] == '\0' then NotLiteral
    else Prepend(s[0], LexSingle(s[1..]))
  }

  function LexDouble(s: string): Lexed
    decreases |s|
  {
    if s == "" then Unfinished
    else if s[0] == '"' then LexWord(s[1..], true)
    else if s[0] in "\0$`" then NotLiteral
    else if s[0] == '\\' && |s| > 1 && s[1] in "$`\"\\" then Prepend(s[1], LexDouble(s[2..]))
    else if s[0] == '\\' && |s| > 1 && s[1] == '\n' then LexDouble(s[2..])
    else Prepend(s[0], LexDouble(s[1..]))
  }

  // ---------------------------------------------------------------- quoting round trips

  function PrependAll(s: string, l: Lexed): Lexed {
    match l
    case Word(value, rest) => Word(s + value, rest)
    case _ => l
  }

  // What a quoted value contributes to the word it stands in, given the lexing of what
  // follows it.
  function Contributes(value: string, l: Lexed): Lexed {
    if '\0' in value then NotLiteral else PrependAll(value, l)
  }

  lemma ContributesOneMore(c: char, value: string, l: Lexed)
    requires c != '\0'
    ensures Contributes([c] + value, l) == Prepend(c, Contributes(value, l))
  {
    if l.Word? {
      assert [c] + value + l.value == [c] + (value + l.value);
    }
  }

  // The escaped form of an embedded quote: close, escape, reopen.
  lemma EscapedQuoteLexes(rest: string)
    ensures LexSingle("'\\''" + rest) == Prepend('\'', LexSingle(rest))
  {
    var reopened := "'" + rest;
    var escaped := "\\'" + reopened;
    assert "'\\''" + rest == "'" + escaped;
    assert ("'" + escaped)[1..] == escaped;
    assert escaped[2..] == reopened;
    assert reopened[1..] == rest;
    assert LexWord(reopened, true) == LexSingle(rest);
    assert LexWord(escaped, true) == Prepend('\'', LexWord(reopened, true));
  }

  // The double-quoted form of an embedded quote: close, quote the quote, reopen.
  lemma DoubleQuotedQuoteLexes(rest: string)
    ensures LexSingle("'\"'\"'" + rest) == Prepend('\'', LexSingle(rest))
  {
    var reopened := "'" + rest;
    var closing := "\"" + reopened;
    var inner := "'" + closing;
    var opening := "\"" + inner;
    assert "'\"'\"'" + rest == "'" + opening;
    assert ("'" + opening)[1..] == opening;
    assert opening[1..] == inner;
    assert inner[1..] == closing;
    assert closing[1..] == reopened;
    assert reopened[1..] == rest;
    assert LexWord(reopened, true) == LexSingle(rest);
    assert LexDouble(closing) == LexWord(reopened, true);
    assert LexWord(opening, true) == LexDouble(inner);
    assert LexDouble(inner) == Prepend('\'', LexDouble(closing));
  }

  lemma PlainCharLexes(c: char, rest: string)
    requires c != '\''
    ensures LexSingle([c] + rest) == if c == '\0' then NotLiteral else Prepend(c, LexSingle(rest))
  {
    assert ([c] + rest)[1..] == rest;
  }

  // The body of a quoted value, whichever of the two ways embedded quotes are written.
  lemma {:induction false} BodyLexes(s: string, with: string, tail: string)
    requires with == "'\\''" || with == "'\"'\"'"
    ensures LexSingle(ReplaceQuotes(s, with) + "'" + tail) == Contributes(s, LexWord(tail, true))
  {
    if s == "" {
      var text := "'" + tail;
      assert ReplaceQuotes(s, with) + "'" + tail == text;
      assert text[1..] == tail;
      assert LexWord(tail, true).Word? ==> "" + LexWord(tail, true).value == LexWord(tail, true).value;
    } else {
      BodyLexes(s[1..], with, tail);
      var rest := ReplaceQuotes(s[1..], with) + "'" + tail;
      assert s == [s[0]] + s[1..];
      if s[0] == '\'' {
        assert ReplaceQuotes(s, with) + "'" + tail == with + rest;
        if with == "'\\''" {
          EscapedQuoteLexes(rest);
        } else {
          DoubleQuotedQuoteLexes(rest);
        }
      } else {
        assert ReplaceQuotes(s, with) + "'" + tail == [s[0]] + rest;
        PlainCharLexes(s[0], rest);
      }
      if s[0] != '\0' {
        ContributesOneMore(s[0], s[1..], LexWord(tail, true));
      }
    }
  }

  lemma QuotedFormLexes(value: string, with: string, tail: string, begun: bool)
    requires with == "'\\''" || with == "'\"'\"'"
    ensures LexWord("'" + ReplaceQuotes(value, with) + "'" + tail, begun) == Contributes(value, LexWord(tail, true))
  {
    BodyLexes(value, with, tail);
    var body := ReplaceQuotes(value, with) + "'" + tail;
    var text := "'" + body;
    assert "'" + ReplaceQuotes(value, with) + "'" + tail == text;
    assert text[1..] == body;
  }

  // Both forms, placed before anything, read as the value itself followed by whatever
  // that continues the word with.
  lemma QuotingReadsBack(value: string, tail: string, begun: bool)
    ensures LexWord(ShellEscape(value) + tail, begun) == Contributes(value, LexWord(tail, true))
    ensures LexWord(ShellQuote(value) + tail, begun) == Contributes(value, LexWord(tail, true))
  {
    QuotedFormLexes(value, "'\\''", tail, begun);
    QuotedFormLexes(value, "'\"'\"'", tail, begun);
  }

  // Alone, or before anything that ends a word, a quoted value is one word, and that word
  // is the value exactly when the value holds no NUL.
  lemma QuotedValueIsOneWord(value: string, tail: string)
    requires tail == "" || EndsWord(tail[0])
    ensures LexWord(ShellEscape(value) + tail, false) == Word(value, tail) <==> '\0' !in value
    ensures LexWord(ShellQuote(value) + tail, false) == Word(value, tail) <==> '\0' !in value
  {
    QuotingReadsBack(value, tail, false);
    assert value + "" == value;
  }

  // ---------------------------------------------------------------- the environment block

  type Binding = (string, string)

  function Exports(values: seq<Binding>): string {
    if values == [] then ""
    else "export " + values[0].0 + "=" + ShellEscape(values[0].1) + "\n" + Exports(values[1..])
  }

  // The body as the block carries it: with its final newline, added if missing.
  function Terminated(body: string): string {
    if body != "" && body[|body| - 1] == '\n' then body else body + "\n"
  }

  method RenderEnvBlock(body: string, values: seq<Binding>) returns (result: string)
    ensures result == EnvBlock(body, values)
  {
    result := "(\n";
    for i := 0 to |values|
      invariant result + Exports(values[i..]) == "(\n" + Exports(values)
    {
      var line := "export " + values[i].0 + "=" + ShellEscape(values[i].1) + "\n";
      assert Exports(values[i..]) == line + Exports(values[i..][1..]);
      assert values[i..][1..] == values[i + 1..];
      assert result + (line + Exports(values[i + 1..])) == (result + line) + Exports(values[i + 1..]);
      result := result + line;
    }
    assert result == "(\n" + Exports(values);
    result := result + body;
    if body == "" || body[|body| - 1] != '\n' {
      result := result + "\n";
    }
    result := result + ")";
    assert result == EnvBlock(body, values);
  }

  function EnvBlock(body: string, values: seq<Binding>): string {
    "(\n" + Exports(values) + Terminated(body) + ")"
  }

  // A character that stands for itself outside quotes.
  predicate IsLiteral(c: char, begun: bool) {
    !EndsWord(c) && !Expands(c, begun) && c !in "'\"\\\0"
  }

  // A parameter name the reader gets back: characters that stand for themselves, and no `=`.
  predicate IsPlainName(s: string, begun: bool := false) {
    s == "" || (IsLiteral(s[0], begun) && s[0] != '=' && IsPlainName(s[1..], true))
  }

  // Splits a word at its first `=`.
  function SplitAssignment(word: string): Option<Binding> {
    if word == "" then None
    else if word[0] == '=' then Some(("", word[1..]))
    else
      match SplitAssignment(word[1..])
      case None => None
      case Some((name, value)) => Some(([word[0]] + name, value))
  }

  // A reader of the block that knows how many parameters it declares: each export line is
  // read as a shell word, and what is left up to the closing parenthesis is the body.
  function ReadExports(text: string, n: nat): Option<(seq<Binding>, string)>
    decreases n
  {
    if n == 0 then Some(([], text))
    else if |text| < 7 || text[..7] != "export " then None
    else
      match LexWord(text[7..], false)
      case Word(word, rest) =>
        if rest == "" || rest[0] != '\n' then None
        else (
          match SplitAssignment(word)
          case None => None
          case Some(binding) =>
            match ReadExports(rest[1..], n - 1)
            case None => None
            case Some((more, body)) => Some(([binding] + more, body))
        )
      case _ => None
  }

  // Drops the closing parenthesis from what follows the exports.
  function Closed(exports: Option<(seq<Binding>, string)>): Option<(seq<Binding>, string)> {
    match exports
    case None => None
    case Some((values, rest)) =>
      if rest == "" || rest[|rest| - 1] != ')' then None
      else Some((values, rest[..|rest| - 1]))
  }

  function ReadEnvBlock(text: string, n: nat): Option<(seq<Binding>, string)> {
    if |text| < 2 || text[..2] != "(\n" then None
    else Closed(ReadExports(text[2..], n))
  }

  lemma LiteralCharLexes(c: char, rest: string, begun: bool)
    requires IsLiteral(c, begun)
    ensures LexWord([c] + rest, begun) == Prepend(c, LexWord(rest, true))
  {
    assert ([c] + rest)[1..] == rest;
  }

  lemma PrependAllOneMore(c: char, s: string, l: Lexed)
    ensures PrependAll([c] + s, l) == Prepend(c, PrependAll(s, l))
  {
    if l.Word? {
      assert [c] + s + l.value == [c] + (s + l.value);
    }
  }

  lemma {:induction false} NameLexes(name: string, tail: string, begun: bool)
    requires IsPlainName(name, begun)
    ensures LexWord(name + "=" + tail, begun) == PrependAll(name + "=", LexWord(tail, true))
  {
    if name == "" {
      assert name + "=" + tail == ['='] + tail;
      assert name + "=" == ['='] + "";
      LiteralCharLexes('=', tail, begun);
      PrependAllOneMore('=', "", LexWord(tail, true));
      assert LexWord(tail, true).Word? ==> "" + LexWord(tail, true).value == LexWord(tail, true).value;
    } else {
      var more := name[1..] + "=";
      NameLexes(name[1..], tail, true);
      assert name + "=" + tail == [name[0]] + (more + tail);
      assert name + "=" == [name[0]] + more;
      LiteralCharLexes(name[0], more + tail, begun);
      PrependAllOneMore(name[0], more, LexWord(tail, true));
    }
  }

  lemma {:induction false} AssignmentSplits(name: string, value: string)
    requires '=' !in name
    ensures SplitAssignment(name + "=" + value) == Some((name, value))
  {
    var word := name + "=" + value;
    if name == "" {
      assert word == "=" + value;
      assert word[1..] == value;
    } else {
      AssignmentSplits(name[1..], value);
      assert word[1..] == name[1..] + "=" + value;
      assert word[0] == name[0] != '=';
      assert name == [name[0]] + name[1..];
    }
  }

  lemma {:induction false} PlainHasNoEquals(name: string, begun: bool)
    requires IsPlainName(name, begun)
    ensures '=' !in name
  {
    if name != "" {
      PlainHasNoEquals(name[1..], true);
    }
  }

  predicate NamesArePlain(values: seq<Binding>) {
    values == [] || (IsPlainName(values[0].0) && NamesArePlain(values[1..]))
  }

  predicate NulFree(values: seq<Binding>) {
    values == [] || ('\0' !in values[0].1 && NulFree(values[1..]))
  }

  // One export line, read back.
  lemma ExportLineReadsBack(name: string, value: string, tail: string)
    requires IsPlainName(name)
    ensures LexWord(name + "=" + ShellEscape(value) + "\n" + tail, false)
            == if '\0' in value then NotLiteral else Word(name + "=" + value, "\n" + tail)
  {
    var after := "\n" + tail;
    NameLexes(name, ShellEscape(value) + after, false);
    assert name + "=" + ShellEscape(value) + "\n" + tail == name + "=" + (ShellEscape(value) + after);
    QuotingReadsBack(value, after, true);
    assert value + "" == value;
  }

  // Reading one more export line in front of text that already reads back.
  lemma ExportLineThenRest(name: string, value: string, next: string, n: nat)
    requires IsPlainName(name)
    ensures ReadExports("export " + (name + "=" + ShellEscape(value) + "\n" + next), n + 1)
            == match ReadExports(next, n)
               case None => None
               case Some((more, rest)) => if '\0' in value then None else Some(([(name, value)] + more, rest))
  {
    var line := name + "=" + ShellEscape(value) + "\n" + next;
    var text := "export " + line;
    assert text[..7] == "export " && text[7..] == line;
    ExportLineReadsBack(name, value, next);
    PlainHasNoEquals(name, false);
    AssignmentSplits(name, value);
    assert ("\n" + next)[1..] == next;
  }

  // ---------------------------------------------------------------- names that are not plain

  // How a scan that has yet to read `name`, then an `=`, then anything, splits what it reads.
  predicate SplitsAtMost(l: Lexed, name: string) {
    l.Word? && SplitAssignment(l.value).Some? ==> |SplitAssignment(l.value).value.0| <= |name|
  }

  lemma PrependSplits(c: char, l: Lexed, name: string)
    requires SplitsAtMost(l, name)
    ensures Prepend(c, l).Word? && SplitAssignment(Prepend(c, l).value).Some?
            ==> |SplitAssignment(Prepend(c, l).value).value.0| <= |name| + 1
  {
    if l.Word? {
      assert ([c] + l.value)[1..] == l.value;
    }
  }

  lemma EqualsFirst(l: Lexed)
    ensures SplitsAtMost(Prepend('=', l), "")
  {
  }

  // Inside quotes, too, the `=` after a name without one is the first `=` of what is read.
  lemma {:induction false} SingleSplits(name: string, tail: string)
    requires '=' !in name
    ensures SplitsAtMost(LexSingle(name + "=" + tail), name)
    decreases |name|
  {
    var s := name + "=" + tail;
    if name == "" {
      assert s[1..] == tail;
      EqualsFirst(LexSingle(tail));
    } else {
      assert s[1..] == name[1..] + "=" + tail;
      if s[0] == '\'' {
        WordSplits(name[1..], tail, true);
      } else {
        SingleSplits(name[1..], tail);
        PrependSplits(s[0], LexSingle(s[1..]), name[1..]);
      }
    }
  }

  lemma {:induction false} DoubleSplits(name: string, tail: string)
    requires '=' !in name
    ensures SplitsAtMost(LexDouble(name + "=" + tail), name)
    decreases |name|
  {
    var s := name + "=" + tail;
    if name == "" {
      assert s[1..] == tail;
      EqualsFirst(LexDouble(tail));
    } else {
      assert s[1..] == name[1..] + "=" + tail;
      if |name| > 1 {
        assert s[1] == name[1] && s[2..] == name[2..] + "=" + tail;
        DoubleSplits(name[2..], tail);
        PrependSplits(s[1], LexDouble(s[2..]), name[2..]);
      }
      WordSplits(name[1..], tail, true);
      DoubleSplits(name[1..], tail);
      PrependSplits(s[0], LexDouble(s[1..]), name[1..]);
    }
  }

  // Outside quotes nothing is lost before it only if the name is plain.
  lemma {:induction false} WordSplits(name: string, tail: string, begun: bool)
    requires '=' !in name
    ensures var l := LexWord(name + "=" + tail, begun);
            && SplitsAtMost(l, name)
            && (l.Word? && SplitAssignment(l.value).Some? && |SplitAssignment(l.value).value.0| == |name|
                ==> IsPlainName(name, begun))
    decreases |name|
  {
    var s := name + "=" + tail;
    if name == "" {
      assert s[1..] == tail;
      EqualsFirst(LexWord(tail, true));
    } else {
      assert s[1..] == name[1..] + "=" + tail;
      if IsLiteral(name[0], begun) {
        WordSplits(name[1..], tail, true);
        PrependSplits(s[0], LexWord(s[1..], true), name[1..]);
        if LexWord(s[1..], true).Word? {
          PrependSplitsBack(s[0], LexWord(s[1..], true));
        }
      } else if name[0] == '\'' {
        SingleSplits(name[1..], tail);
      } else if name[0] == '"' {
        DoubleSplits(name[1..], tail);
      } else if name[0] == '\\' {
        EscapeSplits(name, tail, begun);
      }
    }
  }

  lemma PrependSplitsBack(c: char, l: Lexed)
    requires c != '=' && l.Word?
    ensures SplitAssignment([c] + l.value).Some? <==> SplitAssignment(l.value).Some?
    ensures SplitAssignment(l.value).Some?
            ==> |SplitAssignment([c] + l.value).value.0| == |SplitAssignment(l.value).value.0| + 1
  {
    assert ([c] + l.value)[1..] == l.value;
  }

  lemma {:induction false} EscapeSplits(name: string, tail: string, begun: bool)
    requires name != "" && name[0] == '\\' && '=' !in name
    ensures var l := LexWord(name + "=" + tail, begun);
            l.Word? && SplitAssignment(l.value).Some? ==> |SplitAssignment(l.value).value.0| < |name|
    decreases |name|, 0
  {
    var s := name + "=" + tail;
    if |name| == 1 {
      assert s[1] == '=' && s[2..] == tail;
      EqualsFirst(LexWord(tail, true));
    } else {
      assert s[1] == name[1] && s[2..] == name[2..] + "=" + tail;
      WordSplits(name[2..], tail, begun);
      WordSplits(name[2..], tail, true);
      PrependSplits(s[1], LexWord(s[2..], true), name[2..]);
    }
  }

  lemma {:induction false} SplitNameHasNoEquals(word: string)
    ensures SplitAssignment(word).Some? ==> '=' !in SplitAssignment(word).value.0
  {
    if word != "" && word[0] != '=' {
      SplitNameHasNoEquals(word[1..]);
    }
  }

  // A name that is not plain is not what its export line reads back as, whatever the value
  // and whatever follows.
  lemma OtherNameIsLost(name: string, value: string, next: string, n: nat)
    requires !IsPlainName(name)
    ensures var read := ReadExports("export " + (name + "=" + ShellEscape(value) + "\n" + next), n + 1);
            read.Some? ==> |read.value.0| > 0 && read.value.0[0].0 != name
  {
    var line := name + "=" + ShellEscape(value) + "\n" + next;
    var text := "export " + line;
    assert text[..7] == "export " && text[7..] == line;
    assert line == name + "=" + (ShellEscape(value) + "\n" + next);
    if LexWord(line, false).Word? {
      SplitNameHasNoEquals(LexWord(line, false).value);
      if '=' !in name {
        WordSplits(name, ShellEscape(value) + "\n" + next, false);
      }
    }
  }

  // ---------------------------------------------------------------- whole blocks

  lemma SameTail(first: Binding, a: seq<Binding>, b: seq<Binding>)
    ensures [first] + a == [first] + b <==> a == b
  {
    assert ([first] + a)[1..] == a && ([first] + b)[1..] == b;
  }

  // A first line with a plain name reads back with the others exactly if its value holds no
  // NUL and the others read back.
  lemma FirstReadsWithMore(first: Binding, more: seq<Binding>, next: string, tail: string)
    requires IsPlainName(first.0)
    ensures ReadExports("export " + (first.0 + "=" + ShellEscape(first.1) + "\n" + next), |more| + 1)
            == Some(([first] + more, tail))
            <==> '\0' !in first.1 && ReadExports(next, |more|) == Some((more, tail))
  {
    ExportLineThenRest(first.0, first.1, next, |more|);
    if ReadExports(next, |more|).Some? {
      SameTail(first, ReadExports(next, |more|).value.0, more);
    }
  }

  lemma {:induction false} ExportsReadBack(values: seq<Binding>, tail: string)
    ensures ReadExports(Exports(values) + tail, |values|) == Some((values, tail))
            <==> NamesArePlain(values) && NulFree(values)
  {
    if values == [] {
      assert Exports(values) + tail == tail;
    } else {
      var first, more := values[0], values[1..];
      var next := Exports(more) + tail;
      assert Exports(values) + tail == "export " + (first.0 + "=" + ShellEscape(first.1) + "\n" + next);
      if IsPlainName(first.0) {
        ExportsReadBack(more, tail);
        FirstReadsWithMore(first, more, next, tail);
        assert values == [first] + more;
      } else {
        OtherNameIsLost(first.0, first.1, next, |more|);
      }
    }
  }

  lemma OpenParenthesis(inner: string, n: nat)
    ensures ReadEnvBlock("(\n" + inner, n) == Closed(ReadExports(inner, n))
  {
    assert ("(\n" + inner)[..2] == "(\n" && ("(\n" + inner)[2..] == inner;
  }

  lemma CloseParenthesis(values: seq<Binding>, text: string)
    ensures Closed(Some((values, text + ")"))) == Some((values, text))
  {
    assert (text + ")")[..|text|] == text;
  }

  lemma EnvBlockShape(body: string, values: seq<Binding>)
    ensures EnvBlock(body, values) == "(\n" + (Exports(values) + (Terminated(body) + ")"))
  {
  }

  lemma ClosedReads(exports: Option<(seq<Binding>, string)>, values: seq<Binding>, text: string)
    ensures Closed(exports) == Some((values, text)) <==> exports == Some((values, text + ")"))
  {
    CloseParenthesis(values, text);
    if Closed(exports) == Some((values, text)) {
      var rest := exports.value.1;
      assert rest == rest[..|rest| - 1] + ")";
    }
  }

  // Given the number of parameters, the reader recovers every name, every value and the
  // body, the latter up to one final newline, exactly when every name is plain and no value
  // holds a NUL.
  lemma EnvBlockReadsBack(body: string, values: seq<Binding>)
    ensures ReadEnvBlock(EnvBlock(body, values), |values|) == Some((values, Terminated(body)))
            <==> NamesArePlain(values) && NulFree(values)
  {
    var tail := Terminated(body) + ")";
    EnvBlockShape(body, values);
    OpenParenthesis(Exports(values) + tail, |values|);
    ExportsReadBack(values, tail);
    ClosedReads(ReadExports(Exports(values) + tail, |values|), values, Terminated(body));
  }

  // One parameter: any name that is not plain is misread, for every value and every body.
  lemma BadNameIsMisread(name: string, value: string, body: string)
    requires !IsPlainName(name)
    ensures ReadEnvBlock(EnvBlock(body, [(name, value)]), 1) != Some(([(name, value)], Terminated(body)))
  {
    EnvBlockReadsBack(body, [(name, value)]);
  }
}
