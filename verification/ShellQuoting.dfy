/**
 The schema Job's shell script (internal/resources/schemajob.go): arguments are
 single-quoted and joined by spaces, and a POSIX shell must take them apart again
 exactly as they were.
 */
module ShellQuoting {
  import opened Wrappers
  import opened GoStrings

  /** `strings.ReplaceAll(s, "'", ...)`: every single quote closes, escapes and reopens the quotation. */
  function Escape(s: string): string {
    if s == "" then ""
    else (if s[0] == '\'' then "'\\''" else [s[0]]) + Escape(s[1..])
  }

  function ShellQuote(s: string): string {
    "'" + Escape(s) + "'"
  }

  function QuoteAll(args: seq<string>): seq<string> {
    if args == [] then [] else [ShellQuote(args[0])] + QuoteAll(args[1..])
  }

  // ----- a POSIX shell's reading of a simple command's words -----

  /** Blanks delimit words (token recognition, section 2.3 of the Shell Command Language, POSIX.1-2017). */
  predicate IsBlank(c: char) {
    c == ' ' || c == '\t'
  }

  /** Unquoted characters that mean something else to the shell; a text using them is outside this reading. */
  predicate IsSpecial(c: char) {
    c in {'|', '&', ';', '<', '>', '(', ')', '$', '`', '\"', '\n', '*', '?', '[', '#', '~', '=', '%', '{', '}', '!'}
  }

  /**
   Outside quotation, with `word` the word begun so far.  A backslash preserves the next
   character, and is removed with a following newline (section 2.2.1); quote characters do
   not survive into the word (quote removal, section 2.6.7).  `None` is a text this reading
   does not cover.
   */
  function Words(s: string, word: Option<string>): Option<seq<string>>
    decreases |s|
  {
    if s == "" then Some(Begun(word))
    else if s[0] == '\'' then Quoted(s[1..], word.GetOr(""))
    else if s[0] == '\\' then
      if |s| == 1 then None
      else if s[1] == '\n' then Words(s[2..], word)
      else Words(s[2..], Some(word.GetOr("") + [s[1]]))
    else if IsBlank(s[0]) then
      var rest := Words(s[1..], None);
      if rest.None? then None else Some(Begun(word) + rest.value)
    else if IsSpecial(s[0]) then None
    else Words(s[1..], Some(word.GetOr("") + [s[0]]))
  }

  /** Inside single quotes every character but the closing quote is itself (section 2.2.2). */
  function Quoted(s: string, word: string): Option<seq<string>>
    decreases |s|
  {
    if s == "" then None
    else if s[0] == '\'' then Words(s[1..], Some(word))
    else Quoted(s[1..], word + [s[0]])
  }

  function Begun(word: Option<string>): seq<string> {
    if word.Some? then [word.value] else []
  }

  /** The words a shell reads from the text of a command. */
  function Tokenize(s: string): Option<seq<string>> {
    Words(s, None)
  }

  // ----- quoting is undone by tokenizing -----

  /** Reading an escaped text up to its closing quote adds exactly that text to the word. */
  lemma {:induction false} EscapedReadsBack(a: string, rest: string, word: string)
    ensures Quoted(Escape(a) + "'" + rest, word) == Words(rest, Some(word + a))
    decreases |a|
  {
    hide Words, Quoted;
    if a == "" {
      assert Escape(a) + "'" + rest == "'" + rest;
      assert word + a == word;
      QuotationEnds(rest, word);
    } else {
      var tail := Escape(a[1..]) + "'" + rest;
      EscapedReadsBack(a[1..], rest, word + [a[0]]);
      assert word + [a[0]] + a[1..] == word + a;
      if a[0] == '\'' {
        assert Escape(a) + "'" + rest == "'\\''" + tail;
        EscapedQuote(tail, word);
      } else {
        assert Escape(a) + "'" + rest == [a[0]] + tail;
        QuotedCharacter(a[0], tail, word);
      }
    }
  }

  lemma QuotationEnds(rest: string, word: string)
    ensures Quoted("'" + rest, word) == Words(rest, Some(word))
  {
    assert ("'" + rest)[1..] == rest;
  }

  lemma QuotedCharacter(c: char, tail: string, word: string)
    requires c != '\''
    ensures Quoted([c] + tail, word) == Quoted(tail, word + [c])
  {
    assert ([c] + tail)[1..] == tail;
  }

  /** The escape of a single quote leaves the quotation, adds a quote, and enters it again. */
  lemma EscapedQuote(tail: string, word: string)
    ensures Quoted("'\\''" + tail, word) == Quoted(tail, word + ['\''])
  {
    hide IsSpecial;
    var s := "'\\''" + tail;
    assert s[1..] == "\\''" + tail;
    assert s[1..][2..] == "'" + tail;
    assert ("'" + tail)[1..] == tail;
    assert Words(s[1..], Some(word)) == Words("'" + tail, Some(word + ['\'']));
  }

  lemma QuotedArgumentReadsBack(a: string, rest: string)
    ensures Words(ShellQuote(a) + rest, None) == Words(rest, Some(a))
  {
    var s := ShellQuote(a) + rest;
    assert s[1..] == Escape(a) + "'" + rest;
    EscapedReadsBack(a, rest, "");
    assert "" + a == a;
  }

  /**
   For every list of arguments, whatever characters they hold, the shell reads the
   space-joined quotations back as exactly those arguments in order.
   */
  lemma {:induction false} QuotingRoundTrips(args: seq<string>)
    ensures Tokenize(Join(QuoteAll(args), " ")) == Some(args)
    decreases |args|
  {
    if args == [] {
    } else if |args| == 1 {
      QuotedArgumentReadsBack(args[0], "");
      assert args == [args[0]];
      assert QuoteAll(args) == [ShellQuote(args[0])];
      assert Join(QuoteAll(args), " ") == ShellQuote(args[0]) + "";
    } else {
      var rest := Join(QuoteAll(args[1..]), " ");
      assert QuoteAll(args)[1..] == QuoteAll(args[1..]);
      assert Join(QuoteAll(args), " ") == ShellQuote(args[0]) + (" " + rest);
      QuotedArgumentReadsBack(args[0], " " + rest);
      assert (" " + rest)[1..] == rest;
      QuotingRoundTrips(args[1..]);
      assert [args[0]] + args[1..] == args;
    }
  }

  /** Two argument lists with the same joined text are the same list. */
  lemma QuotingIsInjective(a: seq<string>, b: seq<string>)
    requires Join(QuoteAll(a), " ") == Join(QuoteAll(b), " ")
    ensures a == b
  {
    QuotingRoundTrips(a);
    QuotingRoundTrips(b);
  }

  // ----- the schema container -----

  datatype StoreArgs = SqlArgs(passwordCommand: string, toolArgs: seq<string>) | CassandraArgs(toolArgs: seq<string>)

  function SchemaCommand(p: StoreArgs): string {
    if p.CassandraArgs? then "temporal-cassandra-tool" else "temporal-sql-tool"
  }

  /** What the container runs: an argument vector, or a shell script whose last command is `exec` of the text `final`. */
  datatype Exec = Direct(argv: seq<string>) | Script(prefix: string, final: string)

  predicate PlainChar(c: char) {
    c == '-' || 'a' <= c <= 'z'
  }

  predicate IsPlain(name: string) {
    name != "" && forall i :: 0 <= i < |name| ==> PlainChar(name[i])
  }

  /** The words of a plain tool name and of what follows it. */
  lemma {:induction false} PlainWord(name: string, word: string, rest: string)
    requires forall i :: 0 <= i < |name| ==> PlainChar(name[i])
    ensures Words(name + rest, Some(word)) == Words(rest, Some(word + name))
    decreases |name|
  {
    if name == "" {
      assert name + rest == rest && word + name == word;
    } else {
      assert (name + rest)[1..] == name[1..] + rest;
      PlainWord(name[1..], word + [name[0]], rest);
      assert word + [name[0]] + name[1..] == word + name;
    }
  }

  lemma ToolWords(tool: string, args: seq<string>)
    requires IsPlain(tool)
    ensures Tokenize(tool + " " + Join(QuoteAll(args), " ")) == Some([tool] + args)
  {
    var rest := " " + Join(QuoteAll(args), " ");
    var s := tool + rest;
    assert tool + " " + Join(QuoteAll(args), " ") == s;
    assert s[1..] == tool[1..] + rest;
    PlainWord(tool[1..], [tool[0]], rest);
    assert [tool[0]] + tool[1..] == tool;
    assert "" + [tool[0]] == [tool[0]];
    assert PlainChar(s[0]) && Words(s, None) == Words(s[1..], Some([tool[0]]));
    assert rest[1..] == Join(QuoteAll(args), " ");
    QuotingRoundTrips(args);
  }

  /**
   `schemaContainerExec`: with a password command a SQL store's tool is wrapped in a shell
   script that first exports the command's output as the password.  Either way the program
   finally executed gets the same argument vector: the store's own tool followed by its
   arguments.
   */
  method SchemaContainerExec(p: StoreArgs) returns (r: Exec)
    ensures r.Script? <==> p.SqlArgs? && p.passwordCommand != ""
    ensures r.Direct? ==> r.argv == [if p.SqlArgs? then "temporal-sql-tool" else "temporal-cassandra-tool"] + p.toolArgs
    ensures r.Script? ==> Tokenize(r.final) == Some(["temporal-sql-tool"] + p.toolArgs)
    ensures r.Script? ==> r.prefix == "export SQL_PASSWORD=\"$(" + p.passwordCommand + ")\"; exec "
  {
    var tool := SchemaCommand(p);
    if p.SqlArgs? && p.passwordCommand != "" {
      var quoted: seq<string> := [];
      var i := 0;
      while i < |p.toolArgs|
        invariant 0 <= i <= |p.toolArgs|
        invariant QuoteAll(p.toolArgs) == quoted + QuoteAll(p.toolArgs[i..])
      {
        quoted := quoted + [ShellQuote(p.toolArgs[i])];
        i := i + 1;
      }
      ToolWords(tool, p.toolArgs);
      assert quoted + QuoteAll([]) == quoted;
      return Script("export SQL_PASSWORD=\"$(" + p.passwordCommand + ")\"; exec ", tool + " " + Join(quoted, " "));
    }
    return Direct([tool] + p.toolArgs);
  }
}
