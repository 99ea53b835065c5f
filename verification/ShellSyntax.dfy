/** The command parser of sh.c as functions of the line and a position in it, the tree of words
    a parse stands for, and a printing of trees. */
module ShellSyntax {

  const MAXARGS: nat := 10

  predicate IsSpace(c: char) { c == ' ' || c == '\t' || c == '\r' || c == '\n' || c == '\U{0B}' }

  predicate IsSymbol(c: char) { c in "<|>&;()" }

  /** A character of a word. */
  predicate IsWordChar(c: char) { !IsSpace(c) && !IsSymbol(c) }

  /** The characters that separate words, with and without a meaning of their own. */
  lemma Characters(c: char)
    ensures IsSpace(c) <==> c in " \t\r\n\U{0B}"
    ensures IsWordChar(c) <==> c !in " \t\r\n\U{0B}<|>&;()"
  {
  }

  datatype Mode = ReadOnly | WriteCreate   // O_RDONLY on 0; O_WRONLY|O_CREATE on 1

  /** Commands over words of type W: spans of the line, or strings. */
  datatype Cmd<W> =
    | Exec(args: seq<W>)
    | Redir(cmd: Cmd<W>, file: W, mode: Mode)
    | Pipe(left: Cmd<W>, right: Cmd<W>)
    | List(left: Cmd<W>, right: Cmd<W>)
    | Back(cmd: Cmd<W>)

  datatype Span = Span(q: nat, eq: nat)

  datatype Panic = Syntax | MissingFile | NoBlock | MissingParen | TooManyArgs

  datatype Parse = Ok(cmd: Cmd<Span>, pos: nat) | Err(panic: Panic)

  /** What gettoken returns: 0, a symbol, '+' for ">>", or 'a' for a word. */
  datatype Token = End | Symbol(c: char) | Append | Word(w: Span)

  // ------------------------------------------------------------------
  // Tokens

  /** The first position from i on that is not white space. */
  function Skip(buf: string, i: nat): (j: nat)
    requires i <= |buf|
    ensures i <= j <= |buf| && (j < |buf| ==> !IsSpace(buf[j]))
    decreases |buf| - i
  {
    if i < |buf| && IsSpace(buf[i]) then Skip(buf, i + 1) else i
  }

  /** The end of the word that starts at i. */
  function WordEnd(buf: string, i: nat): (j: nat)
    requires i <= |buf|
    ensures i <= j <= |buf|
    decreases |buf| - i
  {
    if i < |buf| && IsWordChar(buf[i]) then WordEnd(buf, i + 1) else i
  }

  /** peek: whether the next character is one of toks. */
  predicate Peek(buf: string, i: nat, toks: string)
    requires i <= |buf|
  {
    Skip(buf, i) < |buf| && buf[Skip(buf, i)] in toks
  }

  /** The token that starts at j, where no white space is, and the position after it. */
  function TokenAt(buf: string, j: nat): (r: (Token, nat))
    requires j <= |buf| && (j < |buf| ==> !IsSpace(buf[j]))
    ensures j <= r.1 <= |buf| && (r.0 != End ==> j < r.1)
  {
    if j == |buf| then (End, j)
    else if buf[j] == '>' then if j + 1 < |buf| && buf[j + 1] == '>' then (Append, j + 2) else (Symbol('>'), j + 1)
    else if IsSymbol(buf[j]) then (Symbol(buf[j]), j + 1)
    else (Word(Span(j, WordEnd(buf, j))), WordEnd(buf, j))
  }

  /** gettoken: the next token, and the next position that is not white space after it. */
  function GetToken(buf: string, i: nat): (r: (Token, nat))
    requires i <= |buf|
    ensures i <= r.1 <= |buf| && (r.0 != End ==> i < r.1)
  {
    var t := TokenAt(buf, Skip(buf, i));
    (t.0, Skip(buf, t.1))
  }

  // ------------------------------------------------------------------
  // The grammar

  function ParseRedirs(cmd: Cmd<Span>, buf: string, i: nat): (r: Parse)
    requires i <= |buf|
    ensures r.Ok? ==> i <= r.pos <= |buf|
    decreases |buf| - i
  {
    if !Peek(buf, i, "<>") then Ok(cmd, Skip(buf, i))
    else
      var t := GetToken(buf, Skip(buf, i));
      var f := GetToken(buf, t.1);
      if !f.0.Word? then Err(MissingFile)
      else ParseRedirs(Redir(cmd, f.0.w, if t.0 == Symbol('<') then ReadOnly else WriteCreate), buf, f.1)
  }

  /** The words and redirections of a simple command; `ret` is the command with the
      redirections so far around the words so far. */
  function ParseArgs(ret: Cmd<Span>, argc: nat, buf: string, i: nat): (r: Parse)
    requires i <= |buf|
    ensures r.Ok? ==> i <= r.pos <= |buf|
    decreases |buf| - i
  {
    if Peek(buf, i, "|)&;") then Ok(ret, Skip(buf, i))
    else
      var t := GetToken(buf, Skip(buf, i));
      if t.0 == End then Ok(ret, t.1)
      else if !t.0.Word? then Err(Syntax)
      else if argc + 1 >= MAXARGS then Err(TooManyArgs)
      else
        var r := ParseRedirs(AddArg(ret, t.0.w), buf, t.1);
        if r.Err? then r else ParseArgs(r.cmd, argc + 1, buf, r.pos)
  }

  /** A word added to the simple command inside its redirections. */
  function AddArg<W>(c: Cmd<W>, w: W): Cmd<W> {
    match c
    case Exec(args) => Exec(args + [w])
    case Redir(d, f, m) => Redir(AddArg(d, w), f, m)
    case _ => c
  }

  function ParseExec(buf: string, i: nat): (r: Parse)
    requires i <= |buf|
    ensures r.Ok? ==> i <= r.pos <= |buf|
    decreases |buf| - i, 1
  {
    if Peek(buf, i, "(") then ParseBlock(buf, Skip(buf, i))
    else
      var r := ParseRedirs(Exec([]), buf, Skip(buf, i));
      if r.Err? then r else ParseArgs(r.cmd, 0, buf, r.pos)
  }

  function ParseBlock(buf: string, i: nat): (r: Parse)
    requires i <= |buf|
    ensures r.Ok? ==> i <= r.pos <= |buf|
    decreases |buf| - i, 0
  {
    if !Peek(buf, i, "(") then Err(NoBlock)
    else
      var r := ParseLine(buf, GetToken(buf, Skip(buf, i)).1);
      if r.Err? then r
      else if !Peek(buf, r.pos, ")") then Err(MissingParen)
      else ParseRedirs(r.cmd, buf, GetToken(buf, Skip(buf, r.pos)).1)
  }

  function ParsePipe(buf: string, i: nat): (r: Parse)
    requires i <= |buf|
    ensures r.Ok? ==> i <= r.pos <= |buf|
    decreases |buf| - i, 2
  {
    var l := ParseExec(buf, i);
    if l.Err? then l
    else if !Peek(buf, l.pos, "|") then Ok(l.cmd, Skip(buf, l.pos))
    else
      var r := ParsePipe(buf, GetToken(buf, Skip(buf, l.pos)).1);
      if r.Err? then r else Ok(Pipe(l.cmd, r.cmd), r.pos)
  }

  /** The loop of parseline: one Back for each '&'. */
  function ParseBacks(cmd: Cmd<Span>, buf: string, i: nat): (r: (Cmd<Span>, nat))
    requires i <= |buf|
    ensures i <= r.1 <= |buf|
    decreases |buf| - i
  {
    if !Peek(buf, i, "&") then (cmd, Skip(buf, i)) else ParseBacks(Back(cmd), buf, GetToken(buf, Skip(buf, i)).1)
  }

  function ParseLine(buf: string, i: nat): (r: Parse)
    requires i <= |buf|
    ensures r.Ok? ==> i <= r.pos <= |buf|
    decreases |buf| - i, 3
  {
    var l := ParsePipe(buf, i);
    if l.Err? then l
    else
      var b := ParseBacks(l.cmd, buf, l.pos);
      if !Peek(buf, b.1, ";") then Ok(b.0, Skip(buf, b.1))
      else
        var r := ParseLine(buf, GetToken(buf, Skip(buf, b.1)).1);
        if r.Err? then r else Ok(List(b.0, r.cmd), r.pos)
  }

  /** parsecmd, up to the termination of the words. */
  function ParseCmd(buf: string): Parse {
    var r := ParseLine(buf, 0);
    if r.Err? then r
    else if Skip(buf, r.pos) != |buf| then Err(Syntax)
    else Ok(r.cmd, |buf|)
  }

  /** One round of the loop of parseexec. */
  lemma ArgsStep(ret: Cmd<Span>, argc: nat, buf: string, i: nat)
    requires i <= |buf| && !Peek(buf, i, "|)&;")
    ensures var t := GetToken(buf, Skip(buf, i));
      ParseArgs(ret, argc, buf, i) ==
        if t.0 == End then Ok(ret, t.1)
        else if !t.0.Word? then Err(Syntax)
        else if argc + 1 >= MAXARGS then Err(TooManyArgs)
        else
          var r := ParseRedirs(AddArg(ret, t.0.w), buf, t.1);
          if r.Err? then r else ParseArgs(r.cmd, argc + 1, buf, r.pos)
  {
  }
}
