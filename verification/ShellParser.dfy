/** The parser of sh.c with its cursor, and nulterminate, which cuts the line into C strings in
    place; both proved against the grammar as functions. */
module ShellParser {
  import S = ShellSyntax
  import opened ShellSyntax
  import opened ShellWords

  class Parser {
    const buf: string
    var s: nat          // *ps

    constructor (buf: string)
      ensures this.buf == buf && s == 0
    {
      this.buf, s := buf, 0;
    }

    method SkipSpace()
      requires s <= |buf|
      modifies this
      ensures s == Skip(buf, old(s))
    {
      while s < |buf| && IsSpace(buf[s])
        invariant s <= |buf| && Skip(buf, s) == Skip(buf, old(s))
      {
        s := s + 1;
      }
    }

    method Peek(toks: string) returns (b: bool)
      requires s <= |buf|
      modifies this
      ensures s == Skip(buf, old(s)) && b == S.Peek(buf, old(s), toks)
    {
      SkipSpace();
      b := s < |buf| && buf[s] in toks;
    }

    method GetToken() returns (t: Token)
      requires s <= |buf|
      modifies this
      ensures (t, s) == S.GetToken(buf, old(s))
    {
      SkipSpace();
      ghost var j := s;
      if s == |buf| {
        t := End;
      } else if buf[s] == '>' {
        s, t := s + 1, Symbol('>');
        if s < |buf| && buf[s] == '>' {
          s, t := s + 1, Append;
        }
      } else if IsSymbol(buf[s]) {
        s, t := s + 1, Symbol(buf[s]);
      } else {
        var q := s;
        while s < |buf| && IsWordChar(buf[s])
          invariant j <= s <= |buf| && WordEnd(buf, s) == WordEnd(buf, j)
        {
          s := s + 1;
        }
        t := Word(Span(q, s));
      }
      assert (t, s) == TokenAt(buf, j);
      SkipSpace();
    }

    method ParseRedirs(cmd: Cmd<Span>) returns (r: Parse)
      requires s <= |buf|
      modifies this
      ensures r == S.ParseRedirs(cmd, buf, old(s)) && (r.Ok? ==> s == r.pos)
    {
      var c := cmd;
      var more := Peek("<>");
      ghost var i := old(s);
      while more
        invariant i <= |buf| && s == Skip(buf, i) && more == S.Peek(buf, i, "<>")
        invariant S.ParseRedirs(cmd, buf, old(s)) == S.ParseRedirs(c, buf, i)
        decreases |buf| - i
      {
        var tok := GetToken();
        var f := GetToken();
        if !f.Word? {
          return Err(MissingFile);
        }
        c := Redir(c, f.w, if tok == Symbol('<') then ReadOnly else WriteCreate);
        i := s;
        more := Peek("<>");
      }
      r := Ok(c, s);
    }

    method ParseExec() returns (r: Parse)
      requires s <= |buf|
      modifies this
      ensures r == S.ParseExec(buf, old(s)) && (r.Ok? ==> s == r.pos)
      decreases |buf| - s, 1
    {
      var block := Peek("(");
      if block {
        r := ParseBlock();
        return;
      }
      r := ParseRedirs(Exec([]));
      if r.Err? {
        return;
      }
      r := ParseArgs(r.cmd);
    }

    /** One round of the loop of parseexec: a word and its redirections, or the end. */
    method OneArg(ret: Cmd<Span>, argc: nat, ghost i: nat) returns (more: bool, r: Parse)
      requires i <= |buf| && s == Skip(buf, i) && !S.Peek(buf, i, "|)&;")
      modifies this
      ensures r.Ok? ==> s == r.pos
      ensures more ==> r.Ok? && i < s <= |buf| && S.ParseArgs(ret, argc, buf, i) == S.ParseArgs(r.cmd, argc + 1, buf, s)
      ensures !more ==> S.ParseArgs(ret, argc, buf, i) == r
    {
      ArgsStep(ret, argc, buf, i);
      var tok := GetToken();
      if tok == End {
        return false, Ok(ret, s);
      }
      if !tok.Word? {
        return false, Err(Syntax);
      }
      if argc + 1 >= MAXARGS {
        return false, Err(TooManyArgs);
      }
      r := ParseRedirs(AddArg(ret, tok.w));
      more := r.Ok?;
    }

    /** The loop of parseexec. */
    method ParseArgs(cmd: Cmd<Span>) returns (r: Parse)
      requires s <= |buf|
      modifies this
      ensures r == S.ParseArgs(cmd, 0, buf, old(s)) && (r.Ok? ==> s == r.pos)
    {
      ghost var goal := S.ParseArgs(cmd, 0, buf, s);
      var ret, argc := cmd, 0;
      ghost var i := s;
      var stop := Peek("|)&;");
      while !stop
        invariant i <= |buf| && s == Skip(buf, i) && stop == S.Peek(buf, i, "|)&;")
        invariant goal == S.ParseArgs(ret, argc, buf, i)
        decreases |buf| - i
      {
        var more;
        more, r := OneArg(ret, argc, i);
        if !more {
          return;
        }
        ret, argc := r.cmd, argc + 1;
        i := s;
        stop := Peek("|)&;");
      }
      r := Ok(ret, s);
    }

    method ParseBlock() returns (r: Parse)
      requires s <= |buf|
      modifies this
      ensures r == S.ParseBlock(buf, old(s)) && (r.Ok? ==> s == r.pos)
      decreases |buf| - s, 0
    {
      var open := Peek("(");
      if !open {
        return Err(NoBlock);
      }
      var tok := GetToken();
      r := ParseLine();
      if r.Err? {
        return;
      }
      var close := Peek(")");
      if !close {
        return Err(MissingParen);
      }
      tok := GetToken();
      r := ParseRedirs(r.cmd);
    }

    method ParsePipe() returns (r: Parse)
      requires s <= |buf|
      modifies this
      ensures r == S.ParsePipe(buf, old(s)) && (r.Ok? ==> s == r.pos)
      decreases |buf| - s, 2
    {
      r := ParseExec();
      if r.Err? {
        return;
      }
      var more := Peek("|");
      if more {
        var tok := GetToken();
        var right := ParsePipe();
        r := if right.Err? then right else Ok(Pipe(r.cmd, right.cmd), s);
      } else {
        r := Ok(r.cmd, s);
      }
    }

    method ParseLine() returns (r: Parse)
      requires s <= |buf|
      modifies this
      ensures r == S.ParseLine(buf, old(s)) && (r.Ok? ==> s == r.pos)
      decreases |buf| - s, 3
    {
      r := ParsePipe();
      if r.Err? {
        return;
      }
      var cmd := ParseBacks(r.cmd);
      var more := Peek(";");
      if more {
        var tok := GetToken();
        var right := ParseLine();
        r := if right.Err? then right else Ok(List(cmd, right.cmd), s);
      } else {
        r := Ok(cmd, s);
      }
    }

    /** The loop of parseline. */
    method ParseBacks(c: Cmd<Span>) returns (cmd: Cmd<Span>)
      requires s <= |buf|
      modifies this
      ensures (cmd, s) == S.ParseBacks(c, buf, old(s))
    {
      cmd := c;
      var more := Peek("&");
      ghost var i := old(s);
      while more
        invariant i <= |buf| && s == Skip(buf, i) && more == S.Peek(buf, i, "&")
        invariant S.ParseBacks(c, buf, old(s)) == S.ParseBacks(cmd, buf, i)
        decreases |buf| - i
      {
        var tok := GetToken();
        cmd := Back(cmd);
        i := s;
        more := Peek("&");
      }
    }

    method ParseCmd() returns (r: Parse)
      requires s == 0
      modifies this
      ensures r == S.ParseCmd(buf)
    {
      r := ParseLine();
      if r.Err? {
        return;
      }
      var b := Peek("");
      if s != |buf| {
        return Err(Syntax);
      }
      r := Ok(r.cmd, |buf|);
    }
  }

  /** parsecmd on the line in array a: the parse of the line, whose words are then C strings in a. */
  method ParseAndTerminate(buf: string, a: array<char>) returns (r: Parse)
    requires a.Length == |buf| + 1 && a[..] == buf + [NUL] && forall k | 0 <= k < |buf| :: buf[k] != NUL
    modifies a
    ensures r == S.ParseCmd(buf) && (r.Err? ==> a[..] == old(a[..]))
    ensures r.Ok? ==> forall w | WordOf(r.cmd, w) :: w.q < w.eq <= |buf| && CString(a[..], w.q) == buf[w.q..w.eq]
  {
    var p := new Parser(buf);
    r := p.ParseCmd();
    if r.Ok? {
      LineWhole(buf, 0);
      forall e | e in Ends(r.cmd) ensures e < a.Length { var w := EndsOfWords(r.cmd, e); }
      NulTerminate(r.cmd, a);
      forall w | WordOf(r.cmd, w) ensures w.q < w.eq <= |buf| && CString(a[..], w.q) == buf[w.q..w.eq] {
        WordsAreCStrings(buf, a[..], w);
      }
    }
  }
}
