/** The parser accepts nothing but lines of the grammar, and makes of them what they mean. */
module ShellComplete {
  import opened ShellSyntax
  import opened ShellSource
  import opened ShellRoundTrip

  // ------------------------------------------------------------------
  // Tokens

  lemma {:induction false} SkippedBlank(buf: string, i: nat)
    requires i <= |buf|
    ensures Blank(buf[i..Skip(buf, i)]) && Solid(buf, Skip(buf, i))
    decreases |buf| - i
  {
    if i < |buf| && IsSpace(buf[i]) {
      SkippedBlank(buf, i + 1);
      assert buf[i..Skip(buf, i)] == [buf[i]] + buf[i + 1..Skip(buf, i)];
    }
  }

  lemma {:induction false} WordLegal(buf: string, i: nat)
    requires i <= |buf|
    ensures forall k | i <= k < WordEnd(buf, i) :: IsWordChar(buf[k])
    ensures WordEnd(buf, i) < |buf| ==> !IsWordChar(buf[WordEnd(buf, i)])
    ensures i < |buf| && IsWordChar(buf[i]) ==> i < WordEnd(buf, i)
    decreases |buf| - i
  {
    if i < |buf| && IsWordChar(buf[i]) { WordLegal(buf, i + 1); }
  }

  lemma Joined(buf: string, i: nat, j: nat, k: nat)
    requires i <= j <= k <= |buf|
    ensures buf[i..k] == buf[i..j] + buf[j..k]
  {
  }

  /** A word token, cut into the word and the white space behind it. */
  lemma WordFrom(buf: string, i: nat) returns (w: string, sp: string)
    requires Solid(buf, i) && GetToken(buf, i).0.Word?
    ensures var k := GetToken(buf, i).1;
      && LegalWord(w) && Blank(sp) && Solid(buf, k) && i <= k <= |buf| && buf[i..k] == w + sp
      && WordAt(buf, GetToken(buf, i).0.w) == w && WordStops(buf, k, sp)
  {
    SkipSolid(buf, i);
    WordLegal(buf, i);
    var e := WordEnd(buf, i);
    SkippedBlank(buf, e);
    w, sp := buf[i..e], buf[e..Skip(buf, e)];
    Joined(buf, i, e, Skip(buf, e));
  }

  /** A symbol, cut in the same way. */
  lemma SymbolFrom(buf: string, i: nat) returns (sp: string)
    requires Solid(buf, i) && i < |buf| && IsSymbol(buf[i])
    ensures var t := GetToken(buf, i);
      && Blank(sp) && Solid(buf, t.1) && i < t.1 <= |buf|
      && (t.0 == Append ==> buf[i..t.1] == ">>" + sp)
      && (t.0 != Append ==> t.0 == Symbol(buf[i]) && buf[i..t.1] == [buf[i]] + sp)
      && (t.0 == Append ==> buf[i] == '>')
  {
    SkipSolid(buf, i);
    var e := TokenAt(buf, i).1;
    SkippedBlank(buf, e);
    sp := buf[e..Skip(buf, e)];
    Joined(buf, i, e, Skip(buf, e));
    if TokenAt(buf, i).0 == Append { assert buf[i..e] == ">>"; } else { assert buf[i..e] == [buf[i]]; }
  }

  // ------------------------------------------------------------------
  // Redirections

  /** The pieces read between two positions. */
  ghost predicate PiecesRead(buf: string, i: nat, ps: seq<Piece>, k: nat) {
    i <= k <= |buf| && Solid(buf, k) && GoodPieces(ps) && buf[i..k] == ShowPieces(ps)
  }

  lemma ConsGood(buf: string, i: nat, p: Piece, j: nat, ps: seq<Piece>, k: nat)
    requires i <= j && PiecesRead(buf, j, ps, k) && GoodPiece(p) && buf[i..j] == ShowPiece(p) && WordStops(buf, j, p.sp)
    ensures PiecesRead(buf, i, [p] + ps, k)
  {
    var qs := [p] + ps;
    assert qs[0] == p && qs[1..] == ps;
    Joined(buf, i, j, k);
    if ps != [] && ps[0].Arg? {
      assert buf[j..k][0] == ps[0].word[0] && GoodPiece(ps[0]);
      assert j < |buf| && IsWordChar(buf[j]);
    }
    forall n | 0 < n < |qs| && qs[n].Arg? ensures qs[n - 1].sp != "" {
      if n > 1 { assert ps[n - 1].Arg? && ps[n - 2].sp != ""; }
    }
  }

  /** One redirection. */
  lemma IoFrom(buf: string, i: nat) returns (p: Piece)
    requires Solid(buf, i) && i < |buf| && (buf[i] == '<' || buf[i] == '>')
    requires GetToken(buf, GetToken(buf, i).1).0.Word?
    ensures var t := GetToken(buf, i);
      var f := GetToken(buf, t.1);
      && p.Io? && GoodPiece(p) && i <= f.1 <= |buf| && Solid(buf, f.1) && buf[i..f.1] == ShowPiece(p)
      && WordStops(buf, f.1, p.sp) && WordAt(buf, f.0.w) == p.file
      && OpMode(p.op) == if t.0 == Symbol('<') then ReadOnly else WriteCreate
  {
    var gap := SymbolFrom(buf, i);
    var t := GetToken(buf, i);
    var w, sp := WordFrom(buf, t.1);
    var op := if t.0 == Append then OutEnd else if t.0 == Symbol('<') then In else Out;
    p := Io(op, gap, w, sp);
    IoShown(buf, i, t.1, GetToken(buf, t.1).1, op, gap, w, sp);
  }

  lemma IoShown(buf: string, i: nat, j: nat, k: nat, op: Op, gap: string, w: string, sp: string)
    requires i <= j <= k <= |buf| && buf[i..j] == OpText(op) + gap && buf[j..k] == w + sp
    ensures buf[i..k] == ShowPiece(Io(op, gap, w, sp))
  {
    Joined(buf, i, j, k);
    assert OpText(op) + gap + (w + sp) == OpText(op) + (gap + (w + sp));
  }

  /** What parseredirs does with it. */
  lemma RedirsUnfold(c: Cmd<Span>, buf: string, i: nat)
    requires Solid(buf, i) && i < |buf| && (buf[i] == '<' || buf[i] == '>')
    ensures var t := GetToken(buf, i);
      var f := GetToken(buf, t.1);
      ParseRedirs(c, buf, i) == if !f.0.Word? then Err(MissingFile)
        else ParseRedirs(Redir(c, f.0.w, if t.0 == Symbol('<') then ReadOnly else WriteCreate), buf, f.1)
  {
    SkipSolid(buf, i);
  }

  predicate AtRedir(buf: string, i: nat) { i < |buf| && (buf[i] == '<' || buf[i] == '>') }

  lemma {:induction false} RedirsFrom(c: Cmd<Span>, buf: string, i: nat) returns (ps: seq<Piece>)
    requires Solid(buf, i) && ParseRedirs(c, buf, i).Ok?
    ensures var r := ParseRedirs(c, buf, i);
      PiecesRead(buf, i, ps, r.pos) && AllRedirs(ps) && Text(buf, r.cmd) == Around(Text(buf, c), ps)
    decreases |buf| - i
  {
    if !AtRedir(buf, i) {
      NoRedirs(c, buf, i);
      ps := [];
    } else {
      var f := GetToken(buf, GetToken(buf, i).1);
      RedirsUnfold(c, buf, i);
      var p := IoFrom(buf, i);
      var d := Redir(c, f.0.w, OpMode(p.op));
      var rest := RedirsFrom(d, buf, f.1);
      ConsGood(buf, i, p, f.1, rest, ParseRedirs(d, buf, f.1).pos);
      ps := [p] + rest;
      assert ps[0] == p && ps[1..] == rest;
    }
  }

  // ------------------------------------------------------------------
  // Simple commands

  lemma RestIo(c: Cmd<Span>, n: nat, buf: string, i: nat)
    requires Solid(buf, i) && AtRedir(buf, i) && Rest(c, n, buf, i).Ok?
    ensures var t := GetToken(buf, i);
      var f := GetToken(buf, t.1);
      f.0.Word? && Rest(c, n, buf, i)
        == Rest(Redir(c, f.0.w, if t.0 == Symbol('<') then ReadOnly else WriteCreate), n, buf, f.1)
  {
    RedirsUnfold(c, buf, i);
  }

  /** At i the command ends or a word begins. */
  lemma RestWord(c: Cmd<Span>, n: nat, buf: string, i: nat)
    requires Solid(buf, i) && !AtRedir(buf, i) && Rest(c, n, buf, i).Ok?
    ensures var t := GetToken(buf, i);
      if t.0.Word? then n + 1 < MAXARGS && Rest(c, n, buf, i) == Rest(AddArg(c, t.0.w), n + 1, buf, t.1)
      else Rest(c, n, buf, i) == Ok(c, i)
  {
    NoRedirs(c, buf, i);
    SkipSolid(buf, i);
  }

  /** What was read of a simple command: its pieces, and the tree they make of t. */
  ghost predicate RestRead(buf: string, i: nat, ps: seq<Piece>, r: Parse, n: nat, t: Cmd<string>) {
    && r.Ok? && PiecesRead(buf, i, ps, r.pos) && n + |Words(ps)| < MAXARGS
    && Text(buf, r.cmd) == AllMore(t, ps)
  }

  lemma {:induction false} RestFrom(c: Cmd<Span>, n: nat, buf: string, i: nat) returns (ps: seq<Piece>)
    requires Solid(buf, i) && Rest(c, n, buf, i).Ok? && IsNest(Text(buf, c)) && n < MAXARGS
    ensures RestRead(buf, i, ps, Rest(c, n, buf, i), n, Text(buf, c))
    decreases |buf| - i
  {
    if AtRedir(buf, i) {
      RestIo(c, n, buf, i);
      ps := RestFromIo(c, n, buf, i);
    } else {
      RestWord(c, n, buf, i);
      if GetToken(buf, i).0.Word? {
        ps := RestFromWord(c, n, buf, i);
      } else {
        ps := [];
      }
    }
  }

  lemma {:induction false} RestFromIo(c: Cmd<Span>, n: nat, buf: string, i: nat) returns (ps: seq<Piece>)
    requires Solid(buf, i) && AtRedir(buf, i) && Rest(c, n, buf, i).Ok? && IsNest(Text(buf, c)) && n < MAXARGS
    ensures RestRead(buf, i, ps, Rest(c, n, buf, i), n, Text(buf, c))
    decreases |buf| - i, 0
  {
    RestIo(c, n, buf, i);
    var f := GetToken(buf, GetToken(buf, i).1);
    var p := IoFrom(buf, i);
    var d := Redir(c, f.0.w, OpMode(p.op));
    var rest := RestFrom(d, n, buf, f.1);
    ConsGood(buf, i, p, f.1, rest, Rest(d, n, buf, f.1).pos);
    ps := [p] + rest;
    assert ps[0] == p && ps[1..] == rest;
  }

  lemma {:induction false} RestFromWord(c: Cmd<Span>, n: nat, buf: string, i: nat) returns (ps: seq<Piece>)
    requires Solid(buf, i) && !AtRedir(buf, i) && Rest(c, n, buf, i).Ok? && IsNest(Text(buf, c)) && n < MAXARGS
    requires GetToken(buf, i).0.Word?
    ensures RestRead(buf, i, ps, Rest(c, n, buf, i), n, Text(buf, c))
    decreases |buf| - i, 0
  {
    RestWord(c, n, buf, i);
    var t := GetToken(buf, i);
    var w, sp := WordFrom(buf, i);
    var p, d := Arg(w, sp), AddArg(c, t.0.w);
    AddArgWords(buf, c, t.0.w);
    NestAgain(Text(buf, c), NestWords(Text(buf, c)) + [w], []);
    var rest := RestFrom(d, n + 1, buf, t.1);
    ConsGood(buf, i, p, t.1, rest, Rest(d, n + 1, buf, t.1).pos);
    ps := [p] + rest;
    assert ps[0] == p && ps[1..] == rest;
  }

  // ------------------------------------------------------------------
  // Lines

  /** Between i and k lies the line c, and it means t. */
  ghost predicate LineRead(buf: string, i: nat, c: Source, k: nat, t: Cmd<string>) {
    i <= k <= |buf| && Solid(buf, k) && Good(c) && buf[i..k] == Show(c) && Meaning(c) == t
  }

  lemma SimpleFrom(buf: string, i: nat) returns (c: Source)
    requires Solid(buf, i) && ParseExec(buf, i).Ok? && (i < |buf| ==> buf[i] != '(')
    ensures Tight(c) == 3 && LineRead(buf, i, c, ParseExec(buf, i).pos, Text(buf, ParseExec(buf, i).cmd))
  {
    ExecUnfold(buf, i);
    assert WordsAt(buf, []) == [];
    var ps := RestFrom(Exec([]), 0, buf, i);
    SimpleShown(buf, i, ps, Rest(Exec([]), 0, buf, i));
    c := Simple(ps);
  }

  lemma ExecUnfold(buf: string, i: nat)
    requires Solid(buf, i) && (i < |buf| ==> buf[i] != '(')
    ensures i <= |buf| && ParseExec(buf, i) == Rest(Exec([]), 0, buf, i)
  {
    SkipSolid(buf, i);
  }

  lemma SimpleShown(buf: string, i: nat, ps: seq<Piece>, r: Parse)
    requires RestRead(buf, i, ps, r, 0, Exec([]))
    ensures LineRead(buf, i, Simple(ps), r.pos, Text(buf, r.cmd))
  {
    AllMoreIs(Exec([]), ps);
    assert [] + Words(ps) == Words(ps);
  }

  lemma BlockUnfold(buf: string, i: nat)
    requires i < |buf| && buf[i] == '(' && ParseExec(buf, i).Ok?
    ensures var a := GetToken(buf, i).1;
      var r := ParseLine(buf, a);
      && r.Ok? && Peek(buf, r.pos, ")")
      && ParseExec(buf, i) == ParseRedirs(r.cmd, buf, GetToken(buf, Skip(buf, r.pos)).1)
  {
    SkipSolid(buf, i);
  }

  lemma {:induction false} ParenFrom(buf: string, i: nat) returns (c: Source)
    requires i < |buf| && buf[i] == '(' && ParseExec(buf, i).Ok?
    ensures Tight(c) == 3 && LineRead(buf, i, c, ParseExec(buf, i).pos, Text(buf, ParseExec(buf, i).cmd))
    decreases |buf| - i, 0
  {
    BlockUnfold(buf, i);
    var open := SymbolFrom(buf, i);
    var a := GetToken(buf, i).1;
    var r := ParseLine(buf, a);
    var body := LineFrom(buf, a);
    SkipSolid(buf, r.pos);
    var close := SymbolFrom(buf, r.pos);
    var b := GetToken(buf, r.pos).1;
    var rs := RedirsFrom(r.cmd, buf, b);
    c := Paren(open, body, close, rs);
    ParenShown(buf, i, a, r.pos, b, ParseExec(buf, i).pos, c);
  }

  lemma ParenShown(buf: string, i: nat, a: nat, j: nat, b: nat, k: nat, c: Source)
    requires c.Paren? && i <= a <= j <= b <= k <= |buf| && buf[i..a] == "(" + c.open && buf[a..j] == Show(c.body)
    requires buf[j..b] == ")" + c.close && buf[b..k] == ShowPieces(c.redirs)
    ensures buf[i..k] == Show(c)
  {
    Joined(buf, i, a, k);
    Joined(buf, a, j, k);
    Joined(buf, j, b, k);
    Associate("(", c.open, buf[a..k]);
    Associate(")", c.close, buf[b..k]);
  }

  lemma Associate(a: string, b: string, c: string)
    ensures a + b + c == a + (b + c)
  {
  }

  lemma {:induction false} ExecFrom(buf: string, i: nat) returns (c: Source)
    requires Solid(buf, i) && ParseExec(buf, i).Ok?
    ensures Tight(c) == 3 && LineRead(buf, i, c, ParseExec(buf, i).pos, Text(buf, ParseExec(buf, i).cmd))
    decreases |buf| - i, 1
  {
    if i < |buf| && buf[i] == '(' { c := ParenFrom(buf, i); } else { c := SimpleFrom(buf, i); }
  }

  /** Two lines with an operator between them. */
  lemma TwoShown(buf: string, i: nat, j: nat, a: nat, k: nat, l: Source, op: char, sp: string, r: Source)
    requires i <= j <= a <= k <= |buf| && buf[i..j] == Show(l) && buf[j..a] == [op] + sp && buf[a..k] == Show(r)
    ensures buf[i..k] == Show(l) + ([op] + (sp + Show(r)))
  {
    Joined(buf, i, j, k);
    Joined(buf, j, a, k);
    Associate([op], sp, Show(r));
  }

  /** An operator and the white space behind it. */
  lemma OperatorFrom(buf: string, j: nat) returns (sp: string, a: nat)
    requires Solid(buf, j) && j < |buf| && (buf[j] == '|' || buf[j] == ';' || buf[j] == '&')
    ensures a == GetToken(buf, j).1 && Blank(sp) && Solid(buf, a) && j < a <= |buf| && buf[j..a] == [buf[j]] + sp
  {
    sp := SymbolFrom(buf, j);
    a := GetToken(buf, j).1;
  }

  lemma PipedRead(buf: string, i: nat, l: Source, j: nat, t: Cmd<string>, sp: string, a: nat, r: Source, k: nat,
                  u: Cmd<string>)
    requires LineRead(buf, i, l, j, t) && Tight(l) == 3 && LineRead(buf, a, r, k, u) && Tight(r) >= 2
    requires j < a && buf[j..a] == "|" + sp && Blank(sp)
    ensures LineRead(buf, i, Piped(l, sp, r), k, Pipe(t, u))
  {
    TwoShown(buf, i, j, a, k, l, '|', sp, r);
  }

  lemma ListedRead(buf: string, i: nat, l: Source, j: nat, t: Cmd<string>, sp: string, a: nat, r: Source, k: nat,
                   u: Cmd<string>)
    requires LineRead(buf, i, l, j, t) && Tight(l) >= 1 && LineRead(buf, a, r, k, u)
    requires j < a && buf[j..a] == ";" + sp && Blank(sp)
    ensures LineRead(buf, i, Listed(l, sp, r), k, List(t, u))
  {
    TwoShown(buf, i, j, a, k, l, ';', sp, r);
  }

  lemma BackedRead(buf: string, i: nat, d: Source, j: nat, t: Cmd<string>, sp: string, a: nat)
    requires LineRead(buf, i, d, j, t) && Tight(d) >= 1
    requires j < a <= |buf| && buf[j..a] == "&" + sp && Blank(sp) && Solid(buf, a)
    ensures LineRead(buf, i, Backed(d, sp), a, Back(t))
  {
    Joined(buf, i, j, a);
  }

  lemma PipeUnfold(buf: string, i: nat, j: nat)
    requires i <= |buf| && ParsePipe(buf, i).Ok? && ParseExec(buf, i).Ok? ==> ParseExec(buf, i).pos == j
    requires i <= |buf| && ParsePipe(buf, i).Ok? && Solid(buf, j)
    ensures ParseExec(buf, i).Ok?
    ensures j < |buf| && buf[j] == '|' ==> var r := ParsePipe(buf, GetToken(buf, j).1);
      r.Ok? && ParsePipe(buf, i) == Ok(Pipe(ParseExec(buf, i).cmd, r.cmd), r.pos)
    ensures !(j < |buf| && buf[j] == '|') ==> ParsePipe(buf, i) == Ok(ParseExec(buf, i).cmd, j)
  {
    SkipSolid(buf, j);
  }

  lemma {:induction false} PipeFrom(buf: string, i: nat) returns (c: Source)
    requires Solid(buf, i) && ParsePipe(buf, i).Ok?
    ensures Tight(c) >= 2 && LineRead(buf, i, c, ParsePipe(buf, i).pos, Text(buf, ParsePipe(buf, i).cmd))
    decreases |buf| - i, 2
  {
    var l := ExecFrom(buf, i);
    var j := ParseExec(buf, i).pos;
    PipeUnfold(buf, i, j);
    if j < |buf| && buf[j] == '|' {
      var sp, a := OperatorFrom(buf, j);
      var r := PipeFrom(buf, a);
      PipedRead(buf, i, l, j, Text(buf, ParseExec(buf, i).cmd), sp, a, r, ParsePipe(buf, a).pos,
                Text(buf, ParsePipe(buf, a).cmd));
      c := Piped(l, sp, r);
    } else {
      c := l;
    }
  }

  lemma BacksUnfold(e: Cmd<Span>, buf: string, i: nat)
    requires Solid(buf, i)
    ensures i <= |buf|
    ensures ParseBacks(e, buf, i) ==
      if i < |buf| && buf[i] == '&' then ParseBacks(Back(e), buf, GetToken(buf, i).1) else (e, i)
  {
    SkipSolid(buf, i);
  }

  /** The '&'s behind a line read from `from` on. */
  lemma {:induction false} BacksFrom(e: Cmd<Span>, buf: string, from: nat, i: nat, d: Source) returns (c: Source)
    requires Tight(d) >= 1 && LineRead(buf, from, d, i, Text(buf, e))
    ensures var r := ParseBacks(e, buf, i); Tight(c) >= 1 && LineRead(buf, from, c, r.1, Text(buf, r.0))
    ensures var k := ParseBacks(e, buf, i).1; k < |buf| ==> buf[k] != '&'
    decreases |buf| - i
  {
    BacksUnfold(e, buf, i);
    if i < |buf| && buf[i] == '&' {
      var sp, a := OperatorFrom(buf, i);
      BackedRead(buf, from, d, i, Text(buf, e), sp, a);
      c := BacksFrom(Back(e), buf, from, a, Backed(d, sp));
    } else {
      c := d;
    }
  }

  lemma LineBegins(buf: string, i: nat)
    requires i <= |buf| && ParseLine(buf, i).Ok?
    ensures ParsePipe(buf, i).Ok?
  {
  }

  /** A line goes on behind a semicolon, and ends without one. */
  lemma LineGoesOn(buf: string, i: nat, e: Cmd<Span>, j: nat)
    requires i <= |buf| && ParsePipe(buf, i).Ok? && Solid(buf, j)
    requires ParseBacks(ParsePipe(buf, i).cmd, buf, ParsePipe(buf, i).pos) == (e, j)
    requires ParseLine(buf, i).Ok? && j < |buf| && buf[j] == ';'
    ensures var r := ParseLine(buf, GetToken(buf, j).1);
      r.Ok? && ParseLine(buf, i) == Ok(List(e, r.cmd), r.pos)
  {
    SkipSolid(buf, j);
  }

  lemma LineEnds(buf: string, i: nat, e: Cmd<Span>, j: nat)
    requires i <= |buf| && ParsePipe(buf, i).Ok? && Solid(buf, j)
    requires ParseBacks(ParsePipe(buf, i).cmd, buf, ParsePipe(buf, i).pos) == (e, j)
    requires !(j < |buf| && buf[j] == ';')
    ensures ParseLine(buf, i) == Ok(e, j)
  {
    SkipSolid(buf, j);
  }

  lemma {:induction false} LineFrom(buf: string, i: nat) returns (c: Source)
    requires Solid(buf, i) && ParseLine(buf, i).Ok?
    ensures LineRead(buf, i, c, ParseLine(buf, i).pos, Text(buf, ParseLine(buf, i).cmd))
    decreases |buf| - i, 3
  {
    LineBegins(buf, i);
    var p := PipeFrom(buf, i);
    var (e, j) := ParseBacks(ParsePipe(buf, i).cmd, buf, ParsePipe(buf, i).pos);
    var l := BacksFrom(ParsePipe(buf, i).cmd, buf, i, ParsePipe(buf, i).pos, p);
    if j < |buf| && buf[j] == ';' {
      LineGoesOn(buf, i, e, j);
      c := ListFrom(buf, i, l, j, Text(buf, e));
    } else {
      LineEnds(buf, i, e, j);
      c := l;
    }
  }

  lemma {:induction false} ListFrom(buf: string, i: nat, l: Source, j: nat, t: Cmd<string>) returns (c: Source)
    requires LineRead(buf, i, l, j, t) && Tight(l) >= 1 && j < |buf| && buf[j] == ';'
    requires ParseLine(buf, GetToken(buf, j).1).Ok?
    ensures var r := ParseLine(buf, GetToken(buf, j).1); LineRead(buf, i, c, r.pos, List(t, Text(buf, r.cmd)))
    decreases |buf| - i, 2
  {
    var sp, a := OperatorFrom(buf, j);
    var r := LineFrom(buf, a);
    ListedRead(buf, i, l, j, t, sp, a, r, ParseLine(buf, a).pos, Text(buf, ParseLine(buf, a).cmd));
    c := Listed(l, sp, r);
  }

  /** Every line that parses is a line of the grammar, and the parse is what it means. */
  lemma Complete(buf: string) returns (pre: string, c: Source)
    requires ParseCmd(buf).Ok?
    ensures Blank(pre) && Good(c) && buf == pre + Show(c) && Text(buf, ParseCmd(buf).cmd) == Meaning(c)
  {
    var i := Skip(buf, 0);
    SkippedBlank(buf, 0);
    LeadingSpace(buf, 0);
    pre := buf[0..i];
    c := LineFrom(buf, i);
    SkipSolid(buf, ParseLine(buf, i).pos);
    Joined(buf, 0, i, |buf|);
  }

  /** So parsecmd accepts exactly the lines of the grammar. */
  lemma ParsesIff(buf: string)
    ensures ParseCmd(buf).Ok? <==> exists pre, c :: Blank(pre) && Good(c) && buf == pre + Show(c)
  {
    if ParseCmd(buf).Ok? {
      var pre, c := Complete(buf);
    }
    if pre, c :| Blank(pre) && Good(c) && buf == pre + Show(c) {
      RoundTrip(pre, c);
    }
  }
}
