/** Every line of the grammar parses to the tree it means. */
module ShellRoundTrip {
  import opened ShellSyntax
  import opened ShellSource

  // ------------------------------------------------------------------
  // Text at a position

  /** Facts kept folded are opened by naming what they are about. */
  datatype Fact =
    | OfText(i: nat, n: nat) | OfMeaning(t: Cmd<string>) | OfExec(i: nat, k: nat) | OfPipe(i: nat, k: nat)
    | OfBack(i: nat, k: nat) | OfLine(i: nat, k: nat) | OfRest(i: nat, k: nat) | OfRedirs(i: nat, k: nat)
    | OfToken(i: nat, k: nat) | OfPieces(ps: seq<Piece>) | OfSource(c: Source)

  ghost predicate Names(u: bool, f: Fact) { true }

  /** The line has w at position i; kept folded. */
  ghost predicate At(buf: string, i: nat, w: string) {
    forall u: bool {:trigger Names(u, OfText(i, |w|))} ::
      Names(u, OfText(i, |w|)) ==> i + |w| <= |buf| && buf[i..i + |w|] == w
  }

  lemma AtSplit(buf: string, i: nat, a: string, b: string)
    requires At(buf, i, a + b)
    ensures At(buf, i, a) && At(buf, i + |a|, b) && i + |a| + |b| <= |buf|
  {
    assert Names(true, OfText(i, |a + b|));
    assert buf[i..i + |a + b|][..|a|] == a;
    assert buf[i..i + |a + b|][|a|..] == b;
  }

  lemma AtChar(buf: string, i: nat, c: char)
    requires At(buf, i, [c])
    ensures i < |buf| && buf[i] == c
  {
    assert Names(true, OfText(i, 1));
    assert buf[i..i + 1][0] == c;
  }

  /** A word at i, its first character and its span. */
  lemma AtWord(buf: string, i: nat, w: string)
    requires At(buf, i, w) && w != ""
    ensures i + |w| <= |buf| && buf[i] == w[0] && WordAt(buf, Span(i, i + |w|)) == w
  {
    assert Names(true, OfText(i, |w|));
    assert buf[i] == buf[i..i + |w|][0];
  }

  /** A token, the white space behind it, and the rest. */
  lemma AtThree(buf: string, i: nat, a: string, b: string, c: string)
    requires At(buf, i, a + (b + c))
    ensures At(buf, i, a) && At(buf, i + |a|, b) && At(buf, i + |a| + |b|, c) && i + |a| + |b| + |c| <= |buf|
    ensures |a + (b + c)| == |a| + |b| + |c|
  {
    AtSplit(buf, i, a, b + c);
    AtSplit(buf, i + |a|, b, c);
  }

  /** At k is the end or a character that ends a line that binds that tightly: a closing parenthesis;
      what comes after a pipe; after a command. */
  predicate Follow(buf: string, k: nat, tight: nat) {
    k <= |buf| && (k < |buf| ==> Closes(buf[k], tight))
  }

  predicate Closes(c: char, tight: nat) {
    c == ')' || (tight >= 2 && (c == '&' || c == ';')) || (tight >= 3 && c == '|')
  }

  /** No white space at k. */
  predicate Solid(buf: string, k: nat) { k <= |buf| && (k < |buf| ==> !IsSpace(buf[k])) }

  lemma SkipSolid(buf: string, k: nat)
    requires Solid(buf, k)
    ensures Skip(buf, k) == k
  {
  }

  lemma {:induction false} SkipBlank(buf: string, i: nat, sp: string)
    requires At(buf, i, sp) && Blank(sp) && Solid(buf, i + |sp|)
    ensures i <= |buf| && Skip(buf, i) == i + |sp|
    decreases |sp|
  {
    if sp == "" {
      SkipSolid(buf, i);
    } else {
      assert sp == [sp[0]] + sp[1..];
      AtSplit(buf, i, [sp[0]], sp[1..]);
      AtChar(buf, i, sp[0]);
      SkipBlank(buf, i + 1, sp[1..]);
    }
  }

  lemma {:induction false} WordEndOf(buf: string, i: nat, w: string)
    requires At(buf, i, w) && (forall k | 0 <= k < |w| :: IsWordChar(w[k]))
      && (i + |w| < |buf| ==> !IsWordChar(buf[i + |w|]))
    ensures i <= |buf| && WordEnd(buf, i) == i + |w|
    decreases |w|
  {
    assert Names(true, OfText(i, |w|));
    if w != "" {
      assert w == [w[0]] + w[1..];
      AtSplit(buf, i, [w[0]], w[1..]);
      AtChar(buf, i, w[0]);
      WordEndOf(buf, i + 1, w[1..]);
    }
  }

  /** gettoken at i finds word w and moves on to k. */
  ghost predicate Reads(buf: string, i: nat, t: Token, k: nat) {
    forall u: bool {:trigger Names(u, OfToken(i, k))} ::
      Names(u, OfToken(i, k)) ==> i <= |buf| && GetToken(buf, i) == (t, k)
  }

  /** Behind a word is white space, or something that is no word. */
  predicate WordStops(buf: string, k: nat, sp: string) { sp == "" && k < |buf| ==> !IsWordChar(buf[k]) }

  /** gettoken on a legal word with white space behind it. */
  lemma TokenOfWord(buf: string, i: nat, w: string, sp: string)
    requires LegalWord(w) && Blank(sp) && At(buf, i, w) && At(buf, i + |w|, sp)
    requires Solid(buf, i + |w| + |sp|) && WordStops(buf, i + |w| + |sp|, sp)
    ensures i < |buf| && Solid(buf, i) && IsWordChar(buf[i])
    ensures Reads(buf, i, Word(Span(i, i + |w|)), i + |w| + |sp|) && WordAt(buf, Span(i, i + |w|)) == w
  {
    AtWord(buf, i, w);
    assert IsWordChar(w[0]);
    if sp != "" {
      assert sp == [sp[0]] + sp[1..];
      AtSplit(buf, i + |w|, [sp[0]], sp[1..]);
      AtChar(buf, i + |w|, sp[0]);
    }
    WordEndOf(buf, i, w);
    SkipSolid(buf, i);
    SkipBlank(buf, i + |w|, sp);
  }

  /** gettoken on a symbol with white space behind it. */
  lemma TokenOfSymbol(buf: string, i: nat, sp: string)
    requires i < |buf| && IsSymbol(buf[i]) && Blank(sp) && At(buf, i + 1, sp) && Solid(buf, i + 1 + |sp|)
    requires !(i + 1 < |buf| && buf[i] == '>' && buf[i + 1] == '>')
    ensures Reads(buf, i, Symbol(buf[i]), i + 1 + |sp|)
  {
    SkipSolid(buf, i);
    SkipBlank(buf, i + 1, sp);
  }

  lemma TokenOfAppend(buf: string, i: nat, sp: string)
    requires i + 1 < |buf| && buf[i] == '>' && buf[i + 1] == '>' && Blank(sp) && At(buf, i + 2, sp)
      && Solid(buf, i + 2 + |sp|)
    ensures Reads(buf, i, Append, i + 2 + |sp|)
  {
    SkipSolid(buf, i);
    SkipBlank(buf, i + 2, sp);
  }

  // ------------------------------------------------------------------
  // Words and redirections

  /** The text of pieces, and that they are good, kept folded. */
  ghost predicate PiecesShown(ps: seq<Piece>, v: string) {
    forall u: bool {:trigger Names(u, OfPieces(ps))} :: Names(u, OfPieces(ps)) ==> v == ShowPieces(ps)
  }

  ghost predicate FinePieces(ps: seq<Piece>) {
    forall u: bool {:trigger Names(u, OfPieces(ps))} :: Names(u, OfPieces(ps)) ==> GoodPieces(ps)
  }

  lemma PiecesOpen(ps: seq<Piece>, v: string) returns (a: string, rest: string)
    requires PiecesShown(ps, v) && FinePieces(ps)
    ensures ps == [] ==> v == ""
    ensures ps != [] ==> v == a + rest && a == ShowPiece(ps[0]) && PiecesShown(ps[1..], rest)
    ensures ps != [] ==> FinePieces(ps[1..]) && GoodPiece(ps[0]) && (|ps| > 1 && ps[1].Arg? ==> ps[0].sp != "")
  {
    assert Names(true, OfPieces(ps));
    a, rest := "", "";
    if ps != [] { a, rest := ShowPiece(ps[0]), ShowPieces(ps[1..]); }
  }

  /** Piece p lies at i and ends at j, where no white space is. */
  ghost predicate PieceAt(buf: string, i: nat, p: Piece, j: nat) {
    GoodPiece(p) && At(buf, i, ShowPiece(p)) && j == i + |ShowPiece(p)| && Solid(buf, j) && WordStops(buf, j, p.sp)
  }

  lemma PieceBegins(buf: string, i: nat, p: Piece)
    requires GoodPiece(p) && At(buf, i, ShowPiece(p))
    ensures i < |buf| && if p.Arg? then IsWordChar(buf[i]) else buf[i] == '<' || buf[i] == '>'
  {
    match p {
      case Arg(w, sp) =>
        AtSplit(buf, i, w, sp);
        AtWord(buf, i, w);
      case Io(op, gap, f, sp) =>
        AtSplit(buf, i, OpText(op), gap + (f + sp));
        AtWord(buf, i, OpText(op));
    }
  }

  /** Where pieces begin. */
  lemma PiecesBegin(buf: string, i: nat, ps: seq<Piece>, v: string)
    requires FinePieces(ps) && PiecesShown(ps, v) && At(buf, i, v) && Follow(buf, i + |v|, 3)
    ensures Solid(buf, i)
    ensures i < |buf| && IsWordChar(buf[i]) ==> ps != [] && ps[0].Arg?
  {
    var a, rest := PiecesOpen(ps, v);
    if ps != [] {
      AtSplit(buf, i, a, rest);
      PieceBegins(buf, i, ps[0]);
    }
  }

  /** The first piece and what comes behind it. */
  lemma PieceLayout(buf: string, i: nat, ps: seq<Piece>, v: string, k: nat) returns (j: nat, rest: string)
    requires ps != [] && FinePieces(ps) && PiecesShown(ps, v) && At(buf, i, v) && k == i + |v| && Follow(buf, k, 3)
    ensures FinePieces(ps[1..]) && PiecesShown(ps[1..], rest) && At(buf, j, rest) && k == j + |rest|
    ensures PieceAt(buf, i, ps[0], j)
  {
    var a;
    a, rest := PiecesOpen(ps, v);
    j := i + |a|;
    AtSplit(buf, i, a, rest);
    PiecesBegin(buf, j, ps[1..], rest);
  }

  /** A word in the line is read. */
  lemma ArgRead(buf: string, i: nat, p: Piece, j: nat) returns (w: Span)
    requires p.Arg? && PieceAt(buf, i, p, j)
    ensures i < |buf| && IsWordChar(buf[i]) && Reads(buf, i, Word(w), j) && WordAt(buf, w) == p.word
  {
    AtSplit(buf, i, p.word, p.sp);
    TokenOfWord(buf, i, p.word, p.sp);
    w := Span(i, i + |p.word|);
  }

  /** The rest of a simple command: redirections, words and so on. */
  function Rest(c: Cmd<Span>, n: nat, buf: string, k: nat): Parse
    requires k <= |buf|
  {
    var r := ParseRedirs(c, buf, k);
    if r.Err? then r else ParseArgs(r.cmd, n, buf, r.pos)
  }

  ghost predicate Rests(c: Cmd<Span>, n: nat, buf: string, i: nat, d: Cmd<Span>, k: nat) {
    forall u: bool {:trigger Names(u, OfRest(i, k))} ::
      Names(u, OfRest(i, k)) ==> i <= |buf| && Rest(c, n, buf, i) == Ok(d, k)
  }

  ghost predicate Redirs(c: Cmd<Span>, buf: string, i: nat, d: Cmd<Span>, k: nat) {
    forall u: bool {:trigger Names(u, OfRedirs(i, k))} ::
      Names(u, OfRedirs(i, k)) ==> i <= |buf| && ParseRedirs(c, buf, i) == Ok(d, k)
  }

  lemma NoRedirs(c: Cmd<Span>, buf: string, j: nat)
    requires Solid(buf, j) && (j < |buf| ==> buf[j] != '<' && buf[j] != '>')
    ensures ParseRedirs(c, buf, j) == Ok(c, j)
  {
    SkipSolid(buf, j);
  }

  lemma RestEnds(c: Cmd<Span>, n: nat, buf: string, i: nat)
    requires Follow(buf, i, 3)
    ensures Rests(c, n, buf, i, c, i)
  {
    NoRedirs(c, buf, i);
    SkipSolid(buf, i);
  }

  /** A word joins the command inside its redirections. */
  lemma RestArg(c: Cmd<Span>, n: nat, buf: string, i: nat, w: Span, j: nat, d: Cmd<Span>, k: nat)
    requires i < |buf| && IsWordChar(buf[i]) && Reads(buf, i, Word(w), j) && n + 1 < MAXARGS
    requires Rests(AddArg(c, w), n + 1, buf, j, d, k)
    ensures Rests(c, n, buf, i, d, k)
  {
    assert Names(true, OfToken(i, j)) && Names(true, OfRest(j, k));
    NoRedirs(c, buf, i);
    SkipSolid(buf, i);
  }

  /** One redirection: its operator and its file are read. */
  ghost predicate ReadsRedir(buf: string, i: nat, f: Span, m: Mode, k: nat) {
    i < |buf| && (buf[i] == '<' || buf[i] == '>') && exists j, t :: ReadsBoth(buf, i, t, j, f, m, k)
  }

  ghost predicate ReadsBoth(buf: string, i: nat, t: Token, j: nat, f: Span, m: Mode, k: nat) {
    && j <= |buf| && Reads(buf, i, t, j) && Reads(buf, j, Word(f), k)
    && t != End && m == if t == Symbol('<') then ReadOnly else WriteCreate
  }

  lemma RedirStep(c: Cmd<Span>, buf: string, i: nat, f: Span, m: Mode, k: nat)
    requires ReadsRedir(buf, i, f, m, k)
    ensures i <= |buf| && k <= |buf| && ParseRedirs(c, buf, i) == ParseRedirs(Redir(c, f, m), buf, k)
  {
    var j, t :| ReadsBoth(buf, i, t, j, f, m, k);
    assert Names(true, OfToken(i, j)) && Names(true, OfToken(j, k));
    SkipSolid(buf, i);
  }

  lemma RestRedir(c: Cmd<Span>, n: nat, buf: string, i: nat, f: Span, m: Mode, j: nat, d: Cmd<Span>, k: nat)
    requires ReadsRedir(buf, i, f, m, j) && Rests(Redir(c, f, m), n, buf, j, d, k)
    ensures Rests(c, n, buf, i, d, k)
  {
    RedirStep(c, buf, i, f, m, j);
    assert Names(true, OfRest(j, k));
  }

  lemma RedirsRedir(c: Cmd<Span>, buf: string, i: nat, f: Span, m: Mode, j: nat, d: Cmd<Span>, k: nat)
    requires ReadsRedir(buf, i, f, m, j) && Redirs(Redir(c, f, m), buf, j, d, k)
    ensures Redirs(c, buf, i, d, k)
  {
    RedirStep(c, buf, i, f, m, j);
    assert Names(true, OfRedirs(j, k));
  }

  /** The tokens of a redirection. */
  lemma RedirLayout(buf: string, i: nat, p: Piece, k: nat) returns (j: nat)
    requires p.Io? && PieceAt(buf, i, p, k)
    ensures j == i + |OpText(p.op)| + |p.gap| && k == j + |p.file| + |p.sp|
    ensures At(buf, i, OpText(p.op)) && At(buf, i + |OpText(p.op)|, p.gap) && Blank(p.gap)
    ensures At(buf, j, p.file) && At(buf, j + |p.file|, p.sp) && LegalWord(p.file) && Blank(p.sp)
    ensures Solid(buf, k) && WordStops(buf, k, p.sp) && i < |buf| && (buf[i] == '<' || buf[i] == '>')
  {
    PieceBegins(buf, i, p);
    j := i + |OpText(p.op)| + |p.gap|;
    AtThree(buf, i, OpText(p.op), p.gap, p.file + p.sp);
    AtSplit(buf, j, p.file, p.sp);
  }

  /** A redirection in the line is read. */
  lemma RedirRead(buf: string, i: nat, p: Piece, k: nat) returns (f: Span)
    requires p.Io? && PieceAt(buf, i, p, k)
    ensures ReadsRedir(buf, i, f, OpMode(p.op), k) && WordAt(buf, f) == p.file
  {
    var j := RedirLayout(buf, i, p, k);
    f := Span(j, j + |p.file|);
    RedirReadAt(buf, i, p.op, p.gap, j, p.file, p.sp, k);
  }

  lemma RedirReadAt(buf: string, i: nat, op: Op, gap: string, j: nat, file: string, sp: string, k: nat)
    requires At(buf, i, OpText(op)) && At(buf, i + |OpText(op)|, gap) && Blank(gap) && j == i + |OpText(op)| + |gap|
    requires At(buf, j, file) && At(buf, j + |file|, sp) && LegalWord(file) && Blank(sp) && k == j + |file| + |sp|
    requires Solid(buf, k) && WordStops(buf, k, sp) && i < |buf| && (buf[i] == '<' || buf[i] == '>')
    ensures ReadsRedir(buf, i, Span(j, j + |file|), OpMode(op), k) && WordAt(buf, Span(j, j + |file|)) == file
  {
    TokenOfWord(buf, j, file, sp);
    OpRead(buf, i, op, gap);
    assert ReadsBoth(buf, i, OpToken(op), j, Span(j, j + |file|), OpMode(op), k);
  }

  function OpToken(op: Op): Token { if op == In then Symbol('<') else if op == Out then Symbol('>') else Append }

  lemma OpRead(buf: string, i: nat, op: Op, gap: string)
    requires At(buf, i, OpText(op)) && At(buf, i + |OpText(op)|, gap) && Blank(gap)
    requires var j := i + |OpText(op)| + |gap|; j < |buf| && IsWordChar(buf[j])
    ensures Reads(buf, i, OpToken(op), i + |OpText(op)| + |gap|)
  {
    if op == OutEnd {
      assert ">>" == [">"[0]] + [">"[0]];
      AtSplit(buf, i, ">", ">");
      AtChar(buf, i, '>');
      AtChar(buf, i + 1, '>');
      TokenOfAppend(buf, i, gap);
    } else {
      AtChar(buf, i, OpText(op)[0]);
      if gap != "" {
        assert gap == [gap[0]] + gap[1..];
        AtSplit(buf, i + 1, [gap[0]], gap[1..]);
        AtChar(buf, i + 1, gap[0]);
      }
      TokenOfSymbol(buf, i, gap);
    }
  }

  // ------------------------------------------------------------------
  // Meanings

  /** That a tree of spans stands for a tree, kept folded. */
  ghost predicate Means(buf: string, c: Cmd<Span>, t: Cmd<string>) {
    forall u: bool {:trigger Names(u, OfMeaning(t))} :: Names(u, OfMeaning(t)) ==> Text(buf, c) == t
  }

  /** A simple command with its redirections. */
  predicate IsNest<W(==)>(c: Cmd<W>) {
    match c
    case Exec(_) => true
    case Redir(d, _, _) => IsNest(d)
    case _ => false
  }

  /** The words inside the redirections. */
  function NestWords(c: Cmd<string>): seq<string> {
    match c
    case Exec(args) => args
    case Redir(d, _, _) => NestWords(d)
    case _ => []
  }

  /** The tree with other words inside. */
  function WithWords(c: Cmd<string>, args: seq<string>): Cmd<string> {
    match c
    case Exec(_) => Exec(args)
    case Redir(d, f, m) => Redir(WithWords(d, args), f, m)
    case _ => c
  }

  lemma {:induction false} AddArgWords(buf: string, c: Cmd<Span>, w: Span)
    requires IsNest(Text(buf, c))
    ensures Text(buf, AddArg(c, w)) == WithWords(Text(buf, c), NestWords(Text(buf, c)) + [WordAt(buf, w)])
  {
    match c
    case Exec(args) => assert WordsAt(buf, args + [w]) == WordsAt(buf, args) + [WordAt(buf, w)];
    case Redir(d, _, _) => AddArgWords(buf, d, w);
    case _ =>
  }

  /** The tree after one more piece. */
  function More(t: Cmd<string>, p: Piece): Cmd<string> {
    match p
    case Arg(w, _) => WithWords(t, NestWords(t) + [w])
    case Io(op, _, f, _) => Redir(t, f, OpMode(op))
  }

  function AllMore(t: Cmd<string>, ps: seq<Piece>): Cmd<string>
    decreases |ps|
  {
    if ps == [] then t else AllMore(More(t, ps[0]), ps[1..])
  }

  lemma {:induction false} NestAgain(t: Cmd<string>, a: seq<string>, b: seq<string>)
    requires IsNest(t)
    ensures IsNest(WithWords(t, a)) && NestWords(WithWords(t, a)) == a
    ensures WithWords(WithWords(t, a), b) == WithWords(t, b) && WithWords(t, NestWords(t)) == t
  {
    if t.Redir? { NestAgain(t.cmd, a, b); }
  }

  /** Piece by piece, and all words inside all redirections, is the same. */
  lemma {:induction false} AllMoreIs(t: Cmd<string>, ps: seq<Piece>)
    requires IsNest(t)
    ensures AllMore(t, ps) == Around(WithWords(t, NestWords(t) + Words(ps)), ps)
    decreases |ps|
  {
    if ps == [] {
      NestAgain(t, NestWords(t), []);
      assert NestWords(t) + Words(ps) == NestWords(t);
    } else {
      var u := More(t, ps[0]);
      if ps[0].Arg? {
        var w := ps[0].word;
        NestAgain(t, NestWords(t) + [w], NestWords(t) + [w] + Words(ps[1..]));
        assert NestWords(t) + ([w] + Words(ps[1..])) == NestWords(t) + [w] + Words(ps[1..]);
      } else {
        assert NestWords(t) + ([] + Words(ps[1..])) == NestWords(t) + Words(ps[1..]);
      }
      AllMoreIs(u, ps[1..]);
    }
  }

  lemma MeansArg(buf: string, c: Cmd<Span>, t: Cmd<string>, w: Span, p: Piece)
    requires Means(buf, c, t) && IsNest(t) && p.Arg? && WordAt(buf, w) == p.word
    ensures Means(buf, AddArg(c, w), More(t, p)) && IsNest(More(t, p))
  {
    assert Names(true, OfMeaning(t));
    AddArgWords(buf, c, w);
    NestAgain(t, NestWords(t) + [p.word], []);
  }

  lemma MeansIo(buf: string, c: Cmd<Span>, t: Cmd<string>, f: Span, p: Piece)
    requires Means(buf, c, t) && p.Io? && WordAt(buf, f) == p.file
    ensures Means(buf, Redir(c, f, OpMode(p.op)), Redir(t, p.file, OpMode(p.op)))
  {
    assert Names(true, OfMeaning(t));
  }

  /** The pieces of a simple command parse to it. */
  lemma {:induction false} PiecesOf(buf: string, i: nat, ps: seq<Piece>, v: string, c: Cmd<Span>, n: nat,
                                    t: Cmd<string>, k: nat)
    returns (d: Cmd<Span>)
    requires FinePieces(ps) && PiecesShown(ps, v) && At(buf, i, v) && k == i + |v| && Follow(buf, k, 3)
    requires n + |Words(ps)| < MAXARGS && Means(buf, c, t) && IsNest(t)
    ensures Rests(c, n, buf, i, d, k) && Means(buf, d, AllMore(t, ps))
    decreases |ps|
  {
    if ps == [] {
      var a, rest := PiecesOpen(ps, v);
      RestEnds(c, n, buf, i);
      d := c;
    } else {
      var j, rest := PieceLayout(buf, i, ps, v, k);
      if ps[0].Arg? {
        d := ArgThen(buf, i, ps, c, n, t, j, rest, k);
      } else {
        d := IoThen(buf, i, ps, c, n, t, j, rest, k);
      }
    }
  }

  lemma {:induction false} ArgThen(buf: string, i: nat, ps: seq<Piece>, c: Cmd<Span>, n: nat, t: Cmd<string>,
                                   j: nat, rest: string, k: nat)
    returns (d: Cmd<Span>)
    requires ps != [] && ps[0].Arg? && PieceAt(buf, i, ps[0], j) && FinePieces(ps[1..]) && PiecesShown(ps[1..], rest)
    requires At(buf, j, rest) && k == j + |rest| && Follow(buf, k, 3)
    requires n + |Words(ps)| < MAXARGS && Means(buf, c, t) && IsNest(t)
    ensures Rests(c, n, buf, i, d, k) && Means(buf, d, AllMore(t, ps))
    decreases |ps|, 0
  {
    var w := ArgRead(buf, i, ps[0], j);
    MeansArg(buf, c, t, w, ps[0]);
    d := PiecesOf(buf, j, ps[1..], rest, AddArg(c, w), n + 1, More(t, ps[0]), k);
    RestArg(c, n, buf, i, w, j, d, k);
  }

  lemma {:induction false} IoThen(buf: string, i: nat, ps: seq<Piece>, c: Cmd<Span>, n: nat, t: Cmd<string>,
                                  j: nat, rest: string, k: nat)
    returns (d: Cmd<Span>)
    requires ps != [] && ps[0].Io? && PieceAt(buf, i, ps[0], j) && FinePieces(ps[1..]) && PiecesShown(ps[1..], rest)
    requires At(buf, j, rest) && k == j + |rest| && Follow(buf, k, 3)
    requires n + |Words(ps)| < MAXARGS && Means(buf, c, t) && IsNest(t)
    ensures Rests(c, n, buf, i, d, k) && Means(buf, d, AllMore(t, ps))
    decreases |ps|, 0
  {
    var f := RedirRead(buf, i, ps[0], j);
    var m := OpMode(ps[0].op);
    MeansIo(buf, c, t, f, ps[0]);
    d := PiecesOf(buf, j, ps[1..], rest, Redir(c, f, m), n, More(t, ps[0]), k);
    RestRedir(c, n, buf, i, f, m, j, d, k);
  }

  /** The redirections behind a closing parenthesis. */
  lemma {:induction false} RedirsOf(buf: string, i: nat, ps: seq<Piece>, v: string, c: Cmd<Span>, t: Cmd<string>,
                                    k: nat)
    returns (d: Cmd<Span>)
    requires FinePieces(ps) && AllRedirs(ps) && PiecesShown(ps, v) && At(buf, i, v) && k == i + |v| && Follow(buf, k, 3)
    requires Means(buf, c, t)
    ensures Redirs(c, buf, i, d, k) && Means(buf, d, Around(t, ps))
    decreases |ps|
  {
    if ps == [] {
      var a, rest := PiecesOpen(ps, v);
      NoRedirs(c, buf, i);
      d := c;
    } else {
      var p := ps[0];
      var j, rest := PieceLayout(buf, i, ps, v, k);
      var f := RedirRead(buf, i, p, j);
      MeansIo(buf, c, t, f, p);
      d := RedirsOf(buf, j, ps[1..], rest, Redir(c, f, OpMode(p.op)), Redir(t, p.file, OpMode(p.op)), k);
      RedirsRedir(c, buf, i, f, OpMode(p.op), j, d, k);
    }
  }

  // ------------------------------------------------------------------
  // Lines, kept folded

  ghost predicate Shown(c: Source, v: string) {
    forall u: bool {:trigger Names(u, OfSource(c))} :: Names(u, OfSource(c)) ==> v == Show(c)
  }

  ghost predicate Fine(c: Source) {
    forall u: bool {:trigger Names(u, OfSource(c))} :: Names(u, OfSource(c)) ==> Good(c)
  }

  lemma OpenSimple(c: Source, v: string)
    requires c.Simple? && Shown(c, v) && Fine(c)
    ensures PiecesShown(c.pieces, v) && FinePieces(c.pieces) && |Words(c.pieces)| < MAXARGS
  {
    assert Names(true, OfSource(c));
  }

  lemma OpenParen(c: Source, v: string) returns (b: string, rs: string)
    requires c.Paren? && Shown(c, v) && Fine(c)
    ensures Shown(c.body, b) && Fine(c.body) && PiecesShown(c.redirs, rs) && FinePieces(c.redirs) && AllRedirs(c.redirs)
    ensures Blank(c.open) && Blank(c.close) && v == "(" + (c.open + (b + (")" + (c.close + rs))))
  {
    assert Names(true, OfSource(c));
    b, rs := Show(c.body), ShowPieces(c.redirs);
  }

  lemma OpenTwo(c: Source, v: string) returns (l: string, r: string)
    requires (c.Piped? || c.Listed?) && Shown(c, v) && Fine(c)
    ensures Shown(c.left, l) && Fine(c.left) && Shown(c.right, r) && Fine(c.right) && Blank(c.sp)
    ensures if c.Piped? then Tight(c.left) == 3 && Tight(c.right) >= 2 else Tight(c.left) >= 1
    ensures v == l + ([if c.Piped? then '|' else ';'] + (c.sp + r))
  {
    assert Names(true, OfSource(c));
    l, r := Show(c.left), Show(c.right);
  }

  lemma OpenBacked(c: Source, v: string) returns (d: string)
    requires c.Backed? && Shown(c, v) && Fine(c)
    ensures Shown(c.cmd, d) && Fine(c.cmd) && Blank(c.sp) && Tight(c.cmd) >= 1 && v == d + (['&'] + (c.sp + ""))
  {
    assert Names(true, OfSource(c));
    d := Show(c.cmd);
    assert ['&'] + (c.sp + "") == "&" + c.sp;
  }

  /** Text, an operator, white space, and the rest. */
  lemma OperatorLayout(buf: string, i: nat, l: string, op: char, sp: string, r: string)
    requires At(buf, i, l + ([op] + (sp + r)))
    ensures var j := i + |l|;
      At(buf, i, l) && j < |buf| && buf[j] == op && At(buf, j + 1, sp) && At(buf, j + 1 + |sp|, r)
    ensures |l + ([op] + (sp + r))| == |l| + 1 + |sp| + |r| && i + |l| + 1 + |sp| + |r| <= |buf|
  {
    AtSplit(buf, i, l, [op] + (sp + r));
    AtThree(buf, i + |l|, [op], sp, r);
    AtChar(buf, i + |l|, op);
  }

  lemma ParenLayout(buf: string, i: nat, open: string, b: string, close: string, rs: string)
    requires At(buf, i, "(" + (open + (b + (")" + (close + rs)))))
    ensures i < |buf| && buf[i] == '(' && At(buf, i + 1, open) && At(buf, i + 1 + |open|, b)
    ensures var j := i + 1 + |open| + |b|;
      j < |buf| && buf[j] == ')' && At(buf, j + 1, close) && At(buf, j + 1 + |close|, rs)
    ensures |"(" + (open + (b + (")" + (close + rs))))| == 1 + |open| + |b| + 1 + |close| + |rs|
  {
    AtThree(buf, i, "(", open, b + (")" + (close + rs)));
    AtChar(buf, i, '(');
    OperatorLayout(buf, i + 1 + |open|, b, ')', close, rs);
  }

  /** A line before the end or an operator does not begin with white space. */
  lemma Begins(buf: string, i: nat, c: Source, v: string)
    requires Fine(c) && Shown(c, v) && At(buf, i, v) && Follow(buf, i + |v|, 3)
    ensures Solid(buf, i)
  {
    match c {
      case Simple(ps) =>
        OpenSimple(c, v);
        PiecesBegin(buf, i, ps, v);
      case Paren(open, _, close, _) =>
        var b, rs := OpenParen(c, v);
        ParenLayout(buf, i, open, b, close, rs);
      case Backed(d, sp) =>
        var w := OpenBacked(c, v);
        OperatorLayout(buf, i, w, '&', sp, "");
        Begins(buf, i, d, w);
      case _ =>
        var l, r := OpenTwo(c, v);
        OperatorLayout(buf, i, l, if c.Piped? then '|' else ';', c.sp, r);
        Begins(buf, i, c.left, l);
    }
  }

  // ------------------------------------------------------------------
  // Steps of the parser

  ghost predicate Execs(buf: string, i: nat, c: Cmd<Span>, k: nat) {
    forall u: bool {:trigger Names(u, OfExec(i, k))} ::
      Names(u, OfExec(i, k)) ==> i <= |buf| && ParseExec(buf, i) == Ok(c, k)
  }

  ghost predicate Pipes(buf: string, i: nat, c: Cmd<Span>, k: nat) {
    forall u: bool {:trigger Names(u, OfPipe(i, k))} ::
      Names(u, OfPipe(i, k)) ==> i <= |buf| && ParsePipe(buf, i) == Ok(c, k)
  }

  /** parseline at i has read c up to k, where more '&' may come. */
  ghost predicate Backs(buf: string, i: nat, c: Cmd<Span>, k: nat) {
    forall u: bool {:trigger Names(u, OfBack(i, k))} :: Names(u, OfBack(i, k)) ==>
      && i <= |buf| && k <= |buf| && ParsePipe(buf, i).Ok?
      && ParseBacks(ParsePipe(buf, i).cmd, buf, ParsePipe(buf, i).pos) == ParseBacks(c, buf, k)
  }

  ghost predicate Lines(buf: string, i: nat, c: Cmd<Span>, k: nat) {
    forall u: bool {:trigger Names(u, OfLine(i, k))} ::
      Names(u, OfLine(i, k)) ==> i <= |buf| && ParseLine(buf, i) == Ok(c, k)
  }

  lemma ExecStep(buf: string, i: nat, c: Cmd<Span>, k: nat)
    requires Solid(buf, i) && (i < |buf| ==> buf[i] != '(') && Rests(Exec([]), 0, buf, i, c, k)
    ensures Execs(buf, i, c, k)
  {
    assert Names(true, OfRest(i, k));
    SkipSolid(buf, i);
  }

  lemma BlockInside(buf: string, i: nat, a: nat, c: Cmd<Span>, j: nat, b: nat)
    requires i < |buf| && Peek(buf, i, "(") && GetToken(buf, Skip(buf, i)).1 == a && Lines(buf, a, c, j)
    requires j < |buf| && Peek(buf, j, ")") && GetToken(buf, Skip(buf, j)).1 == b
    ensures ParseBlock(buf, i) == ParseRedirs(c, buf, b)
  {
    assert Names(true, OfLine(a, j));
  }

  lemma SymbolNext(buf: string, i: nat, sp: string)
    requires i < |buf| && (buf[i] == '(' || buf[i] == ')') && Blank(sp) && At(buf, i + 1, sp)
      && Solid(buf, i + 1 + |sp|)
    ensures Peek(buf, i, [buf[i]]) && GetToken(buf, Skip(buf, i)).1 == i + 1 + |sp|
  {
    TokenOfSymbol(buf, i, sp);
    assert Names(true, OfToken(i, i + 1 + |sp|));
    SkipSolid(buf, i);
  }

  lemma BlockStep(buf: string, i: nat, open: string, c: Cmd<Span>, j: nat, close: string, d: Cmd<Span>, k: nat)
    requires i < |buf| && buf[i] == '(' && Blank(open) && At(buf, i + 1, open) && Solid(buf, i + 1 + |open|)
    requires Lines(buf, i + 1 + |open|, c, j) && j < |buf| && buf[j] == ')'
    requires Blank(close) && At(buf, j + 1, close) && Solid(buf, j + 1 + |close|)
      && Redirs(c, buf, j + 1 + |close|, d, k)
    ensures Execs(buf, i, d, k)
  {
    SymbolNext(buf, i, open);
    SymbolNext(buf, j, close);
    BlockInside(buf, i, i + 1 + |open|, c, j, j + 1 + |close|);
    assert Names(true, OfRedirs(j + 1 + |close|, k));
    SkipSolid(buf, i);
  }

  /** The operator at j is read. */
  lemma OperatorRead(buf: string, j: nat, sp: string)
    requires j < |buf| && (buf[j] == '|' || buf[j] == '&' || buf[j] == ';')
    requires Blank(sp) && At(buf, j + 1, sp) && Solid(buf, j + 1 + |sp|)
    ensures Skip(buf, j) == j && GetToken(buf, j).1 == j + 1 + |sp|
  {
    TokenOfSymbol(buf, j, sp);
    assert Names(true, OfToken(j, j + 1 + |sp|));
    SkipSolid(buf, j);
  }

  lemma PipeStep(buf: string, i: nat, l: Cmd<Span>, j: nat, sp: string, r: Cmd<Span>, k: nat)
    requires Execs(buf, i, l, j) && j < |buf| && buf[j] == '|' && Blank(sp) && At(buf, j + 1, sp)
    requires Solid(buf, j + 1 + |sp|) && Pipes(buf, j + 1 + |sp|, r, k)
    ensures Pipes(buf, i, Pipe(l, r), k)
  {
    OperatorRead(buf, j, sp);
    assert Names(true, OfExec(i, j)) && Names(true, OfPipe(j + 1 + |sp|, k));
  }

  lemma PipeEnds(buf: string, i: nat, c: Cmd<Span>, k: nat)
    requires Execs(buf, i, c, k) && Follow(buf, k, 2)
    ensures Pipes(buf, i, c, k)
  {
    assert Names(true, OfExec(i, k));
    SkipSolid(buf, k);
  }

  lemma BackStarts(buf: string, i: nat, c: Cmd<Span>, k: nat)
    requires Pipes(buf, i, c, k) && k <= |buf|
    ensures Backs(buf, i, c, k)
  {
    assert Names(true, OfPipe(i, k));
  }

  lemma BackStep(buf: string, i: nat, c: Cmd<Span>, j: nat, sp: string)
    requires Backs(buf, i, c, j) && j < |buf| && buf[j] == '&' && Blank(sp) && At(buf, j + 1, sp)
      && Solid(buf, j + 1 + |sp|)
    ensures Backs(buf, i, Back(c), j + 1 + |sp|)
  {
    OperatorRead(buf, j, sp);
    assert Names(true, OfBack(i, j));
  }

  lemma LineEnds(buf: string, i: nat, c: Cmd<Span>, k: nat)
    requires Backs(buf, i, c, k) && Follow(buf, k, 0)
    ensures Lines(buf, i, c, k)
  {
    assert Names(true, OfBack(i, k));
    SkipSolid(buf, k);
  }

  lemma ListStep(buf: string, i: nat, l: Cmd<Span>, j: nat, sp: string, r: Cmd<Span>, k: nat)
    requires Backs(buf, i, l, j) && j < |buf| && buf[j] == ';' && Blank(sp) && At(buf, j + 1, sp)
    requires Solid(buf, j + 1 + |sp|) && Lines(buf, j + 1 + |sp|, r, k)
    ensures Lines(buf, i, List(l, r), k)
  {
    OperatorRead(buf, j, sp);
    assert Names(true, OfBack(i, j)) && Names(true, OfLine(j + 1 + |sp|, k));
  }

  lemma MeansTwo(buf: string, l: Cmd<Span>, r: Cmd<Span>, t: Cmd<string>)
    requires (t.Pipe? || t.List?) && Means(buf, l, t.left) && Means(buf, r, t.right)
    ensures Means(buf, if t.Pipe? then Pipe(l, r) else List(l, r), t)
  {
    assert Names(true, OfMeaning(t.left)) && Names(true, OfMeaning(t.right));
  }

  lemma MeansBack(buf: string, d: Cmd<Span>, t: Cmd<string>)
    requires t.Back? && Means(buf, d, t.cmd)
    ensures Means(buf, Back(d), t)
  {
    assert Names(true, OfMeaning(t.cmd));
  }

  // ------------------------------------------------------------------
  // Lines

  lemma SimpleOf(buf: string, i: nat, c: Source, v: string, k: nat) returns (d: Cmd<Span>)
    requires c.Simple? && Fine(c) && Shown(c, v) && At(buf, i, v) && k == i + |v| && Follow(buf, k, 3)
    ensures Execs(buf, i, d, k) && Means(buf, d, Meaning(c))
  {
    OpenSimple(c, v);
    PiecesBegin(buf, i, c.pieces, v);
    SimpleBegins(buf, i, c.pieces, v);
    assert WordsAt(buf, []) == [];
    d := PiecesOf(buf, i, c.pieces, v, Exec([]), 0, Exec([]), k);
    AllMoreIs(Exec([]), c.pieces);
    assert [] + Words(c.pieces) == Words(c.pieces);
    ExecStep(buf, i, d, k);
  }

  lemma SimpleBegins(buf: string, i: nat, ps: seq<Piece>, v: string)
    requires FinePieces(ps) && PiecesShown(ps, v) && At(buf, i, v) && Follow(buf, i + |v|, 3)
    ensures i < |buf| ==> buf[i] != '('
  {
    var a, rest := PiecesOpen(ps, v);
    if ps != [] {
      AtSplit(buf, i, a, rest);
      PieceBegins(buf, i, ps[0]);
    }
  }

  lemma ParenOf(buf: string, i: nat, c: Source, v: string, k: nat) returns (d: Cmd<Span>)
    requires c.Paren? && Fine(c) && Shown(c, v) && At(buf, i, v) && k == i + |v| && Follow(buf, k, 3)
    ensures Execs(buf, i, d, k) && Means(buf, d, Meaning(c))
    decreases c, 0
  {
    var b, rs := OpenParen(c, v);
    ParenLayout(buf, i, c.open, b, c.close, rs);
    var a := i + 1 + |c.open|;
    var j := a + |b|;
    Begins(buf, a, c.body, b);
    PiecesBegin(buf, j + 1 + |c.close|, c.redirs, rs);
    var e := LineOf(buf, a, c.body, b, j);
    d := RedirsOf(buf, j + 1 + |c.close|, c.redirs, rs, e, Meaning(c.body), k);
    BlockStep(buf, i, c.open, e, j, c.close, d, k);
  }

  /** Where parseexec is called. */
  lemma ExecOf(buf: string, i: nat, c: Source, v: string, k: nat) returns (d: Cmd<Span>)
    requires Tight(c) == 3 && Fine(c) && Shown(c, v) && At(buf, i, v) && k == i + |v| && Follow(buf, k, 3)
    ensures Execs(buf, i, d, k) && Means(buf, d, Meaning(c))
    decreases c, 1
  {
    if c.Simple? { d := SimpleOf(buf, i, c, v, k); } else { d := ParenOf(buf, i, c, v, k); }
  }

  /** Where parsepipe is called. */
  lemma PipeOf(buf: string, i: nat, c: Source, v: string, k: nat) returns (d: Cmd<Span>)
    requires Tight(c) >= 2 && Fine(c) && Shown(c, v) && At(buf, i, v) && k == i + |v| && Follow(buf, k, 2)
    ensures Pipes(buf, i, d, k) && Means(buf, d, Meaning(c))
    decreases c, 2
  {
    if !c.Piped? {
      d := ExecOf(buf, i, c, v, k);
      PipeEnds(buf, i, d, k);
    } else {
      var l, r := OpenTwo(c, v);
      OperatorLayout(buf, i, l, '|', c.sp, r);
      var j := i + |l|;
      var x := ExecOf(buf, i, c.left, l, j);
      Begins(buf, j + 1 + |c.sp|, c.right, r);
      var y := PipeOf(buf, j + 1 + |c.sp|, c.right, r, k);
      MeansTwo(buf, x, y, Meaning(c));
      PipeStep(buf, i, x, j, c.sp, y, k);
      d := Pipe(x, y);
    }
  }

  /** Where parseline is called, up to a ';'. */
  lemma BackOf(buf: string, i: nat, c: Source, v: string, k: nat) returns (d: Cmd<Span>)
    requires Tight(c) >= 1 && Fine(c) && Shown(c, v) && At(buf, i, v) && k == i + |v| && Follow(buf, k, 2)
    ensures Backs(buf, i, d, k) && Means(buf, d, Meaning(c))
    decreases c, 3
  {
    if !c.Backed? {
      d := PipeOf(buf, i, c, v, k);
      BackStarts(buf, i, d, k);
    } else {
      var w := OpenBacked(c, v);
      OperatorLayout(buf, i, w, '&', c.sp, "");
      var x := BackOf(buf, i, c.cmd, w, i + |w|);
      MeansBack(buf, x, Meaning(c));
      BackStep(buf, i, x, i + |w|, c.sp);
      d := Back(x);
    }
  }

  /** A line before its end or a closing parenthesis parses to what it means. */
  lemma LineOf(buf: string, i: nat, c: Source, v: string, k: nat) returns (d: Cmd<Span>)
    requires Fine(c) && Shown(c, v) && At(buf, i, v) && k == i + |v| && Follow(buf, k, 0)
    ensures Lines(buf, i, d, k) && Means(buf, d, Meaning(c))
    decreases c, 4
  {
    if !c.Listed? {
      d := BackOf(buf, i, c, v, k);
      LineEnds(buf, i, d, k);
    } else {
      var l, r := OpenTwo(c, v);
      OperatorLayout(buf, i, l, ';', c.sp, r);
      var j := i + |l|;
      var x := BackOf(buf, i, c.left, l, j);
      Begins(buf, j + 1 + |c.sp|, c.right, r);
      var y := LineOf(buf, j + 1 + |c.sp|, c.right, r, k);
      MeansTwo(buf, x, y, Meaning(c));
      ListStep(buf, i, x, j, c.sp, y, k);
      d := List(x, y);
    }
  }

  /** White space before a line changes nothing. */
  lemma LeadingSpace(buf: string, i: nat)
    requires i <= |buf|
    ensures ParseLine(buf, i) == ParseLine(buf, Skip(buf, i))
  {
    SkipSolid(buf, Skip(buf, i));
    assert ParseExec(buf, i) == ParseExec(buf, Skip(buf, i));
    assert ParsePipe(buf, i) == ParsePipe(buf, Skip(buf, i));
  }

  /** Every line of the grammar, with white space before it too, parses to the tree it means. */
  lemma RoundTrip(pre: string, c: Source)
    requires Blank(pre) && Good(c)
    ensures var r := ParseCmd(pre + Show(c)); r.Ok? && Text(pre + Show(c), r.cmd) == Meaning(c)
  {
    var buf := pre + Show(c);
    var k := |buf|;
    assert buf[0..|pre + Show(c)|] == pre + Show(c);
    AtSplit(buf, 0, pre, Show(c));
    Begins(buf, |pre|, c, Show(c));
    SkipBlank(buf, 0, pre);
    var d := LineOf(buf, |pre|, c, Show(c), k);
    LeadingSpace(buf, 0);
    WholeLine(buf, |pre|, d, Meaning(c));
  }

  lemma WholeLine(buf: string, i: nat, c: Cmd<Span>, t: Cmd<string>)
    requires Lines(buf, i, c, |buf|) && Means(buf, c, t) && i <= |buf| && ParseLine(buf, 0) == ParseLine(buf, i)
    ensures ParseCmd(buf) == Ok(c, |buf|) && Text(buf, c) == t
  {
    assert ParseLine(buf, i) == Ok(c, |buf|) by { assert Names(true, OfLine(i, |buf|)); }
    assert Text(buf, c) == t by { assert Names(true, OfMeaning(t)); }
  }
}
