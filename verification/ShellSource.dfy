/** What a command line is made of: words, redirections between, before and behind them, white space,
    parentheses and operators; and the command tree it means. */
module ShellSource {
  import opened ShellSyntax

  // ------------------------------------------------------------------
  // Trees of words

  /** The words a tree of spans stands for. */
  function WordAt(buf: string, w: Span): string {
    if w.q <= w.eq <= |buf| then buf[w.q..w.eq] else ""
  }

  function WordsAt(buf: string, args: seq<Span>): (r: seq<string>)
    ensures |r| == |args|
  {
    seq(|args|, k requires 0 <= k < |args| => WordAt(buf, args[k]))
  }

  function Text(buf: string, c: Cmd<Span>): Cmd<string> {
    match c
    case Exec(args) => Exec(WordsAt(buf, args))
    case Redir(d, f, m) => Redir(Text(buf, d), WordAt(buf, f), m)
    case Pipe(l, r) => Pipe(Text(buf, l), Text(buf, r))
    case List(l, r) => List(Text(buf, l), Text(buf, r))
    case Back(d) => Back(Text(buf, d))
  }

  // ------------------------------------------------------------------
  // Lines

  /** `<`, `>` or `>>`. */
  datatype Op = In | Out | OutEnd

  /** A word, or a redirection and its file; each token with the white space after it. */
  datatype Piece = Arg(word: string, sp: string) | Io(op: Op, gap: string, file: string, sp: string)

  /** A line: words and redirections, a line in parentheses with redirections behind it, or one or
      two lines with an operator. White space follows each parenthesis and operator. */
  datatype Source =
    | Simple(pieces: seq<Piece>)
    | Paren(open: string, body: Source, close: string, redirs: seq<Piece>)
    | Piped(left: Source, sp: string, right: Source)
    | Listed(left: Source, sp: string, right: Source)
    | Backed(cmd: Source, sp: string)

  function OpText(op: Op): string { match op case In => "<" case Out => ">" case OutEnd => ">>" }

  function OpMode(op: Op): Mode { if op == In then ReadOnly else WriteCreate }

  function ShowPiece(p: Piece): string {
    match p
    case Arg(w, sp) => w + sp
    case Io(op, gap, f, sp) => OpText(op) + (gap + (f + sp))
  }

  function ShowPieces(ps: seq<Piece>): string {
    if ps == [] then "" else ShowPiece(ps[0]) + ShowPieces(ps[1..])
  }

  /** The characters of a line. */
  function Show(c: Source): string {
    match c
    case Simple(ps) => ShowPieces(ps)
    case Paren(open, body, close, rs) => "(" + (open + (Show(body) + (")" + (close + ShowPieces(rs)))))
    case Piped(l, sp, r) => Show(l) + ("|" + (sp + Show(r)))
    case Listed(l, sp, r) => Show(l) + (";" + (sp + Show(r)))
    case Backed(d, sp) => Show(d) + ("&" + sp)
  }

  /** The words among the pieces, in order. */
  function Words(ps: seq<Piece>): seq<string> {
    if ps == [] then [] else (if ps[0].Arg? then [ps[0].word] else []) + Words(ps[1..])
  }

  /** The redirections among the pieces, in order, around a command: the first one innermost. */
  function Around(d: Cmd<string>, ps: seq<Piece>): Cmd<string>
    decreases |ps|
  {
    if ps == [] then d
    else Around(if ps[0].Io? then Redir(d, ps[0].file, OpMode(ps[0].op)) else d, ps[1..])
  }

  /** The tree a line means. */
  function Meaning(c: Source): Cmd<string> {
    match c
    case Simple(ps) => Around(Exec(Words(ps)), ps)
    case Paren(_, body, _, rs) => Around(Meaning(body), rs)
    case Piped(l, _, r) => Pipe(Meaning(l), Meaning(r))
    case Listed(l, _, r) => List(Meaning(l), Meaning(r))
    case Backed(d, _) => Back(Meaning(d))
  }

  // ------------------------------------------------------------------
  // Well-formed lines

  predicate LegalWord(w: string) { w != "" && forall k | 0 <= k < |w| :: IsWordChar(w[k]) }

  predicate Blank(sp: string) { forall k | 0 <= k < |sp| :: IsSpace(sp[k]) }

  predicate GoodPiece(p: Piece) {
    match p
    case Arg(w, sp) => LegalWord(w) && Blank(sp)
    case Io(_, gap, f, sp) => Blank(gap) && LegalWord(f) && Blank(sp)
  }

  /** Where two words meet there is white space between them. */
  predicate GoodPieces(ps: seq<Piece>) {
    && (forall k | 0 <= k < |ps| :: GoodPiece(ps[k]))
    && (forall k | 0 < k < |ps| && ps[k].Arg? :: ps[k - 1].sp != "")
  }

  predicate AllRedirs(ps: seq<Piece>) { forall k | 0 <= k < |ps| :: ps[k].Io? }

  /** How tightly a line binds: ';' least, then '&', then '|'; commands and parentheses most. */
  function Tight(c: Source): nat {
    match c
    case Listed(_, _, _) => 0
    case Backed(_, _) => 1
    case Piped(_, _, _) => 2
    case _ => 3
  }

  /** A line of the grammar: at most nine words a command, and operands that bind tightly enough. */
  predicate Good(c: Source) {
    match c
    case Simple(ps) => GoodPieces(ps) && |Words(ps)| < MAXARGS
    case Paren(open, body, close, rs) => Blank(open) && Good(body) && Blank(close) && GoodPieces(rs) && AllRedirs(rs)
    case Piped(l, sp, r) => Good(l) && Tight(l) == 3 && Blank(sp) && Good(r) && Tight(r) >= 2
    case Listed(l, sp, r) => Good(l) && Tight(l) >= 1 && Blank(sp) && Good(r)
    case Backed(d, sp) => Good(d) && Tight(d) >= 1 && Blank(sp)
  }
}
