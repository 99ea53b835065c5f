/** Every command tree can be written as a line, with only the parentheses that the grammar needs or
    with more, and parses back. */
module ShellLayout {
  import opened ShellSyntax
  import opened ShellSource
  import opened ShellRoundTrip

  /** Legal words, and no more of them than the shell takes. */
  predicate Legal(t: Cmd<string>) {
    match t
    case Exec(args) => |args| < MAXARGS && forall k | 0 <= k < |args| :: LegalWord(args[k])
    case Redir(d, f, _) => Legal(d) && LegalWord(f)
    case Pipe(l, r) => Legal(l) && Legal(r)
    case List(l, r) => Legal(l) && Legal(r)
    case Back(d) => Legal(d)
  }

  /** How tightly a tree binds. */
  function Rank(t: Cmd<string>): nat {
    match t
    case List(_, _) => 0
    case Back(_) => 1
    case Pipe(_, _) => 2
    case _ => 3
  }

  /** Which parts of a tree to write in parentheses although the grammar does not need them. */
  type Style = Cmd<string> -> bool

  function Plain(args: seq<string>): (ps: seq<Piece>)
    ensures |ps| == |args|
  {
    seq(|args|, k requires 0 <= k < |args| => Arg(args[k], " "))
  }

  /** A command with a redirection behind it. */
  function Behind(c: Source, p: Piece): Source {
    match c
    case Simple(ps) => Simple(ps + [p])
    case Paren(open, body, close, rs) => Paren(open, body, close, rs + [p])
    case _ => c
  }

  /** A tree where one of at least the given rank is expected: in parentheses where it binds less
      tightly than that, and where the style asks for them. */
  function LayoutIn(t: Cmd<string>, rank: nat, style: Style): Source
    decreases t, 1
  {
    if style(t) || Rank(t) < rank then Paren("", Layout(t, style), "", []) else Layout(t, style)
  }

  /** A tree as a line. Pipes and lists associate to the right, so only the left side of one needs
      parentheses around another. */
  function Layout(t: Cmd<string>, style: Style): Source
    decreases t, 0
  {
    match t
    case Exec(args) => Simple(Plain(args))
    case Redir(d, f, m) => Behind(LayoutIn(d, 3, style), Io(if m == ReadOnly then In else Out, "", f, " "))
    case Pipe(l, r) => Piped(LayoutIn(l, 3, style), "", LayoutIn(r, 2, style))
    case List(l, r) => Listed(LayoutIn(l, 1, style), "", LayoutIn(r, 0, style))
    case Back(d) => Backed(LayoutIn(d, 1, style), "")
  }

  lemma {:induction false} PlainWords(args: seq<string>)
    ensures Words(Plain(args)) == args
    decreases |args|
  {
    if args != [] {
      PlainWords(args[1..]);
      assert Plain(args)[1..] == Plain(args[1..]);
      assert args == [args[0]] + args[1..];
    }
  }

  lemma {:induction false} PlainAround(d: Cmd<string>, args: seq<string>)
    ensures Around(d, Plain(args)) == d
    decreases |args|
  {
    if args != [] {
      PlainAround(d, args[1..]);
      assert Plain(args)[1..] == Plain(args[1..]);
    }
  }

  lemma {:induction false} AroundMore(d: Cmd<string>, ps: seq<Piece>, p: Piece)
    requires p.Io?
    ensures Around(d, ps + [p]) == Redir(Around(d, ps), p.file, OpMode(p.op)) && Words(ps + [p]) == Words(ps)
    decreases |ps|
  {
    if ps == [] {
      assert ps + [p] == [p] && [p][1..] == [];
    } else {
      AroundMore(if ps[0].Io? then Redir(d, ps[0].file, OpMode(ps[0].op)) else d, ps[1..], p);
      assert (ps + [p])[1..] == ps[1..] + [p];
    }
  }

  lemma BehindOk(c: Source, p: Piece)
    requires Good(c) && Tight(c) == 3 && p.Io? && GoodPiece(p)
    ensures Good(Behind(c, p)) && Tight(Behind(c, p)) == 3
    ensures Meaning(Behind(c, p)) == Redir(Meaning(c), p.file, OpMode(p.op))
  {
    match c
    case Simple(ps) => AroundMore(Exec(Words(ps)), ps, p);
    case Paren(_, body, _, rs) => AroundMore(Meaning(body), rs, p);
  }

  lemma {:induction false} LayoutInOk(t: Cmd<string>, rank: nat, style: Style)
    requires Legal(t) && rank <= 3
    ensures var c := LayoutIn(t, rank, style); Good(c) && Tight(c) >= rank && Meaning(c) == t
    decreases t, 1
  {
    LayoutOk(t, style);
  }

  /** The line is one of the grammar and means the tree. */
  lemma {:induction false} LayoutOk(t: Cmd<string>, style: Style)
    requires Legal(t)
    ensures var c := Layout(t, style); Good(c) && Tight(c) == Rank(t) && Meaning(c) == t
    decreases t, 0
  {
    match t
    case Exec(args) =>
      PlainWords(args);
      PlainAround(Exec(args), args);
    case Redir(d, f, m) =>
      LayoutInOk(d, 3, style);
      BehindOk(LayoutIn(d, 3, style), Io(if m == ReadOnly then In else Out, "", f, " "));
    case Pipe(l, r) =>
      LayoutInOk(l, 3, style);
      LayoutInOk(r, 2, style);
    case List(l, r) =>
      LayoutInOk(l, 1, style);
      LayoutInOk(r, 0, style);
    case Back(d) =>
      LayoutInOk(d, 1, style);
  }

  /** Every legal tree, written in any style and parsed, comes back. With the style that asks for no
      parentheses, only those are written that precedence and associativity need. */
  lemma TreeRoundTrip(t: Cmd<string>, style: Style)
    requires Legal(t)
    ensures var buf := Show(Layout(t, style)); ParseCmd(buf).Ok? && Text(buf, ParseCmd(buf).cmd) == t
  {
    LayoutOk(t, style);
    RoundTrip("", Layout(t, style));
    assert "" + Show(Layout(t, style)) == Show(Layout(t, style));
  }
}
