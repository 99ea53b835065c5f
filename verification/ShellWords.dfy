/** nulterminate of sh.c: after it every word of the command is a C string in the line. */
module ShellWords {
  import opened ShellSyntax

  /** A span that covers a whole word of the line. */
  ghost predicate WholeWord(buf: string, w: Span) {
    && w.q < w.eq <= |buf| && (forall k | w.q <= k < w.eq :: IsWordChar(buf[k]))
    && (w.eq < |buf| ==> !IsWordChar(buf[w.eq]))
  }

  /** The words of a command. */
  ghost predicate WordOf(c: Cmd<Span>, w: Span) {
    match c
    case Exec(args) => w in args
    case Redir(d, f, _) => WordOf(d, w) || w == f
    case Pipe(l, r) => WordOf(l, w) || WordOf(r, w)
    case List(l, r) => WordOf(l, w) || WordOf(r, w)
    case Back(d) => WordOf(d, w)
  }

  /** All of them are whole words. */
  ghost predicate AllWords(buf: string, c: Cmd<Span>) {
    forall w | WordOf(c, w) :: WholeWord(buf, w)
  }

  // ------------------------------------------------------------------
  // The parser only makes whole words

  lemma {:induction false} WordEndWhole(buf: string, i: nat)
    requires i <= |buf|
    ensures var j := WordEnd(buf, i);
      (forall k | i <= k < j :: IsWordChar(buf[k])) && (j < |buf| ==> !IsWordChar(buf[j]))
        && (i < |buf| && IsWordChar(buf[i]) ==> i < j)
    decreases |buf| - i
  {
    if i < |buf| && IsWordChar(buf[i]) { WordEndWhole(buf, i + 1); }
  }

  lemma TokenWhole(buf: string, i: nat)
    requires i <= |buf| && GetToken(buf, i).0.Word?
    ensures WholeWord(buf, GetToken(buf, i).0.w)
  {
    WordEndWhole(buf, Skip(buf, i));
  }

  lemma {:induction false} RedirsWhole(cmd: Cmd<Span>, buf: string, i: nat)
    requires i <= |buf| && AllWords(buf, cmd) && ParseRedirs(cmd, buf, i).Ok?
    ensures AllWords(buf, ParseRedirs(cmd, buf, i).cmd)
    decreases |buf| - i
  {
    if Peek(buf, i, "<>") {
      var t := GetToken(buf, Skip(buf, i));
      var f := GetToken(buf, t.1);
      TokenWhole(buf, t.1);
      RedirsWhole(Redir(cmd, f.0.w, if t.0 == Symbol('<') then ReadOnly else WriteCreate), buf, f.1);
    }
  }

  lemma {:induction false} AddArgWord(c: Cmd<Span>, w: Span, x: Span)
    requires WordOf(AddArg(c, w), x)
    ensures WordOf(c, x) || x == w
  {
    if c.Redir? && x != c.file { AddArgWord(c.cmd, w, x); }
  }

  /** One word more, and its redirections. */
  lemma OneArgWhole(ret: Cmd<Span>, buf: string, j: nat)
    requires j <= |buf| && AllWords(buf, ret) && GetToken(buf, j).0.Word?
    requires ParseRedirs(AddArg(ret, GetToken(buf, j).0.w), buf, GetToken(buf, j).1).Ok?
    ensures AllWords(buf, ParseRedirs(AddArg(ret, GetToken(buf, j).0.w), buf, GetToken(buf, j).1).cmd)
  {
    var t := GetToken(buf, j);
    TokenWhole(buf, j);
    forall x | WordOf(AddArg(ret, t.0.w), x) ensures WholeWord(buf, x) { AddArgWord(ret, t.0.w, x); }
    RedirsWhole(AddArg(ret, t.0.w), buf, t.1);
  }

  lemma {:induction false} ArgsWhole(ret: Cmd<Span>, argc: nat, buf: string, i: nat, all: Parse)
    requires i <= |buf| && AllWords(buf, ret) && all.Ok? && all == ParseArgs(ret, argc, buf, i)
    ensures AllWords(buf, all.cmd)
    decreases |buf| - i
  {
    if !Peek(buf, i, "|)&;") {
      ArgsStep(ret, argc, buf, i);
      var t := GetToken(buf, Skip(buf, i));
      if t.0.Word? {
        var r := ParseRedirs(AddArg(ret, t.0.w), buf, t.1);
        OneArgWhole(ret, buf, Skip(buf, i));
        ArgsWhole(r.cmd, argc + 1, buf, r.pos, all);
      }
    }
  }

  lemma {:induction false} BacksWhole(cmd: Cmd<Span>, buf: string, i: nat)
    requires i <= |buf| && AllWords(buf, cmd)
    ensures AllWords(buf, ParseBacks(cmd, buf, i).0)
    decreases |buf| - i
  {
    if Peek(buf, i, "&") { BacksWhole(Back(cmd), buf, GetToken(buf, Skip(buf, i)).1); }
  }

  lemma {:induction false} ExecWhole(buf: string, i: nat)
    requires i <= |buf| && ParseExec(buf, i).Ok?
    ensures AllWords(buf, ParseExec(buf, i).cmd)
    decreases |buf| - i, 1
  {
    if Peek(buf, i, "(") {
      BlockWhole(buf, Skip(buf, i));
    } else {
      RedirsWhole(Exec([]), buf, Skip(buf, i));
      var r := ParseRedirs(Exec([]), buf, Skip(buf, i));
      ArgsWhole(r.cmd, 0, buf, r.pos, ParseExec(buf, i));
    }
  }

  lemma {:induction false} BlockWhole(buf: string, i: nat)
    requires i <= |buf| && ParseBlock(buf, i).Ok?
    ensures AllWords(buf, ParseBlock(buf, i).cmd)
    decreases |buf| - i, 0
  {
    var j := GetToken(buf, Skip(buf, i)).1;
    LineWhole(buf, j);
    var r := ParseLine(buf, j);
    RedirsWhole(r.cmd, buf, GetToken(buf, Skip(buf, r.pos)).1);
  }

  lemma {:induction false} PipeWhole(buf: string, i: nat)
    requires i <= |buf| && ParsePipe(buf, i).Ok?
    ensures AllWords(buf, ParsePipe(buf, i).cmd)
    decreases |buf| - i, 2
  {
    ExecWhole(buf, i);
    var l := ParseExec(buf, i);
    if Peek(buf, l.pos, "|") { PipeWhole(buf, GetToken(buf, Skip(buf, l.pos)).1); }
  }

  lemma {:induction false} LineWhole(buf: string, i: nat)
    requires i <= |buf| && ParseLine(buf, i).Ok?
    ensures AllWords(buf, ParseLine(buf, i).cmd)
    decreases |buf| - i, 3
  {
    PipeWhole(buf, i);
    var l := ParsePipe(buf, i);
    BacksWhole(l.cmd, buf, l.pos);
    var b := ParseBacks(l.cmd, buf, l.pos);
    if Peek(buf, b.1, ";") { LineWhole(buf, GetToken(buf, Skip(buf, b.1)).1); }
  }

  // ------------------------------------------------------------------
  // nulterminate

  const NUL: char := '\0'

  /** The positions where a command's words end. */
  ghost function Ends(c: Cmd<Span>): set<nat> {
    match c
    case Exec(args) => set k | 0 <= k < |args| :: args[k].eq
    case Redir(d, f, _) => Ends(d) + {f.eq}
    case Pipe(l, r) => Ends(l) + Ends(r)
    case List(l, r) => Ends(l) + Ends(r)
    case Back(d) => Ends(d)
  }

  /** From line s to line t exactly the positions of `ends` were overwritten with NUL. */
  ghost predicate Cut(s: seq<char>, t: seq<char>, ends: set<nat>) {
    |t| == |s| && forall k: nat | k < |s| :: t[k] == if k in ends then NUL else s[k]
  }

  lemma CutTwice(s: seq<char>, t: seq<char>, u: seq<char>, d: set<nat>, e: set<nat>)
    requires Cut(s, t, d) && Cut(t, u, e)
    ensures Cut(s, u, d + e)
  {
  }

  /** The C string at position q. */
  function CString(s: seq<char>, q: nat): string
    decreases |s| - q
  {
    if q < |s| && s[q] != NUL then [s[q]] + CString(s, q + 1) else ""
  }

  lemma {:induction false} EndsOfWords(c: Cmd<Span>, e: nat) returns (w: Span)
    requires e in Ends(c)
    ensures WordOf(c, w) && w.eq == e
  {
    match c {
      case Exec(args) =>
        var k :| 0 <= k < |args| && args[k].eq == e;
        w := args[k];
      case Redir(d, f, _) => if e == f.eq { w := f; } else { w := EndsOfWords(d, e); }
      case Pipe(l, r) => if e in Ends(l) { w := EndsOfWords(l, e); } else { w := EndsOfWords(r, e); }
      case List(l, r) => if e in Ends(l) { w := EndsOfWords(l, e); } else { w := EndsOfWords(r, e); }
      case Back(d) => w := EndsOfWords(d, e);
    }
  }

  lemma {:induction false} WordsHaveEnds(c: Cmd<Span>, w: Span)
    requires WordOf(c, w)
    ensures w.eq in Ends(c)
  {
    match c {
      case Exec(args) => var k :| 0 <= k < |args| && args[k] == w;
      case Redir(d, f, _) => if w != f { WordsHaveEnds(d, w); }
      case Pipe(l, r) => if WordOf(l, w) { WordsHaveEnds(l, w); } else { WordsHaveEnds(r, w); }
      case List(l, r) => if WordOf(l, w) { WordsHaveEnds(l, w); } else { WordsHaveEnds(r, w); }
      case Back(d) => WordsHaveEnds(d, w);
    }
  }

  lemma {:induction false} CStringUpTo(s: seq<char>, q: nat, e: nat)
    requires q <= e < |s| && s[e] == NUL && forall k | q <= k < e :: s[k] != NUL
    ensures CString(s, q) == s[q..e]
    decreases e - q
  {
    if q < e {
      CStringUpTo(s, q + 1, e);
      assert s[q..e] == [s[q]] + s[q + 1..e];
    }
  }

  /** Once the words of a parsed line are cut off, each of them is a C string equal to its token. */
  lemma WordsAreCStrings(buf: string, t: seq<char>, w: Span)
    requires (forall k | 0 <= k < |buf| :: buf[k] != NUL) && ParseCmd(buf).Ok?
    requires Cut(buf + [NUL], t, Ends(ParseCmd(buf).cmd)) && WordOf(ParseCmd(buf).cmd, w)
    ensures w.q < w.eq <= |buf| && CString(t, w.q) == buf[w.q..w.eq]
  {
    var c := ParseCmd(buf).cmd;
    LineWhole(buf, 0);
    WordsHaveEnds(c, w);
    forall k | w.q <= k < w.eq ensures t[k] == buf[k] {
      if k in Ends(c) { var x := EndsOfWords(c, k); }
    }
    CStringUpTo(t, w.q, w.eq);
    assert t[w.q..w.eq] == buf[w.q..w.eq];
  }

  /** nulterminate. */
  method NulTerminate(c: Cmd<Span>, a: array<char>)
    requires forall e | e in Ends(c) :: e < a.Length
    modifies a
    ensures Cut(old(a[..]), a[..], Ends(c))
    decreases c
  {
    ghost var s := a[..];
    match c {
      case Exec(args) =>
        var i := 0;
        while i < |args|
          invariant 0 <= i <= |args|
          invariant Cut(s, a[..], set k | 0 <= k < i :: args[k].eq)
        {
          assert args[i].eq in Ends(c);
          a[args[i].eq] := NUL;
          i := i + 1;
        }
      case Redir(d, f, _) =>
        assert Ends(c) == Ends(d) + {f.eq};
        assert f.eq in Ends(c);
        NulTerminate(d, a);
        a[f.eq] := NUL;
      case Pipe(l, r) =>
        assert Ends(c) == Ends(l) + Ends(r);
        NulTerminate(l, a);
        ghost var t := a[..];
        NulTerminate(r, a);
        CutTwice(s, t, a[..], Ends(l), Ends(r));
      case List(l, r) =>
        assert Ends(c) == Ends(l) + Ends(r);
        NulTerminate(l, a);
        ghost var t := a[..];
        NulTerminate(r, a);
        CutTwice(s, t, a[..], Ends(l), Ends(r));
      case Back(d) =>
        assert Ends(c) == Ends(d);
        NulTerminate(d, a);
    }
  }
}
