/** The command language of sh.c: tokens, command trees, and what the parser makes of a list of
    tokens. */
module ShellGrammar {

  /** A word, or one of `| ( ) ; & < >`; `+` stands for `>>`. */
  datatype Tok = Word(text: string) | Sym(c: char)

  datatype Toks = Nil | Cons(head: Tok, tail: Toks)

  /** `>>` is opened like `>`. */
  datatype Mode = ReadFrom | WriteTo

  datatype Redirection = Redirection(file: string, mode: Mode)

  datatype Cmd = Exec(argv: seq<string>) | Redir(cmd: Cmd, to: Redirection) | Pipe(left: Cmd, right: Cmd)
               | List(left: Cmd, right: Cmd) | Back(cmd: Cmd)

  datatype Result<T> = Ok(value: T, rest: Toks) | Panic

  const MAXARGS: int := 10

  function Len(ts: Toks): nat {
    if ts.Nil? then 0 else 1 + Len(ts.tail)
  }

  predicate Starts(ts: Toks, c: char) {
    ts.Cons? && ts.head == Sym(c)
  }

  // ---- Parsing ---------------------------------------------------------------------------------

  predicate StartsRedir(ts: Toks) {
    Starts(ts, '<') || Starts(ts, '>') || Starts(ts, '+')
  }

  function ModeOf(c: char): Mode {
    if c == '<' then ReadFrom else WriteTo
  }

  /** Redirections, in the order in which they wrap the command. */
  function ParseRedirs(rs: seq<Redirection>, ts: Toks): (r: Result<seq<Redirection>>)
    ensures r.Ok? ==> Len(r.rest) <= Len(ts) && !StartsRedir(r.rest)
    decreases Len(ts)
  {
    if !StartsRedir(ts) then Ok(rs, ts)
    else if ts.tail.Cons? && ts.tail.head.Word? then
      assert Len(ts) == 2 + Len(ts.tail.tail);
      ParseRedirs(rs + [Redirection(ts.tail.head.text, ModeOf(ts.head.c))], ts.tail.tail)
    else Panic
  }

  function Wrap(c: Cmd, rs: seq<Redirection>): Cmd
    decreases |rs|
  {
    if rs == [] then c else Redir(Wrap(c, rs[..|rs| - 1]), rs[|rs| - 1])
  }

  predicate Stops(ts: Toks) {
    Starts(ts, '|') || Starts(ts, ')') || Starts(ts, '&') || Starts(ts, ';')
  }

  /** The loop of parseexec, with the arguments and redirections so far. */
  function ParseArgs(args: seq<string>, rs: seq<Redirection>, ts: Toks): (r: Result<Cmd>)
    ensures r.Ok? ==> Len(r.rest) <= Len(ts)
    decreases Len(ts)
  {
    if Stops(ts) || ts.Nil? then Ok(Wrap(Exec(args), rs), ts)
    else if ts.head.Sym? || |args| + 1 >= MAXARGS then Panic
    else match ParseRedirs(rs, ts.tail)
      case Panic => Panic
      case Ok(rs', rest) => ParseArgs(args + [ts.head.text], rs', rest)
  }

  function ParseExec(ts: Toks): (r: Result<Cmd>)
    ensures r.Ok? ==> Len(r.rest) <= Len(ts)
    decreases Len(ts), 1
  {
    if Starts(ts, '(') then ParseBlock(ts)
    else match ParseRedirs([], ts)
      case Panic => Panic
      case Ok(rs, rest) => ParseArgs([], rs, rest)
  }

  function ParseBlock(ts: Toks): (r: Result<Cmd>)
    requires Starts(ts, '(')
    ensures r.Ok? ==> Len(r.rest) <= Len(ts)
    decreases Len(ts), 0
  {
    match ParseLine(ts.tail)
    case Panic => Panic
    case Ok(c, rest) =>
      if !Starts(rest, ')') then Panic
      else match ParseRedirs([], rest.tail)
        case Panic => Panic
        case Ok(rs, rest') => Ok(Wrap(c, rs), rest')
  }

  function ParsePipe(ts: Toks): (r: Result<Cmd>)
    ensures r.Ok? ==> Len(r.rest) <= Len(ts)
    decreases Len(ts), 2
  {
    match ParseExec(ts)
    case Panic => Panic
    case Ok(c, rest) =>
      if !Starts(rest, '|') then Ok(c, rest)
      else match ParsePipe(rest.tail)
        case Panic => Panic
        case Ok(d, rest') => Ok(Pipe(c, d), rest')
  }

  function Backs(c: Cmd, ts: Toks): (r: Result<Cmd>)
    ensures r.Ok? && Len(r.rest) <= Len(ts)
    decreases Len(ts)
  {
    if Starts(ts, '&') then Backs(Back(c), ts.tail) else Ok(c, ts)
  }

  function ParseLine(ts: Toks): (r: Result<Cmd>)
    ensures r.Ok? ==> Len(r.rest) <= Len(ts)
    decreases Len(ts), 3
  {
    match ParsePipe(ts)
    case Panic => Panic
    case Ok(c, rest) =>
      var b := Backs(c, rest);
      if !Starts(b.rest, ';') then b
      else match ParseLine(b.rest.tail)
        case Panic => Panic
        case Ok(d, rest') => Ok(List(b.value, d), rest')
  }

  function ParseCmd(ts: Toks): Result<Cmd> {
    match ParseLine(ts)
    case Panic => Panic
    case Ok(c, rest) => if rest.Nil? then Ok(c, Nil) else Panic
  }

  // ---- Rendering -------------------------------------------------------------------------------

  /** Commands the parser can give back: no command has more than MAXARGS - 1 arguments. */
  predicate Fits(c: Cmd) {
    match c
    case Exec(argv) => |argv| < MAXARGS
    case Redir(d, _) => Fits(d)
    case Pipe(l, r) => Fits(l) && Fits(r)
    case List(l, r) => Fits(l) && Fits(r)
    case Back(d) => Fits(d)
  }

  function Words(argv: seq<string>, i: nat, k: Toks): Toks
    requires i <= |argv|
    decreases |argv| - i
  {
    if i == |argv| then k else Cons(Word(argv[i]), Words(argv, i + 1, k))
  }

  function Arrow(m: Mode): Tok {
    Sym(if m == ReadFrom then '<' else '>')
  }

  /** The part of the grammar that makes a command of this kind: 0 simple, 1 pipe, 2 background,
      3 list. */
  function Level(c: Cmd): int {
    match c
    case Exec(_) => 0
    case Redir(_, _) => 0
    case Pipe(_, _) => 1
    case Back(_) => 2
    case List(_, _) => 3
  }

  /** Rendering for part n of the grammar goes to the part below, or into parentheses. */
  function Rank(c: Cmd, n: int): int {
    if n < Level(c) then n + 4 else n
  }

  /** The tokens of a command, followed by k. A pipe, a list or a background command is put into
      parentheses where a simple command is expected. */
  function RenderExec(c: Cmd, k: Toks): Toks
    decreases c, Rank(c, 0)
  {
    match c
    case Exec(argv) => Words(argv, 0, k)
    case Redir(d, to) => RenderExec(d, Cons(Arrow(to.mode), Cons(Word(to.file), k)))
    case _ => Cons(Sym('('), RenderLine(c, Cons(Sym(')'), k)))
  }

  function RenderPipe(c: Cmd, k: Toks): Toks
    decreases c, Rank(c, 1)
  {
    if c.Pipe? then RenderExec(c.left, Cons(Sym('|'), RenderPipe(c.right, k))) else RenderExec(c, k)
  }

  function RenderBacks(c: Cmd, k: Toks): Toks
    decreases c, Rank(c, 2)
  {
    if c.Back? then RenderBacks(c.cmd, Cons(Sym('&'), k)) else RenderPipe(c, k)
  }

  function RenderLine(c: Cmd, k: Toks): Toks
    decreases c, Rank(c, 3)
  {
    if c.List? then RenderBacks(c.left, Cons(Sym(';'), RenderLine(c.right, k))) else RenderBacks(c, k)
  }

  // ---- Round trip ------------------------------------------------------------------------------

  /** What may follow a simple command, a pipe, a line. */
  predicate AfterExec(k: Toks) {
    k.Nil? || Stops(k)
  }

  predicate AfterPipe(k: Toks) {
    AfterExec(k) && !Starts(k, '|')
  }

  predicate AfterLine(k: Toks) {
    k.Nil? || Starts(k, ')')
  }

  function Base(c: Cmd): Cmd {
    if c.Redir? then Base(c.cmd) else c
  }

  function Redirs(c: Cmd): seq<Redirection> {
    if c.Redir? then Redirs(c.cmd) + [c.to] else []
  }

  function RedirToks(rs: seq<Redirection>, i: nat, k: Toks): Toks
    requires i <= |rs|
    decreases |rs| - i
  {
    if i == |rs| then k else Cons(Arrow(rs[i].mode), Cons(Word(rs[i].file), RedirToks(rs, i + 1, k)))
  }

  lemma {:induction false} WrapBase(c: Cmd)
    ensures Wrap(Base(c), Redirs(c)) == c && !Base(c).Redir? && (Fits(c) ==> Fits(Base(c)))
  {
    if c.Redir? {
      WrapBase(c.cmd);
      assert Redirs(c)[..|Redirs(c)| - 1] == Redirs(c.cmd);
    }
  }

  lemma {:induction false} MoreRedirs(rs: seq<Redirection>, to: Redirection, i: nat, k: Toks)
    requires i <= |rs|
    ensures RedirToks(rs + [to], i, k) == RedirToks(rs, i, Cons(Arrow(to.mode), Cons(Word(to.file), k)))
    decreases |rs| - i
  {
    if i < |rs| {
      MoreRedirs(rs, to, i + 1, k);
    } else {
      assert RedirToks(rs + [to], i + 1, k) == k;
    }
  }

  lemma {:induction false} RenderedBase(c: Cmd, k: Toks)
    ensures RenderExec(c, k) == RenderExec(Base(c), RedirToks(Redirs(c), 0, k))
  {
    if c.Redir? {
      var k' := Cons(Arrow(c.to.mode), Cons(Word(c.to.file), k));
      RenderedBase(c.cmd, k');
      MoreRedirs(Redirs(c.cmd), c.to, 0, k);
    }
  }

  lemma {:induction false} RedirsParse(rs: seq<Redirection>, i: nat, k: Toks)
    requires i <= |rs| && AfterExec(k)
    ensures ParseRedirs(rs[..i], RedirToks(rs, i, k)) == Ok(rs, k)
    decreases |rs| - i
  {
    if i < |rs| {
      RedirsParse(rs, i + 1, k);
      assert rs[..i] + [rs[i]] == rs[..i + 1];
    } else {
      assert rs[..i] == rs;
    }
  }

  lemma {:induction false} ArgsParse(argv: seq<string>, i: nat, rs: seq<Redirection>, k: Toks)
    requires i < |argv| < MAXARGS && AfterExec(k)
    ensures ParseArgs(argv[..i], [], Words(argv, i, RedirToks(rs, 0, k))) == Ok(Wrap(Exec(argv), rs), k)
    decreases |argv| - i
  {
    var r := RedirToks(rs, 0, k);
    assert argv[..i] + [argv[i]] == argv[..i + 1];
    if i + 1 < |argv| {
      ArgsParse(argv, i + 1, rs, k);
      assert ParseRedirs([], Words(argv, i + 1, r)) == Ok([], Words(argv, i + 1, r));
    } else {
      RedirsParse(rs, 0, k);
      assert rs[..0] == [];
      assert argv[..i + 1] == argv;
    }
  }

  lemma SimpleParses(argv: seq<string>, rs: seq<Redirection>, k: Toks)
    requires |argv| < MAXARGS && AfterExec(k)
    ensures ParseExec(Words(argv, 0, RedirToks(rs, 0, k))) == Ok(Wrap(Exec(argv), rs), k)
  {
    var r := RedirToks(rs, 0, k);
    RedirsParse(rs, 0, k);
    assert rs[..0] == [];
    if |argv| > 0 {
      ArgsParse(argv, 0, rs, k);
      assert argv[..0] == [];
      assert ParseRedirs([], Words(argv, 0, r)) == Ok([], Words(argv, 0, r));
    } else {
      assert argv == [];
    }
  }

  lemma BlockParses(b: Cmd, rs: seq<Redirection>, k: Toks, ts: Toks)
    requires AfterExec(k) && ParseLine(ts) == Ok(b, Cons(Sym(')'), RedirToks(rs, 0, k)))
    ensures ParseExec(Cons(Sym('('), ts)) == Ok(Wrap(b, rs), k)
  {
    RedirsParse(rs, 0, k);
    assert rs[..0] == [];
    assert ParseBlock(Cons(Sym('('), ts)) == Ok(Wrap(b, rs), k);
  }

  lemma RenderedBaseIs(b: Cmd, r: Toks)
    requires !b.Redir?
    ensures RenderExec(b, r) == if b.Exec? then Words(b.argv, 0, r)
                                else Cons(Sym('('), RenderLine(b, Cons(Sym(')'), r)))
    ensures b.Exec? && Fits(b) ==> |b.argv| < MAXARGS
    ensures AfterLine(Cons(Sym(')'), r))
    ensures Rank(b, 3) < 4 && (!b.Exec? ==> Rank(b, 0) == 4)
  {
  }

  lemma ExecParses(c: Cmd, k: Toks)
    requires Fits(c) && AfterExec(k)
    ensures ParseExec(RenderExec(c, k)) == Ok(c, k)
    decreases c, Rank(c, 0)
  {
    hide *;
    var b, rs := Base(c), Redirs(c);
    WrapBase(c);
    RenderedBase(c, k);
    var r := RedirToks(rs, 0, k);
    RenderedBaseIs(b, r);
    if b.Exec? {
      SimpleParses(b.argv, rs, k);
    } else {
      BaseSmaller(c);
      LineParses(b, Cons(Sym(')'), r));
      BlockParses(b, rs, k, RenderLine(b, Cons(Sym(')'), r)));
    }
  }

  lemma {:induction false} BaseSmaller(c: Cmd)
    ensures Base(c) == c || Base(c) < c
  {
    if c.Redir? {
      BaseSmaller(c.cmd);
    }
  }

  lemma PipeParses(c: Cmd, k: Toks)
    requires Fits(c) && AfterPipe(k)
    ensures ParsePipe(RenderPipe(c, k)) == Ok(c, k)
    decreases c, Rank(c, 1)
  {
    if c.Pipe? {
      ExecParses(c.left, Cons(Sym('|'), RenderPipe(c.right, k)));
      PipeParses(c.right, k);
    } else {
      ExecParses(c, k);
    }
  }

  lemma BacksParse(c: Cmd, k: Toks)
    requires Fits(c) && AfterPipe(k)
    ensures var r := ParsePipe(RenderBacks(c, k)); r.Ok? && Backs(r.value, r.rest) == Backs(c, k)
    decreases c, Rank(c, 2)
  {
    if c.Back? {
      BacksParse(c.cmd, Cons(Sym('&'), k));
    } else {
      PipeParses(c, k);
    }
  }

  lemma LineParses(c: Cmd, k: Toks)
    requires Fits(c) && AfterLine(k)
    ensures ParseLine(RenderLine(c, k)) == Ok(c, k)
    decreases c, Rank(c, 3)
  {
    if c.List? {
      BacksParse(c.left, Cons(Sym(';'), RenderLine(c.right, k)));
      LineParses(c.right, k);
    } else {
      BacksParse(c, k);
    }
  }

  // ---- What comes out fits ---------------------------------------------------------------------

  lemma {:induction false} WrapFits(c: Cmd, rs: seq<Redirection>)
    requires Fits(c)
    ensures Fits(Wrap(c, rs))
    decreases |rs|
  {
    if rs != [] {
      WrapFits(c, rs[..|rs| - 1]);
    }
  }

  lemma {:induction false} ArgsFit(args: seq<string>, rs: seq<Redirection>, ts: Toks)
    requires |args| < MAXARGS
    ensures ParseArgs(args, rs, ts).Ok? ==> Fits(ParseArgs(args, rs, ts).value)
    decreases Len(ts)
  {
    WrapFits(Exec(args), rs);
    if !Stops(ts) && ts.Cons? && ts.head.Word? && |args| + 1 < MAXARGS {
      var r := ParseRedirs(rs, ts.tail);
      if r.Ok? {
        ArgsFit(args + [ts.head.text], r.value, r.rest);
      }
    }
  }

  lemma {:induction false} ExecFits(ts: Toks)
    ensures ParseExec(ts).Ok? ==> Fits(ParseExec(ts).value)
    decreases Len(ts), 1
  {
    if Starts(ts, '(') {
      LineFits(ts.tail);
      var r := ParseLine(ts.tail);
      if r.Ok? && Starts(r.rest, ')') && ParseRedirs([], r.rest.tail).Ok? {
        WrapFits(r.value, ParseRedirs([], r.rest.tail).value);
      }
    } else if ParseRedirs([], ts).Ok? {
      ArgsFit([], ParseRedirs([], ts).value, ParseRedirs([], ts).rest);
    }
  }

  lemma {:induction false} PipeFits(ts: Toks)
    ensures ParsePipe(ts).Ok? ==> Fits(ParsePipe(ts).value)
    decreases Len(ts), 2
  {
    ExecFits(ts);
    var r := ParseExec(ts);
    if r.Ok? && Starts(r.rest, '|') {
      PipeFits(r.rest.tail);
    }
  }

  lemma {:induction false} BacksFit(c: Cmd, ts: Toks)
    requires Fits(c)
    ensures Fits(Backs(c, ts).value)
    decreases Len(ts)
  {
    if Starts(ts, '&') {
      BacksFit(Back(c), ts.tail);
    }
  }

  lemma {:induction false} LineFits(ts: Toks)
    ensures ParseLine(ts).Ok? ==> Fits(ParseLine(ts).value)
    decreases Len(ts), 3
  {
    PipeFits(ts);
    var r := ParsePipe(ts);
    if r.Ok? {
      BacksFit(r.value, r.rest);
      var b := Backs(r.value, r.rest);
      if Starts(b.rest, ';') {
        LineFits(b.rest.tail);
      }
    }
  }

  /** A command is read back from its tokens if and only if no part of it has too many
      arguments. */
  lemma RenderedParsesIff(c: Cmd)
    ensures ParseCmd(RenderLine(c, Nil)) == Ok(c, Nil) <==> Fits(c)
  {
    LineFits(RenderLine(c, Nil));
    if Fits(c) {
      LineParses(c, Nil);
    }
  }
}
