/** The tokens of a command line (gettoken and peek of sh.c). */
module ShellLexer {
  import opened ShellGrammar

  predicate Space(c: char) {
    c == ' ' || c == '\t' || c == '\r' || c == '\n' || c == '\U{b}'
  }

  predicate Symbol(c: char) {
    c == '<' || c == '|' || c == '>' || c == '&' || c == ';' || c == '(' || c == ')'
  }

  predicate WordChar(c: char) {
    !Space(c) && !Symbol(c)
  }

  /** The next position that is not white space. */
  function Skip(s: string, p: nat): (r: nat)
    requires p <= |s|
    ensures p <= r <= |s| && (r < |s| ==> !Space(s[r]))
    decreases |s| - p
  {
    if p < |s| && Space(s[p]) then Skip(s, p + 1) else p
  }

  /** The end of the word at p. */
  function WordEnd(s: string, p: nat): (r: nat)
    requires p <= |s|
    ensures p <= r <= |s| && (r < |s| ==> !WordChar(s[r])) && (p < |s| && WordChar(s[p]) ==> p < r)
    ensures forall k :: p <= k < r ==> WordChar(s[k])
    decreases |s| - p
  {
    if p < |s| && WordChar(s[p]) then WordEnd(s, p + 1) else p
  }

  /** The end of the token at p, where a token starts. */
  function TokEnd(s: string, p: nat): (r: nat)
    requires p < |s| && !Space(s[p])
    ensures p < r <= |s|
  {
    if s[p] == '>' && p + 1 < |s| && s[p + 1] == '>' then p + 2
    else if Symbol(s[p]) then p + 1
    else WordEnd(s, p)
  }

  function TokAt(s: string, p: nat): Tok
    requires p < |s| && !Space(s[p])
  {
    if s[p] == '>' && p + 1 < |s| && s[p + 1] == '>' then Sym('+')
    else if Symbol(s[p]) then Sym(s[p])
    else Word(s[p..WordEnd(s, p)])
  }

  /** The tokens of the rest of the line. */
  function Lex(s: string, p: nat): Toks
    requires p <= |s|
    decreases |s| - p
  {
    var q := Skip(s, p);
    if q == |s| then Nil else Cons(TokAt(s, q), Lex(s, TokEnd(s, q)))
  }

  lemma {:induction false} SkipSkip(s: string, p: nat)
    requires p <= |s|
    ensures Skip(s, Skip(s, p)) == Skip(s, p)
    decreases |s| - p
  {
    if p < |s| && Space(s[p]) {
      SkipSkip(s, p + 1);
    }
  }

  /** White space before a token does not matter. */
  lemma LexSkip(s: string, p: nat)
    requires p <= |s|
    ensures Lex(s, Skip(s, p)) == Lex(s, p)
  {
    SkipSkip(s, p);
  }

  // ---- Writing tokens --------------------------------------------------------------------------

  predicate Legal(t: Tok) {
    match t
    case Word(w) => w != "" && forall k :: 0 <= k < |w| ==> WordChar(w[k])
    case Sym(c) => c == '+' || Symbol(c)
  }

  predicate AllLegal(ts: Toks) {
    ts.Cons? ==> Legal(ts.head) && AllLegal(ts.tail)
  }

  function TokChars(t: Tok): string {
    match t
    case Word(w) => w
    case Sym(c) => if c == '+' then ">>" else [c]
  }

  /** The tokens with a space after each. */
  function Chars(ts: Toks): string {
    if ts.Nil? then "" else TokChars(ts.head) + " " + Chars(ts.tail)
  }

  lemma {:induction false} WordEndIs(s: string, p: nat, n: nat)
    requires p + n < |s| && !WordChar(s[p + n]) && forall k :: p <= k < p + n ==> WordChar(s[k])
    ensures WordEnd(s, p) == p + n
    decreases n
  {
    if n > 0 {
      WordEndIs(s, p + 1, n - 1);
    }
  }

  lemma TokThere(s: string, p: nat, t: Tok)
    requires Legal(t) && p + |TokChars(t)| < |s| && s[p + |TokChars(t)|] == ' '
    requires forall k :: 0 <= k < |TokChars(t)| ==> s[p + k] == TokChars(t)[k]
    ensures p < |s| && !Space(s[p]) && TokAt(s, p) == t && TokEnd(s, p) == p + |TokChars(t)|
  {
    var c := TokChars(t);
    assert s[p + 0] == c[0];
    if t.Word? {
      forall k | p <= k < p + |c|
        ensures WordChar(s[k])
      {
        assert s[p + (k - p)] == c[k - p];
      }
      WordEndIs(s, p, |c|);
      assert s[p..p + |c|] == c;
    } else if t.c == '+' {
      assert s[p + 1] == c[1];
    }
  }

  lemma FirstChars(s: string, p: nat, c: string, rest: string)
    requires p <= |s| && s[p..] == c + " " + rest
    ensures p + |c| < |s| && s[p + |c|] == ' ' && s[p + |c| + 1..] == rest
    ensures forall k :: 0 <= k < |c| ==> s[p + k] == c[k]
  {
    forall k | 0 <= k < |c|
      ensures s[p + k] == c[k]
    {
      assert s[p..][k] == c[k];
    }
    assert s[p..][|c|] == ' ';
    assert s[p + |c| + 1..] == s[p..][|c| + 1..];
  }

  /** Written tokens are read back. */
  lemma {:induction false} LexChars(s: string, p: nat, ts: Toks)
    requires p <= |s| && s[p..] == Chars(ts) && AllLegal(ts)
    ensures Lex(s, p) == ts
    decreases ts
  {
    hide *;
    if ts.Nil? {
      LexEnd(s, p);
    } else {
      ConsChars(ts);
      var n := p + |TokChars(ts.head)|;
      FirstChars(s, p, TokChars(ts.head), Chars(ts.tail));
      TokThere(s, p, ts.head);
      LexChars(s, n + 1, ts.tail);
      LexSpace(s, n);
      LexOne(s, p, ts.head, n);
    }
  }

  lemma LexEnd(s: string, p: nat)
    requires p <= |s| && s[p..] == Chars(Nil)
    ensures Lex(s, p) == Nil
  {
    assert |s[p..]| == 0;
  }

  lemma ConsChars(ts: Toks)
    requires ts.Cons? && AllLegal(ts)
    ensures Chars(ts) == TokChars(ts.head) + " " + Chars(ts.tail) && Legal(ts.head) && AllLegal(ts.tail)
  {
  }

  lemma LexSpace(s: string, p: nat)
    requires p < |s| && s[p] == ' '
    ensures Lex(s, p) == Lex(s, p + 1)
  {
    LexSkip(s, p);
    LexSkip(s, p + 1);
  }

  lemma LexOne(s: string, p: nat, t: Tok, n: nat)
    requires p < |s| && !Space(s[p]) && TokAt(s, p) == t && TokEnd(s, p) == n
    ensures n <= |s| && Lex(s, p) == Cons(t, Lex(s, n))
  {
  }

  // ---- The round trip --------------------------------------------------------------------------

  /** The words of a command can be written as tokens. */
  predicate LegalCmd(c: Cmd) {
    match c
    case Exec(argv) => forall k :: 0 <= k < |argv| ==> Legal(Word(argv[k]))
    case Redir(d, to) => LegalCmd(d) && Legal(Word(to.file))
    case Pipe(l, r) => LegalCmd(l) && LegalCmd(r)
    case List(l, r) => LegalCmd(l) && LegalCmd(r)
    case Back(d) => LegalCmd(d)
  }

  lemma {:induction false} WordsLegal(argv: seq<string>, i: nat, k: Toks)
    requires i <= |argv| && AllLegal(k) && forall j :: 0 <= j < |argv| ==> Legal(Word(argv[j]))
    ensures AllLegal(Words(argv, i, k))
    decreases |argv| - i
  {
    if i < |argv| {
      WordsLegal(argv, i + 1, k);
    }
  }

  lemma ExecLegal(c: Cmd, k: Toks)
    requires LegalCmd(c) && AllLegal(k)
    ensures AllLegal(RenderExec(c, k))
    decreases c, Rank(c, 0)
  {
    match c
    case Exec(argv) => WordsLegal(argv, 0, k);
    case Redir(d, to) =>
      assert AllLegal(Cons(Word(to.file), k));
      ExecLegal(d, Cons(Arrow(to.mode), Cons(Word(to.file), k)));
    case _ => LineLegal(c, Cons(Sym(')'), k));
  }

  lemma PipeLegal(c: Cmd, k: Toks)
    requires LegalCmd(c) && AllLegal(k)
    ensures AllLegal(RenderPipe(c, k))
    decreases c, Rank(c, 1)
  {
    if c.Pipe? {
      PipeLegal(c.right, k);
      ExecLegal(c.left, Cons(Sym('|'), RenderPipe(c.right, k)));
    } else {
      ExecLegal(c, k);
    }
  }

  lemma BacksLegal(c: Cmd, k: Toks)
    requires LegalCmd(c) && AllLegal(k)
    ensures AllLegal(RenderBacks(c, k))
    decreases c, Rank(c, 2)
  {
    if c.Back? {
      BacksLegal(c.cmd, Cons(Sym('&'), k));
    } else {
      PipeLegal(c, k);
    }
  }

  lemma LineLegal(c: Cmd, k: Toks)
    requires LegalCmd(c) && AllLegal(k)
    ensures AllLegal(RenderLine(c, k))
    decreases c, Rank(c, 3)
  {
    if c.List? {
      LineLegal(c.right, k);
      BacksLegal(c.left, Cons(Sym(';'), RenderLine(c.right, k)));
    } else {
      BacksLegal(c, k);
    }
  }

  /** What parsecmd makes of a line. */
  function ParseText(s: string): Result<Cmd> {
    ParseCmd(Lex(s, 0))
  }

  /** Parsing the text of a command tree gives that tree back if and only if no part of it has too
      many arguments. */
  lemma RoundTripIff(c: Cmd)
    requires LegalCmd(c)
    ensures ParseText(Chars(RenderLine(c, Nil))) == Ok(c, Nil) <==> Fits(c)
  {
    var ts := RenderLine(c, Nil);
    LineLegal(c, Nil);
    assert Chars(ts)[0..] == Chars(ts);
    LexChars(Chars(ts), 0, ts);
    RenderedParsesIff(c);
  }

  // ---- What comes out is legal -------------------------------------------------------------------

  lemma {:induction false} LexLegal(s: string, p: nat)
    requires p <= |s|
    ensures AllLegal(Lex(s, p))
    decreases |s| - p
  {
    var q := Skip(s, p);
    if q < |s| {
      LexLegal(s, TokEnd(s, q));
    }
  }

  predicate LegalRedirs(rs: seq<Redirection>) {
    forall k :: 0 <= k < |rs| ==> Legal(Word(rs[k].file))
  }

  lemma {:induction false} RedirsOut(rs: seq<Redirection>, ts: Toks)
    requires LegalRedirs(rs) && AllLegal(ts)
    ensures var r := ParseRedirs(rs, ts); r.Ok? ==> LegalRedirs(r.value) && AllLegal(r.rest)
    decreases Len(ts)
  {
    if StartsRedir(ts) && ts.tail.Cons? && ts.tail.head.Word? {
      assert Len(ts) == 2 + Len(ts.tail.tail);
      RedirsOut(rs + [Redirection(ts.tail.head.text, ModeOf(ts.head.c))], ts.tail.tail);
    }
  }

  lemma {:induction false} WrapLegal(c: Cmd, rs: seq<Redirection>)
    requires LegalCmd(c) && LegalRedirs(rs)
    ensures LegalCmd(Wrap(c, rs))
    decreases |rs|
  {
    if rs != [] {
      WrapLegal(c, rs[..|rs| - 1]);
    }
  }

  lemma {:induction false} ArgsOut(args: seq<string>, rs: seq<Redirection>, ts: Toks)
    requires LegalCmd(Exec(args)) && LegalRedirs(rs) && AllLegal(ts)
    ensures var r := ParseArgs(args, rs, ts); r.Ok? ==> LegalCmd(r.value) && AllLegal(r.rest)
    decreases Len(ts)
  {
    WrapLegal(Exec(args), rs);
    if !Stops(ts) && ts.Cons? && ts.head.Word? && |args| + 1 < MAXARGS {
      RedirsOut(rs, ts.tail);
      var r := ParseRedirs(rs, ts.tail);
      if r.Ok? {
        ArgsOut(args + [ts.head.text], r.value, r.rest);
      }
    }
  }

  lemma {:induction false} ExecOut(ts: Toks)
    requires AllLegal(ts)
    ensures var r := ParseExec(ts); r.Ok? ==> LegalCmd(r.value) && AllLegal(r.rest)
    decreases Len(ts), 1
  {
    if Starts(ts, '(') {
      LineOut(ts.tail);
      var r := ParseLine(ts.tail);
      if r.Ok? && Starts(r.rest, ')') {
        RedirsOut([], r.rest.tail);
        if ParseRedirs([], r.rest.tail).Ok? {
          WrapLegal(r.value, ParseRedirs([], r.rest.tail).value);
        }
      }
    } else {
      RedirsOut([], ts);
      if ParseRedirs([], ts).Ok? {
        ArgsOut([], ParseRedirs([], ts).value, ParseRedirs([], ts).rest);
      }
    }
  }

  lemma {:induction false} PipeOut(ts: Toks)
    requires AllLegal(ts)
    ensures var r := ParsePipe(ts); r.Ok? ==> LegalCmd(r.value) && AllLegal(r.rest)
    decreases Len(ts), 2
  {
    ExecOut(ts);
    var r := ParseExec(ts);
    if r.Ok? && Starts(r.rest, '|') {
      PipeOut(r.rest.tail);
    }
  }

  lemma {:induction false} BacksOut(c: Cmd, ts: Toks)
    requires LegalCmd(c) && AllLegal(ts)
    ensures LegalCmd(Backs(c, ts).value) && AllLegal(Backs(c, ts).rest)
    decreases Len(ts)
  {
    if Starts(ts, '&') {
      BacksOut(Back(c), ts.tail);
    }
  }

  lemma {:induction false} LineOut(ts: Toks)
    requires AllLegal(ts)
    ensures var r := ParseLine(ts); r.Ok? ==> LegalCmd(r.value) && AllLegal(r.rest)
    decreases Len(ts), 3
  {
    PipeOut(ts);
    var r := ParsePipe(ts);
    if r.Ok? {
      BacksOut(r.value, r.rest);
      var b := Backs(r.value, r.rest);
      if Starts(b.rest, ';') {
        LineOut(b.rest.tail);
      }
    }
  }

  /** Every line that the shell accepts stands for a tree that can be written, and writing the tree
      and reading it again gives the same tree. */
  lemma AcceptedRoundTrips(s: string)
    requires ParseText(s).Ok?
    ensures LegalCmd(ParseText(s).value) && Fits(ParseText(s).value)
    ensures ParseText(Chars(RenderLine(ParseText(s).value, Nil))) == ParseText(s)
  {
    LexLegal(s, 0);
    LineOut(Lex(s, 0));
    LineFits(Lex(s, 0));
    RoundTripIff(ParseText(s).value);
  }
}
