/** The parser of sh.c, which moves a cursor along the line and records where each word starts
    and ends; and the pass that cuts the line into strings. */
module ShellParser {
  import opened ShellGrammar
  import opened ShellLexer
  import opened Wrappers

  /** A word by the positions of its first character and of the one after its last. */
  datatype Span = Span(q: nat, eq: nat)

  datatype RedirSpan = RedirSpan(file: Span, mode: Mode)

  datatype Node = NExec(argv: seq<Span>) | NRedir(cmd: Node, to: RedirSpan) | NPipe(left: Node, right: Node)
                | NList(left: Node, right: Node) | NBack(cmd: Node)

  // ---- What a node stands for ------------------------------------------------------------------

  predicate SpanOk(s: string, x: Span) {
    && x.q < x.eq <= |s| && (x.eq < |s| ==> !WordChar(s[x.eq]))
    && forall k :: x.q <= k < x.eq ==> WordChar(s[k])
  }

  predicate SpansOk(s: string, xs: seq<Span>) {
    forall k :: 0 <= k < |xs| ==> SpanOk(s, xs[k])
  }

  predicate RedirsOk(s: string, rs: seq<RedirSpan>) {
    forall k :: 0 <= k < |rs| ==> SpanOk(s, rs[k].file)
  }

  predicate NodeOk(s: string, n: Node) {
    match n
    case NExec(argv) => SpansOk(s, argv)
    case NRedir(c, to) => NodeOk(s, c) && SpanOk(s, to.file)
    case NPipe(l, r) => NodeOk(s, l) && NodeOk(s, r)
    case NList(l, r) => NodeOk(s, l) && NodeOk(s, r)
    case NBack(c) => NodeOk(s, c)
  }

  function Texts(s: string, xs: seq<Span>): seq<string>
    requires SpansOk(s, xs)
  {
    seq(|xs|, k requires 0 <= k < |xs| => s[xs[k].q..xs[k].eq])
  }

  function RedirTexts(s: string, rs: seq<RedirSpan>): seq<Redirection>
    requires RedirsOk(s, rs)
  {
    seq(|rs|, k requires 0 <= k < |rs| => Redirection(s[rs[k].file.q..rs[k].file.eq], rs[k].mode))
  }

  function Named(s: string, n: Node): Cmd
    requires NodeOk(s, n)
  {
    match n
    case NExec(argv) => Exec(Texts(s, argv))
    case NRedir(c, to) => Redir(Named(s, c), Redirection(s[to.file.q..to.file.eq], to.mode))
    case NPipe(l, r) => Pipe(Named(s, l), Named(s, r))
    case NList(l, r) => List(Named(s, l), Named(s, r))
    case NBack(c) => Back(Named(s, c))
  }

  function WrapNode(n: Node, rs: seq<RedirSpan>): Node
    decreases |rs|
  {
    if rs == [] then n else NRedir(WrapNode(n, rs[..|rs| - 1]), rs[|rs| - 1])
  }

  lemma {:induction false} WrapNamed(s: string, n: Node, rs: seq<RedirSpan>)
    requires NodeOk(s, n) && RedirsOk(s, rs)
    ensures NodeOk(s, WrapNode(n, rs)) && Named(s, WrapNode(n, rs)) == Wrap(Named(s, n), RedirTexts(s, rs))
    decreases |rs|
  {
    if rs != [] {
      WrapNamed(s, n, rs[..|rs| - 1]);
      assert RedirTexts(s, rs)[..|rs| - 1] == RedirTexts(s, rs[..|rs| - 1]);
    }
  }

  lemma MoreText(s: string, xs: seq<Span>, x: Span)
    requires SpansOk(s, xs) && SpanOk(s, x)
    ensures SpansOk(s, xs + [x]) && Texts(s, xs + [x]) == Texts(s, xs) + [s[x.q..x.eq]]
  {
  }

  lemma MoreRedir(s: string, rs: seq<RedirSpan>, r: RedirSpan)
    requires RedirsOk(s, rs) && SpanOk(s, r.file)
    ensures RedirsOk(s, rs + [r])
    ensures RedirTexts(s, rs + [r]) == RedirTexts(s, rs) + [Redirection(s[r.file.q..r.file.eq], r.mode)]
  {
  }

  /** The result of a parsing function: what the grammar gives, panics included. */
  ghost predicate Agrees(s: string, r: Option<Node>, spec: Result<Cmd>, rest: Toks) {
    && (r.None? <==> spec.Panic?)
    && (r.Some? ==> NodeOk(s, r.value) && Named(s, r.value) == spec.value && rest == spec.rest)
  }

  // ---- The parser ------------------------------------------------------------------------------

  /** The character a token starts with. */
  function FirstChar(c: char): char {
    if c == '+' then '>' else c
  }

  class Parser {
    const buf: string
    var ps: nat

    constructor (buf: string)
      ensures this.buf == buf && Valid() && Rest() == Lex(buf, 0)
    {
      this.buf, this.ps := buf, 0;
    }

    predicate Valid()
      reads this
    {
      ps <= |buf|
    }

    ghost function Rest(): Toks
      requires Valid()
      reads this
    {
      Lex(buf, ps)
    }

    method SkipSpace(p: nat) returns (r: nat)
      requires p <= |buf|
      ensures r == Skip(buf, p)
    {
      r := p;
      while r < |buf| && Space(buf[r])
        invariant p <= r <= |buf| && Skip(buf, r) == Skip(buf, p)
      {
        r := r + 1;
      }
    }

    /** gettoken: 'a' for a word, the character for a symbol, '+' for `>>`, 0 at the end. */
    method GetToken() returns (ret: char, x: Span)
      requires Valid()
      modifies this`ps
      ensures Valid()
      ensures old(Rest()).Nil? ==> ret == '\0' && Rest() == Nil
      ensures old(Rest()).Cons? ==> Rest() == old(Rest()).tail
      ensures old(Rest()).Cons? && old(Rest()).head.Sym? ==> ret == old(Rest()).head.c && ret != 'a' && ret != '\0'
      ensures old(Rest()).Cons? && old(Rest()).head.Word? ==>
                ret == 'a' && SpanOk(buf, x) && buf[x.q..x.eq] == old(Rest()).head.text
    {
      var s := SkipSpace(ps);
      var q := s;
      if s == |buf| {
        ret := '\0';
      } else if buf[s] == '|' || buf[s] == '(' || buf[s] == ')' || buf[s] == ';' || buf[s] == '&' || buf[s] == '<' {
        ret := buf[s];
        s := s + 1;
      } else if buf[s] == '>' {
        ret := buf[s];
        s := s + 1;
        if s < |buf| && buf[s] == '>' {
          ret := '+';
          s := s + 1;
        }
      } else {
        ret := 'a';
        while s < |buf| && !Space(buf[s]) && !Symbol(buf[s])
          invariant q <= s <= |buf| && WordEnd(buf, s) == WordEnd(buf, q)
        {
          s := s + 1;
        }
      }
      x := Span(q, s);
      LexSkip(buf, s);
      ps := SkipSpace(s);
    }

    /** peek, for symbols. */
    method Peek(toks: string) returns (b: bool)
      requires Valid() && forall k :: 0 <= k < |toks| ==> Symbol(toks[k])
      modifies this`ps
      ensures Valid() && Rest() == old(Rest())
      ensures b <==> Rest().Cons? && Rest().head.Sym? && FirstChar(Rest().head.c) in toks
      ensures ps == |buf| <==> Rest().Nil?
    {
      SkipSkip(buf, ps);
      LexSkip(buf, ps);
      ps := SkipSpace(ps);
      b := ps < |buf| && buf[ps] in toks;
    }

    /** parseredirs; the redirections wrap the command when all its arguments are known. */
    method Redirections(rs0: seq<RedirSpan>) returns (r: Option<seq<RedirSpan>>)
      requires Valid() && RedirsOk(buf, rs0)
      modifies this`ps
      ensures Valid()
      ensures var spec := ParseRedirs(RedirTexts(buf, rs0), old(Rest()));
        && (r.None? <==> spec.Panic?)
        && (r.Some? ==> RedirsOk(buf, r.value) && RedirTexts(buf, r.value) == spec.value && Rest() == spec.rest)
    {
      var rs := rs0;
      while true
        invariant Valid() && RedirsOk(buf, rs)
        invariant ParseRedirs(RedirTexts(buf, rs), Rest()) == ParseRedirs(RedirTexts(buf, rs0), old(Rest()))
        decreases Len(Rest())
      {
        var more := Peek("<>");
        if !more {
          return Some(rs);
        }
        ghost var ts := Rest();
        var tok, _ := GetToken();
        var ret, x := GetToken();
        if ret != 'a' {
          return None;
        }
        var to := RedirSpan(x, if tok == '<' then ReadFrom else WriteTo);
        MoreRedir(buf, rs, to);
        assert Len(ts) == 2 + Len(ts.tail.tail);
        rs := rs + [to];
      }
    }

    method Arguments(rs0: seq<RedirSpan>) returns (r: Option<Node>)
      requires Valid() && RedirsOk(buf, rs0)
      modifies this`ps
      ensures Valid() && Agrees(buf, r, ParseArgs([], RedirTexts(buf, rs0), old(Rest())), Rest())
    {
      var args: seq<Span> := [];
      var rs := rs0;
      assert Texts(buf, args) == [];
      while true
        invariant Valid() && RedirsOk(buf, rs) && SpansOk(buf, args)
        invariant ParseArgs(Texts(buf, args), RedirTexts(buf, rs), Rest())
                  == ParseArgs([], RedirTexts(buf, rs0), old(Rest()))
        decreases Len(Rest())
      {
        var stop := Peek("|)&;");
        if stop {
          break;
        }
        var tok, x := GetToken();
        if tok == '\0' {
          break;
        }
        if tok != 'a' {
          return None;
        }
        MoreText(buf, args, x);
        args := args + [x];
        if |args| >= MAXARGS {
          return None;
        }
        var more := Redirections(rs);
        if more.None? {
          return None;
        }
        rs := more.value;
      }
      WrapNamed(buf, NExec(args), rs);
      return Some(WrapNode(NExec(args), rs));
    }

    method SimpleCommand() returns (r: Option<Node>)
      requires Valid()
      modifies this`ps
      ensures Valid() && Agrees(buf, r, ParseExec(old(Rest())), Rest())
      decreases Len(Rest()), 1
    {
      var block := Peek("(");
      if block {
        r := Block();
        return;
      }
      assert RedirTexts(buf, []) == [];
      var rs := Redirections([]);
      if rs.None? {
        return None;
      }
      r := Arguments(rs.value);
    }

    method Block() returns (r: Option<Node>)
      requires Valid() && Starts(Rest(), '(')
      modifies this`ps
      ensures Valid() && Agrees(buf, r, ParseBlock(old(Rest())), Rest())
      decreases Len(Rest()), 0
    {
      var _, _ := GetToken();
      var c := Line();
      if c.None? {
        return None;
      }
      var closed := Peek(")");
      if !closed {
        return None;
      }
      var _, _ := GetToken();
      assert RedirTexts(buf, []) == [];
      var rs := Redirections([]);
      if rs.None? {
        return None;
      }
      WrapNamed(buf, c.value, rs.value);
      return Some(WrapNode(c.value, rs.value));
    }

    method Pipeline() returns (r: Option<Node>)
      requires Valid()
      modifies this`ps
      ensures Valid() && Agrees(buf, r, ParsePipe(old(Rest())), Rest())
      decreases Len(Rest()), 2
    {
      r := SimpleCommand();
      if r.None? {
        return;
      }
      var piped := Peek("|");
      if piped {
        var _, _ := GetToken();
        var right := Pipeline();
        if right.None? {
          return None;
        }
        r := Some(NPipe(r.value, right.value));
      }
    }

    method Line() returns (r: Option<Node>)
      requires Valid()
      modifies this`ps
      ensures Valid() && Agrees(buf, r, ParseLine(old(Rest())), Rest())
      decreases Len(Rest()), 3
    {
      r := Pipeline();
      if r.None? {
        return;
      }
      var c := r.value;
      ghost var b := Backs(Named(buf, c), Rest());
      while true
        invariant Valid() && NodeOk(buf, c) && Backs(Named(buf, c), Rest()) == b && Len(Rest()) <= Len(old(Rest()))
        decreases Len(Rest())
      {
        var amp := Peek("&");
        if !amp {
          break;
        }
        var _, _ := GetToken();
        c := NBack(c);
      }
      var listed := Peek(";");
      if listed {
        var _, _ := GetToken();
        var right := Line();
        if right.None? {
          return None;
        }
        c := NList(c, right.value);
      }
      return Some(c);
    }
  }

  // ---- Cutting the line into strings -----------------------------------------------------------

  /** nulterminate writes at k. */
  predicate IsEnd(n: Node, k: int) {
    match n
    case NExec(argv) => exists j :: 0 <= j < |argv| && argv[j].eq == k
    case NRedir(c, to) => IsEnd(c, k) || to.file.eq == k
    case NPipe(l, r) => IsEnd(l, k) || IsEnd(r, k)
    case NList(l, r) => IsEnd(l, k) || IsEnd(r, k)
    case NBack(c) => IsEnd(c, k)
  }

  /** nulterminate stays outside the words of the line. */
  lemma {:induction false} EndsOutside(s: string, n: Node, k: int)
    requires NodeOk(s, n) && IsEnd(n, k)
    ensures 0 <= k <= |s| && (k < |s| ==> !WordChar(s[k]))
  {
    match n
    case NExec(argv) =>
      var j :| 0 <= j < |argv| && argv[j].eq == k;
      assert SpanOk(s, argv[j]);
    case NRedir(c, to) =>
      if IsEnd(c, k) {
        EndsOutside(s, c, k);
      }
    case NPipe(l, r) =>
      if IsEnd(l, k) {
        EndsOutside(s, l, k);
      } else {
        EndsOutside(s, r, k);
      }
    case NList(l, r) =>
      if IsEnd(l, k) {
        EndsOutside(s, l, k);
      } else {
        EndsOutside(s, r, k);
      }
    case NBack(c) => EndsOutside(s, c, k);
  }

  /** nulterminate: NULs exactly at the ends of the words. */
  method NulTerminate(b: array<char>, s: string, n: Node)
    requires b.Length == |s| + 1 && NodeOk(s, n)
    modifies b
    ensures forall k :: 0 <= k < b.Length ==> b[k] == if IsEnd(n, k) then '\0' else old(b[k])
  {
    match n
    case NExec(argv) =>
      var i := 0;
      while i < |argv|
        invariant 0 <= i <= |argv|
        invariant forall k :: 0 <= k < b.Length ==>
                    b[k] == if exists j :: 0 <= j < i && argv[j].eq == k then '\0' else old(b[k])
      {
        assert SpanOk(s, argv[i]);
        b[argv[i].eq] := '\0';
        i := i + 1;
      }
    case NRedir(c, to) =>
      NulTerminate(b, s, c);
      b[to.file.eq] := '\0';
    case NPipe(l, r) =>
      NulTerminate(b, s, l);
      NulTerminate(b, s, r);
    case NList(l, r) =>
      NulTerminate(b, s, l);
      NulTerminate(b, s, r);
    case NBack(c) =>
      NulTerminate(b, s, c);
  }

  /** The string at q: up to the NUL. */
  function CString(m: seq<char>, q: nat): string
    decreases |m| - q
  {
    if q >= |m| || m[q] == '\0' then "" else [m[q]] + CString(m, q + 1)
  }

  lemma {:induction false} CStringIs(m: seq<char>, s: string, q: nat, eq: nat)
    requires q <= eq <= |s| && eq < |m| && m[eq] == '\0'
    requires forall k :: q <= k < eq ==> m[k] == s[k] && m[k] != '\0'
    ensures CString(m, q) == s[q..eq]
    decreases eq - q
  {
    if q < eq {
      CStringIs(m, s, q + 1, eq);
      assert s[q..eq] == [s[q]] + s[q + 1..eq];
    }
  }

  /** The command as runcmd sees it: each word is the string at its first character. */
  function Seen(m: seq<char>, n: Node): Cmd {
    match n
    case NExec(argv) => Exec(seq(|argv|, k requires 0 <= k < |argv| => CString(m, argv[k].q)))
    case NRedir(c, to) => Redir(Seen(m, c), Redirection(CString(m, to.file.q), to.mode))
    case NPipe(l, r) => Pipe(Seen(m, l), Seen(m, r))
    case NList(l, r) => List(Seen(m, l), Seen(m, r))
    case NBack(c) => Back(Seen(m, c))
  }

  /** m is the line s with NULs at ends of words; s is a C string. */
  ghost predicate Cut(m: seq<char>, s: string) {
    && |m| == |s| + 1
    && (forall k :: 0 <= k < |s| && WordChar(s[k]) ==> m[k] == s[k] && m[k] != '\0')
  }

  lemma {:induction false} SeenIsNamed(m: seq<char>, s: string, n: Node)
    requires NodeOk(s, n) && Cut(m, s) && forall k :: 0 <= k < |m| && IsEnd(n, k) ==> m[k] == '\0'
    ensures Seen(m, n) == Named(s, n)
  {
    match n
    case NExec(argv) =>
      forall k | 0 <= k < |argv|
        ensures CString(m, argv[k].q) == Texts(s, argv)[k]
      {
        assert SpanOk(s, argv[k]) && IsEnd(n, argv[k].eq);
        CStringIs(m, s, argv[k].q, argv[k].eq);
      }
    case NRedir(c, to) =>
      assert IsEnd(n, to.file.eq);
      CStringIs(m, s, to.file.q, to.file.eq);
      SeenIsNamed(m, s, c);
    case NPipe(l, r) =>
      SeenIsNamed(m, s, l);
      SeenIsNamed(m, s, r);
    case NList(l, r) =>
      SeenIsNamed(m, s, l);
      SeenIsNamed(m, s, r);
    case NBack(c) => SeenIsNamed(m, s, c);
  }

  /** parsecmd on the string s in b: it panics or gives a tree exactly as the grammar says, and
      the words of the tree, read from the cut buffer, are those of the line. */
  method ParseCommand(b: array<char>, s: string) returns (r: Option<Node>)
    requires b.Length == |s| + 1 && b[..|s|] == s && b[|s|] == '\0' && '\0' !in s
    modifies b
    ensures r.None? <==> ParseText(s).Panic?
    ensures r.Some? ==> Seen(b[..], r.value) == ParseText(s).value
    ensures forall k :: 0 <= k < |s| && WordChar(s[k]) ==> b[k] == s[k]
  {
    assert forall k :: 0 <= k < |s| ==> b[k] == b[..|s|][k];
    var parser := new Parser(s);
    r := parser.Line();
    if r.None? {
      return;
    }
    var _ := parser.Peek("");
    if parser.ps != |s| {
      return None;
    }
    NulTerminate(b, s, r.value);
    forall k | 0 <= k < |s| && WordChar(s[k])
      ensures b[k] == s[k]
    {
      if IsEnd(r.value, k) {
        EndsOutside(s, r.value, k);
      }
    }
    SeenIsNamed(b[..], s, r.value);
  }
}
