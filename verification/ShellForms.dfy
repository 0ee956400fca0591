/** The grammar of sh.c, written down independently of its parser: the forms that a line can have,
    with redirections anywhere among the arguments, and the command that each stands for. */
module ShellForms {
  import opened ShellGrammar
  import opened ShellLexer

  /** What a simple command consists of: arguments, and redirections by `<`, `>` or `+` (`>>`). */
  datatype Item = Arg(word: string) | Red(arrow: char, file: string)

  datatype Form =
    | Simple(items: seq<Item>)
    | Parens(body: Form, redirs: seq<Item>)
    | Piped(first: Form, rest: Form)
    | Amp(body: Form)
    | Semi(first: Form, rest: Form)

  predicate IsArrow(c: char) {
    c == '<' || c == '>' || c == '+'
  }

  predicate ItemsOk(items: seq<Item>) {
    forall k :: 0 <= k < |items| && items[k].Red? ==> IsArrow(items[k].arrow)
  }

  predicate OnlyRedirs(items: seq<Item>) {
    forall k :: 0 <= k < |items| ==> items[k].Red?
  }

  /** The form is one of part n of the grammar: 0 a simple command or one in parentheses, 1 a pipe,
      2 with `&` behind, 3 a line. */
  predicate Proper(f: Form, n: int)
    decreases f
  {
    match f
    case Simple(items) => n >= 0 && ItemsOk(items)
    case Parens(b, rs) => n >= 0 && Proper(b, 3) && ItemsOk(rs) && OnlyRedirs(rs)
    case Piped(a, b) => n >= 1 && Proper(a, 0) && Proper(b, 1)
    case Amp(b) => n >= 2 && Proper(b, 2)
    case Semi(a, b) => n >= 3 && Proper(a, 2) && Proper(b, 3)
  }

  // ---- Its tokens --------------------------------------------------------------------------------

  function ItemToks(items: seq<Item>, k: Toks): Toks {
    if items == [] then k
    else match items[0]
      case Arg(w) => Cons(Word(w), ItemToks(items[1..], k))
      case Red(c, file) => Cons(Sym(c), Cons(Word(file), ItemToks(items[1..], k)))
  }

  function Tokens(f: Form, k: Toks): Toks
    decreases f
  {
    match f
    case Simple(items) => ItemToks(items, k)
    case Parens(b, rs) => Cons(Sym('('), Tokens(b, Cons(Sym(')'), ItemToks(rs, k))))
    case Piped(a, b) => Tokens(a, Cons(Sym('|'), Tokens(b, k)))
    case Amp(b) => Tokens(b, Cons(Sym('&'), k))
    case Semi(a, b) => Tokens(a, Cons(Sym(';'), Tokens(b, k)))
  }

  // ---- Its meaning -------------------------------------------------------------------------------

  function ArgOf(t: Item): seq<string> {
    if t.Arg? then [t.word] else []
  }

  /** `<` reads from the file, the others write to it. */
  function RedOf(t: Item): seq<Redirection> {
    if t.Red? then [Redirection(t.file, if t.arrow == '<' then ReadFrom else WriteTo)] else []
  }

  /** The arguments, in order. */
  function Args(items: seq<Item>): seq<string> {
    if items == [] then [] else ArgOf(items[0]) + Args(items[1..])
  }

  /** The redirections, in order. */
  function Reds(items: seq<Item>): seq<Redirection> {
    if items == [] then [] else RedOf(items[0]) + Reds(items[1..])
  }

  function Meaning(f: Form): Cmd
    decreases f
  {
    match f
    case Simple(items) => Wrap(Exec(Args(items)), Reds(items))
    case Parens(b, rs) => Wrap(Meaning(b), Reds(rs))
    case Piped(a, b) => Pipe(Meaning(a), Meaning(b))
    case Amp(b) => Back(Meaning(b))
    case Semi(a, b) => List(Meaning(a), Meaning(b))
  }

  /** No simple command has too many arguments. */
  predicate Short(f: Form)
    decreases f
  {
    match f
    case Simple(items) => |Args(items)| < MAXARGS
    case Parens(b, _) => Short(b)
    case Piped(a, b) => Short(a) && Short(b)
    case Amp(b) => Short(b)
    case Semi(a, b) => Short(a) && Short(b)
  }

  // ---- Every form is parsed to its meaning ---------------------------------------------------------

  /** parseexec's two loops, from the redirections rs and the arguments args on. */
  function ParseRest(args: seq<string>, rs: seq<Redirection>, ts: Toks): Result<Cmd> {
    match ParseRedirs(rs, ts)
    case Panic => Panic
    case Ok(rs', rest) => ParseArgs(args, rs', rest)
  }

  lemma Assoc<T>(a: seq<T>, b: seq<T>, c: seq<T>)
    ensures a + b + c == a + (b + c)
  {
  }

  lemma {:induction false} ItemsParse(args: seq<string>, rs: seq<Redirection>, items: seq<Item>, k: Toks)
    requires ItemsOk(items) && AfterExec(k) && |args| < MAXARGS
    ensures ParseRest(args, rs, ItemToks(items, k))
            == if |args| + |Args(items)| < MAXARGS
               then Ok(Wrap(Exec(args + Args(items)), rs + Reds(items)), k) else Panic
    decreases |items|
  {
    if items == [] {
      assert args + Args(items) == args && rs + Reds(items) == rs;
    } else {
      var it, more := items[0], items[1..];
      ItemFirst(args, rs, items, k);
      hide ParseRest;
      hide ItemToks;
      hide Wrap;
      Assoc(args, ArgOf(it), Args(more));
      Assoc(rs, RedOf(it), Reds(more));
      if |args + ArgOf(it)| < MAXARGS {
        ItemsParse(args + ArgOf(it), rs + RedOf(it), more, k);
      }
    }
  }

  lemma ItemFirst(args: seq<string>, rs: seq<Redirection>, items: seq<Item>, k: Toks)
    requires items != [] && ItemsOk(items)
    ensures ParseRest(args, rs, ItemToks(items, k))
            == if |args + ArgOf(items[0])| >= MAXARGS && items[0].Arg? then Panic
               else ParseRest(args + ArgOf(items[0]), rs + RedOf(items[0]), ItemToks(items[1..], k))
  {
    if items[0].Red? {
      RedirFirst(rs, items, k);
      assert args + ArgOf(items[0]) == args;
    } else {
      ArgFirst(args, rs, items, k);
      assert rs + RedOf(items[0]) == rs;
    }
  }

  lemma RedirFirst(rs: seq<Redirection>, items: seq<Item>, k: Toks)
    requires items != [] && items[0].Red? && ItemsOk(items)
    ensures ParseRedirs(rs, ItemToks(items, k))
            == ParseRedirs(rs + RedOf(items[0]), ItemToks(items[1..], k))
  {
  }

  lemma ArgFirst(args: seq<string>, rs: seq<Redirection>, items: seq<Item>, k: Toks)
    requires items != [] && items[0].Arg?
    ensures ParseRest(args, rs, ItemToks(items, k))
            == if |args| + 1 >= MAXARGS then Panic else ParseRest(args + [items[0].word], rs, ItemToks(items[1..], k))
  {
    var ts := ItemToks(items, k);
    assert ParseRedirs(rs, ts) == Ok(rs, ts);
  }

  lemma {:induction false} OnlyRedirsParse(rs: seq<Redirection>, items: seq<Item>, k: Toks)
    requires ItemsOk(items) && OnlyRedirs(items) && AfterExec(k)
    ensures ParseRedirs(rs, ItemToks(items, k)) == Ok(rs + Reds(items), k)
    decreases |items|
  {
    if items == [] {
      assert rs + Reds(items) == rs;
    } else {
      RedirFirst(rs, items, k);
      Assoc(rs, RedOf(items[0]), Reds(items[1..]));
      hide ItemToks;
      OnlyRedirsParse(rs + RedOf(items[0]), items[1..], k);
    }
  }

  lemma SimpleParse(items: seq<Item>, k: Toks)
    requires ItemsOk(items) && AfterExec(k)
    ensures ParseExec(ItemToks(items, k)) == ParseRest([], [], ItemToks(items, k))
  {
  }

  lemma FormExec(f: Form, k: Toks)
    requires Proper(f, 0) && AfterExec(k)
    ensures ParseExec(Tokens(f, k)) == if Short(f) then Ok(Meaning(f), k) else Panic
    decreases f, 0
  {
    match f {
      case Simple(items) =>
        SimpleParse(items, k);
        ItemsParse([], [], items, k);
        assert [] + Args(items) == Args(items) && [] + Reds(items) == Reds(items);
      case Parens(b, rs) =>
        FormLine(b, Cons(Sym(')'), ItemToks(rs, k)));
        OnlyRedirsParse([], rs, k);
        assert [] + Reds(rs) == Reds(rs);
        assert ParseExec(Tokens(f, k)) == ParseBlock(Tokens(f, k));
    }
  }

  lemma FormPipe(f: Form, k: Toks)
    requires Proper(f, 1) && AfterPipe(k)
    ensures ParsePipe(Tokens(f, k)) == if Short(f) then Ok(Meaning(f), k) else Panic
    decreases f, 1
  {
    if f.Piped? {
      FormExec(f.first, Cons(Sym('|'), Tokens(f.rest, k)));
      FormPipe(f.rest, k);
    } else {
      FormExec(f, k);
    }
  }

  lemma FormBacks(f: Form, k: Toks)
    requires Proper(f, 2) && AfterPipe(k)
    ensures var r := ParsePipe(Tokens(f, k));
      if Short(f) then r.Ok? && Backs(r.value, r.rest) == Backs(Meaning(f), k) else r.Panic?
    decreases f, 2
  {
    if f.Amp? {
      FormBacks(f.body, Cons(Sym('&'), k));
    } else {
      FormPipe(f, k);
    }
  }

  lemma FormLine(f: Form, k: Toks)
    requires Proper(f, 3) && AfterLine(k)
    ensures ParseLine(Tokens(f, k)) == if Short(f) then Ok(Meaning(f), k) else Panic
    decreases f, 3
  {
    if f.Semi? {
      FormBacks(f.first, Cons(Sym(';'), Tokens(f.rest, k)));
      FormLine(f.rest, k);
    } else {
      FormBacks(f, k);
    }
  }

  // ---- And every list of tokens that is accepted has a form --------------------------------------

  lemma {:induction false} RedirsForm(rs: seq<Redirection>, ts: Toks) returns (items: seq<Item>)
    requires ParseRedirs(rs, ts).Ok?
    ensures ItemsOk(items) && OnlyRedirs(items) && ItemToks(items, ParseRedirs(rs, ts).rest) == ts
    ensures ParseRedirs(rs, ts).value == rs + Reds(items) && Args(items) == []
    decreases Len(ts)
  {
    items := [];
    if StartsRedir(ts) {
      assert Len(ts) == 2 + Len(ts.tail.tail);
      var it := Red(ts.head.c, ts.tail.head.text);
      var more := RedirsForm(rs + RedOf(it), ts.tail.tail);
      items := [it] + more;
      assert items[1..] == more;
      Assoc(rs, RedOf(it), Reds(more));
    } else {
      assert rs + Reds([]) == rs;
    }
  }

  lemma {:induction false} ToksJoin(a: seq<Item>, b: seq<Item>, k: Toks)
    ensures ItemToks(a + b, k) == ItemToks(a, ItemToks(b, k))
    decreases |a|
  {
    if a == [] {
      assert a + b == b;
    } else {
      ToksJoin(a[1..], b, k);
      assert (a + b)[1..] == a[1..] + b;
    }
  }

  lemma {:induction false} ArgsJoin(a: seq<Item>, b: seq<Item>)
    ensures Args(a + b) == Args(a) + Args(b)
    decreases |a|
  {
    if a == [] {
      assert a + b == b;
    } else {
      ArgsJoin(a[1..], b);
      assert (a + b)[1..] == a[1..] + b;
      Assoc(ArgOf(a[0]), Args(a[1..]), Args(b));
    }
  }

  lemma {:induction false} RedsJoin(a: seq<Item>, b: seq<Item>)
    ensures Reds(a + b) == Reds(a) + Reds(b)
    decreases |a|
  {
    if a == [] {
      assert a + b == b;
    } else {
      RedsJoin(a[1..], b);
      assert (a + b)[1..] == a[1..] + b;
      Assoc(RedOf(a[0]), Reds(a[1..]), Reds(b));
    }
  }

  lemma ItemsJoin(a: seq<Item>, b: seq<Item>, k: Toks)
    ensures ItemToks(a + b, k) == ItemToks(a, ItemToks(b, k))
    ensures Args(a + b) == Args(a) + Args(b) && Reds(a + b) == Reds(a) + Reds(b)
    ensures ItemsOk(a) && ItemsOk(b) ==> ItemsOk(a + b)
  {
    ToksJoin(a, b, k);
    ArgsJoin(a, b);
    RedsJoin(a, b);
  }

  lemma WordFirst(w: string, a: seq<Item>, b: seq<Item>, k: Toks, items: seq<Item>)
    requires items == [Arg(w)] + (a + b) && ItemsOk(a) && ItemsOk(b)
    ensures ItemsOk(items) && ItemToks(items, k) == Cons(Word(w), ItemToks(a, ItemToks(b, k)))
    ensures Args(items) == [w] + (Args(a) + Args(b)) && Reds(items) == Reds(a) + Reds(b)
  {
    ItemsJoin(a, b, k);
    assert items[1..] == a + b;
  }

  /** The loop of parseexec, from a word on. */
  lemma WordParsed(args: seq<string>, rs: seq<Redirection>, ts: Toks)
    requires ParseArgs(args, rs, ts).Ok? && !Stops(ts) && ts.Cons?
    ensures ts.head.Word? && |args| + 1 < MAXARGS && ParseRedirs(rs, ts.tail).Ok?
    ensures var r := ParseRedirs(rs, ts.tail);
      Len(r.rest) < Len(ts) && ParseArgs(args, rs, ts) == ParseArgs(args + [ts.head.text], r.value, r.rest)
  {
  }

  lemma NoItems(args: seq<string>, rs: seq<Redirection>, ts: Toks)
    requires Stops(ts) || ts.Nil?
    ensures ParseArgs(args, rs, ts) == Ok(Wrap(Exec(args + Args([])), rs + Reds([])), ts) && AfterExec(ts)
    ensures ItemToks([], ts) == ts && ItemsOk([]) && |Args([])| == 0
  {
    assert args + Args([]) == args && rs + Reds([]) == rs;
  }

  lemma {:induction false} ArgsForm(args: seq<string>, rs: seq<Redirection>, ts: Toks) returns (items: seq<Item>)
    requires ParseArgs(args, rs, ts).Ok? && |args| < MAXARGS
    ensures ItemsOk(items) && ItemToks(items, ParseArgs(args, rs, ts).rest) == ts
    ensures AfterExec(ParseArgs(args, rs, ts).rest)
    ensures |args| + |Args(items)| < MAXARGS
    ensures ParseArgs(args, rs, ts).value == Wrap(Exec(args + Args(items)), rs + Reds(items))
    decreases Len(ts)
  {
    hide *;
    if Stops(ts) || ts.Nil? {
      items := [];
      NoItems(args, rs, ts);
    } else {
      WordParsed(args, rs, ts);
      var w, k, r := ts.head.text, ParseArgs(args, rs, ts).rest, ParseRedirs(rs, ts.tail);
      var a := RedirsForm(rs, ts.tail);
      var b := ArgsForm(args + [w], r.value, r.rest);
      items := [Arg(w)] + (a + b);
      WordFirst(w, a, b, k, items);
      assert [] + Args(b) == Args(b);
      Assoc(args, [w], Args(b));
      Assoc(rs, Reds(a), Reds(b));
    }
  }

  lemma BlockParsed(ts: Toks)
    requires ParseExec(ts).Ok? && Starts(ts, '(')
    ensures ts == Cons(Sym('('), ts.tail) && Len(ts.tail) < Len(ts)
    ensures ParseLine(ts.tail).Ok? && var r := ParseLine(ts.tail);
      && Starts(r.rest, ')') && r.rest == Cons(Sym(')'), r.rest.tail) && ParseRedirs([], r.rest.tail).Ok?
      && ParseExec(ts) == Ok(Wrap(r.value, ParseRedirs([], r.rest.tail).value), ParseRedirs([], r.rest.tail).rest)
  {
  }

  lemma SimpleParsed(ts: Toks)
    requires ParseExec(ts).Ok? && !Starts(ts, '(')
    ensures 0 < MAXARGS && ParseRedirs([], ts).Ok?
    ensures ParseExec(ts) == ParseArgs([], ParseRedirs([], ts).value, ParseRedirs([], ts).rest)
  {
  }

  lemma ParensIs(b: Form, rs: seq<Item>, k: Toks)
    requires Proper(b, 3) && Short(b) && ItemsOk(rs) && OnlyRedirs(rs)
    ensures Proper(Parens(b, rs), 0) && Short(Parens(b, rs))
    ensures Tokens(Parens(b, rs), k) == Cons(Sym('('), Tokens(b, Cons(Sym(')'), ItemToks(rs, k))))
    ensures Meaning(Parens(b, rs)) == Wrap(Meaning(b), [] + Reds(rs))
  {
    assert [] + Reds(rs) == Reds(rs);
  }

  lemma SimpleIs(a: seq<Item>, b: seq<Item>, k: Toks)
    requires ItemsOk(a) && ItemsOk(b) && Args(a) == [] && |Args(b)| < MAXARGS
    ensures Proper(Simple(a + b), 0) && Short(Simple(a + b))
    ensures Tokens(Simple(a + b), k) == ItemToks(a, ItemToks(b, k))
    ensures Meaning(Simple(a + b)) == Wrap(Exec([] + Args(b)), [] + Reds(a) + Reds(b))
  {
    hide *;
    ItemsJoin(a, b, k);
    assert [] + Args(b) == Args(a + b) && [] + Reds(a) + Reds(b) == Reds(a + b);
    SimpleOf(a + b, k);
  }

  lemma SimpleOf(items: seq<Item>, k: Toks)
    ensures Proper(Simple(items), 0) <==> ItemsOk(items)
    ensures Short(Simple(items)) <==> |Args(items)| < MAXARGS
    ensures Tokens(Simple(items), k) == ItemToks(items, k)
    ensures Meaning(Simple(items)) == Wrap(Exec(Args(items)), Reds(items))
  {
    hide Args;
    hide Reds;
    hide ItemToks;
    hide ItemsOk;
    hide Wrap;
  }

  lemma {:induction false} ExecForm(ts: Toks) returns (f: Form)
    requires ParseExec(ts).Ok?
    ensures Proper(f, 0) && Short(f) && Tokens(f, ParseExec(ts).rest) == ts && Meaning(f) == ParseExec(ts).value
    decreases Len(ts), 1
  {
    hide *;
    if Starts(ts, '(') {
      BlockParsed(ts);
      var r := ParseLine(ts.tail);
      var b := LineForm(ts.tail);
      var rs := RedirsForm([], r.rest.tail);
      f := Parens(b, rs);
      ParensIs(b, rs, ParseExec(ts).rest);
    } else {
      SimpleParsed(ts);
      var r := ParseRedirs([], ts);
      var a := RedirsForm([], ts);
      var b := ArgsForm([], r.value, r.rest);
      f := Simple(a + b);
      SimpleIs(a, b, ParseExec(ts).rest);
    }
  }

  lemma {:induction false} PipeForm(ts: Toks) returns (f: Form)
    requires ParsePipe(ts).Ok?
    ensures Proper(f, 1) && Short(f) && Tokens(f, ParsePipe(ts).rest) == ts && Meaning(f) == ParsePipe(ts).value
    decreases Len(ts), 2
  {
    f := ExecForm(ts);
    var r := ParseExec(ts);
    if Starts(r.rest, '|') {
      var g := PipeForm(r.rest.tail);
      f := Piped(f, g);
      assert r.rest == Cons(Sym('|'), r.rest.tail);
    } else {
      ProperMore(f, 0, 1);
    }
  }

  lemma ProperMore(f: Form, m: int, n: int)
    requires Proper(f, m) && m <= n
    ensures Proper(f, n)
  {
  }

  lemma {:induction false} BacksForm(f: Form, ts: Toks) returns (g: Form)
    requires Proper(f, 2) && Short(f)
    ensures Proper(g, 2) && Short(g)
    ensures Tokens(g, Backs(Meaning(f), ts).rest) == Tokens(f, ts) && Meaning(g) == Backs(Meaning(f), ts).value
    decreases Len(ts)
  {
    g := f;
    if Starts(ts, '&') {
      g := BacksForm(Amp(f), ts.tail);
      assert ts == Cons(Sym('&'), ts.tail);
    }
  }

  lemma {:induction false} LineForm(ts: Toks) returns (f: Form)
    requires ParseLine(ts).Ok?
    ensures Proper(f, 3) && Short(f) && Tokens(f, ParseLine(ts).rest) == ts && Meaning(f) == ParseLine(ts).value
    decreases Len(ts), 3
  {
    var p := PipeForm(ts);
    ProperMore(p, 1, 2);
    var r := ParsePipe(ts);
    f := BacksForm(p, r.rest);
    var b := Backs(r.value, r.rest);
    if Starts(b.rest, ';') {
      var g := LineForm(b.rest.tail);
      f := Semi(f, g);
      assert b.rest == Cons(Sym(';'), b.rest.tail);
    } else {
      ProperMore(f, 2, 3);
    }
  }

  // ---- The language of the shell -------------------------------------------------------------------

  ghost predicate Writes(f: Form, ts: Toks) {
    Proper(f, 3) && Short(f) && Tokens(f, Nil) == ts
  }

  /** parsecmd accepts a list of tokens if and only if it is that of a form in which no simple command
      has too many arguments, and then gives its meaning; no list of tokens has two meanings. */
  lemma AcceptsIff(ts: Toks)
    ensures ParseCmd(ts).Ok? <==> exists f :: Writes(f, ts)
    ensures forall f :: Writes(f, ts) ==> ParseCmd(ts) == Ok(Meaning(f), Nil)
  {
    forall f | Writes(f, ts)
      ensures ParseCmd(ts) == Ok(Meaning(f), Nil)
    {
      FormLine(f, Nil);
    }
    if ParseCmd(ts).Ok? {
      var f := LineForm(ts);
      assert Writes(f, ts);
    }
  }

  // ---- Lines of text -------------------------------------------------------------------------------

  predicate LegalItems(items: seq<Item>) {
    forall k :: 0 <= k < |items| ==> Legal(Word(if items[k].Arg? then items[k].word else items[k].file))
  }

  predicate LegalForm(f: Form)
    decreases f
  {
    match f
    case Simple(items) => LegalItems(items)
    case Parens(b, rs) => LegalForm(b) && LegalItems(rs)
    case Piped(a, b) => LegalForm(a) && LegalForm(b)
    case Amp(b) => LegalForm(b)
    case Semi(a, b) => LegalForm(a) && LegalForm(b)
  }

  lemma {:induction false} ItemsLegal(items: seq<Item>, k: Toks)
    requires ItemsOk(items) && LegalItems(items) && AllLegal(k)
    ensures AllLegal(ItemToks(items, k))
    decreases |items|
  {
    if items != [] {
      ItemsLegal(items[1..], k);
    }
  }

  lemma {:induction false} FormLegal(f: Form, n: int, k: Toks)
    requires Proper(f, n) && LegalForm(f) && AllLegal(k)
    ensures AllLegal(Tokens(f, k))
    decreases f
  {
    match f {
      case Simple(items) => ItemsLegal(items, k);
      case Parens(b, rs) =>
        ItemsLegal(rs, k);
        FormLegal(b, 3, Cons(Sym(')'), ItemToks(rs, k)));
      case Piped(a, b) =>
        FormLegal(b, 1, k);
        FormLegal(a, 0, Cons(Sym('|'), Tokens(b, k)));
      case Amp(b) => FormLegal(b, 2, Cons(Sym('&'), k));
      case Semi(a, b) =>
        FormLegal(b, 3, k);
        FormLegal(a, 2, Cons(Sym(';'), Tokens(b, k)));
    }
  }

  /** The text of every form with legal words, `>>` and redirections among the arguments included, is
      parsed to its meaning if and only if no simple command has too many arguments. */
  lemma TextParsesIff(f: Form)
    requires Proper(f, 3) && LegalForm(f)
    ensures ParseText(Chars(Tokens(f, Nil))) == if Short(f) then Ok(Meaning(f), Nil) else Panic
  {
    var ts := Tokens(f, Nil);
    FormLegal(f, 3, Nil);
    assert Chars(ts)[0..] == Chars(ts);
    LexChars(Chars(ts), 0, ts);
    FormLine(f, Nil);
  }
}
