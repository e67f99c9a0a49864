/** What the shell's command trees say: how a tree is written as a line, and what of a line its tree keeps. */
module CommandTrees {
  import opened Shell

  // Writing a tree.

  function Sign(kind: char): Tok { Tok(kind, 0, 1) }

  function WordTok(w: Span): Tok { Tok('a', w.q, w.eq) }

  function WordToks(ws: seq<Span>): seq<Tok> { if ws == [] then [] else [WordTok(ws[0])] + WordToks(ws[1..]) }

  function InParens(ts: seq<Tok>): seq<Tok> { [Sign('(')] + ts + [Sign(')')] }

  predicate IsPlain(c: Cmd) { c.Execute? || c.Redirect? }

  /** Between bars, or before a redirection. */
  function ShowAtom(c: Cmd): seq<Tok>
    decreases c, 1
  {
    if IsPlain(c) then Show(c) else InParens(Show(c))
  }

  /**
   * The command as a user would type it, left before right, with parentheses where the grammar needs them: a pipe binds
   * to the right and tighter than & and ;, a list binds to the right, and a redirection is part of a simple command.
   */
  function Show(c: Cmd): seq<Tok>
    decreases c, 0
  {
    match c
    case Execute(argv) => WordToks(argv)
    case Redirect(d, file, input) => ShowAtom(d) + [Sign(if input then '<' else '>'), WordTok(file)]
    case Connect(l, r) => ShowAtom(l) + [Sign('|')] + if r.Connect? then Show(r) else ShowAtom(r)
    case Sequence(l, r) => ShowPart(l) + [Sign(';')] + Show(r)
    case Background(d) => ShowPart(d) + [Sign('&')]
  }

  /** Before & or ;. */
  function ShowPart(c: Cmd): seq<Tok>
    decreases c, 1
  {
    if c.Sequence? then InParens(Show(c)) else Show(c)
  }

  /** No simple command has too many arguments. */
  predicate Short(c: Cmd) {
    match c
    case Execute(argv) => |argv| < MAXARGS
    case Redirect(d, _, _) => Short(d)
    case Connect(l, r) => Short(l) && Short(r)
    case Sequence(l, r) => Short(l) && Short(r)
    case Background(d) => Short(d)
  }

  // The grammar's tree for what is written.

  function WordItems(ws: seq<Span>): seq<Item> { if ws == [] then [] else [Word(WordTok(ws[0]))] + WordItems(ws[1..]) }

  function RedItem(file: Span, input: bool): Item { Red(Sign(if input then '<' else '>'), WordTok(file)) }

  function BlockOf(x: Line): Exec { Block(Sign('('), x, Sign(')'), []) }

  function WithRed(x: Exec, r: Item): Exec {
    if x.Simple? then Simple(x.items + [r]) else x.(reds := x.reds + [r])
  }

  function AtomOf(c: Cmd): Exec
    decreases c, 4
  {
    if IsPlain(c) then PlainOf(c) else BlockOf(LineOf(c))
  }

  function PlainOf(c: Cmd): Exec
    requires IsPlain(c)
    decreases c, 0
  {
    match c
    case Execute(argv) => Simple(WordItems(argv))
    case Redirect(d, file, input) => WithRed(AtomOf(d), RedItem(file, input))
  }

  function PipeOf(c: Cmd): Pipeline
    requires IsPlain(c) || c.Connect?
    decreases c, 1
  {
    if c.Connect? then
      Bar(AtomOf(c.left), Sign('|'), if c.right.Connect? then PipeOf(c.right) else One(AtomOf(c.right)))
    else One(PlainOf(c))
  }

  function LineOf(c: Cmd): (x: Line)
    decreases c, 2
  {
    match c
    case Sequence(l, r) => Line(PartOf(l).0, PartOf(l).1, Semi(Sign(';'), LineOf(r)))
    case Background(d) => Line(PartOf(d).0, PartOf(d).1 + [Sign('&')], End)
    case _ => Line(PipeOf(c), [], End)
  }

  /** Before & or ;: the pipeline, and the & that follow it. */
  function PartOf(c: Cmd): (r: (Pipeline, seq<Tok>))
    decreases c, 3
  {
    if c.Sequence? then (One(BlockOf(LineOf(c))), []) else (LineOf(c).pipe, LineOf(c).amps)
  }

  lemma {:induction false} WordsItems(ws: seq<Span>)
    ensures ItemsOk(WordItems(ws)) && ItemsText(WordItems(ws)) == WordToks(ws)
    ensures Args(WordItems(ws)) == ws && Words(WordItems(ws)) == |ws|
    ensures forall c: Cmd :: Wrap(c, WordItems(ws)) == c
  {
    if ws != [] {
      WordsItems(ws[1..]);
      var x := Word(WordTok(ws[0]));
      assert WordItems(ws)[1..] == WordItems(ws[1..]);
      ArgsCons(x, WordItems(ws[1..]));
      assert [SpanOf(WordTok(ws[0]))] + ws[1..] == ws;
    }
  }

  lemma {:induction false} ItemsTextAppend(a: seq<Item>, b: seq<Item>)
    ensures ItemsText(a + b) == ItemsText(a) + ItemsText(b)
    decreases |a|
  {
    if a == [] {
      assert a + b == b;
    } else {
      assert (a + b)[1..] == a[1..] + b;
      ItemsTextAppend(a[1..], b);
    }
  }

  lemma OneRed(file: Span, input: bool)
    ensures ItemsText([RedItem(file, input)]) == [Sign(if input then '<' else '>'), WordTok(file)]
    ensures Args([RedItem(file, input)]) == [] && Words([RedItem(file, input)]) == 0
    ensures forall c: Cmd :: Wrap(c, [RedItem(file, input)]) == Redirect(c, file, input)
  {
    var x := RedItem(file, input);
    assert [x][1..] == [];
    assert ItemsText([x]) == ItemText(x) + ItemsText([]);
    forall c: Cmd
      ensures Wrap(c, [x]) == Redirect(c, file, input)
    {
      assert Wrap(c, [x]) == Wrap(Redirect(c, SpanOf(x.file), x.op.kind == '<'), []);
    }
  }

  /** One more redirection at the end of a command. */
  lemma RedAdded(x: Exec, file: Span, input: bool)
    requires ExecOk(x)
    ensures var y := WithRed(x, RedItem(file, input));
            && ExecOk(y) && ExecText(y) == ExecText(x) + [Sign(if input then '<' else '>'), WordTok(file)]
            && ExecCmd(y) == Redirect(ExecCmd(x), file, input)
  {
    var r := RedItem(file, input);
    OneRed(file, input);
    if x.Simple? {
      ItemsAppend(x.items, [r]);
      ItemsTextAppend(x.items, [r]);
      assert Args(x.items + [r]) == Args(x.items);
      WrapMore(Execute(Args(x.items)), x.items, [r]);
    } else {
      ItemsTextAppend(x.reds, [r]);
      WrapMore(LineCmd(x.line), x.reds, [r]);
    }
  }

  lemma BlockIs(x: Line)
    requires LineOk(x)
    ensures ExecOk(BlockOf(x)) && ExecText(BlockOf(x)) == InParens(LineText(x)) && ExecCmd(BlockOf(x)) == LineCmd(x)
  {
    assert ItemsText([]) == [];
  }

  lemma {:induction false} AtomShown(c: Cmd)
    requires Short(c)
    ensures ExecOk(AtomOf(c)) && ExecText(AtomOf(c)) == ShowAtom(c) && ExecCmd(AtomOf(c)) == c
    decreases c, 4
  {
    if IsPlain(c) {
      PlainShown(c);
    } else {
      LineShown(c);
      BlockIs(LineOf(c));
    }
  }

  lemma {:induction false} PlainShown(c: Cmd)
    requires Short(c) && IsPlain(c)
    ensures ExecOk(PlainOf(c)) && ExecText(PlainOf(c)) == Show(c) && ExecCmd(PlainOf(c)) == c
    decreases c, 0
  {
    match c
    case Execute(argv) => WordsItems(argv);
    case Redirect(d, file, input) =>
      AtomShown(d);
      RedAdded(AtomOf(d), file, input);
  }

  lemma {:induction false} PipeShown(c: Cmd)
    requires Short(c) && (IsPlain(c) || c.Connect?)
    ensures PipeOk(PipeOf(c)) && PipeText(PipeOf(c)) == Show(c) && PipeCmd(PipeOf(c)) == c
    decreases c, 1
  {
    if c.Connect? {
      AtomShown(c.left);
      if c.right.Connect? {
        PipeShown(c.right);
      } else {
        AtomShown(c.right);
      }
    } else {
      PlainShown(c);
    }
  }

  lemma {:induction false} LineShown(c: Cmd)
    requires Short(c)
    ensures var x := LineOf(c); LineOk(x) && LineText(x) == Show(c) && LineCmd(x) == c
    ensures !c.Sequence? ==> LineOf(c).tail.End?
    decreases c, 2
  {
    match c
    case Sequence(l, r) =>
      PartShown(l);
      LineShown(r);
    case Background(d) =>
      PartShown(d);
      var amps := PartOf(d).1;
      assert PipeText(PartOf(d).0) + (amps + [Sign('&')]) == ShowPart(d) + [Sign('&')];
    case _ =>
      PipeShown(c);
      assert PipeText(PipeOf(c)) + [] + [] == PipeText(PipeOf(c));
  }

  lemma {:induction false} PartShown(c: Cmd)
    requires Short(c)
    ensures var (p, amps) := PartOf(c);
            && PipeOk(p) && AmpsOk(amps) && PipeText(p) + amps == ShowPart(c)
            && InBackground(PipeCmd(p), |amps|) == c
    decreases c, 3
  {
    LineShown(c);
    if c.Sequence? {
      BlockIs(LineOf(c));
    } else {
      assert LineText(LineOf(c)) == PipeText(LineOf(c).pipe) + LineOf(c).amps + [];
    }
  }

  /** Whatever command is typed, that command is what the parser makes of it. */
  lemma ShowParses(c: Cmd)
    requires Short(c)
    ensures PLine(Show(c)) == Parsed(LineOf(c), []) && LineCmd(LineOf(c)) == c
  {
    LineShown(c);
    ParseIff(Show(c), LineOf(c));
  }

  // What a tree keeps of a line.

  /** A sign of a line, leaving out the parentheses; a redirection and its file are one. */
  datatype Sym = Arg(w: Span) | File(w: Span, input: bool) | Op(kind: char)

  /** The signs of a list of tokens. */
  function Syms(ts: seq<Tok>): seq<Sym> {
    if ts == [] then []
    else if IsRedir(ts[0]) then (if |ts| < 2 then [] else [File(SpanOf(ts[1]), ts[0].kind == '<')] + Syms(ts[2..]))
    else if ts[0].kind == '(' || ts[0].kind == ')' then Syms(ts[1..])
    else [if ts[0].kind == 'a' then Arg(SpanOf(ts[0])) else Op(ts[0].kind)] + Syms(ts[1..])
  }

  function ArgSyms(ws: seq<Span>): seq<Sym> { if ws == [] then [] else [Arg(ws[0])] + ArgSyms(ws[1..]) }

  /** The signs of a command: left before right, a command before its redirection. */
  function Flat(c: Cmd): seq<Sym> {
    match c
    case Execute(argv) => ArgSyms(argv)
    case Redirect(d, file, input) => Flat(d) + [File(file, input)]
    case Connect(l, r) => Flat(l) + [Op('|')] + Flat(r)
    case Sequence(l, r) => Flat(l) + [Op(';')] + Flat(r)
    case Background(d) => Flat(d) + [Op('&')]
  }

  function Kept(x: Sym, args: bool): seq<Sym> { if (if args then x.Arg? else x.File?) then [] else [x] }

  /** The signs but the redirections, or but the arguments. */
  function Without(ss: seq<Sym>, args: bool): seq<Sym> {
    if ss == [] then [] else Kept(ss[0], args) + Without(ss[1..], args)
  }

  lemma Regroup(a: seq<Sym>, b: seq<Sym>, c: seq<Sym>)
    ensures a + b + c == a + (b + c)
  {
  }

  lemma {:induction false} WithoutAppend(a: seq<Sym>, b: seq<Sym>, args: bool)
    ensures Without(a + b, args) == Without(a, args) + Without(b, args)
    decreases |a|
  {
    if a == [] {
      assert a + b == b;
    } else {
      assert (a + b)[1..] == a[1..] + b && (a + b)[0] == a[0];
      WithoutAppend(a[1..], b, args);
      Regroup(Kept(a[0], args), Without(a[1..], args), Without(b, args));
    }
  }

  /** The same but for the order of arguments and redirections between two operators. */
  predicate Same(a: seq<Sym>, b: seq<Sym>) { forall args: bool :: Without(a, args) == Without(b, args) }

  lemma SameAppend(a: seq<Sym>, b: seq<Sym>, c: seq<Sym>, d: seq<Sym>)
    requires Same(a, b) && Same(c, d)
    ensures Same(a + c, b + d)
  {
    forall args: bool
      ensures Without(a + c, args) == Without(b + d, args)
    {
      WithoutAppend(a, c, args);
      WithoutAppend(b, d, args);
    }
  }

  /** No redirection at the end without its file. */
  predicate Closed(ts: seq<Tok>) {
    ts == [] || if IsRedir(ts[0]) then |ts| >= 2 && Closed(ts[2..]) else Closed(ts[1..])
  }

  lemma {:induction false} SymsAppend(a: seq<Tok>, b: seq<Tok>)
    requires Closed(a)
    ensures Syms(a + b) == Syms(a) + Syms(b) && (Closed(b) ==> Closed(a + b))
    decreases |a|
  {
    if a == [] {
      assert a + b == b;
    } else if IsRedir(a[0]) {
      assert (a + b)[2..] == a[2..] + b && (a + b)[1] == a[1];
      SymsAppend(a[2..], b);
    } else {
      assert (a + b)[1..] == a[1..] + b;
      SymsAppend(a[1..], b);
    }
  }

  lemma OneTok(t: Tok)
    requires !IsRedir(t)
    ensures Closed([t])
    ensures Syms([t]) == if t.kind == '(' || t.kind == ')' then []
                         else [if t.kind == 'a' then Arg(SpanOf(t)) else Op(t.kind)]
  {
    assert [t][1..] == [];
  }

  lemma {:induction false} AmpsFlat(c: Cmd, ts: seq<Tok>)
    requires AmpsOk(ts)
    ensures Closed(ts) && Flat(InBackground(c, |ts|)) == Flat(c) + Syms(ts)
    decreases |ts|
  {
    if ts != [] {
      var n := |ts| - 1;
      AmpsFlat(c, ts[..n]);
      assert ts == ts[..n] + [ts[n]] && ts[n].kind == '&';
      OneTok(ts[n]);
      SymsAppend(ts[..n], [ts[n]]);
      assert Flat(InBackground(c, |ts|)) == Flat(InBackground(c, n)) + [Op('&')];
    } else {
      assert Flat(c) + [] == Flat(c);
    }
  }

  /** The redirections of some items. */
  function FileSyms(items: seq<Item>): seq<Sym> {
    if items == [] then []
    else (if items[0].Red? then [File(SpanOf(items[0].file), items[0].op.kind == '<')] else []) + FileSyms(items[1..])
  }

  lemma {:induction false} WrapFlat(c: Cmd, items: seq<Item>)
    ensures Flat(Wrap(c, items)) == Flat(c) + FileSyms(items)
    decreases |items|
  {
    if items == [] {
      assert Flat(c) + [] == Flat(c);
    } else if items[0].Red? {
      var f := File(SpanOf(items[0].file), items[0].op.kind == '<');
      var d := Redirect(c, f.w, f.input);
      WrapFlat(d, items[1..]);
      Regroup(Flat(c), [f], FileSyms(items[1..]));
    } else {
      WrapFlat(c, items[1..]);
      assert [] + FileSyms(items[1..]) == FileSyms(items[1..]);
    }
  }

  lemma {:induction false} ArgsOnly(ws: seq<Span>, args: bool)
    ensures Without(ArgSyms(ws), args) == if args then [] else ArgSyms(ws)
  {
    if ws != [] {
      ArgsOnly(ws[1..], args);
      assert ArgSyms(ws)[1..] == ArgSyms(ws[1..]);
    }
  }

  lemma {:induction false} FilesOnly(items: seq<Item>, args: bool)
    ensures Without(FileSyms(items), args) == if args then FileSyms(items) else []
  {
    if items != [] {
      FilesOnly(items[1..], args);
      if items[0].Red? {
        assert FileSyms(items)[1..] == FileSyms(items[1..]);
      } else {
        assert FileSyms(items) == FileSyms(items[1..]);
      }
    }
  }

  lemma ItemSyms(x: Item)
    requires ItemOk(x)
    ensures Closed(ItemText(x))
    ensures Syms(ItemText(x)) == if x.Word? then [Arg(SpanOf(x.t))] else [File(SpanOf(x.file), x.op.kind == '<')]
  {
    if x.Word? {
      OneTok(x.t);
    } else {
      assert ItemText(x)[2..] == [];
    }
  }

  /** Among the items of a simple command arguments and redirections may be mixed. */
  lemma {:induction false} ItemsFlat(items: seq<Item>, args: bool)
    requires ItemsOk(items)
    ensures Closed(ItemsText(items))
    ensures Without(Syms(ItemsText(items)), args) == if args then FileSyms(items) else ArgSyms(Args(items))
  {
    if items != [] {
      var x, rest := items[0], items[1..];
      ItemsFlat(rest, args);
      ItemSyms(x);
      SymsAppend(ItemText(x), ItemsText(rest));
      WithoutAppend(Syms(ItemText(x)), Syms(ItemsText(rest)), args);
      assert Syms(ItemText(x))[1..] == [];
      if x.Word? {
        assert Args(items) == [SpanOf(x.t)] + Args(rest) && Args(items)[1..] == Args(rest);
      } else {
        assert Args(items) == Args(rest);
      }
    }
  }

  lemma SimpleFlat(items: seq<Item>)
    requires ItemsOk(items)
    ensures Closed(ItemsText(items)) && Same(Flat(Wrap(Execute(Args(items)), items)), Syms(ItemsText(items)))
  {
    WrapFlat(Execute(Args(items)), items);
    ItemsFlat(items, true);
    forall args: bool
      ensures Without(Flat(Wrap(Execute(Args(items)), items)), args) == Without(Syms(ItemsText(items)), args)
    {
      ItemsFlat(items, args);
      WithoutAppend(ArgSyms(Args(items)), FileSyms(items), args);
      ArgsOnly(Args(items), args);
      FilesOnly(items, args);
    }
  }

  lemma {:induction false} RedsFlat(items: seq<Item>)
    requires RedsOk(items)
    ensures Closed(ItemsText(items)) && Syms(ItemsText(items)) == FileSyms(items)
  {
    if items != [] {
      RedsFlat(items[1..]);
      ItemSyms(items[0]);
      SymsAppend(ItemText(items[0]), ItemsText(items[1..]));
    }
  }

  lemma ListFlat(c: Cmd, ts: seq<Tok>, t: Tok, d: Cmd, us: seq<Tok>)
    requires Closed(ts) && Closed(us) && Same(Flat(c), Syms(ts)) && Same(Flat(d), Syms(us)) && t.kind == ';'
    ensures Closed(ts + ([t] + us)) && Same(Flat(Sequence(c, d)), Syms(ts + ([t] + us)))
  {
    OneTok(t);
    SymsAppend([t], us);
    SymsAppend(ts, [t] + us);
    SameAppend([Op(';')], [Op(';')], Flat(d), Syms(us));
    SameAppend(Flat(c), Syms(ts), [Op(';')] + Flat(d), [Op(';')] + Syms(us));
    Regroup(Flat(c), [Op(';')], Flat(d));
  }

  lemma {:induction false} ExecFlat(x: Exec)
    requires ExecOk(x)
    ensures Closed(ExecText(x)) && Same(Flat(ExecCmd(x)), Syms(ExecText(x)))
    decreases x, 0
  {
    match x
    case Simple(items) => SimpleFlat(items);
    case Block(open, line, close, reds) =>
      LineFlat(line);
      OneTok(open);
      OneTok(close);
      RedsFlat(reds);
      SymsAppend([open], LineText(line));
      SymsAppend([open] + LineText(line), [close]);
      SymsAppend([open] + LineText(line) + [close], ItemsText(reds));
      WrapFlat(LineCmd(line), reds);
      SameAppend(Flat(LineCmd(line)), Syms(LineText(line)), FileSyms(reds), FileSyms(reds));
      assert [] + Syms(LineText(line)) + [] == Syms(LineText(line));
  }

  lemma {:induction false} PipeFlat(x: Pipeline)
    requires PipeOk(x)
    ensures Closed(PipeText(x)) && Same(Flat(PipeCmd(x)), Syms(PipeText(x)))
    decreases x, 1
  {
    ExecFlat(x.exec);
    if x.Bar? {
      PipeFlat(x.pipe);
      OneTok(x.t);
      SymsAppend([x.t], PipeText(x.pipe));
      SymsAppend(ExecText(x.exec), [x.t] + PipeText(x.pipe));
      var a, b := Flat(ExecCmd(x.exec)), Flat(PipeCmd(x.pipe));
      SameAppend([Op('|')], [Op('|')], b, Syms(PipeText(x.pipe)));
      SameAppend(a, Syms(ExecText(x.exec)), [Op('|')] + b, [Op('|')] + Syms(PipeText(x.pipe)));
      Regroup(a, [Op('|')], b);
    } else {
      assert ExecText(x.exec) + [] == ExecText(x.exec);
    }
  }

  /**
   * The tree of a line keeps all its signs in their order, each bar, ampersand, semicolon, argument and redirection,
   * except that between two operators the redirections come after the arguments.
   */
  lemma {:induction false} LineFlat(x: Line)
    requires LineOk(x)
    ensures Closed(LineText(x)) && Same(Flat(LineCmd(x)), Syms(LineText(x)))
    decreases x, 2
  {
    PipeFlat(x.pipe);
    var c := PipeCmd(x.pipe);
    AmpsFlat(c, x.amps);
    SymsAppend(PipeText(x.pipe), x.amps);
    SameAppend(Flat(c), Syms(PipeText(x.pipe)), Syms(x.amps), Syms(x.amps));
    var d, t := InBackground(c, |x.amps|), PipeText(x.pipe) + x.amps;
    if x.tail.Semi? {
      LineFlat(x.tail.line);
      ListFlat(d, t, x.tail.t, LineCmd(x.tail.line), LineText(x.tail.line));
    } else {
      assert t + [] == t;
    }
  }
}
