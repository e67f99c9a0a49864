/** The shell's parser: tokens, the grammar they follow, the command tree, and the strings cut out of the line. */
module Shell {
  const NUL := 0 as char
  const MAXARGS := 10

  // Tokens.

  /** A word has kind 'a', >> has kind '+', every other token its own character. It is the text from q up to eq. */
  datatype Tok = Tok(kind: char, q: nat, eq: nat)

  predicate IsSpace(c: char) { c == ' ' || c == '\t' || c == '\r' || c == '\n' || c == 11 as char }

  predicate IsSymbol(c: char) { c == '<' || c == '|' || c == '>' || c == '&' || c == ';' || c == '(' || c == ')' }

  predicate InWord(c: char) { !IsSpace(c) && !IsSymbol(c) }

  /** The first position from p on that is not white space. */
  function Skip(s: string, p: nat): (q: nat)
    requires p <= |s|
    ensures p <= q <= |s| && (q < |s| ==> !IsSpace(s[q]))
    ensures forall k: nat {:trigger s[k]} :: p <= k < q ==> IsSpace(s[k])
    decreases |s| - p
  {
    if p < |s| && IsSpace(s[p]) then Skip(s, p + 1) else p
  }

  /** The end of the word that starts at p. */
  function WordEnd(s: string, p: nat): (q: nat)
    requires p <= |s|
    ensures p <= q <= |s| && (q < |s| ==> !InWord(s[q]))
    ensures forall k: nat {:trigger s[k]} :: p <= k < q ==> InWord(s[k])
    decreases |s| - p
  {
    if p < |s| && InWord(s[p]) then WordEnd(s, p + 1) else p
  }

  function TokAt(s: string, q: nat): (t: Tok)
    requires q < |s| && !IsSpace(s[q])
    ensures t.q == q < t.eq <= |s|
    ensures if InWord(s[q]) then t.kind == 'a'
            else if s[q] == '>' then t.kind == '>' || t.kind == '+'
            else t.kind == s[q]
  {
    if !IsSymbol(s[q]) then Tok('a', q, WordEnd(s, q + 1))
    else if s[q] == '>' && q + 1 < |s| && s[q + 1] == '>' then Tok('+', q, q + 2)
    else Tok(s[q], q, q + 1)
  }

  /** The tokens of the line from p on. */
  function Lex(s: string, p: nat): (ts: seq<Tok>)
    requires p <= |s|
    decreases |s| - p
  {
    var q := Skip(s, p);
    if q == |s| then [] else [TokAt(s, q)] + Lex(s, TokAt(s, q).eq)
  }

  predicate TokOk(s: string, t: Tok) {
    && t.q < t.eq <= |s|
    && (t.kind == 'a' ==> (t.eq < |s| ==> !InWord(s[t.eq]))
                          && forall k: nat {:trigger s[k]} :: t.q <= k < t.eq ==> InWord(s[k]))
  }

  lemma {:induction false} LexOk(s: string, p: nat)
    requires p <= |s|
    ensures forall k: nat {:trigger Lex(s, p)[k]} :: k < |Lex(s, p)| ==> TokOk(s, Lex(s, p)[k]) && p <= Lex(s, p)[k].q
    decreases |s| - p
  {
    var q := Skip(s, p);
    if q < |s| {
      LexOk(s, TokAt(s, q).eq);
    }
  }

  /** A token of the line: a whole word, >>, or one symbol that is no part of >>. */
  predicate TokIs(s: string, t: Tok) {
    && t.q < t.eq <= |s|
    && match t.kind
       case 'a' =>
         && (t.eq < |s| ==> !InWord(s[t.eq]))
         && forall k: nat {:trigger s[k]} :: t.q <= k < t.eq ==> InWord(s[k])
       case '+' => t.eq == t.q + 2 && s[t.q] == s[t.q + 1] == '>'
       case c => t.eq == t.q + 1 && IsSymbol(c) && s[t.q] == c && (c == '>' && t.eq < |s| ==> s[t.eq] != '>')
  }

  /** Token i starts at or after p, behind the one before it, with nothing but white space between. */
  predicate LaidOut(s: string, p: nat, ts: seq<Tok>, i: nat)
    requires i < |ts|
  {
    var from := if i == 0 then p else ts[i - 1].eq;
    TokIs(s, ts[i]) && from <= ts[i].q && forall k: nat {:trigger s[k]} :: from <= k < ts[i].q ==> IsSpace(s[k])
  }

  /** The tokens are all the line has: only white space is left out, between them and after them. */
  lemma {:induction false} LexAll(s: string, p: nat)
    requires p <= |s|
    ensures var ts := Lex(s, p);
            && (forall i: nat {:trigger LaidOut(s, p, ts, i)} :: i < |ts| ==> LaidOut(s, p, ts, i))
            && var last := if ts == [] then p else ts[|ts| - 1].eq;
               p <= last <= |s| && forall k: nat {:trigger s[k]} :: last <= k < |s| ==> IsSpace(s[k])
    decreases |s| - p
  {
    var q := Skip(s, p);
    if q < |s| {
      var t := TokAt(s, q);
      var us := Lex(s, t.eq);
      LexAll(s, t.eq);
      forall i: nat {:trigger LaidOut(s, p, [t] + us, i)} | i < |[t] + us|
        ensures LaidOut(s, p, [t] + us, i)
      {
        if i > 0 {
          assert LaidOut(s, t.eq, us, i - 1);
        }
      }
    }
  }

  /** The first character of a symbol; some non-symbol for a word. */
  function CharOf(t: Tok): char { if t.kind == '+' then '>' else t.kind }

  // The grammar, as trees of tokens.

  datatype Item = Word(t: Tok) | Red(op: Tok, file: Tok)

  datatype Exec = Simple(items: seq<Item>) | Block(open: Tok, line: Line, close: Tok, reds: seq<Item>)

  datatype Pipeline = One(exec: Exec) | Bar(exec: Exec, t: Tok, pipe: Pipeline)

  datatype Line = Line(pipe: Pipeline, amps: seq<Tok>, tail: Tail)

  datatype Tail = End | Semi(t: Tok, line: Line)

  predicate IsRedir(t: Tok) { t.kind == '<' || t.kind == '>' || t.kind == '+' }

  predicate ItemOk(x: Item) {
    match x
    case Word(t) => t.kind == 'a'
    case Red(op, file) => IsRedir(op) && file.kind == 'a'
  }

  function Words(items: seq<Item>): nat {
    if items == [] then 0 else (if items[0].Word? then 1 else 0) + Words(items[1..])
  }

  predicate ItemsOk(items: seq<Item>) { forall k: nat {:trigger items[k]} :: k < |items| ==> ItemOk(items[k]) }

  predicate RedsOk(items: seq<Item>) {
    forall k: nat {:trigger items[k]} :: k < |items| ==> ItemOk(items[k]) && items[k].Red?
  }

  predicate AmpsOk(ts: seq<Tok>) { forall k: nat {:trigger ts[k]} :: k < |ts| ==> ts[k].kind == '&' }

  predicate PipeOk(x: Pipeline) { ExecOk(x.exec) && (x.Bar? ==> x.t.kind == '|' && PipeOk(x.pipe)) }

  predicate LineOk(x: Line) {
    PipeOk(x.pipe) && AmpsOk(x.amps) && (x.tail.Semi? ==> x.tail.t.kind == ';' && LineOk(x.tail.line))
  }

  predicate ExecOk(x: Exec) {
    match x
    case Simple(items) => ItemsOk(items) && Words(items) < MAXARGS
    case Block(open, line, close, reds) => open.kind == '(' && LineOk(line) && close.kind == ')' && RedsOk(reds)
  }

  // What a tree is written as.

  function ItemText(x: Item): seq<Tok> { if x.Word? then [x.t] else [x.op, x.file] }

  function ItemsText(items: seq<Item>): seq<Tok> {
    if items == [] then [] else ItemText(items[0]) + ItemsText(items[1..])
  }

  function PipeText(x: Pipeline): seq<Tok> {
    ExecText(x.exec) + if x.One? then [] else [x.t] + PipeText(x.pipe)
  }

  function LineText(x: Line): seq<Tok> {
    PipeText(x.pipe) + x.amps + if x.tail.End? then [] else [x.tail.t] + LineText(x.tail.line)
  }

  function ExecText(x: Exec): seq<Tok> {
    match x
    case Simple(items) => ItemsText(items)
    case Block(open, line, close, reds) => [open] + LineText(line) + [close] + ItemsText(reds)
  }

  // The parser on tokens.

  datatype Parsed<T> = Parsed(tree: T, rest: seq<Tok>) | Wrong

  function Redirs(ts: seq<Tok>): (r: Parsed<seq<Item>>)
    ensures r.Parsed? ==> |r.rest| <= |ts|
    decreases |ts|
  {
    if ts == [] || !IsRedir(ts[0]) then Parsed([], ts)
    else if |ts| < 2 || ts[1].kind != 'a' then Wrong
    else
      match Redirs(ts[2..])
      case Parsed(items, rest) => Parsed([Red(ts[0], ts[1])] + items, rest)
      case Wrong => Wrong
  }

  predicate Stops(ts: seq<Tok>) {
    ts == [] || ts[0].kind == '|' || ts[0].kind == ')' || ts[0].kind == '&' || ts[0].kind == ';'
  }

  /** The rest of a simple command that has argc words so far. */
  function Items(ts: seq<Tok>, argc: nat): (r: Parsed<seq<Item>>)
    ensures r.Parsed? ==> |r.rest| <= |ts|
    decreases |ts|
  {
    if Stops(ts) then Parsed([], ts)
    else if IsRedir(ts[0]) then
      if |ts| < 2 || ts[1].kind != 'a' then Wrong
      else
        match Items(ts[2..], argc)
        case Parsed(items, rest) => Parsed([Red(ts[0], ts[1])] + items, rest)
        case Wrong => Wrong
    else if ts[0].kind != 'a' || argc + 1 >= MAXARGS then Wrong
    else
      match Items(ts[1..], argc + 1)
      case Parsed(items, rest) => Parsed([Word(ts[0])] + items, rest)
      case Wrong => Wrong
  }

  function Amps(ts: seq<Tok>): (n: nat)
    ensures n <= |ts|
  {
    if ts != [] && ts[0].kind == '&' then 1 + Amps(ts[1..]) else 0
  }

  function PPipe(ts: seq<Tok>): (r: Parsed<Pipeline>)
    ensures r.Parsed? ==> |r.rest| <= |ts|
    decreases |ts|, 1
  {
    match PExec(ts)
    case Wrong => Wrong
    case Parsed(x, rest) =>
      if rest == [] || rest[0].kind != '|' then Parsed(One(x), rest)
      else
        match PPipe(rest[1..])
        case Parsed(p, more) => Parsed(Bar(x, rest[0], p), more)
        case Wrong => Wrong
  }

  function PLine(ts: seq<Tok>): (r: Parsed<Line>)
    ensures r.Parsed? ==> |r.rest| <= |ts|
    decreases |ts|, 2
  {
    match PPipe(ts)
    case Wrong => Wrong
    case Parsed(p, rest) =>
      var n := Amps(rest);
      var left := rest[n..];
      if left == [] || left[0].kind != ';' then Parsed(Line(p, rest[..n], End), left)
      else
        match PLine(left[1..])
        case Parsed(l, more) => Parsed(Line(p, rest[..n], Semi(left[0], l)), more)
        case Wrong => Wrong
  }

  function PExec(ts: seq<Tok>): (r: Parsed<Exec>)
    ensures r.Parsed? ==> |r.rest| <= |ts|
    decreases |ts|, 0
  {
    if ts != [] && ts[0].kind == '(' then
      match PLine(ts[1..])
      case Wrong => Wrong
      case Parsed(l, rest) =>
        if rest == [] || rest[0].kind != ')' then Wrong
        else
          match Redirs(rest[1..])
          case Parsed(reds, more) => Parsed(Block(ts[0], l, rest[0], reds), more)
          case Wrong => Wrong
    else
      match Items(ts, 0)
      case Parsed(items, rest) => Parsed(Simple(items), rest)
      case Wrong => Wrong
  }

  // The parser accepts exactly the grammar, and gives the tree of what it accepts.

  lemma ItemsCons(x: Item, items: seq<Item>, rest: seq<Tok>)
    ensures ItemsText([x] + items) + rest == ItemText(x) + (ItemsText(items) + rest)
    ensures Words([x] + items) == (if x.Word? then 1 else 0) + Words(items)
  {
    assert ([x] + items)[1..] == items;
  }

  lemma {:induction false} RedirsSound(ts: seq<Tok>)
    ensures var r := Redirs(ts);
            r.Parsed? ==> RedsOk(r.tree) && ItemsText(r.tree) + r.rest == ts && (r.rest == [] || !IsRedir(r.rest[0]))
    decreases |ts|
  {
    if ts == [] || !IsRedir(ts[0]) {
      assert ItemsText([]) + ts == ts;
    } else if |ts| >= 2 && ts[1].kind == 'a' {
      RedirsSound(ts[2..]);
      var r := Redirs(ts[2..]);
      if r.Parsed? {
        ItemsCons(Red(ts[0], ts[1]), r.tree, r.rest);
        assert [ts[0], ts[1]] + ts[2..] == ts;
      }
    }
  }

  /** What Items promises of a result. */
  predicate GoodItems(r: Parsed<seq<Item>>, ts: seq<Tok>, argc: nat) {
    r.Parsed? ==> ItemsOk(r.tree) && argc + Words(r.tree) < MAXARGS && ItemsText(r.tree) + r.rest == ts && Stops(r.rest)
  }

  function Prepend(a: seq<Item>, r: Parsed<seq<Item>>): Parsed<seq<Item>> {
    if r.Parsed? then Parsed(a + r.tree, r.rest) else Wrong
  }

  lemma GoodCons(x: Item, r: Parsed<seq<Item>>, ts: seq<Tok>, argc: nat)
    requires ItemOk(x) && GoodItems(r, ts, argc + if x.Word? then 1 else 0)
    ensures GoodItems(Prepend([x], r), ItemText(x) + ts, argc)
  {
    if r.Parsed? {
      ItemsCons(x, r.tree, r.rest);
    }
  }

  lemma RedirFirst(ts: seq<Tok>, argc: nat)
    requires |ts| >= 2 && IsRedir(ts[0]) && ts[1].kind == 'a'
    ensures Items(ts, argc) == Prepend([Red(ts[0], ts[1])], Items(ts[2..], argc))
    ensures ItemText(Red(ts[0], ts[1])) + ts[2..] == ts
  {
  }

  lemma WordFirst(ts: seq<Tok>, argc: nat)
    requires |ts| >= 1 && ts[0].kind == 'a' && argc + 1 < MAXARGS
    ensures Items(ts, argc) == Prepend([Word(ts[0])], Items(ts[1..], argc + 1))
    ensures ItemText(Word(ts[0])) + ts[1..] == ts
  {
  }

  lemma {:induction false} ItemsSound(ts: seq<Tok>, argc: nat)
    requires argc < MAXARGS
    ensures GoodItems(Items(ts, argc), ts, argc)
    decreases |ts|
  {
    if Stops(ts) {
      assert ItemsText([]) + ts == ts;
    } else if IsRedir(ts[0]) {
      if |ts| >= 2 && ts[1].kind == 'a' {
        ItemsSound(ts[2..], argc);
        RedirFirst(ts, argc);
        GoodCons(Red(ts[0], ts[1]), Items(ts[2..], argc), ts[2..], argc);
      }
    } else if ts[0].kind == 'a' && argc + 1 < MAXARGS {
      ItemsSound(ts[1..], argc + 1);
      WordFirst(ts, argc);
      GoodCons(Word(ts[0]), Items(ts[1..], argc + 1), ts[1..], argc);
    }
  }

  lemma {:induction false} AmpsSound(ts: seq<Tok>)
    ensures AmpsOk(ts[..Amps(ts)]) && (Amps(ts) < |ts| ==> ts[Amps(ts)].kind != '&')
  {
    if ts != [] && ts[0].kind == '&' {
      AmpsSound(ts[1..]);
      assert ts[..Amps(ts)] == [ts[0]] + ts[1..][..Amps(ts[1..])];
    }
  }

  lemma Regroup(a: seq<Tok>, b: seq<Tok>, t: Tok, c: seq<Tok>, d: seq<Tok>)
    ensures (a + b + ([t] + c)) + d == a + (b + ([t] + (c + d)))
  {
  }

  lemma Append3(a: seq<Tok>, b: seq<Tok>, c: seq<Tok>)
    ensures (a + b) + c == a + (b + c)
  {
  }

  /** The text of a line put together. */
  lemma LineJoin(x: Line, rest: seq<Tok>)
    ensures LineText(x) + rest
            == PipeText(x.pipe) + (x.amps + if x.tail.End? then rest else [x.tail.t] + (LineText(x.tail.line) + rest))
  {
    if x.tail.End? {
      Append3(PipeText(x.pipe), x.amps, rest);
    } else {
      Regroup(PipeText(x.pipe), x.amps, x.tail.t, LineText(x.tail.line), rest);
    }
  }

  /** The text of a pipeline put together. */
  lemma PipeJoin(x: Pipeline, rest: seq<Tok>)
    ensures PipeText(x) + rest == ExecText(x.exec) + if x.One? then rest else [x.t] + (PipeText(x.pipe) + rest)
  {
    if x.One? {
      assert PipeText(x) == ExecText(x.exec) + [];
    } else {
      Append3(ExecText(x.exec), [x.t] + PipeText(x.pipe), rest);
      Append3([x.t], PipeText(x.pipe), rest);
    }
  }

  lemma Enclose(o: Tok, a: seq<Tok>, c: Tok, b: seq<Tok>, rest: seq<Tok>)
    ensures ([o] + a + [c] + b) + rest == [o] + (a + ([c] + (b + rest)))
  {
  }

  lemma {:induction false} PipeSound(ts: seq<Tok>)
    ensures var r := PPipe(ts); r.Parsed? ==> PipeOk(r.tree) && PipeText(r.tree) + r.rest == ts
    decreases |ts|, 1
  {
    ExecSound(ts);
    var x, r := PExec(ts), PPipe(ts);
    if x.Parsed? && r.Parsed? {
      if x.rest != [] && x.rest[0].kind == '|' {
        PipeSound(x.rest[1..]);
        assert x.rest == [x.rest[0]] + x.rest[1..];
      }
      PipeJoin(r.tree, r.rest);
    }
  }

  lemma {:induction false} LineSound(ts: seq<Tok>)
    ensures var r := PLine(ts); r.Parsed? ==> LineOk(r.tree) && LineText(r.tree) + r.rest == ts
    decreases |ts|, 2
  {
    PipeSound(ts);
    var p, r := PPipe(ts), PLine(ts);
    if p.Parsed? && r.Parsed? {
      AmpsSound(p.rest);
      var n := Amps(p.rest);
      var left := p.rest[n..];
      assert p.rest == p.rest[..n] + left;
      if left != [] && left[0].kind == ';' {
        LineSound(left[1..]);
        assert left == [left[0]] + left[1..];
      }
      LineJoin(r.tree, r.rest);
    }
  }

  lemma {:induction false} ExecSound(ts: seq<Tok>)
    ensures var r := PExec(ts); r.Parsed? ==> ExecOk(r.tree) && ExecText(r.tree) + r.rest == ts
    decreases |ts|, 0
  {
    if ts != [] && ts[0].kind == '(' {
      LineSound(ts[1..]);
      var l := PLine(ts[1..]);
      if l.Parsed? && l.rest != [] && l.rest[0].kind == ')' {
        RedirsSound(l.rest[1..]);
        assert l.rest == [l.rest[0]] + l.rest[1..] && ts == [ts[0]] + ts[1..];
        var r := Redirs(l.rest[1..]);
        if r.Parsed? {
          Enclose(ts[0], LineText(l.tree), l.rest[0], ItemsText(r.tree), r.rest);
        }
      }
    } else {
      ItemsSound(ts, 0);
    }
  }

  lemma {:induction false} RedirsComplete(items: seq<Item>, rest: seq<Tok>)
    requires RedsOk(items) && (rest == [] || !IsRedir(rest[0]))
    ensures Redirs(ItemsText(items) + rest) == Parsed(items, rest)
  {
    if items == [] {
      assert ItemsText(items) + rest == rest;
    } else {
      var x, more := items[0], ItemsText(items[1..]) + rest;
      assert items == [x] + items[1..] && ItemOk(x) && x.Red?;
      RedirsComplete(items[1..], rest);
      ItemsCons(x, items[1..], rest);
      assert ([x.op, x.file] + more)[2..] == more;
    }
  }

  lemma {:induction false} ItemsComplete(items: seq<Item>, rest: seq<Tok>, argc: nat)
    requires ItemsOk(items) && argc + Words(items) < MAXARGS && Stops(rest)
    ensures Items(ItemsText(items) + rest, argc) == Parsed(items, rest)
    decreases |items|
  {
    if items == [] {
      assert ItemsText(items) + rest == rest;
    } else {
      var x, more := items[0], ItemsText(items[1..]) + rest;
      assert items == [x] + items[1..] && ItemOk(x);
      ItemsCons(x, items[1..], rest);
      if x.Word? {
        ItemsComplete(items[1..], rest, argc + 1);
        assert ([x.t] + more)[1..] == more;
      } else {
        ItemsComplete(items[1..], rest, argc);
        assert ([x.op, x.file] + more)[2..] == more;
      }
    }
  }

  lemma {:induction false} AmpsComplete(amps: seq<Tok>, rest: seq<Tok>)
    requires AmpsOk(amps) && (rest == [] || rest[0].kind != '&')
    ensures Amps(amps + rest) == |amps|
  {
    if amps == [] {
      assert amps + rest == rest;
    } else {
      AmpsComplete(amps[1..], rest);
      assert (amps + rest)[1..] == amps[1..] + rest;
    }
  }

  /** What may follow a line: the end or a closing parenthesis. */
  predicate LineEnds(ts: seq<Tok>) { ts == [] || ts[0].kind == ')' }

  lemma AmpsSplit(amps: seq<Tok>, left: seq<Tok>)
    requires AmpsOk(amps) && (left == [] || left[0].kind != '&')
    ensures Amps(amps + left) == |amps| && (amps + left)[..|amps|] == amps && (amps + left)[|amps|..] == left
    ensures LineEnds(amps + left) || (amps + left)[0].kind == '&' || amps + left == left
  {
    AmpsComplete(amps, left);
    if amps == [] {
      assert amps + left == left;
    } else {
      assert (amps + left)[0] == amps[0];
    }
  }

  lemma FirstItem(items: seq<Item>, rest: seq<Tok>)
    requires ItemsOk(items) && Stops(rest)
    ensures ItemsText(items) + rest == [] || (ItemsText(items) + rest)[0].kind != '('
  {
    if items == [] {
      assert ItemsText(items) + rest == rest;
    } else {
      assert ItemOk(items[0]);
      assert ItemsText(items) + rest == ItemText(items[0]) + (ItemsText(items[1..]) + rest);
    }
  }

  lemma {:induction false} PipeComplete(x: Pipeline, rest: seq<Tok>)
    requires PipeOk(x) && (LineEnds(rest) || rest[0].kind == '&' || rest[0].kind == ';')
    ensures PPipe(PipeText(x) + rest) == Parsed(x, rest)
    decreases x, 1
  {
    PipeJoin(x, rest);
    if x.One? {
      ExecComplete(x.exec, rest);
    } else {
      var left := [x.t] + (PipeText(x.pipe) + rest);
      ExecComplete(x.exec, left);
      PipeComplete(x.pipe, rest);
      assert left[1..] == PipeText(x.pipe) + rest;
    }
  }

  lemma {:induction false} LineComplete(x: Line, rest: seq<Tok>)
    requires LineOk(x) && LineEnds(rest)
    ensures PLine(LineText(x) + rest) == Parsed(x, rest)
    decreases x, 2
  {
    LineJoin(x, rest);
    var left := if x.tail.End? then rest else [x.tail.t] + (LineText(x.tail.line) + rest);
    AmpsSplit(x.amps, left);
    PipeComplete(x.pipe, x.amps + left);
    if x.tail.Semi? {
      LineComplete(x.tail.line, rest);
      assert left[1..] == LineText(x.tail.line) + rest;
    }
  }

  lemma {:induction false} ExecComplete(x: Exec, rest: seq<Tok>)
    requires ExecOk(x) && Stops(rest)
    ensures PExec(ExecText(x) + rest) == Parsed(x, rest)
    decreases x, 0
  {
    match x
    case Simple(items) =>
      ItemsComplete(items, rest, 0);
      FirstItem(items, rest);
    case Block(open, line, close, reds) =>
      Enclose(open, LineText(line), close, ItemsText(reds), rest);
      var ts := ExecText(x) + rest;
      var left := [close] + (ItemsText(reds) + rest);
      assert ts[1..] == LineText(line) + left;
      LineComplete(line, left);
      assert left[1..] == ItemsText(reds) + rest;
      RedirsComplete(reds, rest);
  }

  /** The whole token list is parsed as x exactly when x is a tree of the grammar written as that list. */
  lemma ParseIff(ts: seq<Tok>, x: Line)
    ensures PLine(ts) == Parsed(x, []) <==> LineOk(x) && LineText(x) == ts
  {
    LineSound(ts);
    if LineOk(x) && LineText(x) == ts {
      LineComplete(x, []);
      assert LineText(x) + [] == ts;
    }
    assert PLine(ts) == Parsed(x, []) ==> LineText(x) + [] == LineText(x);
  }

  // The command tree.

  /** A string of the command: the text from q up to eq. */
  datatype Span = Span(q: nat, eq: nat)

  /** input: < opens the file for reading as descriptor 0; > and >> both open it for writing as descriptor 1. */
  datatype Cmd =
    | Execute(argv: seq<Span>)
    | Redirect(cmd: Cmd, file: Span, input: bool)
    | Connect(left: Cmd, right: Cmd)
    | Sequence(left: Cmd, right: Cmd)
    | Background(cmd: Cmd)

  function SpanOf(t: Tok): Span { Span(t.q, t.eq) }

  function Args(items: seq<Item>): seq<Span> {
    if items == [] then [] else (if items[0].Word? then [SpanOf(items[0].t)] else []) + Args(items[1..])
  }

  /** The redirections around a command: the first is the innermost. */
  function Wrap(c: Cmd, items: seq<Item>): Cmd
    decreases |items|
  {
    if items == [] then c
    else Wrap(if items[0].Red? then Redirect(c, SpanOf(items[0].file), items[0].op.kind == '<') else c, items[1..])
  }

  function InBackground(c: Cmd, n: nat): Cmd { if n == 0 then c else Background(InBackground(c, n - 1)) }

  function PipeCmd(x: Pipeline): Cmd {
    if x.One? then ExecCmd(x.exec) else Connect(ExecCmd(x.exec), PipeCmd(x.pipe))
  }

  function LineCmd(x: Line): Cmd {
    var c := InBackground(PipeCmd(x.pipe), |x.amps|);
    if x.tail.End? then c else Sequence(c, LineCmd(x.tail.line))
  }

  function ExecCmd(x: Exec): Cmd {
    match x
    case Simple(items) => Wrap(Execute(Args(items)), items)
    case Block(_, line, _, reds) => Wrap(LineCmd(line), reds)
  }

  // Strings.

  /** The strings of a command. */
  function Spans(c: Cmd): seq<Span> {
    match c
    case Execute(argv) => argv
    case Redirect(d, file, _) => Spans(d) + [file]
    case Connect(l, r) => Spans(l) + Spans(r)
    case Sequence(l, r) => Spans(l) + Spans(r)
    case Background(d) => Spans(d)
  }

  /** A span is a whole word of the line. */
  predicate IsWord(s: string, w: Span) {
    && w.q < w.eq <= |s| && (w.eq < |s| ==> !InWord(s[w.eq]))
    && forall k: nat {:trigger s[k]} :: w.q <= k < w.eq ==> InWord(s[k])
  }

  predicate AreWords(s: string, ws: seq<Span>) {
    forall k: nat {:trigger ws[k]} :: k < |ws| ==> IsWord(s, ws[k])
  }

  predicate ToksOk(s: string, ts: seq<Tok>) {
    forall k: nat {:trigger ts[k]} :: k < |ts| ==> TokOk(s, ts[k])
  }

  lemma TailOk(s: string, a: seq<Tok>, b: seq<Tok>)
    requires ToksOk(s, a + b)
    ensures ToksOk(s, a) && ToksOk(s, b)
  {
    forall k: nat {:trigger a[k]} | k < |a|
      ensures TokOk(s, a[k])
    {
      assert (a + b)[k] == a[k];
    }
    forall k: nat {:trigger b[k]} | k < |b|
      ensures TokOk(s, b[k])
    {
      assert (a + b)[|a| + k] == b[k];
    }
  }

  lemma {:induction false} ArgsAreWords(s: string, items: seq<Item>)
    requires ItemsOk(items) && ToksOk(s, ItemsText(items))
    ensures AreWords(s, Args(items))
  {
    if items != [] {
      var x, text := items[0], ItemsText(items);
      assert ItemOk(x) && text == ItemText(x) + ItemsText(items[1..]);
      TailOk(s, ItemText(x), ItemsText(items[1..]));
      ArgsAreWords(s, items[1..]);
      assert x.Word? ==> text[0] == x.t;
    }
  }

  lemma {:induction false} WrapWords(s: string, c: Cmd, items: seq<Item>)
    requires ItemsOk(items) && ToksOk(s, ItemsText(items)) && AreWords(s, Spans(c))
    ensures AreWords(s, Spans(Wrap(c, items)))
    decreases |items|
  {
    if items != [] {
      var x, text := items[0], ItemsText(items);
      assert ItemOk(x) && text == ItemText(x) + ItemsText(items[1..]);
      TailOk(s, ItemText(x), ItemsText(items[1..]));
      if x.Red? {
        assert text[1] == x.file;
        WrapWords(s, Redirect(c, SpanOf(x.file), x.op.kind == '<'), items[1..]);
      } else {
        WrapWords(s, c, items[1..]);
      }
    }
  }

  lemma {:induction false} BackgroundWords(c: Cmd, n: nat)
    ensures Spans(InBackground(c, n)) == Spans(c)
  {
    if n > 0 {
      BackgroundWords(c, n - 1);
    }
  }

  lemma {:induction false} PipeWords(s: string, x: Pipeline)
    requires PipeOk(x) && ToksOk(s, PipeText(x))
    ensures AreWords(s, Spans(PipeCmd(x)))
    decreases x, 1
  {
    if x.One? {
      assert PipeText(x) == ExecText(x.exec) + [];
      TailOk(s, ExecText(x.exec), []);
    } else {
      TailOk(s, ExecText(x.exec), [x.t] + PipeText(x.pipe));
      TailOk(s, [x.t], PipeText(x.pipe));
      PipeWords(s, x.pipe);
    }
    ExecWords(s, x.exec);
  }

  lemma {:induction false} LineWords(s: string, x: Line)
    requires LineOk(x) && ToksOk(s, LineText(x))
    ensures AreWords(s, Spans(LineCmd(x)))
    decreases x, 2
  {
    LineJoin(x, []);
    assert LineText(x) + [] == LineText(x);
    var left := if x.tail.End? then [] else [x.tail.t] + (LineText(x.tail.line) + []);
    TailOk(s, PipeText(x.pipe), x.amps + left);
    PipeWords(s, x.pipe);
    BackgroundWords(PipeCmd(x.pipe), |x.amps|);
    if x.tail.Semi? {
      TailOk(s, x.amps, left);
      TailOk(s, [x.tail.t], LineText(x.tail.line) + []);
      TailOk(s, LineText(x.tail.line), []);
      LineWords(s, x.tail.line);
    }
  }

  lemma {:induction false} ExecWords(s: string, x: Exec)
    requires ExecOk(x) && ToksOk(s, ExecText(x))
    ensures AreWords(s, Spans(ExecCmd(x)))
    decreases x, 0
  {
    match x
    case Simple(items) =>
      ArgsAreWords(s, items);
      WrapWords(s, Execute(Args(items)), items);
    case Block(open, line, close, reds) =>
      TailOk(s, [open] + LineText(line) + [close], ItemsText(reds));
      TailOk(s, [open] + LineText(line), [close]);
      TailOk(s, [open], LineText(line));
      LineWords(s, line);
      WrapWords(s, LineCmd(line), reds);
  }

  lemma {:induction false} WrapMore(c: Cmd, a: seq<Item>, b: seq<Item>)
    ensures Wrap(c, a + b) == Wrap(Wrap(c, a), b)
    decreases |a|
  {
    if a == [] {
      assert a + b == b;
    } else {
      assert (a + b)[1..] == a[1..] + b;
      WrapMore(if a[0].Red? then Redirect(c, SpanOf(a[0].file), a[0].op.kind == '<') else c, a[1..], b);
    }
  }

  /** argv stored in the simple command inside its redirections. */
  function WithArgs(c: Cmd, argv: seq<Span>): Cmd {
    match c
    case Execute(_) => Execute(argv)
    case Redirect(d, file, input) => Redirect(WithArgs(d, argv), file, input)
    case _ => c
  }

  lemma {:induction false} WithArgsWrap(c: Cmd, items: seq<Item>, argv: seq<Span>)
    ensures WithArgs(Wrap(c, items), argv) == Wrap(WithArgs(c, argv), items)
    decreases |items|
  {
    if items != [] {
      WithArgsWrap(if items[0].Red? then Redirect(c, SpanOf(items[0].file), items[0].op.kind == '<') else c, items[1..],
                   argv);
    }
  }

  lemma ArgsCons(x: Item, items: seq<Item>)
    ensures Args([x] + items) == (if x.Word? then [SpanOf(x.t)] else []) + Args(items)
    ensures Words([x] + items) == (if x.Word? then 1 else 0) + Words(items)
  {
    assert ([x] + items)[1..] == items;
  }

  lemma {:induction false} ItemsAppend(a: seq<Item>, b: seq<Item>)
    ensures Args(a + b) == Args(a) + Args(b) && Words(a + b) == Words(a) + Words(b)
  {
    if a == [] {
      assert a + b == b && Args(a) == [];
    } else {
      ItemsAppend(a[1..], b);
      ArgsCons(a[0], a[1..] + b);
      ArgsCons(a[0], a[1..]);
      assert [a[0]] + (a[1..] + b) == a + b && [a[0]] + a[1..] == a;
    }
  }

  lemma {:induction false} NoArgs(items: seq<Item>)
    requires RedsOk(items)
    ensures Args(items) == [] && Words(items) == 0
  {
    if items != [] {
      NoArgs(items[1..]);
    }
  }

  lemma PrependTwice(a: seq<Item>, b: seq<Item>, r: Parsed<seq<Item>>)
    ensures Prepend(a, Prepend(b, r)) == Prepend(a + b, r)
  {
    if r.Parsed? {
      assert (a + b) + r.tree == a + (b + r.tree);
    }
  }

  /** Redirections first, then the rest of the simple command. */
  lemma {:induction false} RedirsThenItems(ts: seq<Tok>, argc: nat)
    ensures var r := Redirs(ts); Items(ts, argc) == if r.Parsed? then Prepend(r.tree, Items(r.rest, argc)) else Wrong
    decreases |ts|
  {
    var r := Redirs(ts);
    if ts == [] || !IsRedir(ts[0]) {
      var q := Items(ts, argc);
      assert q.Parsed? ==> [] + q.tree == q.tree;
    } else if |ts| >= 2 && ts[1].kind == 'a' {
      RedirsThenItems(ts[2..], argc);
      var q := Redirs(ts[2..]);
      if q.Parsed? {
        PrependTwice([Red(ts[0], ts[1])], q.tree, Items(q.rest, argc));
      }
    }
  }

  lemma PrependNothing(r: Parsed<seq<Item>>)
    ensures Prepend([], r) == r
  {
    assert r.Parsed? ==> [] + r.tree == r.tree;
  }

  /** The loop of parseexec: a simple command so far made of the items done, with rest still to come. */
  ghost predicate SoFar(ret: Cmd, argv: seq<Span>, ts: seq<Tok>, done: seq<Item>, rest: seq<Tok>) {
    && ret == Wrap(Execute(argv), done) && argv == Args(done) && Words(done) == |argv| < MAXARGS
    && Items(ts, 0) == Prepend(done, Items(rest, |argv|))
  }

  lemma SoFarRedirs(ret: Cmd, argv: seq<Span>, ts: seq<Tok>, done: seq<Item>, rest: seq<Tok>)
    requires SoFar(ret, argv, ts, done, rest)
    ensures var r := Redirs(rest);
            if r.Parsed? then SoFar(Wrap(ret, r.tree), argv, ts, done + r.tree, r.rest) else Items(ts, 0) == Wrong
  {
    var r := Redirs(rest);
    RedirsThenItems(rest, |argv|);
    if r.Parsed? {
      RedirsSound(rest);
      NoArgs(r.tree);
      ItemsAppend(done, r.tree);
      WrapMore(Execute(argv), done, r.tree);
      PrependTwice(done, r.tree, Items(r.rest, |argv|));
    }
  }

  lemma SoFarWord(ret: Cmd, argv: seq<Span>, ts: seq<Tok>, done: seq<Item>, rest: seq<Tok>)
    requires SoFar(ret, argv, ts, done, rest) && !Stops(rest) && !IsRedir(rest[0])
    ensures rest[0].kind != 'a' || |argv| + 1 >= MAXARGS ==> Items(ts, 0) == Wrong
    ensures var more := argv + [SpanOf(rest[0])];
            rest[0].kind == 'a' && |more| < MAXARGS ==>
              SoFar(WithArgs(ret, more), more, ts, done + [Word(rest[0])], rest[1..])
  {
    var x, more := Word(rest[0]), argv + [SpanOf(rest[0])];
    if rest[0].kind == 'a' && |more| < MAXARGS {
      ItemsAppend(done, [x]);
      assert Args([x]) == [SpanOf(x.t)] + Args([x][1..]) && Words([x]) == 1 + Words([x][1..]) && [x][1..] == [];
      WithArgsWrap(Execute(argv), done, more);
      WrapMore(Execute(more), done, [x]);
      PrependTwice(done, [x], Items(rest[1..], |more|));
    }
  }

  lemma AmpsNext(ts: seq<Tok>, n: nat)
    requires n < |ts| && ts[n].kind == '&'
    ensures Amps(ts[n..]) == 1 + Amps(ts[n + 1..]) && ts[n..][1..] == ts[n + 1..]
  {
  }

  // The parser on the line.

  datatype Result = Ok(cmd: Cmd) | Panic

  class Parser {
    const s: string
    var p: nat

    predicate Valid()
      reads this
    {
      p <= |s|
    }

    constructor (s: string)
      ensures this.s == s && p == 0 && Valid()
    {
      this.s, p := s, 0;
    }

    /** The tokens still to come. */
    function Rest(): seq<Tok>
      reads this
      requires Valid()
    {
      Lex(s, p)
    }

    method SkipSpace()
      requires Valid()
      modifies this
      ensures Valid() && p == Skip(s, old(p)) && Rest() == old(Rest())
    {
      while p < |s| && IsSpace(s[p])
        invariant Valid() && Skip(s, p) == Skip(s, old(p))
        decreases |s| - p
      {
        p := p + 1;
      }
    }

    /** Takes the next token: its kind, or NUL at the end of the line, and where it starts and ends. */
    method GetToken() returns (ret: char, q: nat, eq: nat)
      requires Valid()
      modifies this
      ensures Valid()
      ensures ret == NUL <==> old(Rest()) == []
      ensures ret == NUL ==> Rest() == []
      ensures old(Rest()) != [] ==> Tok(ret, q, eq) == old(Rest())[0] && Rest() == old(Rest())[1..]
    {
      SkipSpace();
      q := p;
      if p == |s| {
        return NUL, q, p;
      }
      ret := s[p];
      if IsSymbol(s[p]) {
        p := p + 1;
        if ret == '>' && p < |s| && s[p] == '>' {
          ret := '+';
          p := p + 1;
        }
      } else {
        ret := 'a';
        while p < |s| && InWord(s[p])
          invariant q <= p <= |s| && WordEnd(s, p) == WordEnd(s, q)
          decreases |s| - p
        {
          p := p + 1;
        }
      }
      eq := p;
      SkipSpace();
    }

    /** Is the next character, white space aside, one of the symbols toks? */
    method Peek(toks: string) returns (found: bool)
      requires Valid() && forall c :: c in toks ==> IsSymbol(c)
      modifies this
      ensures Valid() && Rest() == old(Rest())
      ensures found <==> Rest() != [] && CharOf(Rest()[0]) in toks
    {
      SkipSpace();
      return p < |s| && s[p] in toks;
    }

    /** One redirection, put around the command so far. */
    method OneRedir(cmd: Cmd) returns (r: Result)
      requires Valid() && Rest() != [] && IsRedir(Rest()[0])
      modifies this
      ensures Valid()
      ensures var ts := old(Rest());
              if |ts| >= 2 && ts[1].kind == 'a'
              then r == Ok(Redirect(cmd, SpanOf(ts[1]), ts[0].kind == '<')) && Rest() == ts[2..]
              else r == Panic
    {
      ghost var ts := Rest();
      var tok, _, _ := GetToken();
      var kind, q, eq := GetToken();
      assert ts[1..] == [] ==> |ts| == 1;
      if kind != 'a' {
        return Panic;
      }
      assert ts[1..][1..] == ts[2..];
      return Ok(Redirect(cmd, Span(q, eq), tok == '<'));
    }

    /** Redirections, each put around the command so far. */
    method ParseRedirs(cmd: Cmd) returns (r: Result)
      requires Valid()
      modifies this
      ensures Valid()
      ensures var q := Redirs(old(Rest()));
              if q.Parsed? then r == Ok(Wrap(cmd, q.tree)) && Rest() == q.rest else r == Panic
    {
      ghost var ts, done: seq<Item> := Rest(), [];
      r := Ok(cmd);
      PrependNothing(Redirs(ts));
      var found := Peek("<>");
      while found
        invariant Valid() && r == Ok(Wrap(cmd, done)) && Redirs(ts) == Prepend(done, Redirs(Rest()))
        invariant found <==> Rest() != [] && IsRedir(Rest()[0])
        decreases |Rest()|
      {
        ghost var rest := Rest();
        r := OneRedir(r.cmd);
        if r.Panic? {
          return;
        }
        ghost var x := Red(rest[0], rest[1]);
        WrapMore(cmd, done, [x]);
        PrependTwice(done, [x], Redirs(Rest()));
        done := done + [x];
        found := Peek("<>");
      }
      assert done + [] == done;
    }

    /** The & signs after a pipeline. */
    method ParseAmps(cmd: Cmd) returns (c: Cmd)
      requires Valid()
      modifies this
      ensures Valid() && c == InBackground(cmd, Amps(old(Rest()))) && Rest() == old(Rest())[Amps(old(Rest()))..]
    {
      ghost var ts, n: nat := Rest(), 0;
      c := cmd;
      var found := Peek("&");
      while found
        invariant Valid() && n <= |ts| && Rest() == ts[n..] && Amps(ts) == n + Amps(ts[n..])
        invariant c == InBackground(cmd, n)
        invariant found <==> Rest() != [] && Rest()[0].kind == '&'
        decreases |Rest()|
      {
        var _, _, _ := GetToken();
        AmpsNext(ts, n);
        c, n := Background(c), n + 1;
        found := Peek("&");
      }
    }

    /** Redirections inside a simple command. */
    method AddRedirs(ret: Cmd, argv: seq<Span>, ghost ts: seq<Tok>, ghost done: seq<Item>)
      returns (r: Result, ghost more: seq<Item>)
      requires Valid() && SoFar(ret, argv, ts, done, Rest())
      modifies this
      ensures Valid()
      ensures r.Panic? ==> Items(ts, 0) == Wrong
      ensures r.Ok? ==> SoFar(r.cmd, argv, ts, more, Rest()) && (Rest() != [] ==> !IsRedir(Rest()[0]))
      ensures |Rest()| <= |old(Rest())| || r.Panic?
    {
      ghost var rest := Rest();
      SoFarRedirs(ret, argv, ts, done, rest);
      RedirsSound(rest);
      more := done + if Redirs(rest).Parsed? then Redirs(rest).tree else [];
      r := ParseRedirs(ret);
    }

    /** One round of parseexec's loop: a word and the redirections after it, or the end of the line. */
    method ParseWord(ret: Cmd, argv: seq<Span>, ghost ts: seq<Tok>, ghost done: seq<Item>)
      returns (r: Result, args: seq<Span>, end: bool, ghost more: seq<Item>)
      requires Valid() && SoFar(ret, argv, ts, done, Rest())
      requires Rest() != [] ==> !Stops(Rest()) && !IsRedir(Rest()[0])
      modifies this
      ensures Valid()
      ensures r.Panic? ==> Items(ts, 0) == Wrong
      ensures r.Ok? ==> SoFar(r.cmd, args, ts, more, Rest()) && (Rest() != [] ==> !IsRedir(Rest()[0]))
      ensures r.Ok? ==> if end then Rest() == old(Rest()) == [] else |Rest()| < |old(Rest())|
    {
      ghost var rest := Rest();
      args, end, more := argv, false, done;
      var tok, q, eq := GetToken();
      if tok == NUL {
        return Ok(ret), args, true, more;
      }
      SoFarWord(ret, argv, ts, done, rest);
      args := argv + [Span(q, eq)];
      if tok != 'a' || |args| >= MAXARGS {
        r := Panic;
        return;
      }
      r, more := AddRedirs(WithArgs(ret, args), args, ts, done + [Word(rest[0])]);
    }

    /** The loop of parseexec. */
    method ParseWords(ret: Cmd, argv0: seq<Span>, ghost ts: seq<Tok>, ghost done0: seq<Item>) returns (r: Result)
      requires Valid() && SoFar(ret, argv0, ts, done0, Rest()) && (Rest() != [] ==> !IsRedir(Rest()[0]))
      modifies this
      ensures Valid()
      ensures var q := Items(ts, 0);
              if q.Parsed? then r == Ok(Wrap(Execute(Args(q.tree)), q.tree)) && Rest() == q.rest else r == Panic
    {
      ghost var done := done0;
      var argv, end := argv0, false;
      r := Ok(ret);
      var found := Peek("|)&;");
      while !found && !end
        invariant Valid() && r.Ok? && SoFar(r.cmd, argv, ts, done, Rest())
        invariant Rest() != [] ==> !IsRedir(Rest()[0])
        invariant if found || end then Stops(Rest()) else Stops(Rest()) ==> Rest() == []
        decreases |Rest()|, !end
      {
        r, argv, end, done := ParseWord(r.cmd, argv, ts, done);
        if r.Panic? {
          return;
        }
        found := Peek("|)&;");
      }
      assert done + [] == done;
    }

    /** A simple command: words, with redirections anywhere between them. */
    method ParseSimple() returns (r: Result)
      requires Valid() && !(Rest() != [] && Rest()[0].kind == '(')
      modifies this
      ensures Valid()
      ensures var q := Items(old(Rest()), 0);
              if q.Parsed? then r == Ok(Wrap(Execute(Args(q.tree)), q.tree)) && Rest() == q.rest else r == Panic
    {
      ghost var ts, done := Rest(), [];
      PrependNothing(Items(ts, 0));
      r, done := AddRedirs(Execute([]), [], ts, done);
      if r.Ok? {
        r := ParseWords(r.cmd, [], ts, done);
      }
    }

    method ParseExec() returns (r: Result)
      requires Valid()
      modifies this
      ensures Valid()
      ensures var q := PExec(old(Rest()));
              if q.Parsed? then r == Ok(ExecCmd(q.tree)) && Rest() == q.rest else r == Panic
      decreases |Rest()|, 1
    {
      var found := Peek("(");
      if found {
        r := ParseBlock();
      } else {
        r := ParseSimple();
      }
    }

    /** A command, and after a bar another pipeline. */
    method ParsePipe() returns (r: Result)
      requires Valid()
      modifies this
      ensures Valid()
      ensures var q := PPipe(old(Rest()));
              if q.Parsed? then r == Ok(PipeCmd(q.tree)) && Rest() == q.rest else r == Panic
      decreases |Rest()|, 2
    {
      r := ParseExec();
      if r.Panic? {
        return;
      }
      var found := Peek("|");
      if found {
        var cmd := r.cmd;
        var _, _, _ := GetToken();
        r := ParsePipe();
        if r.Ok? {
          r := Ok(Connect(cmd, r.cmd));
        }
      }
    }

    /** After a semicolon, another line. */
    method ParseTail(cmd: Cmd) returns (r: Result)
      requires Valid()
      modifies this
      ensures Valid()
      ensures var ts := old(Rest());
              if ts == [] || ts[0].kind != ';' then r == Ok(cmd) && Rest() == ts
              else
                var q := PLine(ts[1..]);
                if q.Parsed? then r == Ok(Sequence(cmd, LineCmd(q.tree))) && Rest() == q.rest else r == Panic
      decreases |Rest()|, 3
    {
      r := Ok(cmd);
      var found := Peek(";");
      if found {
        var _, _, _ := GetToken();
        r := ParseLine();
        if r.Ok? {
          r := Ok(Sequence(cmd, r.cmd));
        }
      }
    }

    /** A pipeline that may run in the background, and after a semicolon another line. */
    method ParseLine() returns (r: Result)
      requires Valid()
      modifies this
      ensures Valid()
      ensures var q := PLine(old(Rest()));
              if q.Parsed? then r == Ok(LineCmd(q.tree)) && Rest() == q.rest else r == Panic
      decreases |Rest()|, 4
    {
      r := ParsePipe();
      if r.Panic? {
        return;
      }
      var cmd := ParseAmps(r.cmd);
      r := ParseTail(cmd);
    }

    /** A line in parentheses, with redirections. */
    method ParseBlock() returns (r: Result)
      requires Valid() && Rest() != [] && Rest()[0].kind == '('
      modifies this
      ensures Valid()
      ensures var q := PExec(old(Rest()));
              if q.Parsed? then r == Ok(ExecCmd(q.tree)) && Rest() == q.rest else r == Panic
      decreases |Rest()|, 0
    {
      var _, _, _ := GetToken();
      r := ParseLine();
      if r.Panic? {
        return;
      }
      var found := Peek(")");
      if !found {
        return Panic;
      }
      var _, _, _ := GetToken();
      r := ParseRedirs(r.cmd);
    }
  }

  // The strings.

  ghost predicate EndsAt(ws: seq<Span>, k: nat) { exists i: nat {:trigger ws[i]} :: i < |ws| && ws[i].eq == k }

  lemma EndsSplit(a: seq<Span>, b: seq<Span>, k: nat)
    ensures EndsAt(a + b, k) <==> EndsAt(a, k) || EndsAt(b, k)
  {
    if EndsAt(a, k) {
      var i: nat :| i < |a| && a[i].eq == k;
      assert (a + b)[i] == a[i];
    }
    if EndsAt(b, k) {
      var i: nat :| i < |b| && b[i].eq == k;
      assert (a + b)[|a| + i] == b[i];
    }
  }

  predicate Within(ws: seq<Span>, n: nat) { forall i: nat {:trigger ws[i]} :: i < |ws| ==> ws[i].eq < n }

  lemma WithinSplit(a: seq<Span>, b: seq<Span>, n: nat)
    requires Within(a + b, n)
    ensures Within(a, n) && Within(b, n)
  {
    forall i: nat {:trigger a[i]} | i < |a|
      ensures a[i].eq < n
    {
      assert (a + b)[i] == a[i];
    }
    forall i: nat {:trigger b[i]} | i < |b|
      ensures b[i].eq < n
    {
      assert (a + b)[|a| + i] == b[i];
    }
  }

  /** Ends every string of the command with a NUL in the line itself. */
  method NulTerminate(cmd: Cmd, buf: array<char>)
    requires Within(Spans(cmd), buf.Length)
    modifies buf
    ensures forall k: nat {:trigger buf[k]} :: k < buf.Length ==>
              buf[k] == if EndsAt(Spans(cmd), k) then NUL else old(buf[k])
    decreases cmd, 1
  {
    match cmd {
      case Execute(argv) =>
        var i := 0;
        while i < |argv|
          invariant i <= |argv|
          invariant forall k: nat {:trigger buf[k]} :: k < buf.Length ==>
                      buf[k] == if EndsAt(argv[..i], k) then NUL else old(buf[k])
        {
          assert argv[..i + 1] == argv[..i] + [argv[i]];
          forall k: nat {:trigger EndsAt(argv[..i + 1], k)}
            ensures EndsAt(argv[..i + 1], k) <==> EndsAt(argv[..i], k) || argv[i].eq == k
          {
            EndsSplit(argv[..i], [argv[i]], k);
            assert [argv[i]][0] == argv[i];
          }
          buf[argv[i].eq] := NUL;
          i := i + 1;
        }
        assert argv[..i] == argv;
      case Redirect(d, file, _) =>
        WithinSplit(Spans(d), [file], buf.Length);
        assert [file][0] == file;
        NulTerminate(d, buf);
        buf[file.eq] := NUL;
        forall k: nat {:trigger EndsAt(Spans(cmd), k)}
          ensures EndsAt(Spans(cmd), k) <==> EndsAt(Spans(d), k) || file.eq == k
        {
          EndsSplit(Spans(d), [file], k);
        }
      case Connect(_, _) => NulBoth(cmd, buf);
      case Sequence(_, _) => NulBoth(cmd, buf);
      case Background(d) => NulTerminate(d, buf);
    }
  }

  /** The two sides of a pipe or a list. */
  method NulBoth(cmd: Cmd, buf: array<char>)
    requires (cmd.Connect? || cmd.Sequence?) && Within(Spans(cmd), buf.Length)
    modifies buf
    ensures forall k: nat {:trigger buf[k]} :: k < buf.Length ==>
              buf[k] == if EndsAt(Spans(cmd), k) then NUL else old(buf[k])
    decreases cmd, 0
  {
    ghost var l, r := Spans(cmd.left), Spans(cmd.right);
    WithinSplit(l, r, buf.Length);
    NulTerminate(cmd.left, buf);
    NulTerminate(cmd.right, buf);
    forall k: nat {:trigger EndsAt(l + r, k)}
      ensures EndsAt(l + r, k) <==> EndsAt(l, k) || EndsAt(r, k)
    {
      EndsSplit(l, r, k);
    }
  }

  /** The string that starts at w.q in the buffer is the text of w in the line. */
  predicate IsString(b: seq<char>, s: string, w: Span) {
    && w.q < w.eq < |b| == |s| + 1 && b[w.eq] == NUL
    && forall k: nat {:trigger b[k]} :: w.q <= k < w.eq ==> b[k] == s[k] != NUL
  }

  /** A NUL at the end of a word falls into no word. */
  lemma WordsApart(s: string, v: Span, w: Span)
    requires IsWord(s, v) && IsWord(s, w)
    ensures !(w.q <= v.eq < w.eq)
  {
  }

  lemma NoEndInside(s: string, ws: seq<Span>, w: Span, k: nat)
    requires AreWords(s, ws) && IsWord(s, w) && w.q <= k < w.eq
    ensures !EndsAt(ws, k)
  {
    forall j: nat {:trigger ws[j]} | j < |ws|
      ensures ws[j].eq != k
    {
      WordsApart(s, ws[j], w);
    }
  }

  lemma StringsCut(s: string, b: seq<char>, ws: seq<Span>, i: nat)
    requires AreWords(s, ws) && i < |ws| && |b| == |s| + 1 && forall c :: c in s ==> c != NUL
    requires forall k: nat {:trigger b[k]} :: k < |b| ==> b[k] == if EndsAt(ws, k) || k == |s| then NUL else s[k]
    ensures IsString(b, s, ws[i])
  {
    var w := ws[i];
    assert IsWord(s, w) && EndsAt(ws, w.eq);
    forall k: nat {:trigger b[k]} | w.q <= k < w.eq
      ensures b[k] == s[k] != NUL
    {
      NoEndInside(s, ws, w, k);
      assert s[k] in s;
    }
  }

  /**
   * Parses the line in buf: it is accepted exactly if its tokens are a line of the grammar, the command is the one the
   * grammar gives, and each of its strings then stands in buf as the text it was in the line.
   */
  method ParseCmd(buf: array<char>, s: string) returns (r: Result, ghost x: Line)
    requires buf[..] == s + [NUL] && forall c :: c in s ==> c != NUL
    modifies buf
    ensures r.Ok? ==> LineOk(x) && LineText(x) == Lex(s, 0) && r.cmd == LineCmd(x)
    ensures r.Ok? ==> forall i: nat {:trigger Spans(r.cmd)[i]} ::
                        i < |Spans(r.cmd)| ==> IsString(buf[..], s, Spans(r.cmd)[i])
    ensures r.Panic? ==> buf[..] == s + [NUL] && forall y: Line {:trigger LineOk(y)} ::
                           !(LineOk(y) && LineText(y) == Lex(s, 0))
  {
    var p := new Parser(s);
    ghost var ts := Lex(s, 0);
    r := p.ParseLine();
    x := if PLine(ts).Parsed? then PLine(ts).tree else Line(One(Simple([])), [], End);
    forall y: Line {:trigger LineOk(y)}
      ensures PLine(ts) == Parsed(y, []) <==> LineOk(y) && LineText(y) == ts
    {
      ParseIff(ts, y);
    }
    if r.Panic? {
      return;
    }
    p.SkipSpace();
    if p.p != |s| {
      r := Panic;
      return;
    }
    assert PLine(ts) == Parsed(x, []) && LineOk(x);
    LexOk(s, 0);
    LineWords(s, x);
    ghost var ws := Spans(r.cmd);
    assert forall i: nat {:trigger ws[i]} :: i < |ws| ==> IsWord(s, ws[i]);
    NulTerminate(r.cmd, buf);
    forall i: nat {:trigger ws[i]} | i < |ws|
      ensures IsString(buf[..], s, ws[i])
    {
      StringsCut(s, buf[..], ws, i);
    }
  }
}
