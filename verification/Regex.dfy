/**
 * The regular expression matcher of grep, against what its patterns mean. Strings are C strings without their final
 * zero: a test for that zero is a test for the end of the sequence.
 */
module Regex {

  datatype Item = One(c: char) | Any | Star(c: char)

  /** What a pattern asks for: these items in a row, from the start of the text, and perhaps up to its end. */
  datatype Pattern = Pattern(items: seq<Item>, end: bool)

  /** The reading of a pattern: x* whatever x is, a final $, and otherwise single characters. */
  function Parse(re: string): Pattern
    decreases |re|
  {
    if re == "" then Pattern([], false)
    else if |re| >= 2 && re[1] == '*' then Cons(Star(re[0]), Parse(re[2..]))
    else if re == "$" then Pattern([], true)
    else Cons(if re[0] == '.' then Any else One(re[0]), Parse(re[1..]))
  }

  function Cons(x: Item, p: Pattern): Pattern { Pattern([x] + p.items, p.end) }

  /** How a pattern is read, sign by sign: c* before anything else, $ only as the last sign, . for any character. */
  lemma ParseReads(c: char, re: string)
    ensures Parse([c, '*'] + re) == Cons(Star(c), Parse(re))
    ensures Parse("$") == Pattern([], true) && Parse("") == Pattern([], false)
    ensures (re == "" || re[0] != '*') && !(c == '$' && re == "") ==>
              Parse([c] + re) == Cons(if c == '.' then Any else One(c), Parse(re))
  {
    assert ([c, '*'] + re)[2..] == re;
    assert ([c] + re)[1..] == re;
  }

  // Meaning.

  predicate Repeats(c: char, s: string) {
    forall k: nat {:trigger s[k]} :: k < |s| ==> c == '.' || s[k] == c
  }

  predicate Piece(x: Item, s: string) {
    match x
    case One(c) => s == [c]
    case Any => |s| == 1
    case Star(c) => Repeats(c, s)
  }

  function Flat(ps: seq<string>): string { if ps == [] then "" else ps[0] + Flat(ps[1..]) }

  ghost predicate Pieces(items: seq<Item>, ps: seq<string>) {
    |ps| == |items| && forall k: nat {:trigger ps[k]} :: k < |ps| ==> Piece(items[k], ps[k])
  }

  /** The text starts with strings that match the items one by one. */
  ghost predicate Here(p: Pattern, text: string) {
    exists ps: seq<string> {:trigger Pieces(p.items, ps)} ::
      Pieces(p.items, ps) && Flat(ps) <= text && (p.end ==> Flat(ps) == text)
  }

  /** With ^ in front the text itself must do, otherwise the text from some place on. */
  ghost predicate Matches(re: string, text: string) {
    if re != "" && re[0] == '^' then Here(Parse(re[1..]), text)
    else exists k: nat {:trigger Here(Parse(re), text[k..])} :: k <= |text| && Here(Parse(re), text[k..])
  }

  lemma HereNothing(p: Pattern, text: string)
    requires p.items == []
    ensures Here(p, text) <==> !p.end || text == ""
  {
    assert Pieces(p.items, []) && Flat([]) == "";
    if Here(p, text) {
      var ps :| Pieces(p.items, ps) && Flat(ps) <= text && (p.end ==> Flat(ps) == text);
      assert ps == [];
    }
  }

  /** Peeling the first piece off. */
  lemma Peel(x: Item, p: Pattern, text: string) returns (s: string)
    requires Here(Cons(x, p), text)
    ensures Piece(x, s) && s <= text && Here(p, text[|s|..])
  {
    var q := Cons(x, p);
    var ps :| Pieces(q.items, ps) && Flat(ps) <= text && (q.end ==> Flat(ps) == text);
    s := ps[0];
    assert Piece(q.items[0], ps[0]);
    var rest := ps[1..];
    forall k: nat | k < |rest|
      ensures Piece(p.items[k], rest[k])
    {
      assert rest[k] == ps[k + 1] && q.items[k + 1] == p.items[k];
    }
    assert Pieces(p.items, rest);
    assert Flat(ps) == s + Flat(rest);
    assert text[..|Flat(ps)|] == Flat(ps);
    assert Flat(rest) == text[|s|..][..|Flat(rest)|];
  }

  lemma Attach(x: Item, p: Pattern, s: string, text: string)
    requires Piece(x, s) && s <= text && Here(p, text[|s|..])
    ensures Here(Cons(x, p), text)
  {
    var rest :| Pieces(p.items, rest) && Flat(rest) <= text[|s|..] && (p.end ==> Flat(rest) == text[|s|..]);
    var ps, q := [s] + rest, Cons(x, p);
    forall k: nat | k < |ps|
      ensures Piece(q.items[k], ps[k])
    {
      if k > 0 {
        assert ps[k] == rest[k - 1] && q.items[k] == p.items[k - 1];
      }
    }
    assert Pieces(q.items, ps);
    assert ps[1..] == rest && Flat(ps) == s + Flat(rest);
    assert text == s + text[|s|..];
  }

  /** A single character first. */
  lemma HereOne(x: Item, p: Pattern, text: string)
    requires !x.Star?
    ensures Here(Cons(x, p), text) <==> text != "" && (x.Any? || x.c == text[0]) && Here(p, text[1..])
  {
    if Here(Cons(x, p), text) {
      var s := Peel(x, p, text);
      assert s[0] == text[0];
    }
    if text != "" && (x.Any? || x.c == text[0]) && Here(p, text[1..]) {
      assert text[..1] == [text[0]];
      Attach(x, p, text[..1], text);
    }
  }

  /** The first k characters are repetitions, and the rest of the text does for the rest of the pattern. */
  ghost predicate After(c: char, p: Pattern, text: string, k: nat) {
    k <= |text| && Repeats(c, text[..k]) && Here(p, text[k..])
  }

  ghost predicate SomeAfter(c: char, p: Pattern, text: string) {
    exists k: nat {:trigger After(c, p, text, k)} :: After(c, p, text, k)
  }

  /** A repetition first: some number of characters is taken. */
  lemma HereStar(c: char, p: Pattern, text: string)
    ensures Here(Cons(Star(c), p), text) <==> SomeAfter(c, p, text)
  {
    if Here(Cons(Star(c), p), text) {
      var s := Peel(Star(c), p, text);
      assert s == text[..|s|];
      assert After(c, p, text, |s|);
    }
    if k: nat :| After(c, p, text, k) {
      Attach(Star(c), p, text[..k], text);
    }
  }

  // The matcher.

  method Match(re: string, text: string) returns (r: bool)
    ensures r <==> Matches(re, text)
  {
    if re != "" && re[0] == '^' {
      r := MatchHere(re[1..], text);
      return;
    }
    var at := 0;
    while true
      invariant at <= |text|
      invariant forall k: nat {:trigger Here(Parse(re), text[k..])} :: k < at ==> !Here(Parse(re), text[k..])
      decreases |text| - at
    {
      r := MatchHere(re, text[at..]);
      if r {
        return;
      }
      if at == |text| {
        return;
      }
      at := at + 1;
    }
  }

  method MatchHere(re: string, text: string) returns (r: bool)
    ensures r <==> Here(Parse(re), text)
    decreases |re|, 0
  {
    if re == "" {
      HereNothing(Parse(re), text);
      return true;
    }
    if |re| >= 2 && re[1] == '*' {
      assert Parse(re) == Cons(Star(re[0]), Parse(re[2..]));
      HereStar(re[0], Parse(re[2..]), text);
      r := MatchStar(re[0], re[2..], text);
      return;
    }
    if re[0] == '$' && |re| == 1 {
      assert re == "$";
      HereNothing(Parse(re), text);
      return text == "";
    }
    HereOne(if re[0] == '.' then Any else One(re[0]), Parse(re[1..]), text);
    if text != "" && (re[0] == '.' || re[0] == text[0]) {
      r := MatchHere(re[1..], text[1..]);
      return;
    }
    return false;
  }

  /** Tries the rest of the pattern after zero, one, two ... repetitions of c. */
  method MatchStar(c: char, re: string, text: string) returns (r: bool)
    ensures r <==> SomeAfter(c, Parse(re), text)
    decreases |re|, 1
  {
    var at := 0;
    while true
      invariant at <= |text| && Repeats(c, text[..at])
      invariant forall k: nat {:trigger After(c, Parse(re), text, k)} :: k < at ==> !After(c, Parse(re), text, k)
      decreases |text| - at
    {
      r := MatchHere(re, text[at..]);
      if r {
        assert After(c, Parse(re), text, at);
        return;
      }
      assert !After(c, Parse(re), text, at);
      if at == |text| || !(text[at] == c || c == '.') {
        forall k: nat | k > at
          ensures !After(c, Parse(re), text, k)
        {
          if k <= |text| {
            assert text[..k][at] == text[at];
          }
        }
        return;
      }
      assert text[..at + 1] == text[..at] + [text[at]];
      at := at + 1;
    }
  }
}
