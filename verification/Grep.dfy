/** The regular-expression matcher of grep.c against the language of the pattern. */
module Grep {

  /** A pattern: characters (`.` stands for any), each perhaps starred; it may end in `$`. */
  datatype Pattern = Done | AtEnd | Item(c: char, star: bool, rest: Pattern)

  /** What the text of a pattern denotes from position p on. */
  function Parse(re: string, p: nat): Pattern
    requires p <= |re|
    decreases |re| - p
  {
    if p == |re| then Done
    else if p + 1 < |re| && re[p + 1] == '*' then Item(re[p], true, Parse(re, p + 2))
    else if re[p] == '$' && p + 1 == |re| then AtEnd
    else Item(re[p], false, Parse(re, p + 1))
  }

  function Print(pat: Pattern): string {
    match pat
    case Done => ""
    case AtEnd => "$"
    case Item(c, star, rest) => (if star then [c, '*'] else [c]) + Print(rest)
  }

  /** Every text is a pattern, and reading it loses nothing. */
  lemma {:induction false} PrintParse(re: string, p: nat)
    requires p <= |re|
    ensures Print(Parse(re, p)) == re[p..]
    decreases |re| - p
  {
    if p == |re| {
    } else if p + 1 < |re| && re[p + 1] == '*' {
      PrintParse(re, p + 2);
      assert re[p..] == [re[p], '*'] + re[p + 2..];
    } else if re[p] == '$' && p + 1 == |re| {
      assert re[p..] == "$";
    } else {
      PrintParse(re, p + 1);
      assert re[p..] == [re[p]] + re[p + 1..];
    }
  }

  predicate Fits(c: char, x: char) {
    c == '.' || c == x
  }

  /** One item takes the text from i to k. */
  ghost predicate Takes(c: char, star: bool, text: string, i: int, k: int) {
    && 0 <= i <= k <= |text| && (!star ==> k == i + 1)
    && forall m :: i <= m < k ==> Fits(c, text[m])
  }

  /** The language of a pattern: the text from i to j is one piece for each item. */
  ghost predicate In(pat: Pattern, text: string, i: int, j: int)
    decreases pat
  {
    match pat
    case Done => i == j
    case AtEnd => i == j == |text|
    case Item(c, star, rest) => exists k :: Takes(c, star, text, i, k) && In(rest, text, k, j)
  }

  /** Some substring that starts at i is in the language. */
  ghost predicate FoundAt(pat: Pattern, text: string, i: int) {
    exists j :: In(pat, text, i, j)
  }

  lemma FoundNext(c: char, star: bool, rest: Pattern, text: string, i: int, k: int)
    requires Takes(c, star, text, i, k) && FoundAt(rest, text, k)
    ensures FoundAt(Item(c, star, rest), text, i)
  {
    var j :| In(rest, text, k, j);
    assert In(Item(c, star, rest), text, i, j);
  }

  lemma FoundTakes(c: char, star: bool, rest: Pattern, text: string, i: int) returns (k: int)
    requires FoundAt(Item(c, star, rest), text, i)
    ensures Takes(c, star, text, i, k) && FoundAt(rest, text, k)
  {
    var j :| In(Item(c, star, rest), text, i, j);
    k :| Takes(c, star, text, i, k) && In(rest, text, k, j);
  }

  /** matchhere(re + p, text + q) */
  method MatchHere(re: string, p: nat, text: string, q: nat) returns (found: bool)
    requires p <= |re| && q <= |text|
    ensures found <==> FoundAt(Parse(re, p), text, q)
    decreases |re| - p, 0
  {
    if p == |re| {
      assert In(Done, text, q, q);
      return true;
    }
    if p + 1 < |re| && re[p + 1] == '*' {
      found := MatchStar(re[p], re, p + 2, text, q);
      return;
    }
    if re[p] == '$' && p + 1 == |re| {
      assert q == |text| ==> In(AtEnd, text, q, q);
      return q == |text|;
    }
    if q < |text| && (re[p] == '.' || re[p] == text[q]) {
      found := MatchHere(re, p + 1, text, q + 1);
      if found {
        FoundNext(re[p], false, Parse(re, p + 1), text, q, q + 1);
      } else if FoundAt(Parse(re, p), text, q) {
        var k := FoundTakes(re[p], false, Parse(re, p + 1), text, q);
      }
      return;
    }
    if FoundAt(Parse(re, p), text, q) {
      var k := FoundTakes(re[p], false, Parse(re, p + 1), text, q);
      assert false;
    }
    return false;
  }

  /** matchstar(c, re + p, text + q) */
  method MatchStar(c: char, re: string, p: nat, text: string, q: nat) returns (found: bool)
    requires p <= |re| && q <= |text|
    ensures found <==> FoundAt(Item(c, true, Parse(re, p)), text, q)
    decreases |re| - p, 1
  {
    var t := q;
    while true
      invariant q <= t <= |text| && Takes(c, true, text, q, t)
      invariant forall k :: q <= k < t ==> !FoundAt(Parse(re, p), text, k)
      decreases |text| - t
    {
      found := MatchHere(re, p, text, t);
      if found {
        FoundNext(c, true, Parse(re, p), text, q, t);
        return true;
      }
      if t == |text| || !(text[t] == c || c == '.') {
        break;
      }
      t := t + 1;
    }
    if FoundAt(Item(c, true, Parse(re, p)), text, q) {
      var k := FoundTakes(c, true, Parse(re, p), text, q);
      assert false;
    }
    return false;
  }

  /** What grep looks for: a line some part of which is in the language; a prefix, if the
      pattern starts with `^`. */
  ghost predicate Selected(re: string, text: string) {
    if re != "" && re[0] == '^' then FoundAt(Parse(re, 1), text, 0)
    else exists i :: 0 <= i <= |text| && FoundAt(Parse(re, 0), text, i)
  }

  method Match(re: string, text: string) returns (found: bool)
    ensures found <==> Selected(re, text)
  {
    if re != "" && re[0] == '^' {
      found := MatchHere(re, 1, text, 0);
      return;
    }
    var i := 0;
    while true
      invariant 0 <= i <= |text|
      invariant forall k :: 0 <= k < i ==> !FoundAt(Parse(re, 0), text, k)
      decreases |text| - i
    {
      found := MatchHere(re, 0, text, i);
      if found {
        return true;
      }
      if i == |text| {
        break;
      }
      i := i + 1;
    }
    return false;
  }
}
