/** `wrap_tab_get_calls_in_unsafe` of `crates/contextra-wire/build.rs`: the line rewriter that puts
    `unsafe { ... }` around the generated calls of `self._tab.get`. */
module WireBuild {
  import opened Basics

  const PATTERN := "self._tab.get"
  const GUARD := "unsafe"
  const OPENING := "unsafe { "
  const CLOSING := " }"

  lemma PatternNotEmpty()
    ensures |PATTERN| > 0
  {
  }

  // ---- Searching in strings ---------------------------------------------------------------------

  predicate Occurs(s: string, p: string, i: nat) {
    i + |p| <= |s| && s[i..i + |p|] == p
  }

  // The first occurrence of `p` in `s` at or after `from`.
  function Find(s: string, p: string, from: nat): (r: Option<nat>)
    requires from <= |s|
    ensures r.Some? ==> from <= r.value <= r.value + |p| <= |s| && Occurs(s, p, r.value)
    ensures r.Some? ==> forall i :: from <= i < r.value ==> !Occurs(s, p, i)
    ensures r.None? ==> forall i :: from <= i ==> !Occurs(s, p, i)
    decreases |s| - from
  {
    if Occurs(s, p, from) then Some(from)
    else if from == |s| then None
    else Find(s, p, from + 1)
  }

  predicate Contains(s: string, p: string) {
    Find(s, p, 0).Some?
  }

  // The parenthesis that brings the depth to zero when reading `s` from position `i` at depth `depth`.
  function Closing(s: string, i: nat, depth: int): (r: Option<nat>)
    requires i <= |s|
    ensures r.Some? ==> i <= r.value < |s|
    decreases |s| - i
  {
    if i == |s| then None
    else if s[i] == '(' then Closing(s, i + 1, depth + 1)
    else if s[i] == ')' then if depth - 1 == 0 then Some(i) else Closing(s, i + 1, depth - 1)
    else Closing(s, i + 1, depth)
  }

  // The last character of the call whose name occurs at position `i`.
  function CallEnd(s: string, i: nat): (r: Option<nat>)
    requires Occurs(s, PATTERN, i)
    ensures r.Some? ==> i + |PATTERN| <= r.value < |s|
  {
    match Find(s, "(", i + |PATTERN|)
    case None => None
    case Some(open) => Closing(s, open, 0)
  }

  predicate Guarded(s: string, i: nat)
    requires i <= |s|
  {
    Contains(s[..i], GUARD)
  }

  // ---- The line in pieces -----------------------------------------------------------------------

  datatype Piece = Plain(text: string) | Call(text: string)

  function Text(ps: seq<Piece>): string {
    if ps == [] then "" else ps[0].text + Text(ps[1..])
  }

  function Rendered(p: Piece): string {
    if p.Call? then OPENING + p.text + CLOSING else p.text
  }

  function Render(ps: seq<Piece>): string {
    if ps == [] then "" else Rendered(ps[0]) + Render(ps[1..])
  }

  // The pieces cut off `line[from..]` at the next occurrence of the pattern, at position `i`, and where
  // the search goes on.
  function Step(line: string, from: nat, i: nat): (r: (seq<Piece>, nat))
    requires from <= i && Occurs(line, PATTERN, i)
    ensures from < r.1 <= |line|
  {
    if !Guarded(line, i) && CallEnd(line, i).Some? then
      var e := CallEnd(line, i).value + 1;
      ([Plain(line[from..i]), Call(line[i..e])], e)
    else
      ([Plain(line[from..i + |PATTERN|])], i + |PATTERN|)
  }

  // What the rewriter makes of `line[from..]`.
  function Pieces(line: string, from: nat): seq<Piece>
    requires from <= |line|
    decreases |line| - from
  {
    match Find(line, PATTERN, from)
    case None => [Plain(line[from..])]
    case Some(i) =>
      var r := Step(line, from, i);
      r.0 + Pieces(line, r.1)
  }

  // ---- The rewriter -----------------------------------------------------------------------------

  /** The loop over the characters after the opening parenthesis. */
  method FindClosing(line: string, open: nat) returns (close: Option<nat>)
    requires open <= |line|
    ensures close == Closing(line, open, 0)
  {
    var depth := 0;
    close := None;
    var i := open;
    while i < |line|
      invariant open <= i <= |line|
      invariant close == None
      invariant Closing(line, open, 0) == Closing(line, i, depth)
    {
      var ch := line[i];
      if ch == '(' {
        depth := depth + 1;
      } else if ch == ')' {
        depth := depth - 1;
        if depth == 0 {
          close := Some(i);
          break;
        }
      }
      i := i + 1;
    }
  }

  method WrapTabGetCalls(line: string) returns (result: string)
    ensures result == Render(Pieces(line, 0))
    ensures var cuts := Cuts(Pieces(line, 0), 0);
      InTurn(cuts, 0, |line|) && result == Woven(line, cuts, 0) && Unwoven(result, cuts, 0) == Some(line)
    ensures Curls(result) == Curls(line)
  {
    AsText(line);
    hide PATTERN, OPENING, CLOSING, Render, Guarded, Pieces, Closing, Step, Find, Occurs, Cuts, Woven, Unwoven, Curls,
         InTurn;
    if !Contains(line, PATTERN) {
      RenderEnd("", line, 0);
      return line;
    }
    PatternNotEmpty();
    result := "";
    var searchFrom := 0;
    EmptyPrefix(Render(Pieces(line, 0)));
    while Find(line, PATTERN, searchFrom).Some?
      invariant searchFrom <= |line|
      invariant Render(Pieces(line, 0)) == result + Render(Pieces(line, searchFrom))
      decreases |line| - searchFrom
    {
      var i := Find(line, PATTERN, searchFrom).value;
      RenderStep(result, line, searchFrom);
      if Guarded(line, i) {
        result := result + line[searchFrom..i + |PATTERN|];
        searchFrom := i + |PATTERN|;
        continue;
      }
      var open := Find(line, "(", i + |PATTERN|);
      if open.Some? {
        var close := FindClosing(line, open.value);
        if close.Some? {
          result := result + line[searchFrom..i];
          result := result + OPENING;
          result := result + line[i..close.value + 1];
          result := result + CLOSING;
          searchFrom := close.value + 1;
          continue;
        }
      }
      result := result + line[searchFrom..i + |PATTERN|];
      searchFrom := i + |PATTERN|;
    }
    RenderEnd(result, line, searchFrom);
    result := result + line[searchFrom..];
  }

  // The output, as text.
  lemma AsText(line: string)
    ensures var out, cuts := Render(Pieces(line, 0)), Cuts(Pieces(line, 0), 0);
      && InTurn(cuts, 0, |line|) && out == Woven(line, cuts, 0) && Unwoven(out, cuts, 0) == Some(line)
      && Curls(out) == Curls(line)
  {
    hide Pieces, Text, Woven, Unwoven, Cuts, Curls, Render;
    TextOfPieces(line, 0);
    RenderIsWoven(line, Pieces(line, 0), 0);
    UnwovenGivesBack(line, Cuts(Pieces(line, 0), 0), 0);
    WovenBalances(line, Cuts(Pieces(line, 0), 0), 0);
    assert line[0..] == line;
  }

  lemma Regroup3(a: string, b: string, c: string)
    ensures a + (b + c) == a + b + c
  {
  }

  lemma Regroup(a: string, b: string, c: string, d: string)
    ensures a + (b + c + d) == a + b + c + d
  {
  }

  lemma {:induction false} RenderAppend(a: seq<Piece>, b: seq<Piece>)
    ensures Render(a + b) == Render(a) + Render(b)
  {
    hide Rendered;
    if a == [] {
      assert a + b == b;
    } else {
      RenderAppend(a[1..], b);
      assert (a + b)[1..] == a[1..] + b && (a + b)[0] == a[0];
      Regroup3(Rendered(a[0]), Render(a[1..]), Render(b));
    }
  }

  lemma RenderPush(a: seq<Piece>, p: Piece)
    ensures Render(a + [p]) == Render(a) + Rendered(p)
  {
    RenderAppend(a, [p]);
    assert Render([p]) == Rendered(p) by { hide Rendered; }
  }

  lemma RenderEnd(before: string, line: string, from: nat)
    requires from <= |line| && Find(line, PATTERN, from).None?
    ensures before + Render(Pieces(line, from)) == before + line[from..]
    ensures from == 0 ==> Render(Pieces(line, from)) == line
  {
  }

  // One turn of the loop, on the rendered text.
  lemma RenderStep(before: string, line: string, from: nat)
    requires from <= |line| && Find(line, PATTERN, from).Some?
    ensures var i := Find(line, PATTERN, from).value;
      before + Render(Pieces(line, from)) ==
        if !Guarded(line, i) && CallEnd(line, i).Some? then
          var e := CallEnd(line, i).value + 1;
          before + line[from..i] + OPENING + line[i..e] + CLOSING + Render(Pieces(line, e))
        else
          before + line[from..i + |PATTERN|] + Render(Pieces(line, i + |PATTERN|))
  {
    hide PATTERN, OPENING, CLOSING, Guarded, CallEnd, Render, Occurs;
    var i := Find(line, PATTERN, from).value;
    var r := Step(line, from, i);
    var rest := Pieces(line, r.1);
    assert Pieces(line, from) == r.0 + rest;
    RenderAppend(r.0, rest);
    Regroup3(before, Render(r.0), Render(rest));
    StepText(before, line, from, i);
  }

  lemma StepText(before: string, line: string, from: nat, i: nat)
    requires from <= i && Occurs(line, PATTERN, i)
    ensures before + Render(Step(line, from, i).0) ==
      if !Guarded(line, i) && CallEnd(line, i).Some?
      then before + line[from..i] + OPENING + line[i..CallEnd(line, i).value + 1] + CLOSING
      else before + line[from..i + |PATTERN|]
  {
    hide PATTERN, OPENING, CLOSING, Guarded, CallEnd;
    if !Guarded(line, i) && CallEnd(line, i).Some? {
      var e := CallEnd(line, i).value + 1;
      var p, q := Plain(line[from..i]), Call(line[i..e]);
      assert [p, q] == [p] + [q];
      RenderPush([], p);
      RenderPush([p], q);
      assert before + (line[from..i] + (OPENING + line[i..e] + CLOSING)) ==
             before + line[from..i] + (OPENING + line[i..e] + CLOSING);
      Regroup(before + line[from..i], OPENING, line[i..e], CLOSING);
    } else {
      RenderPush([], Plain(line[from..i + |PATTERN|]));
    }
  }

  // ---- What is wrapped --------------------------------------------------------------------------

  // Opening minus closing parentheses.
  function Height(s: string): int {
    if s == [] then 0
    else (if s[0] == '(' then 1 else if s[0] == ')' then -1 else 0) + Height(s[1..])
  }

  // `s` from position `i` on, up to and including `e`, is one parenthesised group.
  ghost predicate Parenthesised(s: string, i: nat, e: nat) {
    && i < e < |s| && s[i] == '('
    && Height(s[i..e + 1]) == 0
    && forall k :: i < k <= e ==> Height(s[i..k]) > 0
  }

  // A call at position `i` ending at `e`: the name, whatever precedes its argument list, the list.
  ghost predicate CallAt(s: string, i: nat, e: nat) {
    && Occurs(s, PATTERN, i)
    && exists q :: FirstParen(s, i + |PATTERN|, q) && Parenthesised(s, q, e)
  }

  ghost predicate FirstParen(s: string, i: nat, q: nat) {
    i <= q < |s| && s[q] == '(' && forall k :: i <= k < q ==> s[k] != '('
  }

  lemma {:induction false} ClosingIsFirstReturn(s: string, i: nat, depth: int)
    requires i <= |s| && (depth > 0 || (depth == 0 && i < |s| && s[i] == '('))
    ensures match Closing(s, i, depth)
      case Some(e) => depth + Height(s[i..e + 1]) == 0 && forall k :: i < k <= e ==> depth + Height(s[i..k]) > 0
      case None => forall k :: i < k <= |s| ==> depth + Height(s[i..k]) > 0
    decreases |s| - i
  {
    if i < |s| {
      var d := if s[i] == '(' then depth + 1 else if s[i] == ')' then depth - 1 else depth;
      forall k | i < k <= |s| ensures depth + Height(s[i..k]) == d + Height(s[i + 1..k]) {
        assert s[i..k][1..] == s[i + 1..k];
      }
      if d > 0 {
        ClosingIsFirstReturn(s, i + 1, d);
        assert Height(s[i + 1..i + 1]) == 0;
      } else {
        assert s[i + 1..i + 1] == [];
      }
    }
  }

  /** The end the rewriter finds for a call is the one its parentheses give it. */
  lemma CallEndIsCall(s: string, i: nat, e: nat)
    requires Occurs(s, PATTERN, i)
    ensures CallEnd(s, i) == Some(e) <==> CallAt(s, i, e)
  {
    hide PATTERN, Closing, Find, FirstParen, Parenthesised;
    var n := i + |PATTERN|;
    FirstParenFound(s, n);
    if Find(s, "(", n).Some? {
      var q := Find(s, "(", n).value;
      GroupFound(s, q, e);
      forall q' | FirstParen(s, n, q') ensures q' == q { FirstParenUnique(s, n, q, q'); }
    }
  }

  lemma FirstParenFound(s: string, n: nat)
    requires n <= |s|
    ensures match Find(s, "(", n)
      case Some(q) => FirstParen(s, n, q)
      case None => forall q: nat :: !FirstParen(s, n, q)
  {
    forall k: nat ensures Occurs(s, "(", k) <==> k < |s| && s[k] == '(' {
      if k < |s| { assert s[k..k + 1] == [s[k]]; }
    }
  }

  lemma FirstParenUnique(s: string, n: nat, q: nat, q': nat)
    requires FirstParen(s, n, q) && FirstParen(s, n, q')
    ensures q == q'
  {
  }

  lemma GroupFound(s: string, q: nat, e: nat)
    requires q < |s| && s[q] == '('
    ensures Closing(s, q, 0) == Some(e) <==> Parenthesised(s, q, e)
  {
    ClosingIsFirstReturn(s, q, 0);
    assert Height(s[q..q + 1]) == 1 by { assert s[q..q + 1][1..] == []; }
  }

  lemma {:induction false} TextAppend(a: seq<Piece>, b: seq<Piece>)
    ensures Text(a + b) == Text(a) + Text(b)
  {
    if a == [] {
      assert a + b == b;
    } else {
      TextAppend(a[1..], b);
      assert (a + b)[1..] == a[1..] + b && (a + b)[0] == a[0];
      Regroup3(a[0].text, Text(a[1..]), Text(b));
    }
  }

  lemma TextOfStep(line: string, from: nat, i: nat)
    requires from <= i && Occurs(line, PATTERN, i)
    ensures Text(Step(line, from, i).0) == line[from..Step(line, from, i).1]
  {
    hide PATTERN, Guarded, CallEnd;
    if !Guarded(line, i) && CallEnd(line, i).Some? {
      var e := CallEnd(line, i).value + 1;
      var p, q := Plain(line[from..i]), Call(line[i..e]);
      assert [p, q][1..] == [q] && [q][1..] == [];
      assert Text([q]) == q.text + "" && Text([p, q]) == p.text + Text([q]);
      assert line[from..i] + line[i..e] == line[from..e];
    } else {
      assert [Plain(line[from..i + |PATTERN|])][1..] == [];
    }
  }

  /** Nothing is lost: without the insertions the output is the input. */
  lemma {:induction false} TextOfPieces(line: string, from: nat)
    requires from <= |line|
    ensures Text(Pieces(line, from)) == line[from..]
    decreases |line| - from
  {
    hide PATTERN, Step, Text, Occurs;
    match Find(line, PATTERN, from)
    case None =>
      TextOfOne(Plain(line[from..]));
    case Some(i) =>
      var r := Step(line, from, i);
      TextOfStep(line, from, i);
      TextOfPieces(line, r.1);
      TextAppend(r.0, Pieces(line, r.1));
      Sliced(line, from, r.1);
  }

  lemma TextOfOne(p: Piece)
    ensures Text([p]) == p.text
  {
    assert [p][1..] == [];
  }

  // Characters `a` to `b` of the text of `ps` lie in one wrapped call.
  predicate InOneCall(ps: seq<Piece>, a: int, b: int) {
    ps != [] &&
    if a < |ps[0].text| then ps[0].Call? && b < |ps[0].text| else InOneCall(ps[1..], a - |ps[0].text|, b - |ps[0].text|)
  }

  lemma NoOverlap(s: string, i: nat, j: nat)
    requires Occurs(s, PATTERN, i) && Occurs(s, PATTERN, j) && i < j
    ensures i + |PATTERN| <= j
  {
    if j < i + |PATTERN| {
      assert s[j] == s[i..i + |PATTERN|][j - i] == PATTERN[j - i];
      assert s[j] == s[j..j + |PATTERN|][0] == PATTERN[0];
      PatternStartsOnce(j - i);
      assert false;
    }
  }

  lemma PatternStartsOnce(k: nat)
    requires 0 < k < |PATTERN|
    ensures PATTERN[k] != PATTERN[0]
  {
  }

  // The occurrences the rewriter is there for: no guard before them on the line, and a complete call.
  ghost predicate Wrappable(line: string, i: nat) {
    Occurs(line, PATTERN, i) && !Guarded(line, i) && exists e :: CallAt(line, i, e)
  }

  lemma {:induction false} InOneCallAppend(ps: seq<Piece>, rest: seq<Piece>, a: int, b: int)
    ensures InOneCall(ps + rest, a, b) ==
      if ps != [] && a < |Text(ps)| then InOneCall(ps, a, b) else InOneCall(rest, a - |Text(ps)|, b - |Text(ps)|)
  {
    hide InOneCall, Text;
    NoText();
    if ps == [] {
      assert ps + rest == rest;
    } else {
      InOneCallAppend(ps[1..], rest, a - |ps[0].text|, b - |ps[0].text|);
      assert (ps + rest)[1..] == ps[1..] + rest && (ps + rest)[0] == ps[0];
      FirstPiece(ps, a, b);
      FirstPiece(ps + rest, a, b);
    }
  }

  lemma FirstPiece(ps: seq<Piece>, a: int, b: int)
    requires ps != []
    ensures InOneCall(ps, a, b) ==
      if a < |ps[0].text| then ps[0].Call? && b < |ps[0].text|
      else InOneCall(ps[1..], a - |ps[0].text|, b - |ps[0].text|)
    ensures |Text(ps)| == |ps[0].text| + |Text(ps[1..])|
  {
  }

  lemma {:induction false} HeightAppend(a: string, b: string)
    ensures Height(a + b) == Height(a) + Height(b)
  {
    if a == [] {
      assert a + b == b;
    } else {
      HeightAppend(a[1..], b);
      assert (a + b)[1..] == a[1..] + b && (a + b)[0] == a[0];
    }
  }

  lemma HeightSplit(s: string, i: nat, k: nat, n: nat)
    requires i <= k <= n <= |s|
    ensures Height(s[i..n]) == Height(s[i..k]) + Height(s[k..n])
  {
    HeightAppend(s[i..k], s[k..n]);
    assert s[i..n] == s[i..k] + s[k..n];
  }

  // A group ends with the parenthesis that closes it.
  lemma GroupCloses(s: string, q: nat, e: nat)
    requires Parenthesised(s, q, e)
    ensures s[e] == ')'
  {
    HeightSplit(s, q, e, e + 1);
    assert s[e..e + 1][1..] == "";
  }

  // Two groups from one parenthesis are the same; a group that starts inside another ends inside it.
  lemma GroupsNest(s: string, q: nat, e: nat, q': nat, e': nat)
    requires Parenthesised(s, q, e) && Parenthesised(s, q', e') && q <= q' <= e
    ensures e' <= e && (q == q' ==> e == e')
  {
    GroupCloses(s, q, e);
    assert q' < e;
    HeightSplit(s, q, q', e + 1);
    assert q == q' ==> s[q..q'] == "";
  }

  lemma PatternHasNoParens(k: nat)
    requires k < |PATTERN|
    ensures PATTERN[k] != '(' && PATTERN[k] != ')'
  {
  }

  // The name at position `i` holds no parenthesis.
  lemma NameHasNoParens(s: string, i: nat, k: nat)
    requires Occurs(s, PATTERN, i) && i <= k < i + |PATTERN|
    ensures s[k] != '(' && s[k] != ')'
  {
    hide PATTERN;
    assert s[k] == s[i..i + |PATTERN|][k - i];
    PatternHasNoParens(k - i);
  }

  // A call whose name begins inside another: its name ends inside too, and so does the whole of it just if
  // its first parenthesis does.
  lemma CallInsideCall(s: string, j: nat, p: nat, f: nat, i: nat, q: nat, e: nat)
    requires Occurs(s, PATTERN, j) && FirstParen(s, j + |PATTERN|, p) && Parenthesised(s, p, f)
    requires Occurs(s, PATTERN, i) && FirstParen(s, i + |PATTERN|, q) && Parenthesised(s, q, e)
    requires i == j || j + |PATTERN| <= i <= f
    ensures i + |PATTERN| <= f && (e <= f <==> q <= f)
  {
    hide PATTERN;
    GroupCloses(s, p, f);
    if i <= f < i + |PATTERN| { NameHasNoParens(s, i, f); }
    if i <= p < i + |PATTERN| { NameHasNoParens(s, i, p); }
    if i < p {
      assert q == p;
    }
    if q <= f {
      assert p <= q;
      GroupsNest(s, p, f, q, e);
    }
  }

  /** Every call the rewriter is there for ends up with its whole name inside `unsafe { ... }`; and the whole
      call does - it is the wrapped one, or one of its arguments - if and only if its first parenthesis lies
      in the wrapped call that holds its name. */
  lemma {:induction false} WrappableIsWrapped(line: string, from: nat, i: nat, q: nat, e: nat)
    requires from <= i && Wrappable(line, i)
    requires FirstParen(line, i + |PATTERN|, q) && Parenthesised(line, q, e)
    ensures i <= |line| && InOneCall(Pieces(line, from), i - from, i + |PATTERN| - 1 - from)
    ensures InOneCall(Pieces(line, from), i - from, e - from) <==> InOneCall(Pieces(line, from), i - from, q - from)
    decreases |line| - from
  {
    hide PATTERN, Guarded, CallEnd, InOneCall, FirstParen, Parenthesised, Pieces, Step;
    PatternNotEmpty();
    var j := Find(line, PATTERN, from).value;
    StepThenRest(line, from, i, i + |PATTERN| - 1);
    StepThenRest(line, from, i, e);
    StepThenRest(line, from, i, q);
    CallEndIsCall(line, i, e);
    if i < Step(line, from, j).1 {
      if j < i { NoOverlap(line, j, i); }
      WrappedInStep(line, from, j, i, q, e);
    } else {
      WrappableIsWrapped(line, Step(line, from, j).1, i, q, e);
    }
  }

  // Whether a stretch lies in one call is decided by the step it begins in, or by the rest.
  lemma StepThenRest(line: string, from: nat, a: nat, b: nat)
    requires from <= a && from <= |line| && Find(line, PATTERN, from).Some?
    ensures var r := Step(line, from, Find(line, PATTERN, from).value);
      InOneCall(Pieces(line, from), a - from, b - from) ==
        if a < r.1 then InOneCall(r.0, a - from, b - from) else InOneCall(Pieces(line, r.1), a - r.1, b - r.1)
  {
    hide PATTERN, InOneCall, Step;
    var j := Find(line, PATTERN, from).value;
    var r := Step(line, from, j);
    TextOfStep(line, from, j);
    InOneCallAppend(r.0, Pieces(line, r.1), a - from, b - from);
  }

  lemma WrappedInStep(line: string, from: nat, j: nat, i: nat, q: nat, e: nat)
    requires from <= j <= i && Occurs(line, PATTERN, j) && i < Step(line, from, j).1
    requires i == j || j + |PATTERN| <= i
    requires i == j ==> !Guarded(line, i) && CallEnd(line, i).Some?
    requires Occurs(line, PATTERN, i) && FirstParen(line, i + |PATTERN|, q) && Parenthesised(line, q, e)
    ensures var ps := Step(line, from, j).0;
      && InOneCall(ps, i - from, i + |PATTERN| - 1 - from)
      && (InOneCall(ps, i - from, e - from) <==> InOneCall(ps, i - from, q - from))
  {
    hide PATTERN, Guarded, CallEnd, FirstParen, Parenthesised;
    if !Guarded(line, j) && CallEnd(line, j).Some? {
      var f := CallEnd(line, j).value;
      var a, b := Plain(line[from..j]), Call(line[j..f + 1]);
      assert [a, b][1..] == [b];
      CallEndIsCall(line, j, f);
      var p :| FirstParen(line, j + |PATTERN|, p) && Parenthesised(line, p, f);
      CallInsideCall(line, j, p, f, i, q, e);
    }
  }

  // The height within one open parenthesis.
  lemma {:induction false} HeightInside(s: string, q: nat, k: nat)
    requires q < k <= |s| && s[q] == '(' && forall n :: q < n < k ==> s[n] != '(' && s[n] != ')'
    ensures Height(s[q..k]) == 1
    decreases k
  {
    if k == q + 1 {
      assert s[q..k][1..] == "";
    } else {
      HeightInside(s, q, k - 1);
      HeightSplit(s, q, k - 1, k);
      assert s[k - 1..k][1..] == "";
    }
  }

  lemma PlainGroup(s: string, q: nat, e: nat)
    requires q < e < |s| && s[q] == '(' && s[e] == ')'
    requires forall n :: q < n < e ==> s[n] != '(' && s[n] != ')'
    ensures Parenthesised(s, q, e)
  {
    forall k | q < k <= e ensures Height(s[q..k]) > 0 { HeightInside(s, q, k); }
    HeightInside(s, q, e);
    HeightSplit(s, q, e, e + 1);
    assert s[e..e + 1][1..] == "";
  }

  lemma NoGuard(s: string, i: nat)
    requires i <= |s| && forall k :: 0 <= k < i ==> s[k] != 'u'
    ensures !Guarded(s, i)
  {
    forall k: nat ensures !Occurs(s[..i], GUARD, k) {
      if k + |GUARD| <= i {
        assert s[..i][k..k + |GUARD|][0] == s[k];
        assert GUARD[0] == 'u';
      }
    }
  }

  // A line that begins with an unguarded call up to `f`: what begins inside it and goes on is not in one call.
  lemma TornAtEnd(line: string, f: nat, a: nat, b: nat)
    requires Occurs(line, PATTERN, 0) && CallAt(line, 0, f) && !Guarded(line, 0) && a <= f
    ensures InOneCall(Pieces(line, 0), a, b) <==> b <= f
  {
    hide PATTERN, Guarded, CallEnd, CallAt, Pieces;
    CallEndIsCall(line, 0, f);
    StepThenRest(line, 0, a, b);
    var ps := [Plain(line[0..0]), Call(line[0..f + 1])];
    assert Step(line, 0, 0) == (ps, f + 1);
    assert ps[1..] == [Call(line[0..f + 1])];
  }

  /** A complete, unguarded call that is torn apart: its name is an argument of the wrapped call, its argument
      list follows it. */
  lemma SplitCall()
    ensures var line := "self._tab.get(self._tab.get)(x)";
      && Wrappable(line, 14) && CallAt(line, 14, 30)
      && InOneCall(Pieces(line, 0), 14, 26) && !InOneCall(Pieces(line, 0), 14, 30)
  {
    hide CallEnd, Guarded, InOneCall, Pieces, CallAt, Occurs;
    var line := "self._tab.get(self._tab.get)(x)";
    SplitCallStands();
    TornAtEnd(line, 27, 14, 26);
    TornAtEnd(line, 27, 14, 30);
  }

  lemma SplitCallStands()
    ensures var line := "self._tab.get(self._tab.get)(x)";
      && CallAt(line, 0, 27) && CallAt(line, 14, 30) && Occurs(line, PATTERN, 0) && Occurs(line, PATTERN, 14)
      && !Guarded(line, 0) && !Guarded(line, 14)
  {
    hide CallAt, Guarded;
    var line := "self._tab.get(self._tab.get)(x)";
    assert line[0..13] == PATTERN && line[14..27] == PATTERN;
    NestedNames(line);
  }

  // Two names, the second the whole argument of the first, and then one more argument list.
  lemma NestedNames(line: string)
    requires |line| == 31 && |PATTERN| == 13 && line[0..13] == PATTERN && line[14..27] == PATTERN
    requires line[13] == '(' && line[27] == ')' && line[28] == '(' && line[29] == 'x' && line[30] == ')'
    ensures CallAt(line, 0, 27) && CallAt(line, 14, 30) && !Guarded(line, 0) && !Guarded(line, 14)
  {
    hide PATTERN, Guarded, Parenthesised;
    assert Occurs(line, PATTERN, 0) && Occurs(line, PATTERN, 14);
    forall n | 13 < n < 27 ensures line[n] != '(' && line[n] != ')' { NameHasNoParens(line, 14, n); }
    PlainGroup(line, 13, 27);
    PlainGroup(line, 28, 30);
    assert FirstParen(line, 13, 13) && FirstParen(line, 27, 28);
    forall n | 0 <= n < 13 ensures line[n] != 'u' {
      assert line[n] == line[0..13][n];
      PatternCharacters(n);
    }
    NoGuard(line, 0);
    NoGuard(line, 14);
  }

  /** Nothing else does: every wrapped piece is one of those calls, from its name to its last parenthesis. */
  lemma {:induction false} WrappedIsWrappable(line: string, from: nat, k: nat) returns (i: nat, e: nat)
    requires from <= |line| && k < |Pieces(line, from)| && Pieces(line, from)[k].Call?
    ensures from <= i && Wrappable(line, i) && CallAt(line, i, e) && Pieces(line, from)[k].text == line[i..e + 1]
    decreases |line| - from
  {
    var j := Find(line, PATTERN, from).value;
    var r := Step(line, from, j);
    if k < |r.0| {
      i, e := j, CallEnd(line, j).value;
      CallEndIsCall(line, i, e);
    } else {
      i, e := WrappedIsWrappable(line, r.1, k - |r.0|);
    }
  }

  // ---- The output as text -----------------------------------------------------------------------

  // A stretch of the line, from its first character to before `to`.
  datatype Cut = Cut(from: nat, to: nat)

  // Where in the line the wrapped calls among `ps` stand, the first piece beginning at `at`.
  function Cuts(ps: seq<Piece>, at: nat): seq<Cut> {
    if ps == [] then []
    else
      var n := at + |ps[0].text|;
      (if ps[0].Call? then [Cut(at, n)] else []) + Cuts(ps[1..], n)
  }

  // The cuts follow one another within line[from..n].
  predicate InTurn(cuts: seq<Cut>, from: nat, n: nat) {
    if cuts == [] then from <= n else from <= cuts[0].from <= cuts[0].to && InTurn(cuts[1..], cuts[0].to, n)
  }

  lemma {:induction false} InTurnFits(cuts: seq<Cut>, from: nat, n: nat)
    requires InTurn(cuts, from, n)
    ensures from <= n && (cuts != [] ==> cuts[0].to <= n)
  {
    if cuts != [] { InTurnFits(cuts[1..], cuts[0].to, n); }
  }

  // `line[from..]` with each cut put into a block of its own.
  function Woven(line: string, cuts: seq<Cut>, from: nat): string
    requires InTurn(cuts, from, |line|)
  {
    InTurnFits(cuts, from, |line|);
    if cuts == [] then line[from..]
    else
      var c := cuts[0];
      line[from..c.from] + "unsafe { " + line[c.from..c.to] + " }" + Woven(line, cuts[1..], c.to)
  }

  // `out` without those insertions; none if something else stands where they should be.
  function Unwoven(out: string, cuts: seq<Cut>, from: nat): Option<string> {
    if cuts == [] then Some(out)
    else
      var a, n := cuts[0].from - from, cuts[0].to - cuts[0].from;
      if a < 0 || n < 0 || |out| < a + 9 + n + 2 || out[a..a + 9] != "unsafe { " || out[a + 9 + n..a + 11 + n] != " }"
      then None
      else
        match Unwoven(out[a + 11 + n..], cuts[1..], cuts[0].to)
        case None => None
        case Some(rest) => Some(out[..a] + out[a + 9..a + 9 + n] + rest)
  }

  // Opening minus closing braces.
  function Curls(s: string): int {
    if s == [] then 0 else (if s[0] == '{' then 1 else if s[0] == '}' then -1 else 0) + Curls(s[1..])
  }

  lemma {:induction false} CurlsAppend(a: string, b: string)
    ensures Curls(a + b) == Curls(a) + Curls(b)
  {
    if a == [] {
      assert a + b == b;
    } else {
      CurlsAppend(a[1..], b);
      assert (a + b)[1..] == a[1..] + b && (a + b)[0] == a[0];
    }
  }

  lemma {:induction false} CutsInTurn(ps: seq<Piece>, at: nat)
    ensures InTurn(Cuts(ps, at), at, at + |Text(ps)|)
  {
    if ps != [] {
      var n := at + |ps[0].text|;
      CutsInTurn(ps[1..], n);
      if ps[0].Plain? {
        assert Cuts(ps, at) == Cuts(ps[1..], n);
        EarlierStart(Cuts(ps[1..], n), at, n, at + |Text(ps)|);
      } else {
        assert Cuts(ps, at)[1..] == Cuts(ps[1..], n);
      }
    }
  }

  lemma EarlierStart(cuts: seq<Cut>, from: nat, at: nat, n: nat)
    requires InTurn(cuts, at, n) && from <= at
    ensures InTurn(cuts, from, n)
  {
  }

  // A plain stretch before the first cut is passed on as it is.
  lemma WovenAfterPlain(line: string, cuts: seq<Cut>, from: nat, at: nat)
    requires from <= at && InTurn(cuts, at, |line|)
    ensures at <= |line| && InTurn(cuts, from, |line|)
    ensures Woven(line, cuts, from) == line[from..at] + Woven(line, cuts, at)
  {
    InTurnFits(cuts, at, |line|);
    EarlierStart(cuts, from, at, |line|);
    if cuts == [] {
      Sliced(line, from, at);
    } else {
      var c := cuts[0];
      assert line[from..c.from] == line[from..at] + line[at..c.from];
      RegroupWoven(line[from..at], line[at..c.from], "unsafe { ", line[c.from..c.to], " }",
        Woven(line, cuts[1..], c.to));
    }
  }

  lemma RegroupWoven(a: string, b: string, c: string, d: string, e: string, f: string)
    ensures (a + b) + c + d + e + f == a + (b + c + d + e + f)
  {
  }

  /** What is rendered is the line with each wrapped call in a block of its own, written out. */
  lemma {:induction false} RenderIsWoven(line: string, ps: seq<Piece>, at: nat)
    requires at <= |line| && Text(ps) == line[at..]
    ensures InTurn(Cuts(ps, at), at, |line|) && Render(ps) == Woven(line, Cuts(ps, at), at)
    decreases |ps|
  {
    hide Woven, Text;
    CutsInTurn(ps, at);
    if ps == [] {
      WovenEnd(line, at);
      NoText();
    } else {
      var t := ps[0].text;
      var n := at + |t|;
      FirstText(line, ps, at);
      RenderIsWoven(line, ps[1..], n);
      if ps[0].Plain? {
        assert Cuts(ps, at) == Cuts(ps[1..], n);
        WovenAfterPlain(line, Cuts(ps[1..], n), at, n);
      } else {
        assert Cuts(ps, at)[1..] == Cuts(ps[1..], n) && Cuts(ps, at)[0] == Cut(at, n);
        WovenCut(line, Cuts(ps, at), at);
      }
    }
  }

  lemma WovenEnd(line: string, at: nat)
    requires at <= |line|
    ensures Woven(line, [], at) == line[at..]
  {
  }

  lemma NoText()
    ensures Text([]) == ""
  {
  }

  lemma WovenCut(line: string, cuts: seq<Cut>, at: nat)
    requires cuts != [] && InTurn(cuts, at, |line|) && cuts[0].from == at
    ensures cuts[0].to <= |line|
    ensures Woven(line, cuts, at) == "unsafe { " + line[at..cuts[0].to] + " }" + Woven(line, cuts[1..], cuts[0].to)
  {
    InTurnFits(cuts, at, |line|);
    assert line[at..at] == "";
    RegroupWoven("", "", "unsafe { ", line[at..cuts[0].to], " }", Woven(line, cuts[1..], cuts[0].to));
  }

  lemma FirstText(line: string, ps: seq<Piece>, at: nat)
    requires ps != [] && at <= |line| && Text(ps) == line[at..]
    ensures var n := at + |ps[0].text|;
      n <= |line| && line[at..n] == ps[0].text && Text(ps[1..]) == line[n..]
  {
    var n := at + |ps[0].text|;
    assert Text(ps)[..|ps[0].text|] == ps[0].text && Text(ps)[|ps[0].text|..] == Text(ps[1..]);
    assert line[at..][..|ps[0].text|] == line[at..n] && line[at..][|ps[0].text|..] == line[n..];
  }

  /** Taking the insertions out again gives the line back. */
  lemma {:induction false} UnwovenGivesBack(line: string, cuts: seq<Cut>, from: nat)
    requires InTurn(cuts, from, |line|)
    ensures from <= |line| && Unwoven(Woven(line, cuts, from), cuts, from) == Some(line[from..])
    decreases |cuts|
  {
    InTurnFits(cuts, from, |line|);
    if cuts != [] {
      var c := cuts[0];
      UnwovenGivesBack(line, cuts[1..], c.to);
      var rest := Woven(line, cuts[1..], c.to);
      UnwovenParts(line[from..c.from], line[c.from..c.to], rest);
      assert line[from..] == line[from..c.from] + line[c.from..c.to] + line[c.to..];
    }
  }

  lemma UnwovenParts(plain: string, call: string, rest: string)
    ensures var out := plain + "unsafe { " + call + " }" + rest;
      var a, n := |plain|, |call|;
      && |out| == a + 11 + n + |rest|
      && out[..a] == plain && out[a..a + 9] == "unsafe { " && out[a + 9..a + 9 + n] == call
      && out[a + 9 + n..a + 11 + n] == " }" && out[a + 11 + n..] == rest
  {
  }

  lemma CurlsOfParts()
    ensures Curls("unsafe { ") == 1 && Curls(" }") == -1
  {
    CurlsAppend("unsafe ", "{ ");
    assert "unsafe " + "{ " == "unsafe { ";
    NoCurls("unsafe ");
    assert "{ "[1..] == " " && " "[1..] == "";
    assert " }"[1..] == "}" && "}"[1..] == "";
  }

  lemma {:induction false} NoCurls(s: string)
    requires '{' !in s && '}' !in s
    ensures Curls(s) == 0
  {
    if s != [] { NoCurls(s[1..]); }
  }

  /** Every block that is opened is closed: the braces of the output balance as those of the line do. */
  lemma {:induction false} WovenBalances(line: string, cuts: seq<Cut>, from: nat)
    requires InTurn(cuts, from, |line|)
    ensures from <= |line| && Curls(Woven(line, cuts, from)) == Curls(line[from..])
    decreases |cuts|
  {
    hide Curls;
    InTurnFits(cuts, from, |line|);
    if cuts != [] {
      var c := cuts[0];
      var a, b, rest := line[from..c.from], line[c.from..c.to], Woven(line, cuts[1..], c.to);
      WovenBalances(line, cuts[1..], c.to);
      CurlsOfParts();
      CurlsAppend(a + "unsafe { " + b + " }", rest);
      CurlsAppend(a + "unsafe { " + b, " }");
      CurlsAppend(a + "unsafe { ", b);
      CurlsAppend(a, "unsafe { ");
      CurlsAppend(a + b, line[c.to..]);
      CurlsAppend(a, b);
      assert line[from..] == a + b + line[c.to..];
    }
  }

  lemma {:induction false} CutsAppend(a: seq<Piece>, b: seq<Piece>, at: nat)
    ensures Cuts(a + b, at) == Cuts(a, at) + Cuts(b, at + |Text(a)|)
  {
    if a == [] {
      assert a + b == b;
    } else {
      CutsAppend(a[1..], b, at + |a[0].text|);
      assert (a + b)[1..] == a[1..] + b && (a + b)[0] == a[0];
    }
  }

  lemma CutsOfStep(line: string, from: nat, i: nat)
    requires from <= i && Occurs(line, PATTERN, i)
    ensures Cuts(Step(line, from, i).0, from) ==
      if !Guarded(line, i) && CallEnd(line, i).Some? then [Cut(i, CallEnd(line, i).value + 1)] else []
  {
    hide PATTERN, Guarded, CallEnd;
    if !Guarded(line, i) && CallEnd(line, i).Some? {
      var p, q := Plain(line[from..i]), Call(line[i..CallEnd(line, i).value + 1]);
      assert [p, q][1..] == [q] && [q][1..] == [];
      assert Cuts([q], i) == [Cut(i, CallEnd(line, i).value + 1)] + Cuts([], CallEnd(line, i).value + 1);
    } else {
      var p := Plain(line[from..i + |PATTERN|]);
      assert [p][1..] == [];
      assert Cuts([], i + |PATTERN|) == [];
    }
  }

  /** The cuts are the complete, unguarded calls that the pieces wrap. */
  lemma {:induction false} CutsAreCalls(line: string, from: nat, k: nat)
    requires from <= |line| && k < |Cuts(Pieces(line, from), from)|
    ensures var c := Cuts(Pieces(line, from), from)[k];
      c.from < c.to && Wrappable(line, c.from) && CallAt(line, c.from, c.to - 1)
    decreases |line| - from
  {
    hide PATTERN, Guarded, CallEnd, CallAt, Cuts, Step, Text, Occurs;
    NoCutsInPlain(line[from..], from);
    var i := Find(line, PATTERN, from).value;
    var r := Step(line, from, i);
    TextOfStep(line, from, i);
    CutsOfStep(line, from, i);
    CutsAppend(r.0, Pieces(line, r.1), from);
    if !Guarded(line, i) && CallEnd(line, i).Some? {
      CallEndIsCall(line, i, CallEnd(line, i).value);
    }
    if k >= |Cuts(r.0, from)| {
      CutsAreCalls(line, r.1, k - |Cuts(r.0, from)|);
    }
  }

  lemma NoCutsInPlain(text: string, at: nat)
    ensures Cuts([Plain(text)], at) == []
  {
    assert [Plain(text)][1..] == [];
  }

  /** A position is guarded when the word stands somewhere before it on the line. */
  lemma GuardedExactly(s: string, i: nat)
    requires i <= |s|
    ensures Guarded(s, i) <==> exists k: nat :: k + 6 <= i && Occurs(s, "unsafe", k)
  {
    forall k: nat | k + 6 <= i ensures Occurs(s[..i], "unsafe", k) <==> Occurs(s, "unsafe", k) {
      assert s[..i][k..k + 6] == s[k..k + 6];
    }
  }

  // ---- Rewriting twice --------------------------------------------------------------------------

  // The first call that is wrapped when the search starts at `from`.
  function FirstWrapped(line: string, from: nat): (r: Option<nat>)
    requires from <= |line|
    ensures r.Some? ==> from <= r.value && Occurs(line, PATTERN, r.value)
    ensures r.Some? ==> !Guarded(line, r.value) && CallEnd(line, r.value).Some?
    decreases |line| - from
  {
    match Find(line, PATTERN, from)
    case None => None
    case Some(i) =>
      if !Guarded(line, i) && CallEnd(line, i).Some? then Some(i) else FirstWrapped(line, i + |PATTERN|)
  }

  lemma {:induction false} NothingWrapped(line: string, from: nat)
    requires from <= |line| && FirstWrapped(line, from).None?
    ensures Render(Pieces(line, from)) == line[from..]
    decreases |line| - from
  {
    hide PATTERN, OPENING, CLOSING, Guarded, CallEnd, Render, Pieces, Occurs, FirstWrapped;
    PatternNotEmpty();
    PassedOver(line, from);
    EmptyPrefix(Render(Pieces(line, from)));
    EmptyPrefix(line[from..]);
    if Find(line, PATTERN, from).None? {
      RenderEnd("", line, from);
    } else {
      var n := Find(line, PATTERN, from).value + |PATTERN|;
      NothingWrapped(line, n);
      RenderStep("", line, from);
      EmptyPrefix(line[from..n]);
      Sliced(line, from, n);
    }
  }

  // Where nothing is wrapped the next occurrence is passed over, and nothing is wrapped after it.
  lemma PassedOver(s: string, from: nat)
    requires from <= |s| && FirstWrapped(s, from).None?
    ensures Find(s, PATTERN, from).Some? ==>
      var j := Find(s, PATTERN, from).value;
      (Guarded(s, j) || CallEnd(s, j).None?) && FirstWrapped(s, j + |PATTERN|).None?
  {
    hide Guarded, CallEnd;
  }

  // The output from the first wrapped call on, without the opening of its guard.
  function AfterOpening(line: string, a: nat): string
    requires Occurs(line, PATTERN, a) && CallEnd(line, a).Some?
  {
    var e := CallEnd(line, a).value + 1;
    line[a..e] + CLOSING + Render(Pieces(line, e))
  }

  lemma {:induction false} UpToFirstWrapped(line: string, from: nat, a: nat)
    requires from <= |line| && FirstWrapped(line, from) == Some(a)
    ensures Render(Pieces(line, from)) == line[from..a] + (OPENING + AfterOpening(line, a))
    decreases |line| - from
  {
    hide PATTERN, OPENING, CLOSING, Guarded, CallEnd, Render, Pieces, Occurs;
    var i := Find(line, PATTERN, from).value;
    var n := i + |PATTERN|;
    RenderStep("", line, from);
    EmptyPrefix(Render(Pieces(line, from)));
    EmptyPrefix(line[from..i]);
    EmptyPrefix(line[from..n]);
    PatternNotEmpty();
    if i != a {
      UpToFirstWrapped(line, n, a);
      JoinSlices(line, from, n, a, OPENING + AfterOpening(line, a));
    } else {
      var e := CallEnd(line, a).value + 1;
      Regroup4(line[from..i], OPENING, line[i..e], CLOSING, Render(Pieces(line, e)));
    }
  }

  lemma EmptyPrefix(s: string)
    ensures "" + s == s
  {
  }

  lemma JoinSlices(s: string, i: nat, j: nat, k: nat, t: string)
    requires i <= j <= k <= |s|
    ensures s[i..j] + (s[j..k] + t) == s[i..k] + t
  {
  }

  lemma Regroup4(a: string, b: string, c: string, d: string, e: string)
    ensures a + b + c + d + e == a + (b + (c + d + e))
  {
  }

  function Paren(c: char): string {
    if c == '(' || c == ')' then [c] else []
  }

  function Parens(s: string): string {
    if s == [] then [] else Paren(s[0]) + Parens(s[1..])
  }

  lemma {:induction false} ParensAppend(a: string, b: string)
    ensures Parens(a + b) == Parens(a) + Parens(b)
  {
    hide Paren;
    if a == [] {
      assert a + b == b;
    } else {
      ParensAppend(a[1..], b);
      assert (a + b)[1..] == a[1..] + b && (a + b)[0] == a[0];
      Regroup3(Paren(a[0]), Parens(a[1..]), Parens(b));
    }
  }

  // The search for the end of a call, on its parentheses alone.
  predicate Closes(ps: string, depth: int) {
    ps != [] &&
    if ps[0] == '(' then Closes(ps[1..], depth + 1)
    else depth - 1 == 0 || Closes(ps[1..], depth - 1)
  }

  predicate OpensAndCloses(ps: string) {
    ps != [] && if ps[0] == '(' then Closes(ps, 0) else OpensAndCloses(ps[1..])
  }

  lemma ParensAt(s: string, i: nat)
    requires i < |s|
    ensures if s[i] == '(' || s[i] == ')' then
              Parens(s[i..]) != [] && Parens(s[i..])[0] == s[i] && Parens(s[i..])[1..] == Parens(s[i + 1..])
            else Parens(s[i..]) == Parens(s[i + 1..])
  {
  }

  lemma {:induction false} ClosingByParens(s: string, i: nat, depth: int)
    requires i <= |s|
    ensures Closing(s, i, depth).Some? <==> Closes(Parens(s[i..]), depth)
    decreases |s| - i
  {
    if i < |s| {
      ParensAt(s, i);
      ClosingByParens(s, i + 1, if s[i] == '(' then depth + 1 else if s[i] == ')' then depth - 1 else depth);
    }
  }

  lemma {:induction false} FindParenByParens(s: string, i: nat)
    requires i <= |s|
    ensures OpensAndCloses(Parens(s[i..])) <==>
      Find(s, "(", i).Some? && Closing(s, Find(s, "(", i).value, 0).Some?
    decreases |s| - i
  {
    if i < |s| {
      ParensAt(s, i);
      assert s[i..i + 1] == [s[i]];
      if s[i] == '(' {
        ClosingByParens(s, i, 0);
        assert Parens(s[i..])[0] == '(';
      } else {
        FindParenByParens(s, i + 1);
      }
    }
  }

  lemma ParensOfParts()
    ensures Parens(OPENING) == [] && Parens(CLOSING) == []
  {
  }

  lemma {:induction false} ParensOfRender(ps: seq<Piece>)
    ensures Parens(Render(ps)) == Parens(Text(ps))
  {
    hide OPENING, CLOSING, Parens;
    if ps != [] {
      ParensOfRender(ps[1..]);
      ParensAppend(ps[0].text, Text(ps[1..]));
      ParensAppend(Rendered(ps[0]), Render(ps[1..]));
      ParensOfParts();
      Between(OPENING, ps[0].text, CLOSING);
    }
  }

  lemma Between(opening: string, text: string, closing: string)
    requires Parens(opening) == [] && Parens(closing) == []
    ensures Parens(opening + text + closing) == Parens(text)
  {
    hide Parens;
    ParensAppend(opening + text, closing);
    ParensAppend(opening, text);
  }

  lemma ContainsPrefix(s: string, p: string, i: nat, j: nat)
    requires i + |p| <= j <= |s| && Occurs(s, p, i)
    ensures Contains(s[..j], p)
  {
    assert s[..j][i..i + |p|] == s[i..i + |p|];
    assert Occurs(s[..j], p, i);
  }

  lemma GuardedLater(s: string, i: nat, j: nat)
    requires i <= j <= |s| && Guarded(s, i)
    ensures Guarded(s, j)
  {
    hide GUARD;
    var k := Find(s[..i], GUARD, 0).value;
    assert s[..i][k..k + |GUARD|] == s[k..k + |GUARD|];
    ContainsPrefix(s, GUARD, k, j);
  }

  lemma {:induction false} GuardedRest(s: string, from: nat)
    requires from <= |s| && Guarded(s, from)
    ensures FirstWrapped(s, from).None?
    decreases |s| - from
  {
    hide Guarded, CallEnd;
    match Find(s, PATTERN, from)
    case None =>
    case Some(i) =>
      GuardedLater(s, from, i);
      GuardedLater(s, from, i + |PATTERN|);
      GuardedRest(s, i + |PATTERN|);
  }

  // An occurrence of the pattern is clear of the text inserted at position `a`.
  lemma ClearOfOpening(s: string, a: nat, j: nat)
    requires Occurs(s, OPENING, a) && Occurs(s, PATTERN, j)
    ensures j + |PATTERN| <= a || a + |OPENING| <= j
  {
    if j <= a < j + |PATTERN| {
      assert s[a] == s[a..a + |OPENING|][0] == 'u';
      assert s[a] == s[j..j + |PATTERN|][a - j] == PATTERN[a - j];
      PatternCharacters(a - j);
      assert false;
    }
    if a < j < a + |OPENING| {
      assert s[a + 8] == s[a..a + |OPENING|][8] == ' ';
      assert s[a + 8] == s[j..j + |PATTERN|][a + 8 - j] == PATTERN[a + 8 - j];
      PatternCharacters(a + 8 - j);
      assert false;
    }
  }

  lemma PatternCharacters(k: nat)
    requires k < |PATTERN|
    ensures PATTERN[k] != 'u' && PATTERN[k] != ' '
  {
  }

  lemma OpeningGuards(s: string, a: nat, j: nat)
    requires Occurs(s, OPENING, a) && a + |OPENING| <= j <= |s|
    ensures Guarded(s, j)
  {
    assert OPENING[..|GUARD|] == GUARD;
    assert s[a..a + |GUARD|] == s[a..a + |OPENING|][..|GUARD|];
    ContainsPrefix(s, GUARD, a, j);
  }

  // The second pass wraps nothing: before the first insertion it meets the calls the first pass left
  // alone, after it every call is guarded.
  lemma {:induction false} SecondPass(line: string, out: string, a: nat, from: nat)
    requires from <= a <= |line| && a <= |out|
    requires FirstWrapped(line, from) == Some(a)
    requires out[..a] == line[..a] && Occurs(out, OPENING, a)
    requires Parens(out[a..]) == Parens(line[a..])
    ensures FirstWrapped(out, from).None?
    decreases a - from
  {
    hide OPENING, Guarded, CallEnd, Parens;
    hide FirstWrapped;
    if Find(out, PATTERN, from).Some? {
      var j := Find(out, PATTERN, from).value;
      ClearOfOpening(out, a, j);
      if a + |OPENING| <= j {
        OpeningGuards(out, a, j);
        OpeningGuards(out, a, j + |PATTERN|);
        GuardedRest(out, j + |PATTERN|);
      } else {
        SameFirst(line, out, a, from);
        WrappedLater(line, from, j, a);
        SameEnd(line, out, a, j);
        SecondPass(line, out, a, j + |PATTERN|);
        assert line[..j] == line[..a][..j] == out[..a][..j] == out[..j];
        assert Guarded(line, j) == Guarded(out, j) by { SameText(line, out, j); }
      }
    }
    NoneWrapped(out, from);
  }

  lemma SameText(line: string, out: string, j: nat)
    requires j <= |line| && j <= |out| && line[..j] == out[..j]
    ensures Guarded(line, j) == Guarded(out, j)
  {
  }

  // The occurrence at `j` is passed over when a later one is the first to be wrapped.
  lemma WrappedLater(s: string, from: nat, j: nat, a: nat)
    requires from <= |s| && Find(s, PATTERN, from) == Some(j) && j < a && FirstWrapped(s, from) == Some(a)
    ensures Guarded(s, j) || CallEnd(s, j).None?
    ensures j + |PATTERN| <= |s| && FirstWrapped(s, j + |PATTERN|) == Some(a)
  {
    hide Guarded, CallEnd;
  }

  // Nothing is wrapped if neither the next occurrence nor any after it is.
  lemma NoneWrapped(s: string, from: nat)
    requires from <= |s|
    requires Find(s, PATTERN, from).Some? ==>
      var j := Find(s, PATTERN, from).value;
      (Guarded(s, j) || CallEnd(s, j).None?) && FirstWrapped(s, j + |PATTERN|).None?
    ensures FirstWrapped(s, from).None?
  {
  }

  // Before the insertion both texts have the same next occurrence.
  lemma SameFirst(line: string, out: string, a: nat, from: nat)
    requires from <= a <= |line| && a <= |out| && out[..a] == line[..a]
    requires Find(out, PATTERN, from).Some? && Find(out, PATTERN, from).value + |PATTERN| <= a
    ensures Find(line, PATTERN, from) == Find(out, PATTERN, from)
  {
    hide PATTERN, Find;
    var j := Find(out, PATTERN, from).value;
    forall k | 0 <= k && k + |PATTERN| <= a ensures Occurs(line, PATTERN, k) <==> Occurs(out, PATTERN, k) {
      assert line[k..k + |PATTERN|] == line[..a][k..k + |PATTERN|];
      assert out[k..k + |PATTERN|] == out[..a][k..k + |PATTERN|];
    }
  }

  lemma SameEnd(line: string, out: string, a: nat, j: nat)
    requires j + |PATTERN| <= a <= |line| && a <= |out| && out[..a] == line[..a]
    requires Parens(out[a..]) == Parens(line[a..])
    requires Occurs(line, PATTERN, j) && Occurs(out, PATTERN, j)
    ensures CallEnd(line, j).Some? <==> CallEnd(out, j).Some?
  {
    hide PATTERN, Parens, Closing;
    var n := j + |PATTERN|;
    assert line[n..] == line[n..a] + line[a..] && out[n..] == out[n..a] + out[a..];
    assert line[n..a] == line[..a][n..] && out[n..a] == out[..a][n..];
    ParensAppend(line[n..a], line[a..]);
    ParensAppend(out[n..a], out[a..]);
    FindParenByParens(line, n);
    FindParenByParens(out, n);
  }

  /** Rewriting a rewritten line changes nothing. */
  lemma WrapIsIdempotent(line: string)
    ensures var out := Render(Pieces(line, 0)); Render(Pieces(out, 0)) == out
  {
    hide PATTERN, OPENING, CLOSING, CallEnd, Guarded;
    var out := Render(Pieces(line, 0));
    if FirstWrapped(line, 0).None? {
      NothingWrapped(line, 0);
      assert out == line;
    } else {
      var a := FirstWrapped(line, 0).value;
      UpToFirstWrapped(line, 0, a);
      Inserted(out, line[0..a], OPENING, AfterOpening(line, a));
      ParensOfTail(line, a);
      SecondPass(line, out, a, 0);
      NothingWrapped(out, 0);
    }
  }

  lemma Inserted(out: string, a: string, b: string, c: string)
    requires out == a + (b + c)
    ensures out[..|a|] == a && out[|a|..] == b + c && out[|a|..|a| + |b|] == b
  {
  }

  lemma ParensOfTail(line: string, a: nat)
    requires Occurs(line, PATTERN, a) && CallEnd(line, a).Some?
    ensures Parens(OPENING + AfterOpening(line, a)) == Parens(line[a..])
  {
    hide OPENING, CLOSING, PATTERN, Parens, Render, Pieces, CallEnd, Text, Occurs;
    var e := CallEnd(line, a).value + 1;
    ParensOfParts();
    ParensOfRender(Pieces(line, e));
    TextOfPieces(line, e);
    OnlyTextCounts(OPENING, line[a..e], CLOSING, Render(Pieces(line, e)), line[e..]);
    Sliced(line, a, e);
  }

  lemma Sliced(s: string, i: nat, j: nat)
    requires i <= j <= |s|
    ensures s[i..] == s[i..j] + s[j..]
  {
  }

  lemma OnlyTextCounts(opening: string, call: string, closing: string, rest: string, tail: string)
    requires Parens(opening) == [] && Parens(closing) == [] && Parens(rest) == Parens(tail)
    ensures Parens(opening + (call + closing + rest)) == Parens(call + tail)
  {
    hide Parens;
    ParensAppend(opening, call + closing + rest);
    ParensAppend(call + closing, rest);
    ParensAppend(call, closing);
    ParensAppend(call, tail);
  }
}
