/** `expand_use` of `tools/crate_coupling_report.py`: the recursive-descent parser that flattens the tree
    after a Rust `use` into the imports it stands for, on the token list the lexer hands it. */
module UseTree {
  import opened Basics

  // An imported path and the name given to it by `as`.
  datatype Import = Import(path: seq<string>, alias: Option<string>)

  // ---- The trees and how they are written -------------------------------------------------------

  // `lead` is a leading `::`; `trailing` is a comma after the last item of a group.
  datatype Tree =
    | Name(lead: bool, segments: seq<string>)
    | Renamed(lead: bool, segments: seq<string>, alias: string)
    | Glob(lead: bool, segments: seq<string>)
    | Group(lead: bool, segments: seq<string>, items: seq<Tree>, trailing: bool)

  predicate Ordinary(t: string) {
    t != "::" && t != "{" && t != "}" && t != "," && t != "*" && t != "as"
  }

  predicate AllOrdinary(s: seq<string>) {
    forall i :: 0 <= i < |s| ==> Ordinary(s[i])
  }

  // The trees that can be written down: only a glob or a group may have no segments of its own.
  predicate WellFormed(t: Tree)
    decreases t
  {
    && AllOrdinary(t.segments)
    && ((t.Name? || t.Renamed?) ==> t.segments != [])
    && (t.Group? ==> WellFormedAll(t.items))
  }

  predicate WellFormedAll(ts: seq<Tree>)
    decreases ts
  {
    ts != [] ==> WellFormed(ts[0]) && WellFormedAll(ts[1..])
  }

  function Qualified(segments: seq<string>): seq<string> {
    if segments == [] then [] else [segments[0], "::"] + Qualified(segments[1..])
  }

  function Joined(segments: seq<string>): seq<string>
    requires segments != []
  {
    Qualified(segments[..|segments| - 1]) + [segments[|segments| - 1]]
  }

  function Print(t: Tree): seq<string>
    requires WellFormed(t)
    decreases t, 1
  {
    (if t.lead then ["::"] else []) + PrintBody(t)
  }

  function PrintBody(t: Tree): seq<string>
    requires WellFormed(t)
    decreases t, 0
  {
    match t
    case Name(_, segments) => Joined(segments)
    case Renamed(_, segments, alias) => Joined(segments) + ["as", alias]
    case Glob(_, segments) => Qualified(segments) + ["*"]
    case Group(_, segments, items, trailing) => Qualified(segments) + ["{"] + PrintItems(items, trailing) + ["}"]
  }

  function PrintItems(ts: seq<Tree>, trailing: bool): seq<string>
    requires WellFormedAll(ts)
    decreases ts
  {
    if ts == [] then []
    else if |ts| == 1 then Print(ts[0]) + (if trailing then [","] else [])
    else Print(ts[0]) + [","] + PrintItems(ts[1..], trailing)
  }

  // ---- What the trees mean ----------------------------------------------------------------------

  // A path ending in `self` names the module it sits in; `self` alone names nothing.
  function Denoted(path: seq<string>, alias: Option<string>): seq<Import> {
    var p := if path != [] && path[|path| - 1] == "self" then path[..|path| - 1] else path;
    if p == [] then [] else [Import(p, alias)]
  }

  // The imports of `t` below the module `prefix`, left to right.
  function Imports(t: Tree, prefix: seq<string>): seq<Import>
    decreases t
  {
    match t
    case Name(_, segments) => Denoted(prefix + segments, None)
    case Renamed(_, segments, alias) => Denoted(prefix + segments, Some(alias))
    case Glob(_, segments) => [Import(prefix + segments + ["*"], None)]
    case Group(_, segments, items, _) => ImportsOfAll(items, prefix + segments)
  }

  function ImportsOfAll(ts: seq<Tree>, prefix: seq<string>): seq<Import>
    decreases ts
  {
    if ts == [] then [] else Imports(ts[0], prefix) + ImportsOfAll(ts[1..], prefix)
  }

  // A path and its last segment.
  predicate EndsIn(path: seq<string>, front: seq<string>, last: string) {
    path == front + [last]
  }

  /** What a leaf imports: the path itself; for one that ends in `self` the module before it; nothing where there is
      no module before it. */
  lemma LeafImports(t: Tree, prefix: seq<string>, front: seq<string>, last: string)
    requires (t.Name? || t.Renamed?) && EndsIn(prefix + t.segments, front, last)
    ensures var alias := if t.Renamed? then Some(t.alias) else None;
      Imports(t, prefix) ==
        if last != "self" then [Import(front + [last], alias)]
        else if front != [] then [Import(front, alias)]
        else []
  {
  }

  /** In a group, `self` stands for the group's own module - and only its last segment goes, so that a module named
      `self` keeps its name. */
  lemma SelfIsTheModule(prefix: seq<string>, segments: seq<string>, lead: bool, alias: string)
    requires prefix + segments != []
    ensures Imports(Group(lead, segments, [Name(false, ["self"])], false), prefix) == [Import(prefix + segments, None)]
    ensures Imports(Group(lead, segments, [Renamed(false, ["self"], alias)], false), prefix) ==
      [Import(prefix + segments, Some(alias))]
  {
    var path := prefix + segments;
    EveryItem([Name(false, ["self"])], path);
    EveryItem([Renamed(false, ["self"], alias)], path);
    assert EndsIn(path + ["self"], path, "self");
    LeafImports(Name(false, ["self"]), path, path, "self");
    LeafImports(Renamed(false, ["self"], alias), path, path, "self");
  }

  lemma EveryItem(ts: seq<Tree>, path: seq<string>)
    requires |ts| == 1
    ensures ImportsOfAll(ts, path) == Imports(ts[0], path)
  {
    assert ts[1..] == [];
  }

  // ---- The parser as a function -----------------------------------------------------------------

  function Left(toks: seq<string>, i: nat): nat {
    if i < |toks| then |toks| - i else 0
  }

  predicate At(toks: seq<string>, i: nat, t: string) {
    i < |toks| && toks[i] == t
  }

  function Parsed(toks: seq<string>, i: nat, prefix: seq<string>): (r: (seq<Import>, nat))
    ensures i <= r.1
    decreases Left(toks, i), 1
  {
    ParsedFrom(toks, if At(toks, i, "::") then i + 1 else i, prefix, prefix)
  }

  // The parser's outer loop, entered at token `i` with `path` read so far.
  function ParsedFrom(toks: seq<string>, i: nat, prefix: seq<string>, path: seq<string>): (r: (seq<Import>, nat))
    ensures i <= r.1
    decreases Left(toks, i), 0
  {
    var done := if path != prefix then [Import(path, None)] else [];
    if |toks| <= i then (done, i)
    else if toks[i] == "{" then
      var r := ParsedItems(toks, i + 1, path);
      (r.0, if At(toks, r.1, "}") then r.1 + 1 else r.1)
    else if toks[i] == "*" then ([Import(path + ["*"], None)], i + 1)
    else if toks[i] == "," || toks[i] == "}" then (done, i)
    else if toks[i] == "as" then
      ([Import(path, if i + 1 < |toks| then Some(toks[i + 1]) else None)], i + 2)
    else if toks[i] == "::" then ParsedFrom(toks, i + 1, prefix, path)
    else ParsedFrom(toks, i + 1, prefix, path + [toks[i]])
  }

  // The parser's inner loop over the items of a group.
  function ParsedItems(toks: seq<string>, i: nat, path: seq<string>): (r: (seq<Import>, nat))
    ensures i <= r.1
    decreases Left(toks, i), 2
  {
    if |toks| <= i then ([], i)
    else
      var r := Parsed(toks, i, path);
      if At(toks, r.1, ",") then
        var rest := ParsedItems(toks, r.1 + 1, path);
        (r.0 + rest.0, rest.1)
      else r
  }

  function Cleaned(found: seq<Import>): seq<Import> {
    if found == [] then [] else Denoted(found[0].path, found[0].alias) + Cleaned(found[1..])
  }

  // ---- The parser itself ------------------------------------------------------------------------

  /** The inner loop of `parse`, over the items of a group. */
  method ParseItems(toks: seq<string>, start: nat, path: seq<string>) returns (res: seq<Import>, i: nat)
    ensures res == ParsedItems(toks, start, path).0 && i == ParsedItems(toks, start, path).1
    decreases Left(toks, start), 2
  {
    res, i := [], start;
    while i < |toks|
      invariant start <= i
      invariant ParsedItems(toks, start, path).0 == res + ParsedItems(toks, i, path).0
      invariant ParsedItems(toks, start, path).1 == ParsedItems(toks, i, path).1
    {
      ghost var before, at := res, i;
      var sub;
      sub, i := Parse(toks, i, path);
      res := res + sub;
      if i < |toks| && toks[i] == "," {
        i := i + 1;
        assert before + (sub + ParsedItems(toks, i, path).0) == res + ParsedItems(toks, i, path).0;
        continue;
      }
      assert ParsedItems(toks, at, path).0 == sub;
      break;
    }
  }

  /** The nested function `parse`. */
  method Parse(toks: seq<string>, start: nat, prefix: seq<string>) returns (res: seq<Import>, i: nat)
    ensures res == Parsed(toks, start, prefix).0 && i == Parsed(toks, start, prefix).1
    decreases Left(toks, start), 1
  {
    res, i := [], start;
    var path := prefix;
    if i < |toks| && toks[i] == "::" {
      i := i + 1;
    }
    while i < |toks|
      invariant start <= i && res == []
      invariant Parsed(toks, start, prefix) == ParsedFrom(toks, i, prefix, path)
    {
      var t := toks[i];
      if t == "{" {
        res, i := ParseItems(toks, i + 1, path);
        if i < |toks| && toks[i] == "}" {
          i := i + 1;
        }
        return;
      }
      if t == "*" {
        res := res + [Import(path + ["*"], None)];
        i := i + 1;
        return;
      }
      if t == "," || t == "}" {
        if path != prefix {
          res := res + [Import(path, None)];
        }
        return;
      }
      if t == "as" {
        var alias := if i + 1 < |toks| then Some(toks[i + 1]) else None;
        res := res + [Import(path, alias)];
        i := i + 2;
        return;
      }
      if t != "::" {
        path := path + [t];
      }
      i := i + 1;
    }
    if path != prefix {
      res := res + [Import(path, None)];
    }
  }

  /** `expand_use` on the tokens of its argument. */
  method ExpandUse(toks: seq<string>) returns (cleaned: seq<Import>)
    ensures cleaned == Cleaned(Parsed(toks, 0, []).0)
    ensures forall t: Tree :: WellFormed(t) && Print(t) == toks ==> cleaned == Imports(t, [])
  {
    hide Parsed, Print, WellFormed, Imports, Cleaned;
    CleanedOne(Import([], None));
    var found, _ := Parse(toks, 0, []);
    cleaned := [];
    var k := 0;
    while k < |found|
      invariant 0 <= k <= |found|
      invariant cleaned == Cleaned(found[..k])
    {
      assert found[..k + 1] == found[..k] + [found[k]];
      CleanedAppend(found[..k], [found[k]]);
      CleanedOne(found[k]);
      var p, a := found[k].path, found[k].alias;
      if p != [] && p[|p| - 1] == "self" {
        p := p[..|p| - 1];
      }
      if p != [] {
        cleaned := cleaned + [Import(p, a)];
      }
      k := k + 1;
    }
    assert found[..k] == found;
    forall t: Tree | WellFormed(t) && Print(t) == toks ensures cleaned == Imports(t, []) {
      PrintedTreeIsExpanded(t);
    }
  }

  // ---- Printing and parsing again ---------------------------------------------------------------

  // Token `i` is one at which a tree ends.
  predicate Stops(toks: seq<string>, i: nat) {
    |toks| <= i || toks[i] == "," || toks[i] == "}"
  }

  predicate Holds(toks: seq<string>, i: nat, part: seq<string>) {
    i + |part| <= |toks| && toks[i..i + |part|] == part
  }

  lemma HoldsSplit(toks: seq<string>, i: nat, a: seq<string>, b: seq<string>)
    requires Holds(toks, i, a + b)
    ensures Holds(toks, i, a) && Holds(toks, i + |a|, b)
  {
    var w := toks[i..i + |a + b|];
    assert toks[i..i + |a|] == w[..|a|];
    assert toks[i + |a|..i + |a| + |b|] == w[|a|..];
  }

  lemma {:induction false} CleanedAppend(a: seq<Import>, b: seq<Import>)
    ensures Cleaned(a + b) == Cleaned(a) + Cleaned(b)
  {
    hide Denoted;
    if a == [] {
      assert a + b == b;
    } else {
      CleanedAppend(a[1..], b);
      assert (a + b)[1..] == a[1..] + b && (a + b)[0] == a[0];
      Grouped(Denoted(a[0].path, a[0].alias), Cleaned(a[1..]), Cleaned(b));
    }
  }

  lemma Grouped(a: seq<Import>, b: seq<Import>, c: seq<Import>)
    ensures a + (b + c) == a + b + c
  {
  }

  // Reading a qualified path adds its segments to the path.
  lemma {:induction false} ReadsQualified(toks: seq<string>, i: nat, prefix: seq<string>, path: seq<string>,
                                          segments: seq<string>)
    requires AllOrdinary(segments) && Holds(toks, i, Qualified(segments))
    ensures ParsedFrom(toks, i, prefix, path) ==
            ParsedFrom(toks, i + |Qualified(segments)|, prefix, path + segments)
    decreases |segments|
  {
    if segments == [] {
      assert path + segments == path;
    } else {
      HoldsSplit(toks, i, [segments[0], "::"], Qualified(segments[1..]));
      var w := toks[i..i + 2];
      assert toks[i] == w[0] == segments[0] && toks[i + 1] == w[1] == "::";
      ReadsQualified(toks, i + 2, prefix, path + [segments[0]], segments[1..]);
      assert path + [segments[0]] + segments[1..] == path + segments;
    }
  }

  lemma ReadsJoined(toks: seq<string>, i: nat, prefix: seq<string>, path: seq<string>, segments: seq<string>)
    requires segments != [] && AllOrdinary(segments) && Holds(toks, i, Joined(segments))
    ensures ParsedFrom(toks, i, prefix, path) ==
            ParsedFrom(toks, i + |Joined(segments)|, prefix, path + segments)
  {
    var front, last := segments[..|segments| - 1], segments[|segments| - 1];
    HoldsSplit(toks, i, Qualified(front), [last]);
    ReadsQualified(toks, i, prefix, path, front);
    var n := i + |Qualified(front)|;
    assert toks[n] == toks[n..n + 1][0] == last;
    assert path + front + [last] == path + segments;
  }

  // A printed tree is not mistaken for one with a leading `::`.
  lemma BodyStart(t: Tree)
    requires WellFormed(t)
    ensures PrintBody(t) != [] && PrintBody(t)[0] != "::"
  {
  }

  // What reading `t` from token `i` amounts to.
  ghost predicate Reads(r: (seq<Import>, nat), i: nat, part: seq<string>, imports: seq<Import>) {
    r.1 == i + |part| && Cleaned(r.0) == imports
  }

  lemma CleanedOne(f: Import)
    ensures Cleaned([]) == [] && Cleaned([f]) == Denoted(f.path, f.alias)
  {
  }

  lemma ReadsName(toks: seq<string>, n: nat, prefix: seq<string>, t: Tree)
    requires t.Name? && WellFormed(t) && Holds(toks, n, PrintBody(t)) && Stops(toks, n + |PrintBody(t)|)
    ensures Reads(ParsedFrom(toks, n, prefix, prefix), n, PrintBody(t), Imports(t, prefix))
  {
    ReadsJoined(toks, n, prefix, prefix, t.segments);
    CleanedOne(Import(prefix + t.segments, None));
    assert |prefix + t.segments| > |prefix|;
  }

  lemma ReadsRenamed(toks: seq<string>, n: nat, prefix: seq<string>, t: Tree)
    requires t.Renamed? && WellFormed(t) && Holds(toks, n, PrintBody(t))
    ensures Reads(ParsedFrom(toks, n, prefix, prefix), n, PrintBody(t), Imports(t, prefix))
  {
    hide Joined, Cleaned;
    HoldsSplit(toks, n, Joined(t.segments), ["as", t.alias]);
    ReadsJoined(toks, n, prefix, prefix, t.segments);
    var m := n + |Joined(t.segments)|;
    assert toks[m] == toks[m..m + 2][0] && toks[m + 1] == toks[m..m + 2][1];
    CleanedOne(Import(prefix + t.segments, Some(t.alias)));
  }

  lemma ReadsGlob(toks: seq<string>, n: nat, prefix: seq<string>, t: Tree)
    requires t.Glob? && WellFormed(t) && Holds(toks, n, PrintBody(t))
    ensures Reads(ParsedFrom(toks, n, prefix, prefix), n, PrintBody(t), Imports(t, prefix))
  {
    HoldsSplit(toks, n, Qualified(t.segments), ["*"]);
    ReadsQualified(toks, n, prefix, prefix, t.segments);
    var m := n + |Qualified(t.segments)|;
    assert toks[m] == toks[m..m + 1][0];
    CleanedOne(Import(prefix + t.segments + ["*"], None));
  }

  lemma {:induction false} ReadsGroup(toks: seq<string>, n: nat, prefix: seq<string>, t: Tree)
    requires t.Group? && WellFormed(t) && Holds(toks, n, PrintBody(t))
    ensures Reads(ParsedFrom(toks, n, prefix, prefix), n, PrintBody(t), Imports(t, prefix))
    decreases t, 0
  {
    hide Holds, At, ParsedFrom, ParsedItems, Cleaned, Imports, PrintBody, Qualified, PrintItems, ImportsOfAll;
    GroupIs(t, prefix);
    var q, items := Qualified(t.segments), PrintItems(t.items, t.trailing);
    InBraces(toks, n, q, items);
    ReadsQualified(toks, n, prefix, prefix, t.segments);
    ReadsItems(toks, n + |q| + 1, prefix + t.segments, t.items, t.trailing);
    GroupParsed(toks, n + |q|, prefix, prefix + t.segments);
  }

  lemma GroupIs(t: Tree, prefix: seq<string>)
    requires t.Group? && WellFormed(t)
    ensures AllOrdinary(t.segments) && WellFormedAll(t.items)
    ensures PrintBody(t) == Qualified(t.segments) + ["{"] + PrintItems(t.items, t.trailing) + ["}"]
    ensures Imports(t, prefix) == ImportsOfAll(t.items, prefix + t.segments)
  {
  }

  lemma InBraces(toks: seq<string>, n: nat, q: seq<string>, items: seq<string>)
    requires Holds(toks, n, q + ["{"] + items + ["}"])
    ensures Holds(toks, n, q) && At(toks, n + |q|, "{")
    ensures Holds(toks, n + |q| + 1, items) && At(toks, n + |q| + 1 + |items|, "}")
  {
    HoldsSplit(toks, n, q + ["{"] + items, ["}"]);
    HoldsSplit(toks, n, q + ["{"], items);
    HoldsSplit(toks, n, q, ["{"]);
    var m := n + |q|;
    assert toks[m] == toks[m..m + 1][0];
    var e := m + 1 + |items|;
    assert toks[e] == toks[e..e + 1][0];
  }

  lemma GroupParsed(toks: seq<string>, m: nat, prefix: seq<string>, path: seq<string>)
    requires At(toks, m, "{") && At(toks, ParsedItems(toks, m + 1, path).1, "}")
    ensures ParsedFrom(toks, m, prefix, path) ==
      (ParsedItems(toks, m + 1, path).0, ParsedItems(toks, m + 1, path).1 + 1)
  {
  }

  // A leading `::` is skipped.
  lemma PastLead(toks: seq<string>, i: nat, prefix: seq<string>, lead: bool, body: seq<string>)
    requires body != [] && body[0] != "::" && (lead ==> Holds(toks, i, ["::"]))
    requires Holds(toks, if lead then i + 1 else i, body)
    ensures Parsed(toks, i, prefix) == ParsedFrom(toks, if lead then i + 1 else i, prefix, prefix)
  {
  }

  /** Reading a printed tree consumes exactly its tokens and finds exactly its imports. */
  lemma {:induction false} ReadsTree(toks: seq<string>, i: nat, prefix: seq<string>, t: Tree)
    requires WellFormed(t) && Holds(toks, i, Print(t)) && Stops(toks, i + |Print(t)|)
    ensures Reads(Parsed(toks, i, prefix), i, Print(t), Imports(t, prefix))
    decreases t, 1
  {
    hide ParsedFrom, Imports, PrintBody, Cleaned, Holds, WellFormed, Parsed, Stops;
    var lead := if t.lead then ["::"] else [];
    var n := i + |lead|;
    HoldsSplit(toks, i, lead, PrintBody(t));
    BodyStart(t);
    PastLead(toks, i, prefix, t.lead, PrintBody(t));
    match t {
      case Name(_, _) => ReadsName(toks, n, prefix, t);
      case Renamed(_, _, _) => ReadsRenamed(toks, n, prefix, t);
      case Glob(_, _) => ReadsGlob(toks, n, prefix, t);
      case Group(_, _, _, _) => ReadsGroup(toks, n, prefix, t);
    }
  }

  // The item before a comma, and what follows the comma.
  lemma ItemThenRest(toks: seq<string>, i: nat, prefix: seq<string>, part: seq<string>, found: seq<Import>,
                     rest: seq<string>, more: seq<Import>)
    requires Reads(Parsed(toks, i, prefix), i, part, found)
    requires At(toks, i + |part|, ",")
    requires Reads(ParsedItems(toks, i + |part| + 1, prefix), i + |part| + 1, rest, more)
    ensures Reads(ParsedItems(toks, i, prefix), i, part + [","] + rest, found + more)
  {
    CleanedAppend(Parsed(toks, i, prefix).0, ParsedItems(toks, i + |part| + 1, prefix).0);
  }

  // Nothing but the closing brace is left of the group.
  lemma NoItem(toks: seq<string>, i: nat, prefix: seq<string>)
    requires At(toks, i, "}")
    ensures Reads(ParsedItems(toks, i, prefix), i, [], [])
  {
    assert Parsed(toks, i, prefix) == ([], i);
  }

  lemma {:induction false} ReadsItems(toks: seq<string>, i: nat, prefix: seq<string>, ts: seq<Tree>, trailing: bool)
    requires WellFormedAll(ts) && Holds(toks, i, PrintItems(ts, trailing))
    requires At(toks, i + |PrintItems(ts, trailing)|, "}")
    ensures Reads(ParsedItems(toks, i, prefix), i, PrintItems(ts, trailing), ImportsOfAll(ts, prefix))
    decreases ts
  {
    hide Reads, Parsed, ParsedItems, Print, PrintItems, Imports, ImportsOfAll, WellFormed, Holds, Stops;
    ItemsAre(ts, trailing, prefix);
    if ts == [] {
      NoItem(toks, i, prefix);
    } else {
      var first := Print(ts[0]);
      var e := i + |first|;
      if |ts| == 1 && !trailing {
        StopsAt(toks, e);
        ReadsTree(toks, i, prefix, ts[0]);
        LastItem(toks, i, prefix, first, Imports(ts[0], prefix));
      } else {
        var rest := if |ts| == 1 then [] else PrintItems(ts[1..], trailing);
        CommaAfter(toks, i, first, rest);
        StopsAt(toks, e);
        ReadsTree(toks, i, prefix, ts[0]);
        if |ts| == 1 {
          NoItem(toks, e + 1, prefix);
        } else {
          ReadsItems(toks, e + 1, prefix, ts[1..], trailing);
        }
        ItemThenRest(toks, i, prefix, first, Imports(ts[0], prefix), rest, ImportsOfAll(ts[1..], prefix));
      }
    }
  }

  // How a list of items is printed and what it imports, one item at a time.
  lemma ItemsAre(ts: seq<Tree>, trailing: bool, prefix: seq<string>)
    requires WellFormedAll(ts)
    ensures ts == [] ==> PrintItems(ts, trailing) == [] && ImportsOfAll(ts, prefix) == []
    ensures ts != [] ==> WellFormed(ts[0]) && WellFormedAll(ts[1..])
    ensures ts != [] ==> ImportsOfAll(ts, prefix) == Imports(ts[0], prefix) + ImportsOfAll(ts[1..], prefix)
    ensures |ts| == 1 ==> ImportsOfAll(ts[1..], prefix) == [] && ImportsOfAll(ts, prefix) == Imports(ts[0], prefix)
    ensures |ts| == 1 && !trailing ==> PrintItems(ts, trailing) == Print(ts[0])
    ensures |ts| == 1 && trailing ==> PrintItems(ts, trailing) == Print(ts[0]) + [","] + []
    ensures |ts| > 1 ==> PrintItems(ts, trailing) == Print(ts[0]) + [","] + PrintItems(ts[1..], trailing)
  {
  }

  lemma StopsAt(toks: seq<string>, e: nat)
    ensures At(toks, e, "}") || At(toks, e, ",") ==> Stops(toks, e)
  {
  }

  lemma CommaAfter(toks: seq<string>, i: nat, first: seq<string>, rest: seq<string>)
    requires Holds(toks, i, first + [","] + rest)
    ensures Holds(toks, i, first) && At(toks, i + |first|, ",") && Holds(toks, i + |first| + 1, rest)
  {
    var e := i + |first|;
    HoldsSplit(toks, i, first + [","], rest);
    HoldsSplit(toks, i, first, [","]);
    assert toks[e] == toks[e..e + 1][0];
  }

  // The last item of a group has nothing after it but the closing brace.
  lemma LastItem(toks: seq<string>, i: nat, prefix: seq<string>, part: seq<string>, found: seq<Import>)
    requires i < |toks| && Reads(Parsed(toks, i, prefix), i, part, found) && At(toks, i + |part|, "}")
    ensures Reads(ParsedItems(toks, i, prefix), i, part, found)
  {
  }

  /** For every `use` tree, `expand_use` consumes all its tokens and returns its imports in order. */
  lemma PrintedTreeIsExpanded(t: Tree)
    requires WellFormed(t)
    ensures Parsed(Print(t), 0, []).1 == |Print(t)|
    ensures Cleaned(Parsed(Print(t), 0, []).0) == Imports(t, [])
  {
    var toks := Print(t);
    assert toks[0..0 + |toks|] == toks;
    ReadsTree(toks, 0, [], t);
  }

  /** A path with `as` after it and no name is imported without one. */
  lemma DanglingAs(segments: seq<string>)
    requires segments != [] && AllOrdinary(segments) && segments[|segments| - 1] != "self"
    ensures Cleaned(Parsed(Joined(segments) + ["as"], 0, []).0) == [Import(segments, None)]
  {
    hide Joined, Cleaned, ParsedFrom;
    var toks := Joined(segments) + ["as"];
    var n := |Joined(segments)|;
    assert toks[0..n] == Joined(segments) && toks[n] == "as";
    JoinedStart(segments);
    ReadsJoined(toks, 0, [], [], segments);
    assert [] + segments == segments;
    AtDanglingAs(toks, n, segments);
    CleanedOne(Import(segments, None));
  }

  lemma JoinedStart(segments: seq<string>)
    requires segments != [] && AllOrdinary(segments)
    ensures Joined(segments) != [] && Joined(segments)[0] != "::"
  {
  }

  lemma AtDanglingAs(toks: seq<string>, n: nat, path: seq<string>)
    requires n + 1 == |toks| && toks[n] == "as"
    ensures ParsedFrom(toks, n, [], path).0 == [Import(path, None)]
  {
  }
}
