/** Rich dependency strings: rpmrichParseInternal() and its scanners (lib/rpmds.cc:1152-1402).

    A cursor into a NUL-terminated string is the suffix it points to, and an
    empty suffix is the terminator. */
module RichParse {
  import opened Common

  datatype Op = And | Or | If | Unless | Else | With | Without

  /** The comparison of a versioned dependency; NoCmp is a sense of 0. */
  datatype Compare = NoCmp | Less | LessEqual | Equal | GreaterEqual | Greater

  /** What was parsed. A node keeps its arguments, where each starts, the operators
      between them, and its own text from '(' to ')'. */
  datatype Tree =
    | Leaf(name: string, sense: Compare, evr: string)
    | Node(args: seq<Tree>, ops: seq<Op>, starts: seq<nat>, text: string)

  predicate IsSpace(c: char) {
    c == ' ' || c == '\t' || c == '\n' || c == '\r' || c == 12 as char || c == 11 as char
  }

  predicate IsSep(c: char) { IsSpace(c) || c == ',' }

  /** SKIPWHITE: past the separators at p. */
  function WhiteEnd(s: string, p: nat): (e: nat)
    requires p <= |s|
    ensures p <= e <= |s|
    decreases |s| - p
  {
    if p == |s| || !IsSep(s[p]) then p else WhiteEnd(s, p + 1)
  }

  /** SKIPNONWHITEX: up to a separator or a ')' that closes nothing inside the token. */
  function TokenEnd(s: string, p: nat, open: int): (e: nat)
    requires p <= |s|
    ensures p <= e <= |s|
    decreases |s| - p
  {
    if p == |s| || IsSep(s[p]) || (s[p] == ')' && open <= 0) then p
    else TokenEnd(s, p + 1, if s[p] == '(' then open + 1 else if s[p] == ')' then open - 1 else open)
  }

  /** parseRichDepOp() reads up to white space or ')'. */
  function WordEnd(s: string, p: nat): (e: nat)
    requires p <= |s|
    ensures p <= e <= |s|
    decreases |s| - p
  {
    if p == |s| || IsSpace(s[p]) || s[p] == ')' then p else WordEnd(s, p + 1)
  }

  function OpOf(w: string): Option<Op> {
    if w == "and" then Some(And) else if w == "or" then Some(Or) else if w == "if" then Some(If)
    else if w == "unless" then Some(Unless) else if w == "else" then Some(Else)
    else if w == "with" then Some(With) else if w == "without" then Some(Without) else None
  }

  /** rpmParseDSFlags() */
  function CompareOf(w: string): Compare {
    if w == "<=" || w == "=<" then LessEqual else if w == "<" then Less
    else if w == "==" || w == "=" then Equal
    else if w == ">=" || w == "=>" then GreaterEqual else if w == ">" then Greater else NoCmp
  }

  /** A parsed text and where it ends; noWith is RICHPARSE_NO_WITH. */
  datatype Parsed = Fail | Ok(tree: Tree, end: nat, noWith: bool)

  /** parseSimpleDep(): a name, and a comparison with a version if one follows. */
  function ParseSimple(s: string, p: nat): (r: Parsed)
    requires p <= |s|
    ensures r.Ok? ==> p < r.end <= |s| && r.tree.Leaf? && !r.noWith
  {
    var ne := TokenEnd(s, p, 0);
    if ne == p then Fail else ParseCompare(s, s[p..ne], WhiteEnd(s, ne))
  }

  function ParseCompare(s: string, name: string, c: nat): (r: Parsed)
    requires c <= |s|
    ensures r.Ok? ==> c <= r.end <= |s| && r.tree.Leaf? && !r.noWith
  {
    var ce := TokenEnd(s, c, 0);
    var sense := CompareOf(s[c..ce]);
    if sense == NoCmp then Ok(Leaf(name, NoCmp, ""), c, false)
    else
      var v := WhiteEnd(s, ce);
      var ve := TokenEnd(s, v, 0);
      if ve == v then Fail else Ok(Leaf(name, sense, s[v..ve]), ve, false)
  }

  /** Which operator may follow which: and, or, with chain among themselves; else follows if and unless. */
  predicate MayFollow(chain: Option<Op>, op: Op) {
    match chain
    case None => true
    case Some(c) => ((c.If? || c.Unless?) && op.Else?) || (c == op && (op.And? || op.Or? || op.With?))
  }

  /** The loop variables of rpmrichParseInternal(). */
  datatype Acc = Acc(args: seq<Tree>, ops: seq<Op>, starts: seq<nat>, chain: Option<Op>, noWith: bool)

  const START: Acc := Acc([], [], [], None, false)

  function AddArg(acc: Acc, item: Parsed, start: nat): Acc
    requires item.Ok?
  {
    acc.(args := acc.args + [item.tree], starts := acc.starts + [start], noWith := acc.noWith || item.noWith)
  }

  function AddOp(acc: Acc, op: Op): Acc {
    acc.(ops := acc.ops + [op], chain := Some(op))
  }

  predicate KeepsSets(op: Op) { op.With? || op.Without? || op.Or? }

  /** The closing parenthesis of the node that starts at b ends at n: with and without
      take no operator below them that has no set meaning. */
  function Finish(s: string, b: nat, n: nat, acc: Acc): Parsed
    requires b <= n <= |s|
  {
    if acc.ops != [] && (acc.ops[0].With? || acc.ops[0].Without?) && acc.noWith then Fail
    else Ok(Node(acc.args, acc.ops, acc.starts, s[b..n]), n,
            acc.noWith || (acc.ops != [] && !KeepsSets(acc.ops[|acc.ops| - 1])))
  }

  /** An argument: a nested rich dependency or a simple one. */
  function ParseItem(s: string, p: nat): (r: Parsed)
    requires p < |s|
    ensures r.Ok? ==> p < r.end <= |s|
    decreases |s| - p, 4
  {
    if s[p] == '(' then ParseNode(s, p) else ParseSimple(s, p)
  }

  function ParseNode(s: string, b: nat): (r: Parsed)
    requires b <= |s|
    ensures r.Ok? ==> b + 1 < r.end <= |s| && r.tree.Node? && r.tree.text == s[b..r.end]
    decreases |s| - b, 3
  {
    if b == |s| || s[b] != '(' then Fail else ParseLoop(s, b, b + 1, START)
  }

  /** One pass of the loop from p: an argument and behind it the closing parenthesis or an operator, up to end. */
  datatype Pass = Bad | Close(start: nat, item: Parsed, end: nat) | Next(start: nat, item: Parsed, op: Op, end: nat)

  function OnePass(s: string, p: nat): (r: Pass)
    requires p <= |s|
    ensures !r.Bad? ==> p <= r.start < r.end <= |s| && r.item.Ok?
    decreases |s| - p, 5
  {
    var start := WhiteEnd(s, p);
    if start == |s| || s[start] == ')' then Bad
    else
      var item := ParseItem(s, start);
      if item.Fail? then Bad else AfterItem(s, start, item)
  }

  function AfterItem(s: string, start: nat, item: Parsed): (r: Pass)
    requires item.Ok? && start < item.end <= |s|
    ensures !r.Bad? ==> r.start == start && r.item == item && item.end <= r.end <= |s|
  {
    var e := WhiteEnd(s, item.end);
    if e == |s| then Bad
    else if s[e] == ')' then Close(start, item, e + 1)
    else
      var op := OpOf(s[e..WordEnd(s, e)]);
      if op.None? then Bad else Next(start, item, op.value, WordEnd(s, e))
  }

  /** The loop, for the node that starts at b, from p on. */
  function ParseLoop(s: string, b: nat, p: nat, acc: Acc): (r: Parsed)
    requires b < p <= |s|
    ensures r.Ok? ==> p < r.end <= |s| && r.tree.Node? && r.tree.text == s[b..r.end]
    decreases |s| - p, 6
  {
    match OnePass(s, p)
    case Bad => Fail
    case Close(start, item, end) => Finish(s, b, end, AddArg(acc, item, start - b))
    case Next(start, item, op, end) =>
      if MayFollow(acc.chain, op) then ParseLoop(s, b, end, AddOp(AddArg(acc, item, start - b), op)) else Fail
  }
}
