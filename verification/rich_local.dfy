/** A rich dependency parses the same wherever it stands: the parser looks at
    nothing behind the closing parenthesis it stops at. */
module RichLocal {
  import opened Common
  import opened RichParse

  /** The n characters of s from p on are those of z from q on. */
  ghost predicate Same(s: string, p: nat, z: string, q: nat, n: nat) {
    p + n <= |s| && q + n <= |z| && s[p..p + n] == z[q..q + n]
  }

  lemma SameSlice(s: string, p: nat, z: string, q: nat, n: nat, i: nat, j: nat)
    requires Same(s, p, z, q, n) && i <= j <= n
    ensures s[p + i..p + j] == z[q + i..q + j]
  {
    SubSlice(s, p, p + n, i, j);
    SubSlice(z, q, q + n, i, j);
  }

  lemma SameFrom(s: string, p: nat, z: string, q: nat, n: nat, k: nat)
    requires Same(s, p, z, q, n) && k <= n
    ensures Same(s, p + k, z, q + k, n - k)
  {
    SameSlice(s, p, z, q, n, k, n);
  }

  lemma SameChar(s: string, p: nat, z: string, q: nat, n: nat, i: nat)
    requires Same(s, p, z, q, n) && i < n
    ensures s[p + i] == z[q + i]
  {
    assert s[p + i] == s[p..p + n][i] && z[q + i] == z[q..q + n][i];
  }

  lemma {:induction false} WhiteLocal(s: string, p: nat, z: string, q: nat, n: nat)
    requires Same(s, p, z, q, n) && WhiteEnd(s, p) < p + n
    ensures WhiteEnd(z, q) - q == WhiteEnd(s, p) - p
    decreases n
  {
    SameChar(s, p, z, q, n, 0);
    if IsSep(s[p]) {
      SameFrom(s, p, z, q, n, 1);
      WhiteLocal(s, p + 1, z, q + 1, n - 1);
    }
  }

  lemma {:induction false} WordLocal(s: string, p: nat, z: string, q: nat, n: nat)
    requires Same(s, p, z, q, n) && WordEnd(s, p) < p + n
    ensures WordEnd(z, q) - q == WordEnd(s, p) - p
    decreases n
  {
    SameChar(s, p, z, q, n, 0);
    if !(IsSpace(s[p]) || s[p] == ')') {
      SameFrom(s, p, z, q, n, 1);
      WordLocal(s, p + 1, z, q + 1, n - 1);
    }
  }

  lemma {:induction false} TokenLocal(s: string, p: nat, z: string, q: nat, n: nat, open: int)
    requires Same(s, p, z, q, n) && TokenEnd(s, p, open) < p + n
    ensures TokenEnd(z, q, open) - q == TokenEnd(s, p, open) - p
    decreases n
  {
    SameChar(s, p, z, q, n, 0);
    if !(IsSep(s[p]) || (s[p] == ')' && open <= 0)) {
      SameFrom(s, p, z, q, n, 1);
      TokenLocal(s, p + 1, z, q + 1, n - 1, if s[p] == '(' then open + 1 else if s[p] == ')' then open - 1 else open);
    }
  }

  lemma {:induction false} TokenWord(s: string, p: nat, e: nat)
    requires p <= e < |s| && (IsSpace(s[e]) || s[e] == ')')
    requires forall i :: p <= i < e ==> !IsSep(s[i]) && s[i] != '(' && s[i] != ')'
    ensures TokenEnd(s, p, 0) == e
    decreases e - p
  {
    if p < e { TokenWord(s, p + 1, e); }
  }

  lemma {:induction false} WordStop(s: string, p: nat)
    requires p <= |s|
    ensures WordEnd(s, p) < |s| ==> IsSpace(s[WordEnd(s, p)]) || s[WordEnd(s, p)] == ')'
    decreases |s| - p
  {
    if p < |s| && !IsSpace(s[p]) && s[p] != ')' { WordStop(s, p + 1); }
  }

  lemma {:induction false} WhiteTwice(s: string, p: nat)
    requires p <= |s|
    ensures WhiteEnd(s, WhiteEnd(s, p)) == WhiteEnd(s, p)
    decreases |s| - p
  {
    if p < |s| && IsSep(s[p]) { WhiteTwice(s, p + 1); }
  }

  lemma OpLetters(w: string)
    requires OpOf(w).Some?
    ensures forall i :: 0 <= i < |w| ==> 'a' <= w[i] <= 'z'
    ensures CompareOf(w) == NoCmp
  {
  }

  /** Where an operator stands, the scan for a comparison stops at the same place. */
  lemma OpIsToken(s: string, p: nat)
    requires p <= |s| && WordEnd(s, p) < |s| && OpOf(s[p..WordEnd(s, p)]).Some?
    ensures TokenEnd(s, p, 0) == WordEnd(s, p)
  {
    var e := WordEnd(s, p);
    var w := s[p..e];
    OpLetters(w);
    WordStop(s, p);
    forall i | p <= i < e ensures 'a' <= s[i] <= 'z' { assert s[i] == w[i - p]; }
    TokenWord(s, p, e);
  }

  /** How far an item looks: to its end, and for a bare name to the end of the token after it. */
  function Need(s: string, item: Parsed): nat
    requires item.Ok? && item.end <= |s|
  {
    if item.tree.Leaf? && item.tree.sense == NoCmp then TokenEnd(s, item.end, 0) else item.end
  }

  /** The same result d characters further on. */
  function Shift(r: Parsed, d: int): Parsed
    requires r.Ok? ==> r.end + d >= 0
  {
    if r.Fail? then Fail else r.(end := r.end + d)
  }

  lemma CompareLocal(s: string, name: string, c: nat, z: string, c': nat, n: nat)
    requires c <= |s| && ParseCompare(s, name, c).Ok? && Same(s, c, z, c', n) && Need(s, ParseCompare(s, name, c)) < c + n
    ensures c' <= |z| && ParseCompare(z, name, c') == Shift(ParseCompare(s, name, c), c' - c)
  {
    hide Same, TokenEnd, WhiteEnd, CompareOf;
    var d := c' - c;
    var ce := TokenEnd(s, c, 0);
    SameSize(s, c, z, c', n);
    TokenLocal(s, c, z, c', n, 0);
    SameSlice(s, c, z, c', n, 0, ce - c);
    if CompareOf(s[c..ce]) != NoCmp {
      var v := WhiteEnd(s, ce);
      var ve := TokenEnd(s, v, 0);
      SameFrom(s, c, z, c', n, ce - c);
      WhiteLocal(s, ce, z, ce + d, n - (ce - c));
      SameFrom(s, c, z, c', n, v - c);
      TokenLocal(s, v, z, v + d, n - (v - c), 0);
      SameSlice(s, c, z, c', n, v - c, ve - c);
    }
  }

  lemma SimpleLocal(s: string, p: nat, z: string, q: nat, n: nat)
    requires p <= |s| && ParseSimple(s, p).Ok? && Same(s, p, z, q, n) && Need(s, ParseSimple(s, p)) < p + n
    ensures q <= |z| && ParseSimple(z, q) == Shift(ParseSimple(s, p), q - p)
  {
    hide Same, TokenEnd, WhiteEnd, ParseCompare;
    var d := q - p;
    var ne := TokenEnd(s, p, 0);
    var c := WhiteEnd(s, ne);
    SameSize(s, p, z, q, n);
    TokenLocal(s, p, z, q, n, 0);
    SameFrom(s, p, z, q, n, ne - p);
    WhiteLocal(s, ne, z, ne + d, n - (ne - p));
    SameFrom(s, p, z, q, n, c - p);
    SameSlice(s, p, z, q, n, 0, ne - p);
    CompareLocal(s, s[p..ne], c, z, c + d, n - (c - p));
  }

  lemma SameSize(s: string, p: nat, z: string, q: nat, n: nat)
    requires Same(s, p, z, q, n)
    ensures p + n <= |s| && q + n <= |z|
  {
  }

  /** How far a pass looks: to its end, and one character more behind an operator. */
  function Reach(a: Pass): nat
    requires !a.Bad?
  {
    if a.Close? then a.end else a.end + 1
  }

  /** A bare name looks no further than the pass it belongs to. */
  lemma NeedInside(s: string, p: nat)
    requires p < |s| && ParseSimple(s, p).Ok? && !AfterItem(s, p, ParseSimple(s, p)).Bad?
    requires Reach(AfterItem(s, p, ParseSimple(s, p))) <= |s|
    ensures Need(s, ParseSimple(s, p)) < Reach(AfterItem(s, p, ParseSimple(s, p)))
  {
    hide OpOf, CompareOf, TokenEnd, WordEnd, WhiteEnd;
    var item := ParseSimple(s, p);
    if item.tree.sense == NoCmp {
      WhiteTwice(s, TokenEnd(s, p, 0));
      if s[item.end] == ')' {
        CloseToken(s, item.end);
      } else {
        OpIsToken(s, item.end);
      }
    }
  }

  lemma CloseToken(s: string, p: nat)
    requires p < |s| && s[p] == ')'
    ensures TokenEnd(s, p, 0) == p
  {
  }

  lemma AfterItemLocal(s: string, start: nat, item: Parsed, z: string, start': nat)
    requires item.Ok? && start < item.end <= |s| && !AfterItem(s, start, item).Bad?
    requires Same(s, start, z, start', Reach(AfterItem(s, start, item)) - start)
    requires item.end + start' - start <= |z|
    ensures AfterItem(z, start', Shift(item, start' - start)) == Moved(AfterItem(s, start, item), start' - start)
  {
    hide WhiteEnd, WordEnd, OpOf, Same;
    var d, n := start' - start, Reach(AfterItem(s, start, item)) - start;
    SameSize(s, start, z, start', n);
    var l := item.end - start;
    SameFrom(s, start, z, start', n, l);
    WhiteLocal(s, item.end, z, item.end + d, n - l);
    var e := WhiteEnd(s, item.end);
    SameChar(s, start, z, start', n, e - start);
    if s[e] != ')' {
      SameFrom(s, start, z, start', n, e - start);
      WordLocal(s, e, z, e + d, n - (e - start));
      SameSlice(s, start, z, start', n, e - start, WordEnd(s, e) - start);
    }
  }

  /** A pass d characters further on. */
  function Moved(a: Pass, d: int): Pass
    requires a.Bad? || (a.start + d >= 0 && a.end + d >= 0 && (a.item.Ok? ==> a.item.end + d >= 0))
  {
    match a
    case Bad => Bad
    case Close(start, item, end) => Close(start + d, Shift(item, d), end + d)
    case Next(start, item, op, end) => Next(start + d, Shift(item, d), op, end + d)
  }

  /** acc' is acc without its first k arguments and operators. */
  ghost predicate Tailed(acc: Acc, acc': Acc, k: nat) {
    && k <= |acc.args| && k <= |acc.ops|
    && acc'.args == acc.args[k..] && acc'.ops == acc.ops[k..]
    && (acc'.noWith ==> acc.noWith)
    && (acc'.chain == acc.chain || acc'.chain == None)
    && (acc'.ops == [] && acc.ops != [] ==> acc.chain == Some(acc.ops[0]))
    && (acc'.ops != [] && (acc'.ops[0].With? || acc'.ops[0].Without?) ==> acc.ops[0].With? || acc.ops[0].Without?)
  }

  lemma TailedNext(acc: Acc, acc': Acc, k: nat, item: Parsed, item': Parsed, i: nat, j: nat, op: Op)
    requires Tailed(acc, acc', k) && item.Ok? && MayFollow(acc.chain, op)
    requires item'.Ok? && item'.tree == item.tree && item'.noWith == item.noWith
    ensures MayFollow(acc'.chain, op)
    ensures Tailed(AddOp(AddArg(acc, item, i), op), AddOp(AddArg(acc', item', j), op), k)
  {
    var a, b := AddOp(AddArg(acc, item, i), op), AddOp(AddArg(acc', item', j), op);
    assert b.args == a.args[k..];
    assert b.ops == a.ops[k..];
  }

  lemma TailedEnd(acc: Acc, acc': Acc, k: nat, item: Parsed, item': Parsed, i: nat, j: nat,
                  s: string, b: nat, n: nat, z: string, b': nat, m: nat)
    requires Tailed(acc, acc', k) && item.Ok? && b <= n <= |s| && b' <= m <= |z| && Finish(s, b, n, AddArg(acc, item, i)).Ok?
    requires item'.Ok? && item'.tree == item.tree && item'.noWith == item.noWith
    ensures var r, r' := Finish(s, b, n, AddArg(acc, item, i)), Finish(z, b', m, AddArg(acc', item', j));
            && r'.Ok? && r'.end == m && k <= |r.tree.args| && k <= |r.tree.ops|
            && r'.tree.args == r.tree.args[k..] && r'.tree.ops == r.tree.ops[k..]
  {
    assert (acc.args + [item.tree])[k..] == acc.args[k..] + [item.tree];
  }

  lemma ItemLocal(s: string, p: nat, z: string, q: nat)
    requires p < |s| && ParseItem(s, p).Ok? && !AfterItem(s, p, ParseItem(s, p)).Bad?
    requires Reach(AfterItem(s, p, ParseItem(s, p))) <= |s|
    requires Same(s, p, z, q, Reach(AfterItem(s, p, ParseItem(s, p))) - p)
    ensures q < |z| && ParseItem(z, q) == Shift(ParseItem(s, p), q - p)
    decreases |s| - p, 4
  {
    hide AfterItem;
    var n := Reach(AfterItem(s, p, ParseItem(s, p))) - p;
    SameChar(s, p, z, q, n, 0);
    if s[p] == '(' {
      var k := ParseNode(s, p).end - p;
      SameSlice(s, p, z, q, n, 0, k);
      hide ParseNode;
      NodeLocal(s, p, z, q);
    } else {
      NeedInside(s, p);
      hide ParseSimple, Same;
      SimpleLocal(s, p, z, q, n);
    }
  }

  /** The same text parses to the same tree, whatever surrounds it. */
  lemma NodeLocal(s: string, p: nat, z: string, q: nat)
    requires p <= |s| && ParseNode(s, p).Ok? && Same(s, p, z, q, ParseNode(s, p).end - p)
    ensures ParseNode(z, q) == Shift(ParseNode(s, p), q - p)
    decreases |s| - p, 3
  {
    var n := ParseNode(s, p).end - p;
    SameChar(s, p, z, q, n, 0);
    SameFrom(s, p, z, q, n, 1);
    hide ParseLoop, Same;
    LoopExact(s, p, p + 1, START, z, q);
  }

  lemma PassLocal(s: string, p: nat, z: string, q: nat)
    requires p <= |s| && !OnePass(s, p).Bad? && Reach(OnePass(s, p)) <= |s|
    requires Same(s, p, z, q, Reach(OnePass(s, p)) - p)
    ensures q <= |z| && OnePass(z, q) == Moved(OnePass(s, p), q - p)
    decreases |s| - p, 5
  {
    hide WhiteEnd, ParseItem, Same, AfterItem;
    var a := OnePass(s, p);
    var n, d := Reach(a) - p, q - p;
    SameSize(s, p, z, q, n);
    var start := WhiteEnd(s, p);
    WhiteLocal(s, p, z, q, n);
    SameChar(s, p, z, q, n, start - p);
    SameFrom(s, p, z, q, n, start - p);
    ItemLocal(s, start, z, start + d);
    AfterItemLocal(s, start, a.item, z, start + d);
  }

  /** Every pass of a successful parse stays before the closing parenthesis. */
  lemma PassInside(s: string, b: nat, p: nat, acc: Acc)
    requires b < p <= |s| && ParseLoop(s, b, p, acc).Ok?
    ensures !OnePass(s, p).Bad? && Reach(OnePass(s, p)) <= ParseLoop(s, b, p, acc).end
  {
    hide OnePass;
  }

  /** The loop run on the same text at another place. */
  lemma LoopExact(s: string, b: nat, p: nat, acc: Acc, z: string, b': nat)
    requires b < p <= |s| && ParseLoop(s, b, p, acc).Ok? && Same(s, b, z, b', ParseLoop(s, b, p, acc).end - b)
    ensures b' < p + b' - b <= |z| && ParseLoop(z, b', p + b' - b, acc) == Shift(ParseLoop(s, b, p, acc), b' - b)
    decreases |s| - p, 6
  {
    hide OnePass, Same, AddArg, AddOp, Finish;
    var n, d := ParseLoop(s, b, p, acc).end, b' - b;
    SameSize(s, b, z, b', n - b);
    PassInside(s, b, p, acc);
    var a := OnePass(s, p);
    SameFrom(s, b, z, b', n - b, p - b);
    SameLess(s, p, z, p + d, n - p, Reach(a) - p);
    PassLocal(s, p, z, p + d);
    ArgShift(acc, a.item, a.start - b, d);
    if a.Close? {
      FinishEnd(s, b, a.end, AddArg(acc, a.item, a.start - b));
      SameSlice(s, b, z, b', n - b, 0, n - b);
      FinishShift(s, b, n, z, b', AddArg(acc, a.item, a.start - b));
    } else {
      LoopExact(s, b, a.end, AddOp(AddArg(acc, a.item, a.start - b), a.op), z, b');
    }
  }

  /** The loop run on the same text at another place, with the first k arguments left off. */
  lemma {:induction false} LoopTail(s: string, b: nat, p: nat, acc: Acc, z: string, b': nat, q: nat, acc': Acc, k: nat)
    requires b < p <= |s| && b' < q && ParseLoop(s, b, p, acc).Ok?
    requires Same(s, p, z, q, ParseLoop(s, b, p, acc).end - p)
    requires Tailed(acc, acc', k)
    ensures q <= |z|
    ensures var r, r' := ParseLoop(s, b, p, acc), ParseLoop(z, b', q, acc');
            && r'.Ok? && r'.end - q == r.end - p && k <= |r.tree.args| && k <= |r.tree.ops|
            && r'.tree.args == r.tree.args[k..] && r'.tree.ops == r.tree.ops[k..]
    decreases |s| - p
  {
    hide OnePass, Tailed, Same, AddArg, AddOp, Finish;
    var n, d := ParseLoop(s, b, p, acc).end, q - p;
    SameSize(s, p, z, q, n - p);
    PassInside(s, b, p, acc);
    var a := OnePass(s, p);
    SameLess(s, p, z, q, n - p, Reach(a) - p);
    PassLocal(s, p, z, q);
    var item' := Shift(a.item, d);
    if a.Close? {
      FinishEnd(s, b, a.end, AddArg(acc, a.item, a.start - b));
      TailedEnd(acc, acc', k, a.item, item', a.start - b, a.start + d - b', s, b, a.end, z, b', a.end + d);
    } else {
      TailedNext(acc, acc', k, a.item, item', a.start - b, a.start + d - b', a.op);
      SameFrom(s, p, z, q, n - p, a.end - p);
      LoopTail(s, b, a.end, AddOp(AddArg(acc, a.item, a.start - b), a.op),
               z, b', a.end + d, AddOp(AddArg(acc', item', a.start + d - b'), a.op), k);
    }
  }

  lemma ArgShift(acc: Acc, item: Parsed, start: nat, d: int)
    requires item.Ok? && item.end + d >= 0
    ensures AddArg(acc, Shift(item, d), start) == AddArg(acc, item, start)
  {
  }

  lemma FinishShift(s: string, b: nat, n: nat, z: string, b': nat, acc: Acc)
    requires b <= n <= |s| && n + b' - b <= |z| && s[b..n] == z[b'..n + b' - b]
    ensures Finish(z, b', n + b' - b, acc) == Shift(Finish(s, b, n, acc), b' - b)
  {
  }

  lemma FinishEnd(s: string, b: nat, n: nat, acc: Acc)
    requires b <= n <= |s| && Finish(s, b, n, acc).Ok?
    ensures Finish(s, b, n, acc).end == n
  {
  }

  lemma SameLess(s: string, p: nat, z: string, q: nat, n: nat, k: nat)
    requires Same(s, p, z, q, n) && k <= n
    ensures Same(s, p, z, q, k)
  {
    SameSlice(s, p, z, q, n, 0, k);
  }
}
