/** The written form of rich dependencies, and that it is read back: every word means its own
    operator (lib/rpmds.cc:1180-1216, 1242-1397). */
module RichPrint {
  import opened Common
  import opened RichParse
  import opened RichTree
  import opened RichSplit
  import opened RichEval
  import opened RichMeaning

  /** A formula as one would write it; alt picks the other spelling of a comparison. */
  datatype Formula =
    | Simple(name: string, sense: Compare, evr: string, alt: bool)
    | Rich(args: seq<Formula>, ops: seq<Op>)

  function Word(op: Op): string {
    match op
    case And => "and"
    case Or => "or"
    case If => "if"
    case Unless => "unless"
    case Else => "else"
    case With => "with"
    case Without => "without"
  }

  function CompareWord(c: Compare, alt: bool): string {
    match c
    case NoCmp => ""
    case Less => "<"
    case LessEqual => if alt then "=<" else "<="
    case Equal => if alt then "==" else "="
    case GreaterEqual => if alt then "=>" else ">="
    case Greater => ">"
  }

  /** "(A op B op C)", with versions as "name < version". */
  function Print(f: Formula): (r: string)
    ensures f.Rich? ==> |r| > 0
    decreases f, 1, 0
  {
    match f
    case Simple(name, sense, evr, alt) => if sense == NoCmp then name else name + (" " + CompareWord(sense, alt) + " ") + evr
    case Rich(_, _) => "(" + Rest(f, 0)
  }

  /** The text from argument k on. */
  function Rest(f: Formula, k: nat): string
    requires f.Rich? && k <= |f.args|
    decreases f, 0, |f.args| - k
  {
    if k == |f.args| then ")" else Print(f.args[k]) + (Glue(f, k) + Rest(f, k + 1))
  }

  /** What stands behind argument k. */
  function Glue(f: Formula, k: nat): string
    requires f.Rich?
  {
    if k < |f.ops| then " " + Word(f.ops[k]) + " " else ""
  }

  /** No separators, and parentheses that match. */
  predicate TokenOk(s: string, open: nat)
    decreases |s|
  {
    if s == "" then open == 0
    else
      && !IsSep(s[0]) && (s[0] == ')' ==> open > 0)
      && TokenOk(s[1..], if s[0] == '(' then open + 1 else if s[0] == ')' then open - 1 else open)
  }

  /** One operator, a chain of and, or, with, or an if or unless with else. */
  predicate ChainOk(ops: seq<Op>) {
    || |ops| <= 1
    || (|ops| == 2 && (ops[0] == If || ops[0] == Unless) && ops[1] == Else)
    || ((ops[0] == And || ops[0] == Or || ops[0] == With) && forall i :: 0 <= i < |ops| ==> ops[i] == ops[0])
  }

  /** Only with, without and or. */
  predicate SetOnly(f: Formula) {
    f.Rich? ==>
      && (forall i :: 0 <= i < |f.ops| ==> f.ops[i] == With || f.ops[i] == Without || f.ops[i] == Or)
      && (forall i :: 0 <= i < |f.args| ==> SetOnly(f.args[i]))
  }

  predicate Legal(f: Formula) {
    match f
    case Simple(name, sense, evr, _) =>
      && name != "" && name[0] != '(' && TokenOk(name, 0)
      && (if sense == NoCmp then evr == "" else evr != "" && TokenOk(evr, 0))
    case Rich(args, ops) =>
      && |args| == |ops| + 1 && ChainOk(ops)
      && (forall i :: 0 <= i < |args| ==> Legal(args[i]))
      && (ops != [] && (ops[0] == With || ops[0] == Without) ==> forall i :: 0 <= i < |args| ==> SetOnly(args[i]))
  }

  /** Where argument k starts in the text. */
  function StartOf(f: Formula, k: nat): nat
    requires f.Rich? && k <= |f.args|
  {
    var n := |Print(f)| - |Rest(f, k)|;
    if n >= 0 then n else 0
  }

  lemma LengthsAdd(f: Formula, k: nat)
    requires f.Rich? && k < |f.args|
    ensures |Rest(f, k)| == |Print(f.args[k])| + |Glue(f, k)| + |Rest(f, k + 1)| && |Print(f)| == 1 + |Rest(f, 0)|
  {
    hide Glue;
  }

  lemma {:induction false} StartGrows(f: Formula, k: nat)
    requires f.Rich? && k <= |f.args|
    ensures StartOf(f, k) >= 1 && StartOf(f, k) == |Print(f)| - |Rest(f, k)|
    decreases k
  {
    hide Print, Rest, Glue;
    if k > 0 {
      StartGrows(f, k - 1);
      LengthsAdd(f, k - 1);
    } else {
      WholeLength(f);
    }
  }

  lemma WholeLength(f: Formula)
    requires f.Rich?
    ensures |Print(f)| == 1 + |Rest(f, 0)|
  {
    hide Rest;
  }

  /** The tree that is to be read. */
  function TreeOf(f: Formula): Tree {
    match f
    case Simple(name, sense, evr, _) => Leaf(name, sense, evr)
    case Rich(args, ops) =>
      Node(seq(|args|, i requires 0 <= i < |args| => TreeOf(args[i])), ops, Starts(f, |args|), Print(f))
  }

  function Starts(f: Formula, k: nat): seq<nat>
    requires f.Rich? && k <= |f.args|
  {
    seq(k, i requires 0 <= i < k => StartOf(f, i))
  }

  /** s has the text x at p. */
  ghost predicate At(s: string, p: nat, x: string) { p + |x| <= |s| && s[p..p + |x|] == x }

  /** A word between spaces. */
  ghost predicate Spaced(s: string, p: nat, w: string) { At(s, p, " " + w + " ") }

  lemma SpacedParts(s: string, p: nat, w: string)
    requires Spaced(s, p, w)
    ensures p + |w| + 2 <= |s| && s[p] == ' ' == s[p + 1 + |w|] && At(s, p + 1, w)
  {
    assert " " + w + " " == " " + (w + " ");
    AtParts(s, p, " ", w + " ");
    AtParts(s, p + 1, w, " ");
    AtChar(s, p, " ", 0);
    AtChar(s, p + 1 + |w|, " ", 0);
  }

  lemma AtParts(s: string, p: nat, x: string, y: string)
    requires At(s, p, x + y)
    ensures At(s, p, x) && At(s, p + |x|, y)
  {
    var z := x + y;
    SubSlice(s, p, p + |z|, 0, |x|);
    SubSlice(s, p, p + |z|, |x|, |z|);
    assert z[..|x|] == x && z[|x|..] == y;
  }

  lemma AtChar(s: string, p: nat, x: string, i: nat)
    requires At(s, p, x) && i < |x|
    ensures s[p + i] == x[i]
  {
    assert s[p + i] == s[p..p + |x|][i];
  }

  /* ---- Scanners ---- */

  /** A token ends where its text ends. */
  lemma {:induction false} TokenScan(s: string, p: nat, x: string, open: nat)
    requires At(s, p, x) && TokenOk(x, open) && p + |x| < |s| && (IsSep(s[p + |x|]) || s[p + |x|] == ')')
    ensures TokenEnd(s, p, open) == p + |x| && s[p..p + |x|] == x
    decreases |x|
  {
    if x != "" {
      AtChar(s, p, x, 0);
      assert x == x[..1] + x[1..];
      AtParts(s, p, x[..1], x[1..]);
      TokenScan(s, p + 1, x[1..], if x[0] == '(' then open + 1 else if x[0] == ')' then open - 1 else open);
    }
  }

  lemma {:induction false} WordScan(s: string, p: nat, n: nat)
    requires p + n < |s| && IsSpace(s[p + n]) && forall i :: p <= i < p + n ==> 'a' <= s[i] <= 'z'
    ensures WordEnd(s, p) == p + n && TokenEnd(s, p, 0) == p + n
    decreases n
  {
    if n > 0 { WordScan(s, p + 1, n - 1); }
  }

  lemma WordLetters(op: Op)
    ensures Word(op) != "" && (forall i :: 0 <= i < |Word(op)| ==> 'a' <= Word(op)[i] <= 'z')
    ensures OpOf(Word(op)) == Some(op) && CompareOf(Word(op)) == NoCmp
  {
  }

  /** An operator between spaces is read, and is no comparison. */
  lemma OpAt(s: string, p: nat, op: Op)
    requires Spaced(s, p, Word(op))
    ensures p + 1 + |Word(op)| < |s| && WhiteEnd(s, p) == WhiteEnd(s, p + 1) == p + 1 && s[p + 1] != ')'
    ensures WordEnd(s, p + 1) == TokenEnd(s, p + 1, 0) == p + 1 + |Word(op)| && s[p + 1..p + 1 + |Word(op)|] == Word(op)
    ensures s[p] == ' ' && s[p + 1 + |Word(op)|] == ' '
  {
    hide Spaced, Word;
    var w := Word(op);
    WordLetters(op);
    SpacedParts(s, p, w);
    forall i | p + 1 <= i < p + 1 + |w| ensures 'a' <= s[i] <= 'z' { AtChar(s, p + 1, w, i - p - 1); }
    WordScan(s, p + 1, |w|);
  }

  /* ---- Arguments ---- */

  /** What follows an argument: an operator between spaces, or the closing parenthesis. */
  ghost predicate Behind(s: string, p: nat, op: Option<Op>) {
    if op.Some? then Spaced(s, p, Word(op.value)) else At(s, p, ")")
  }

  /** Where parsing an argument stops. */
  function ItemEnd(f: Formula, p: nat, op: Option<Op>): nat {
    p + |Print(f)| + if f.Simple? && f.sense == NoCmp && op.Some? then 1 else 0
  }

  /** Behind a name: nothing, and nothing that looks like a comparison. */
  lemma NameOnly(s: string, name: string, c: nat, op: Option<Op>)
    requires Behind(s, c, op)
    ensures var e := c + if op.Some? then 1 else 0;
            e <= |s| && WhiteEnd(s, c) == e && ParseCompare(s, name, e) == Ok(Leaf(name, NoCmp, ""), e, false)
  {
    if op.Some? {
      OpAt(s, c, op.value);
      WordLetters(op.value);
    } else {
      AtChar(s, c, ")", 0);
      assert TokenEnd(s, c, 0) == c && s[c..c] == "";
    }
  }

  lemma CompareScan(s: string, p: nat, sense: Compare, alt: bool)
    requires Spaced(s, p, CompareWord(sense, alt)) && sense != NoCmp && p + 2 + |CompareWord(sense, alt)| < |s|
    requires !IsSep(s[p + 2 + |CompareWord(sense, alt)|])
    ensures var w := CompareWord(sense, alt);
            && s[p] == ' ' && WhiteEnd(s, p) == p + 1 && TokenEnd(s, p + 1, 0) == p + 1 + |w| && s[p + 1..p + 1 + |w|] == w
            && WhiteEnd(s, p + 1 + |w|) == p + 2 + |w| && CompareOf(w) == sense
  {
    var w := CompareWord(sense, alt);
    SpacedParts(s, p, w);
    AtChar(s, p + 1, w, 0);
    assert TokenOk(w, 0) by { if |w| == 2 { assert TokenOk(w[1..], 0); assert w[1..][1..] == ""; } else { assert w[1..] == ""; } }
    TokenScan(s, p + 1, w, 0);
  }

  /** The first character behind an argument ends a token. */
  lemma BehindStops(s: string, p: nat, op: Option<Op>)
    requires Behind(s, p, op)
    ensures p < |s| && (IsSep(s[p]) || s[p] == ')')
  {
    if op.Some? { OpAt(s, p, op.value); } else { AtChar(s, p, ")", 0); }
  }

  lemma TokenStart(x: string)
    requires TokenOk(x, 0) && x != ""
    ensures !IsSep(x[0]) && x[0] != ')'
  {
  }

  lemma NamePrints(s: string, p: nat, name: string, op: Option<Op>)
    requires name != "" && TokenOk(name, 0) && At(s, p, name) && Behind(s, p + |name|, op)
    ensures p <= |s| && ParseSimple(s, p) == Ok(Leaf(name, NoCmp, ""), p + |name| + if op.Some? then 1 else 0, false)
  {
    hide TokenOk, Behind, ParseCompare, TokenEnd, WhiteEnd, At;
    BehindStops(s, p + |name|, op);
    TokenScan(s, p, name, 0);
    NameOnly(s, name, p + |name|, op);
  }

  lemma VersionPrints(s: string, p: nat, name: string, sense: Compare, alt: bool, evr: string, op: Option<Op>)
    requires name != "" && TokenOk(name, 0) && evr != "" && TokenOk(evr, 0) && sense != NoCmp
    requires At(s, p, name) && Spaced(s, p + |name|, CompareWord(sense, alt))
    requires var v := p + |name| + 2 + |CompareWord(sense, alt)|; At(s, v, evr) && Behind(s, v + |evr|, op)
    ensures var v := p + |name| + 2 + |CompareWord(sense, alt)|; ParseSimple(s, p) == Ok(Leaf(name, sense, evr), v + |evr|, false)
  {
    hide TokenOk, Behind, TokenEnd, WhiteEnd, CompareWord, CompareOf, At, IsSep, ParseCompare, Spaced;
    var w := CompareWord(sense, alt);
    var c := p + |name| + 1;
    var v := c + 1 + |w|;
    BehindStops(s, v + |evr|, op);
    TokenStart(evr);
    AtFirst(s, v, evr);
    SpaceIsSep();
    CompareScan(s, p + |name|, sense, alt);
    TokenScan(s, p, name, 0);
    TokenScan(s, v, evr, 0);
    VersionTail(s, name, c, w, v, evr);
  }

  lemma VersionTail(s: string, name: string, c: nat, w: string, v: nat, evr: string)
    requires c + |w| + 1 == v && v + |evr| <= |s| && TokenEnd(s, c, 0) == c + |w| && s[c..c + |w|] == w && CompareOf(w) != NoCmp
    requires WhiteEnd(s, c + |w|) == v && TokenEnd(s, v, 0) == v + |evr| && s[v..v + |evr|] == evr && evr != ""
    ensures ParseCompare(s, name, c) == Ok(Leaf(name, CompareOf(w), evr), v + |evr|, false)
  {
    hide TokenEnd, WhiteEnd, CompareOf;
  }

  lemma SpaceIsSep()
    ensures IsSep(' ')
  {
  }

  lemma SimplePrints(f: Formula, s: string, p: nat, op: Option<Op>)
    requires f.Simple? && Legal(f) && At(s, p, Print(f)) && Behind(s, p + |Print(f)|, op)
    ensures p < |s| && s[p] != '(' && s[p] != ')' && !IsSep(s[p])
    ensures ParseSimple(s, p) == Ok(TreeOf(f), ItemEnd(f, p, op), false)
  {
    hide TokenOk, Behind, ParseSimple, At, IsSep, CompareWord;
    TokenStart(f.name);
    if f.sense == NoCmp {
      NamePrints(s, p, f.name, op);
    } else {
      var w := " " + CompareWord(f.sense, f.alt) + " ";
      assert Print(f) == f.name + (w + f.evr);
      AtParts(s, p, f.name, w + f.evr);
      AtParts(s, p + |f.name|, w, f.evr);
      VersionPrints(s, p, f.name, f.sense, f.alt, f.evr, op);
    }
    AtFirst(s, p, f.name);
  }

  lemma AtFirst(s: string, p: nat, x: string)
    requires At(s, p, x) && x != ""
    ensures p < |s| && s[p] == x[0]
  {
    AtChar(s, p, x, 0);
  }

  /* ---- Nodes ---- */

  ghost predicate NoWith(f: Formula) { !SetOnly(f) }

  ghost function AccOf(f: Formula, k: nat): Acc
    requires f.Rich? && k <= |f.args| == |f.ops| + 1 && k <= |f.ops|
  {
    Acc(seq(k, i requires 0 <= i < k => TreeOf(f.args[i])), f.ops[..k], Starts(f, k),
        if k == 0 then None else Some(f.ops[k - 1]), exists i :: 0 <= i < k && NoWith(f.args[i]))
  }

  function OpAfter(f: Formula, k: nat): Option<Op>
    requires f.Rich?
  {
    if k < |f.ops| then Some(f.ops[k]) else None
  }

  /** Where the loop looks for argument k. */
  function Look(f: Formula, b: nat, k: nat): int
    requires f.Rich? && k <= |f.args|
  {
    b + StartOf(f, k) - if k == 0 then 0 else 1
  }

  lemma RestStep(f: Formula, k: nat)
    requires f.Rich? && k < |f.args|
    ensures Rest(f, k) == Print(f.args[k]) + (Glue(f, k) + Rest(f, k + 1))
    ensures StartOf(f, k + 1) == StartOf(f, k) + |Print(f.args[k])| + |Glue(f, k)|
    ensures Print(f) == "(" + Rest(f, 0) && StartOf(f, 0) == 1
  {
    hide Glue;
    StartGrows(f, k);
    StartGrows(f, k + 1);
  }

  lemma GlueIs(f: Formula, k: nat)
    requires f.Rich? && |f.args| == |f.ops| + 1 && k < |f.args|
    ensures k < |f.ops| ==> Glue(f, k) == " " + Word(f.ops[k]) + " "
    ensures k == |f.ops| ==> Glue(f, k) == "" && Rest(f, k + 1) == ")"
  {
    hide Word;
  }

  /** The text of argument k and what is behind it. */
  lemma {:induction false} ArgAt(f: Formula, s: string, b: nat, k: nat)
    requires f.Rich? && |f.args| == |f.ops| + 1 && At(s, b, Print(f)) && k < |f.args|
    ensures StartOf(f, k) >= 1 && At(s, b + StartOf(f, k), Rest(f, k))
    ensures var p := b + StartOf(f, k);
            && At(s, p, Print(f.args[k])) && Behind(s, p + |Print(f.args[k])|, OpAfter(f, k))
            && StartOf(f, k + 1) == StartOf(f, k) + |Print(f.args[k])| + |Glue(f, k)|
            && At(s, p + |Print(f.args[k])| + |Glue(f, k)|, Rest(f, k + 1))
    decreases k
  {
    hide At, Rest, Print, Glue, Word, StartOf;
    StartGrows(f, k);
    RestStep(f, k);
    if k == 0 { AtParts(s, b, "(", Rest(f, 0)); } else { ArgAt(f, s, b, k - 1); }
    var p := b + StartOf(f, k);
    AtParts(s, p, Print(f.args[k]), Glue(f, k) + Rest(f, k + 1));
    AtParts(s, p + |Print(f.args[k])|, Glue(f, k), Rest(f, k + 1));
    GlueIs(f, k);
  }

  /** Behind an operator there is a space in front of the next argument. */
  lemma SpaceBefore(f: Formula, s: string, b: nat, k: nat)
    requires f.Rich? && |f.args| == |f.ops| + 1 && At(s, b, Print(f)) && 0 < k < |f.args|
    ensures StartOf(f, k) >= 4 && b + StartOf(f, k) <= |s| && s[b + StartOf(f, k) - 1] == ' '
    ensures StartOf(f, k) == StartOf(f, k - 1) + |Print(f.args[k - 1])| + |Word(f.ops[k - 1])| + 2
  {
    hide At, Rest, Print, Word, StartOf, Spaced, Glue, WhiteEnd, WordEnd, TokenEnd;
    GlueIs(f, k - 1);
    ArgAt(f, s, b, k - 1);
    OpAt(s, b + StartOf(f, k - 1) + |Print(f.args[k - 1])|, f.ops[k - 1]);
    WordLetters(f.ops[k - 1]);
  }

  /** An argument is read as its tree. */
  lemma {:induction false} ItemPrints(f: Formula, s: string, p: nat, op: Option<Op>)
    requires Legal(f) && At(s, p, Print(f)) && Behind(s, p + |Print(f)|, op)
    ensures p < |s| && s[p] != ')' && !IsSep(s[p])
    ensures ParseItem(s, p) == Ok(TreeOf(f), ItemEnd(f, p, op), NoWith(f))
    decreases f, 3
  {
    if f.Simple? {
      hide TreeOf, Print;
      SimplePrints(f, s, p, op);
    } else {
      AtChar(s, p, Print(f), 0);
      NodePrints(f, s, p);
    }
  }

  lemma {:induction false} NodePrints(f: Formula, s: string, b: nat)
    requires Legal(f) && f.Rich? && At(s, b, Print(f))
    ensures ParseNode(s, b) == Ok(TreeOf(f), b + |Print(f)|, NoWith(f))
    decreases f, 2
  {
    hide Legal, TreeOf, Rest, At, StartOf, ParseLoop, NoWith;
    LegalParts(f);
    RestStep(f, 0);
    AtFirst(s, b, Print(f));
    LoopPrints(f, s, b, 0);
    assert AccOf(f, 0) == START;
  }

  lemma LegalParts(f: Formula)
    requires Legal(f) && f.Rich?
    ensures |f.args| == |f.ops| + 1 && ChainOk(f.ops) && forall i :: 0 <= i < |f.args| ==> Legal(f.args[i])
    ensures f.ops != [] && (f.ops[0] == With || f.ops[0] == Without) ==> forall i :: 0 <= i < |f.args| ==> SetOnly(f.args[i])
  {
  }

  /** One pass of the loop reads one argument and the operator behind it. */
  lemma {:induction false} PassPrints(f: Formula, s: string, b: nat, k: nat)
    requires Legal(f) && f.Rich? && At(s, b, Print(f)) && k < |f.args|
    ensures |f.args| == |f.ops| + 1 && b < Look(f, b, k) <= |s| && StartOf(f, k) >= 1
    ensures var start := b + StartOf(f, k);
            var item := Ok(TreeOf(f.args[k]), ItemEnd(f.args[k], start, OpAfter(f, k)), NoWith(f.args[k]));
            OnePass(s, Look(f, b, k)) ==
            if k < |f.ops| then Next(start, item, f.ops[k], Look(f, b, k + 1)) else Close(start, item, b + |Print(f)|)
    decreases f, 0
  {
    hide TreeOf, Print, Rest, ParseItem, Legal, NoWith, At, Word, Glue, StartOf, WhiteEnd, WordEnd, IsSep, AfterItem, Spaced;
    LegalParts(f);
    ArgAt(f, s, b, k);
    var start, a, op := b + StartOf(f, k), f.args[k], OpAfter(f, k);
    ItemPrints(a, s, start, op);
    if k > 0 { SpaceBefore(f, s, b, k); }
    RestStep(f, 0);
    WhiteTo(s, Look(f, b, k), start);
    if k < |f.ops| {
      SpaceBefore(f, s, b, k + 1);
      AfterOp(s, start, Ok(TreeOf(a), ItemEnd(a, start, op), NoWith(a)), start + |Print(a)|, f.ops[k]);
    } else {
      GlueIs(f, k);
      RestEnd(f);
      AfterClose(s, start, Ok(TreeOf(a), ItemEnd(a, start, op), NoWith(a)), start + |Print(a)|);
    }
  }

  lemma AfterOp(s: string, start: nat, item: Parsed, e: nat, op: Op)
    requires item.Ok? && start < item.end <= |s| && (item.end == e || item.end == e + 1) && Spaced(s, e, Word(op))
    ensures AfterItem(s, start, item) == Next(start, item, op, e + 1 + |Word(op)|)
  {
    hide At, WordEnd, WhiteEnd, TokenEnd, Word, Spaced, OpOf;
    OpAt(s, e, op);
    WordLetters(op);
  }

  lemma AfterClose(s: string, start: nat, item: Parsed, e: nat)
    requires item.Ok? && start < item.end <= |s| && item.end == e && At(s, e, ")")
    ensures AfterItem(s, start, item) == Close(start, item, e + 1)
  {
    hide At;
    CloseAt(s, e);
  }

  /** At most one space is skipped. */
  lemma WhiteTo(s: string, p: nat, e: nat)
    requires e < |s| && (p == e || (p + 1 == e && s[p] == ' ')) && !IsSep(s[e])
    ensures WhiteEnd(s, p) == e
  {
  }

  lemma CloseAt(s: string, e: nat)
    requires At(s, e, ")")
    ensures e < |s| && s[e] == ')' && WhiteEnd(s, e) == e
  {
    AtChar(s, e, ")", 0);
  }

  lemma RestEnd(f: Formula)
    requires f.Rich?
    ensures StartOf(f, |f.args|) == |Print(f)| - 1
  {
    hide Print;
    StartGrows(f, |f.args|);
  }

  lemma {:induction false} LoopPrints(f: Formula, s: string, b: nat, k: nat)
    requires Legal(f) && f.Rich? && At(s, b, Print(f)) && k < |f.args|
    ensures |f.args| == |f.ops| + 1 && b < Look(f, b, k) <= |s|
    ensures ParseLoop(s, b, Look(f, b, k), AccOf(f, k)) == Ok(TreeOf(f), b + |Print(f)|, NoWith(f))
    decreases f, 1, |f.args| - k
  {
    hide Legal, TreeOf, Print, Rest, OnePass, NoWith, At, StartOf, AccOf, AddArg, AddOp, Finish;
    LegalParts(f);
    AccChain(f, k);
    PassPrints(f, s, b, k);
    var start, p, acc := b + StartOf(f, k), Look(f, b, k), AccOf(f, k);
    var item := Ok(TreeOf(f.args[k]), ItemEnd(f.args[k], start, OpAfter(f, k)), NoWith(f.args[k]));
    var added := AddArg(acc, item, start - b);
    if k < |f.ops| {
      LoopPrints(f, s, b, k + 1);
      AccNext(f, k, item, start - b);
      ChainNext(f.ops, k);
    } else {
      AccLast(f, s, b, item, start - b);
    }
  }

  lemma AccChain(f: Formula, k: nat)
    requires f.Rich? && k <= |f.args| == |f.ops| + 1 && k <= |f.ops|
    ensures AccOf(f, k).chain == if k == 0 then None else Some(f.ops[k - 1])
  {
  }

  lemma ChainNext(ops: seq<Op>, k: nat)
    requires ChainOk(ops) && k < |ops|
    ensures MayFollow(if k == 0 then None else Some(ops[k - 1]), ops[k])
  {
  }

  lemma AccNext(f: Formula, k: nat, item: Parsed, start: nat)
    requires f.Rich? && |f.args| == |f.ops| + 1 && k < |f.ops| && item.Ok? && item.tree == TreeOf(f.args[k]) && item.noWith == NoWith(f.args[k])
    requires start == StartOf(f, k)
    ensures AddOp(AddArg(AccOf(f, k), item, start), f.ops[k]) == AccOf(f, k + 1)
  {
    hide TreeOf, NoWith, Print, Rest;
    var l, r := AddOp(AddArg(AccOf(f, k), item, start), f.ops[k]), AccOf(f, k + 1);
    assert l.args == r.args && l.ops == r.ops && l.starts == r.starts;
    assert l.noWith == r.noWith;
  }

  lemma AccLast(f: Formula, s: string, b: nat, item: Parsed, start: nat)
    requires Legal(f) && f.Rich? && At(s, b, Print(f)) && |f.args| == |f.ops| + 1
    requires var k := |f.ops|; item.Ok? && item.tree == TreeOf(f.args[k]) && item.noWith == NoWith(f.args[k]) && start == StartOf(f, k)
    ensures Finish(s, b, b + |Print(f)|, AddArg(AccOf(f, |f.ops|), item, start)) == Ok(TreeOf(f), b + |Print(f)|, NoWith(f))
  {
    hide Print, Rest;
    var k, acc := |f.ops|, AddArg(AccOf(f, |f.ops|), item, start);
    assert acc.args == TreeOf(f).args && acc.ops == f.ops && acc.starts == Starts(f, |f.args|);
    assert acc.noWith <==> exists i :: 0 <= i < |f.args| && NoWith(f.args[i]);
    LastKeeps(f);
  }

  lemma LastKeeps(f: Formula)
    requires Legal(f) && f.Rich?
    ensures NoWith(f) <==> (exists i :: 0 <= i < |f.args| && NoWith(f.args[i])) || (f.ops != [] && !KeepsSets(f.ops[|f.ops| - 1]))
  {
    if f.ops != [] { assert f.ops[|f.ops| - 1] in f.ops; }
  }

  /** Every formula that is written legally is read as what it is. */
  lemma ReadBack(f: Formula)
    requires Legal(f) && f.Rich?
    ensures ParseNode(Print(f), 0) == Ok(TreeOf(f), |Print(f)|, NoWith(f))
  {
    assert At(Print(f), 0, Print(f));
    NodePrints(f, Print(f), 0);
  }

  /* ---- What the words mean ---- */

  /** Package x is what a formula of with, without and or asks for. */
  ghost predicate AsksFor(w: World, d: Dep, f: Formula, x: nat) {
    match f
    case Simple(name, sense, evr, _) => !SubDep(d, Sub(name, sense, evr)).rpmlib && w.offers(x, Sub(name, sense, evr))
    case Rich(args, ops) =>
      if ops == [] then args != [] && AsksFor(w, d, args[0], x)
      else if ops[0] == Or then exists i :: 0 <= i < |args| && AsksFor(w, d, args[i], x)
      else if ops[0] == With then forall i :: 0 <= i < |args| ==> AsksFor(w, d, args[i], x)
      else ops[0] == Without && |args| >= 2 && AsksFor(w, d, args[0], x) && !AsksFor(w, d, args[1], x)
  }

  /** The formula holds: and, or, if, unless and else are logic, with and without are about one package. */
  ghost predicate Holds(w: World, d: Dep, f: Formula) {
    match f
    case Simple(name, sense, evr, _) => SimpleSatisfied(w, SubDep(d, Sub(name, sense, evr)))
    case Rich(args, ops) =>
      if |args| != |ops| + 1 then false
      else if ops == [] then Holds(w, d, args[0])
      else match ops[0]
        case And => forall i :: 0 <= i < |args| ==> Holds(w, d, args[i])
        case Or => exists i :: 0 <= i < |args| && Holds(w, d, args[i])
        case If => if |args| == 2 then Holds(w, d, args[1]) ==> Holds(w, d, args[0])
                   else if Holds(w, d, args[1]) then Holds(w, d, args[0]) else Holds(w, d, args[2])
        case Unless => if |args| == 2 then Holds(w, d, args[0]) && !Holds(w, d, args[1])
                       else if Holds(w, d, args[1]) then Holds(w, d, args[2]) else Holds(w, d, args[0])
        case Else => Holds(w, d, args[0])
        case _ => exists x :: x in (if d.preTrans then w.installed else w.visible) && AsksFor(w, d, f, x)
  }

  /** else only after if or unless. */
  ghost predicate ElseAfter(f: Formula) {
    f.Rich? ==> (f.ops != [] ==> f.ops[0] != Else) && forall i :: 0 <= i < |f.args| ==> ElseAfter(f.args[i])
  }

  lemma {:induction false} AsksMatches(w: World, d: Dep, f: Formula, x: nat)
    ensures AsksFor(w, d, f, x) == Matches(w, d, TreeOf(f), x)
    decreases f
  {
    hide Print, Starts;
    if f.Rich? {
      forall i | 0 <= i < |f.args| ensures AsksFor(w, d, f.args[i], x) == Matches(w, d, TreeOf(f).args[i], x) {
        AsksMatches(w, d, f.args[i], x);
      }
    }
  }

  lemma {:induction false} HoldsTruth(w: World, d: Dep, f: Formula)
    ensures Holds(w, d, f) == Truth(w, d, TreeOf(f))
    decreases f
  {
    hide Print, Starts;
    if f.Rich? {
      forall i | 0 <= i < |f.args| ensures Holds(w, d, f.args[i]) == Truth(w, d, TreeOf(f).args[i]) {
        HoldsTruth(w, d, f.args[i]);
      }
      forall x ensures AsksFor(w, d, f, x) == Matches(w, d, TreeOf(f), x) { AsksMatches(w, d, f, x); }
      hide Matches, AsksFor;
      if f.ops != [] && (f.ops[0] == With || f.ops[0] == Without) && |f.args| == |f.ops| + 1 {
        var t := TreeOf(f);
        assert forall x :: x in Picked(w, d, t) <==> x in (if d.preTrans then w.installed else w.visible) && Matches(w, d, t, x);
      }
    }
  }

  lemma {:induction false} ElseTree(f: Formula)
    requires ElseAfter(f)
    ensures ElseOk(TreeOf(f))
    decreases f
  {
    hide Print, Starts;
    if f.Rich? {
      forall i | 0 <= i < |f.args| ensures ElseOk(TreeOf(f).args[i]) { ElseTree(f.args[i]); }
    }
  }

  /** unsatisfiedDepend() on a written formula: it is satisfied exactly if the formula holds. */
  lemma WrittenMeaning(w: World, d: Dep, f: Formula)
    requires f.Rich? && Legal(f) && ElseAfter(f) && d.sub.name == Print(f) && !d.rpmlib && !(d.installed && d.transient)
    ensures Satisfied(w, d) == Holds(w, d, f)
  {
    hide TreeOf, Legal, Holds, Satisfied, Truth, ParseNode, Rest;
    ReadBack(f);
    ElseTree(f);
    assert IsRich(Print(f));
    EvaluationMeaning(w, d);
    HoldsTruth(w, d, f);
  }

  /** All spellings of the comparisons. */
  lemma CompareSpellings()
    ensures CompareOf("<") == Less && CompareOf("<=") == CompareOf("=<") == LessEqual && CompareOf("=") == CompareOf("==") == Equal
    ensures CompareOf(">") == Greater && CompareOf(">=") == CompareOf("=>") == GreaterEqual
  {
  }
}
