/** Which of two operators takes an operand that stands between them, told by their kinds alone. */
module Ranks {
  import opened Basics
  import opened Precedence

  /** How tight an infix operator binds, from 1; 0 is no infix operator. */
  function Rank(k: Kind): (r: nat)
    ensures r <= 10
  {
    if k.SEMI? || k.COMMA? then 1
    else if k.ASSIGN? || k.PLUSEQ? || k.MINUSEQ? || k.MULEQ? || k.DIVEQ? || k.CATEQ? then 2
    else if k.QUESTION? || k.COLON? then 3
    else if k.OR? then 4
    else if k.AND? then 5
    else if k.EQ? || k.NEQ? then 6
    else if k.LT? || k.LTE? || k.GT? || k.GTE? then 7
    else if k.PLUS? || k.MINUS? || k.CAT? then 8
    else if k.MUL? || k.DIV? then 9
    else if k.DOT? then 10
    else 0
  }

  /** Lists, assignments and conditionals group from the right. */
  predicate FromRight(k: Kind) { 1 <= Rank(k) <= 3 }

  predicate IsAtom(k: Kind) { k.SYMBOL? || k.LITERAL? || k.NIL? }

  /** Of two infix operators with an operand between them the second takes it. */
  predicate SecondTakes(first: Kind, second: Kind) {
    Rank(second) > Rank(first) || (Rank(second) == Rank(first) && FromRight(first))
  }

  // ----- ranks and levels -----

  /** The level that splits at an infix operator. */
  function Home(k: Kind): (m: nat)
    requires Rank(k) > 0
    ensures m < LEVELS
  {
    var r := Rank(k);
    if r == 1 then 0 else if r <= 3 then r + 1 else if r <= 9 then r + 2 else 14
  }

  lemma HomeIs(k: Kind, m: nat)
    requires m < LEVELS
    ensures InLevel(k, m) && (RuleOf(m).BINARY? || RuleOf(m).REVERSE?) <==> Rank(k) > 0 && m == Home(k)
    ensures Rank(k) > 0 ==> if FromRight(k) then RuleOf(Home(k)).REVERSE? else RuleOf(Home(k)).BINARY?
  {
    if InLevel(k, m) && (RuleOf(m).BINARY? || RuleOf(m).REVERSE?) {
      InfixHasHome(k, m);
    }
    if Rank(k) > 0 {
      HomeSplits(k);
    }
  }

  lemma InfixHasHome(k: Kind, m: nat)
    requires m < LEVELS && InLevel(k, m) && (RuleOf(m).BINARY? || RuleOf(m).REVERSE?)
    ensures Rank(k) > 0 && m == Home(k)
  {
    match m {
      case 0 => assert k.SEMI? || k.COMMA?;
      case 3 => assert k.ASSIGN? || k.PLUSEQ? || k.MINUSEQ? || k.MULEQ? || k.DIVEQ? || k.CATEQ?;
      case 4 => assert k.COLON? || k.QUESTION?;
      case 6 => assert k.OR?;
      case 7 => assert k.AND?;
      case 8 => assert k.EQ? || k.NEQ?;
      case 9 => assert k.LT? || k.LTE? || k.GT? || k.GTE?;
      case 10 => assert k.PLUS? || k.MINUS? || k.CAT?;
      case 11 => assert k.MUL? || k.DIV?;
      case _ => assert m == 14 && k.DOT?;
    }
  }

  lemma HomeSplits(k: Kind)
    requires Rank(k) > 0
    ensures InLevel(k, Home(k)) && if FromRight(k) then RuleOf(Home(k)).REVERSE? else RuleOf(Home(k)).BINARY?
  {
    match Rank(k) {
      case 1 => assert k.SEMI? || k.COMMA?;
      case 2 => assert k.ASSIGN? || k.PLUSEQ? || k.MINUSEQ? || k.MULEQ? || k.DIVEQ? || k.CATEQ?;
      case 3 => assert k.QUESTION? || k.COLON?;
      case 4 => assert k.OR?;
      case 5 => assert k.AND?;
      case 6 => assert k.EQ? || k.NEQ?;
      case 7 => assert k.LT? || k.LTE? || k.GT? || k.GTE?;
      case 8 => assert k.PLUS? || k.MINUS? || k.CAT?;
      case 9 => assert k.MUL? || k.DIV?;
      case _ => assert k.DOT?;
    }
  }

  lemma InfixIsRanked(k: Kind)
    ensures Infix(k, 0) <==> Rank(k) > 0
  {
    if Infix(k, 0) {
      var m :| 0 <= m < LEVELS && InLevel(k, m) && (RuleOf(m).BINARY? || RuleOf(m).REVERSE?);
      InfixHasHome(k, m);
    }
    if Rank(k) > 0 {
      HomeSplits(k);
    }
  }

  lemma HomesAreOrdered(j: Kind, k: Kind)
    requires Rank(j) > 0 && Rank(k) > 0
    ensures Home(j) < Home(k) <==> Rank(j) < Rank(k)
  {
    hide Rank;
  }

  // ----- whole rows of operators -----

  /** Atoms with infix operators between them. */
  predicate Row(ts: seq<Token>) {
    && |ts| % 2 == 1
    && forall j :: 0 <= j < |ts| ==> if j % 2 == 0 then IsAtom(ts[j].kind)
                                    else Rank(ts[j].kind) > 0 && ts[j].children == []
  }

  function InOrder(t: Tree): seq<Token> {
    match t
    case Leaf(tok) => [tok]
    case Node(_, k, x, Some(l), Some(r)) => InOrder(l) + [Token(k, x, [])] + InOrder(r)
    case _ => []
  }

  /** Every operator is looser than those below it, or as tight as the one below it on the side
      from which its rank groups. */
  predicate ByRank(t: Tree) {
    match t
    case Leaf(tok) => IsAtom(tok.kind)
    case Node(_, k, _, Some(l), Some(r)) =>
      && Rank(k) > 0 && ByRank(l) && ByRank(r)
      && (l.Node? ==> Rank(l.kind) > 0 && !SecondTakes(l.kind, k))
      && (r.Node? ==> Rank(r.kind) > 0 && SecondTakes(k, r.kind))
    case _ => false
  }

  /** Nodes note the level of their operator. */
  predicate Noted(t: Tree) {
    match t
    case Node(m, k, _, Some(l), Some(r)) => Rank(k) > 0 && m == Home(k) && Noted(l) && Noted(r)
    case _ => true
  }

  lemma RowAlternates(ts: seq<Token>)
    ensures Row(ts) <==> Alternates(ts, 0)
  {
    hide Infix, Rank;
    forall j | 0 <= j < |ts|
      ensures Infix(ts[j].kind, 0) <==> Rank(ts[j].kind) > 0
    {
      InfixIsRanked(ts[j].kind);
    }
  }

  lemma {:induction false} OrderedIsByRank(t: Tree, level: nat)
    requires Ordered(t, level) && Alternates(Flatten(t), 0)
    ensures ByRank(t) && Noted(t) && InOrder(t) == Flatten(t) && (t.Node? ==> level <= t.level)
    decreases t
  {
    hide Alternates, InLevel, Rank;
    match t
    case Node(k, kind, _, l, r) =>
      InfixNode(t, level);
      FlattenNode(t);
      HomeIs(kind, k);
      OrderedIsByRank(l.value, if RuleOf(k).REVERSE? then k + 1 else k);
      OrderedIsByRank(r.value, if RuleOf(k).BINARY? then k + 1 else k);
      if l.value.Node? { HomesAreOrdered(kind, l.value.kind); HomesAreOrdered(l.value.kind, kind); }
      if r.value.Node? { HomesAreOrdered(kind, r.value.kind); HomesAreOrdered(r.value.kind, kind); }
    case _ => AtomOnly(t);
  }

  lemma {:induction false} ByRankIsOrdered(t: Tree, level: nat)
    requires ByRank(t) && Noted(t) && (t.Node? ==> level <= t.level)
    ensures Ordered(t, level) && InOrder(t) == Flatten(t) && Row(InOrder(t))
    decreases t
  {
    hide InLevel, Rank, Row;
    match t
    case Node(k, kind, x, l, r) =>
      HomeIs(kind, k);
      if l.value.Node? { HomesAreOrdered(kind, l.value.kind); HomesAreOrdered(l.value.kind, kind); }
      if r.value.Node? { HomesAreOrdered(kind, r.value.kind); HomesAreOrdered(r.value.kind, kind); }
      ByRankIsOrdered(l.value, if RuleOf(k).REVERSE? then k + 1 else k);
      ByRankIsOrdered(r.value, if RuleOf(k).BINARY? then k + 1 else k);
      FlattenNode(t);
      RowsJoin(InOrder(l.value), Token(kind, x, []), InOrder(r.value));
    case Leaf(tok) => RowOfOne(tok);
  }

  lemma RowOfOne(tok: Token)
    requires IsAtom(tok.kind)
    ensures Row([tok]) && !IsOpenBrace(tok.kind) && !IsBlockoid(tok.kind)
  {
  }

  lemma RowsJoin(a: seq<Token>, op: Token, b: seq<Token>)
    requires Row(a) && Row(b) && Rank(op.kind) > 0 && op.children == []
    ensures Row(a + [op] + b)
  {
    hide Rank;
    var f := a + [op] + b;
    forall j | 0 <= j < |f|
      ensures if j % 2 == 0 then IsAtom(f[j].kind) else Rank(f[j].kind) > 0 && f[j].children == []
    {
      if j < |a| {
        assert f[j] == a[j];
      } else if j > |a| {
        assert f[j] == b[j - |a| - 1];
      }
    }
  }

  /** A row of any length has one parse: the tree of its tokens in which every operator has, on both
      sides, operators that bind tighter, or as tight where they group to that side. */
  lemma ParsesByRank(ts: seq<Token>)
    requires Row(ts)
    ensures Parse(ts, 0).Some?
    ensures var t := Parse(ts, 0).value; ByRank(t) && Noted(t) && InOrder(t) == ts
    ensures forall t :: Noted(t) ==> (Parse(ts, 0) == Some(t) <==> ByRank(t) && InOrder(t) == ts)
  {
    hide Parse, Alternates, Row, ByRank, Ordered, Flatten;
    RowAlternates(ts);
    AlternatingParses(ts, 0);
    ParseOrders(ts, 0);
    OrderedIsByRank(Parse(ts, 0).value, 0);
    forall t | Noted(t) && ByRank(t) && InOrder(t) == ts
      ensures Parse(ts, 0) == Some(t)
    {
      ByRankIsOrdered(t, 0);
      OrderedIsParse(t, 0);
    }
  }

  // ----- two operators -----

  /** An infix operator applied to two trees. */
  predicate Applied(t: Tree, op: Token, l: Tree, r: Tree) {
    t.Node? && t.kind == op.kind && t.text == op.text && t.left == Some(l) && t.right == Some(r)
  }

  /** `a op b op c` */
  lemma TwoOperators(a: Token, first: Token, b: Token, second: Token, c: Token)
    requires IsAtom(a.kind) && IsAtom(b.kind) && IsAtom(c.kind)
    requires Rank(first.kind) > 0 && Rank(second.kind) > 0 && first.children == second.children == []
    ensures var r := Parse([a, first, b, second, c], 0);
      && r.Some? && r.value.Node? && r.value.left.Some? && r.value.right.Some?
      && if SecondTakes(first.kind, second.kind) then
           && Applied(r.value, first, Leaf(a), r.value.right.value)
           && Applied(r.value.right.value, second, Leaf(b), Leaf(c))
         else
           && Applied(r.value, second, r.value.left.value, Leaf(c))
           && Applied(r.value.left.value, first, Leaf(a), Leaf(b))
  {
    hide Parse, Rank;
    var ts := [a, first, b, second, c];
    var inner, outer;
    if SecondTakes(first.kind, second.kind) {
      inner := Node(Home(second.kind), second.kind, second.text, Some(Leaf(b)), Some(Leaf(c)));
      outer := Node(Home(first.kind), first.kind, first.text, Some(Leaf(a)), Some(inner));
      assert InOrder(inner) == [b, second, c];
    } else {
      inner := Node(Home(first.kind), first.kind, first.text, Some(Leaf(a)), Some(Leaf(b)));
      outer := Node(Home(second.kind), second.kind, second.text, Some(inner), Some(Leaf(c)));
      assert InOrder(inner) == [a, first, b];
    }
    assert InOrder(outer) == ts;
    assert Row(ts);
    ParsesByRank(ts);
    assert ByRank(Leaf(a)) && ByRank(Leaf(b)) && ByRank(Leaf(c));
    assert ByRank(inner) && Noted(inner) && Noted(Leaf(a)) && Noted(Leaf(c));
    assert ByRank(outer) && Noted(outer);
  }

  // ----- prefix operators, calls and the ellipsis -----

  predicate IsSign(k: Kind) { k.MINUS? || k.NEG? || k.NOT? }

  predicate IsLeave(k: Kind) { k.RETURN? || k.BREAK? || k.CONTINUE? }

  predicate IsPrefix(k: Kind) { IsSign(k) || IsLeave(k) || k.VAR? }

  predicate IsCall(k: Kind) { k.LPAR? || k.LBRA? }

  /** A prefix operator takes the operand before the infix operator behind it can: a sign before all but the
      dot, `var` before conditionals and looser ones, and `return`, `break` and `continue` before separators. */
  predicate PrefixTakes(p: Kind, o: Kind) {
    if IsSign(p) then !o.DOT? else if p.VAR? then Rank(o) <= 3 else Rank(o) == 1
  }

  function PrefixHome(p: Kind): nat { if IsSign(p) then 12 else if p.VAR? then 5 else 2 }

  lemma KindsOfLevels(k: Kind, m: nat)
    requires m < LEVELS && InLevel(k, m)
    ensures || (Rank(k) > 0 && m == Home(k)) || (IsPrefix(k) && m == PrefixHome(k)) || (IsCall(k) && m == 13)
            || (k.ELLIPSIS? && m == 1)
  {
    if RuleOf(m).BINARY? || RuleOf(m).REVERSE? {
      InfixHasHome(k, m);
    } else if m == 12 {
      assert IsSign(k);
    }
  }

  lemma PrefixSplits(p: Kind)
    requires IsPrefix(p)
    ensures InLevel(p, PrefixHome(p)) && RuleOf(PrefixHome(p)).PREFIX? && !OneSided(p)
  {
  }

  lemma PrefixOrder(p: Kind, o: Kind)
    requires IsPrefix(p) && Rank(o) > 0
    ensures Home(o) != PrefixHome(p) && (PrefixTakes(p, o) <==> Home(o) < PrefixHome(p))
  {
    DotIsTightest(o);
    hide Rank;
  }

  lemma DotIsTightest(o: Kind)
    ensures o.DOT? <==> Rank(o) == 10
  {
  }

  /** A place where a level can split a list. */
  predicate Usable(f: seq<Token>, m: nat, j: nat) {
    && j < |f| && m < LEVELS && InLevel(f[j].kind, m)
    && match RuleOf(m) case PREFIX => j == 0 case SUFFIX => j == |f| - 1 case _ => 0 < j < |f| - 1
  }

  lemma SplitsWhereUsable(f: seq<Token>, m: nat)
    requires |f| >= 2 && m < LEVELS
    ensures Split(f, m).Some? ==> Usable(f, m, Split(f, m).value)
    ensures forall j :: Usable(f, m, j) ==> Split(f, m).Some?
  {
    if Split(f, m).Some? {
      SplitPlace(f, m, Split(f, m).value);
    }
    hide InLevel;
  }

  /** The tightest level at which a list is split is the first that has a place for it. */
  lemma SplitsFirstAt(f: seq<Token>, level: nat, k: nat, i: nat)
    requires Closed(f) && level <= k < LEVELS && Usable(f, k, i) && (forall j :: Usable(f, k, j) ==> j == i)
    requires forall m, j :: level <= m < k ==> !Usable(f, m, j)
    requires k == DOT_LEVEL ==> !IsCall(f[|f| - 1].kind)
    ensures Split(f, k) == Some(i) && Parse(f, level) == ParseSplit(f, k, i)
  {
    hide Usable, Split, Parse, ParseSplit;
    forall m | level <= m <= k
      ensures Split(f, m) == (if m == k then Some(i) else None) && StepBack(f, m) == m
    {
      SplitsWhereUsable(f, m);
    }
    Descend(f, level, k);
    PadOfClosed(f);
    ParseStep(f, k);
  }

  /** A list that no level from here on splits is no expression. */
  lemma {:induction false} SplitsNowhere(f: seq<Token>, level: nat)
    requires Closed(f) && |f| >= 2 && !IsCall(f[|f| - 1].kind)
    requires forall m, j :: level <= m < LEVELS ==> !Usable(f, m, j)
    ensures Parse(f, level).None?
    decreases if level < LEVELS then LEVELS - level else 0
  {
    hide Usable, Split, Parse, ParseSplit;
    ParseStep(f, level);
    PadOfClosed(f);
    if level < LEVELS {
      SplitsWhereUsable(f, level);
      SplitsNowhere(f, level + 1);
    }
  }

  lemma SplitsInfix(f: seq<Token>, k: nat, i: nat, l: Option<Tree>, r: Option<Tree>)
    requires |f| >= 2 && k < LEVELS && Split(f, k) == Some(i) && 0 < i < |f| - 1
    requires RuleOf(k).BINARY? || RuleOf(k).REVERSE?
    requires Parse(f[..i], LeftLevel(k)) == l && Parse(f[i + 1..], RightLevel(k)) == r
    ensures ParseSplit(f, k, i)
            == if l.Some? && r.Some? then Some(Node(k, f[i].kind, f[i].text, l, r)) else None
  {
    hide Parse, Split;
  }

  lemma SplitsPrefix(f: seq<Token>, k: nat, r: Option<Tree>)
    requires |f| >= 2 && k < LEVELS && Split(f, k) == Some(0) && RuleOf(k).PREFIX? && f[0].children == []
    requires Parse(f[1..], k) == r
    ensures ParseSplit(f, k, 0) == if r.Some? then Some(Node(k, f[0].kind, f[0].text, None, r)) else None
  {
    hide Parse, Split;
    assert f[0 + 1..] == f[1..];
  }

  lemma SplitsSuffix(f: seq<Token>, k: nat, l: Option<Tree>, x: Option<Tree>)
    requires |f| >= 2 && k < LEVELS && Split(f, k) == Some(|f| - 1) && RuleOf(k).SUFFIX?
    requires Parse(f[..|f| - 1], k) == l && Inside(f[|f| - 1], x)
    ensures ParseSplit(f, k, |f| - 1)
            == if l.Some? then Some(Node(k, f[|f| - 1].kind, f[|f| - 1].text, l, x)) else None
  {
    hide Parse, Split;
  }

  /** The tree of what stands inside a call, a subscript or an ellipsis, if anything does. */
  predicate Inside(t: Token, x: Option<Tree>) {
    if t.children == [] then x == None else x.Some? && Parse(t.children, 0) == x
  }

  /** An infix operator between two atoms, parsed at a level. */
  lemma InfixPair(a: Token, o: Token, b: Token, level: nat)
    requires IsAtom(a.kind) && IsAtom(b.kind) && Rank(o.kind) > 0 && o.children == []
    ensures var r := Parse([a, o, b], level);
      if level <= Home(o.kind) then
        r == Some(Node(Home(o.kind), o.kind, o.text, Some(Leaf(a)), Some(Leaf(b))))
      else r.None?
  {
    hide InLevel, Rank;
    var f := [a, o, b];
    EndsOfAtoms(a, b);
    var h := Home(o.kind);
    forall m: nat, j: nat | m < LEVELS && Usable(f, m, j)
      ensures j == 1 && m == h
    {
      UsableOfAtoms(f, m, j);
      HomeIs(o.kind, m);
    }
    HomeIs(o.kind, h);
    if level <= h {
      assert Usable(f, h, 1);
      SplitsFirstAt(f, level, h, 1);
      ParseAtom(a, LeftLevel(h));
      ParseAtom(b, RightLevel(h));
      assert f[..1] == [a] && f[2..] == [b];
      SplitsInfix(f, h, 1, Some(Leaf(a)), Some(Leaf(b)));
    } else {
      SplitsNowhere(f, level);
    }
  }

  lemma ParseAtom(a: Token, level: nat)
    requires IsAtom(a.kind)
    ensures Parse([a], level) == Some(Leaf(a))
  {
    ParseOne(a, level);
  }

  lemma EndsOfAtoms(a: Token, b: Token)
    requires IsAtom(a.kind) && IsAtom(b.kind)
    ensures !OneSided(a.kind) && !OneSided(b.kind) && !IsCall(a.kind) && !IsCall(b.kind)
    ensures !IsOpenBrace(a.kind) && !IsBlockoid(a.kind) && !IsOpenBrace(b.kind) && !IsBlockoid(b.kind)
  {
  }

  lemma UsableOfAtoms(f: seq<Token>, m: nat, j: nat)
    requires m < LEVELS && Usable(f, m, j)
    ensures j < |f| && !IsAtom(f[j].kind)
  {
    KindsOfLevels(f[j].kind, m);
  }

  /** A prefix operator in front of an atom, parsed at a level. */
  lemma PrefixPair(p: Token, b: Token, level: nat)
    requires IsPrefix(p.kind) && IsAtom(b.kind) && p.children == []
    ensures var r := Parse([p, b], level);
      if level <= PrefixHome(p.kind) then
        r == Some(Node(PrefixHome(p.kind), p.kind, p.text, None, Some(Leaf(b))))
      else r.None?
  {
    hide InLevel, Rank;
    var f := [p, b];
    var h := PrefixHome(p.kind);
    EndsOfAtoms(b, b);
    PrefixSplits(p.kind);
    forall m: nat, j: nat | m < LEVELS && Usable(f, m, j)
      ensures j == 0 && m == h
    {
      UsableOfAtoms(f, m, j);
      UsableAtEnd(f, m, j);
      PrefixOnly(p.kind, m);
    }
    if level <= h {
      assert Usable(f, h, 0);
      SplitsFirstAt(f, level, h, 0);
      ParseAtom(b, h);
      assert f[1..] == [b];
      SplitsPrefix(f, h, Some(Leaf(b)));
    } else {
      SplitsNowhere(f, level);
    }
  }

  lemma UsableAtEnd(f: seq<Token>, m: nat, j: nat)
    requires m < LEVELS && Usable(f, m, j) && (j == 0 || j == |f| - 1) && |f| >= 2
    ensures if j == 0 then RuleOf(m).PREFIX? else RuleOf(m).SUFFIX?
  {
  }

  lemma PrefixOnly(p: Kind, m: nat)
    requires m < LEVELS && IsPrefix(p) && InLevel(p, m) && RuleOf(m).PREFIX?
    ensures m == PrefixHome(p)
  {
    KindsOfLevels(p, m);
    if Rank(p) > 0 { HomeSplits(p); }
  }

  lemma SuffixOnly(k: Kind, m: nat)
    requires m < LEVELS && InLevel(k, m) && RuleOf(m).SUFFIX?
    ensures (IsCall(k) && m == 13) || (k.ELLIPSIS? && m == 1)
  {
    KindsOfLevels(k, m);
    if Rank(k) > 0 { HomeSplits(k); }
    if IsPrefix(k) { PrefixSplits(k); }
  }

  /** `p a op b`: either the prefix operator is applied to `a` alone, or to all that follows. */
  lemma PrefixBefore(p: Token, a: Token, o: Token, b: Token)
    requires IsPrefix(p.kind) && p.children == [] && Rank(o.kind) > 0 && o.children == []
    requires IsAtom(a.kind) && IsAtom(b.kind)
    ensures var r := Parse([p, a, o, b], 0);
      && r.Some? && r.value.Node? && r.value.right.Some?
      && if PrefixTakes(p.kind, o.kind) then
           && r.value.left.Some? && Applied(r.value, o, r.value.left.value, Leaf(b))
           && Prefixed(r.value.left.value, p, Leaf(a))
         else
           Prefixed(r.value, p, r.value.right.value) && Applied(r.value.right.value, o, Leaf(a), Leaf(b))
  {
    hide InLevel, Rank, PrefixTakes, PrefixHome, Home;
    var f := [p, a, o, b];
    var h, q := Home(o.kind), PrefixHome(p.kind);
    EndsOfAtoms(a, b);
    PrefixSplits(p.kind);
    PrefixOrder(p.kind, o.kind);
    HomeIs(o.kind, h);
    forall m: nat, j: nat | m < LEVELS && Usable(f, m, j)
      ensures (j == 0 && m == q) || (j == 2 && m == h)
    {
      UsableOfAtoms(f, m, j);
      if j == 0 {
        UsableAtEnd(f, m, j);
        PrefixOnly(p.kind, m);
      } else {
        UsableInside(f, m, j);
        HomeIs(o.kind, m);
      }
    }
    if h < q {
      assert Usable(f, h, 2);
      SplitsFirstAt(f, 0, h, 2);
      PrefixPair(p, a, LeftLevel(h));
      ParseAtom(b, RightLevel(h));
      assert f[..2] == [p, a] && f[3..] == [b];
      SplitsInfix(f, h, 2, Parse([p, a], LeftLevel(h)), Some(Leaf(b)));
    } else {
      assert Usable(f, q, 0);
      SplitsFirstAt(f, 0, q, 0);
      InfixPair(a, o, b, q);
      assert f[1..] == [a, o, b];
      SplitsPrefix(f, q, Parse([a, o, b], q));
    }
  }

  lemma UsableInside(f: seq<Token>, m: nat, j: nat)
    requires m < LEVELS && Usable(f, m, j) && 0 < j < |f| - 1
    ensures RuleOf(m).BINARY? || RuleOf(m).REVERSE?
  {
  }

  /** A prefix operator applied to a tree. */
  predicate Prefixed(t: Tree, op: Token, r: Tree) {
    t.Node? && t.kind == op.kind && t.text == op.text && t.left == None && t.right == Some(r)
  }

  /** `a op p b`: the operator takes the prefixed operand when the prefix operator is the tighter one,
      and otherwise the list is no expression. A minus sign here is a `NEG` already. */
  lemma PrefixBehind(a: Token, o: Token, p: Token, b: Token)
    requires IsPrefix(p.kind) && !p.kind.MINUS? && p.children == [] && Rank(o.kind) > 0 && o.children == []
    requires IsAtom(a.kind) && IsAtom(b.kind)
    ensures var r := Parse([a, o, p, b], 0);
      && (r.Some? <==> PrefixTakes(p.kind, o.kind))
      && (r.Some? ==> && r.value.Node? && r.value.right.Some? && Applied(r.value, o, Leaf(a), r.value.right.value)
                      && Prefixed(r.value.right.value, p, Leaf(b)))
  {
    hide InLevel, Rank, PrefixTakes, PrefixHome, Home;
    var f := [a, o, p, b];
    var h := Home(o.kind);
    EndsOfAtoms(a, b);
    PrefixOrder(p.kind, o.kind);
    HomeIs(o.kind, h);
    forall m: nat, j: nat | m < LEVELS && Usable(f, m, j)
      ensures j == 1 && m == h
    {
      UsableOfAtoms(f, m, j);
      UsableInside(f, m, j);
      if j == 2 {
        PrefixIsNotInfix(p.kind);
        HomeIs(p.kind, m);
      } else {
        HomeIs(o.kind, m);
      }
    }
    assert Usable(f, h, 1);
    SplitsFirstAt(f, 0, h, 1);
    ParseAtom(a, LeftLevel(h));
    PrefixPair(p, b, RightLevel(h));
    assert f[..1] == [a] && f[2..] == [p, b];
    SplitsInfix(f, h, 1, Some(Leaf(a)), Parse([p, b], RightLevel(h)));
  }

  lemma PrefixIsNotInfix(p: Kind)
    requires IsPrefix(p) && !p.MINUS?
    ensures Rank(p) == 0
  {
  }

  /** A call or subscript, or an ellipsis, applied to a tree. */
  predicate Suffixed(t: Tree, op: Token, l: Tree, x: Option<Tree>) {
    t.Node? && t.kind == op.kind && t.text == op.text && t.left == Some(l) && t.right == x
  }

  /** A call or subscript behind an atom, at any level of the table. */
  lemma CallPair(a: Token, c: Token, x: Option<Tree>, level: nat)
    requires IsAtom(a.kind) && IsCall(c.kind) && Inside(c, x) && level < LEVELS
    ensures Parse([a, c], level) == Some(Node(13, c.kind, c.text, Some(Leaf(a)), x))
  {
    hide InLevel, Rank, Inside;
    var f := [a, c];
    EndsOfAtoms(a, a);
    CallsOfLevels(c.kind);
    forall m: nat, j: nat | m < LEVELS && Usable(f, m, j)
      ensures j == 1 && m == 13
    {
      UsableOfAtoms(f, m, j);
      UsableAtEnd(f, m, j);
      SuffixOnly(c.kind, m);
    }
    assert Usable(f, 13, 1);
    CallSplits(f, level);
    ParseAtom(a, 13);
    assert f[..1] == [a];
    SplitsSuffix(f, 13, Some(Leaf(a)), x);
  }

  lemma CallsOfLevels(k: Kind)
    requires IsCall(k)
    ensures InLevel(k, 13) && RuleOf(13).SUFFIX? && !OneSided(k) && !k.ELLIPSIS? && Rank(k) == 0
  {
  }

  lemma CallAtEnd(f: seq<Token>)
    requires |f| >= 2 && IsCall(f[|f| - 1].kind)
    ensures Split(f, 13) == Some(|f| - 1)
  {
    CallsOfLevels(f[|f| - 1].kind);
    hide InLevel;
  }

  /** A list that ends in a call, and that no looser level splits, is split at the call. */
  lemma CallSplits(f: seq<Token>, level: nat)
    requires Closed(f) && level < LEVELS && IsCall(f[|f| - 1].kind)
    requires forall m: nat, j :: level <= m < 13 ==> !Usable(f, m, j)
    ensures Split(f, 13) == Some(|f| - 1) && Parse(f, level) == ParseSplit(f, 13, |f| - 1)
  {
    hide Usable, Parse, ParseSplit, Split;
    CallAtEnd(f);
    CallStep(f, if level == 14 then 14 else 13);
    if level < 13 {
      forall m | level <= m < 13
        ensures Split(f, m) == None && StepBack(f, m) == m
      {
        SplitsWhereUsable(f, m);
      }
      Descend(f, level, 13);
    }
  }

  lemma CallStep(f: seq<Token>, level: nat)
    requires Closed(f) && IsCall(f[|f| - 1].kind) && (level == 13 || level == 14)
    ensures Split(f, 13) == Some(|f| - 1) && Parse(f, level) == ParseSplit(f, 13, |f| - 1)
  {
    hide Parse, ParseSplit, Split;
    CallAtEnd(f);
    PadOfClosed(f);
    ParseStep(f, level);
  }

  /** `a op f(x)`: a call is made before its value is an operand, unless the operator is a dot, which
      finds the function first. */
  lemma CallBehind(a: Token, o: Token, b: Token, c: Token, x: Option<Tree>)
    requires IsAtom(a.kind) && IsAtom(b.kind) && Rank(o.kind) > 0 && o.children == [] && IsCall(c.kind) && Inside(c, x)
    ensures var r := Parse([a, o, b, c], 0);
      && r.Some? && r.value.Node? && r.value.left.Some?
      && if o.kind.DOT? then
           Suffixed(r.value, c, r.value.left.value, x) && Applied(r.value.left.value, o, Leaf(a), Leaf(b))
         else
           && r.value.right.Some? && Applied(r.value, o, Leaf(a), r.value.right.value)
           && Suffixed(r.value.right.value, c, Leaf(b), x)
  {
    hide Parse;
    if o.kind.DOT? {
      CallOfMember(a, o, b, c, x);
    } else {
      CallAsOperand(a, o, b, c, x);
    }
  }

  lemma CallOfMember(a: Token, o: Token, b: Token, c: Token, x: Option<Tree>)
    requires IsAtom(a.kind) && IsAtom(b.kind) && o.kind.DOT? && o.children == [] && IsCall(c.kind) && Inside(c, x)
    ensures Parse([a, o, b, c], 0)
            == Some(Node(13, c.kind, c.text, Some(Node(14, DOT, o.text, Some(Leaf(a)), Some(Leaf(b)))), x))
  {
    hide InLevel, Inside, Usable;
    var f := [a, o, b, c];
    EndsOfAtoms(a, b);
    CallsOfLevels(c.kind);
    PlacesWithCall(a, o, b, c);
    CallSplits(f, 0);
    InfixPair(a, o, b, 13);
    assert f[..3] == [a, o, b];
    SplitsSuffix(f, 13, Parse([a, o, b], 13), x);
  }

  lemma CallAsOperand(a: Token, o: Token, b: Token, c: Token, x: Option<Tree>)
    requires IsAtom(a.kind) && IsAtom(b.kind) && Rank(o.kind) > 0 && !o.kind.DOT? && o.children == []
    requires IsCall(c.kind) && Inside(c, x)
    ensures Parse([a, o, b, c], 0)
            == Some(Node(Home(o.kind), o.kind, o.text, Some(Leaf(a)), Some(Node(13, c.kind, c.text, Some(Leaf(b)), x))))
  {
    hide InLevel, Rank, Inside, Home, Usable;
    var f := [a, o, b, c];
    var h := Home(o.kind);
    EndsOfAtoms(a, b);
    CallsOfLevels(c.kind);
    HomeIs(o.kind, h);
    DotHome(o.kind);
    PlacesWithCall(a, o, b, c);
    SplitsFirstAt(f, 0, h, 1);
    ParseAtom(a, LeftLevel(h));
    CallPair(b, c, x, RightLevel(h));
    assert f[..1] == [a] && f[2..] == [b, c];
    SplitsInfix(f, h, 1, Some(Leaf(a)), Parse([b, c], RightLevel(h)));
  }

  lemma PlacesWithCall(a: Token, o: Token, b: Token, c: Token)
    requires IsAtom(a.kind) && IsAtom(b.kind) && Rank(o.kind) > 0 && IsCall(c.kind)
    ensures Usable([a, o, b, c], Home(o.kind), 1)
    ensures forall m: nat, j: nat :: Usable([a, o, b, c], m, j) ==> (j == 1 && m == Home(o.kind)) || (j == 3 && m == 13)
  {
    hide InLevel, Rank, Home;
    var f := [a, o, b, c];
    CallsOfLevels(c.kind);
    HomeIs(o.kind, Home(o.kind));
    forall m: nat, j: nat | m < LEVELS && Usable(f, m, j)
      ensures (j == 1 && m == Home(o.kind)) || (j == 3 && m == 13)
    {
      UsableOfAtoms(f, m, j);
      if j == 3 {
        UsableAtEnd(f, m, j);
        SuffixOnly(c.kind, m);
      } else {
        UsableInside(f, m, j);
        HomeIs(o.kind, m);
      }
    }
  }

  lemma DotHome(o: Kind)
    requires Rank(o) > 0
    ensures if o.DOT? then Home(o) == 14 else Home(o) <= 11
  {
    DotIsTightest(o);
    hide Rank;
  }

  /** `f(x) op b`: the call is the left operand of any operator, a dot too. */
  lemma CallBefore(a: Token, c: Token, x: Option<Tree>, o: Token, b: Token)
    requires IsAtom(a.kind) && IsAtom(b.kind) && Rank(o.kind) > 0 && o.children == [] && IsCall(c.kind) && Inside(c, x)
    ensures var r := Parse([a, c, o, b], 0);
      && r.Some? && r.value.Node? && r.value.left.Some?
      && Applied(r.value, o, r.value.left.value, Leaf(b)) && Suffixed(r.value.left.value, c, Leaf(a), x)
  {
    hide InLevel, Rank, Inside, Home;
    var f := [a, c, o, b];
    var h := Home(o.kind);
    EndsOfAtoms(a, b);
    CallsOfLevels(c.kind);
    HomeIs(o.kind, h);
    DotHome(o.kind);
    forall m: nat, j: nat | m < LEVELS && Usable(f, m, j)
      ensures j == 2 && m == h
    {
      UsableOfAtoms(f, m, j);
      UsableInside(f, m, j);
      HomeIs(f[j].kind, m);
    }
    assert Usable(f, h, 2);
    SplitsFirstAt(f, 0, h, 2);
    CallPair(a, c, x, LeftLevel(h));
    ParseAtom(b, RightLevel(h));
    assert f[..2] == [a, c] && f[3..] == [b];
    SplitsInfix(f, h, 2, Parse([a, c], LeftLevel(h)), Some(Leaf(b)));
  }

  /** `p f(x)`: a prefix operator is applied to what the call gives. */
  lemma CallUnderPrefix(p: Token, a: Token, c: Token, x: Option<Tree>)
    requires IsPrefix(p.kind) && p.children == [] && IsAtom(a.kind) && IsCall(c.kind) && Inside(c, x)
    ensures var r := Parse([p, a, c], 0);
      && r.Some? && r.value.Node? && r.value.right.Some?
      && Prefixed(r.value, p, r.value.right.value) && Suffixed(r.value.right.value, c, Leaf(a), x)
  {
    hide InLevel, Rank, Inside;
    var f := [p, a, c];
    var q := PrefixHome(p.kind);
    EndsOfAtoms(a, a);
    CallsOfLevels(c.kind);
    PrefixSplits(p.kind);
    forall m: nat, j: nat | m < LEVELS && Usable(f, m, j)
      ensures (j == 0 && m == q) || (j == 2 && m == 13)
    {
      UsableOfAtoms(f, m, j);
      UsableAtEnd(f, m, j);
      if j == 0 {
        PrefixOnly(p.kind, m);
      } else {
        SuffixOnly(c.kind, m);
      }
    }
    assert Usable(f, q, 0);
    SplitsFirstAt(f, 0, q, 0);
    CallPair(a, c, x, q);
    assert f[1..] == [a, c];
    SplitsPrefix(f, q, Parse([a, c], q));
  }

  /** `f(x)(y)`: calls and subscripts are applied from left to right. */
  lemma CallOfCall(a: Token, c: Token, x: Option<Tree>, d: Token, y: Option<Tree>)
    requires IsAtom(a.kind) && IsCall(c.kind) && Inside(c, x) && IsCall(d.kind) && Inside(d, y)
    ensures var r := Parse([a, c, d], 0);
      && r.Some? && r.value.Node? && r.value.left.Some?
      && Suffixed(r.value, d, r.value.left.value, y) && Suffixed(r.value.left.value, c, Leaf(a), x)
  {
    hide InLevel, Rank, Inside;
    var f := [a, c, d];
    EndsOfAtoms(a, a);
    CallsOfLevels(c.kind);
    CallsOfLevels(d.kind);
    forall m: nat, j: nat | m < LEVELS && Usable(f, m, j)
      ensures j == 2 && m == 13
    {
      UsableOfAtoms(f, m, j);
      if j == 1 {
        UsableInside(f, m, j);
        HomeIs(c.kind, m);
      } else {
        UsableAtEnd(f, m, j);
        SuffixOnly(d.kind, m);
      }
    }
    CallSplits(f, 0);
    CallPair(a, c, x, 13);
    assert f[..2] == [a, c];
    SplitsSuffix(f, 13, Parse([a, c], 13), y);
  }

  lemma EllipsisOfLevels(k: Kind)
    requires k.ELLIPSIS?
    ensures InLevel(k, 1) && RuleOf(1).SUFFIX? && !OneSided(k) && !IsCall(k) && Rank(k) == 0
  {
  }

  /** `a op b...`: the ellipsis is for all that stands before it up to a separator. */
  lemma EllipsisBehind(a: Token, o: Token, b: Token, e: Token)
    requires IsAtom(a.kind) && IsAtom(b.kind) && Rank(o.kind) > 0 && o.children == []
    requires e.kind.ELLIPSIS? && e.children == []
    ensures var r := Parse([a, o, b, e], 0);
      && r.Some? && r.value.Node? && r.value.left.Some?
      && if o.kind.SEMI? || o.kind.COMMA? then
           && r.value.right.Some? && Applied(r.value, o, Leaf(a), r.value.right.value)
           && Suffixed(r.value.right.value, e, Leaf(b), None)
         else
           Suffixed(r.value, e, r.value.left.value, None) && Applied(r.value.left.value, o, Leaf(a), Leaf(b))
  {
    hide InLevel, Rank, Home;
    var f := [a, o, b, e];
    var h := Home(o.kind);
    EndsOfAtoms(a, b);
    EllipsisOfLevels(e.kind);
    HomeIs(o.kind, h);
    SeparatorHome(o.kind);
    forall m: nat, j: nat | m < LEVELS && Usable(f, m, j)
      ensures (j == 1 && m == h) || (j == 3 && m == 1)
    {
      UsableOfAtoms(f, m, j);
      if j == 3 {
        UsableAtEnd(f, m, j);
        SuffixOnly(e.kind, m);
      } else {
        UsableInside(f, m, j);
        HomeIs(o.kind, m);
      }
    }
    if h == 0 {
      assert Usable(f, 0, 1);
      SplitsFirstAt(f, 0, 0, 1);
      ParseAtom(a, LeftLevel(0));
      EllipsisPair(b, e, RightLevel(0));
      assert f[..1] == [a] && f[2..] == [b, e];
      SplitsInfix(f, 0, 1, Some(Leaf(a)), Parse([b, e], RightLevel(0)));
    } else {
      assert Usable(f, 1, 3);
      SplitsFirstAt(f, 0, 1, 3);
      InfixPair(a, o, b, 1);
      assert f[..3] == [a, o, b];
      SplitsSuffix(f, 1, Parse([a, o, b], 1), None);
    }
  }

  lemma SeparatorHome(o: Kind)
    requires Rank(o) > 0
    ensures if o.SEMI? || o.COMMA? then Home(o) == 0 && RuleOf(0).REVERSE? else Home(o) >= 3
  {
    assert o.SEMI? || o.COMMA? <==> Rank(o) == 1;
    hide Rank;
  }

  lemma EllipsisPair(b: Token, e: Token, level: nat)
    requires IsAtom(b.kind) && e.kind.ELLIPSIS? && e.children == [] && level <= 1
    ensures Parse([b, e], level) == Some(Node(1, e.kind, e.text, Some(Leaf(b)), None))
  {
    hide InLevel, Rank;
    var f := [b, e];
    EndsOfAtoms(b, b);
    EllipsisOfLevels(e.kind);
    forall m: nat, j: nat | m < LEVELS && Usable(f, m, j)
      ensures j == 1 && m == 1
    {
      UsableOfAtoms(f, m, j);
      UsableAtEnd(f, m, j);
      SuffixOnly(e.kind, m);
    }
    assert Usable(f, 1, 1);
    SplitsFirstAt(f, level, 1, 1);
    ParseAtom(b, 1);
    assert f[..1] == [b];
    SplitsSuffix(f, 1, Some(Leaf(b)), None);
  }

  // ----- a missing operand -----

  predicate IsSeparator(k: Kind) { k.SEMI? || k.COMMA? || k.COLON? }

  /** A list parses as it does with the empty tokens that are put at its ends. */
  lemma ParsesPadded(ts: seq<Token>)
    requires |ts| >= 2
    ensures Closed(Pad(ts)) && Parse(ts, 0) == Parse(Pad(ts), 0)
  {
    hide Parse, ParseSplit, Split, Pad, StepBack, Weight, Admits;
    PadOfClosed(Pad(ts));
    ParseStep(ts, 0);
    ParseStep(Pad(ts), 0);
  }

  lemma ParseEmpty(level: nat)
    ensures Parse([Token(EMPTY, 0, [])], level) == Some(Leaf(Token(EMPTY, 0, [])))
  {
    ParseOne(Token(EMPTY, 0, []), level);
  }

  /** The places in `a op b` when the operands are atoms or empty. */
  lemma PlacesBetween(a: Token, o: Token, b: Token)
    requires (IsAtom(a.kind) || a.kind.EMPTY?) && (IsAtom(b.kind) || b.kind.EMPTY?) && Rank(o.kind) > 0
    ensures Usable([a, o, b], Home(o.kind), 1)
    ensures forall m: nat, j: nat :: Usable([a, o, b], m, j) ==> j == 1 && m == Home(o.kind)
  {
    hide InLevel, Rank, Home;
    var f := [a, o, b];
    HomeIs(o.kind, Home(o.kind));
    forall m: nat, j: nat | m < LEVELS && Usable(f, m, j)
      ensures j == 1 && m == Home(o.kind)
    {
      UsableOfAtoms(f, m, j);
      EmptyHasNoLevel(m);
      HomeIs(o.kind, m);
    }
  }

  lemma BetweenParses(a: Token, o: Token, b: Token)
    requires a == Token(EMPTY, 0, []) || IsAtom(a.kind)
    requires b == Token(EMPTY, 0, []) || IsAtom(b.kind)
    requires Rank(o.kind) > 0 && o.children == []
    ensures Parse([a, o, b], 0) == Some(Node(Home(o.kind), o.kind, o.text, Some(Leaf(a)), Some(Leaf(b))))
  {
    hide InLevel, Rank, Home, Usable, Parse;
    var f, h := [a, o, b], Home(o.kind);
    HomeIs(o.kind, h);
    PlacesBetween(a, o, b);
    SplitsFirstAt(f, 0, h, 1);
    OperandParses(a, LeftLevel(h));
    OperandParses(b, RightLevel(h));
    assert f[..1] == [a] && f[2..] == [b];
    SplitsInfix(f, h, 1, Some(Leaf(a)), Some(Leaf(b)));
  }

  lemma OperandParses(a: Token, level: nat)
    requires a == Token(EMPTY, 0, []) || IsAtom(a.kind)
    ensures Parse([a], level) == Some(Leaf(a))
  {
    if IsAtom(a.kind) { ParseAtom(a, level); } else { ParseEmpty(level); }
  }

  /** `a op`: a separator or a colon has an empty right operand; any other operator is an error. */
  lemma NothingBehind(a: Token, o: Token)
    requires IsAtom(a.kind) && Rank(o.kind) > 0 && o.children == []
    ensures var r := Parse([a, o], 0);
      if IsSeparator(o.kind) then r.Some? && Applied(r.value, o, Leaf(a), Leaf(Token(EMPTY, 0, []))) else r.None?
  {
    hide InLevel, Rank, Parse;
    var f := [a, o];
    EndsOfAtoms(a, a);
    if IsSeparator(o.kind) {
      ParsesPadded(f);
      assert Pad(f) == [a, o, Token(EMPTY, 0, [])];
      BetweenParses(a, o, Token(EMPTY, 0, []));
    } else {
      InfixIsNoCall(o.kind);
      forall m: nat, j: nat | m < LEVELS && Usable(f, m, j)
        ensures false
      {
        UsableOfAtoms(f, m, j);
        UsableAtEnd(f, m, j);
        SuffixOnly(o.kind, m);
      }
      SplitsNowhere(f, 0);
    }
  }

  lemma InfixIsNoCall(k: Kind)
    requires Rank(k) > 0
    ensures !IsCall(k) && !k.ELLIPSIS? && (IsPrefix(k) <==> k.MINUS?)
  {
  }

  /** `op b`: a separator or a colon has an empty left operand, a minus is a sign, and any other operator is an
      error. */
  lemma NothingBefore(o: Token, b: Token)
    requires IsAtom(b.kind) && Rank(o.kind) > 0 && o.children == []
    ensures var r := Parse([o, b], 0);
      if IsSeparator(o.kind) then r.Some? && Applied(r.value, o, Leaf(Token(EMPTY, 0, [])), Leaf(b))
      else if o.kind.MINUS? then r.Some? && Prefixed(r.value, o, Leaf(b))
      else r.None?
  {
    hide InLevel, Rank, Parse;
    var f := [o, b];
    EndsOfAtoms(b, b);
    InfixIsNoCall(o.kind);
    if IsSeparator(o.kind) {
      ParsesPadded(f);
      assert Pad(f) == [Token(EMPTY, 0, []), o, b];
      BetweenParses(Token(EMPTY, 0, []), o, b);
    } else if o.kind.MINUS? {
      PrefixPair(o, b, 0);
    } else {
      forall m: nat, j: nat | m < LEVELS && Usable(f, m, j)
        ensures false
      {
        UsableOfAtoms(f, m, j);
        UsableAtEnd(f, m, j);
        PrefixKinds(o.kind, m);
      }
      SplitsNowhere(f, 0);
    }
  }

  lemma PrefixKinds(k: Kind, m: nat)
    requires m < LEVELS && InLevel(k, m) && RuleOf(m).PREFIX?
    ensures IsPrefix(k)
  {
  }
}
