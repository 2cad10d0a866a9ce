/** The precedence parser: a recursive splitter of token lists driven by a table of levels. */
module Precedence {
  import opened Basics

  datatype Kind =
    | AND | OR | NOT | LPAR | RPAR | LBRA | RBRA | LCURL | RCURL | MUL | PLUS | MINUS | NEG
    | DIV | CAT | COLON | DOT | COMMA | SEMI | ASSIGN | LT | LTE | EQ | NEQ | GT | GTE
    | IF | ELSIF | ELSE | FOR | FOREACH | WHILE | RETURN | BREAK | CONTINUE | FUNC | SYMBOL
    | LITERAL | EMPTY | NIL | ELLIPSIS | QUESTION | VAR | PLUSEQ | MINUSEQ | MULEQ | DIVEQ | CATEQ
    | FORINDEX

  /** A token, with the list inside it when it is a brace or a block structure; `text` stands
      for its string or number. */
  datatype Token = Token(kind: Kind, text: int, children: seq<Token>)

  datatype Rule = BINARY | REVERSE | PREFIX | SUFFIX

  const LEVELS := 15
  const CALL_LEVEL := 13
  const DOT_LEVEL := 14

  function RuleOf(level: nat): Rule
    requires level < LEVELS
  {
    match level
    case 0 => REVERSE
    case 1 => SUFFIX
    case 2 => PREFIX
    case 3 => REVERSE
    case 4 => REVERSE
    case 5 => PREFIX
    case 12 => PREFIX
    case 13 => SUFFIX
    case _ => BINARY
  }

  /** Whether a kind of token belongs to a level of the table, loosest first. */
  predicate InLevel(k: Kind, level: nat) {
    match level
    case 0 => k.SEMI? || k.COMMA?
    case 1 => k.ELLIPSIS?
    case 2 => k.RETURN? || k.BREAK? || k.CONTINUE?
    case 3 => k.ASSIGN? || k.PLUSEQ? || k.MINUSEQ? || k.MULEQ? || k.DIVEQ? || k.CATEQ?
    case 4 => k.COLON? || k.QUESTION?
    case 5 => k.VAR?
    case 6 => k.OR?
    case 7 => k.AND?
    case 8 => k.EQ? || k.NEQ?
    case 9 => k.LT? || k.LTE? || k.GT? || k.GTE?
    case 10 => k.PLUS? || k.MINUS? || k.CAT?
    case 11 => k.MUL? || k.DIV?
    case 12 => k.MINUS? || k.NEG? || k.NOT?
    case 13 => k.LPAR? || k.LBRA?
    case 14 => k.DOT?
    case _ => false
  }

  predicate IsOpenBrace(k: Kind) {
    k.LPAR? || k.LBRA? || k.LCURL?
  }

  predicate IsBlockoid(k: Kind) {
    k.FOR? || k.FOREACH? || k.WHILE? || k.FORINDEX? || k.IF? || k.ELSIF? || k.ELSE? || k.FUNC?
  }

  predicate OneSided(k: Kind) {
    k.SEMI? || k.COMMA? || k.COLON?
  }

  /** The parsed tree. A node records its level, which fixes its rule. */
  datatype Tree =
    | Leaf(tok: Token)
    | Brace(kind: Kind, text: int, body: Tree)
    | Block(kind: Kind, text: int, parts: seq<Tree>)
    | Node(level: nat, kind: Kind, text: int, left: Option<Tree>, right: Option<Tree>)

  const EMPTY_TOKEN := Token(EMPTY, 0, [])

  /** The tokens that are not synthesized, inside braces too. */
  function Weight(ts: seq<Token>): nat {
    if ts == [] then 0
    else (if ts[0].kind.EMPTY? then 0 else 1) + Weight(ts[0].children) + Weight(ts[1..])
  }

  lemma {:induction false} WeightOfParts(a: seq<Token>, b: seq<Token>)
    ensures Weight(a + b) == Weight(a) + Weight(b)
  {
    if a == [] {
      assert a + b == b;
    } else {
      WeightOfParts(a[1..], b);
      assert (a + b)[1..] == a[1..] + b;
    }
  }

  lemma WeightOne(t: Token)
    ensures Weight([t]) == (if t.kind.EMPTY? then 0 else 1) + Weight(t.children)
  {
    assert [t][1..] == [];
  }

  lemma Around(ts: seq<Token>, i: nat)
    requires i < |ts|
    ensures ts[..i] + [ts[i]] + ts[i + 1..] == ts
  {
  }

  lemma WeightAround(ts: seq<Token>, i: nat)
    requires i < |ts|
    ensures Weight(ts) == Weight(ts[..i]) + Weight([ts[i]]) + Weight(ts[i + 1..])
    ensures Weight([ts[i]]) == (if ts[i].kind.EMPTY? then 0 else 1) + Weight(ts[i].children)
  {
    WeightOne(ts[i]);
    hide Weight;
    WeightOfParts(ts[..i] + [ts[i]], ts[i + 1..]);
    WeightOfParts(ts[..i], [ts[i]]);
    Around(ts, i);
  }

  /** A missing side of a statement, list or table separator becomes an empty token. */
  function Pad(ts: seq<Token>): (r: seq<Token>)
    requires |ts| >= 2
    ensures |r| >= 2 && !OneSided(r[0].kind) && !OneSided(r[|r| - 1].kind)
    ensures Weight(r) == Weight(ts)
  {
    var front := if OneSided(ts[0].kind) then [EMPTY_TOKEN] else [];
    var back := if OneSided(ts[|ts| - 1].kind) then [EMPTY_TOKEN] else [];
    WeightOfParts(front, ts);
    WeightOfParts(front + ts, back);
    assert EMPTY_TOKEN.children == [] && Weight([EMPTY_TOKEN]) == 0;
    front + ts + back
  }

  /** The last place from 1 to `i` that holds a token of the level. */
  function FindBack(ts: seq<Token>, level: nat, i: nat): (r: Option<nat>)
    requires i < |ts|
    ensures r.Some? ==> 0 < r.value <= i && InLevel(ts[r.value].kind, level)
    ensures forall j :: (if r.Some? then r.value else 0) < j <= i ==> !InLevel(ts[j].kind, level)
  {
    if i == 0 then None else if InLevel(ts[i].kind, level) then Some(i) else FindBack(ts, level, i - 1)
  }

  /** The first place from `i` on, but before the last, that holds a token of the level. */
  function FindForward(ts: seq<Token>, level: nat, i: nat): (r: Option<nat>)
    requires i < |ts|
    ensures r.Some? ==> i <= r.value < |ts| - 1 && InLevel(ts[r.value].kind, level)
    ensures forall j :: i <= j < (if r.Some? then r.value else |ts| - 1) ==> !InLevel(ts[j].kind, level)
    decreases |ts| - i
  {
    if i == |ts| - 1 then None else if InLevel(ts[i].kind, level) then Some(i) else FindForward(ts, level, i + 1)
  }

  /** Where a level splits a list of at least two tokens, if it does. */
  function Split(ts: seq<Token>, level: nat): (r: Option<nat>)
    requires |ts| >= 2 && level < LEVELS
    ensures r.Some? ==> r.value < |ts| && InLevel(ts[r.value].kind, level)
  {
    match RuleOf(level)
    case PREFIX => if InLevel(ts[0].kind, level) then Some(0) else None
    case SUFFIX => if InLevel(ts[|ts| - 1].kind, level) then Some(|ts| - 1) else None
    case BINARY => FindBack(ts, level, |ts| - 2)
    case REVERSE => FindForward(ts, level, 1)
  }

  /** The level that is really tried: a call or subscript at the end goes before a dot. */
  function StepBack(ts: seq<Token>, level: nat): (k: nat)
    requires |ts| >= 2
  {
    if level == DOT_LEVEL && (ts[|ts| - 1].kind.LPAR? || ts[|ts| - 1].kind.LBRA?) then level - 1 else level
  }

  /** Stepping back always splits at once. */
  lemma StepBackSplits(ts: seq<Token>, level: nat)
    requires |ts| >= 2 && StepBack(ts, level) != level
    ensures StepBack(ts, level) == CALL_LEVEL && Split(ts, CALL_LEVEL) == Some(|ts| - 1)
  {
  }

  lemma StepBackStays(ts: seq<Token>, level: nat)
    requires |ts| >= 2 && level < LEVELS && Split(ts, StepBack(ts, level)).None?
    ensures StepBack(ts, level) == level
  {
    if StepBack(ts, level) != level { StepBackSplits(ts, level); }
  }

  /** One side of an operator: nothing without tokens, and an error when they do not parse. */
  function OptTree(ts: seq<Token>, r: Option<Tree>): Option<Option<Tree>> {
    if ts == [] then Some(None) else if r.Some? then Some(Some(r.value)) else None
  }

  /** The tree of a token list at a level, or nothing when the list is a parse error. */
  function Parse(ts: seq<Token>, level: nat): (r: Option<Tree>)
    decreases Weight(ts), if level < LEVELS then LEVELS - level else 0, 2
  {
    if level >= LEVELS && |ts| > 1 then None
    else if ts == [] then Some(Leaf(EMPTY_TOKEN))
    else if |ts| == 1 then assert ts == [ts[0]]; ParseSingle(ts[0])
    else
      var padded := Pad(ts);
      var k := StepBack(padded, level);
      var at := Split(padded, k);
      if at.Some? then ParseSplit(padded, k, at.value)
      else if k == level then Parse(padded, level + 1)
      else assert false by { StepBackSplits(padded, level); } None
  }

  /** A single token: a brace is parsed inside, a block structure part by part. */
  function ParseSingle(t: Token): (r: Option<Tree>)
    decreases Weight([t]), 0, 1
  {
    if IsOpenBrace(t.kind) then
      var body := Parse(t.children, 0);
      if body.Some? then Some(Brace(t.kind, t.text, body.value)) else None
    else if IsBlockoid(t.kind) then
      var parts := ParseParts(t.children);
      if parts.Some? then Some(Block(t.kind, t.text, parts.value)) else None
    else Some(Leaf(t))
  }

  function ParseParts(ts: seq<Token>): (r: Option<seq<Tree>>)
    decreases Weight(ts), 0, |ts| + 1
  {
    if ts == [] then Some([])
    else
      WeightAround(ts, 0);
      var first := ParseSingle(ts[0]);
      if first.None? then None
      else
        var rest := ParseParts(ts[1..]);
        if rest.None? then None else Some([first.value] + rest.value)
  }

  /** The two sides of the operator at place `i`. */
  function ParseSplit(ts: seq<Token>, level: nat, i: nat): (r: Option<Tree>)
    requires |ts| >= 2 && level < LEVELS && Split(ts, level) == Some(i)
    decreases Weight(ts), 0, 0
  {
    WeightAround(ts, i);
    var op := ts[i];
    var rule := RuleOf(level);
    var left :=
      if rule.PREFIX? then OptTree(op.children, Parse(op.children, 0))
      else OptTree(ts, Parse(ts[..i], if rule.REVERSE? then level + 1 else level));
    var right :=
      if rule.SUFFIX? then OptTree(op.children, Parse(op.children, 0))
      else OptTree(ts, Parse(ts[i + 1..], if rule.BINARY? then level + 1 else level));
    if left.Some? && right.Some? then Some(Node(level, op.kind, op.text, left.value, right.value)) else None
  }

  /** Whether a node of level `k` can come from parsing at `level`. */
  predicate Admits(level: nat, k: nat) {
    k < LEVELS && (level <= k || (level == DOT_LEVEL && k == CALL_LEVEL))
  }

  /** One step of the parser on a longer list, padded: the split of a level, or the next level. */
  lemma ParseStep(ts: seq<Token>, level: nat)
    requires |ts| >= 2
    ensures level >= LEVELS ==> Parse(ts, level).None?
    ensures level < LEVELS ==>
      var p := Pad(ts);
      var k := StepBack(p, level);
      && k < LEVELS && Admits(level, k)
      && Parse(ts, level) == (if Split(p, k).Some? then ParseSplit(p, k, Split(p, k).value) else Parse(p, level + 1))
  {
    if level < LEVELS && StepBack(Pad(ts), level) != level { StepBackSplits(Pad(ts), level); }
  }

  // ----- the tokens of a tree, in order -----

  function Flatten(t: Tree): (ts: seq<Token>)
    ensures ts != []
  {
    match t
    case Leaf(tok) => [tok]
    case Brace(k, x, body) => [Token(k, x, Flatten(body))]
    case Block(k, x, parts) => [Token(k, x, FlattenParts(parts))]
    case Node(level, k, x, l, r) =>
      var left := FlattenOpt(l);
      var right := FlattenOpt(r);
      if level < LEVELS && RuleOf(level).PREFIX? then [Token(k, x, left)] + right
      else if level < LEVELS && RuleOf(level).SUFFIX? then left + [Token(k, x, right)]
      else left + [Token(k, x, [])] + right
  }

  function FlattenOpt(t: Option<Tree>): seq<Token> {
    match t case None => [] case Some(u) => Flatten(u)
  }

  function FlattenParts(ts: seq<Tree>): seq<Token> {
    if ts == [] then [] else Flatten(ts[0]) + FlattenParts(ts[1..])
  }

  /** The list without its empty tokens, inside braces too. */
  function Strip(ts: seq<Token>): seq<Token> {
    if ts == [] then []
    else (if ts[0].kind.EMPTY? then [] else [Token(ts[0].kind, ts[0].text, Strip(ts[0].children))]) + Strip(ts[1..])
  }

  lemma {:induction false} StripParts(a: seq<Token>, b: seq<Token>)
    ensures Strip(a + b) == Strip(a) + Strip(b)
  {
    if a == [] {
      assert a + b == b;
      assert Strip(a) == [] && [] + Strip(b) == Strip(b);
    } else {
      assert (a + b)[1..] == a[1..] + b && (a + b)[0] == a[0];
      StripHead(a);
      StripHead(a + b);
      hide Strip;
      StripParts(a[1..], b);
      Regroup(StripFirst(a[0]), Strip(a[1..]), Strip(b));
    }
  }

  ghost function StripFirst(t: Token): seq<Token> {
    if t.kind.EMPTY? then [] else [Token(t.kind, t.text, Strip(t.children))]
  }

  lemma StripHead(ts: seq<Token>)
    requires ts != []
    ensures Strip(ts) == StripFirst(ts[0]) + Strip(ts[1..])
  {
  }

  lemma StripThree(a: seq<Token>, t: Token, b: seq<Token>)
    ensures Strip(a + [t] + b) == Strip(a) + Strip([t]) + Strip(b)
  {
    hide Strip;
    StripParts(a + [t], b);
    StripParts(a, [t]);
  }

  lemma StripOne(t: Token)
    ensures Strip([t]) == if t.kind.EMPTY? then [] else [Token(t.kind, t.text, Strip(t.children))]
  {
  }

  lemma StripAround(ts: seq<Token>, i: nat)
    requires i < |ts|
    ensures Strip(ts) == Strip(ts[..i]) + Strip([ts[i]]) + Strip(ts[i + 1..])
  {
    hide Strip;
    StripThree(ts[..i], ts[i], ts[i + 1..]);
    Around(ts, i);
  }

  lemma StripPad(ts: seq<Token>)
    requires |ts| >= 2
    ensures Strip(Pad(ts)) == Strip(ts)
  {
    hide Strip;
    var front := if OneSided(ts[0].kind) then [EMPTY_TOKEN] else [];
    var back := if OneSided(ts[|ts| - 1].kind) then [EMPTY_TOKEN] else [];
    StripEmpties();
    PadIs(ts);
    hide Pad;
    StripParts(front, ts);
    StripParts(front + ts, back);
    NoEnds(Strip(ts));
  }

  lemma PadIs(ts: seq<Token>)
    requires |ts| >= 2
    ensures Pad(ts) == (if OneSided(ts[0].kind) then [EMPTY_TOKEN] else []) + ts
                       + (if OneSided(ts[|ts| - 1].kind) then [EMPTY_TOKEN] else [])
  {
  }

  lemma NoEnds(ts: seq<Token>)
    ensures [] + ts == ts == ts + []
  {
  }

  lemma StripEmpties()
    ensures Strip([]) == [] && Strip([EMPTY_TOKEN]) == []
  {
  }

  /** Only braces and block structures have tokens inside them, as the block parser leaves them. */
  predicate Nested(ts: seq<Token>) {
    ts == [] ||
    ((ts[0].children != [] ==> IsOpenBrace(ts[0].kind) || IsBlockoid(ts[0].kind))
     && Nested(ts[0].children) && Nested(ts[1..]))
  }

  lemma {:induction false} NestedParts(a: seq<Token>, b: seq<Token>)
    ensures Nested(a + b) <==> Nested(a) && Nested(b)
  {
    if a == [] {
      assert a + b == b;
    } else {
      NestedParts(a[1..], b);
      assert (a + b)[1..] == a[1..] + b;
    }
  }

  lemma NestedOne(t: Token)
    requires Nested([t])
    ensures Nested(t.children) && (t.children != [] ==> IsOpenBrace(t.kind) || IsBlockoid(t.kind))
  {
  }

  lemma NestedAround(ts: seq<Token>, i: nat)
    requires i < |ts| && Nested(ts)
    ensures Nested(ts[..i]) && Nested([ts[i]]) && Nested(ts[i + 1..]) && Nested(ts[i].children)
    ensures ts[i].children != [] ==> IsOpenBrace(ts[i].kind) || IsBlockoid(ts[i].kind)
  {
    hide Nested;
    Around(ts, i);
    NestedParts(ts[..i] + [ts[i]], ts[i + 1..]);
    NestedParts(ts[..i], [ts[i]]);
    NestedOne(ts[i]);
  }

  lemma NestedPad(ts: seq<Token>)
    requires |ts| >= 2 && Nested(ts)
    ensures Nested(Pad(ts))
  {
    var front := if OneSided(ts[0].kind) then [EMPTY_TOKEN] else [];
    var back := if OneSided(ts[|ts| - 1].kind) then [EMPTY_TOKEN] else [];
    NestedParts(front, ts);
    NestedParts(front + ts, back);
  }

  // ----- conservation -----

  /** The tree holds the tokens of the list in their order; only empty ones are added. */
  lemma {:induction false} Conserves(ts: seq<Token>, level: nat)
    requires Nested(ts) && Parse(ts, level).Some?
    ensures Strip(Flatten(Parse(ts, level).value)) == Strip(ts)
    decreases Weight(ts), if level < LEVELS then LEVELS - level else 0, 2
  {
    if ts == [] {
    } else if |ts| == 1 {
      assert ts == [ts[0]];
      ConservesSingle(ts[0]);
    } else {
      hide Parse, Split, Strip, Nested, Flatten, Weight;
      ParseStep(ts, level);
      var padded := Pad(ts);
      var k := StepBack(padded, level);
      StripPad(ts);
      NestedPad(ts);
      if Split(padded, k).Some? {
        ConservesSplit(padded, k, Split(padded, k).value);
      } else {
        Conserves(padded, level + 1);
      }
    }
  }

  lemma {:induction false} ConservesSingle(t: Token)
    requires Nested([t]) && ParseSingle(t).Some?
    ensures Strip(Flatten(ParseSingle(t).value)) == Strip([t])
    decreases Weight([t]), 0, 1
  {
    assert [t][1..] == [];
    if IsOpenBrace(t.kind) {
      Conserves(t.children, 0);
    } else if IsBlockoid(t.kind) {
      ConservesParts(t.children);
    }
  }

  lemma {:induction false} ConservesParts(ts: seq<Token>)
    requires Nested(ts) && ParseParts(ts).Some?
    ensures Strip(FlattenParts(ParseParts(ts).value)) == Strip(ts)
    decreases Weight(ts), 0, |ts| + 1
  {
    if ts != [] {
      hide Strip, Nested, Flatten, FlattenParts, ParseSingle, Weight;
      WeightAround(ts, 0);
      NestedAround(ts, 0);
      ConservesSingle(ts[0]);
      ConservesParts(ts[1..]);
      hide ParseParts;
      PartsAround(ts);
    } else {
      StripEmpties();
    }
  }

  lemma PartsAround(ts: seq<Token>)
    requires ts != [] && ParseParts(ts).Some?
    ensures ParseSingle(ts[0]).Some? && ParseParts(ts[1..]).Some?
    ensures Strip(ts) == Strip([ts[0]]) + Strip(ts[1..])
    ensures Strip(FlattenParts(ParseParts(ts).value))
            == Strip(Flatten(ParseSingle(ts[0]).value)) + Strip(FlattenParts(ParseParts(ts[1..]).value))
  {
    hide Strip, Flatten, ParseSingle;
    var first, rest := ParseSingle(ts[0]).value, ParseParts(ts[1..]).value;
    assert ([first] + rest)[1..] == rest && [ts[0]] + ts[1..] == ts;
    StripParts([ts[0]], ts[1..]);
    StripParts(Flatten(first), FlattenParts(rest));
  }

  lemma {:induction false} ConservesSplit(ts: seq<Token>, level: nat, i: nat)
    requires |ts| >= 2 && level < LEVELS && Split(ts, level) == Some(i) && Nested(ts) && ParseSplit(ts, level, i).Some?
    ensures Strip(Flatten(ParseSplit(ts, level, i).value)) == Strip(ts)
    decreases Weight(ts), 0, 0
  {
    hide Strip, Nested, Weight, Parse, Split, Flatten;
    WeightAround(ts, i);
    NestedAround(ts, i);
    SplitPlace(ts, level, i);
    var op, rule := ts[i], RuleOf(level);
    var t := ParseSplit(ts, level, i).value;
    FlattenNode(t);
    if op.children != [] { Conserves(op.children, 0); }
    if !rule.PREFIX? { Conserves(ts[..i], if rule.REVERSE? then level + 1 else level); }
    if !rule.SUFFIX? { Conserves(ts[i + 1..], if rule.BINARY? then level + 1 else level); }
    var left, right := FlattenOpt(t.left), FlattenOpt(t.right);
    match rule {
      case PREFIX => StripJoins(ts, i, [], left, right);
      case SUFFIX =>
        assert ts[i + 1..] == [];
        StripJoins(ts, i, left, right, []);
      case _ => StripJoins(ts, i, left, [], right);
    }
    EmptySides(left, right, Token(op.kind, op.text, left), Token(op.kind, op.text, right));
  }

  /** Sides and inside that strip like those of the list make a whole that strips like the list. */
  lemma StripJoins(ts: seq<Token>, i: nat, left: seq<Token>, inside: seq<Token>, right: seq<Token>)
    requires i < |ts| && !ts[i].kind.EMPTY?
    requires Strip(left) == Strip(ts[..i]) && Strip(inside) == Strip(ts[i].children)
        && Strip(right) == Strip(ts[i + 1..])
    ensures Strip(left + [Token(ts[i].kind, ts[i].text, inside)] + right) == Strip(ts)
  {
    hide Strip;
    StripAround(ts, i);
    StripThree(left, Token(ts[i].kind, ts[i].text, inside), right);
    StripOne(ts[i]);
    StripOne(Token(ts[i].kind, ts[i].text, inside));
  }

  lemma EmptySides(left: seq<Token>, right: seq<Token>, a: Token, b: Token)
    ensures [] + [a] + right == [a] + right && left + [b] + [] == left + [b]
  {
  }

  lemma FlattenNode(t: Tree)
    requires t.Node? && t.level < LEVELS
    ensures Flatten(t) ==
      var left, right := FlattenOpt(t.left), FlattenOpt(t.right);
      if RuleOf(t.level).PREFIX? then [Token(t.kind, t.text, left)] + right
      else if RuleOf(t.level).SUFFIX? then left + [Token(t.kind, t.text, right)]
      else left + [Token(t.kind, t.text, [])] + right
  {
  }

  /** Where a level splits: at an end, or strictly inside; only a call has tokens inside its operator. */
  lemma SplitPlace(ts: seq<Token>, level: nat, i: nat)
    requires |ts| >= 2 && level < LEVELS && Split(ts, level) == Some(i)
    ensures match RuleOf(level)
      case PREFIX => i == 0
      case SUFFIX => i == |ts| - 1
      case _ => 0 < i < |ts| - 1
    ensures i < |ts| && InLevel(ts[i].kind, level)
    ensures !RuleOf(level).SUFFIX? ==> !IsOpenBrace(ts[i].kind) && !IsBlockoid(ts[i].kind)
    ensures !ts[i].kind.EMPTY?
  {
  }

  // ----- a tree's own tokens parse to the tree -----

  function Kinds(ts: seq<Token>): set<Kind> {
    set i | 0 <= i < |ts| :: ts[i].kind
  }

  lemma KindsParts(a: seq<Token>, b: seq<Token>)
    ensures Kinds(a + b) == Kinds(a) + Kinds(b)
  {
    forall i | 0 <= i < |a|
      ensures a[i].kind in Kinds(a + b)
    {
      assert (a + b)[i] == a[i];
    }
    forall i | 0 <= i < |b|
      ensures b[i].kind in Kinds(a + b)
    {
      assert (a + b)[|a| + i] == b[i];
    }
  }

  lemma KindsOne(t: Token)
    ensures Kinds([t]) == {t.kind}
  {
    assert [t][0].kind in Kinds([t]);
  }

  lemma PadOfClosed(ts: seq<Token>)
    requires Closed(ts)
    ensures Pad(ts) == ts
  {
    assert [] + ts + [] == ts;
  }

  /** The same ends, and inside nothing new but empty tokens. */
  predicate Alike(p: seq<Token>, f: seq<Token>) {
    && |p| >= 2 && |f| >= 2 && f[0].kind == p[0].kind && f[|f| - 1].kind == p[|p| - 1].kind
    && Kinds(f[1..|f| - 1]) <= Kinds(p[1..|p| - 1]) + {EMPTY}
  }

  predicate Spread(ts: seq<Token>, f: seq<Token>) {
    && (|ts| == 1 ==> |f| == 1 && f[0].kind == ts[0].kind)
    && (|ts| >= 2 ==> Alike(Pad(ts), f))
  }

  /** All but the first token: those inside and the last. */
  lemma KindsOfTail(f: seq<Token>)
    requires |f| >= 2
    ensures Kinds(f[1..]) == Kinds(f[1..|f| - 1]) + {f[|f| - 1].kind}
    ensures Kinds(f[..|f| - 1]) == Kinds(f[1..|f| - 1]) + {f[0].kind}
  {
    KindsParts(f[1..|f| - 1], [f[|f| - 1]]);
    KindsParts([f[0]], f[1..|f| - 1]);
    assert f[1..] == f[1..|f| - 1] + [f[|f| - 1]];
    assert f[..|f| - 1] == [f[0]] + f[1..|f| - 1];
    KindsOne(f[0]);
    KindsOne(f[|f| - 1]);
  }

  /** Padding the far end adds an empty token at most. */
  lemma KindsOfPad(a: seq<Token>)
    requires |a| >= 2
    ensures !OneSided(a[0].kind) ==> Kinds(Pad(a)[1..]) <= Kinds(a[1..]) + {EMPTY}
    ensures !OneSided(a[|a| - 1].kind) ==> Kinds(Pad(a)[..|Pad(a)| - 1]) <= Kinds(a[..|a| - 1]) + {EMPTY}
  {
    var p := Pad(a);
    if !OneSided(a[0].kind) {
      assert p[1..] == a[1..] + p[|a|..];
      KindsParts(a[1..], p[|a|..]);
    }
    if !OneSided(a[|a| - 1].kind) {
      var front := p[..|p| - |a|];
      assert p[..|p| - 1] == front + a[..|a| - 1];
      KindsParts(front, a[..|a| - 1]);
    }
  }

  lemma LeftEdge(a: seq<Token>, f: seq<Token>)
    requires a != [] && !OneSided(a[0].kind) && Spread(a, f)
    ensures f != [] && f[0].kind == a[0].kind && Kinds(f[1..]) <= Kinds(a[1..]) + {EMPTY}
  {
    hide Kinds;
    if |a| >= 2 {
      KindsOfTail(f);
      KindsOfTail(Pad(a));
      KindsOfPad(a);
    } else {
      assert f[1..] == a[1..];
    }
  }

  lemma RightEdge(a: seq<Token>, f: seq<Token>)
    requires a != [] && !OneSided(a[|a| - 1].kind) && Spread(a, f)
    ensures f != [] && f[|f| - 1].kind == a[|a| - 1].kind
    ensures Kinds(f[..|f| - 1]) <= Kinds(a[..|a| - 1]) + {EMPTY}
  {
    hide Kinds;
    if |a| >= 2 {
      KindsOfTail(f);
      KindsOfTail(Pad(a));
      KindsOfPad(a);
    }
  }

  /** A list of at least two tokens whose ends need no padding. */
  predicate Closed(ts: seq<Token>) {
    |ts| >= 2 && !OneSided(ts[0].kind) && !OneSided(ts[|ts| - 1].kind)
  }

  lemma JoinPrefix(ts: seq<Token>, op: Token, right: seq<Token>)
    requires Closed(ts) && op.kind == ts[0].kind && Spread(ts[1..], right)
    ensures Alike(ts, [op] + right)
  {
    hide Kinds, Spread;
    RightEdge(ts[1..], right);
    assert ts[1..][..|ts| - 2] == ts[1..|ts| - 1];
    assert ([op] + right)[1..|right|] == right[..|right| - 1];
  }

  lemma JoinSuffix(ts: seq<Token>, left: seq<Token>, op: Token)
    requires Closed(ts) && op.kind == ts[|ts| - 1].kind && Spread(ts[..|ts| - 1], left)
    ensures Alike(ts, left + [op])
  {
    hide Kinds, Spread;
    LeftEdge(ts[..|ts| - 1], left);
    assert ts[..|ts| - 1][1..] == ts[1..|ts| - 1];
    assert (left + [op])[1..|left|] == left[1..];
  }

  lemma JoinMiddle(ts: seq<Token>, i: nat, left: seq<Token>, op: Token, right: seq<Token>)
    requires Closed(ts) && 0 < i < |ts| - 1 && op.kind == ts[i].kind && Spread(ts[..i], left)
        && Spread(ts[i + 1..], right)
    ensures Alike(ts, left + [op] + right) && left != [] && right != []
    ensures Kinds(left[1..]) <= Kinds(ts[1..i]) + {EMPTY}
    ensures Kinds(right[..|right| - 1]) <= Kinds(ts[i + 1..|ts| - 1]) + {EMPTY}
  {
    hide Kinds, Spread;
    LeftEdge(ts[..i], left);
    RightEdge(ts[i + 1..], right);
    assert ts[..i][1..] == ts[1..i];
    assert ts[i + 1..][..|ts| - i - 2] == ts[i + 1..|ts| - 1];
    var f := left + [op] + right;
    assert f[1..|f| - 1] == left[1..] + [op] + right[..|right| - 1];
    assert ts[1..|ts| - 1] == ts[1..i] + [ts[i]] + ts[i + 1..|ts| - 1];
    KindsThree(left[1..], op, right[..|right| - 1]);
    KindsThree(ts[1..i], ts[i], ts[i + 1..|ts| - 1]);
  }

  lemma KindsThree(a: seq<Token>, t: Token, b: seq<Token>)
    ensures Kinds(a + [t] + b) == Kinds(a) + {t.kind} + Kinds(b)
  {
    KindsParts(a + [t], b);
    KindsParts(a, [t]);
    KindsOne(t);
  }

  // ----- every tree's tokens are spread like the list it came from -----

  lemma {:induction false} ParseSpreads(ts: seq<Token>, level: nat)
    requires Parse(ts, level).Some?
    ensures Spread(ts, Flatten(Parse(ts, level).value))
    decreases Weight(ts), if level < LEVELS then LEVELS - level else 0, 2
  {
    if |ts| >= 2 {
      hide Split, Parse, Flatten, Alike, Weight;
      ParseStep(ts, level);
      var padded := Pad(ts);
      var k := StepBack(padded, level);
      if Split(padded, k).Some? {
        SplitSpreads(padded, k, Split(padded, k).value);
      } else {
        PadOfClosed(padded);
        ParseSpreads(padded, level + 1);
      }
    }
  }

  lemma {:induction false} SplitSpreads(ts: seq<Token>, level: nat, i: nat)
    requires Closed(ts) && level < LEVELS && Split(ts, level) == Some(i) && ParseSplit(ts, level, i).Some?
    ensures Alike(ts, Flatten(ParseSplit(ts, level, i).value))
    decreases Weight(ts), 0, 0
  {
    hide Weight, Parse, Split, Flatten, Alike, Spread;
    WeightAround(ts, i);
    SplitPlace(ts, level, i);
    var t, rule := ParseSplit(ts, level, i).value, RuleOf(level);
    FlattenNode(t);
    if !rule.PREFIX? { ParseSpreads(ts[..i], if rule.REVERSE? then level + 1 else level); }
    if !rule.SUFFIX? { ParseSpreads(ts[i + 1..], if rule.BINARY? then level + 1 else level); }
    var left, right := FlattenOpt(t.left), FlattenOpt(t.right);
    match rule {
      case PREFIX => JoinPrefix(ts, Token(t.kind, t.text, left), right);
      case SUFFIX => JoinSuffix(ts, left, Token(t.kind, t.text, right));
      case _ => JoinMiddle(ts, i, left, Token(t.kind, t.text, []), right);
    }
  }

  /** A token of a level inside the one list means one inside the other. */
  lemma InsideBoth(p: seq<Token>, f: seq<Token>, level: nat, i: nat)
    requires Alike(p, f) && 0 < i < |f| - 1 && InLevel(f[i].kind, level)
    ensures exists j :: 0 < j < |p| - 1 && InLevel(p[j].kind, level)
  {
    hide InLevel;
    assert !InLevel(EMPTY, level) by { EmptyHasNoLevel(level); }
    assert f[1..|f| - 1][i - 1] == f[i];
    assert f[i].kind in Kinds(f[1..|f| - 1]);
    var j :| 0 <= j < |p| - 2 && p[1..|p| - 1][j].kind == f[i].kind;
    assert InLevel(p[j + 1].kind, level);
  }

  lemma EmptyHasNoLevel(level: nat)
    ensures !InLevel(EMPTY, level)
  {
  }

  /** A level splits a list of alike tokens only where it splits the original. */
  lemma AlikeSplits(p: seq<Token>, f: seq<Token>, level: nat)
    requires Closed(p) && Alike(p, f) && level < LEVELS
    ensures Closed(f) && StepBack(f, level) == StepBack(p, level)
    ensures Split(p, level).None? ==> Split(f, level).None?
  {
    if Split(f, level).Some? {
      var i := Split(f, level).value;
      if 0 < i < |f| - 1 {
        InsideBoth(p, f, level, i);
      }
    }
  }

  lemma NoneInside(ts: seq<Token>, a: nat, b: nat, f: seq<Token>, level: nat)
    requires a <= b <= |ts| && Kinds(f) <= Kinds(ts[a..b]) + {EMPTY}
    requires forall j :: a <= j < b ==> !InLevel(ts[j].kind, level)
    ensures forall j :: 0 <= j < |f| ==> !InLevel(f[j].kind, level)
  {
    forall j | 0 <= j < |f|
      ensures !InLevel(f[j].kind, level)
    {
      assert f[j].kind in Kinds(f);
      if f[j].kind != EMPTY {
        var i :| 0 <= i < |ts[a..b]| && ts[a..b][i].kind == f[j].kind;
        assert ts[a + i].kind == f[j].kind;
      }
    }
  }

  /** The rightmost or leftmost operator inside a list is where its level splits. */
  lemma SplitsInside(f: seq<Token>, level: nat, r: nat)
    requires |f| >= 2 && level < LEVELS && 0 < r < |f| - 1 && InLevel(f[r].kind, level)
    requires RuleOf(level).BINARY? || RuleOf(level).REVERSE?
    requires RuleOf(level).BINARY? ==> forall j :: r < j < |f| - 1 ==> !InLevel(f[j].kind, level)
    requires RuleOf(level).REVERSE? ==> forall j :: 0 < j < r ==> !InLevel(f[j].kind, level)
    ensures Split(f, level) == Some(r)
  {
    hide InLevel;
  }

  lemma SplitIsOutermost(ts: seq<Token>, level: nat, i: nat)
    requires |ts| >= 2 && level < LEVELS && Split(ts, level) == Some(i)
    ensures RuleOf(level).BINARY? ==> forall j :: i < j < |ts| - 1 ==> !InLevel(ts[j].kind, level)
    ensures RuleOf(level).REVERSE? ==> forall j :: 0 < j < i ==> !InLevel(ts[j].kind, level)
  {
    hide InLevel;
  }

  /** Putting the sides of a split back together, the same level splits at the same operator. */
  lemma SplitsAgain(ts: seq<Token>, level: nat, i: nat, left: seq<Token>, op: Token, right: seq<Token>)
    requires Closed(ts) && level < LEVELS && Split(ts, level) == Some(i) && op.kind == ts[i].kind
    requires RuleOf(level).BINARY? || RuleOf(level).REVERSE?
    requires 0 < i < |ts| - 1 && Spread(ts[..i], left) && Spread(ts[i + 1..], right)
    ensures |left + [op] + right| >= 2 && Split(left + [op] + right, level) == Some(|left|)
  {
    hide InLevel, Spread, Kinds, Alike;
    var f := left + [op] + right;
    JoinMiddle(ts, i, left, op, right);
    SplitIsOutermost(ts, level, i);
    if RuleOf(level).BINARY? {
      NoneInside(ts, i + 1, |ts| - 1, right[..|right| - 1], level);
      assert forall j :: |left| < j < |f| - 1 ==> f[j] == right[..|right| - 1][j - |left| - 1];
    } else {
      NoneInside(ts, 1, i, left[1..], level);
      assert forall j :: 0 < j < |left| ==> f[j] == left[1..][j - 1];
    }
    hide Split;
    SplitsInside(f, level, |left|);
  }

  /** Whatever the parser makes of a list, it makes the same of that tree's own tokens. */
  lemma {:induction false} Reparses(ts: seq<Token>, level: nat)
    requires Parse(ts, level).Some?
    ensures var t := Parse(ts, level).value; Parse(Flatten(t), level) == Some(t)
    decreases Weight(ts), if level < LEVELS then LEVELS - level else 0, 2
  {
    if ts == [] {
      ParseOne(EMPTY_TOKEN, level);
    } else if |ts| == 1 {
      assert ts == [ts[0]];
      ParseOne(ts[0], level);
      ReparsesSingle(ts[0]);
      var u := ParseSingle(ts[0]).value;
      assert Flatten(u) == [Flatten(u)[0]];
      ParseOne(Flatten(u)[0], level);
    } else {
      ReparsesLong(ts, level);
    }
  }

  lemma ParseOne(t: Token, level: nat)
    ensures Parse([t], level) == ParseSingle(t)
  {
  }

  lemma {:induction false} ReparsesLong(ts: seq<Token>, level: nat)
    requires |ts| >= 2 && Parse(ts, level).Some?
    ensures var t := Parse(ts, level).value; Parse(Flatten(t), level) == Some(t)
    decreases Weight(ts), if level < LEVELS then LEVELS - level else 0, 1
  {
    hide Parse, ParseSplit, Split, Flatten, Alike, StepBack, Weight, Pad;
    ParseStep(ts, level);
    var p, t := Pad(ts), Parse(ts, level).value;
    var k := StepBack(p, level);
    PadOfClosed(p);
    ParseSpreads(ts, level);
    AlikeSplits(p, Flatten(t), level);
    PadOfClosed(Flatten(t));
    ParseStep(Flatten(t), level);
    if Split(p, k).Some? {
      ReparsesSplit(p, k, Split(p, k).value);
    } else {
      StepBackStays(p, level);
      Reparses(p, level + 1);
    }
  }

  lemma {:induction false} ReparsesSingle(t: Token)
    requires ParseSingle(t).Some?
    ensures var u := ParseSingle(t).value; |Flatten(u)| == 1 && ParseSingle(Flatten(u)[0]) == Some(u)
    decreases Weight([t]), 0, 1
  {
    if IsOpenBrace(t.kind) {
      Reparses(t.children, 0);
    } else if IsBlockoid(t.kind) {
      ReparsesParts(t.children);
    }
  }

  lemma {:induction false} ReparsesParts(ts: seq<Token>)
    requires ParseParts(ts).Some?
    ensures ParseParts(FlattenParts(ParseParts(ts).value)) == ParseParts(ts)
    decreases Weight(ts), 0, |ts| + 1
  {
    if ts != [] {
      WeightAround(ts, 0);
      ReparsesSingle(ts[0]);
      ReparsesParts(ts[1..]);
      var first, rest := ParseSingle(ts[0]).value, ParseParts(ts[1..]).value;
      assert ([first] + rest)[1..] == rest;
      assert (Flatten(first) + FlattenParts(rest))[1..] == FlattenParts(rest);
    }
  }

  function LeftLevel(k: nat): nat
    requires k < LEVELS
  {
    match RuleOf(k) case PREFIX => 0 case REVERSE => k + 1 case _ => k
  }

  function RightLevel(k: nat): nat
    requires k < LEVELS
  {
    match RuleOf(k) case SUFFIX => 0 case BINARY => k + 1 case _ => k
  }

  /** A node with the operands that its rule must have. */
  predicate Shaped(t: Tree) {
    t.Node? && t.level < LEVELS && (!RuleOf(t.level).PREFIX? ==> t.left.Some?)
        && (!RuleOf(t.level).SUFFIX? ==> t.right.Some?)
  }

  /** With its operands parsed, a split gives the tree. */
  lemma Rebuilds(t: Tree, f: seq<Token>, i: nat)
    requires Shaped(t) && |f| >= 2 && Split(f, t.level) == Some(i) && i < |f|
    requires f[i].kind == t.kind && f[i].text == t.text
    requires f[i].children == match RuleOf(t.level)
      case PREFIX => FlattenOpt(t.left) case SUFFIX => FlattenOpt(t.right) case _ => []
    requires !RuleOf(t.level).PREFIX? ==> f[..i] == FlattenOpt(t.left)
    requires !RuleOf(t.level).SUFFIX? ==> f[i + 1..] == FlattenOpt(t.right)
    requires t.left.Some? ==> Parse(Flatten(t.left.value), LeftLevel(t.level)) == t.left
    requires t.right.Some? ==> Parse(Flatten(t.right.value), RightLevel(t.level)) == t.right
    ensures ParseSplit(f, t.level, i) == Some(t)
  {
    hide Split, Parse, Flatten, InLevel;
  }

  lemma {:induction false} ReparsesSplit(ts: seq<Token>, level: nat, i: nat)
    requires Closed(ts) && level < LEVELS && Split(ts, level) == Some(i) && ParseSplit(ts, level, i).Some?
    ensures var t := ParseSplit(ts, level, i).value; var f := Flatten(t);
      |f| >= 2 && Split(f, level).Some? && ParseSplit(f, level, Split(f, level).value) == Some(t)
    decreases Weight(ts), 0, 1
  {
    hide Weight, Parse, ParseSplit, Split, Flatten, Alike, Spread, InLevel;
    var t := ParseSplit(ts, level, i).value;
    SplitPlace(ts, level, i);
    SplitIsShaped(ts, level, i);
    ReparsesSides(ts, level, i);
    FlattenNode(t);
    var left, right, f := FlattenOpt(t.left), FlattenOpt(t.right), Flatten(t);
    match RuleOf(level) {
      case PREFIX => RebuildsFirst(t, f);
      case SUFFIX => RebuildsLast(t, f);
      case _ =>
        SplitsAgain(ts, level, i, left, Token(t.kind, t.text, []), right);
        assert f[..|left|] == left && f[|left| + 1..] == right;
        Rebuilds(t, f, |left|);
    }
  }

  lemma RebuildsFirst(t: Tree, f: seq<Token>)
    requires Shaped(t) && RuleOf(t.level).PREFIX? && InLevel(t.kind, t.level) && t.right.Some?
    requires f == [Token(t.kind, t.text, FlattenOpt(t.left))] + FlattenOpt(t.right)
    requires t.left.Some? ==> Parse(Flatten(t.left.value), LeftLevel(t.level)) == t.left
    requires Parse(Flatten(t.right.value), RightLevel(t.level)) == t.right
    ensures |f| >= 2 && Split(f, t.level) == Some(0) && ParseSplit(f, t.level, 0) == Some(t)
  {
    hide Parse, ParseSplit, Split, Flatten, InLevel;
    SplitsFirst(f, t.level);
    assert f[1..] == FlattenOpt(t.right);
    Rebuilds(t, f, 0);
  }

  lemma RebuildsLast(t: Tree, f: seq<Token>)
    requires Shaped(t) && RuleOf(t.level).SUFFIX? && InLevel(t.kind, t.level) && t.left.Some?
    requires f == FlattenOpt(t.left) + [Token(t.kind, t.text, FlattenOpt(t.right))]
    requires Parse(Flatten(t.left.value), LeftLevel(t.level)) == t.left
    requires t.right.Some? ==> Parse(Flatten(t.right.value), RightLevel(t.level)) == t.right
    ensures |f| >= 2 && Split(f, t.level) == Some(|f| - 1) && ParseSplit(f, t.level, |f| - 1) == Some(t)
  {
    hide Parse, ParseSplit, Split, Flatten, InLevel;
    SplitsLast(f, t.level);
    assert f[..|f| - 1] == FlattenOpt(t.left);
    Rebuilds(t, f, |f| - 1);
  }

  lemma SplitIsShaped(ts: seq<Token>, level: nat, i: nat)
    requires |ts| >= 2 && level < LEVELS && Split(ts, level) == Some(i) && ParseSplit(ts, level, i).Some?
    ensures var t := ParseSplit(ts, level, i).value; Shaped(t) && t.level == level && t.kind == ts[i].kind
  {
    hide Split, Parse, InLevel;
  }

  /** The sides of a split parse again, and are spread like the lists they came from. */
  lemma {:induction false} ReparsesSides(ts: seq<Token>, level: nat, i: nat)
    requires Closed(ts) && level < LEVELS && Split(ts, level) == Some(i) && ParseSplit(ts, level, i).Some?
    ensures var t := ParseSplit(ts, level, i).value;
      && (t.left.Some? ==> Parse(Flatten(t.left.value), LeftLevel(level)) == t.left)
      && (t.right.Some? ==> Parse(Flatten(t.right.value), RightLevel(level)) == t.right)
      && (!RuleOf(level).PREFIX? ==> Spread(ts[..i], FlattenOpt(t.left)))
      && (!RuleOf(level).SUFFIX? ==> Spread(ts[i + 1..], FlattenOpt(t.right)))
    decreases Weight(ts), 0, 0
  {
    hide Weight, Parse, Split, Flatten, Spread, InLevel;
    WeightAround(ts, i);
    SplitPlace(ts, level, i);
    var rule, op := RuleOf(level), ts[i];
    if op.children != [] && (rule.PREFIX? || rule.SUFFIX?) { Reparses(op.children, 0); }
    if !rule.PREFIX? {
      Reparses(ts[..i], LeftLevel(level));
      ParseSpreads(ts[..i], LeftLevel(level));
    }
    if !rule.SUFFIX? {
      Reparses(ts[i + 1..], RightLevel(level));
      ParseSpreads(ts[i + 1..], RightLevel(level));
    }
  }

  lemma SplitsFirst(f: seq<Token>, level: nat)
    requires |f| >= 2 && level < LEVELS && RuleOf(level).PREFIX? && InLevel(f[0].kind, level)
    ensures Split(f, level) == Some(0)
  {
  }

  lemma SplitsLast(f: seq<Token>, level: nat)
    requires |f| >= 2 && level < LEVELS && RuleOf(level).SUFFIX? && InLevel(f[|f| - 1].kind, level)
    ensures Split(f, level) == Some(|f| - 1)
  {
  }

  // ----- levels and associativity -----

  /** Operators nest by level: a left-associative one has the same level only on its left, a
      right-associative one only on its right. */
  predicate Ordered(t: Tree, level: nat) {
    match t
    case Leaf(tok) => !IsOpenBrace(tok.kind) && !IsBlockoid(tok.kind)
    case Brace(k, _, body) => IsOpenBrace(k) && Ordered(body, 0)
    case Block(k, _, parts) => IsBlockoid(k) && forall p :: p in parts ==> Ordered(p, 0)
    case Node(k, kind, _, l, r) =>
      Admits(level, k) && InLevel(kind, k) &&
      match RuleOf(k)
      case BINARY => l.Some? && r.Some? && Ordered(l.value, k) && Ordered(r.value, k + 1)
      case REVERSE => l.Some? && r.Some? && Ordered(l.value, k + 1) && Ordered(r.value, k)
      case PREFIX => r.Some? && Ordered(r.value, k) && (l.Some? ==> Ordered(l.value, 0))
      case SUFFIX => l.Some? && Ordered(l.value, k) && (r.Some? ==> Ordered(r.value, 0))
  }

  lemma {:induction false} ParseOrders(ts: seq<Token>, level: nat)
    requires Parse(ts, level).Some?
    ensures Ordered(Parse(ts, level).value, level)
    decreases Weight(ts), if level < LEVELS then LEVELS - level else 0, 2
  {
    if ts == [] {
    } else if |ts| == 1 {
      assert ts == [ts[0]];
      SingleOrders(ts[0], level);
    } else {
      hide Parse, Split, Ordered, Weight;
      ParseStep(ts, level);
      var p := Pad(ts);
      var k := StepBack(p, level);
      if Split(p, k).Some? {
        SplitOrders(p, level, k, Split(p, k).value);
      } else {
        ParseOrders(p, level + 1);
        StillOrdered(Parse(p, level + 1).value, level);
      }
    }
  }

  lemma StillOrdered(t: Tree, level: nat)
    requires Ordered(t, level + 1) && level < LEVELS
    ensures Ordered(t, level)
  {
  }

  lemma {:induction false} SingleOrders(t: Token, level: nat)
    requires ParseSingle(t).Some?
    ensures Ordered(ParseSingle(t).value, level)
    decreases Weight([t]), 0, 1
  {
    if IsOpenBrace(t.kind) {
      ParseOrders(t.children, 0);
    } else if IsBlockoid(t.kind) {
      PartsOrder(t.children);
    }
  }

  lemma {:induction false} PartsOrder(ts: seq<Token>)
    requires ParseParts(ts).Some?
    ensures forall p :: p in ParseParts(ts).value ==> Ordered(p, 0)
    decreases Weight(ts), 0, |ts| + 1
  {
    if ts != [] {
      WeightAround(ts, 0);
      SingleOrders(ts[0], 0);
      PartsOrder(ts[1..]);
    }
  }

  lemma {:induction false} SplitOrders(ts: seq<Token>, level: nat, k: nat, i: nat)
    requires |ts| >= 2 && Admits(level, k) && Split(ts, k) == Some(i) && ParseSplit(ts, k, i).Some?
    ensures Ordered(ParseSplit(ts, k, i).value, level)
    decreases Weight(ts), 0, 0
  {
    hide Weight, Parse, Split;
    WeightAround(ts, i);
    SplitPlace(ts, k, i);
    var rule, op := RuleOf(k), ts[i];
    if op.children != [] && (rule.PREFIX? || rule.SUFFIX?) { ParseOrders(op.children, 0); }
    if !rule.PREFIX? { ParseOrders(ts[..i], if rule.REVERSE? then k + 1 else k); }
    if !rule.SUFFIX? { ParseOrders(ts[i + 1..], if rule.BINARY? then k + 1 else k); }
  }

  // ----- the grammar, and its round trip -----

  predicate Atomic(k: Kind) {
    k.SYMBOL? || k.LITERAL? || k.NIL?
  }

  /** The trees that make sense: atoms, braces and block structures under operators that nest
      by level. A brace is no operand of a dot, and a minus sign is unary only where `lead`
      says that nothing of its own list stands before it; elsewhere it is a `NEG`. */
  predicate Grammar(t: Tree, level: nat, lead: bool) {
    match t
    case Leaf(tok) => Atomic(tok.kind)
    case Brace(k, _, body) => IsOpenBrace(k) && level < LEVELS && (body == Leaf(EMPTY_TOKEN) || Grammar(body, 0, true))
    case Block(k, _, parts) =>
      IsBlockoid(k) && forall p :: p in parts ==> (p.Brace? || p.Block?) && Grammar(p, 0, true)
    case Node(k, kind, _, l, r) =>
      Admits(level, k) && InLevel(kind, k) &&
      match RuleOf(k)
      case BINARY => l.Some? && r.Some? && Grammar(l.value, k, lead) && Grammar(r.value, k + 1, k < 10)
      case REVERSE => l.Some? && r.Some? && Grammar(l.value, k + 1, lead) && Grammar(r.value, k, true)
      case PREFIX => l.None? && r.Some? && Grammar(r.value, k, k < 10) && (kind.MINUS? ==> lead)
      case SUFFIX => l.Some? && Grammar(l.value, k, lead) && (r.Some? ==> k == CALL_LEVEL && Grammar(r.value, 0, true))
  }

  /** A tree of a level holds no looser operator, except a unary minus in front; its ends need no padding. */
  predicate Tight(f: seq<Token>, level: nat, lead: bool) {
    && f != [] && !OneSided(f[0].kind) && !OneSided(f[|f| - 1].kind)
    && forall j, m :: 0 <= j < |f| && 0 <= m < level && m != CALL_LEVEL && InLevel(f[j].kind, m) ==>
        j == 0 && lead && m == 10 && f[0].kind.MINUS?
  }

  lemma TightOne(tok: Token, level: nat, lead: bool)
    requires Atomic(tok.kind) || IsOpenBrace(tok.kind) || IsBlockoid(tok.kind)
    ensures Tight([tok], level, lead)
  {
  }

  lemma {:induction false} GrammarIsTight(t: Tree, level: nat, lead: bool)
    requires Grammar(t, level, lead)
    ensures Tight(Flatten(t), level, lead)
    decreases t
  {
    hide Tight, InLevel, Atomic;
    match t
    case Leaf(tok) => TightOne(tok, level, lead);
    case Brace(_, _, _) => TightOne(Flatten(t)[0], level, lead);
    case Block(_, _, _) => TightOne(Flatten(t)[0], level, lead);
    case Node(k, kind, x, l, r) =>
      FlattenNode(t);
      match RuleOf(k) {
        case PREFIX =>
          GrammarIsTight(r.value, k, k < 10);
          TightPrefix(Token(kind, x, FlattenOpt(l)), FlattenOpt(r), level, k, lead);
        case SUFFIX =>
          GrammarIsTight(l.value, k, lead);
          TightSuffix(FlattenOpt(l), Token(kind, x, FlattenOpt(r)), level, k, lead);
        case BINARY =>
          GrammarIsTight(l.value, k, lead);
          GrammarIsTight(r.value, k + 1, k < 10);
          TightMiddle(FlattenOpt(l), Token(kind, x, []), FlattenOpt(r), level, k, lead);
        case REVERSE =>
          GrammarIsTight(l.value, k + 1, lead);
          GrammarIsTight(r.value, k, true);
          TightMiddle(FlattenOpt(l), Token(kind, x, []), FlattenOpt(r), level, k, lead);
      }
  }

  lemma TightPrefix(op: Token, right: seq<Token>, level: nat, k: nat, lead: bool)
    requires Admits(level, k) && RuleOf(k).PREFIX? && InLevel(op.kind, k) && (op.kind.MINUS? ==> lead)
    requires Tight(right, k, k < 10)
    ensures Tight([op] + right, level, lead)
  {
  }

  lemma TightSuffix(left: seq<Token>, op: Token, level: nat, k: nat, lead: bool)
    requires Admits(level, k) && RuleOf(k).SUFFIX? && InLevel(op.kind, k) && Tight(left, k, lead)
    ensures Tight(left + [op], level, lead)
  {
  }

  lemma TightMiddle(left: seq<Token>, op: Token, right: seq<Token>, level: nat, k: nat, lead: bool)
    requires Admits(level, k) && InLevel(op.kind, k) && (RuleOf(k).BINARY? || RuleOf(k).REVERSE?)
    requires Tight(left, k, lead) || Tight(left, k + 1, lead)
    requires Tight(right, k, k < 10) || Tight(right, k + 1, k < 10)
    ensures Tight(left + [op] + right, level, lead)
  {
  }

  /** No level looser than a tree's own splits its tokens. */
  lemma TightDoesNotSplit(f: seq<Token>, level: nat, lead: bool, m: nat)
    requires |f| >= 2 && level < LEVELS && Tight(f, level, lead) && m < level
    requires m == CALL_LEVEL ==> !IsOpenBrace(f[|f| - 1].kind)
    ensures Split(f, m) == None
  {
    if Split(f, m).Some? {
      var i := Split(f, m).value;
      SplitPlace(f, m, i);
    }
  }

  /** Parsing passes over the levels that do not split. */
  lemma {:induction false} Descend(f: seq<Token>, level: nat, k: nat)
    requires Closed(f) && level <= k < LEVELS
    requires forall m :: level <= m < k ==> Split(f, m) == None && StepBack(f, m) == m
    ensures Parse(f, level) == Parse(f, k)
    decreases k - level
  {
    if level < k {
      assert Split(f, level) == None && StepBack(f, level) == level;
      PadOfClosed(f);
      Descend(f, level + 1, k);
    }
  }

  /** Parsing at the level that splits, seen from any looser one. */
  lemma ParsesAt(f: seq<Token>, level: nat, k: nat, i: nat, lead: bool)
    requires Closed(f) && Admits(level, k) && Tight(f, k, lead) && Split(f, k) == Some(i)
    requires k == DOT_LEVEL ==> !IsOpenBrace(f[|f| - 1].kind)
    requires k == CALL_LEVEL ==> IsOpenBrace(f[|f| - 1].kind) && !f[|f| - 1].kind.LCURL?
    ensures Parse(f, level) == ParseSplit(f, k, i)
  {
    PadOfClosed(f);
    if level > k {
      assert StepBack(f, level) == k;
    } else {
      forall m | level <= m < k
        ensures Split(f, m) == None && StepBack(f, m) == m
      {
        TightDoesNotSplit(f, k, lead, m);
      }
      Descend(f, level, k);
      assert StepBack(f, k) == k;
    }
  }

  /** A tight side has no token of the operator's level, so the split is at the operator. */
  lemma SplitsAtOperator(left: seq<Token>, op: Token, right: seq<Token>, k: nat, lead: bool)
    requires k < LEVELS && InLevel(op.kind, k) && left != [] && right != []
    requires RuleOf(k).BINARY? || RuleOf(k).REVERSE?
    requires RuleOf(k).BINARY? ==> Tight(right, k + 1, k < 10)
    requires RuleOf(k).REVERSE? ==> Tight(left, k + 1, lead)
    ensures |left + [op] + right| >= 2 && Split(left + [op] + right, k) == Some(|left|)
  {
    hide Split;
    var f := left + [op] + right;
    SplitsInside(f, k, |left|);
  }

  /** Printing a tree of the grammar and parsing it gives the tree back. */
  lemma {:induction false} GrammarRoundTrip(t: Tree, level: nat, lead: bool)
    requires Grammar(t, level, lead)
    ensures Parse(Flatten(t), level) == Some(t)
    decreases t, 2
  {
    match t
    case Leaf(_) =>
    case Brace(_, _, body) =>
      if body == Leaf(EMPTY_TOKEN) {
        assert Parse([EMPTY_TOKEN], 0) == ParseSingle(EMPTY_TOKEN);
      } else {
        GrammarRoundTrip(body, 0, true);
      }
    case Block(_, _, parts) => PartsRoundTrip(parts);
    case Node(k, kind, x, l, r) =>
      NodeRoundTrip(t, level, lead);
  }

  lemma {:induction false} PartsRoundTrip(parts: seq<Tree>)
    requires forall p :: p in parts ==> (p.Brace? || p.Block?) && Grammar(p, 0, true)
    ensures ParseParts(FlattenParts(parts)) == Some(parts)
    decreases parts
  {
    if parts != [] {
      GrammarRoundTrip(parts[0], 0, true);
      PartsRoundTrip(parts[1..]);
      var f := Flatten(parts[0]);
      assert |f| == 1;
      assert (f + FlattenParts(parts[1..]))[1..] == FlattenParts(parts[1..]);
      assert [parts[0]] + parts[1..] == parts;
    }
  }

  lemma TightIsClosed(f: seq<Token>, level: nat, lead: bool)
    requires Tight(f, level, lead) && |f| >= 2
    ensures Closed(f)
  {
  }

  /** The right operand of a dot ends in an atom. */
  lemma DotEnds(t: Tree, lead: bool)
    requires Grammar(t, LEVELS, lead)
    ensures |Flatten(t)| == 1 && !IsOpenBrace(Flatten(t)[0].kind)
  {
  }

  /** Only a call or a subscript ends in a brace where a dot could be split off. */
  lemma NodeEnds(t: Tree, lead: bool)
    requires t.Node? && Grammar(t, t.level, lead)
    ensures var last := Flatten(t)[|Flatten(t)| - 1].kind;
      (t.level == DOT_LEVEL ==> !IsOpenBrace(last)) && (t.level == CALL_LEVEL ==> IsOpenBrace(last) && !last.LCURL?)
  {
    FlattenNode(t);
    if t.level == DOT_LEVEL { DotEnds(t.right.value, false); }
  }

  /** The table splits a tree's tokens at its operator. */
  lemma OperatorSplits(t: Tree, lead: bool)
    requires t.Node? && Grammar(t, t.level, lead) && (RuleOf(t.level).BINARY? || RuleOf(t.level).REVERSE?)
    ensures |Flatten(t)| >= 2 && Split(Flatten(t), t.level) == Some(|FlattenOpt(t.left)|)
  {
    var left, right := FlattenOpt(t.left), FlattenOpt(t.right);
    FlattenNode(t);
    if RuleOf(t.level).BINARY? {
      GrammarIsTight(t.right.value, t.level + 1, t.level < 10);
    } else {
      GrammarIsTight(t.left.value, t.level + 1, lead);
    }
    hide Flatten, Grammar, Split, Tight;
    SplitsAtOperator(left, Token(t.kind, t.text, []), right, t.level, lead);
  }

  lemma {:induction false} NodeRoundTrip(t: Tree, level: nat, lead: bool)
    requires t.Node? && Grammar(t, level, lead)
    ensures Parse(Flatten(t), level) == Some(t)
    decreases t, 1
  {
    var f, k := Flatten(t), t.level;
    assert Grammar(t, k, lead) && Admits(level, k) && InLevel(t.kind, k);
    FlattenNode(t);
    hide Parse, ParseSplit, Split, Flatten, Tight, StepBack, Grammar, InLevel;
    GrammarIsTight(t, k, lead);
    NodeEnds(t, lead);
    OperandsRoundTrip(t, lead);
    var i := NodeSplits(t, lead);
    TightIsClosed(f, k, lead);
    ParsesAt(f, level, k, i, lead);
    GrammarIsShaped(t, lead);
    Rebuilds(t, f, i);
  }

  lemma GrammarIsShaped(t: Tree, lead: bool)
    requires t.Node? && Grammar(t, t.level, lead)
    ensures Shaped(t)
  {
  }

  /** The level of a tree splits its tokens into those of its operands. */
  lemma NodeSplits(t: Tree, lead: bool) returns (i: nat)
    requires t.Node? && Grammar(t, t.level, lead) && |Flatten(t)| >= 1
    ensures |Flatten(t)| >= 2 && Split(Flatten(t), t.level) == Some(i) && i < |Flatten(t)|
    ensures Flatten(t)[i].kind == t.kind && Flatten(t)[i].text == t.text
    ensures Flatten(t)[i].children == match RuleOf(t.level)
      case PREFIX => FlattenOpt(t.left) case SUFFIX => FlattenOpt(t.right) case _ => []
    ensures !RuleOf(t.level).PREFIX? ==> Flatten(t)[..i] == FlattenOpt(t.left)
    ensures !RuleOf(t.level).SUFFIX? ==> Flatten(t)[i + 1..] == FlattenOpt(t.right)
  {
    hide Split, Flatten;
    var f, k := Flatten(t), t.level;
    FlattenNode(t);
    match RuleOf(k) {
      case PREFIX =>
        i := 0;
        SplitsFirst(f, k);
      case SUFFIX =>
        i := |f| - 1;
        SplitsLast(f, k);
      case _ =>
        i := |FlattenOpt(t.left)|;
        OperatorSplits(t, lead);
    }
  }

  lemma {:induction false} OperandsRoundTrip(t: Tree, lead: bool)
    requires t.Node? && Grammar(t, t.level, lead)
    ensures t.left.Some? ==> Parse(Flatten(t.left.value), LeftLevel(t.level)) == t.left
    ensures t.right.Some? ==> Parse(Flatten(t.right.value), RightLevel(t.level)) == t.right
    decreases t, 0
  {
    hide Parse, Flatten, InLevel;
    var k := t.level;
    match RuleOf(k) {
      case PREFIX =>
        GrammarRoundTrip(t.right.value, k, k < 10);
      case SUFFIX =>
        GrammarRoundTrip(t.left.value, k, lead);
        if t.right.Some? { GrammarRoundTrip(t.right.value, 0, true); }
      case BINARY =>
        GrammarRoundTrip(t.left.value, k, lead);
        GrammarRoundTrip(t.right.value, k + 1, k < 10);
      case REVERSE =>
        GrammarRoundTrip(t.left.value, k + 1, lead);
        GrammarRoundTrip(t.right.value, k, true);
    }
  }

  /** No two trees of the grammar print alike. */
  lemma GrammarIsUnambiguous(t: Tree, u: Tree, level: nat, lead: bool)
    requires Grammar(t, level, lead) && Grammar(u, level, lead) && Flatten(t) == Flatten(u)
    ensures t == u
  {
    GrammarRoundTrip(t, level, lead);
    GrammarRoundTrip(u, level, lead);
  }

  // ----- alternating lists -----

  /** Whether the kind is an infix operator of this level or a tighter one. */
  predicate Infix(k: Kind, level: nat) {
    exists m :: level <= m < LEVELS && InLevel(k, m) && (RuleOf(m).BINARY? || RuleOf(m).REVERSE?)
  }

  predicate Alternates(ts: seq<Token>, level: nat) {
    && |ts| % 2 == 1
    && forall j :: 0 <= j < |ts| ==>
        if j % 2 == 0 then Atomic(ts[j].kind) else Infix(ts[j].kind, level) && ts[j].children == []
  }

  lemma AlternatingStep(ts: seq<Token>, level: nat)
    requires Alternates(ts, level) && |ts| != 1
    ensures |ts| >= 3 && level < LEVELS
    ensures Parse(ts, level) ==
      if Split(ts, level).Some? then ParseSplit(ts, level, Split(ts, level).value) else Parse(ts, level + 1)
  {
    assert Atomic(ts[0].kind) && Infix(ts[1].kind, level) && Atomic(ts[|ts| - 1].kind);
    AtomEnds(ts, level);
    hide Infix, Parse, ParseSplit, Split;
    PadOfClosed(ts);
    ParseStep(ts, level);
  }

  /** Atoms with infix operators between them always parse, and the tree holds just these tokens. */
  lemma {:induction false} AlternatingParses(ts: seq<Token>, level: nat)
    requires Alternates(ts, level) && level <= LEVELS
    ensures Parse(ts, level).Some? && Flatten(Parse(ts, level).value) == ts
    decreases |ts|, LEVELS - level
  {
    hide Parse, ParseSplit, Split, Flatten, Infix, Atomic;
    if |ts| == 1 {
      AtomParses(ts, level);
    } else {
      AlternatingStep(ts, level);
      if Split(ts, level).Some? {
        AlternatingSplits(ts, level, Split(ts, level).value);
      } else {
        AlternatesTighter(ts, level);
        AlternatingParses(ts, level + 1);
      }
    }
  }

  lemma AtomParses(ts: seq<Token>, level: nat)
    requires |ts| == 1 && Alternates(ts, level)
    ensures Parse(ts, level).Some? && Flatten(Parse(ts, level).value) == ts
  {
    assert ts == [ts[0]];
  }

  lemma AtomEnds(ts: seq<Token>, level: nat)
    requires |ts| >= 3 && Infix(ts[1].kind, level) && Atomic(ts[|ts| - 1].kind)
    ensures StepBack(ts, level) == level < LEVELS
  {
  }

  lemma InfixIsTighter(k: Kind, level: nat)
    requires Infix(k, level) && level < LEVELS && !((RuleOf(level).BINARY? || RuleOf(level).REVERSE?)
        && InLevel(k, level))
    ensures Infix(k, level + 1)
  {
    var m :| level <= m < LEVELS && InLevel(k, m) && (RuleOf(m).BINARY? || RuleOf(m).REVERSE?);
    assert level + 1 <= m;
  }

  lemma AlternatesTighter(ts: seq<Token>, level: nat)
    requires Alternates(ts, level) && |ts| >= 3 && level < LEVELS && Split(ts, level) == None
    ensures Alternates(ts, level + 1)
  {
    hide Infix, InLevel;
    forall j | 0 <= j < |ts| && j % 2 == 1
      ensures Infix(ts[j].kind, level + 1)
    {
      InfixIsTighter(ts[j].kind, level);
    }
  }

  lemma AlternatesPlace(ts: seq<Token>, level: nat, i: nat)
    requires Alternates(ts, level) && |ts| >= 3 && level < LEVELS && Split(ts, level) == Some(i)
    ensures 0 < i < |ts| - 1 && i % 2 == 1 && (RuleOf(level).BINARY? || RuleOf(level).REVERSE?)
  {
    SplitPlace(ts, level, i);
    assert Atomic(ts[0].kind) && Atomic(ts[|ts| - 1].kind);
  }

  lemma AlternatesSlice(ts: seq<Token>, level: nat, lo: nat, hi: nat, tighter: nat)
    requires Alternates(ts, level) && lo < hi <= |ts| && lo % 2 == 0 && hi % 2 == 1
    requires forall j :: lo <= j < hi && j % 2 == 1 ==> Infix(ts[j].kind, tighter)
    ensures Alternates(ts[lo..hi], tighter)
  {
    hide Infix, Atomic;
    var a := ts[lo..hi];
    forall j | 0 <= j < |a|
      ensures if j % 2 == 0 then Atomic(a[j].kind) else Infix(a[j].kind, tighter) && a[j].children == []
    {
      assert a[j] == ts[lo + j] && (lo + j) % 2 == j % 2;
    }
  }

  lemma AlternatesSides(ts: seq<Token>, level: nat, i: nat)
    requires Alternates(ts, level) && |ts| >= 3 && level < LEVELS && Split(ts, level) == Some(i)
    ensures 0 < i < |ts| - 1 && (RuleOf(level).BINARY? || RuleOf(level).REVERSE?) && ts[i].children == []
    ensures Alternates(ts[..i], if RuleOf(level).REVERSE? then level + 1 else level)
    ensures Alternates(ts[i + 1..], if RuleOf(level).BINARY? then level + 1 else level)
  {
    hide Split, InLevel, Infix, Atomic;
    AlternatesPlace(ts, level, i);
    SplitIsOutermost(ts, level, i);
    forall j | 0 <= j < |ts| && j % 2 == 1 && (if RuleOf(level).BINARY? then i < j else j < i)
      ensures Infix(ts[j].kind, level + 1)
    {
      InfixIsTighter(ts[j].kind, level);
    }
    AlternatesSlice(ts, level, 0, i, if RuleOf(level).REVERSE? then level + 1 else level);
    AlternatesSlice(ts, level, i + 1, |ts|, if RuleOf(level).BINARY? then level + 1 else level);
    assert ts[..i] == ts[0..i] && ts[i + 1..] == ts[i + 1..|ts|];
  }

  lemma {:induction false} AlternatingSplits(ts: seq<Token>, level: nat, i: nat)
    requires Alternates(ts, level) && |ts| >= 3 && level < LEVELS && Split(ts, level) == Some(i)
    ensures ParseSplit(ts, level, i).Some? && Flatten(ParseSplit(ts, level, i).value) == ts
    decreases |ts|, 0
  {
    hide Split, Parse, Flatten, Alternates;
    AlternatesSides(ts, level, i);
    var rule, a, b := RuleOf(level), ts[..i], ts[i + 1..];
    AlternatingParses(a, if rule.REVERSE? then level + 1 else level);
    AlternatingParses(b, if rule.BINARY? then level + 1 else level);
    FlattenNode(ParseSplit(ts, level, i).value);
    assert ts[i] == Token(ts[i].kind, ts[i].text, []);
    assert a + [ts[i]] + b == ts;
  }

  /** On an alternating list the tree is unique: any tree that obeys the table's levels
      and associativity and holds just these tokens is the one that parsing gives. */
  lemma OrderedIsParse(t: Tree, level: nat)
    requires Ordered(t, level) && Alternates(Flatten(t), 0)
    ensures Parse(Flatten(t), level) == Some(t)
  {
    OrderedIsGrammar(t, level, true);
    GrammarRoundTrip(t, level, true);
  }

  /** A tree of an alternating list has atoms at its leaves and infix operators between. */
  lemma {:induction false} OrderedIsGrammar(t: Tree, level: nat, lead: bool)
    requires Ordered(t, level) && Alternates(Flatten(t), 0)
    ensures Grammar(t, level, lead)
    decreases t
  {
    hide Alternates, Infix, InLevel;
    match t
    case Node(k, kind, x, l, r) =>
      InfixNode(t, level);
      OrderedIsGrammar(l.value, if RuleOf(k).REVERSE? then k + 1 else k, lead);
      OrderedIsGrammar(r.value, if RuleOf(k).BINARY? then k + 1 else k, if RuleOf(k).BINARY? then k < 10 else true);
    case _ => AtomOnly(t);
  }

  lemma AtomOnly(t: Tree)
    requires !t.Node? && Ordered(t, 0) && Alternates(Flatten(t), 0)
    ensures t.Leaf? && Atomic(t.tok.kind)
  {
    assert Atomic(Flatten(t)[0].kind);
  }

  lemma InfixNode(t: Tree, level: nat)
    requires t.Node? && Ordered(t, level) && Alternates(Flatten(t), 0)
    ensures RuleOf(t.level).BINARY? || RuleOf(t.level).REVERSE?
    ensures Alternates(Flatten(t.left.value), 0) && Alternates(Flatten(t.right.value), 0)
  {
    hide Ordered;
    var f, left, right := Flatten(t), FlattenOpt(t.left), FlattenOpt(t.right);
    OrderedIsShaped(t, level);
    FlattenNode(t);
    var i := match RuleOf(t.level) case PREFIX => 0 case SUFFIX => |f| - 1 case _ => |left|;
    assert f[i].kind == t.kind;
    OperatorIsInfix(t.kind, t.level, f, i);
    hide Alternates, Flatten, FlattenOpt, InLevel;
    assert i == |left| && f == left + [f[i]] + right;
    assert f[0..i] == left;
    assert f[i + 1..|f|] == right;
    AlternatesHalves(f, i);
  }

  lemma AlternatesHalves(f: seq<Token>, i: nat)
    requires Alternates(f, 0) && i < |f| && i % 2 == 1
    ensures Alternates(f[0..i], 0) && Alternates(f[i + 1..|f|], 0)
  {
    hide Infix, Atomic;
    AlternatesSlice(f, 0, 0, i, 0);
    AlternatesSlice(f, 0, i + 1, |f|, 0);
  }

  lemma OrderedIsShaped(t: Tree, level: nat)
    requires t.Node? && Ordered(t, level)
    ensures Shaped(t) && InLevel(t.kind, t.level)
  {
  }

  /** No atom is an operator, so an operator of an alternating list is at an odd place. */
  lemma OperatorIsInfix(kind: Kind, k: nat, f: seq<Token>, i: nat)
    requires k < LEVELS && InLevel(kind, k) && Alternates(f, 0) && i < |f| && f[i].kind == kind
    requires (RuleOf(k).PREFIX? ==> i == 0) && (RuleOf(k).SUFFIX? ==> i == |f| - 1)
    ensures i % 2 == 1 && (RuleOf(k).BINARY? || RuleOf(k).REVERSE?)
  {
    AtPlace(f, i);
  }

  lemma AtPlace(f: seq<Token>, i: nat)
    requires Alternates(f, 0) && i < |f|
    ensures if i % 2 == 0 then Atomic(f[i].kind) else Infix(f[i].kind, 0)
  {
  }

  // ----- the parser itself -----

  /** Scans a list for the operator of a level: at an end, from the back, or from the front. */
  method Scan(ts: seq<Token>, level: nat) returns (at: Option<nat>)
    requires |ts| >= 2 && level < LEVELS
    ensures at == Split(ts, level)
  {
    at := None;
    match RuleOf(level) {
      case PREFIX =>
        if InLevel(ts[0].kind, level) { at := Some(0); }
      case SUFFIX =>
        if InLevel(ts[|ts| - 1].kind, level) { at := Some(|ts| - 1); }
      case BINARY =>
        var t := |ts| - 2;
        while t > 0
          invariant 0 <= t <= |ts| - 2 && FindBack(ts, level, |ts| - 2) == FindBack(ts, level, t)
        {
          if InLevel(ts[t].kind, level) { return Some(t); }
          t := t - 1;
        }
      case REVERSE =>
        var t := 1;
        while t < |ts| - 1
          invariant t <= |ts| - 1 && FindForward(ts, level, 1) == FindForward(ts, level, t)
        {
          if InLevel(ts[t].kind, level) { return Some(t); }
          t := t + 1;
        }
    }
  }

  method ParsePrecedence(list: seq<Token>, level: nat) returns (r: Option<Tree>)
    ensures r == Parse(list, level)
    decreases Weight(list), if level < LEVELS then LEVELS - level else 0, 2
  {
    hide Split;
    if level >= LEVELS && |list| > 1 { return None; }
    if list == [] { return Some(Leaf(EMPTY_TOKEN)); }
    if |list| == 1 {
      assert list == [list[0]];
      r := PrecSingle(list[0]);
      return;
    }
    var ts := PadEnds(list);
    var k := Back(ts, level);
    var at := Scan(ts, k);
    if at.Some? {
      r := ParseSides(ts, k, at.value);
    } else {
      if k != level { StepBackSplits(ts, level); }
      r := ParsePrecedence(ts, level + 1);
    }
  }

  method PadEnds(list: seq<Token>) returns (ts: seq<Token>)
    requires |list| >= 2
    ensures ts == Pad(list)
  {
    hide Weight;
    var front, back := [], [];
    if OneSided(list[0].kind) { front := [EMPTY_TOKEN]; }
    if OneSided(list[|list| - 1].kind) { back := [EMPTY_TOKEN]; }
    ts := front + list + back;
  }

  method Back(ts: seq<Token>, level: nat) returns (k: nat)
    requires |ts| >= 2
    ensures k == StepBack(ts, level)
  {
    k := level;
    if level == DOT_LEVEL {
      var end := ts[|ts| - 1].kind;
      if end.LPAR? || end.LBRA? { k := level - 1; }
    }
  }

  method PrecSingle(t: Token) returns (r: Option<Tree>)
    ensures r == ParseSingle(t)
    decreases Weight([t]), 0, 1
  {
    if IsOpenBrace(t.kind) {
      var body := ParsePrecedence(t.children, 0);
      r := if body.Some? then Some(Brace(t.kind, t.text, body.value)) else None;
    } else if IsBlockoid(t.kind) {
      var parts := PrecBlock(t.children);
      r := if parts.Some? then Some(Block(t.kind, t.text, parts.value)) else None;
    } else {
      r := Some(Leaf(t));
    }
  }

  lemma PartsStep(ts: seq<Token>, i: nat)
    requires i < |ts|
    ensures Weight([ts[i]]) <= Weight(ts)
    ensures ParseParts(ts[i..]) ==
      var first, rest := ParseSingle(ts[i]), ParseParts(ts[i + 1..]);
      if first.Some? && rest.Some? then Some([first.value] + rest.value) else None
  {
    WeightAround(ts, i);
    assert ts[i..][1..] == ts[i + 1..] && ts[i..][0] == ts[i];
  }

  /** The parts of a block structure, one after the other. */
  method PrecBlock(children: seq<Token>) returns (r: Option<seq<Tree>>)
    ensures r == ParseParts(children)
    decreases Weight(children), 0, |children| + 1
  {
    var parts := [];
    var i := 0;
    assert children[0..] == children;
    PrependEnds(parts, ParseParts(children));
    assert ParseParts(children[|children|..]) == Some([]);
    hide ParseParts, Weight, ParseSingle;
    while i < |children|
      invariant i <= |children|
      invariant ParseParts(children) == Prepend(parts, ParseParts(children[i..]))
    {
      PartsStep(children, i);
      var part := PrecSingle(children[i]);
      if part.None? { return None; }
      PrependTwice(parts, part.value, ParseParts(children[i + 1..]));
      parts := parts + [part.value];
      i := i + 1;
    }
    PrependEnds(parts, None);
    r := Some(parts);
  }

  lemma PrependEnds(parts: seq<Tree>, rest: Option<seq<Tree>>)
    ensures Prepend([], rest) == rest && Prepend(parts, Some([])) == Some(parts)
  {
    if rest.Some? { assert [] + rest.value == rest.value; }
    assert parts + [] == parts;
  }

  ghost function Prepend(parts: seq<Tree>, rest: Option<seq<Tree>>): Option<seq<Tree>> {
    if rest.Some? then Some(parts + rest.value) else None
  }

  lemma PrependTwice(parts: seq<Tree>, t: Tree, rest: Option<seq<Tree>>)
    ensures Prepend(parts, Prepend([t], rest)) == Prepend(parts + [t], rest)
  {
    if rest.Some? { assert parts + ([t] + rest.value) == (parts + [t]) + rest.value; }
  }

  method ParseSides(ts: seq<Token>, level: nat, i: nat) returns (r: Option<Tree>)
    requires |ts| >= 2 && level < LEVELS && Split(ts, level) == Some(i)
    ensures r == ParseSplit(ts, level, i)
    decreases Weight(ts), 0, 0
  {
    hide Split, Parse, Weight;
    WeightAround(ts, i);
    var rule, op := RuleOf(level), ts[i];
    var left, right;
    if rule.PREFIX? {
      left := Inside(op.children);
    } else {
      var t := ParsePrecedence(ts[..i], if rule.REVERSE? then level + 1 else level);
      left := OptTree(ts, t);
    }
    if rule.SUFFIX? {
      right := Inside(op.children);
    } else {
      var t := ParsePrecedence(ts[i + 1..], if rule.BINARY? then level + 1 else level);
      right := OptTree(ts, t);
    }
    r := if left.Some? && right.Some? then Some(Node(level, op.kind, op.text, left.value, right.value)) else None;
  }

  /** The tokens inside an operator, when there are any. */
  method Inside(children: seq<Token>) returns (r: Option<Option<Tree>>)
    ensures r == OptTree(children, Parse(children, 0))
    decreases Weight(children), LEVELS, 3
  {
    if children == [] { return Some(None); }
    var t := ParsePrecedence(children, 0);
    r := OptTree(children, t);
  }
}
