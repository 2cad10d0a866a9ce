/** The block parser: it matches braces, gives every block structure its header and body, and
    puts in the semicolons that C's grammar has and this one needs. */
module Blocks {
  import opened Basics
  import opened Precedence

  /** The mark of a token that the parser made itself. */
  const MADE := -1

  const SEMI_TOKEN := Token(SEMI, MADE, [])

  function EndBrace(k: Kind): Kind
    requires IsOpenBrace(k)
  {
    if k.LBRA? then RBRA else if k.LPAR? then RPAR else RCURL
  }

  predicate IsLoopoid(k: Kind) {
    k.FOR? || k.FOREACH? || k.WHILE? || k.FORINDEX?
  }

  predicate IsClosing(k: Kind) {
    k.RPAR? || k.RBRA? || k.RCURL?
  }

  /** A bare `else` or `elsif` ends a block too. */
  predicate IsBlockEnd(k: Kind) {
    IsClosing(k) || k.ELSIF? || k.ELSE?
  }

  /** Whether a semicolon belongs between a token, with `before` in front of it, and what follows. */
  predicate NeedsSemi(t: Token, before: seq<Token>, rest: seq<Token>) {
    if rest == [] || rest[0].kind.SEMI? || IsBlockEnd(rest[0].kind) then false
    else if t.kind.IF? then before == [] || before[|before| - 1].kind.SEMI?
    else if t.kind.FUNC? then before != [] && before[|before| - 1].kind.ASSIGN?
    else IsLoopoid(t.kind)
  }

  /** No longer, and of the same tokens. */
  predicate Behind(rest: seq<Token>, list: seq<Token>) {
    |rest| <= |list| && forall t :: t in rest ==> t in list
  }

  /** Tokens up to an end, which is dropped; the top level and a braceless block may also just stop. */
  function ParseBlock(end: Option<Kind>, list: seq<Token>, done: seq<Token>): (r: Option<(seq<Token>, seq<Token>)>)
    ensures r.Some? ==> Behind(r.value.1, list)
    decreases |list|, 1
  {
    if Stops(end, list) then if end == None || end == Some(SEMI) then Some((done, list)) else None
    else
      var r := ParseToken(list);
      if r.None? then None
      else
        var (t, rest) := r.value;
        if end == Some(t.kind) then Some((done, rest)) else ParseBlock(end, rest, Added(done, t, rest))
  }

  predicate Stops(end: Option<Kind>, list: seq<Token>) {
    list == [] || (IsBlockEnd(list[0].kind) && end != Some(list[0].kind)) || (end == Some(SEMI) && list[0].kind.COMMA?)
  }

  function Added(done: seq<Token>, t: Token, rest: seq<Token>): seq<Token> {
    done + [t] + if NeedsSemi(t, done, rest) then [SEMI_TOKEN] else []
  }

  /** One token with all that belongs inside it. */
  function ParseToken(list: seq<Token>): (r: Option<(Token, seq<Token>)>)
    requires list != []
    ensures r.Some? ==> |r.value.1| < |list| && Behind(r.value.1, list)
    ensures r.Some? ==> r.value.0.kind == list[0].kind && r.value.0.text == list[0].text
    decreases |list|, 0
  {
    var t, rest := list[0], list[1..];
    if IsOpenBrace(t.kind) then
      var b := ParseBlock(Some(EndBrace(t.kind)), rest, []);
      if b.None? then None else Some((t.(children := b.value.0), b.value.1))
    else if IsBlockoid(t.kind) then
      var b := ParseBlockoid(t.kind, rest);
      if b.None? then None else Some((t.(children := b.value.0), b.value.1))
    else Some((t, rest))
  }

  /** The optional header, the body, and for an `if` the chain of alternatives. */
  function ParseBlockoid(kind: Kind, list: seq<Token>): (r: Option<(seq<Token>, seq<Token>)>)
    ensures r.Some? ==> Behind(r.value.1, list)
    decreases |list|, 4
  {
    var head := ParseHeader(list);
    if head.None? then None
    else
      var body := ParseBody(head.value.1);
      if body.None? then None
      else
        var two := head.value.0 + [body.value.0];
        var all := if kind.IF? then ParseChain(body.value.1, two) else Some((two, body.value.1));
        if all.None? || !Proper(kind, two[0].kind) then None else all
  }

  /** A structure other than a function has a header, an `else` has none. */
  predicate Proper(kind: Kind, first: Kind) {
    kind.FUNC? || if kind.ELSE? then first.LCURL? else first.LPAR?
  }

  function ParseHeader(list: seq<Token>): (r: Option<(seq<Token>, seq<Token>)>)
    ensures r.Some? ==> Behind(r.value.1, list)
    decreases |list|, 3
  {
    if list == [] then None
    else if list[0].kind.LPAR? then
      var r := ParseToken(list);
      if r.None? then None else Some(([r.value.0], r.value.1))
    else Some(([], list))
  }

  /** A block in braces, one structure by itself, or a statement up to its semicolon. */
  function ParseBody(list: seq<Token>): (r: Option<(Token, seq<Token>)>)
    ensures r.Some? ==> Behind(r.value.1, list)
    ensures r.Some? ==> r.value.0.kind.LCURL?
    decreases |list|, 3
  {
    if list == [] then None
    else if list[0].kind.LCURL? then ParseToken(list)
    else if IsBlockoid(list[0].kind) then
      var r := ParseToken(list);
      if r.None? then None else Some((Token(LCURL, MADE, [r.value.0]), r.value.1))
    else
      var r := ParseBlock(Some(SEMI), list, []);
      if r.None? then None else Some((Token(LCURL, MADE, r.value.0), r.value.1))
  }

  function ParseChain(list: seq<Token>, done: seq<Token>): (r: Option<(seq<Token>, seq<Token>)>)
    ensures r.Some? ==> Behind(r.value.1, list)
    decreases |list|, 3
  {
    if list == [] || !(list[0].kind.ELSIF? || list[0].kind.ELSE?) then Some((done, list))
    else
      var r := ParseToken(list);
      if r.None? then None
      else if list[0].kind.ELSE? then Some((done + [r.value.0], r.value.1))
      else ParseChain(r.value.1, done + [r.value.0])
  }

  // ----- nothing but semicolons is lost or added -----

  /** What the lexer makes: nothing inside any token, no empty tokens, no mark, and closing
      braces that say nothing else. */
  predicate Flat(list: seq<Token>) {
    forall t :: t in list ==>
      t.children == [] && t.text != MADE && !t.kind.EMPTY? && (IsClosing(t.kind) ==> t.text == 0)
  }

  /** A flat list without its semicolons. */
  function Shed(list: seq<Token>): seq<Token> {
    if list == [] then [] else (if list[0].kind.SEMI? then [] else [list[0]]) + Shed(list[1..])
  }

  /** The flat list that nested tokens stand for, without semicolons and without the braces the parser made. */
  function Show(ts: seq<Token>): seq<Token> {
    if ts == [] then [] else ShowOne(ts[0]) + Show(ts[1..])
  }

  function ShowOne(t: Token): seq<Token> {
    if t.kind.SEMI? then []
    else if !IsOpenBrace(t.kind) then [t.(children := [])] + Show(t.children)
    else if t.text == MADE then Show(t.children)
    else [t.(children := [])] + Show(t.children) + [Token(EndBrace(t.kind), 0, [])]
  }

  lemma {:induction false} ShowParts(a: seq<Token>, b: seq<Token>)
    ensures Show(a + b) == Show(a) + Show(b)
  {
    if a == [] {
      assert a + b == b;
    } else {
      assert (a + b)[1..] == a[1..] + b && (a + b)[0] == a[0];
      ShowParts(a[1..], b);
      Regroup(ShowOne(a[0]), Show(a[1..]), Show(b));
    }
  }

  lemma ShowSingle(t: Token)
    ensures Show([t]) == ShowOne(t)
  {
    assert [t][1..] == [];
  }

  /** The closing brace that a block's end stands for. */
  function Closing(end: Option<Kind>): seq<Token> {
    if end.Some? && IsClosing(end.value) then [Token(end.value, 0, [])] else []
  }

  lemma ShowAdded(done: seq<Token>, t: Token, rest: seq<Token>)
    ensures Show(Added(done, t, rest)) == Show(done) + ShowOne(t)
  {
    ShowSingle(t);
    ShowSingle(SEMI_TOKEN);
    hide Show, NeedsSemi;
    ShowParts(done, [t]);
    ShowParts(done + [t], [SEMI_TOKEN]);
    assert (Show(done) + ShowOne(t)) + [] == Show(done) + ShowOne(t);
    assert done + [t] + [] == done + [t];
  }

  lemma ShedOne(list: seq<Token>)
    requires list != []
    ensures Shed(list) == (if list[0].kind.SEMI? then [] else [list[0]]) + Shed(list[1..])
  {
  }

  /** A block shows what it took of the list, its closing brace included. */
  lemma {:induction false} BlockKeeps(end: Option<Kind>, list: seq<Token>, done: seq<Token>)
    requires Flat(list) && ParseBlock(end, list, done).Some?
    requires end.Some? ==> IsClosing(end.value) || end.value.SEMI?
    ensures var (all, rest) := ParseBlock(end, list, done).value;
      Show(done) + Shed(list) == Show(all) + Closing(end) + Shed(rest)
    decreases |list|, 1
  {
    hide Show, Shed, ShowOne;
    var (all, rest) := ParseBlock(end, list, done).value;
    if Stops(end, list) {
      assert Closing(end) == [] && Show(all) + [] == Show(all);
    } else {
      var (t, after) := ParseToken(list).value;
      TokenKeeps(list);
      if end == Some(t.kind) {
        EndShows(list, end.value);
        assert Show(done) + (Closing(end) + Shed(rest)) == Show(done) + Closing(end) + Shed(rest);
      } else {
        BlockKeeps(end, after, Added(done, t, after));
        ShowAdded(done, t, after);
        Regroup(Show(done), ShowOne(t), Shed(after));
      }
    }
  }

  /** A token that ends a block is shown as its closing brace, or not at all. */
  lemma EndShows(list: seq<Token>, end: Kind)
    requires Flat(list) && list != [] && list[0].kind == end && ParseToken(list).Some?
    requires IsClosing(end) || end.SEMI?
    ensures ShowOne(ParseToken(list).value.0) == Closing(Some(end))
  {
    assert list[0] in list;
    assert Show([]) == [] && [list[0]] + [] == [list[0]];
  }

  /** A token with its inside shows what it took of the list. */
  lemma {:induction false} TokenKeeps(list: seq<Token>)
    requires Flat(list) && list != [] && ParseToken(list).Some?
    ensures var (t, rest) := ParseToken(list).value; Shed(list) == ShowOne(t) + Shed(rest)
    decreases |list|, 0
  {
    var t, rest := list[0], list[1..];
    assert t in list && Flat(rest);
    ShedOne(list);
    hide Shed;
    if IsOpenBrace(t.kind) {
      BlockKeeps(Some(EndBrace(t.kind)), rest, []);
      var (inside, after) := ParseBlock(Some(EndBrace(t.kind)), rest, []).value;
      assert Show([]) == [] && [] + Shed(rest) == Shed(rest);
      assert t.(children := inside).(children := []) == t;
      BraceShows(t, Show(inside), Closing(Some(EndBrace(t.kind))), Shed(after));
    } else if IsBlockoid(t.kind) {
      BlockoidKeeps(t.kind, rest);
      var (inside, after) := ParseBlockoid(t.kind, rest).value;
      assert t.(children := inside).(children := []) == t;
      Regroup([t], Show(inside), Shed(after));
    } else {
      assert t.(children := []) == t && Show([]) == [] && [t] + [] == [t];
    }
  }

  lemma BraceShows(t: Token, inside: seq<Token>, closing: seq<Token>, rest: seq<Token>)
    ensures [t] + (inside + closing + rest) == [t] + inside + closing + rest
  {
  }

  lemma {:induction false} BlockoidKeeps(kind: Kind, list: seq<Token>)
    requires Flat(list) && ParseBlockoid(kind, list).Some?
    ensures var (inside, rest) := ParseBlockoid(kind, list).value; Shed(list) == Show(inside) + Shed(rest)
    decreases |list|, 4
  {
    hide Show, Shed, ShowOne, ParseHeader, ParseBody, ParseChain;
    var (header, list1) := ParseHeader(list).value;
    HeaderKeeps(list);
    var (body, list2) := ParseBody(list1).value;
    BodyKeeps(list1);
    ShowParts(header, [body]);
    ShowSingle(body);
    Regroup(Show(header), ShowOne(body), Shed(list2));
    if kind.IF? { ChainKeeps(list2, header + [body]); }
  }

  lemma {:induction false} HeaderKeeps(list: seq<Token>)
    requires Flat(list) && ParseHeader(list).Some?
    ensures var (inside, rest) := ParseHeader(list).value; Shed(list) == Show(inside) + Shed(rest)
    decreases |list|, 3
  {
    ShowNothing(Shed(list));
    if list[0].kind.LPAR? {
      TokenKeeps(list);
      ShowSingle(ParseToken(list).value.0);
    }
  }

  lemma ShowNothing(s: seq<Token>)
    ensures Show([]) == [] && [] + s == s
  {
  }

  lemma {:induction false} BodyKeeps(list: seq<Token>)
    requires Flat(list) && ParseBody(list).Some?
    ensures var (t, rest) := ParseBody(list).value; Shed(list) == ShowOne(t) + Shed(rest)
    decreases |list|, 3
  {
    hide Show, Shed, ParseToken, ParseBlock;
    assert list[0] in list;
    if list[0].kind.LCURL? {
      TokenKeeps(list);
    } else if IsBlockoid(list[0].kind) {
      TokenKeeps(list);
      ShowSingle(ParseToken(list).value.0);
    } else {
      BlockKeeps(Some(SEMI), list, []);
      ShowNothing(Shed(list));
      var (inside, rest) := ParseBlock(Some(SEMI), list, []).value;
      assert Show(inside) + [] == Show(inside);
    }
  }

  lemma {:induction false} ChainKeeps(list: seq<Token>, done: seq<Token>)
    requires Flat(list) && ParseChain(list, done).Some?
    ensures var (all, rest) := ParseChain(list, done).value; Show(done) + Shed(list) == Show(all) + Shed(rest)
    decreases |list|, 3
  {
    hide Show, Shed, ShowOne, ParseToken;
    if list != [] && (list[0].kind.ELSIF? || list[0].kind.ELSE?) {
      var (t, rest) := ParseToken(list).value;
      TokenKeeps(list);
      ShowParts(done, [t]);
      ShowSingle(t);
      Regroup(Show(done), ShowOne(t), Shed(rest));
      if !list[0].kind.ELSE? { ChainKeeps(rest, done + [t]); }
    }
  }

  // ----- the shape that the precedence parser works on -----

  /** No empty tokens; tokens inside braces and block structures only, and inside a block
      structure only braces and further structures. */
  predicate Clean(ts: seq<Token>) {
    ts == [] || (CleanOne(ts[0]) && Clean(ts[1..]))
  }

  predicate CleanOne(t: Token) {
    && !t.kind.EMPTY? && Clean(t.children)
    && (t.children != [] ==> IsOpenBrace(t.kind) || IsBlockoid(t.kind))
    && (IsBlockoid(t.kind) ==> forall c :: c in t.children ==> IsOpenBrace(c.kind) || IsBlockoid(c.kind))
  }

  lemma {:induction false} CleanParts(a: seq<Token>, b: seq<Token>)
    ensures Clean(a + b) <==> Clean(a) && Clean(b)
  {
    if a == [] {
      assert a + b == b;
    } else {
      assert (a + b)[1..] == a[1..] + b && (a + b)[0] == a[0];
      CleanParts(a[1..], b);
    }
  }

  lemma CleanSingle(t: Token)
    ensures Clean([t]) <==> CleanOne(t)
  {
    assert [t][1..] == [];
  }

  lemma {:induction false} CleanIsNested(ts: seq<Token>)
    requires Clean(ts)
    ensures Nested(ts) && Strip(ts) == ts
  {
    if ts != [] {
      CleanIsNested(ts[0].children);
      CleanIsNested(ts[1..]);
      assert [ts[0]] + ts[1..] == ts;
    }
  }

  lemma {:induction false} BlockIsClean(end: Option<Kind>, list: seq<Token>, done: seq<Token>)
    requires Flat(list) && Clean(done) && ParseBlock(end, list, done).Some?
    ensures Clean(ParseBlock(end, list, done).value.0)
    decreases |list|, 1
  {
    hide Clean, CleanOne;
    if !Stops(end, list) {
      var (t, rest) := ParseToken(list).value;
      TokenIsClean(list);
      if end != Some(t.kind) {
        CleanSingle(t);
        MadeSemiIsClean();
        CleanParts(done, [t]);
        CleanParts(done + [t], [SEMI_TOKEN]);
        assert done + [t] + [] == done + [t];
        BlockIsClean(end, rest, Added(done, t, rest));
      }
    }
  }

  lemma MadeSemiIsClean()
    ensures Clean([SEMI_TOKEN]) && Clean([])
  {
    CleanSingle(SEMI_TOKEN);
  }

  lemma {:induction false} TokenIsClean(list: seq<Token>)
    requires Flat(list) && list != [] && ParseToken(list).Some?
    ensures CleanOne(ParseToken(list).value.0)
    decreases |list|, 0
  {
    var t, rest := list[0], list[1..];
    assert t in list && Flat(rest);
    if IsOpenBrace(t.kind) {
      BlockIsClean(Some(EndBrace(t.kind)), rest, []);
    } else if IsBlockoid(t.kind) {
      BlockoidIsClean(t.kind, rest);
    }
  }

  /** The tokens inside a block structure: clean, and only braces and structures. */
  predicate Parts(ts: seq<Token>) {
    Clean(ts) && forall c :: c in ts ==> IsOpenBrace(c.kind) || IsBlockoid(c.kind)
  }

  lemma {:induction false} BlockoidIsClean(kind: Kind, list: seq<Token>)
    requires Flat(list) && ParseBlockoid(kind, list).Some?
    ensures Parts(ParseBlockoid(kind, list).value.0)
    decreases |list|, 4
  {
    hide Clean, CleanOne, ParseHeader, ParseBody, ParseChain;
    var (header, list1) := ParseHeader(list).value;
    HeaderIsClean(list);
    var (body, list2) := ParseBody(list1).value;
    BodyIsClean(list1);
    CleanSingle(body);
    CleanParts(header, [body]);
    if kind.IF? { ChainIsClean(list2, header + [body]); }
  }

  lemma {:induction false} HeaderIsClean(list: seq<Token>)
    requires Flat(list) && ParseHeader(list).Some?
    ensures Parts(ParseHeader(list).value.0)
    decreases |list|, 3
  {
    if list[0].kind.LPAR? {
      TokenIsClean(list);
      CleanSingle(ParseToken(list).value.0);
    }
  }

  lemma {:induction false} BodyIsClean(list: seq<Token>)
    requires Flat(list) && ParseBody(list).Some?
    ensures CleanOne(ParseBody(list).value.0)
    decreases |list|, 3
  {
    assert list[0] in list;
    if list[0].kind.LCURL? {
      TokenIsClean(list);
    } else if IsBlockoid(list[0].kind) {
      TokenIsClean(list);
      CleanSingle(ParseToken(list).value.0);
    } else {
      BlockIsClean(Some(SEMI), list, []);
    }
  }

  lemma {:induction false} ChainIsClean(list: seq<Token>, done: seq<Token>)
    requires Flat(list) && Parts(done) && ParseChain(list, done).Some?
    ensures Parts(ParseChain(list, done).value.0)
    decreases |list|, 3
  {
    hide Clean, CleanOne;
    if list != [] && (list[0].kind.ELSIF? || list[0].kind.ELSE?) {
      var (t, rest) := ParseToken(list).value;
      TokenIsClean(list);
      CleanSingle(t);
      CleanParts(done, [t]);
      if !list[0].kind.ELSE? { ChainIsClean(rest, done + [t]); }
    }
  }

  // ----- the whole parser -----

  /** From the lexer's list to the tree, or a parse error. */
  function ParseProgram(list: seq<Token>): Option<Tree> {
    var b := ParseBlock(None, list, []);
    if b.None? || b.value.1 != [] then None else Parse(b.value.0, 0)
  }

  /** Every accepted program: the tree holds the tokens of the text in their order; the two
      parsers together add and drop only semicolons, empty tokens and braces around bodies. */
  lemma ProgramKeepsTokens(list: seq<Token>)
    requires Flat(list) && ParseProgram(list).Some?
    ensures Show(Strip(Flatten(ParseProgram(list).value))) == Shed(list)
    ensures Ordered(ParseProgram(list).value, 0)
  {
    var (nested, rest) := ParseBlock(None, list, []).value;
    BlockKeeps(None, list, []);
    BlockIsClean(None, list, []);
    CleanIsNested(nested);
    Conserves(nested, 0);
    ParseOrders(nested, 0);
    ShowNothing(Shed(list));
    assert Shed([]) == [] && Show(nested) + [] + [] == Show(nested);
  }

  // ----- the methods -----

  method BuildBlock(end: Option<Kind>, tokens: seq<Token>) returns (r: Option<(seq<Token>, seq<Token>)>)
    ensures r == ParseBlock(end, tokens, [])
    decreases |tokens|, 1
  {
    var list, top := tokens, [];
    while !Stops(end, list)
      invariant Behind(list, tokens) && ParseBlock(end, tokens, []) == ParseBlock(end, list, top)
      decreases |list|
    {
      var one := BuildToken(list);
      if one.None? { return None; }
      var (t, rest) := one.value;
      list := rest;
      if end == Some(t.kind) { return Some((top, list)); }
      var semi := NeedsSemi(t, top, list);
      top := top + [t];
      if semi {
        top := top + [SEMI_TOKEN];
      } else {
        assert top == top + [];
      }
    }
    r := if end == None || end == Some(SEMI) then Some((top, list)) else None;
  }

  method BuildToken(list: seq<Token>) returns (r: Option<(Token, seq<Token>)>)
    requires list != []
    ensures r == ParseToken(list)
    decreases |list|, 0
  {
    var t, rest := list[0], list[1..];
    if IsOpenBrace(t.kind) {
      var b := BuildBlock(Some(EndBrace(t.kind)), rest);
      r := if b.None? then None else Some((t.(children := b.value.0), b.value.1));
    } else if IsBlockoid(t.kind) {
      var b := BuildBlockoid(t.kind, rest);
      r := if b.None? then None else Some((t.(children := b.value.0), b.value.1));
    } else {
      r := Some((t, rest));
    }
  }

  method BuildBlockoid(kind: Kind, tokens: seq<Token>) returns (r: Option<(seq<Token>, seq<Token>)>)
    ensures r == ParseBlockoid(kind, tokens)
    decreases |tokens|, 4
  {
    hide ParseToken, ParseBlock;
    var list, children := tokens, [];
    if list == [] { return None; }
    if list[0].kind.LPAR? {
      var c := BuildToken(list);
      if c.None? { return None; }
      children, list := [c.value.0], c.value.1;
    }
    var body := BuildBody(list);
    if body.None? { return None; }
    children, list := children + [body.value.0], body.value.1;
    var first := children[0].kind;
    if kind.IF? {
      var chain := BuildChain(list, children);
      if chain.None? { return None; }
      children, list := chain.value.0, chain.value.1;
    }
    if !kind.FUNC? {
      if kind.ELSE? && !first.LCURL? { return None; }
      if !kind.ELSE? && !first.LPAR? { return None; }
    }
    r := Some((children, list));
  }

  method BuildBody(list: seq<Token>) returns (r: Option<(Token, seq<Token>)>)
    ensures r == ParseBody(list)
    decreases |list|, 3
  {
    if list == [] { return None; }
    if list[0].kind.LCURL? {
      r := BuildToken(list);
    } else if IsBlockoid(list[0].kind) {
      var one := BuildToken(list);
      r := if one.None? then None else Some((Token(LCURL, MADE, [one.value.0]), one.value.1));
    } else {
      var b := BuildBlock(Some(SEMI), list);
      r := if b.None? then None else Some((Token(LCURL, MADE, b.value.0), b.value.1));
    }
  }

  /** The chain of `elsif`s, then an `else`. */
  method BuildChain(tokens: seq<Token>, done: seq<Token>) returns (r: Option<(seq<Token>, seq<Token>)>)
    ensures r == ParseChain(tokens, done)
    decreases |tokens|, 3
  {
    var list, children := tokens, done;
    while list != [] && list[0].kind.ELSIF?
      invariant Behind(list, tokens) && ParseChain(tokens, done) == ParseChain(list, children)
      decreases |list|
    {
      var c := BuildToken(list);
      if c.None? { return None; }
      children, list := children + [c.value.0], c.value.1;
    }
    if list != [] && list[0].kind.ELSE? {
      var c := BuildToken(list);
      if c.None? { return None; }
      children, list := children + [c.value.0], c.value.1;
    }
    r := Some((children, list));
  }
}
