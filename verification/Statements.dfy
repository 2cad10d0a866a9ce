/** What the block parser accepts and makes, in terms of the text alone: matched braces, the parts of each
    structure, and the places where a semicolon is put in. */
module Statements {
  import opened Basics
  import opened Precedence
  import opened Blocks

  // ----- matched braces -----

  /** The braces that are open behind a list, innermost first, or nothing when one is closed by
      another kind or closed without being open. */
  function Open(list: seq<Token>, stack: seq<Kind>): Option<seq<Kind>> {
    if list == [] then Some(stack)
    else
      var k := list[0].kind;
      if k.LPAR? || k.LBRA? || k.LCURL? then Open(list[1..], [k] + stack)
      else if k.RPAR? || k.RBRA? || k.RCURL? then
        if stack != [] && Closes(k, stack[0]) then Open(list[1..], stack[1..]) else None
      else Open(list[1..], stack)
  }

  /** The brace that a closing kind closes. */
  predicate Closes(k: Kind, brace: Kind) {
    (k.RPAR? && brace.LPAR?) || (k.RBRA? && brace.LBRA?) || (k.RCURL? && brace.LCURL?)
  }

  lemma {:induction false} OpensBrace(list: seq<Token>, stack: seq<Kind>)
    requires list != [] && (list[0].kind.LPAR? || list[0].kind.LBRA? || list[0].kind.LCURL?)
    ensures Open(list, stack) == Open(list[1..], [list[0].kind] + stack)
  {
  }

  lemma {:induction false} ClosesBrace(list: seq<Token>, brace: Kind, stack: seq<Kind>)
    requires list != [] && Closes(list[0].kind, brace)
    ensures Open(list, [brace] + stack) == Open(list[1..], stack)
  {
    var full := [brace] + stack;
    assert full[0] == brace && full[1..] == stack;
  }

  lemma {:induction false} PassesToken(list: seq<Token>, stack: seq<Kind>)
    requires list != [] && !IsOpenBrace(list[0].kind) && !IsClosing(list[0].kind)
    ensures Open(list, stack) == Open(list[1..], stack)
  {
  }

  /** A block takes its brace off the stack and leaves what is below alone. */
  lemma {:induction false} BlockMatches(end: Option<Kind>, list: seq<Token>, done: seq<Token>, brace: Kind,
      stack: seq<Kind>)
    requires ParseBlock(end, list, done).Some? && (end.Some? ==> end.value.SEMI? || Closes(end.value, brace))
    ensures var rest := ParseBlock(end, list, done).value.1;
            Open(list, if end.Some? && IsClosing(end.value) then [brace] + stack else stack) == Open(rest, stack)
    decreases |list|, 1
  {
    hide Open;
    var full := if end.Some? && IsClosing(end.value) then [brace] + stack else stack;
    if !Stops(end, list) {
      var (t, rest) := ParseToken(list).value;
      if end == Some(t.kind) && IsClosing(t.kind) {
        ClosesBrace(list, brace, stack);
      } else if IsClosing(t.kind) {
        assert false;
      } else {
        TokenMatches(list, full);
        if end != Some(t.kind) {
          BlockMatches(end, rest, Added(done, t, rest), brace, stack);
        }
      }
    }
  }

  lemma {:induction false} TokenMatches(list: seq<Token>, stack: seq<Kind>)
    requires list != [] && ParseToken(list).Some? && !IsClosing(list[0].kind)
    ensures Open(list, stack) == Open(ParseToken(list).value.1, stack)
    decreases |list|, 0
  {
    hide Open;
    var t := list[0];
    if IsOpenBrace(t.kind) {
      OpensBrace(list, stack);
      BlockMatches(Some(EndBrace(t.kind)), list[1..], [], t.kind, stack);
    } else {
      PassesToken(list, stack);
      if IsBlockoid(t.kind) { StructureMatches(t.kind, list[1..], stack); }
    }
  }

  lemma {:induction false} StructureMatches(kind: Kind, list: seq<Token>, stack: seq<Kind>)
    requires ParseBlockoid(kind, list).Some?
    ensures Open(list, stack) == Open(ParseBlockoid(kind, list).value.1, stack)
    decreases |list|, 4
  {
    hide Open, ParseToken;
    var (header, list1) := ParseHeader(list).value;
    if list[0].kind.LPAR? { TokenMatches(list, stack); }
    var (body, list2) := ParseBody(list1).value;
    BodyMatches(list1, stack);
    if kind.IF? { ChainMatches(list2, header + [body], stack); }
  }

  lemma {:induction false} BodyMatches(list: seq<Token>, stack: seq<Kind>)
    requires ParseBody(list).Some?
    ensures Open(list, stack) == Open(ParseBody(list).value.1, stack)
    decreases |list|, 3
  {
    hide Open, ParseToken, ParseBlock;
    if list[0].kind.LCURL? || IsBlockoid(list[0].kind) {
      TokenMatches(list, stack);
    } else {
      BlockMatches(Some(SEMI), list, [], LCURL, stack);
    }
  }

  lemma {:induction false} ChainMatches(list: seq<Token>, done: seq<Token>, stack: seq<Kind>)
    requires ParseChain(list, done).Some?
    ensures Open(list, stack) == Open(ParseChain(list, done).value.1, stack)
    decreases |list|, 3
  {
    hide Open, ParseToken;
    if list != [] && (list[0].kind.ELSIF? || list[0].kind.ELSE?) {
      var (t, rest) := ParseToken(list).value;
      TokenMatches(list, stack);
      if !list[0].kind.ELSE? { ChainMatches(rest, done + [t], stack); }
    }
  }

  /** The braces of an accepted program match. */
  lemma BracesMatch(list: seq<Token>)
    requires ParseProgram(list).Some?
    ensures Open(list, []) == Some([])
  {
    BlockMatches(None, list, [], LCURL, []);
  }

  // ----- the parts of a structure -----

  /** A loop or an `elsif` has a header and a body, an `else` a body, a function a body and maybe parameters
      before it, and an `if` a header, a body, any number of `elsif`s, and maybe an `else` behind them. */
  predicate WellMade(kind: Kind, parts: seq<Token>) {
    match kind
    case ELSE => |parts| == 1 && parts[0].kind.LCURL?
    case FUNC => (|parts| == 1 && parts[0].kind.LCURL?) || (|parts| == 2 && parts[0].kind.LPAR? && parts[1].kind.LCURL?)
    case IF =>
      && |parts| >= 2 && parts[0].kind.LPAR? && parts[1].kind.LCURL?
      && (forall i :: 2 <= i < |parts| - 1 ==> parts[i].kind.ELSIF?)
      && (|parts| > 2 ==> parts[|parts| - 1].kind.ELSIF? || parts[|parts| - 1].kind.ELSE?)
    case _ => |parts| == 2 && parts[0].kind.LPAR? && parts[1].kind.LCURL?
  }

  lemma {:induction false} ChainIsWellMade(list: seq<Token>, done: seq<Token>)
    requires ParseChain(list, done).Some?
    ensures var all := ParseChain(list, done).value.0;
      && done <= all && (forall i :: |done| <= i < |all| - 1 ==> all[i].kind.ELSIF?)
      && (|all| > |done| ==> all[|all| - 1].kind.ELSIF? || all[|all| - 1].kind.ELSE?)
    decreases |list|
  {
    hide ParseToken;
    if list != [] && list[0].kind.ELSIF? {
      var (t, rest) := ParseToken(list).value;
      ChainIsWellMade(rest, done + [t]);
      var all := ParseChain(rest, done + [t]).value.0;
      assert all[|done|] == (done + [t])[|done|];
    }
  }

  /** Every structure in an accepted text has its parts. */
  lemma StructureIsWellMade(list: seq<Token>)
    requires list != [] && IsBlockoid(list[0].kind) && ParseToken(list).Some?
    ensures ParseToken(list).value.0.kind == list[0].kind
    ensures WellMade(list[0].kind, ParseToken(list).value.0.children)
  {
    hide ParseHeader, ParseBody, ParseChain;
    var kind := list[0].kind;
    var (header, list1) := ParseHeader(list[1..]).value;
    HeaderIsOne(list[1..]);
    var (body, list2) := ParseBody(list1).value;
    if kind.IF? {
      ChainIsWellMade(list2, header + [body]);
      FirstOfIf(header, body, ParseChain(list2, header + [body]).value.0);
    }
  }

  lemma HeaderIsOne(list: seq<Token>)
    requires ParseHeader(list).Some?
    ensures var h := ParseHeader(list).value.0; h == [] || (|h| == 1 && h[0].kind.LPAR?)
  {
  }

  lemma FirstOfIf(header: seq<Token>, body: Token, all: seq<Token>)
    requires header + [body] <= all
    ensures |header| == 1 ==> all[0] == header[0] && all[1] == body
    ensures header == [] ==> (header + [body])[0] == body
  {
    assert forall i :: 0 <= i < |header + [body]| ==> all[i] == (header + [body])[i];
  }

  // ----- semicolons -----

  /** A statement that needs no semicolon of its own in the text: a loop, an `if` at the start of a statement,
      or a function that is assigned. */
  predicate Standing(row: seq<Token>, i: nat)
    requires i < |row|
  {
    match row[i].kind
    case FOR => true
    case FOREACH => true
    case WHILE => true
    case FORINDEX => true
    case IF => i == 0 || row[i - 1].kind.SEMI?
    case FUNC => i > 0 && row[i - 1].kind.ASSIGN?
    case _ => false
  }

  predicate PutIn(t: Token) { t.kind.SEMI? && t.text == MADE }

  /** What may follow such a statement without a semicolon between. */
  predicate Ends(list: seq<Token>) {
    || list == [] || list[0].kind.SEMI? || list[0].kind.RPAR? || list[0].kind.RBRA? || list[0].kind.RCURL?
    || list[0].kind.ELSE? || list[0].kind.ELSIF?
  }

  /** A semicolon stands behind every such statement but the last, and one was put in only behind
      such a statement and never before another one. */
  predicate Punctuated(row: seq<Token>) {
    && (forall i :: 0 <= i < |row| && PutIn(row[i]) ==> i > 0 && Standing(row, i - 1))
    && (forall i :: 0 <= i < |row| - 1 && Standing(row, i) ==> row[i + 1].kind.SEMI?)
    && (forall i :: 0 <= i < |row| - 1 && PutIn(row[i]) ==> !row[i + 1].kind.SEMI?)
  }

  /** The same, with what is still to come. */
  predicate Goes(row: seq<Token>, list: seq<Token>) {
    Punctuated(row) && (row != [] ==>
      && (Standing(row, |row| - 1) ==> Ends(list))
      && (PutIn(row[|row| - 1]) ==> !Ends(list)))
  }

  lemma StandsAlike(row: seq<Token>, more: seq<Token>, i: nat)
    requires row <= more && i < |row|
    ensures Standing(more, i) == Standing(row, i)
  {
    assert more[i] == row[i] && (i > 0 ==> more[i - 1] == row[i - 1]);
  }

  lemma SemiMeans(row: seq<Token>, t: Token, list: seq<Token>)
    ensures NeedsSemi(t, row, list) <==> Standing(row + [t], |row|) && !Ends(list)
  {
  }

  lemma Grows(row: seq<Token>, t: Token, list: seq<Token>, rest: seq<Token>)
    requires Goes(row, list) && list != [] && t.kind == list[0].kind && t.text != MADE && !IsBlockEnd(t.kind)
    ensures Goes(Added(row, t, rest), rest)
  {
    hide Standing, NeedsSemi;
    SemiMeans(row, t, rest);
    var one, all := row + [t], Added(row, t, rest);
    assert one <= all;
    forall i | 0 <= i < |row| ensures Standing(all, i) == Standing(row, i) && all[i] == row[i] {
      StandsAlike(row, all, i);
    }
    StandsAlike(one, all, |row|);
    NotStanding(all);
  }

  /** A semicolon is no such statement. */
  lemma NotStanding(row: seq<Token>)
    ensures forall i :: 0 <= i < |row| && row[i].kind.SEMI? ==> !Standing(row, i)
  {
  }

  lemma {:induction false} BlockIsPunctuated(end: Option<Kind>, list: seq<Token>, done: seq<Token>)
    requires Flat(list) && Goes(done, list) && ParseBlock(end, list, done).Some?
    ensures Punctuated(ParseBlock(end, list, done).value.0)
    decreases |list|
  {
    hide Standing, PutIn, Ends, Punctuated, NeedsSemi, Added;
    if !Stops(end, list) {
      var (t, rest) := ParseToken(list).value;
      assert list[0] in list;
      if end != Some(t.kind) {
        Grows(done, t, list, rest);
        BlockIsPunctuated(end, rest, Added(done, t, rest));
      }
    }
  }

  /** The statements of a program, and of every brace and every braceless body in it. */
  lemma StatementsArePunctuated(end: Option<Kind>, list: seq<Token>)
    requires Flat(list) && ParseBlock(end, list, []).Some?
    ensures Punctuated(ParseBlock(end, list, []).value.0)
  {
    BlockIsPunctuated(end, list, []);
  }
}
