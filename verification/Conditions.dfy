/**
 The condition checker's parser: GitHub's expression grammar by precedence, over tokens already
 read (scripts/check_dry_run_gating.py). Each rule is stated over the tokens that are left; the
 parser's loops over a position are proved to follow it, and a printer that writes only the
 parentheses a tree needs is proved to be read back.
 */
module Conditions {
  import opened Options
  import opened Gating

  /** Quoted text comes with its quotes off and its doubled quotes single. */
  datatype Token = Sign(text: string) | Numeral(text: string) | Quoted(text: string) | Name(text: string)

  type Tokens = seq<Token>

  // --- the grammar --------------------------------------------------------------------------------

  predicate Starts(rest: Tokens, sign: string) {
    rest != [] && rest[0] == Sign(sign)
  }

  /** The binary rules from loosest: `||`, `&&`, the equalities, the orderings. */
  predicate IsOperator(level: nat, token: Token) {
    token.Sign? && match level
    case 0 => token.text == "||"
    case 1 => token.text == "&&"
    case 2 => token.text == "==" || token.text == "!="
    case 3 => token.text == "<" || token.text == "<=" || token.text == ">" || token.text == ">="
    case _ => false
  }

  function OperatorOf(sign: string): Operator {
    if sign == "==" then Equal
    else if sign == "!=" then Differ
    else if sign == "<" then Less
    else if sign == "<=" then AtMost
    else if sign == ">" then More
    else AtLeast
  }

  function Join(level: nat, sign: string, left: Tree, right: Tree): Tree {
    if level == 0 then Or(left, right)
    else if level == 1 then And(left, right)
    else Compare(OperatorOf(sign), left, right)
  }

  /** What a rule reads off the front, and what it leaves. */
  datatype Reading = Reading(tree: Tree, rest: Tokens)

  /** A rule at a level: 0 to 3 are binary, 4 is `!`, 5 is property access. */
  function Rule(t: Text, level: nat, rest: Tokens): (r: Option<Reading>)
    requires level <= 5
    ensures r.Some? ==> |r.value.rest| < |rest| && Written(r.value.tree)
    decreases |rest|, 10 - level
  {
    if level == 5 then
      var first := Primary(t, rest);
      if first.None? then None else Accesses(t, first.value.tree, first.value.rest)
    else if level == 4 then
      if Starts(rest, "!") then
        var operand := Rule(t, 4, rest[1..]);
        if operand.None? then None else Some(Reading(Not(operand.value.tree), operand.value.rest))
      else Rule(t, 5, rest)
    else
      var first := Rule(t, level + 1, rest);
      if first.None? then None else Operands(t, level, first.value.tree, first.value.rest)
  }

  /** A binary rule's loop: as long as its operators come, the tree so far is the left operand. */
  function Operands(t: Text, level: nat, tree: Tree, rest: Tokens): (r: Option<Reading>)
    requires level <= 3
    ensures r.Some? ==> |r.value.rest| <= |rest| && (Written(tree) ==> Written(r.value.tree))
    decreases |rest|, 20
  {
    if rest == [] || !IsOperator(level, rest[0]) then Some(Reading(tree, rest))
    else
      var next := Rule(t, level + 1, rest[1..]);
      if next.None? then None
      else Operands(t, level, Join(level, rest[0].text, tree, next.value.tree), next.value.rest)
  }

  function Accesses(t: Text, tree: Tree, rest: Tokens): (r: Option<Reading>)
    ensures r.Some? ==> |r.value.rest| <= |rest| && (Written(tree) ==> Written(r.value.tree))
    decreases |rest|, 20
  {
    if Starts(rest, ".") then
      if |rest| >= 2 && (rest[1].Name? || rest[1] == Sign("*"))
      then Accesses(t, Property(tree, t.lower(rest[1].text)), rest[2..])
      else None
    else if Starts(rest, "[") then
      var index := Rule(t, 0, rest[1..]);
      if index.None? || !Starts(index.value.rest, "]") then None
      else Accesses(t, Index(tree, index.value.tree), index.value.rest[1..])
    else Some(Reading(tree, rest))
  }

  function Primary(t: Text, rest: Tokens): (r: Option<Reading>)
    ensures r.Some? ==> |r.value.rest| < |rest| && Written(r.value.tree)
    decreases |rest|, 1
  {
    if rest == [] then None
    else
      match rest[0]
      case Numeral(text) =>
        if TextNumber(t, text).NaN? then None else Some(Reading(Literal(Num(TextNumber(t, text))), rest[1..]))
      case Quoted(text) => Some(Reading(Literal(Str(text)), rest[1..]))
      case Name(text) =>
        if text == "true" || text == "false" then Some(Reading(Literal(Bool(text == "true")), rest[1..]))
        else if text == "null" then Some(Reading(Literal(Null), rest[1..]))
        else if Starts(rest[1..], "(") then
          var arguments := Arguments(t, rest[2..]);
          if arguments.None? then None
          else Some(Reading(Call(t.lower(text), arguments.value.0), arguments.value.1))
        else Some(Reading(Context(t.lower(text)), rest[1..]))
      case Sign(text) =>
        if text != "(" then None
        else
          var inner := Rule(t, 0, rest[1..]);
          if inner.None? || !Starts(inner.value.rest, ")") then None
          else Some(Reading(inner.value.tree, inner.value.rest[1..]))
  }

  predicate AllWritten(trees: seq<Tree>) {
    forall i | 0 <= i < |trees| :: Written(trees[i])
  }

  function Arguments(t: Text, rest: Tokens): (r: Option<(seq<Tree>, Tokens)>)
    ensures r.Some? ==> |r.value.1| < |rest| && AllWritten(r.value.0)
    decreases |rest|, 21
  {
    if Starts(rest, ")") then Some(([], rest[1..]))
    else
      var first := Rule(t, 0, rest);
      if first.None? then None else MoreArguments(t, [first.value.tree], first.value.rest)
  }

  function MoreArguments(t: Text, before: seq<Tree>, rest: Tokens): (r: Option<(seq<Tree>, Tokens)>)
    ensures r.Some? ==> |r.value.1| < |rest| && (AllWritten(before) ==> AllWritten(r.value.0))
    decreases |rest|, 20
  {
    if Starts(rest, ",") then
      var next := Rule(t, 0, rest[1..]);
      if next.None? then None else MoreArguments(t, before + [next.value.tree], next.value.rest)
    else if Starts(rest, ")") then Some((before, rest[1..]))
    else None
  }

  /** The whole expression, with nothing left over. */
  function Parse(t: Text, tokens: Tokens): Option<Tree> {
    var read := Rule(t, 0, tokens);
    if read.None? || read.value.rest != [] then None else Some(read.value.tree)
  }

  // --- the printer ----------------------------------------------------------------------------------

  function LevelOf(tree: Tree): (level: nat)
    ensures level <= 5
  {
    match tree
    case Or(_, _) => 0
    case And(_, _) => 1
    case Compare(operator, _, _) => if operator.Equal? || operator.Differ? then 2 else 3
    case Not(_) => 4
    case _ => 5
  }

  function SignOf(operator: Operator): string {
    match operator
    case Equal => "=="
    case Differ => "!="
    case Less => "<"
    case AtMost => "<="
    case More => ">"
    case AtLeast => ">="
  }

  function LiteralToken(t: Text, value: Value): Token {
    match value
    case Null => Name("null")
    case Bool(b) => Name(if b then "true" else "false")
    case Num(n) => Numeral(t.show(n))
    case Str(s) => Quoted(s)
    case Whole(_) => Sign("")
  }

  /** A tree where a rule of `level` is due: in parentheses only if it is looser than that. */
  function Show(t: Text, level: nat, tree: Tree): (shown: Tokens)
    ensures shown != []
    decreases tree, 1
  {
    if level <= LevelOf(tree) then Bare(t, tree) else [Sign("(")] + Bare(t, tree) + [Sign(")")]
  }

  function Bare(t: Text, tree: Tree): (shown: Tokens)
    ensures shown != []
    decreases tree, 0
  {
    match tree
    case Or(left, right) => Show(t, 0, left) + ([Sign("||")] + Show(t, 1, right))
    case And(left, right) => Show(t, 1, left) + ([Sign("&&")] + Show(t, 2, right))
    case Compare(operator, left, right) =>
      Show(t, LevelOf(tree), left) + ([Sign(SignOf(operator))] + Show(t, LevelOf(tree) + 1, right))
    case Not(operand) => [Sign("!")] + Show(t, 4, operand)
    case Property(head, name) => Show(t, 5, head) + [Sign("."), if name == "*" then Sign("*") else Name(name)]
    case Index(head, index) => Show(t, 5, head) + ([Sign("[")] + Show(t, 0, index) + [Sign("]")])
    case Call(name, arguments) => [Name(name), Sign("(")] + List(t, arguments)
    case Context(name) => [Name(name)]
    case Literal(value) => [LiteralToken(t, value)]
  }

  function List(t: Text, arguments: seq<Tree>): Tokens
    decreases arguments
  {
    if arguments == [] then [Sign(")")] else Show(t, 0, arguments[0]) + Later(t, arguments[1..])
  }

  /** The arguments after the first, each behind its comma. */
  function Later(t: Text, arguments: seq<Tree>): (shown: Tokens)
    ensures shown != []
    decreases arguments
  {
    if arguments == [] then [Sign(")")]
    else [Sign(",")] + (Show(t, 0, arguments[0]) + Later(t, arguments[1..]))
  }

  predicate Plainly(t: Text, name: string) {
    t.lower(name) == name && name != "true" && name != "false" && name != "null"
  }

  /** A tree the parser can make: its names in lower case, its numbers ones that can be written. */
  predicate Writable(t: Text, tree: Tree)
    decreases tree
  {
    match tree
    case Or(left, right) => Writable(t, left) && Writable(t, right)
    case And(left, right) => Writable(t, left) && Writable(t, right)
    case Compare(_, left, right) => Writable(t, left) && Writable(t, right)
    case Not(operand) => Writable(t, operand)
    case Property(head, name) => Writable(t, head) && t.lower(name) == name
    case Index(head, index) => Writable(t, head) && Writable(t, index)
    case Call(name, arguments) => Plainly(t, name) && forall i | 0 <= i < |arguments| :: Writable(t, arguments[i])
    case Context(name) => Plainly(t, name)
    case Literal(Num(n)) => !n.NaN? && TextNumber(t, t.show(n)) == n
    case Literal(Whole(_)) => false
    case Literal(_) => true
  }

  // --- what is printed reads back -----------------------------------------------------------------

  /** Nothing that follows binds to a tree just read tighter than a rule of `level` would. */
  predicate Settled(level: nat, rest: Tokens) {
    rest != [] ==>
      && rest[0] != Sign("(")
      && (level <= 4 ==> rest[0] != Sign(".") && rest[0] != Sign("["))
      && (forall m | level < m <= 3 :: !IsOperator(m, rest[0]))
  }

  /** A rule that has read `tree` and goes on from there. */
  function GoesOn(t: Text, level: nat, tree: Tree, rest: Tokens): Option<Reading>
    requires level <= 5
  {
    if level == 5 then Accesses(t, tree, rest)
    else if level == 4 then Some(Reading(tree, rest))
    else Operands(t, level, tree, rest)
  }

  lemma StopsHere(t: Text, level: nat, tree: Tree, rest: Tokens)
    requires 0 < level <= 5 && Settled(level - 1, rest)
    ensures GoesOn(t, level, tree, rest) == Some(Reading(tree, rest))
  {
  }

  /** A tree read by a tight rule is read by every looser one that nothing after it feeds. */
  lemma {:induction false} Descends(t: Text, tight: nat, level: nat, tree: Tree, tokens: Tokens, rest: Tokens)
    requires level <= tight <= 5 && Settled(level, rest) && (tight == 5 ==> !Starts(tokens, "!"))
    requires Rule(t, tight, tokens) == GoesOn(t, tight, tree, rest)
    ensures Rule(t, level, tokens) == GoesOn(t, level, tree, rest)
    decreases tight
  {
    if level < tight {
      StopsHere(t, tight, tree, rest);
      Descends(t, tight - 1, level, tree, tokens, rest);
    }
  }

  /** The first token of a tree shown is none a rule ends at, and for an access not a negation. */
  lemma {:induction false} FirstToken(t: Text, level: nat, tree: Tree)
    requires level <= 5
    ensures Show(t, level, tree)[0] != Sign(")") && Bare(t, tree)[0] != Sign(")")
    ensures LevelOf(tree) == 5 ==> Bare(t, tree)[0] != Sign("!")
    ensures level == 5 ==> Show(t, level, tree)[0] != Sign("!")
    decreases tree
  {
    match tree
    case Or(left, _) => FirstToken(t, 0, left);
    case And(left, _) => FirstToken(t, 1, left);
    case Compare(_, left, _) => FirstToken(t, LevelOf(tree), left);
    case Property(head, _) => FirstToken(t, 5, head);
    case Index(head, _) => FirstToken(t, 5, head);
    case _ =>
  }

  lemma {:induction false} ReadsBack(t: Text, level: nat, tree: Tree, rest: Tokens)
    requires level <= 5 && Writable(t, tree) && Settled(level, rest)
    ensures Rule(t, level, Show(t, level, tree) + rest) == GoesOn(t, level, tree, rest)
    decreases tree, 3
  {
    hide Rule, Bare, Writable, IsOperator;
    var tokens := Show(t, level, tree) + rest;
    FirstToken(t, level, tree);
    if level <= LevelOf(tree) {
      LooserSettles(level, LevelOf(tree), rest);
      BareReadsBack(t, tree, rest);
      Descends(t, LevelOf(tree), level, tree, tokens, rest);
    } else {
      ParenthesesReadBack(t, tree, rest);
      Descends(t, 5, level, tree, tokens, rest);
    }
  }

  lemma LooserSettles(level: nat, tight: nat, rest: Tokens)
    requires level <= tight && Settled(level, rest)
    ensures Settled(tight, rest)
  {
  }

  lemma {:induction false} ParenthesesReadBack(t: Text, tree: Tree, rest: Tokens)
    requires Writable(t, tree) && LevelOf(tree) < 5
    ensures Rule(t, 5, [Sign("(")] + Bare(t, tree) + [Sign(")")] + rest) == Accesses(t, tree, rest)
    decreases tree, 2
  {
    hide Bare, Writable, IsOperator;
    var closed := [Sign(")")] + rest;
    var tokens := [Sign("(")] + Bare(t, tree) + [Sign(")")] + rest;
    assert tokens[1..] == Bare(t, tree) + closed;
    ClosersSettle(")", rest);
    BareReadsBack(t, tree, closed);
    Descends(t, LevelOf(tree), 0, tree, Bare(t, tree) + closed, closed);
    StopsAtCloser(t, tree, ")", rest);
    assert closed[1..] == rest;
  }

  lemma ClosersSettle(sign: string, rest: Tokens)
    requires sign in {")", "]", ","}
    ensures forall level: nat :: Settled(level, [Sign(sign)] + rest)
    ensures !IsOperator(0, Sign(sign))
  {
    assert "("[0] == '(' && ")"[0] == ')' && "]"[0] == ']' && ","[0] == ',' && "."[0] == '.' && "["[0] == '[';
    assert "&&"[0] == '&' && "||"[0] == '|' && "=="[0] == '=' && "!="[0] == '!';
    assert "<"[0] == '<' && "<="[0] == '<' && ">"[0] == '>' && ">="[0] == '>';
  }

  lemma StopsAtCloser(t: Text, tree: Tree, sign: string, rest: Tokens)
    requires sign in {")", "]", ","}
    ensures Operands(t, 0, tree, [Sign(sign)] + rest) == Some(Reading(tree, [Sign(sign)] + rest))
  {
    ClosersSettle(sign, rest);
  }

  lemma {:induction false} BareReadsBack(t: Text, tree: Tree, rest: Tokens)
    requires Writable(t, tree) && Settled(LevelOf(tree), rest)
    ensures Rule(t, LevelOf(tree), Bare(t, tree) + rest) == GoesOn(t, LevelOf(tree), tree, rest)
    decreases tree, 1
  {
    match tree
    case Or(left, right) => BinaryReadsBack(t, tree, "||", left, right, rest);
    case And(left, right) => BinaryReadsBack(t, tree, "&&", left, right, rest);
    case Compare(operator, left, right) => BinaryReadsBack(t, tree, SignOf(operator), left, right, rest);
    case Not(operand) => NegationReadsBack(t, operand, rest);
    case Property(head, name) => PropertyReadsBack(t, head, name, rest);
    case Index(head, index) => IndexReadsBack(t, head, index, rest);
    case Call(name, arguments) => CallReadsBack(t, name, arguments, rest);
    case Context(_) => WordReadsBack(t, tree, rest);
    case Literal(_) => WordReadsBack(t, tree, rest);
  }

  lemma SignsOperate(tree: Tree, sign: string, left: Tree, right: Tree, rest: Tokens)
    requires (tree == Or(left, right) && sign == "||") || (tree == And(left, right) && sign == "&&")
          || (tree.Compare? && tree.left == left && tree.right == right && sign == SignOf(tree.operator))
    ensures IsOperator(LevelOf(tree), Sign(sign)) && Join(LevelOf(tree), sign, left, right) == tree
    ensures Settled(LevelOf(tree), [Sign(sign)] + rest)
  {
    assert "("[0] == '(' && "."[0] == '.' && "["[0] == '[';
    assert "&&"[0] == '&' && "||"[0] == '|' && "=="[0] == '=' && "!="[0] == '!';
    assert "<"[0] == '<' && "<="[0] == '<' && ">"[0] == '>' && ">="[0] == '>' && "<="[1] == '=' && ">="[1] == '=';
    assert |"<"| == 1 && |">"| == 1 && |"<="| == 2 && |">="| == 2;
  }

  lemma {:induction false} BinaryReadsBack(t: Text, tree: Tree, sign: string, left: Tree, right: Tree, rest: Tokens)
    requires (tree == Or(left, right) && sign == "||") || (tree == And(left, right) && sign == "&&")
          || (tree.Compare? && tree.left == left && tree.right == right && sign == SignOf(tree.operator))
    requires Writable(t, left) && Writable(t, right) && Settled(LevelOf(tree), rest)
    ensures Rule(t, LevelOf(tree), Bare(t, tree) + rest) == Operands(t, LevelOf(tree), tree, rest)
    decreases tree, 0
  {
    hide IsOperator, Settled, Show, Writable, Rule, Join;
    var level := LevelOf(tree);
    var after := [Sign(sign)] + (Show(t, level + 1, right) + rest);
    assert Bare(t, tree) + rest == Show(t, level, left) + after;
    SignsOperate(tree, sign, left, right, Show(t, level + 1, right) + rest);
    ReadsBack(t, level, left, after);
    LooserSettles(level, level + 1, rest);
    ReadsBack(t, level + 1, right, rest);
    StopsHere(t, level + 1, right, rest);
    assert after[1..] == Show(t, level + 1, right) + rest;
  }

  lemma {:induction false} NegationReadsBack(t: Text, operand: Tree, rest: Tokens)
    requires Writable(t, operand) && Settled(4, rest)
    ensures Rule(t, 4, Bare(t, Not(operand)) + rest) == Some(Reading(Not(operand), rest))
    decreases Not(operand), 0
  {
    hide Show, Writable;
    var tokens := Bare(t, Not(operand)) + rest;
    assert tokens[0] == Sign("!") && tokens[1..] == Show(t, 4, operand) + rest;
    ReadsBack(t, 4, operand, rest);
  }

  lemma {:induction false} PropertyReadsBack(t: Text, head: Tree, name: string, rest: Tokens)
    requires Writable(t, head) && t.lower(name) == name
    ensures Rule(t, 5, Bare(t, Property(head, name)) + rest) == Accesses(t, Property(head, name), rest)
    decreases Property(head, name), 0
  {
    hide Show, Writable, Rule;
    var word := if name == "*" then Sign("*") else Name(name);
    var after := [Sign("."), word] + rest;
    assert Bare(t, Property(head, name)) + rest == Show(t, 5, head) + after;
    assert after[0] == Sign(".") && after[1] == word && after[2..] == rest;
    ReadsBack(t, 5, head, after);
  }

  lemma {:induction false} IndexReadsBack(t: Text, head: Tree, index: Tree, rest: Tokens)
    requires Writable(t, head) && Writable(t, index)
    ensures Rule(t, 5, Bare(t, Index(head, index)) + rest) == Accesses(t, Index(head, index), rest)
    decreases Index(head, index), 0
  {
    hide Show, Writable, Rule, IsOperator;
    var closed := [Sign("]")] + rest;
    var after := [Sign("[")] + (Show(t, 0, index) + closed);
    assert Bare(t, Index(head, index)) + rest == Show(t, 5, head) + after;
    assert after[1..] == Show(t, 0, index) + closed && closed[1..] == rest;
    ReadsBack(t, 5, head, after);
    ClosersSettle("]", rest);
    ReadsBack(t, 0, index, closed);
    StopsAtCloser(t, index, "]", rest);
  }

  lemma WordReadsBack(t: Text, tree: Tree, rest: Tokens)
    requires (tree.Context? || tree.Literal?) && Writable(t, tree) && Settled(5, rest)
    ensures Rule(t, 5, Bare(t, tree) + rest) == Accesses(t, tree, rest)
  {
    var tokens := Bare(t, tree) + rest;
    assert tokens[1..] == rest;
    assert "true"[0] == 't' && "false"[0] == 'f' && "null"[0] == 'n';
  }

  lemma {:induction false} CallReadsBack(t: Text, name: string, arguments: seq<Tree>, rest: Tokens)
    requires Plainly(t, name) && forall i | 0 <= i < |arguments| :: Writable(t, arguments[i])
    ensures Rule(t, 5, Bare(t, Call(name, arguments)) + rest) == Accesses(t, Call(name, arguments), rest)
    decreases Call(name, arguments), 0
  {
    hide Show, Writable, IsOperator;
    var tokens := Bare(t, Call(name, arguments)) + rest;
    assert tokens[0] == Name(name) && tokens[1..][0] == Sign("(") && tokens[2..] == List(t, arguments) + rest;
    ListReadsBack(t, arguments, rest);
  }

  lemma {:induction false} ListReadsBack(t: Text, arguments: seq<Tree>, rest: Tokens)
    requires forall i | 0 <= i < |arguments| :: Writable(t, arguments[i])
    ensures Arguments(t, List(t, arguments) + rest) == Some((arguments, rest))
    decreases arguments, 2
  {
    hide Show, Writable, IsOperator, Rule;
    if arguments == [] {
      assert ([Sign(")")] + rest)[1..] == rest;
    } else {
      var after := Later(t, arguments[1..]) + rest;
      assert List(t, arguments) + rest == Show(t, 0, arguments[0]) + after;
      FirstToken(t, 0, arguments[0]);
      ArgumentReadsBack(t, arguments[0], arguments[1..], rest);
      LaterReadsBack(t, [arguments[0]], arguments[1..], rest);
      assert [arguments[0]] + arguments[1..] == arguments;
    }
  }

  lemma {:induction false} ArgumentReadsBack(t: Text, argument: Tree, later: seq<Tree>, rest: Tokens)
    requires Writable(t, argument)
    ensures var after := Later(t, later) + rest;
            Rule(t, 0, Show(t, 0, argument) + after) == Some(Reading(argument, after))
    decreases argument, 4
  {
    hide Show, Writable, IsOperator, Rule;
    var after := Later(t, later) + rest;
    var sign := if later == [] then ")" else ",";
    assert after == [Sign(sign)] + after[1..];
    ClosersSettle(sign, after[1..]);
    ReadsBack(t, 0, argument, after);
    StopsAtCloser(t, argument, sign, after[1..]);
  }

  lemma {:induction false} LaterReadsBack(t: Text, before: seq<Tree>, arguments: seq<Tree>, rest: Tokens)
    requires forall i | 0 <= i < |arguments| :: Writable(t, arguments[i])
    ensures MoreArguments(t, before, Later(t, arguments) + rest) == Some((before + arguments, rest))
    decreases arguments, 1
  {
    hide Show, Writable, IsOperator, Rule;
    var tokens := Later(t, arguments) + rest;
    if arguments == [] {
      assert tokens[1..] == rest && before + arguments == before;
      assert ","[0] == ',' && ")"[0] == ')';
    } else {
      var after := Later(t, arguments[1..]) + rest;
      assert tokens[0] == Sign(",") && tokens[1..] == Show(t, 0, arguments[0]) + after;
      ArgumentReadsBack(t, arguments[0], arguments[1..], rest);
      LaterReadsBack(t, before + [arguments[0]], arguments[1..], rest);
      assert before + [arguments[0]] + arguments[1..] == before + arguments;
    }
  }

  /** Every tree, printed with no more parentheses than its precedence needs, parses back to itself. */
  lemma PrintedParses(t: Text, tree: Tree)
    requires Writable(t, tree)
    ensures Parse(t, Show(t, 0, tree)) == Some(tree)
  {
    assert Show(t, 0, tree) + [] == Show(t, 0, tree);
    ReadsBack(t, 0, tree, []);
  }

  /**
   End to end: a step whose condition reads as tokens the check classifies as gated runs on no dry
   run, whatever the unknown contexts and calls are.
   */
  lemma AGatedConditionHoldsItsStep(t: Text, w: World, tokens: Tokens, mentions: bool)
    requires Classify(t, Parse(t, tokens), mentions) == Gated
    ensures var tree := Parse(t, tokens);
            tree.Some? && (Guarded(t, tree.value, true) ==> !Truthy(Happens(t, w, tree.value, true)))
  {
    hide Evaluate, Guarded, Happens, Rule;
    GatedStepsNeverRunDry(t, w, Parse(t, tokens).value, mentions);
  }

  // --- the parser as the object that reads -----------------------------------------------------------

  /** Tokens and a position among them; `None` is the refusal the source raises. */
  class Parser {
    const text: Text
    const tokens: Tokens
    var position: nat

    ghost predicate Valid()
      reads this
    {
      position <= |tokens|
    }

    ghost function Rest(): Tokens
      reads this
      requires Valid()
    {
      tokens[position..]
    }

    /** The position after `read`, or anywhere after a refusal. */
    ghost predicate Follows(read: Option<Reading>, tree: Option<Tree>)
      reads this
    {
      Valid() && if read.None? then tree.None? else tree == Some(read.value.tree) && Rest() == read.value.rest
    }

    constructor (text: Text, tokens: Tokens)
      ensures Valid() && this.text == text && this.tokens == tokens && position == 0
    {
      this.text, this.tokens, position := text, tokens, 0;
    }

    method Take(sign: string) returns (taken: bool)
      requires Valid()
      modifies this
      ensures Valid() && (taken <==> Starts(old(Rest()), sign))
      ensures position == old(position) + (if taken then 1 else 0)
      ensures taken ==> Rest() == old(Rest())[1..]
    {
      if position < |tokens| && tokens[position] == Sign(sign) {
        position := position + 1;
        return true;
      }
      taken := false;
    }

    method ParseAll() returns (tree: Option<Tree>)
      requires Valid() && position == 0
      modifies this
      ensures tree == Parse(text, tokens)
    {
      assert tokens[0..] == tokens;
      tree := Binary(0);
      if tree.Some? && position != |tokens| {
        return None;
      }
    }

    /** `disjunction`, `conjunction`, `equality` and `ordering`, which differ in their operators. */
    method Binary(level: nat) returns (tree: Option<Tree>)
      requires Valid() && level <= 3
      modifies this
      ensures Follows(Rule(text, level, old(Rest())), tree)
      decreases |tokens| - position, 10 - level, 0
    {
      hide Join, IsOperator;
      ghost var whole := Rule(text, level, Rest());
      tree := Operand(level + 1);
      if tree.None? {
        return;
      }
      while true
        invariant Valid() && tree.Some? && old(position) < position
        invariant Operands(text, level, tree.value, Rest()) == whole
        decreases |tokens| - position
      {
        if position == |tokens| || !IsOperator(level, tokens[position]) {
          return;
        }
        var sign := tokens[position].text;
        position := position + 1;
        var right := Operand(level + 1);
        if right.None? {
          return None;
        }
        tree := Some(Join(level, sign, tree.value, right.value));
      }
    }

    method Operand(level: nat) returns (tree: Option<Tree>)
      requires Valid() && 1 <= level <= 4
      modifies this
      ensures Follows(Rule(text, level, old(Rest())), tree)
      ensures tree.Some? ==> old(position) < position
      decreases |tokens| - position, 10 - level, 1
    {
      if level <= 3 {
        tree := Binary(level);
      } else {
        tree := Negation();
      }
    }

    method Negation() returns (tree: Option<Tree>)
      requires Valid()
      modifies this
      ensures Follows(Rule(text, 4, old(Rest())), tree)
      decreases |tokens| - position, 6, 0
    {
      var negated := Take("!");
      if negated {
        var operand := Negation();
        return if operand.None? then None else Some(Not(operand.value));
      }
      tree := Access();
    }

    method Access() returns (tree: Option<Tree>)
      requires Valid()
      modifies this
      ensures Follows(Rule(text, 5, old(Rest())), tree)
      decreases |tokens| - position, 5
    {
      ghost var whole := Rule(text, 5, Rest());
      tree := First();
      if tree.None? {
        return;
      }
      while true
        invariant Valid() && tree.Some? && old(position) < position
        invariant Accesses(text, tree.value, Rest()) == whole
        decreases |tokens| - position
      {
        ghost var rest := Rest();
        var dotted := Take(".");
        if dotted {
          if position == |tokens| || !(tokens[position].Name? || tokens[position] == Sign("*")) {
            return None;
          }
          assert rest[2..] == tokens[position + 1..];
          tree := Some(Property(tree.value, text.lower(tokens[position].text)));
          position := position + 1;
          continue;
        }
        var indexed := Take("[");
        if !indexed {
          return;
        }
        var index := Binary(0);
        if index.None? {
          return None;
        }
        var closed := Take("]");
        if !closed {
          return None;
        }
        tree := Some(Index(tree.value, index.value));
      }
    }

    /** A literal, a name, a call, or a tree in parentheses. */
    method First() returns (tree: Option<Tree>)
      requires Valid()
      modifies this
      ensures Follows(Primary(text, old(Rest())), tree)
      decreases |tokens| - position, 1
    {
      ghost var rest := Rest();
      if position == |tokens| {
        return None;
      }
      var nested := Take("(");
      if nested {
        var inner := Binary(0);
        if inner.None? {
          return None;
        }
        var closed := Take(")");
        return if closed then inner else None;
      }
      var token := tokens[position];
      position := position + 1;
      assert rest[1..] == Rest();
      match token
      case Numeral(word) =>
        tree := if TextNumber(text, word).NaN? then None else Some(Literal(Num(TextNumber(text, word))));
      case Quoted(word) =>
        tree := Some(Literal(Str(word)));
      case Name(word) =>
        tree := Named(word);
      case Sign(_) =>
        tree := None;
    }

    /** What a name is, once it has been read: a literal word, a call, or a context. */
    method Named(word: string) returns (tree: Option<Tree>)
      requires Valid() && 0 < position && tokens[position - 1] == Name(word)
      modifies this
      ensures Follows(Primary(text, tokens[old(position) - 1..]), tree)
      decreases |tokens| - position, 22
    {
      ghost var rest := tokens[position - 1..];
      assert rest[0] == Name(word) && rest[1..] == Rest();
      if word == "true" || word == "false" {
        return Some(Literal(Bool(word == "true")));
      }
      if word == "null" {
        return Some(Literal(Null));
      }
      var called := Take("(");
      if !called {
        return Some(Context(text.lower(word)));
      }
      assert rest[2..] == Rest();
      var arguments := ReadArguments();
      tree := if arguments.None? then None else Some(Call(text.lower(word), arguments.value));
    }

    method ReadArguments() returns (arguments: Option<seq<Tree>>)
      requires Valid()
      modifies this
      ensures Valid()
      ensures var read := Arguments(text, old(Rest()));
              if read.None? then arguments.None? else arguments == Some(read.value.0) && Rest() == read.value.1
      decreases |tokens| - position, 21
    {
      ghost var whole := Arguments(text, Rest());
      var ended := Take(")");
      if ended {
        return Some([]);
      }
      var first := Binary(0);
      if first.None? {
        return None;
      }
      var before := [first.value];
      while true
        invariant Valid() && old(position) < position
        invariant MoreArguments(text, before, Rest()) == whole
        decreases |tokens| - position
      {
        var another := Take(",");
        if !another {
          var closed := Take(")");
          return if closed then Some(before) else None;
        }
        var next := Binary(0);
        if next.None? {
          return None;
        }
        before := before + [next.value];
      }
    }
  }
}
