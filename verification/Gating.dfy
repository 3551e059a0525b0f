/**
 The dry-run check's evaluator: an abstract interpreter for workflow conditions, in which every
 context but one input, and almost every call, stands for a value that is not known
 (scripts/check_dry_run_gating.py). What a condition really evaluates to is given beside it, over
 every assignment of the unknowns, and the two are compared.
 */
module Gating {
  import opened Options

  // --- values ---------------------------------------------------------------------------------------

  /** A number of the expression language, without a float's rounding. */
  datatype Number = NaN | Infinite(negative: bool) | Finite(value: real)

  /** `Whole` is an array or an object: the interpreter never makes one, a run may hold one. */
  datatype Value = Null | Bool(truth: bool) | Num(number: Number) | Str(text: string) | Whole(id: nat)

  datatype Operator = Equal | Differ | Less | AtMost | More | AtLeast

  datatype Tree =
    | Literal(value: Value)
    | Context(name: string)
    | Property(head: Tree, name: string)
    | Index(head: Tree, index: Tree)
    | Call(name: string, arguments: seq<Tree>)
    | Not(operand: Tree)
    | Compare(operator: Operator, left: Tree, right: Tree)
    | And(left: Tree, right: Tree)
    | Or(left: Tree, right: Tree)

  /** What the language's library does with text: the checker and the runner share it. */
  datatype Text = Text(
    strip: string -> string, decimal: string -> Option<real>, folded: string -> string,
    upper: string -> string, lower: string -> string, show: Number -> string)

  function DigitValue(c: char): nat {
    if '0' <= c <= '9' then (c - '0') as int
    else if 'a' <= c <= 'f' then (c - 'a') as int + 10
    else if 'A' <= c <= 'F' then (c - 'A') as int + 10
    else 16
  }

  predicate AllDigits(s: string, base: nat) {
    s != "" && forall c <- s :: DigitValue(c) < base
  }

  function IntegerOf(s: string, base: nat): nat {
    if s == "" then 0 else IntegerOf(s[..|s| - 1], base) * base + DigitValue(s[|s| - 1])
  }

  /** A 32-bit pattern read as the signed integer it is, or no number past 32 bits. */
  function Int32(n: nat): Number {
    if 0x1_0000_0000 <= n then NaN
    else if 0x8000_0000 <= n then Finite((n - 0x1_0000_0000) as real)
    else Finite(n as real)
  }

  function TextNumber(t: Text, s: string): Number {
    var text := t.strip(s);
    if text == "" then Finite(0.0)
    else if t.decimal(text).Some? then Finite(t.decimal(text).value)
    else if "0x" <= text && AllDigits(text[2..], 16) then Int32(IntegerOf(text[2..], 16))
    else if "0o" <= text && AllDigits(text[2..], 8) then Int32(IntegerOf(text[2..], 8))
    else if text == "Infinity" then Infinite(false)
    else if text == "-Infinity" then Infinite(true)
    else NaN
  }

  function NumberOf(t: Text, v: Value): Number {
    match v
    case Null => Finite(0.0)
    case Bool(b) => Finite(if b then 1.0 else 0.0)
    case Num(n) => n
    case Str(s) => TextNumber(t, s)
    case Whole(_) => NaN
  }

  function Shown(t: Text, v: Value): string {
    match v
    case Null => ""
    case Bool(b) => if b then "true" else "false"
    case Num(NaN) => "NaN"
    case Num(Infinite(negative)) => if negative then "-Infinity" else "Infinity"
    case Num(n) => t.show(n)
    case Str(s) => s
    case Whole(_) => ""
  }

  predicate Truthy(v: Value) {
    match v
    case Null => false
    case Bool(b) => b
    case Num(n) => !n.NaN? && n != Finite(0.0)
    case Str(s) => s != ""
    case Whole(_) => true
  }

  predicate NumberLess(l: Number, r: Number) {
    !l.NaN? && !r.NaN? && l != r
    && (l == Infinite(true) || r == Infinite(false) || (l.Finite? && r.Finite? && l.value < r.value))
  }

  predicate TextLess(l: string, r: string) {
    r != "" && (l == "" || l[0] < r[0] || (l[0] == r[0] && TextLess(l[1..], r[1..])))
  }

  predicate Ordered(operator: Operator, same: bool, less: bool, more: bool) {
    match operator
    case Equal => same
    case Differ => !same
    case Less => less
    case AtMost => less || same
    case More => more
    case AtLeast => more || same
  }

  /** Two values of one kind compare as they are, text without its case; any others as numbers. */
  predicate Compared(t: Text, operator: Operator, l: Value, r: Value) {
    if l.Str? && r.Str? then
      var (a, b) := (t.folded(l.text), t.folded(r.text));
      Ordered(operator, a == b, TextLess(a, b), TextLess(b, a))
    else
      var (a, b) := (NumberOf(t, l), NumberOf(t, r));
      Ordered(operator, a == b && !a.NaN?, NumberLess(a, b), NumberLess(b, a))
  }

  predicate TextTest(name: string) {
    name in {"contains", "startswith", "endswith"}
  }

  predicate Contains(s: string, part: string) {
    exists i | 0 <= i <= |s| :: part <= s[i..]
  }

  predicate Tested(t: Text, name: string, l: Value, r: Value)
    requires TextTest(name)
  {
    var (s, part) := (t.upper(Shown(t, l)), t.upper(Shown(t, r)));
    if name == "contains" then Contains(s, part)
    else if name == "startswith" then part <= s
    else |part| <= |s| && s[|s| - |part|..] == part
  }

  // --- what the comparisons are --------------------------------------------------------------------

  /** The values that count as false are the five of the language, and no others. */
  lemma TheFalsyValues(v: Value)
    ensures !Truthy(v) <==> v == Null || v == Bool(false) || v == Num(Finite(0.0)) || v == Num(NaN) || v == Str("")
  {
  }

  lemma {:induction false} TextsAreOrdered(l: string, r: string)
    ensures (if l == r then 1 else 0) + (if TextLess(l, r) then 1 else 0) + (if TextLess(r, l) then 1 else 0) == 1
    decreases |l|
  {
    if l != "" && r != "" {
      TextsAreOrdered(l[1..], r[1..]);
      assert l == [l[0]] + l[1..] && r == [r[0]] + r[1..];
    }
  }

  /**
   The six operators are one order: each is another one swapped or denied, of two values that are
   numbers or texts exactly one of less, equal and more holds, and of a value that is no number
   nothing holds but that it differs.
   */
  lemma ComparisonsAreOneOrder(t: Text, l: Value, r: Value)
    ensures Compared(t, Differ, l, r) <==> !Compared(t, Equal, l, r)
    ensures Compared(t, Equal, l, r) <==> Compared(t, Equal, r, l)
    ensures Compared(t, More, l, r) <==> Compared(t, Less, r, l)
    ensures Compared(t, AtMost, l, r) <==> Compared(t, Less, l, r) || Compared(t, Equal, l, r)
    ensures Compared(t, AtLeast, l, r) <==> Compared(t, AtMost, r, l)
    ensures (l.Str? && r.Str?) || (!NumberOf(t, l).NaN? && !NumberOf(t, r).NaN?) ==>
              (if Compared(t, Less, l, r) then 1 else 0) + (if Compared(t, Equal, l, r) then 1 else 0)
                + (if Compared(t, More, l, r) then 1 else 0) == 1
    ensures !(l.Str? && r.Str?) && (NumberOf(t, l).NaN? || NumberOf(t, r).NaN?) ==>
              !Compared(t, Less, l, r) && !Compared(t, Equal, l, r) && !Compared(t, More, l, r)
    ensures l.Str? && r.Str? && t.folded(l.text) == t.folded(r.text) ==> Compared(t, Equal, l, r)
  {
    hide TextNumber;
    if l.Str? && r.Str? {
      TextsAreOrdered(t.folded(l.text), t.folded(r.text));
    }
  }

  /** A pattern of 32 bits is the signed integer it is congruent to, and a longer one is no number. */
  lemma PatternsAreSigned(n: nat)
    ensures n < 0x1_0000_0000 ==>
              && Int32(n).Finite? && -2147483648.0 <= Int32(n).value < 2147483648.0
              && (Int32(n).value == n as real || Int32(n).value == n as real - 4294967296.0)
    ensures 0x1_0000_0000 <= n ==> Int32(n) == NaN
  {
  }

  // --- where the input lives ---------------------------------------------------------------------

  function PathOf(t: Text, tree: Tree): Option<seq<string>> {
    match tree
    case Context(name) => Some([name])
    case Property(head, name) =>
      var path := PathOf(t, head);
      if path.None? then None else Some(path.value + [name])
    case Index(head, Literal(Str(name))) =>
      var path := PathOf(t, head);
      if path.None? then None else Some(path.value + [t.lower(name)])
    case _ => None
  }

  /** The input as its two contexts hold it: a boolean, and the same as text. */
  function InputAt(path: Option<seq<string>>, dryRun: bool): Option<Value> {
    if path == Some(["inputs", "dry_run"]) then Some(Bool(dryRun))
    else if path == Some(["github", "event", "inputs", "dry_run"]) then Some(Str(if dryRun then "true" else "false"))
    else None
  }

  // --- the interpreter ---------------------------------------------------------------------------

  datatype Known = Known(value: Value) | Unknown

  datatype Decision = Decided(truth: bool) | Undecided

  function Decide(v: Known): Decision {
    if v.Unknown? then Undecided else Decided(Truthy(v.value))
  }

  function Evaluate(t: Text, tree: Tree, dryRun: bool): Known
    decreases tree
  {
    match tree
    case Literal(value) => Known(value)
    case Context(_) => Input(t, tree, dryRun)
    case Property(_, _) => Input(t, tree, dryRun)
    case Index(_, _) => Input(t, tree, dryRun)
    case Call(name, arguments) =>
      if !TextTest(name) || |arguments| != 2 then Unknown
      else
        var (l, r) := (Evaluate(t, arguments[0], dryRun), Evaluate(t, arguments[1], dryRun));
        if l.Unknown? || r.Unknown? then Unknown else Known(Bool(Tested(t, name, l.value, r.value)))
    case Not(operand) =>
      var d := Decide(Evaluate(t, operand, dryRun));
      if d.Undecided? then Unknown else Known(Bool(!d.truth))
    case Compare(operator, left, right) =>
      var (l, r) := (Evaluate(t, left, dryRun), Evaluate(t, right, dryRun));
      if l.Unknown? || r.Unknown? then Unknown else Known(Bool(Compared(t, operator, l.value, r.value)))
    case And(left, right) => Junction(Evaluate(t, left, dryRun), Evaluate(t, right, dryRun), false)
    case Or(left, right) => Junction(Evaluate(t, left, dryRun), Evaluate(t, right, dryRun), true)
  }

  function Input(t: Text, tree: Tree, dryRun: bool): Known {
    var value := InputAt(PathOf(t, tree), dryRun);
    if value.Some? then Known(value.value) else Unknown
  }

  /** `stops` is the truth of the left half that ends the reading: true for `||`, false for `&&`. */
  function Junction(l: Known, r: Known, stops: bool): Known {
    if Decide(l) == Decided(stops) then l
    else if Decide(l).Undecided? then (if Decide(r) == Decided(stops) then r else Unknown)
    else r
  }

  // --- what a run makes of it ----------------------------------------------------------------------

  /** One assignment of everything the interpreter does not know. */
  datatype World = World(
    context: Tree -> Value, call: (string, seq<Value>) -> Value, compare: (Operator, Value, Value) -> bool)

  function Happens(t: Text, w: World, tree: Tree, dryRun: bool): Value
    decreases tree
  {
    match tree
    case Literal(value) => value
    case Context(_) => Held(t, w, tree, dryRun)
    case Property(_, _) => Held(t, w, tree, dryRun)
    case Index(_, _) => Held(t, w, tree, dryRun)
    case Call(name, arguments) =>
      var values := seq(|arguments|, i requires 0 <= i < |arguments| => Happens(t, w, arguments[i], dryRun));
      if TextTest(name) && |values| == 2 && !values[0].Whole? && !values[1].Whole?
      then Bool(Tested(t, name, values[0], values[1]))
      else w.call(name, values)
    case Not(operand) => Bool(!Truthy(Happens(t, w, operand, dryRun)))
    case Compare(operator, left, right) =>
      var (l, r) := (Happens(t, w, left, dryRun), Happens(t, w, right, dryRun));
      Bool(if l.Whole? || r.Whole? then w.compare(operator, l, r) else Compared(t, operator, l, r))
    case And(left, right) =>
      var l := Happens(t, w, left, dryRun);
      if Truthy(l) then Happens(t, w, right, dryRun) else l
    case Or(left, right) =>
      var l := Happens(t, w, left, dryRun);
      if Truthy(l) then l else Happens(t, w, right, dryRun)
  }

  function Held(t: Text, w: World, tree: Tree, dryRun: bool): Value {
    var value := InputAt(PathOf(t, tree), dryRun);
    if value.Some? then value.value else w.context(tree)
  }

  // --- soundness -----------------------------------------------------------------------------------

  predicate Scalar(v: Value) {
    !v.Whole?
  }

  /** The parser's trees hold no array and no object. */
  predicate Written(tree: Tree)
    decreases tree
  {
    match tree
    case Literal(value) => Scalar(value)
    case Context(_) => true
    case Property(_, _) => true
    case Index(_, _) => true
    case Call(_, arguments) => forall i | 0 <= i < |arguments| :: Written(arguments[i])
    case Not(operand) => Written(operand)
    case Compare(_, left, right) => Written(left) && Written(right)
    case And(left, right) => Written(left) && Written(right)
    case Or(left, right) => Written(left) && Written(right)
  }

  /** The branch that answers `unknown || truthy` and `unknown && falsy` with the right half. */
  predicate AnsweredByTheRight(t: Text, left: Tree, right: Tree, stops: bool, dryRun: bool) {
    Decide(Evaluate(t, left, dryRun)).Undecided? && Decide(Evaluate(t, right, dryRun)) == Decided(stops)
  }

  /** Whether a known value may be taken for the one a run has, and not only for its truth. */
  predicate Faithful(t: Text, tree: Tree, dryRun: bool)
    decreases tree
  {
    match tree
    case And(left, right) =>
      !AnsweredByTheRight(t, left, right, false, dryRun) && Faithful(t, left, dryRun) && Faithful(t, right, dryRun)
    case Or(left, right) =>
      !AnsweredByTheRight(t, left, right, true, dryRun) && Faithful(t, left, dryRun) && Faithful(t, right, dryRun)
    case _ => Guarded(t, tree, dryRun)
  }

  /** No operand of a comparison or a text test is a junction answered by its right half alone. */
  predicate Guarded(t: Text, tree: Tree, dryRun: bool)
    decreases tree, 0
  {
    match tree
    case Call(_, arguments) => forall i | 0 <= i < |arguments| :: Faithful(t, arguments[i], dryRun)
    case Not(operand) => Guarded(t, operand, dryRun)
    case Compare(_, left, right) => Faithful(t, left, dryRun) && Faithful(t, right, dryRun)
    case And(left, right) => Guarded(t, left, dryRun) && Guarded(t, right, dryRun)
    case Or(left, right) => Guarded(t, left, dryRun) && Guarded(t, right, dryRun)
    case _ => true
  }

  /** A faithful tree's known value is the value every run gives it. */
  lemma {:induction false} KnownValuesAreReal(t: Text, w: World, tree: Tree, dryRun: bool)
    requires Written(tree) && Faithful(t, tree, dryRun)
    ensures var v := Evaluate(t, tree, dryRun); v.Known? ==> v.value == Happens(t, w, tree, dryRun) && Scalar(v.value)
    decreases tree, 1
  {
    if tree.And? || tree.Or? {
      KnownValuesAreReal(t, w, tree.left, dryRun);
      KnownValuesAreReal(t, w, tree.right, dryRun);
    } else if tree.Not? {
      DecidedTruthIsReal(t, w, tree, dryRun);
    } else if tree.Compare? {
      KnownValuesAreReal(t, w, tree.left, dryRun);
      KnownValuesAreReal(t, w, tree.right, dryRun);
    } else if tree.Call? && |tree.arguments| == 2 {
      KnownValuesAreReal(t, w, tree.arguments[0], dryRun);
      KnownValuesAreReal(t, w, tree.arguments[1], dryRun);
    }
  }

  /**
   Soundness: whatever every other context holds and every call returns, a condition whose truth
   the interpreter decides has that truth.
   */
  lemma {:induction false} DecidedTruthIsReal(t: Text, w: World, tree: Tree, dryRun: bool)
    requires Written(tree) && Guarded(t, tree, dryRun)
    ensures var d := Decide(Evaluate(t, tree, dryRun)); d.Decided? ==> d.truth == Truthy(Happens(t, w, tree, dryRun))
    decreases tree, 0
  {
    if tree.And? || tree.Or? {
      DecidedTruthIsReal(t, w, tree.left, dryRun);
      DecidedTruthIsReal(t, w, tree.right, dryRun);
    } else if tree.Not? {
      DecidedTruthIsReal(t, w, tree.operand, dryRun);
    } else if tree.Compare? {
      KnownValuesAreReal(t, w, tree.left, dryRun);
      KnownValuesAreReal(t, w, tree.right, dryRun);
    } else if tree.Call? && |tree.arguments| == 2 {
      KnownValuesAreReal(t, w, tree.arguments[0], dryRun);
      KnownValuesAreReal(t, w, tree.arguments[1], dryRun);
    }
  }

  predicate IsJunction(tree: Tree) {
    tree.And? || tree.Or?
  }

  /** The guard one can read off a condition: no junction directly under a comparison or a call. */
  predicate Plain(tree: Tree)
    decreases tree
  {
    match tree
    case Call(_, arguments) => forall i | 0 <= i < |arguments| :: !IsJunction(arguments[i]) && Plain(arguments[i])
    case Not(operand) => Plain(operand)
    case Compare(_, left, right) => !IsJunction(left) && !IsJunction(right) && Plain(left) && Plain(right)
    case And(left, right) => Plain(left) && Plain(right)
    case Or(left, right) => Plain(left) && Plain(right)
    case _ => true
  }

  lemma {:induction false} PlainIsGuarded(t: Text, tree: Tree, dryRun: bool)
    requires Plain(tree)
    ensures Guarded(t, tree, dryRun)
    decreases tree
  {
    match tree
    case Call(_, arguments) =>
      forall i | 0 <= i < |arguments| ensures Faithful(t, arguments[i], dryRun) {
        PlainIsGuarded(t, arguments[i], dryRun);
      }
    case Not(operand) => PlainIsGuarded(t, operand, dryRun);
    case Compare(_, left, right) =>
      PlainIsGuarded(t, left, dryRun);
      PlainIsGuarded(t, right, dryRun);
    case And(left, right) =>
      PlainIsGuarded(t, left, dryRun);
      PlainIsGuarded(t, right, dryRun);
    case Or(left, right) =>
      PlainIsGuarded(t, left, dryRun);
      PlainIsGuarded(t, right, dryRun);
    case _ =>
  }

  // --- what the check concludes --------------------------------------------------------------------

  datatype Class = Gated | Plan | Ungated | Unrecognised

  /** A step's condition, as it parsed (or did not), and whether its text names the input. */
  function Classify(t: Text, condition: Option<Tree>, mentions: bool): Class {
    if condition.None? then (if mentions then Unrecognised else Ungated)
    else if Decide(Evaluate(t, condition.value, true)) == Decided(false) then Gated
    else if mentions && Decide(Evaluate(t, condition.value, false)) == Decided(false) then Plan
    else if mentions then Unrecognised
    else Ungated
  }

  /**
   No condition that names the input goes unjudged: it is gated, the plan, or reported; and only
   one that names it is ever reported. A condition is passed over exactly when it does not name the
   input and is not gated all the same.
   */
  lemma AMentionIsJudged(t: Text, condition: Option<Tree>, mentions: bool)
    ensures var verdict := Classify(t, condition, mentions);
            && (mentions ==> verdict != Ungated)
            && (verdict == Unrecognised ==> mentions)
            && (verdict == Ungated <==> !mentions && verdict != Gated)
            && (condition.None? ==> verdict == if mentions then Unrecognised else Ungated)
            && (verdict == Unrecognised && condition.Some? ==>
                  Decide(Evaluate(t, condition.value, true)) != Decided(false) && Decide(Evaluate(t, condition.value, false)) != Decided(false))
  {
    hide Evaluate;
  }

  /** A gated step runs on no dry run, and a plan step on no real one, whatever the unknowns are. */
  lemma GatedStepsNeverRunDry(t: Text, w: World, tree: Tree, mentions: bool)
    requires Written(tree)
    ensures Classify(t, Some(tree), mentions) == Gated && Guarded(t, tree, true) ==> !Truthy(Happens(t, w, tree, true))
    ensures Classify(t, Some(tree), mentions) == Plan && Guarded(t, tree, false) ==> !Truthy(Happens(t, w, tree, false))
  {
    hide Evaluate, Guarded, Happens;
    if Guarded(t, tree, true) {
      DecidedTruthIsReal(t, w, tree, true);
    }
    if Guarded(t, tree, false) {
      DecidedTruthIsReal(t, w, tree, false);
    }
  }

  function ActorsTree(): Tree {
    Or(Property(Context("github"), "actor"), Literal(Bool(true)))
  }

  lemma AnActorIsUnknown(t: Text)
    ensures Evaluate(t, ActorsTree(), true) == Known(Bool(true)) && Evaluate(t, ActorsTree(), false) == Known(Bool(true))
    ensures Written(ActorsTree())
    ensures InputAt(PathOf(t, Property(Context("github"), "actor")), true).None?
    ensures InputAt(PathOf(t, Property(Context("github"), "actor")), false).None?
  {
    var actor := Property(Context("github"), "actor");
    assert PathOf(t, Context("github")) == Some(["github"]);
    assert ["github"] + ["actor"] == ["github", "actor"];
    assert PathOf(t, actor) == Some(["github", "actor"]);
    assert |["github", "actor"]| == 2;
    assert InputAt(PathOf(t, actor), true).None? && InputAt(PathOf(t, actor), false).None?;
  }

  lemma AWordIsNoNumber(t: Text)
    requires t.strip("word") == "word" && t.decimal("word").None?
    ensures TextNumber(t, "word") == NaN
  {
    assert "word"[0] == 'w' && "0x"[0] == '0' && "0o"[0] == '0' && "Infinity"[0] == 'I' && "-Infinity"[0] == '-';
  }

  /**
   What the guard keeps out: `!((github.actor || true) == true)` is classified as gated, and runs
   on a dry run whose actor is named by a word.
   */
  lemma AGatedStepThatRuns(t: Text, w: World)
    requires t.strip("word") == "word" && t.decimal("word").None?
    requires w.context(Property(Context("github"), "actor")) == Str("word")
    ensures var tree := Not(Compare(Equal, ActorsTree(), Literal(Bool(true))));
            Written(tree) && Classify(t, Some(tree), false) == Gated && Truthy(Happens(t, w, tree, true))
  {
    hide TextNumber, PathOf;
    AnActorIsUnknown(t);
    AWordIsNoNumber(t);
    assert Happens(t, w, ActorsTree(), true) == Str("word");
    var same := Compare(Equal, ActorsTree(), Literal(Bool(true)));
    assert Evaluate(t, same, true) == Known(Bool(true));
    assert Happens(t, w, same, true) == Bool(false);
  }

  /** The guard the check asks for is one it accepts, in both of its spellings. */
  lemma TheAskedGuardsAreGates(t: Text)
    ensures var input := Property(Context("inputs"), "dry_run");
            && Classify(t, Some(Compare(Differ, input, Literal(Bool(true)))), true) == Gated
            && Classify(t, Some(Not(input)), true) == Gated
            && Classify(t, Some(Not(Compare(Differ, input, Literal(Bool(true))))), true) == Plan
  {
    var input := Property(Context("inputs"), "dry_run");
    assert PathOf(t, Context("inputs")) == Some(["inputs"]);
    assert ["inputs"] + ["dry_run"] == ["inputs", "dry_run"];
    assert PathOf(t, input) == Some(["inputs", "dry_run"]);
    assert Evaluate(t, input, true) == Known(Bool(true)) && Evaluate(t, input, false) == Known(Bool(false));
    var differs := Compare(Differ, input, Literal(Bool(true)));
    assert Evaluate(t, differs, true) == Known(Bool(false)) && Evaluate(t, differs, false) == Known(Bool(true));
  }
}
