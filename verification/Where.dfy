/** Re-printing a rewritten WHERE tree with few parentheses. */
module Where {

  datatype Comparison = Eq | Lt | Gt | Le | Ge | Ne | Is | IsNot

  datatype Op = AndOp | OrOp | NotOp | Compare(c: Comparison) | BetweenOp | InOp | LikeOp | Dot | Uminus | Uplus
              | Integer | Id | Str

  datatype Link = Null | To(node: Expr)

  /** `sql_expr_t`. */
  datatype Expr = Expr(op: Op, left: Link, right: Link, list: seq<Expr>, text: string, num: nat)

  datatype Token = AND | OR | NOT | BETWEEN | IN | LIKE | ESCAPE | LParen | RParen | Comma | Relation(c: Comparison)
                 | Name(text: string) | Period | Minus | Num(n: nat) | Text(s: string)

  // ---------------------------------------------------------------- the printer

  /** `sql_expr_is_leaf_node`. */
  predicate IsLeaf(e: Expr) {
    || (e.op.Dot? && e.left.To? && e.right.To?)
    || (e.op.Uminus? && e.left.To?)
    || (e.op.Uplus? && e.left.To?)
    || e.op.BetweenOp? || e.op.NotOp? || e.op.InOp?
  }

  function TextOf(l: Link): string { if l.To? then l.node.text else "" }

  /** A name, a number or a string.  A sign is printed with the number of its own node, and of a qualified name the
      texts of the two children. */
  function LeafThen(e: Expr, rest: seq<Token>): seq<Token> {
    match e.op
    case Dot => [Name(TextOf(e.left)), Period, Name(TextOf(e.right))] + rest
    case Uminus => [Minus, Num(e.num)] + rest
    case Uplus => [Num(e.num)] + rest
    case Integer => [Num(e.num)] + rest
    case Str => [Text(e.text)] + rest
    case _ => [Name(e.text)] + rest
  }

  /** `sql_append_expr`, in front of the tokens printed later.  (The operand of a BETWEEN or an IN is there; where it is
      not, nothing is printed here and the source has no defined result.) */
  function AppendThen(e: Expr, rest: seq<Token>): seq<Token>
    decreases e, 0
  {
    match e.op
    case AndOp => [AND] + rest
    case OrOp => [OR] + rest
    case Compare(c) => [Relation(c)] + rest
    case NotOp => [NOT, LParen] + LinkThen(e.left, [RParen] + rest)
    case BetweenOp =>
      if e.left.Null? then rest
      else
        AppendThen(e.left.node, [BETWEEN] +
          if |e.list| == 2 then TraverseThen(e.list[0], [AND] + TraverseThen(e.list[1], rest)) else rest)
    case InOp => if e.left.Null? then rest
      else AppendThen(e.left.node, [IN, LParen] + ListThen(e.list, [RParen] + rest))
    case LikeOp => if e.list == [] then rest else TraverseThen(e.list[0], [LIKE] + PatternThen(e.list[1..], rest))
    case _ => LeafThen(e, rest)
  }

  /** The pattern of a LIKE and, if there is one, its escape character. */
  function PatternThen(list: seq<Expr>, rest: seq<Token>): seq<Token>
    decreases list, 1
  {
    if list == [] then rest
    else AppendThen(list[0], if |list| > 1 then [ESCAPE] + AppendThen(list[1], rest) else rest)
  }

  function ListThen(list: seq<Expr>, rest: seq<Token>): seq<Token>
    decreases list, 1
  {
    if list == [] then rest
    else AppendThen(list[0], if |list| > 1 then [Comma] + ListThen(list[1..], rest) else rest)
  }

  /** A child under its parent: in parentheses if it is an OR under an AND. */
  function ChildThen(parent: Op, child: Link, rest: seq<Token>): seq<Token>
    decreases child, 2
  {
    if parent.AndOp? && child.To? && child.node.op.OrOp? then [LParen] + LinkThen(child, [RParen] + rest)
      else LinkThen(child, rest)
  }

  function LinkThen(l: Link, rest: seq<Token>): seq<Token>
    decreases l, 1
  {
    if l.Null? then rest else TraverseThen(l.node, rest)
  }

  /** `sql_expr_traverse`. */
  function TraverseThen(e: Expr, rest: seq<Token>): seq<Token>
    decreases e, 1
  {
    if IsLeaf(e) then AppendThen(e, rest)
    else ChildThen(e.op, e.left, AppendThen(e, ChildThen(e.op, e.right, rest)))
  }

  // ---------------------------------------------------------------- meaning

  datatype Truth = True | False | Unknown

  function And3(a: Truth, b: Truth): Truth {
    if a.False? || b.False? then False else if a.Unknown? || b.Unknown? then Unknown else True
  }

  function Not3(a: Truth): Truth {
    if a.True? then False else if a.False? then True else Unknown
  }

  function Or3(a: Truth, b: Truth): Truth {
    if a.True? || b.True? then True else if a.Unknown? || b.Unknown? then Unknown else False
  }

  /** The value of a scalar operand: a column by its name, qualified or not, a number, or a string. */
  datatype Operand = Column(names: seq<string>) | Number(n: int) | Quoted(s: string)

  datatype Option<T> = None | Some(value: T)

  /** The integer a literal with any number of signs stands for. */
  ghost function IntValue(e: Expr): Option<int> {
    match e.op
    case Integer => Some(e.num)
    case Uminus =>
      var v := if e.left.To? then IntValue(e.left.node) else None;
      if v.Some? then Some(-v.value) else None
    case Uplus => if e.left.To? then IntValue(e.left.node) else None
    case _ => None
  }

  /** A name or a qualified name. */
  ghost predicate IsName(e: Expr) {
    e.op.Id? || (e.op.Dot? && e.left.To? && e.right.To? && IsName(e.left.node) && IsName(e.right.node))
  }

  ghost function Names(e: Expr): seq<string> {
    if e.op.Dot? && e.left.To? && e.right.To? then Names(e.left.node) + Names(e.right.node) else [e.text]
  }

  ghost predicate IsOperand(e: Expr) {
    match e.op
    case Dot => IsName(e)
    case Uminus => IntValue(e).Some?
    case Uplus => IntValue(e).Some?
    case Integer => e.left.Null? && e.right.Null?
    case Id => e.left.Null? && e.right.Null?
    case Str => e.left.Null? && e.right.Null?
    case _ => false
  }

  /** What an operand of the tree stands for. */
  ghost function ValueOf(e: Expr): Operand {
    if e.op.Str? then Quoted(e.text)
    else if IntValue(e).Some? then Number(IntValue(e).value)
    else Column(Names(e))
  }

  /** What the tokens printed for it stand for. */
  ghost function Shown(e: Expr): Operand {
    match e.op
    case Dot => Column([TextOf(e.left), TextOf(e.right)])
    case Uminus => Number(-(e.num as int))
    case Uplus => Number(e.num)
    case Integer => Number(e.num)
    case Str => Quoted(e.text)
    case _ => Column([e.text])
  }

  /** The printer shows the operand as it is: a sign node carries the number of what is under it, and a qualified name
      has two parts. */
  ghost predicate Exact(e: Expr) {
    match e.op
    case Dot => e.left.To? && e.left.node.op.Id? && e.right.To? && e.right.node.op.Id?
    case Uminus => e.left.To? && IntValue(e.left.node) == Some(e.num)
    case Uplus => e.left.To? && IntValue(e.left.node) == Some(e.num)
    case _ => true
  }

  /** What an assignment gives a truth value to. */
  datatype Atom = Comparing(c: Comparison, x: Operand, y: Operand) | Ranging(x: Operand, bounds: seq<Operand>)
                | Among(x: Operand, list: seq<Operand>) | Matching(list: seq<Operand>)

  ghost predicate AllOperands(list: seq<Expr>) { forall i :: 0 <= i < |list| ==> IsOperand(list[i]) }

  ghost predicate AllExact(list: seq<Expr>) { forall i :: 0 <= i < |list| ==> Exact(list[i]) }

  /** A predicate on scalar operands. */
  ghost predicate PredicateOk(e: Expr) {
    match e.op
    case Compare(c) => e.left.To? && e.right.To? && IsOperand(e.left.node) && IsOperand(e.right.node)
    case BetweenOp => e.left.To? && IsOperand(e.left.node) && |e.list| == 2 && AllOperands(e.list)
    case InOp => e.left.To? && IsOperand(e.left.node) && e.list != [] && AllOperands(e.list)
    case LikeOp => e.left.Null? && e.right.Null? && 2 <= |e.list| <= 3 && AllOperands(e.list)
    case _ => false
  }

  /** The tree is a search condition: AND, OR and NOT over predicates on scalar operands. */
  ghost predicate Condition(e: Expr) {
    if e.op.AndOp? || e.op.OrOp? then
      e.left.To? && e.right.To? && Condition(e.left.node) && Condition(e.right.node)
    else if e.op.NotOp? then e.left.To? && Condition(e.left.node)
    else PredicateOk(e)
  }

  ghost predicate PredicateExact(e: Expr)
    requires PredicateOk(e)
  {
    match e.op
    case Compare(c) => Exact(e.left.node) && Exact(e.right.node)
    case BetweenOp => Exact(e.left.node) && AllExact(e.list)
    case InOp => Exact(e.left.node) && AllExact(e.list)
    case LikeOp => AllExact(e.list)
  }

  /** All operands of a condition are shown as they are. */
  ghost predicate ExactTree(e: Expr)
    requires Condition(e)
  {
    if e.op.AndOp? || e.op.OrOp? then ExactTree(e.left.node) && ExactTree(e.right.node)
    else if e.op.NotOp? then ExactTree(e.left.node)
    else PredicateExact(e)
  }

  /** An operand as it is, or as it is shown. */
  ghost function OperandOf(e: Expr, shown: bool): Operand { if shown then Shown(e) else ValueOf(e) }

  ghost function Operands(list: seq<Expr>, shown: bool): seq<Operand> {
    if list == [] then [] else [OperandOf(list[0], shown)] + Operands(list[1..], shown)
  }

  ghost function OperandAt(l: Link, shown: bool): Operand { if l.To? then OperandOf(l.node, shown) else Column([]) }

  /** The atom a predicate is. */
  ghost function AtomOf(e: Expr, shown: bool): Atom {
    match e.op
    case Compare(c) => Comparing(c, OperandAt(e.left, shown), OperandAt(e.right, shown))
    case BetweenOp => Ranging(OperandAt(e.left, shown), Operands(e.list, shown))
    case InOp => Among(OperandAt(e.left, shown), Operands(e.list, shown))
    case _ => Matching(Operands(e.list, shown))
  }

  /** The truth value of a tree, with its operands as they are or as they are shown. */
  ghost function Meaning(e: Expr, assign: Atom -> Truth, shown: bool): Truth
    requires Condition(e)
  {
    if e.op.AndOp? then And3(Meaning(e.left.node, assign, shown), Meaning(e.right.node, assign, shown))
    else if e.op.OrOp? then Or3(Meaning(e.left.node, assign, shown), Meaning(e.right.node, assign, shown))
    else if e.op.NotOp? then Not3(Meaning(e.left.node, assign, shown))
    else assign(AtomOf(e, shown))
  }

  // ------------------------------------------------- reference: the grammar of section 8.12 of ISO/IEC 9075:1992

  datatype Result = Bad | Good(truth: Truth, rest: seq<Token>)

  ghost predicate Starts(ts: seq<Token>, t: Token) { ts != [] && ts[0] == t }

  ghost function Search(ts: seq<Token>, assign: Atom -> Truth): (r: Result)
    ensures r.Good? ==> |r.rest| < |ts|
    decreases |ts|, 4
  {
    var r := Term(ts, assign);
    if r.Bad? then Bad else SearchTail(r.truth, r.rest, assign)
  }

  ghost function SearchTail(v: Truth, ts: seq<Token>, assign: Atom -> Truth): (r: Result)
    ensures r.Good? ==> |r.rest| <= |ts|
    decreases |ts|, 5
  {
    if !Starts(ts, OR) then Good(v, ts)
    else
      var r := Term(ts[1..], assign);
      if r.Bad? then Bad else SearchTail(Or3(v, r.truth), r.rest, assign)
  }

  ghost function Term(ts: seq<Token>, assign: Atom -> Truth): (r: Result)
    ensures r.Good? ==> |r.rest| < |ts|
    decreases |ts|, 2
  {
    var r := Factor(ts, assign);
    if r.Bad? then Bad else TermTail(r.truth, r.rest, assign)
  }

  ghost function TermTail(v: Truth, ts: seq<Token>, assign: Atom -> Truth): (r: Result)
    ensures r.Good? ==> |r.rest| <= |ts|
    decreases |ts|, 3
  {
    if !Starts(ts, AND) then Good(v, ts)
    else
      var r := Factor(ts[1..], assign);
      if r.Bad? then Bad else TermTail(And3(v, r.truth), r.rest, assign)
  }

  ghost function Factor(ts: seq<Token>, assign: Atom -> Truth): (r: Result)
    ensures r.Good? ==> |r.rest| < |ts|
    decreases |ts|, 1
  {
    if !Starts(ts, NOT) then Primary(ts, assign)
    else
      var r := Primary(ts[1..], assign);
      if r.Bad? then Bad else Good(Not3(r.truth), r.rest)
  }

  ghost function Primary(ts: seq<Token>, assign: Atom -> Truth): (r: Result)
    ensures r.Good? ==> |r.rest| < |ts|
    decreases |ts|, 0
  {
    if !Starts(ts, LParen) then Predicate(ts, assign)
    else
      var r := Search(ts[1..], assign);
      if r.Bad? || !Starts(r.rest, RParen) then Bad else Good(r.truth, r.rest[1..])
  }

  ghost function Predicate(ts: seq<Token>, assign: Atom -> Truth): (r: Result)
    ensures r.Good? ==> |r.rest| < |ts|
  {
    var x := ReadScalar(ts);
    if x.Missing? || x.rest == [] then Bad
    else
      match x.rest[0]
      case Relation(c) => Compared(c, x.value, x.rest[1..], assign)
      case BETWEEN => Range(x.value, x.rest[1..], assign)
      case IN => Membership(x.value, x.rest[1..], assign)
      case LIKE => Pattern(x.value, x.rest[1..], assign)
      case _ => Bad
  }

  ghost function Compared(c: Comparison, x: Operand, ts: seq<Token>, assign: Atom -> Truth): (r: Result)
    ensures r.Good? ==> |r.rest| < |ts|
  {
    var y := ReadScalar(ts);
    if y.Missing? then Bad else Good(assign(Comparing(c, x, y.value)), y.rest)
  }

  ghost function Range(x: Operand, ts: seq<Token>, assign: Atom -> Truth): (r: Result)
    ensures r.Good? ==> |r.rest| < |ts|
  {
    var low := ReadScalar(ts);
    if low.Missing? || !Starts(low.rest, AND) then Bad
    else
      var high := ReadScalar(low.rest[1..]);
      if high.Missing? then Bad else Good(assign(Ranging(x, [low.value, high.value])), high.rest)
  }

  ghost function Membership(x: Operand, ts: seq<Token>, assign: Atom -> Truth): (r: Result)
    ensures r.Good? ==> |r.rest| < |ts|
  {
    if !Starts(ts, LParen) then Bad
    else
      var (list, rest) := Values(ts[1..]);
      if list != [] && Starts(rest, RParen) then Good(assign(Among(x, list)), rest[1..]) else Bad
  }

  ghost function Pattern(x: Operand, ts: seq<Token>, assign: Atom -> Truth): (r: Result)
    ensures r.Good? ==> |r.rest| < |ts|
  {
    var y := ReadScalar(ts);
    if y.Missing? then Bad
    else if !Starts(y.rest, ESCAPE) then Good(assign(Matching([x, y.value])), y.rest)
    else
      var z := ReadScalar(y.rest[1..]);
      if z.Missing? then Bad else Good(assign(Matching([x, y.value, z.value])), z.rest)
  }

  ghost function Values(ts: seq<Token>): (r: (seq<Operand>, seq<Token>))
    ensures |r.1| <= |ts|
    decreases |ts|
  {
    var x := ReadScalar(ts);
    if x.Missing? then ([], ts)
    else if Starts(x.rest, Comma) then
      var (list, rest) := Values(x.rest[1..]);
      if list == [] then ([], ts) else ([x.value] + list, rest)
    else ([x.value], x.rest)
  }

  datatype Scalar = Missing | Found(value: Operand, rest: seq<Token>)

  /** A scalar operand: a column name, an unsigned or a negative number, or a string. */
  ghost function ReadScalar(ts: seq<Token>): (r: Scalar)
    ensures r.Found? ==> |r.rest| < |ts|
  {
    if ts == [] then Missing
    else
      match ts[0]
      case Name(_) => var (names, rest) := ReadNames(ts); Found(Column(names), rest)
      case Num(n) => Found(Number(n), ts[1..])
      case Minus => if |ts| > 1 && ts[1].Num? then Found(Number(-(ts[1].n as int)), ts[2..]) else Missing
      case Text(s) => Found(Quoted(s), ts[1..])
      case _ => Missing
  }

  ghost function ReadNames(ts: seq<Token>): (r: (seq<string>, seq<Token>))
    requires ts != [] && ts[0].Name?
    ensures |r.1| < |ts|
  {
    if |ts| > 2 && ts[1].Period? && ts[2].Name? then
      var (names, rest) := ReadNames(ts[2..]);
      ([ts[0].text] + names, rest)
    else ([ts[0].text], ts[1..])
  }

  // ---------------------------------------------------------------- operands

  /** What may follow a predicate: nothing that continues its last operand. */
  ghost predicate Ends(rest: seq<Token>) { !Starts(rest, ESCAPE) && !Starts(rest, Period) }

  lemma {:induction false} NameRead(text: string, rest: seq<Token>)
    requires !Starts(rest, Period)
    ensures ReadNames([Name(text)] + rest) == ([text], rest)
  {
    var ts := [Name(text)] + rest;
    assert ts[1..] == rest && (rest != [] ==> ts[1] == rest[0]);
  }

  lemma {:induction false} QualifiedRead(a: string, b: string, rest: seq<Token>)
    requires !Starts(rest, Period)
    ensures ReadNames([Name(a), Period, Name(b)] + rest) == ([a, b], rest)
  {
    var ts := [Name(a), Period, Name(b)] + rest;
    assert ts[2..] == [Name(b)] + rest && [a] + [b] == [a, b];
    NameRead(b, rest);
  }

  /** The tokens printed for an operand stand for what is shown. */
  lemma {:induction false} OperandRead(e: Expr, rest: seq<Token>)
    requires IsOperand(e) && !Starts(rest, Period)
    ensures ReadScalar(AppendThen(e, rest)) == Found(Shown(e), rest) && TraverseThen(e, rest) == AppendThen(e, rest)
  {
    assert AppendThen(e, rest) == LeafThen(e, rest);
    match e.op
    case Dot => QualifiedRead(TextOf(e.left), TextOf(e.right), rest);
    case Uminus => assert ([Minus, Num(e.num)] + rest)[2..] == rest;
    case Uplus => assert ([Num(e.num)] + rest)[1..] == rest;
    case Integer => assert ([Num(e.num)] + rest)[1..] == rest;
    case Str => assert ([Text(e.text)] + rest)[1..] == rest;
    case Id => NameRead(e.text, rest);
  }

  lemma {:induction false} NamesCount(e: Expr)
    requires IsName(e)
    ensures |Names(e)| >= 1 && (e.op.Dot? ==> |Names(e)| >= 2)
  {
    if e.op.Dot? {
      NamesCount(e.left.node);
      NamesCount(e.right.node);
    }
  }

  /** An operand is shown as what it stands for if and only if it is exact. */
  lemma {:induction false} ShownIsValue(e: Expr)
    requires IsOperand(e)
    ensures Shown(e) == ValueOf(e) <==> Exact(e)
  {
    if e.op.Dot? {
      NamesCount(e.left.node);
      NamesCount(e.right.node);
      assert Exact(e) ==> Names(e) == [TextOf(e.left), TextOf(e.right)];
      assert !Exact(e) ==> |Names(e)| > 2;
    }
  }

  lemma {:induction false} ShownAreValues(list: seq<Expr>)
    requires AllOperands(list)
    ensures Operands(list, true) == Operands(list, false) <==> AllExact(list)
    ensures |Operands(list, true)| == |Operands(list, false)| == |list|
  {
    if list != [] {
      ShownIsValue(list[0]);
      ShownAreValues(list[1..]);
      assert Operands(list, true)[0] == Shown(list[0]) && Operands(list, true)[1..] == Operands(list[1..], true);
      assert Operands(list, false)[0] == ValueOf(list[0]) && Operands(list, false)[1..] == Operands(list[1..], false);
      assert AllExact(list) <==> Exact(list[0]) && AllExact(list[1..]) by { TailExact(list); }
    }
  }

  lemma {:induction false} TailExact(list: seq<Expr>)
    requires list != []
    ensures AllExact(list) <==> Exact(list[0]) && AllExact(list[1..])
  {
    if Exact(list[0]) && AllExact(list[1..]) {
      forall i | 0 <= i < |list| ensures Exact(list[i]) { if i > 0 { assert list[i] == list[1..][i - 1]; } }
    }
  }

  lemma {:induction false} ShownAtom(e: Expr)
    requires PredicateOk(e)
    ensures AtomOf(e, true) == AtomOf(e, false) <==> PredicateExact(e)
  {
    if e.left.To? && IsOperand(e.left.node) { ShownIsValue(e.left.node); }
    if e.op.Compare? { ShownIsValue(e.right.node); } else { ShownAreValues(e.list); }
  }

  // ---------------------------------------------------------------- the printed tokens mean what the tree means

  /** A binary node other than AND. */
  lemma {:induction false} InfixPrinted(e: Expr, rest: seq<Token>)
    requires e.left.To? && e.right.To? && (e.op.OrOp? || e.op.Compare?)
    ensures TraverseThen(e, rest) == TraverseThen(e.left.node, AppendThen(e, TraverseThen(e.right.node, rest)))
  {
    assert ChildThen(e.op, e.right, rest) == LinkThen(e.right, rest);
    var tail := AppendThen(e, TraverseThen(e.right.node, rest));
    assert ChildThen(e.op, e.left, tail) == LinkThen(e.left, tail);
  }

  /** An operand in front of a predicate's operator. */
  lemma {:induction false} OperatorRead(ts: seq<Token>, x: Operand, t: Token, rest: seq<Token>, assign: Atom -> Truth)
    requires ReadScalar(ts) == Found(x, [t] + rest)
    ensures Factor(ts, assign) == match t
                                  case Relation(c) => Compared(c, x, rest, assign)
                                  case BETWEEN => Range(x, rest, assign)
                                  case IN => Membership(x, rest, assign)
                                  case LIKE => Pattern(x, rest, assign)
                                  case _ => Bad
  {
    Behind(t, rest);
  }

  lemma {:induction false} ListRead(list: seq<Expr>, rest: seq<Token>)
    requires list != [] && !Starts(rest, Comma) && !Starts(rest, Period) && AllOperands(list)
    ensures Values(ListThen(list, rest)) == (Operands(list, true), rest) && Operands(list, true) != []
  {
    var more := if |list| > 1 then [Comma] + ListThen(list[1..], rest) else rest;
    OperandRead(list[0], more);
    if |list| > 1 {
      ListRead(list[1..], rest);
      Behind(Comma, ListThen(list[1..], rest));
    } else {
      assert Operands(list, true) == [Shown(list[0])] + Operands(list[1..], true) == [Shown(list[0])];
    }
  }

  lemma {:induction false} ComparisonRead(e: Expr, rest: seq<Token>, assign: Atom -> Truth)
    requires PredicateOk(e) && e.op.Compare? && Ends(rest)
    ensures Factor(TraverseThen(e, rest), assign) == Good(assign(AtomOf(e, true)), rest)
  {
    var x, y, t := e.left.node, e.right.node, Relation(e.op.c);
    InfixPrinted(e, rest);
    OperandRead(y, rest);
    OperandRead(x, [t] + AppendThen(y, rest));
    OperatorRead(TraverseThen(e, rest), Shown(x), t, AppendThen(y, rest), assign);
  }

  lemma {:induction false} RangeRead(e: Expr, rest: seq<Token>, assign: Atom -> Truth)
    requires PredicateOk(e) && e.op.BetweenOp? && Ends(rest)
    ensures Factor(TraverseThen(e, rest), assign) == Good(assign(AtomOf(e, true)), rest)
  {
    var x, low, high := e.left.node, e.list[0], e.list[1];
    OperandRead(high, rest);
    OperandRead(low, [AND] + AppendThen(high, rest));
    Behind(AND, AppendThen(high, rest));
    var bounds := AppendThen(low, [AND] + AppendThen(high, rest));
    OperandRead(x, [BETWEEN] + bounds);
    assert TraverseThen(e, rest) == AppendThen(x, [BETWEEN] + bounds);
    OperatorRead(TraverseThen(e, rest), Shown(x), BETWEEN, bounds, assign);
    OperandsOfList(e.list);
  }

  lemma {:induction false} MembershipRead(e: Expr, rest: seq<Token>, assign: Atom -> Truth)
    requires PredicateOk(e) && e.op.InOp? && Ends(rest)
    ensures Factor(TraverseThen(e, rest), assign) == Good(assign(AtomOf(e, true)), rest)
  {
    var x, list := e.left.node, ListThen(e.list, [RParen] + rest);
    ListRead(e.list, [RParen] + rest);
    Behind(RParen, rest);
    Behind(LParen, list);
    assert [IN, LParen] + list == [IN] + ([LParen] + list);
    OperandRead(x, [IN] + ([LParen] + list));
    assert TraverseThen(e, rest) == AppendThen(x, [IN] + ([LParen] + list));
    OperatorRead(TraverseThen(e, rest), Shown(x), IN, [LParen] + list, assign);
  }

  lemma {:induction false} LikePrinted(e: Expr, rest: seq<Token>)
    requires PredicateOk(e) && e.op.LikeOp?
    ensures TraverseThen(e, rest)
            == TraverseThen(e.list[0], [LIKE]
              + AppendThen(e.list[1], if |e.list| == 3 then [ESCAPE] + AppendThen(e.list[2], rest) else rest))
  {
    assert ChildThen(e.op, e.right, rest) == rest;
    assert ChildThen(e.op, e.left, AppendThen(e, rest)) == AppendThen(e, rest);
    var pattern, tail := e.list[1..], if |e.list| == 3 then [ESCAPE] + AppendThen(e.list[2], rest) else rest;
    assert pattern[0] == e.list[1] && (|e.list| == 3 ==> pattern[1] == e.list[2]);
    assert PatternThen(pattern, rest) == AppendThen(pattern[0], tail);
    assert AppendThen(e, rest) == TraverseThen(e.list[0], [LIKE] + PatternThen(pattern, rest));
    assert !IsLeaf(e);
  }

  lemma {:induction false} OperandsOfList(list: seq<Expr>)
    requires 2 <= |list| <= 3
    ensures Operands(list, true) == if |list| == 2 then [Shown(list[0]), Shown(list[1])]
                                    else [Shown(list[0]), Shown(list[1]), Shown(list[2])]
  {
    var rest := list[1..];
    var last := rest[1..];
    assert Operands(rest, true) == [Shown(list[1])] + Operands(last, true);
    if |list| == 3 {
      assert last[1..] == [] && Operands(last, true) == [Shown(list[2])];
    }
  }

  lemma {:induction false} LikeRead(e: Expr, rest: seq<Token>, assign: Atom -> Truth)
    requires PredicateOk(e) && e.op.LikeOp? && Ends(rest)
    ensures Factor(TraverseThen(e, rest), assign) == Good(assign(AtomOf(e, true)), rest)
  {
    var x, y := e.list[0], e.list[1];
    var tail := if |e.list| == 3 then [ESCAPE] + AppendThen(e.list[2], rest) else rest;
    LikePrinted(e, rest);
    OperandsOfList(e.list);
    OperandRead(y, tail);
    OperandRead(x, [LIKE] + AppendThen(y, tail));
    OperatorRead(TraverseThen(e, rest), Shown(x), LIKE, AppendThen(y, tail), assign);
    if |e.list| == 3 {
      OperandRead(e.list[2], rest);
      Behind(ESCAPE, AppendThen(e.list[2], rest));
    }
  }

  /** A predicate is read as one factor; the AND of a BETWEEN stays inside it. */
  lemma {:induction false} PredicateRead(e: Expr, rest: seq<Token>, assign: Atom -> Truth)
    requires PredicateOk(e) && Ends(rest)
    ensures Factor(TraverseThen(e, rest), assign) == Good(assign(AtomOf(e, true)), rest)
  {
    match e.op
    case Compare(c) => ComparisonRead(e, rest, assign);
    case BetweenOp => RangeRead(e, rest, assign);
    case InOp => MembershipRead(e, rest, assign);
    case LikeOp => LikeRead(e, rest, assign);
  }

  lemma {:induction false} Behind(t: Token, ts: seq<Token>)
    ensures Starts([t] + ts, t) && ([t] + ts)[1..] == ts
  {
  }

  /** A condition in parentheses is a factor. */
  lemma {:induction false} GroupRead(e: Expr, rest: seq<Token>, assign: Atom -> Truth)
    requires Condition(e)
    ensures Primary([LParen] + TraverseThen(e, [RParen] + rest), assign) == Good(Meaning(e, assign, true), rest)
    ensures Factor([LParen] + TraverseThen(e, [RParen] + rest), assign) == Good(Meaning(e, assign, true), rest)
    decreases e, 4
  {
    SearchRead(e, [RParen] + rest, assign);
    Behind(LParen, TraverseThen(e, [RParen] + rest));
    Behind(RParen, rest);
  }

  lemma {:induction false} NegationRead(e: Expr, rest: seq<Token>, assign: Atom -> Truth)
    requires Condition(e) && e.op.NotOp?
    ensures Factor(TraverseThen(e, rest), assign) == Good(Meaning(e, assign, true), rest)
    decreases e, 0
  {
    GroupRead(e.left.node, rest, assign);
    var group := [LParen] + TraverseThen(e.left.node, [RParen] + rest);
    assert LinkThen(e.left, [RParen] + rest) == TraverseThen(e.left.node, [RParen] + rest);
    assert [NOT, LParen] + TraverseThen(e.left.node, [RParen] + rest) == [NOT] + group;
    Behind(NOT, group);
  }

  /** A child of an AND, printed with its parentheses if it has any, is a factor unless it is an AND itself. */
  lemma {:induction false} ChildRead(e: Expr, rest: seq<Token>, assign: Atom -> Truth)
    requires Condition(e) && !e.op.AndOp? && Ends(rest)
    ensures Factor(ChildThen(AndOp, To(e), rest), assign) == Good(Meaning(e, assign, true), rest)
    decreases e, if e.op.OrOp? then 5 else 1
  {
    if e.op.OrOp? { GroupRead(e, rest, assign); }
    else if e.op.NotOp? { NegationRead(e, rest, assign); }
    else { PredicateRead(e, rest, assign); }
  }

  lemma {:induction false} And3Associates(a: Truth, b: Truth, c: Truth)
    ensures And3(And3(a, b), c) == And3(a, And3(b, c)) && Or3(Or3(a, b), c) == Or3(a, Or3(b, c))
  {
  }

  lemma {:induction false} ConjunctionPrinted(e: Expr, rest: seq<Token>)
    requires Condition(e) && e.op.AndOp?
    ensures TraverseThen(e, rest) == ChildThen(AndOp, e.left, [AND] + ChildThen(AndOp, e.right, rest))
  {
  }

  /** A further conjunct. */
  lemma {:induction false} ConjunctRead(v: Truth, e: Expr, rest: seq<Token>, assign: Atom -> Truth)
    requires Condition(e) && Ends(rest)
    ensures TermTail(v, [AND] + ChildThen(AndOp, To(e), rest), assign)
            == TermTail(And3(v, Meaning(e, assign, true)), rest, assign)
    decreases e, if e.op.OrOp? then 6 else 2
  {
    if e.op.AndOp? {
      var l, r := e.left.node, e.right.node;
      ConjunctionPrinted(e, rest);
      ConjunctRead(v, l, [AND] + ChildThen(AndOp, To(r), rest), assign);
      ConjunctRead(And3(v, Meaning(l, assign, true)), r, rest, assign);
      And3Associates(v, Meaning(l, assign, true), Meaning(r, assign, true));
    } else {
      ChildRead(e, rest, assign);
      Behind(AND, ChildThen(AndOp, To(e), rest));
    }
  }

  /** A condition that is not an OR, or an OR in its parentheses, is the beginning of a term. */
  lemma {:induction false} TermRead(e: Expr, rest: seq<Token>, assign: Atom -> Truth)
    requires Condition(e) && Ends(rest)
    ensures Term(ChildThen(AndOp, To(e), rest), assign) == TermTail(Meaning(e, assign, true), rest, assign)
    decreases e, if e.op.OrOp? then 6 else 2
  {
    if e.op.AndOp? {
      ConjunctionPrinted(e, rest);
      TermRead(e.left.node, [AND] + ChildThen(AndOp, e.right, rest), assign);
      ConjunctRead(Meaning(e.left.node, assign, true), e.right.node, rest, assign);
    } else {
      ChildRead(e, rest, assign);
    }
  }

  /** A further disjunct. */
  lemma {:induction false} DisjunctRead(v: Truth, e: Expr, rest: seq<Token>, assign: Atom -> Truth)
    requires Condition(e) && !Starts(rest, AND) && Ends(rest)
    ensures SearchTail(v, [OR] + TraverseThen(e, rest), assign)
            == SearchTail(Or3(v, Meaning(e, assign, true)), rest, assign)
    decreases e, 3
  {
    if e.op.OrOp? {
      var l, r := e.left.node, e.right.node;
      InfixPrinted(e, rest);
      DisjunctRead(v, l, [OR] + TraverseThen(r, rest), assign);
      DisjunctRead(Or3(v, Meaning(l, assign, true)), r, rest, assign);
      And3Associates(v, Meaning(l, assign, true), Meaning(r, assign, true));
    } else {
      TermRead(e, rest, assign);
      Behind(OR, TraverseThen(e, rest));
    }
  }

  lemma {:induction false} SearchRead(e: Expr, rest: seq<Token>, assign: Atom -> Truth)
    requires Condition(e) && !Starts(rest, AND) && Ends(rest)
    ensures Search(TraverseThen(e, rest), assign) == SearchTail(Meaning(e, assign, true), rest, assign)
    decreases e, 3
  {
    if e.op.OrOp? {
      InfixPrinted(e, rest);
      SearchRead(e.left.node, [OR] + TraverseThen(e.right.node, rest), assign);
      DisjunctRead(Meaning(e.left.node, assign, true), e.right.node, rest, assign);
    } else {
      TermRead(e, rest, assign);
    }
  }

  /** Under every assignment the printed condition has the truth value of the tree as it is shown, and all of it is
      read. */
  lemma {:induction false} PrintedMeansShown(e: Expr, assign: Atom -> Truth)
    requires Condition(e)
    ensures Search(TraverseThen(e, []), assign) == Good(Meaning(e, assign, true), [])
  {
    SearchRead(e, [], assign);
  }

  lemma {:induction false} ExactMeaning(e: Expr, assign: Atom -> Truth)
    requires Condition(e) && ExactTree(e)
    ensures Meaning(e, assign, true) == Meaning(e, assign, false)
  {
    if e.op.AndOp? || e.op.OrOp? {
      ExactMeaning(e.left.node, assign);
      ExactMeaning(e.right.node, assign);
    } else if e.op.NotOp? {
      ExactMeaning(e.left.node, assign);
    } else {
      ShownAtom(e);
    }
  }

  /** Under every assignment the printed condition has the truth value of the tree, if its operands are exact. */
  lemma {:induction false} PrintedMeansTree(e: Expr, assign: Atom -> Truth)
    requires Condition(e) && ExactTree(e)
    ensures Search(TraverseThen(e, []), assign) == Good(Meaning(e, assign, false), [])
  {
    PrintedMeansShown(e, assign);
    ExactMeaning(e, assign);
  }

  /** A predicate keeps its meaning under every assignment if and only if its operands are exact.  (A larger tree may
      keep its meaning by chance, where the changed predicate does not matter.) */
  lemma {:induction false} PredicateKeptIff(e: Expr)
    requires PredicateOk(e)
    ensures (forall assign: Atom -> Truth :: Search(TraverseThen(e, []), assign) == Good(Meaning(e, assign, false), []))
            <==> PredicateExact(e)
  {
    if PredicateExact(e) {
      forall assign: Atom -> Truth ensures Search(TraverseThen(e, []), assign) == Good(Meaning(e, assign, false), []) {
        PrintedMeansTree(e, assign);
      }
    } else {
      var atom := AtomOf(e, false);
      var assign: Atom -> Truth := a => if a == atom then True else False;
      ShownAtom(e);
      PrintedMeansShown(e, assign);
      assert Search(TraverseThen(e, []), assign) != Good(Meaning(e, assign, false), []);
    }
  }

  function Leaf(op: Op, text: string, num: nat): Expr { Expr(op, Null, Null, [], text, num) }

  /** A negative number as the parser builds it: the sign is a node with no number of its own. */
  function Negative(n: nat): Expr { Expr(Uminus, To(Leaf(Integer, "", n)), Null, [], "", 0) }

  lemma {:induction false} NegativeShown(n: nat)
    ensures var e := Negative(n);
            IsOperand(e) && ValueOf(e) == Number(-(n as int)) && Shown(e) == Number(0) && (Exact(e) <==> n == 0)
  {
    assert IntValue(Leaf(Integer, "", n)) == Some(n);
  }

  function ComparedWithNegative(name: string, n: nat): Expr {
    Expr(Compare(Eq), To(Leaf(Id, name, 0)), To(Negative(n)), [], "", 0)
  }

  /** A comparison with it is printed as one with -0, so it keeps its meaning for no number but 0. */
  lemma {:induction false} NegativeIsLost(name: string, n: nat)
    ensures var e := ComparedWithNegative(name, n);
            && PredicateOk(e) && TraverseThen(e, []) == [Name(name), Relation(Eq), Minus, Num(0)]
            && ((forall assign: Atom -> Truth ::
                   Search(TraverseThen(e, []), assign) == Good(Meaning(e, assign, false), [])) <==> n == 0)
  {
    NegativePrinted(name, n);
    PredicateKeptIff(ComparedWithNegative(name, n));
  }

  lemma {:induction false} NegativePrinted(name: string, n: nat)
    ensures var e := ComparedWithNegative(name, n);
            && PredicateOk(e) && (PredicateExact(e) <==> n == 0)
            && TraverseThen(e, []) == [Name(name), Relation(Eq), Minus, Num(0)]
  {
    var e, x, y := ComparedWithNegative(name, n), Leaf(Id, name, 0), Negative(n);
    NegativeShown(n);
    InfixPrinted(e, []);
    OperandRead(y, []);
    assert AppendThen(y, []) == [Minus, Num(0)] + [] == [Minus, Num(0)];
    OperandRead(x, [Relation(Eq)] + AppendThen(y, []));
    assert [Name(name)] + ([Relation(Eq)] + [Minus, Num(0)]) == [Name(name), Relation(Eq), Minus, Num(0)];
  }

  // ---------------------------------------------------------------- printing into a buffer

  class GString {
    var tokens: seq<Token>

    method Append(t: Token)
      modifies this
      ensures forall rest: seq<Token> :: tokens + rest == old(tokens) + ([t] + rest)
    {
      ghost var was := tokens;
      tokens := tokens + [t];
      forall rest: seq<Token> ensures tokens + rest == was + ([t] + rest) {
      }
    }

    /** `sql_append_expr`. */
    method AppendExpr(e: Expr)
      modifies this
      ensures forall rest :: tokens + rest == old(tokens) + AppendThen(e, rest)
      decreases e, 1
    {
      match e.op
      case AndOp => Append(AND);
      case OrOp => Append(OR);
      case Compare(c) => Append(Relation(c));
      case NotOp => AppendNot(e);
      case BetweenOp => AppendBetween(e);
      case InOp => AppendIn(e);
      case LikeOp => AppendLike(e);
      case _ => AppendLeaf(e);
    }

    method AppendLeaf(e: Expr)
      modifies this
      ensures forall rest :: tokens + rest == old(tokens) + LeafThen(e, rest)
      decreases e, 0
    {
      match e.op
      case Dot =>
        AppendThree(Name(TextOf(e.left)), Period, Name(TextOf(e.right)));
      case Uminus =>
        AppendTwo(Minus, Num(e.num));
      case Uplus => Append(Num(e.num));
      case Integer => Append(Num(e.num));
      case Str => Append(Text(e.text));
      case _ => Append(Name(e.text));
    }

    method AppendTwo(a: Token, b: Token)
      modifies this
      ensures forall rest: seq<Token> :: tokens + rest == old(tokens) + ([a, b] + rest)
    {
      ghost var was := tokens;
      Append(a);
      Append(b);
      forall rest: seq<Token> ensures tokens + rest == was + ([a, b] + rest) {
        assert [a] + ([b] + rest) == [a, b] + rest;
      }
    }

    method AppendThree(a: Token, b: Token, c: Token)
      modifies this
      ensures forall rest: seq<Token> :: tokens + rest == old(tokens) + ([a, b, c] + rest)
    {
      ghost var was := tokens;
      Append(a);
      AppendTwo(b, c);
      forall rest: seq<Token> ensures tokens + rest == was + ([a, b, c] + rest) {
        assert [a] + ([b, c] + rest) == [a, b, c] + rest;
      }
    }

    method AppendNot(e: Expr)
      requires e.op.NotOp?
      modifies this
      ensures forall rest :: tokens + rest == old(tokens) + AppendThen(e, rest)
      decreases e, 0
    {
      ghost var was := tokens;
      Append(NOT);
      Append(LParen);
      TraverseLink(e.left);
      Append(RParen);
      forall rest ensures tokens + rest == was + AppendThen(e, rest) {
        var inner := LinkThen(e.left, [RParen] + rest);
        assert [NOT, LParen] + inner == [NOT] + ([LParen] + inner);
      }
    }

    method AppendBetween(e: Expr)
      requires e.op.BetweenOp?
      modifies this
      ensures forall rest :: tokens + rest == old(tokens) + AppendThen(e, rest)
      decreases e, 0
    {
      if e.left.To? {
        AppendExpr(e.left.node);
        Append(BETWEEN);
        if |e.list| == 2 {
          AppendBounds(e.list);
        }
      }
    }

    method AppendBounds(list: seq<Expr>)
      requires |list| == 2
      modifies this
      ensures forall rest :: tokens + rest == old(tokens) + TraverseThen(list[0], [AND] + TraverseThen(list[1], rest))
      decreases list, 3
    {
      Traverse(list[0]);
      Append(AND);
      Traverse(list[1]);
    }

    method AppendIn(e: Expr)
      requires e.op.InOp?
      modifies this
      ensures forall rest :: tokens + rest == old(tokens) + AppendThen(e, rest)
      decreases e, 0
    {
      if e.left.To? {
        ghost var was := tokens;
        AppendExpr(e.left.node);
        ghost var before := tokens;
        Append(IN);
        ghost var behind := tokens;
        AppendMembers(e.list);
        forall rest ensures tokens + rest == was + AppendThen(e, rest) {
          var list := ListThen(e.list, [RParen] + rest);
          assert [IN, LParen] + list == [IN] + ([LParen] + list);
          assert tokens + rest == behind + ([LParen] + list) == before + ([IN] + ([LParen] + list));
        }
      }
    }

    method AppendMembers(list: seq<Expr>)
      modifies this
      ensures forall rest :: tokens + rest == old(tokens) + ([LParen] + ListThen(list, [RParen] + rest))
      decreases list, 2
    {
      Append(LParen);
      AppendList(list);
      Append(RParen);
    }

    method AppendLike(e: Expr)
      requires e.op.LikeOp?
      modifies this
      ensures forall rest :: tokens + rest == old(tokens) + AppendThen(e, rest)
      decreases e, 0
    {
      if e.list != [] {
        Traverse(e.list[0]);
        Append(LIKE);
        if |e.list| > 1 {
          assert e.list[1..][0] == e.list[1];
          AppendExpr(e.list[1]);
        }
        if |e.list| > 2 {
          assert e.list[1..][1] == e.list[2];
          Append(ESCAPE);
          AppendExpr(e.list[2]);
        }
      }
    }

    /** The loop over the list of an IN. */
    method AppendList(list: seq<Expr>)
      modifies this
      ensures forall rest :: tokens + rest == old(tokens) + ListThen(list, rest)
      decreases list, 1
    {
      ghost var was := tokens;
      for i := 0 to |list|
        invariant forall rest :: tokens + ListThen(list[i..], rest) == was + ListThen(list, rest)
      {
        ghost var before := tokens;
        AppendExpr(list[i]);
        assert list[i..][1..] == list[i + 1..];
        if i + 1 < |list| {
          Append(Comma);
        }
      }
    }

    /** A child of a node, with its parentheses. */
    method TraverseChild(parent: Op, child: Link)
      modifies this
      ensures forall rest :: tokens + rest == old(tokens) + ChildThen(parent, child, rest)
      decreases child, 2
    {
      var parenth := parent.AndOp? && child.To? && child.node.op.OrOp?;
      if parenth {
        Append(LParen);
      }
      TraverseLink(child);
      if parenth {
        Append(RParen);
      }
    }

    method TraverseLink(l: Link)
      modifies this
      ensures forall rest :: tokens + rest == old(tokens) + LinkThen(l, rest)
      decreases l, 1
    {
      if l.To? {
        Traverse(l.node);
      }
    }

    /** `sql_expr_traverse`. */
    method Traverse(e: Expr)
      modifies this
      ensures forall rest :: tokens + rest == old(tokens) + TraverseThen(e, rest)
      decreases e, 2
    {
      if IsLeaf(e) {
        AppendExpr(e);
        return;
      }
      TraverseChild(e.op, e.left);
      AppendExpr(e);
      TraverseChild(e.op, e.right);
    }
  }
}
