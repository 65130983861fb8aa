/**
 * Properties of the jlox parser's grammar rules: precedence and
 * associativity, the shape of assignments and ternaries, resynchronisation,
 * and the accounting of errors.
 */
module ParserProperties {
  import opened Common
  import opened Syntax
  import opened Parser

  // ---------------------------------------------------------------------------
  // Precedence and associativity

  /** The precedence level of a binary operator: 2 comma, 3 equality, 4 comparison, 5 term, 6 factor. */
  function OpLevel(kind: TokenType): (l: nat)
    ensures l == 0 || 2 <= l <= 6
    ensures 2 <= l <= 6 ==> kind in Operators(l)
  {
    if kind.COMMA? then 2
    else if kind in {BANG_EQUAL, EQUAL_EQUAL} then 3
    else if kind in {GREATER, GREATER_EQUAL, LESS, LESS_EQUAL} then 4
    else if kind in {MINUS, PLUS} then 5
    else if kind in {SLASH, STAR} then 6
    else 0
  }

  lemma OperatorLevel(level: nat, kind: TokenType)
    requires 2 <= level <= 6 && kind in Operators(level)
    ensures OpLevel(kind) == level
  {
  }

  /**
   * e may stand where the grammar expects an expression of precedence `level`
   * (0 assignment, 1 conditional, 2 comma ... 6 factor, 7 unary, 8 primary),
   * and so may each of its parts. A binary node's right operand is one level
   * tighter than its operator (left associativity), a ternary's condition is
   * a comma expression while both branches are full expressions (right
   * associativity), and an assignment's target is the Variable token it
   * replaced.
   */
  ghost predicate Placed(ts: seq<Token>, e: Expr, level: nat)
    decreases e
  {
    match e
    case Assign(id, name, value) =>
      level == 0 && id < |ts| && ts[id] == name && name.kind.IDENTIFIER? && Placed(ts, value, 0)
    case Ternary(condition, consequent, alternative, q, c) =>
      level <= 1 && q.kind.QUESTION_MARK? && c.kind.COLON? &&
      Placed(ts, condition, 2) && Placed(ts, consequent, 0) && Placed(ts, alternative, 0)
    case Binary(left, op, right) =>
      var k := OpLevel(op.kind);
      2 <= k && level <= k && Placed(ts, left, k) && Placed(ts, right, k + 1)
    case Unary(op, right) =>
      op.kind in {BANG, MINUS} && level <= 7 && Placed(ts, right, 7)
    case Grouping(inner) => Placed(ts, inner, 0)
    case Literal(_) => true
    case Variable(ref) => ref.id < |ts| && ts[ref.id] == ref.name && ref.name.kind.IDENTIFIER?
    case _ => false
  }

  lemma PlacedLower(ts: seq<Token>, e: Expr, level: nat, lower: nat)
    requires Placed(ts, e, level) && lower <= level
    ensures Placed(ts, e, lower)
  {
  }

  /**
   * An expression that parses is well placed at assignment level, and the
   * token after it is not a '?': a conditional has taken every '?'.
   */
  lemma {:induction false} ExpressionPlaced(ts: seq<Token>, st: PState)
    requires Terminated(ts) && ValidPos(ts, st.pos)
    ensures var r := ParseExpression(ts, st);
      r.Parsed? ==> Placed(ts, r.value, 0) && !Check(ts, r.st.pos, QUESTION_MARK)
    decreases |ts| - st.pos, 40
  {
    AssignmentPlaced(ts, st);
  }

  lemma {:induction false} AssignmentPlaced(ts: seq<Token>, st: PState)
    requires Terminated(ts) && ValidPos(ts, st.pos)
    ensures var r := ParseAssignment(ts, st);
      r.Parsed? ==> Placed(ts, r.value, 0) && !Check(ts, r.st.pos, QUESTION_MARK)
    decreases |ts| - st.pos, 39
  {
    ConditionalPlaced(ts, st);
    var c := ParseConditional(ts, st);
    if c.Parsed? {
      PlacedLower(ts, c.value, 1, 0);
      if CheckAny(ts, c.st.pos, {EQUAL}) {
        AssignmentPlaced(ts, Next(ts, c.st));
      }
    }
  }

  lemma {:induction false} ConditionalPlaced(ts: seq<Token>, st: PState)
    requires Terminated(ts) && ValidPos(ts, st.pos)
    ensures var r := ParseConditional(ts, st);
      r.Parsed? ==> Placed(ts, r.value, 1) && !Check(ts, r.st.pos, QUESTION_MARK)
    decreases |ts| - st.pos, 38
  {
    BinaryPlaced(ts, st, 2);
    var b := ParseBinary(ts, st, 2);
    if b.Parsed? {
      ConditionalLoopPlaced(ts, b.value, b.st);
    }
  }

  /** conditional()'s loop runs at most once: the alternative has taken any further '?'. */
  lemma {:induction false} ConditionalLoopPlaced(ts: seq<Token>, condition: Expr, st: PState)
    requires Terminated(ts) && ValidPos(ts, st.pos) && Placed(ts, condition, 2)
    ensures var r := ConditionalLoop(ts, condition, st);
      r.Parsed? ==> Placed(ts, r.value, 1) && !Check(ts, r.st.pos, QUESTION_MARK)
    decreases |ts| - st.pos, 37
  {
    if Check(ts, st.pos, QUESTION_MARK) {
      TernaryPartsPlaced(ts, Next(ts, st));
    } else {
      PlacedLower(ts, condition, 2, 1);
    }
  }

  lemma {:induction false} TernaryPartsPlaced(ts: seq<Token>, st: PState)
    requires Terminated(ts) && ValidPos(ts, st.pos)
    ensures var r := ParseTernaryParts(ts, st);
      r.Parsed? ==>
        Placed(ts, r.value.0, 0) && r.value.1.kind.COLON? && Placed(ts, r.value.2, 0) &&
        !Check(ts, r.st.pos, QUESTION_MARK)
    decreases |ts| - st.pos, 41
  {
    ExpressionPlaced(ts, st);
    var c := ParseExpression(ts, st);
    if c.Parsed? {
      var colon := Expect(ts, c.st, COLON, ExpectColon);
      if colon.Parsed? {
        ExpressionPlaced(ts, colon.st);
      }
    }
  }

  lemma {:induction false} BinaryPlaced(ts: seq<Token>, st: PState, level: nat)
    requires Terminated(ts) && ValidPos(ts, st.pos) && 2 <= level <= 6
    ensures var r := ParseBinary(ts, st, level);
      r.Parsed? ==> Placed(ts, r.value, level)
    decreases |ts| - st.pos, 30 - 2 * level
  {
    OperandPlaced(ts, st, level);
    var o := ParseOperand(ts, st, level);
    if o.Parsed? {
      PlacedLower(ts, o.value, level + 1, level);
      BinaryLoopPlaced(ts, level, o.value, o.st);
    }
  }

  lemma {:induction false} OperandPlaced(ts: seq<Token>, st: PState, level: nat)
    requires Terminated(ts) && ValidPos(ts, st.pos) && 2 <= level <= 6
    ensures var r := ParseOperand(ts, st, level);
      r.Parsed? ==> Placed(ts, r.value, level + 1)
    decreases |ts| - st.pos, 29 - 2 * level
  {
    if level == 6 {
      UnaryPlaced(ts, st);
    } else {
      BinaryPlaced(ts, st, level + 1);
    }
  }

  /** Each iteration nests what was built so far as the left operand. */
  lemma {:induction false} BinaryLoopPlaced(ts: seq<Token>, level: nat, left: Expr, st: PState)
    requires Terminated(ts) && ValidPos(ts, st.pos) && 2 <= level <= 6 && Placed(ts, left, level)
    ensures var r := BinaryLoop(ts, level, left, st);
      r.Parsed? ==> Placed(ts, r.value, level)
    decreases |ts| - st.pos, 28 - 2 * level
  {
    if CheckAny(ts, st.pos, Operators(level)) {
      OperatorLevel(level, ts[st.pos].kind);
      OperandPlaced(ts, Next(ts, st), level);
      var o := ParseOperand(ts, Next(ts, st), level);
      if o.Parsed? {
        BinaryLoopPlaced(ts, level, Binary(left, ts[st.pos], o.value), o.st);
      }
    }
  }

  lemma {:induction false} UnaryPlaced(ts: seq<Token>, st: PState)
    requires Terminated(ts) && ValidPos(ts, st.pos)
    ensures var r := ParseUnary(ts, st);
      r.Parsed? ==> Placed(ts, r.value, 7)
    decreases |ts| - st.pos, 10
  {
    if CheckAny(ts, st.pos, {BANG, MINUS}) {
      UnaryPlaced(ts, Next(ts, st));
    } else {
      PrimaryPlaced(ts, st);
      var p := ParsePrimary(ts, st);
      if p.Parsed? {
        PlacedLower(ts, p.value, 8, 7);
      }
    }
  }

  lemma {:induction false} PrimaryPlaced(ts: seq<Token>, st: PState)
    requires Terminated(ts) && ValidPos(ts, st.pos)
    ensures var r := ParsePrimary(ts, st);
      r.Parsed? ==> Placed(ts, r.value, 8)
    decreases |ts| - st.pos, 9
  {
    var p := st.pos;
    if !Check(ts, p, FALSE) && !Check(ts, p, TRUE) && !Check(ts, p, NIL) &&
       !CheckAny(ts, p, {NUMBER, STRING}) && !Check(ts, p, IDENTIFIER) && Check(ts, p, LEFT_PAREN) {
      GroupingPlaced(ts, Next(ts, st));
    }
  }

  lemma {:induction false} GroupingPlaced(ts: seq<Token>, st: PState)
    requires Terminated(ts) && ValidPos(ts, st.pos)
    ensures var r := ParseGrouping(ts, st);
      r.Parsed? ==> Placed(ts, r.value, 8)
    decreases |ts| - st.pos, 41
  {
    ExpressionPlaced(ts, st);
  }

  /**
   * The grammar's precedence, loosest first: assignment, conditional, comma,
   * equality, comparison, term, factor, unary, primary. In particular a - b - c
   * can only be (a - b) - c, and a ? b : c ? d : e only a ? b : (c ? d : e).
   */
  lemma Precedence(ts: seq<Token>, st: PState)
    requires Terminated(ts) && ValidPos(ts, st.pos)
    ensures ParseExpression(ts, st).Parsed? ==> Placed(ts, ParseExpression(ts, st).value, 0)
  {
    ExpressionPlaced(ts, st);
  }

  /** The left operand of a binary operator never holds a looser operator, nor its right operand one as loose. */
  lemma LeftAssociative(ts: seq<Token>, left: Expr, op: Token, right: Expr, level: nat)
    requires Placed(ts, Binary(left, op, right), level)
    ensures right.Binary? ==> OpLevel(right.operator.kind) > OpLevel(op.kind)
    ensures left.Binary? ==> OpLevel(left.operator.kind) >= OpLevel(op.kind)
    ensures !right.Ternary? && !right.Assign? && !left.Ternary? && !left.Assign?
  {
  }

  /** A ternary's condition is never itself an unparenthesised ternary or assignment. */
  lemma TernaryRightAssociative(ts: seq<Token>, e: Expr, level: nat)
    requires Placed(ts, e, level) && e.Ternary?
    ensures !e.left.Ternary? && !e.left.Assign?
  {
  }

  // ---------------------------------------------------------------------------
  // Assignment

  /**
   * After "target =", the value is a full assignment (right associativity). An
   * Assign is built only for a Variable target; any other target is kept, and
   * "Invalid assignment target." is reported at the '=' without throwing.
   */
  lemma AssignmentTargets(ts: seq<Token>, st: PState)
    requires Terminated(ts) && ValidPos(ts, st.pos)
    requires ParseConditional(ts, st).Parsed?
    requires Check(ts, ParseConditional(ts, st).st.pos, EQUAL)
    ensures var c := ParseConditional(ts, st);
      var equals := ts[c.st.pos];
      var v := ParseAssignment(ts, Next(ts, c.st));
      var r := ParseAssignment(ts, st);
      (v.Thrown? <==> r.Thrown?) &&
      (v.Parsed? && c.value.Variable? ==>
        r == Parsed(Assign(c.value.ref.id, c.value.ref.name, v.value), v.st)) &&
      (v.Parsed? && !c.value.Variable? ==>
        r.value == c.value && r.st.pos == v.st.pos &&
        r.st.diags == v.st.diags + [ErrorAt(equals, InvalidTarget)])
  {
  }

  // ---------------------------------------------------------------------------
  // Errors and recovery

  /**
   * A binary operator in operand position is reported, a right operand is
   * parsed and dropped after it, and a ParseError is thrown.
   */
  lemma BinaryOperatorWithoutLeftOperand(ts: seq<Token>, st: PState)
    requires Terminated(ts) && ValidPos(ts, st.pos)
    requires !AtEnd(ts, st.pos) && IsBinaryOperator(ts[st.pos].kind)
    ensures var r := ParseProduceError(ts, st);
      var reported := st.diags + [ErrorAt(ts[st.pos], ExpectOperand)];
      var operand := ParseExpression(ts, PState(st.pos + 1, reported));
      r.Thrown? && reported <= r.st.diags && r.st == operand.st
  {
  }

  /** Anything else in operand position reports "Expect expression." at the token and throws. */
  lemma MissingExpression(ts: seq<Token>, st: PState)
    requires Terminated(ts) && ValidPos(ts, st.pos)
    requires AtEnd(ts, st.pos) || !IsBinaryOperator(ts[st.pos].kind)
    ensures ParseProduceError(ts, st) == Thrown(PState(st.pos, st.diags + [ErrorAt(ts[st.pos], ExpectExpression)]))
  {
  }

  /**
   * synchronize() moves past the token at p (unless at EOF) and stops at the
   * first later position that is EOF, follows a ';', or starts a statement
   * keyword.
   */
  lemma SynchronizeStops(ts: seq<Token>, p: nat)
    requires Terminated(ts) && ValidPos(ts, p) && (p > 0 || !AtEnd(ts, p))
    ensures var q := SyncPoint(ts, p);
      var from := if AtEnd(ts, p) then p else p + 1;
      from <= q && 1 <= q < |ts| && Boundary(ts, q) &&
      (forall k :: from <= k < q ==> !Boundary(ts, k))
  {
  }

  /** A declaration that throws yields Absent and resumes at the synchronisation point. */
  lemma FailedDeclaration(ts: seq<Token>, st: PState)
    requires Terminated(ts) && ValidPos(ts, st.pos) && !AtEnd(ts, st.pos)
    ensures var attempt :=
        if CheckAny(ts, st.pos, {VAR}) then ParseVarDeclaration(ts, Next(ts, st)) else ParseStatement(ts, st);
      var (s, after) := ParseDeclaration(ts, st);
      (attempt.Thrown? ==> s == Absent && after == attempt.st.(pos := SyncPoint(ts, attempt.st.pos))) &&
      (attempt.Parsed? ==> s == attempt.value && after == attempt.st)
  {
  }

  /** The number of Absent entries in a statement list. */
  function AbsentCount(ss: seq<Stmt>): (n: nat)
    ensures n <= |ss|
  {
    if ss == [] then 0 else AbsentCount(ss[..|ss| - 1]) + (if ss[|ss| - 1] == Absent then 1 else 0)
  }

  /** A declaration yields Absent only after at least one error was reported. */
  lemma DeclarationReports(ts: seq<Token>, st: PState)
    requires Terminated(ts) && ValidPos(ts, st.pos) && !AtEnd(ts, st.pos)
    ensures var (s, after) := ParseDeclaration(ts, st);
      s == Absent ==> |st.diags| < |after.diags|
  {
    var attempt :=
      if CheckAny(ts, st.pos, {VAR}) then ParseVarDeclaration(ts, Next(ts, st)) else ParseStatement(ts, st);
    if CheckAny(ts, st.pos, {VAR}) {
      var v := ParseVarDeclaration(ts, Next(ts, st));
      if v.Parsed? {
        assert v.value != Absent;
      }
    } else {
      var v := ParseStatement(ts, st);
      if v.Parsed? {
        StatementNotAbsent(ts, st);
      }
    }
  }

  /** statement() never yields the null of a failed declaration. */
  lemma StatementNotAbsent(ts: seq<Token>, st: PState)
    requires Terminated(ts) && ValidPos(ts, st.pos)
    ensures ParseStatement(ts, st).Parsed? ==> ParseStatement(ts, st).value != Absent
  {
  }

  /**
   * parse(): one entry per declaration, up to the first EOF; every Absent entry
   * is matched by at least one reported error.
   */
  lemma {:induction false} ProgramLoopReports(ts: seq<Token>, acc: seq<Stmt>, st: PState)
    requires Terminated(ts) && ValidPos(ts, st.pos)
    ensures var (ss, after) := ProgramLoop(ts, acc, st);
      AbsentCount(ss) - AbsentCount(acc) <= |after.diags| - |st.diags|
    decreases |ts| - st.pos
  {
    if !AtEnd(ts, st.pos) {
      var (s, after) := ParseDeclaration(ts, st);
      DeclarationReports(ts, st);
      ProgramLoopReports(ts, acc + [s], after);
      assert (acc + [s])[..|acc + [s]| - 1] == acc;
    }
  }

  /** parse() stops at the first EOF, and each null entry comes with a reported error. */
  lemma ParseAccounting(ts: seq<Token>)
    requires Terminated(ts)
    ensures var (ss, diags) := Parse(ts);
      AbsentCount(ss) <= |diags|
    ensures var (ss, after) := ProgramLoop(ts, [], PState(0, []));
      AtEnd(ts, after.pos) && forall k :: 0 <= k < after.pos ==> !ts[k].kind.EOF?
  {
    ProgramLoopReports(ts, [], PState(0, []));
    NoEofBefore(ts, 0);
  }
}
