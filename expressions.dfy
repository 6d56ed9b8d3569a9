/**
 * The predicate tree of a query's where clause, as values. Every SpiExpression is one of:
 * a leaf (any concrete expression such as `eq` or `like`, seen only through what it
 * contributes), a junction (a Conjunction or a Disjunction around an expression list), or
 * the NoopExpression, which stands for "1=1". The functions below give what the Java
 * methods of the SpiExpression contract compute for each kind; the classes in
 * ExpressionLists are proved against them.
 */
module Expressions {
  import opened Java
  import opened JavaLang

  datatype JunctionKind = Conjunction | Disjunction

  /**
   * What a leaf expression contributes: the SQL it appends, the values it binds, its bind
   * hash, a key that decides sameness by plan, the property paths it validates, and the
   * many-property path (if any) it registers with containsMany.
   */
  datatype LeafInfo = LeafInfo(
    sql: string,
    bindValues: seq<string>,
    bindHash: Int32,
    planKey: string,
    properties: seq<string>,
    manyPath: Option<string>)

  datatype Expr =
    | Leaf(info: LeafInfo)
    | Junction(kind: JunctionKind, children: seq<Expr>)
    | Noop

  /** The join string of a junction: " and " for a Conjunction, " or " for a Disjunction. */
  function JoinType(kind: JunctionKind): (s: string)
    ensures s == (if kind == Conjunction then " and " else " or ")
  {
    match kind
    case Conjunction => " and "
    case Disjunction => " or "
  }

  /** The disjunction flag a junction carries. */
  predicate IsDisjunction(kind: JunctionKind) { kind == Disjunction }

  /** The separator DefaultExpressionList puts between its elements. */
  const LIST_AND_JOIN: string := " and "

  // ---------------------------------------------------------------------------
  // addSql

  /** The SQL an expression appends to the request. */
  function Sql(e: Expr): string
  {
    match e
    case Leaf(info) => info.sql
    case Noop => "1=1"
    case Junction(kind, children) =>
      if |children| == 0 then "" else "(" + ListSql(children, JoinType(kind)) + ") "
  }

  /** The SQL of a run of expressions, appended one after another with sep between them. */
  function ListSql(es: seq<Expr>, sep: string): string
  {
    if |es| == 0 then ""
    else if |es| == 1 then Sql(es[0])
    else ListSql(es[..|es| - 1], sep) + sep + Sql(es[|es| - 1])
  }

  /** The SQL of each expression, in order. */
  function SqlParts(es: seq<Expr>): (parts: seq<string>)
    ensures |parts| == |es| && forall i | 0 <= i < |es| :: parts[i] == Sql(es[i])
  {
    if |es| == 0 then [] else SqlParts(es[..|es| - 1]) + [Sql(es[|es| - 1])]
  }

  /** A list's SQL is its elements' SQL, in list order, joined by the separator. */
  lemma {:induction false} ListSqlIsJoined(es: seq<Expr>, sep: string)
    ensures ListSql(es, sep) == Joined(SqlParts(es), sep)
  {
    if |es| > 1 {
      ListSqlIsJoined(es[..|es| - 1], sep);
      assert SqlParts(es)[..|es| - 1] == SqlParts(es[..|es| - 1]);
    }
  }

  /** A non-empty junction's SQL is "(", its children's SQL joined by its join type, ") ". */
  lemma JunctionSql(kind: JunctionKind, children: seq<Expr>)
    ensures |children| == 0 ==> Sql(Junction(kind, children)) == ""
    ensures |children| > 0 ==>
      Sql(Junction(kind, children)) == "(" + Joined(SqlParts(children), JoinType(kind)) + ") "
  {
    ListSqlIsJoined(children, JoinType(kind));
  }

  // ---------------------------------------------------------------------------
  // addBindValues and validate

  /** The values an expression binds, in the order addBindValues adds them. */
  function BindValues(e: Expr): seq<string>
  {
    match e
    case Leaf(info) => info.bindValues
    case Noop => []
    case Junction(_, children) => ListBindValues(children)
  }

  function ListBindValues(es: seq<Expr>): seq<string>
  {
    if |es| == 0 then [] else ListBindValues(es[..|es| - 1]) + BindValues(es[|es| - 1])
  }

  /** The property paths an expression hands to validation, in order. */
  function Properties(e: Expr): seq<string>
  {
    match e
    case Leaf(info) => info.properties
    case Noop => []
    case Junction(_, children) => ListProperties(children)
  }

  function ListProperties(es: seq<Expr>): seq<string>
  {
    if |es| == 0 then [] else ListProperties(es[..|es| - 1]) + Properties(es[|es| - 1])
  }

  // ---------------------------------------------------------------------------
  // queryBindHash

  /** The seed of DefaultExpressionList.queryBindHash: the hash of the class's name. */
  const LIST_SEED: Int32 := JavaHashCode("com.avaje.ebeaninternal.server.expression.DefaultExpressionList")

  /** The seed of JunctionExpression.queryBindHash: the hash of the class's name. */
  const JUNCTION_SEED: Int32 := JavaHashCode("com.avaje.ebeaninternal.server.expression.JunctionExpression")

  function BindHash(e: Expr): Int32
  {
    match e
    case Leaf(info) => info.bindHash
    case Noop => 0
    case Junction(_, children) => HashFold(JUNCTION_SEED, children)
  }

  /** h := h * 31 + hash(e) over the expressions, in 32-bit int arithmetic. */
  function HashFold(seed: Int32, es: seq<Expr>): Int32
    decreases es
  {
    if |es| == 0 then seed else Wrap32(HashFold(seed, es[..|es| - 1]) * 31 + BindHash(es[|es| - 1]))
  }

  /** The same fold in unbounded arithmetic: seed * 31^n + sum of hash(e_i) * 31^(n-1-i). */
  function Polynomial(seed: int, es: seq<Expr>): int
    decreases es
  {
    if |es| == 0 then seed else Polynomial(seed, es[..|es| - 1]) * 31 + BindHash(es[|es| - 1])
  }

  /** Wrapping at every step gives the low 32 bits of the unbounded polynomial. */
  lemma {:induction false} HashFoldIsWrappedPolynomial(seed: Int32, es: seq<Expr>)
    ensures HashFold(seed, es) == Wrap32(Polynomial(seed, es))
  {
    if |es| > 0 {
      var init := es[..|es| - 1];
      HashFoldIsWrappedPolynomial(seed, init);
      Wrap32Step(Polynomial(seed, init), BindHash(es[|es| - 1]));
    }
  }

  // ---------------------------------------------------------------------------
  // isSameByPlan and isSameByBind

  /**
   * The other operand of a list's isSameByPlan/isSameByBind: another expression list
   * (given by its elements) or an expression of another class.
   */
  datatype Operand = AList(elements: seq<Expr>) | AnExpr(expr: Expr)

  /** isSameByPlan of an expression against another expression. */
  function SameByPlan(e: Expr, other: Expr): bool
  {
    match e
    case Noop => other.Noop?
    case Leaf(info) => other.Leaf? && other.info.planKey == info.planKey
    case Junction(kind, children) =>
      other.Junction? && JoinType(kind) == JoinType(other.kind) && PairwiseSameByPlan(children, other.children)
  }

  /** Equal lengths, and every same-index pair is the same by plan. */
  function PairwiseSameByPlan(xs: seq<Expr>, ys: seq<Expr>): bool
    decreases xs, 1
  {
    |xs| == |ys| && FromSameByPlan(xs, ys)
  }

  function FromSameByPlan(xs: seq<Expr>, ys: seq<Expr>): bool
    requires |xs| == |ys|
    decreases xs, 0
  {
    |xs| == 0 || (SameByPlan(xs[0], ys[0]) && FromSameByPlan(xs[1..], ys[1..]))
  }

  /** DefaultExpressionList.isSameByPlan: false for anything but a list. */
  function ListSameByPlan(es: seq<Expr>, other: Operand): bool
  {
    other.AList? && PairwiseSameByPlan(es, other.elements)
  }

  lemma {:induction false} FromSameByPlanPairs(xs: seq<Expr>, ys: seq<Expr>)
    requires |xs| == |ys|
    ensures FromSameByPlan(xs, ys) <==> forall i | 0 <= i < |xs| :: SameByPlan(xs[i], ys[i])
  {
    if |xs| > 0 {
      FromSameByPlanPairs(xs[1..], ys[1..]);
      assert forall i | 1 <= i < |xs| :: xs[1..][i - 1] == xs[i] && ys[1..][i - 1] == ys[i];
    }
  }

  /** isSameByPlan of lists: false for a non-list or a different length, else pairwise. */
  lemma ListSameByPlanPairwise(es: seq<Expr>, other: Operand)
    ensures ListSameByPlan(es, other) <==>
      other.AList? && |es| == |other.elements| &&
      forall i | 0 <= i < |es| :: SameByPlan(es[i], other.elements[i])
  {
    if other.AList? && |es| == |other.elements| {
      FromSameByPlanPairs(es, other.elements);
    }
  }

  /**
   * isSameByBind of an expression. Leaves and junctions cast the other operand to their own
   * class first, so a mismatch is a ClassCastException; the Noop is the same as anything.
   */
  function SameByBind(e: Expr, other: Expr): Result<bool>
  {
    match e
    case Noop => Ok(true)
    case Leaf(info) =>
      if !other.Leaf? then Err(ClassCastException) else Ok(other.info.bindValues == info.bindValues)
    case Junction(kind, children) =>
      if !other.Junction? then Err(ClassCastException)
      else if JoinType(kind) != JoinType(other.kind) then Ok(false)
      else PairwiseSameByBind(children, other.children)
  }

  /** Different lengths are not the same; otherwise the first pair that differs, or throws, decides. */
  function PairwiseSameByBind(xs: seq<Expr>, ys: seq<Expr>): Result<bool>
    decreases xs, 1
  {
    if |xs| != |ys| then Ok(false) else FromSameByBind(xs, ys)
  }

  function FromSameByBind(xs: seq<Expr>, ys: seq<Expr>): Result<bool>
    requires |xs| == |ys|
    decreases xs, 0
  {
    if |xs| == 0 then Ok(true)
    else
      match SameByBind(xs[0], ys[0])
      case Err(ex) => Err(ex)
      case Ok(same) => if !same then Ok(false) else FromSameByBind(xs[1..], ys[1..])
  }

  /** DefaultExpressionList.isSameByBind casts without checking, so a non-list throws. */
  function ListSameByBind(es: seq<Expr>, other: Operand): Result<bool>
  {
    match other
    case AnExpr(_) => Err(ClassCastException)
    case AList(elements) => PairwiseSameByBind(es, elements)
  }

  /** Every expression is the same as itself by plan. */
  lemma {:induction false} SameByPlanReflexive(e: Expr)
    ensures SameByPlan(e, e)
    decreases e, 1
  {
    match e
    case Junction(_, children) =>
      FromSameByPlanReflexive(children);
    case _ =>
  }

  lemma {:induction false} FromSameByPlanReflexive(es: seq<Expr>)
    ensures FromSameByPlan(es, es)
    decreases es, 0
  {
    if |es| > 0 {
      SameByPlanReflexive(es[0]);
      FromSameByPlanReflexive(es[1..]);
    }
  }

  /** Once two expressions are the same by plan, comparing them by bind never throws. */
  lemma {:induction false} SameByPlanBindDefined(e: Expr, other: Expr)
    requires SameByPlan(e, other)
    ensures SameByBind(e, other).Ok?
    decreases e, 1
  {
    match e
    case Junction(_, children) =>
      FromSameByPlanBindDefined(children, other.children);
    case _ =>
  }

  lemma {:induction false} FromSameByPlanBindDefined(xs: seq<Expr>, ys: seq<Expr>)
    requires |xs| == |ys| && FromSameByPlan(xs, ys)
    ensures FromSameByBind(xs, ys).Ok?
    decreases xs, 0
  {
    if |xs| > 0 {
      SameByPlanBindDefined(xs[0], ys[0]);
      FromSameByPlanBindDefined(xs[1..], ys[1..]);
    }
  }

  /** Every expression is the same as itself by bind. */
  lemma {:induction false} SameByBindReflexive(e: Expr)
    ensures SameByBind(e, e) == Ok(true)
    decreases e, 1
  {
    match e
    case Junction(_, children) =>
      FromSameByBindReflexive(children);
    case _ =>
  }

  lemma {:induction false} FromSameByBindReflexive(es: seq<Expr>)
    ensures FromSameByBind(es, es) == Ok(true)
    decreases es, 0
  {
    if |es| > 0 {
      SameByBindReflexive(es[0]);
      FromSameByBindReflexive(es[1..]);
    }
  }

  // ---------------------------------------------------------------------------
  // copyForPlanKey

  /**
   * copyForPlanKey: the Noop is its own copy, a leaf is taken as its own copy, and a
   * junction of the same kind is rebuilt over copies of its children.
   */
  function CopyForPlanKey(e: Expr): Expr
  {
    match e
    case Noop => Noop
    case Leaf(_) => e
    case Junction(kind, children) => Junction(kind, ListCopyForPlanKey(children))
  }

  function ListCopyForPlanKey(es: seq<Expr>): (copies: seq<Expr>)
    ensures |copies| == |es|
  {
    if |es| == 0 then [] else ListCopyForPlanKey(es[..|es| - 1]) + [CopyForPlanKey(es[|es| - 1])]
  }

  lemma {:induction false} ListCopyForPlanKeyElements(es: seq<Expr>)
    ensures forall i | 0 <= i < |es| :: ListCopyForPlanKey(es)[i] == CopyForPlanKey(es[i])
  {
    if |es| > 0 {
      ListCopyForPlanKeyElements(es[..|es| - 1]);
    }
  }

  /** A plan-key copy is the same by plan as the original, and renders the same SQL. */
  lemma {:induction false} CopyForPlanKeyPreserves(e: Expr)
    ensures SameByPlan(CopyForPlanKey(e), e) && Sql(CopyForPlanKey(e)) == Sql(e)
    decreases e, 1
  {
    match e
    case Junction(kind, children) =>
      ListCopyForPlanKeyPreserves(children, JoinType(kind));
    case _ =>
  }

  lemma {:induction false} ListCopyForPlanKeyPreserves(es: seq<Expr>, sep: string)
    ensures FromSameByPlan(ListCopyForPlanKey(es), es)
    ensures ListSql(ListCopyForPlanKey(es), sep) == ListSql(es, sep)
    decreases es, 0
  {
    if |es| > 0 {
      var copies := ListCopyForPlanKey(es);
      var init := es[..|es| - 1];
      ListCopyForPlanKeyPreserves(init, sep);
      CopyForPlanKeyPreserves(es[|es| - 1]);
      assert copies[..|es| - 1] == ListCopyForPlanKey(init);
      ListCopyForPlanKeyElements(es);
      FromSameByPlanPairs(copies, es);
      FromSameByPlanPairs(ListCopyForPlanKey(init), init);
      assert forall i | 0 <= i < |es| - 1 :: copies[i] == ListCopyForPlanKey(init)[i];
    }
  }

  // ---------------------------------------------------------------------------
  // containsMany

  /** A many-property join registered by containsMany, and whether it must be outer. */
  datatype ManyJoin = ManyJoin(path: string, outer: bool)

  /** The ManyWhereJoins state: the require-outer-joins flag and the joins registered so far. */
  datatype JoinState = JoinState(requireOuterJoins: bool, joins: seq<ManyJoin>)

  /**
   * containsMany: a leaf on a many property registers its join, outer when the flag is on;
   * a disjunction turns the flag on for its children and turns it back off afterwards only
   * if it was off before; a conjunction leaves the flag alone.
   */
  function ContainsMany(e: Expr, st: JoinState): JoinState
  {
    match e
    case Noop => st
    case Leaf(info) =>
      if info.manyPath.Some? then st.(joins := st.joins + [ManyJoin(info.manyPath.value, st.requireOuterJoins)])
      else st
    case Junction(kind, children) =>
      var entry := if IsDisjunction(kind) then st.(requireOuterJoins := true) else st;
      var exit := ListContainsMany(children, entry);
      if IsDisjunction(kind) && !st.requireOuterJoins then exit.(requireOuterJoins := false) else exit
  }

  function ListContainsMany(es: seq<Expr>, st: JoinState): JoinState
  {
    if |es| == 0 then st else ContainsMany(es[|es| - 1], ListContainsMany(es[..|es| - 1], st))
  }

  /**
   * containsMany leaves the flag as it found it, only ever appends joins, and a join
   * registered while the flag is on is outer.
   */
  lemma {:induction false} ContainsManyRestoresFlag(e: Expr, st: JoinState)
    ensures ContainsMany(e, st).requireOuterJoins == st.requireOuterJoins
    ensures |ContainsMany(e, st).joins| >= |st.joins| && ContainsMany(e, st).joins[..|st.joins|] == st.joins
    ensures st.requireOuterJoins ==>
      forall i | |st.joins| <= i < |ContainsMany(e, st).joins| :: ContainsMany(e, st).joins[i].outer
    decreases e, 1
  {
    match e
    case Junction(kind, children) =>
      var entry := if IsDisjunction(kind) then st.(requireOuterJoins := true) else st;
      ListContainsManyRestoresFlag(children, entry);
    case _ =>
  }

  lemma {:induction false} ListContainsManyRestoresFlag(es: seq<Expr>, st: JoinState)
    ensures ListContainsMany(es, st).requireOuterJoins == st.requireOuterJoins
    ensures |ListContainsMany(es, st).joins| >= |st.joins| && ListContainsMany(es, st).joins[..|st.joins|] == st.joins
    ensures st.requireOuterJoins ==>
      forall i | |st.joins| <= i < |ListContainsMany(es, st).joins| :: ListContainsMany(es, st).joins[i].outer
    decreases es, 0
  {
    if |es| > 0 {
      var mid := ListContainsMany(es[..|es| - 1], st);
      ListContainsManyRestoresFlag(es[..|es| - 1], st);
      ContainsManyRestoresFlag(es[|es| - 1], mid);
      var fin := ListContainsMany(es, st);
      assert fin.joins[..|mid.joins|] == mid.joins;
      assert fin.joins[..|st.joins|] == mid.joins[..|st.joins|];
    }
  }

  /** Every join registered inside a disjunction is outer, whatever the flag was outside. */
  lemma DisjunctionJoinsAreOuter(children: seq<Expr>, st: JoinState)
    ensures var fin := ContainsMany(Junction(Disjunction, children), st);
      fin.requireOuterJoins == st.requireOuterJoins &&
      forall i | |st.joins| <= i < |fin.joins| :: fin.joins[i].outer
  {
    ListContainsManyRestoresFlag(children, st.(requireOuterJoins := true));
    ContainsManyRestoresFlag(Junction(Disjunction, children), st);
  }

  /**
   * The NoopExpression is a constant: it appends "1=1", binds nothing, has bind hash 0,
   * validates no property, is the same by plan only as another Noop and the same by bind
   * as anything, is its own copy, and registers no join.
   */
  lemma NoopExpressionConstant(other: Expr, st: JoinState)
    ensures Sql(Noop) == "1=1"
    ensures BindValues(Noop) == [] && BindHash(Noop) == 0 && Properties(Noop) == []
    ensures SameByPlan(Noop, other) <==> other.Noop?
    ensures SameByBind(Noop, other) == Ok(true)
    ensures CopyForPlanKey(Noop) == Noop
    ensures ContainsMany(Noop, st) == st
  {
  }
}
