/**
 * DefaultExpressionList and JunctionExpression: the mutable lists of expressions a query's
 * where clause is built from. A list holds its elements as Expr values; a junction holds
 * its own list. Each method is proved against the functions of module Expressions, which
 * say what the SpiExpression contract computes; the recursive methods at the top do, for
 * one element, what its class's method does (a junction element loops over its children).
 */
module ExpressionLists {
  import opened Java
  import opened JavaLang
  import opened Expressions
  import opened ExpressionValidation

  /** The query a top-level expression list belongs to; only its id is modelled. */
  class Query {
    var id: Option<string>

    constructor()
      ensures id == None
    {
      id := None;
    }
  }

  /** SpiExpressionRequest: the SQL text and the bind values built so far. */
  class ExpressionRequest {
    var sql: string
    var bindValues: seq<string>

    constructor()
      ensures sql == "" && bindValues == []
    {
      sql := "";
      bindValues := [];
    }

    method Append(s: string)
      modifies this
      ensures sql == old(sql) + s && bindValues == old(bindValues)
    {
      sql := sql + s;
    }

    method AddBindValues(vs: seq<string>)
      modifies this
      ensures bindValues == old(bindValues) + vs && sql == old(sql)
    {
      bindValues := bindValues + vs;
    }
  }

  /** ManyWhereJoins: the require-outer-joins flag and the many-property joins registered. */
  class ManyWhereJoins {
    var requireOuterJoins: bool
    var joins: seq<ManyJoin>

    constructor()
      ensures !requireOuterJoins && joins == []
    {
      requireOuterJoins := false;
      joins := [];
    }

    function State(): JoinState
      reads this
    {
      JoinState(requireOuterJoins, joins)
    }

    method SetRequireOuterJoins(b: bool)
      modifies this
      ensures requireOuterJoins == b && joins == old(joins)
    {
      requireOuterJoins := b;
    }

    /** Registers a join on a many property, outer when the flag is on. */
    method Add(path: string)
      modifies this
      ensures requireOuterJoins == old(requireOuterJoins)
      ensures joins == old(joins) + [ManyJoin(path, old(requireOuterJoins))]
    {
      joins := joins + [ManyJoin(path, requireOuterJoins)];
    }
  }

  /** ExpressionFactory: the leaf expressions idEq, exists and notExists add. */
  datatype ExpressionFactory = ExpressionFactory(
    idEq: string -> Expr,
    existsOf: string -> Expr,
    notExistsOf: string -> Expr)

  // ---------------------------------------------------------------------------
  // One element's addSql, addBindValues, validate and containsMany

  method AddExprSql(e: Expr, request: ExpressionRequest)
    modifies request
    ensures request.sql == old(request.sql) + Sql(e) && request.bindValues == old(request.bindValues)
    decreases e
  {
    match e
    case Leaf(info) =>
      request.Append(info.sql);
    case Noop =>
      request.Append("1=1");
    case Junction(kind, children) =>
      if |children| > 0 {
        request.Append("(");
        AddListSql(children, JoinType(kind), request);
        request.Append(") ");
      }
  }

  /** Each element's SQL in order, with sep before every element but the first. */
  method AddListSql(es: seq<Expr>, sep: string, request: ExpressionRequest)
    modifies request
    ensures request.sql == old(request.sql) + ListSql(es, sep) && request.bindValues == old(request.bindValues)
    decreases es
  {
    var i := 0;
    while i < |es|
      invariant 0 <= i <= |es|
      invariant request.sql == old(request.sql) + ListSql(es[..i], sep)
      invariant request.bindValues == old(request.bindValues)
    {
      if i > 0 {
        request.Append(sep);
      }
      AddExprSql(es[i], request);
      assert es[..i + 1][..i] == es[..i];
      i := i + 1;
    }
    assert es[..i] == es;
  }

  method AddExprBindValues(e: Expr, request: ExpressionRequest)
    modifies request
    ensures request.bindValues == old(request.bindValues) + BindValues(e) && request.sql == old(request.sql)
    decreases e
  {
    match e
    case Leaf(info) =>
      request.AddBindValues(info.bindValues);
    case Noop =>
    case Junction(_, children) =>
      AddListBindValues(children, request);
  }

  method AddListBindValues(es: seq<Expr>, request: ExpressionRequest)
    modifies request
    ensures request.bindValues == old(request.bindValues) + ListBindValues(es) && request.sql == old(request.sql)
    decreases es
  {
    var i := 0;
    while i < |es|
      invariant 0 <= i <= |es|
      invariant request.bindValues == old(request.bindValues) + ListBindValues(es[..i])
      invariant request.sql == old(request.sql)
    {
      AddExprBindValues(es[i], request);
      assert es[..i + 1][..i] == es[..i];
      i := i + 1;
    }
    assert es[..i] == es;
  }

  method ValidateExpr(e: Expr, validation: Validation)
    requires validation.Valid()
    modifies validation
    ensures validation.Valid()
    ensures validation.unknown == AfterValidating(old(validation.unknown), Properties(e), validation.isValidExpression)
    decreases e
  {
    match e
    case Leaf(info) =>
      var i := 0;
      while i < |info.properties|
        invariant 0 <= i <= |info.properties| && validation.Valid()
        invariant validation.unknown ==
          AfterValidating(old(validation.unknown), info.properties[..i], validation.isValidExpression)
      {
        validation.Validate(info.properties[i]);
        AfterValidatingAppend(old(validation.unknown), info.properties[..i], [info.properties[i]], validation.isValidExpression);
        assert info.properties[..i + 1] == info.properties[..i] + [info.properties[i]];
        i := i + 1;
      }
      assert info.properties[..i] == info.properties;
    case Noop =>
    case Junction(_, children) =>
      ValidateList(children, validation);
  }

  method ValidateList(es: seq<Expr>, validation: Validation)
    requires validation.Valid()
    modifies validation
    ensures validation.Valid()
    ensures validation.unknown == AfterValidating(old(validation.unknown), ListProperties(es), validation.isValidExpression)
    decreases es
  {
    var i := 0;
    while i < |es|
      invariant 0 <= i <= |es| && validation.Valid()
      invariant validation.unknown ==
        AfterValidating(old(validation.unknown), ListProperties(es[..i]), validation.isValidExpression)
    {
      ValidateExpr(es[i], validation);
      assert es[..i + 1][..i] == es[..i];
      AfterValidatingAppend(old(validation.unknown), ListProperties(es[..i]), Properties(es[i]), validation.isValidExpression);
      i := i + 1;
    }
    assert es[..i] == es;
  }

  /** containsMany of one element; for a junction, with the flag set and restored around its children. */
  method ExprContainsMany(e: Expr, joins: ManyWhereJoins)
    modifies joins
    ensures joins.State() == ContainsMany(e, old(joins.State()))
    decreases e
  {
    match e
    case Noop =>
    case Leaf(info) =>
      if info.manyPath.Some? {
        joins.Add(info.manyPath.value);
      }
    case Junction(kind, children) =>
      var parentOuterJoins := joins.requireOuterJoins;
      if IsDisjunction(kind) {
        joins.SetRequireOuterJoins(true);
      }
      ListContainsManyLoop(children, joins);
      if IsDisjunction(kind) && !parentOuterJoins {
        joins.SetRequireOuterJoins(false);
      }
  }

  method ListContainsManyLoop(es: seq<Expr>, joins: ManyWhereJoins)
    modifies joins
    ensures joins.State() == ListContainsMany(es, old(joins.State()))
    decreases es
  {
    var i := 0;
    while i < |es|
      invariant 0 <= i <= |es|
      invariant joins.State() == ListContainsMany(es[..i], old(joins.State()))
    {
      ExprContainsMany(es[i], joins);
      assert es[..i + 1][..i] == es[..i];
      i := i + 1;
    }
    assert es[..i] == es;
  }

  // ---------------------------------------------------------------------------
  // DefaultExpressionList

  class ExpressionList {
    var list: seq<Expr>
    const query: Option<Query>
    const parent: Option<ExpressionList>
    const factory: Option<ExpressionFactory>

    constructor(query: Option<Query>, factory: Option<ExpressionFactory>, parent: Option<ExpressionList>)
      ensures list == [] && this.query == query && this.factory == factory && this.parent == parent
    {
      list := [];
      this.query := query;
      this.factory := factory;
      this.parent := parent;
    }

    /** The private constructor copyForPlanKey uses: no query, factory or parent. */
    constructor Detached()
      ensures list == [] && query.None? && factory.None? && parent.None?
    {
      list := [];
      query := None;
      factory := None;
      parent := None;
    }

    /** add: appends one expression and returns this list. */
    method Add(e: Expr) returns (self: ExpressionList)
      modifies this
      ensures list == old(list) + [e] && self == this
    {
      list := list + [e];
      return this;
    }

    /** addAll: appends the other list's elements, in order, and returns this list. */
    method AddAll(other: ExpressionList) returns (self: ExpressionList)
      modifies this
      ensures list == old(list) + old(other.list) && self == this
    {
      list := list + other.list;
      return this;
    }

    predicate IsEmpty()
      reads this
    {
      |list| == 0
    }

    /** endJunction: the parent list, or this list when there is none. */
    function EndJunction(): (r: ExpressionList)
      ensures parent.Some? ==> r == parent.value
      ensures parent.None? ==> r == this
    {
      if parent.Some? then parent.value else this
    }

    /** copy: a fresh list over the same elements, for the given query and with no parent. */
    method Copy(q: Option<Query>) returns (c: ExpressionList)
      ensures fresh(c) && c.list == list && c.query == q && c.parent.None? && c.factory == factory
    {
      c := new ExpressionList(q, factory, None);
      var self := c.AddAll(this);
    }

    /** A copy is independent: appending to it leaves this list as it was. */
    method CopyThenAdd(q: Option<Query>, e: Expr) returns (c: ExpressionList)
      ensures fresh(c) && c.list == list + [e]
      ensures unchanged(this)
    {
      c := Copy(q);
      var self := c.Add(e);
    }

    /** copyForPlanKey: a fresh detached list holding each element's plan-key copy. */
    method CopyForPlanKey() returns (c: ExpressionList)
      ensures fresh(c) && c.query.None? && c.parent.None? && c.factory.None?
      ensures c.list == ListCopyForPlanKey(list)
      ensures |c.list| == |list| && forall i | 0 <= i < |list| :: c.list[i] == Expressions.CopyForPlanKey(list[i])
    {
      c := new ExpressionList.Detached();
      var i := 0;
      while i < |list|
        invariant 0 <= i <= |list|
        invariant c.list == ListCopyForPlanKey(list[..i])
      {
        c.list := c.list + [Expressions.CopyForPlanKey(list[i])];
        assert list[..i + 1][..i] == list[..i];
        i := i + 1;
      }
      assert list[..i] == list;
      ListCopyForPlanKeyElements(list);
    }

    /** addSql: the elements' SQL in list order, joined by " and ", nothing before or after. */
    method AddSql(request: ExpressionRequest)
      modifies request
      ensures request.sql == old(request.sql) + ListSql(list, LIST_AND_JOIN)
      ensures request.bindValues == old(request.bindValues)
    {
      request.Append("");
      AddListSql(list, LIST_AND_JOIN, request);
      request.Append("");
    }

    method AddBindValues(request: ExpressionRequest)
      modifies request
      ensures request.bindValues == old(request.bindValues) + ListBindValues(list)
      ensures request.sql == old(request.sql)
    {
      AddListBindValues(list, request);
    }

    method Validate(validation: Validation)
      requires validation.Valid()
      modifies validation
      ensures validation.Valid()
      ensures validation.unknown == AfterValidating(old(validation.unknown), ListProperties(list), validation.isValidExpression)
    {
      ValidateList(list, validation);
    }

    method ContainsMany(joins: ManyWhereJoins)
      modifies joins
      ensures joins.State() == ListContainsMany(list, old(joins.State()))
    {
      ListContainsManyLoop(list, joins);
    }

    /** queryBindHash: h := h * 31 + e.queryBindHash() from the class-name seed, in int arithmetic. */
    method QueryBindHash() returns (h: Int32)
      ensures h == HashFold(LIST_SEED, list)
      ensures h == Wrap32(Polynomial(LIST_SEED, list))
    {
      h := LIST_SEED;
      var i := 0;
      while i < |list|
        invariant 0 <= i <= |list|
        invariant h == HashFold(LIST_SEED, list[..i])
      {
        h := Wrap32(h * 31 + BindHash(list[i]));
        assert list[..i + 1][..i] == list[..i];
        i := i + 1;
      }
      assert list[..i] == list;
      HashFoldIsWrappedPolynomial(LIST_SEED, list);
    }

    /** isSameByPlan: false for a non-list or a different size, else the first mismatch decides. */
    method IsSameByPlan(other: Operand) returns (same: bool)
      ensures same == ListSameByPlan(list, other)
    {
      ListSameByPlanPairwise(list, other);
      if !other.AList? {
        return false;
      }
      var that := other.elements;
      if |list| != |that| {
        return false;
      }
      var i := 0;
      while i < |list|
        invariant 0 <= i <= |list|
        invariant forall j | 0 <= j < i :: SameByPlan(list[j], that[j])
      {
        if !SameByPlan(list[i], that[i]) {
          return false;
        }
        i := i + 1;
      }
      return true;
    }

    /** isSameByBind: casts the other operand without checking, then compares pairwise. */
    method IsSameByBind(other: Operand) returns (r: Result<bool>)
      ensures r == ListSameByBind(list, other)
    {
      if !other.AList? {
        return Err(ClassCastException);
      }
      var that := other.elements;
      if |list| != |that| {
        return Ok(false);
      }
      var i := 0;
      while i < |list|
        invariant 0 <= i <= |list|
        invariant FromSameByBind(list, that) == FromSameByBind(list[i..], that[i..])
      {
        assert list[i..][1..] == list[i + 1..] && that[i..][1..] == that[i + 1..];
        var pair := SameByBind(list[i], that[i]);
        if pair.Err? {
          return Err(pair.error);
        }
        if !pair.value {
          return Ok(false);
        }
        i := i + 1;
      }
      return Ok(true);
    }

    /**
     * idEq: on the top-level list of a query it sets the query's id and leaves the list
     * unchanged; otherwise it appends an id-equals expression.
     */
    method IdEq(value: string) returns (r: Outcome)
      modifies this, if query.Some? then {query.value} else {}
      ensures query.Some? && parent.None? ==> r == Pass && query.value.id == Some(value) && list == old(list)
      ensures !(query.Some? && parent.None?) && factory.Some? ==>
        r == Pass && list == old(list) + [factory.value.idEq(value)] && (query.Some? ==> unchanged(query.value))
      ensures !(query.Some? && parent.None?) && factory.None? ==>
        r == Fail(NullPointerException) && list == old(list) && (query.Some? ==> unchanged(query.value))
    {
      if query.Some? && parent.None? {
        query.value.id := Some(value);
        return Pass;
      }
      if factory.None? {
        return Fail(NullPointerException);
      }
      var self := Add(factory.value.idEq(value));
      return Pass;
    }

    /** exists: appends an exists expression over the sub-query. */
    method Exists(subQuery: string) returns (r: Outcome)
      modifies this
      ensures factory.Some? ==> r == Pass && list == old(list) + [factory.value.existsOf(subQuery)]
      ensures factory.None? ==> r == Fail(NullPointerException) && list == old(list)
    {
      if factory.None? {
        return Fail(NullPointerException);
      }
      var self := Add(factory.value.existsOf(subQuery));
      return Pass;
    }

    /** notExists: appends a not-exists expression over the sub-query. */
    method NotExists(subQuery: string) returns (r: Outcome)
      modifies this
      ensures factory.Some? ==> r == Pass && list == old(list) + [factory.value.notExistsOf(subQuery)]
      ensures factory.None? ==> r == Fail(NullPointerException) && list == old(list)
    {
      if factory.None? {
        return Fail(NullPointerException);
      }
      var self := Add(factory.value.notExistsOf(subQuery));
      return Pass;
    }
  }

  // ---------------------------------------------------------------------------
  // JunctionExpression

  /** What notExists on a junction does to its list, as written: it adds an exists expression. */
  function JunctionNotExistsAsWritten(list: seq<Expr>, factory: ExpressionFactory, subQuery: string): seq<Expr>
  {
    list + [factory.existsOf(subQuery)]
  }

  /** What notExists on a junction evidently should do: what it does on any other list. */
  function JunctionNotExistsIntended(list: seq<Expr>, factory: ExpressionFactory, subQuery: string): seq<Expr>
  {
    list + [factory.notExistsOf(subQuery)]
  }

  /**
   * Whenever the factory's exists and notExists expressions differ (as they do: one renders
   * "exists", the other "not exists"), notExists on a junction adds the wrong one.
   */
  lemma JunctionNotExistsQuirk(list: seq<Expr>, factory: ExpressionFactory, subQuery: string)
    requires factory.existsOf(subQuery) != factory.notExistsOf(subQuery)
    ensures JunctionNotExistsAsWritten(list, factory, subQuery) != JunctionNotExistsIntended(list, factory, subQuery)
    ensures JunctionNotExistsAsWritten(list, factory, subQuery)[|list|] == factory.existsOf(subQuery)
  {
    assert JunctionNotExistsAsWritten(list, factory, subQuery)[|list|] != JunctionNotExistsIntended(list, factory, subQuery)[|list|];
  }

  /** The corrected notExists renders its sub-query as the list's own notExists does. */
  lemma JunctionNotExistsIntendedAppends(list: seq<Expr>, factory: ExpressionFactory, subQuery: string)
    ensures |JunctionNotExistsIntended(list, factory, subQuery)| == |list| + 1
    ensures JunctionNotExistsIntended(list, factory, subQuery)[..|list|] == list
    ensures JunctionNotExistsIntended(list, factory, subQuery)[|list|] == factory.notExistsOf(subQuery)
  {
  }

  class JunctionExpression {
    const kind: JunctionKind
    const exprList: ExpressionList

    /** Conjunction(query, parent): " and ", not a disjunction, over a new empty list. */
    constructor Conjunction(query: Option<Query>, factory: Option<ExpressionFactory>, parent: Option<ExpressionList>)
      ensures kind == Expressions.Conjunction && JoinType() == " and " && !IsDisjunction()
      ensures fresh(exprList) && exprList.list == []
      ensures exprList.query == query && exprList.factory == factory && exprList.parent == parent
    {
      kind := Expressions.Conjunction;
      exprList := new ExpressionList(query, factory, parent);
    }

    /** Disjunction(query, parent): " or ", a disjunction, over a new empty list. */
    constructor Disjunction(query: Option<Query>, factory: Option<ExpressionFactory>, parent: Option<ExpressionList>)
      ensures kind == Expressions.Disjunction && JoinType() == " or " && IsDisjunction()
      ensures fresh(exprList) && exprList.list == []
      ensures exprList.query == query && exprList.factory == factory && exprList.parent == parent
    {
      kind := Expressions.Disjunction;
      exprList := new ExpressionList(query, factory, parent);
    }

    /** The constructor copyForPlanKey uses: a junction of the given kind over a given list. */
    constructor OfList(kind: JunctionKind, exprList: ExpressionList)
      ensures this.kind == kind && this.exprList == exprList
    {
      this.kind := kind;
      this.exprList := exprList;
    }

    /** The SQL word between the junction's members: " and " or " or ". */
    function JoinType(): (s: string)
      ensures s == (if kind == Expressions.Conjunction then " and " else " or ")
    {
      Expressions.JoinType(kind)
    }

    predicate IsDisjunction() { Expressions.IsDisjunction(kind) }

    /** The junction as an expression value: its kind over its list's current elements. */
    function Value(): (e: Expr)
      reads exprList
      ensures e.Junction? && e.kind == kind && e.children == exprList.list
      ensures |exprList.list| == 0 ==> Sql(e) == ""
      ensures |exprList.list| > 0 ==> Sql(e) == "(" + Joined(SqlParts(exprList.list), JoinType()) + ") "
    {
      JunctionSql(kind, exprList.list);
      Junction(kind, exprList.list)
    }

    /** add: appends to the inner list and returns this junction. */
    method Add(e: Expr) returns (self: JunctionExpression)
      modifies exprList
      ensures exprList.list == old(exprList.list) + [e] && self == this
    {
      var inner := exprList.Add(e);
      return this;
    }

    method AddAll(other: ExpressionList) returns (self: JunctionExpression)
      modifies exprList
      ensures exprList.list == old(exprList.list) + old(other.list) && self == this
    {
      var inner := exprList.AddAll(other);
      return this;
    }

    /** addSql: nothing when empty, else "(", the children joined by the join type, ") ". */
    method AddSql(request: ExpressionRequest)
      modifies request
      ensures request.sql == old(request.sql) + Sql(Value()) && request.bindValues == old(request.bindValues)
    {
      AddExprSql(Value(), request);
    }

    method AddBindValues(request: ExpressionRequest)
      modifies request
      ensures request.bindValues == old(request.bindValues) + BindValues(Value()) && request.sql == old(request.sql)
    {
      AddExprBindValues(Value(), request);
    }

    method Validate(validation: Validation)
      requires validation.Valid()
      modifies validation
      ensures validation.Valid()
      ensures validation.unknown == AfterValidating(old(validation.unknown), Properties(Value()), validation.isValidExpression)
    {
      ValidateExpr(Value(), validation);
    }

    /** containsMany: a disjunction sets the outer-join flag for its children and restores it. */
    method ContainsMany(joins: ManyWhereJoins)
      modifies joins
      ensures joins.State() == Expressions.ContainsMany(Value(), old(joins.State()))
      ensures joins.requireOuterJoins == old(joins.requireOuterJoins)
    {
      ExprContainsMany(Value(), joins);
      ContainsManyRestoresFlag(Value(), old(joins.State()));
    }

    /** queryBindHash: the h * 31 + child fold from the junction class-name seed. */
    method QueryBindHash() returns (h: Int32)
      ensures h == BindHash(Value())
    {
      var list := exprList.list;
      h := JUNCTION_SEED;
      var i := 0;
      while i < |list|
        invariant 0 <= i <= |list|
        invariant h == HashFold(JUNCTION_SEED, list[..i])
      {
        h := Wrap32(h * 31 + BindHash(list[i]));
        assert list[..i + 1][..i] == list[..i];
        i := i + 1;
      }
      assert list[..i] == list;
    }

    /** isSameByPlan: another junction with an equal join string and a same-by-plan list. */
    method IsSameByPlan(other: Expr) returns (same: bool)
      ensures same == SameByPlan(Value(), other)
      ensures same <==>
        (other.Junction? && JoinType() == Expressions.JoinType(other.kind) &&
         ListSameByPlan(exprList.list, AList(other.children)))
    {
      if !other.Junction? {
        return false;
      }
      var listSame := exprList.IsSameByPlan(AList(other.children));
      same := JoinType() == Expressions.JoinType(other.kind) && listSame;
    }

    /** isSameByBind: a cast, then the join string, then the lists pairwise. */
    method IsSameByBind(other: Expr) returns (r: Result<bool>)
      ensures r == SameByBind(Value(), other)
    {
      if !other.Junction? {
        return Err(ClassCastException);
      }
      if JoinType() != Expressions.JoinType(other.kind) {
        return Ok(false);
      }
      r := exprList.IsSameByBind(AList(other.children));
    }

    /** copyForPlanKey: a fresh junction of the same kind over a plan-key copy of the list. */
    method CopyForPlanKey() returns (c: JunctionExpression)
      ensures fresh(c) && fresh(c.exprList) && c.kind == kind
      ensures c.Value() == Expressions.CopyForPlanKey(Value())
    {
      var copy := exprList.CopyForPlanKey();
      c := new JunctionExpression.OfList(kind, copy);
    }

    /** endJunction: delegates to the inner list. */
    function EndJunction(): (r: ExpressionList)
      ensures r == exprList.EndJunction()
    {
      exprList.EndJunction()
    }

    method IdEq(value: string) returns (r: Outcome)
      modifies exprList, if exprList.query.Some? then {exprList.query.value} else {}
      ensures exprList.query.Some? && exprList.parent.None? ==>
        r == Pass && exprList.query.value.id == Some(value) && exprList.list == old(exprList.list)
      ensures !(exprList.query.Some? && exprList.parent.None?) && exprList.factory.Some? ==>
        r == Pass && exprList.list == old(exprList.list) + [exprList.factory.value.idEq(value)] &&
        (exprList.query.Some? ==> unchanged(exprList.query.value))
      ensures !(exprList.query.Some? && exprList.parent.None?) && exprList.factory.None? ==>
        r == Fail(NullPointerException) && exprList.list == old(exprList.list) &&
        (exprList.query.Some? ==> unchanged(exprList.query.value))
    {
      r := exprList.IdEq(value);
    }

    method Exists(subQuery: string) returns (r: Outcome)
      modifies exprList
      ensures exprList.factory.Some? ==>
        r == Pass && exprList.list == old(exprList.list) + [exprList.factory.value.existsOf(subQuery)]
      ensures exprList.factory.None? ==> r == Fail(NullPointerException) && exprList.list == old(exprList.list)
    {
      r := exprList.Exists(subQuery);
    }

    /** notExists, as written: it delegates to the inner list's exists, not its notExists. */
    method NotExists(subQuery: string) returns (r: Outcome)
      modifies exprList
      ensures exprList.factory.Some? ==>
        r == Pass && exprList.list == JunctionNotExistsAsWritten(old(exprList.list), exprList.factory.value, subQuery)
      ensures exprList.factory.None? ==> r == Fail(NullPointerException) && exprList.list == old(exprList.list)
    {
      r := exprList.Exists(subQuery);
    }

    /** notExists as evidently intended: the inner list's notExists. */
    method NotExistsCorrected(subQuery: string) returns (r: Outcome)
      modifies exprList
      ensures exprList.factory.Some? ==>
        r == Pass && exprList.list == JunctionNotExistsIntended(old(exprList.list), exprList.factory.value, subQuery)
      ensures exprList.factory.None? ==> r == Fail(NullPointerException) && exprList.list == old(exprList.list)
    {
      r := exprList.NotExists(subQuery);
    }

    /** filterMany is not allowed on a junction. */
    function FilterMany(prop: string): (r: Result<ExpressionList>)
      ensures r.Err? && r.error == RuntimeException("filterMany not allowed on Junction expression list")
    {
      Err(RuntimeException("filterMany not allowed on Junction expression list"))
    }

    /** having is not allowed on a junction. */
    function Having(): (r: Result<ExpressionList>)
      ensures r.Err? && r.error == RuntimeException("having() not allowed on Junction expression list")
    {
      Err(RuntimeException("having() not allowed on Junction expression list"))
    }

    /** writeElastic is not supported on a junction. */
    function WriteElastic(): (r: Outcome)
      ensures r == Fail(IllegalStateException("Not supported"))
    {
      Fail(IllegalStateException("Not supported"))
    }
  }
}
