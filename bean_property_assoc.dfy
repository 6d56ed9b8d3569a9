/**
 * BeanPropertyAssoc: a property mapped to an associated bean. The model keeps how it
 * matches the columns of its join back to the target's properties to build the imported
 * id (the foreign key seen from the owner), whether the join is updateable and insertable,
 * and whether a target bean has its id.
 */
module BeanPropertyAssoc {
  import opened Java
  import opened JavaLang

  /** The parts of a BeanProperty of the target that the matching uses. */
  datatype BeanProperty = BeanProperty(name: string, dbColumn: string)

  /** The target's id property: a scalar, or an embedded id with its own base scalar properties. */
  datatype IdProperty =
    | ScalarId(prop: BeanProperty)
    | EmbeddedId(prop: BeanProperty, baseProperties: seq<BeanProperty>)

  /** What the matching reads of the target BeanDescriptor. */
  datatype TargetDescriptor = TargetDescriptor(idProperty: Option<IdProperty>, baseScalar: seq<BeanProperty>)

  datatype TableJoinColumn = TableJoinColumn(localDbColumn: string, foreignDbColumn: string, updateable: bool, insertable: bool)

  datatype TableJoin = TableJoin(table: string, columns: seq<TableJoinColumn>)

  /**
   * ImportedIdSimple: a local column, the target property it imports, and that property's
   * position (id properties first, then the others).
   */
  datatype ImportedIdSimple = ImportedIdSimple(localDbColumn: string, foreignProperty: Option<BeanProperty>, position: nat)

  datatype ImportedId =
    | Simple(scalar: ImportedIdSimple)
    | EmbeddedImport(embeddedProperty: BeanProperty, scalars: seq<ImportedIdSimple>)

  /** A bean of the target type: the values of its set properties, by property name (absent is null). */
  type EntityBean = map<string, string>

  /** The message createImportedScalar throws with. */
  function NoMatchMessage(fullBeanName: string, matchColumn: string): string
  {
    "Error with the Join on [" + fullBeanName + "]. Could not find the local match for [" + matchColumn + "] "
      + " Perhaps an error in a @JoinColumn"
  }

  /** The index of the first property whose db column equals column ignoring case, from index i. */
  function FirstColumnMatch(props: seq<BeanProperty>, column: string, i: nat): (r: Option<nat>)
    requires i <= |props|
    ensures r.Some? ==> i <= r.value < |props| && EqualsIgnoreCase(props[r.value].dbColumn, column)
    ensures r.Some? ==> forall k | i <= k < r.value :: !EqualsIgnoreCase(props[k].dbColumn, column)
    ensures r.None? ==> forall k | i <= k < |props| :: !EqualsIgnoreCase(props[k].dbColumn, column)
    decreases |props| - i
  {
    if i == |props| then None
    else if EqualsIgnoreCase(props[i].dbColumn, column) then Some(i)
    else FirstColumnMatch(props, column, i + 1)
  }

  /**
   * createImportedScalar: the first of props matching the join column's foreign column, at
   * its index; else the first of others, at its index after props; else a
   * PersistenceException.
   */
  function ImportedScalar(fullBeanName: string, col: TableJoinColumn, props: seq<BeanProperty>,
                          others: seq<BeanProperty>): Result<ImportedIdSimple>
  {
    var matchColumn := col.foreignDbColumn;
    match FirstColumnMatch(props, matchColumn, 0)
    case Some(j) => Ok(ImportedIdSimple(col.localDbColumn, Some(props[j]), j))
    case None =>
      match FirstColumnMatch(others, matchColumn, 0)
      case Some(j) => Ok(ImportedIdSimple(col.localDbColumn, Some(others[j]), j + |props|))
      case None => Err(PersistenceException(NoMatchMessage(fullBeanName, matchColumn)))
  }

  /**
   * An imported scalar names a property of props or of others whose column matches the
   * foreign column, at the position of that property in props followed by others, and no
   * earlier property there matches; it fails exactly when none matches.
   */
  lemma ImportedScalarSpec(fullBeanName: string, col: TableJoinColumn, props: seq<BeanProperty>, others: seq<BeanProperty>)
    ensures var r := ImportedScalar(fullBeanName, col, props, others);
      var all := props + others;
      (r.Err? <==> forall k | 0 <= k < |all| :: !EqualsIgnoreCase(all[k].dbColumn, col.foreignDbColumn)) &&
      (r.Ok? ==>
        r.value.localDbColumn == col.localDbColumn &&
        r.value.position < |all| && r.value.foreignProperty == Some(all[r.value.position]) &&
        EqualsIgnoreCase(all[r.value.position].dbColumn, col.foreignDbColumn) &&
        forall k | 0 <= k < r.value.position :: !EqualsIgnoreCase(all[k].dbColumn, col.foreignDbColumn))
  {
    var all := props + others;
    var m := col.foreignDbColumn;
    assert forall k | 0 <= k < |props| :: all[k] == props[k];
    assert forall k | |props| <= k < |all| :: all[k] == others[k - |props|];
    var first := FirstColumnMatch(props, m, 0);
    if first.None? {
      var second := FirstColumnMatch(others, m, 0);
      if second.Some? {
        var j := second.value;
        assert all[j + |props|] == others[j];
        forall k | 0 <= k < j + |props| ensures !EqualsIgnoreCase(all[k].dbColumn, m) {
          if k >= |props| {
            assert all[k] == others[k - |props|];
          }
        }
      } else {
        forall k | 0 <= k < |all| ensures !EqualsIgnoreCase(all[k].dbColumn, m) {
          if k >= |props| {
            assert all[k] == others[k - |props|];
          }
        }
      }
    }
  }

  /** Whether the scalars are in ascending position order. */
  predicate ByPosition(scalars: seq<ImportedIdSimple>)
  {
    forall i, j | 0 <= i < j < |scalars| :: scalars[i].position <= scalars[j].position
  }

  function InsertByPosition(x: ImportedIdSimple, s: seq<ImportedIdSimple>): seq<ImportedIdSimple>
  {
    if |s| == 0 then [x]
    else if s[0].position <= x.position then [s[0]] + InsertByPosition(x, s[1..])
    else [x] + s
  }

  /** ImportedIdSimple.sort: a stable sort by position. */
  function SortByPosition(s: seq<ImportedIdSimple>): seq<ImportedIdSimple>
  {
    if |s| == 0 then [] else InsertByPosition(s[|s| - 1], SortByPosition(s[..|s| - 1]))
  }

  lemma {:induction false} InsertByPositionMultiset(x: ImportedIdSimple, s: seq<ImportedIdSimple>)
    ensures multiset(InsertByPosition(x, s)) == multiset(s) + multiset{x}
  {
    if |s| > 0 && s[0].position <= x.position {
      InsertByPositionMultiset(x, s[1..]);
      assert s == [s[0]] + s[1..];
    }
  }

  lemma InsertByPositionMembers(x: ImportedIdSimple, s: seq<ImportedIdSimple>, y: ImportedIdSimple)
    ensures y in InsertByPosition(x, s) <==> y in s || y == x
  {
    InsertByPositionMultiset(x, s);
    assert y in InsertByPosition(x, s) <==> y in multiset(InsertByPosition(x, s));
    assert y in s <==> y in multiset(s);
  }

  /** A scalar placed before a sorted run whose first position it does not exceed keeps the run sorted. */
  lemma ConsByPosition(x: ImportedIdSimple, s: seq<ImportedIdSimple>)
    requires ByPosition(s)
    requires forall j | 0 <= j < |s| :: x.position <= s[j].position
    ensures ByPosition([x] + s)
  {
    var r := [x] + s;
    forall i, j | 0 <= i < j < |r| ensures r[i].position <= r[j].position {
      if i > 0 {
        assert r[i] == s[i - 1] && r[j] == s[j - 1];
      } else {
        assert r[j] == s[j - 1];
      }
    }
  }

  lemma {:induction false} InsertByPositionSorted(x: ImportedIdSimple, s: seq<ImportedIdSimple>)
    requires ByPosition(s)
    ensures ByPosition(InsertByPosition(x, s))
  {
    if |s| > 0 && s[0].position <= x.position {
      var tail := s[1..];
      InsertByPositionSorted(x, tail);
      var rt := InsertByPosition(x, tail);
      forall j | 0 <= j < |rt| ensures s[0].position <= rt[j].position {
        InsertByPositionMembers(x, tail, rt[j]);
      }
      ConsByPosition(s[0], rt);
    } else if |s| > 0 {
      assert forall j | 0 <= j < |s| :: s[0].position <= s[j].position;
      ConsByPosition(x, s);
    }
  }

  /** Sorting by position orders the scalars and keeps exactly the same ones. */
  lemma {:induction false} SortByPositionSpec(s: seq<ImportedIdSimple>)
    ensures ByPosition(SortByPosition(s))
    ensures multiset(SortByPosition(s)) == multiset(s)
  {
    if |s| > 0 {
      var init := s[..|s| - 1];
      SortByPositionSpec(init);
      InsertByPositionMultiset(s[|s| - 1], SortByPosition(init));
      InsertByPositionSorted(s[|s| - 1], SortByPosition(init));
      assert s == init + [s[|s| - 1]];
    }
  }

  /** The scalars of s at position p, in their order in s. */
  function AtPosition(s: seq<ImportedIdSimple>, p: nat): seq<ImportedIdSimple>
  {
    if |s| == 0 then []
    else (if s[0].position == p then [s[0]] else []) + AtPosition(s[1..], p)
  }

  lemma {:induction false} AtPositionAppend(a: seq<ImportedIdSimple>, b: seq<ImportedIdSimple>, p: nat)
    ensures AtPosition(a + b, p) == AtPosition(a, p) + AtPosition(b, p)
  {
    if |a| > 0 {
      assert (a + b)[1..] == a[1..] + b;
      AtPositionAppend(a[1..], b, p);
    } else {
      assert a + b == b;
    }
  }

  lemma {:induction false} AtPositionNone(s: seq<ImportedIdSimple>, p: nat)
    requires forall j | 0 <= j < |s| :: s[j].position != p
    ensures AtPosition(s, p) == []
  {
    if |s| > 0 {
      AtPositionNone(s[1..], p);
    }
  }

  lemma AtPositionCons(a: ImportedIdSimple, t: seq<ImportedIdSimple>, p: nat)
    ensures AtPosition([a] + t, p) == (if a.position == p then [a] else []) + AtPosition(t, p)
  {
    assert ([a] + t)[1..] == t;
  }

  lemma ByPositionTail(s: seq<ImportedIdSimple>)
    requires |s| > 0 && ByPosition(s)
    ensures ByPosition(s[1..])
  {
  }

  /** No scalar of a sorted run sits below the run's first position. */
  lemma ByPositionBelowHead(s: seq<ImportedIdSimple>, p: nat)
    requires |s| > 0 && ByPosition(s) && p < s[0].position
    ensures AtPosition(s, p) == []
  {
    assert forall j | 0 <= j < |s| :: s[j].position != p by {
      forall j | 0 < j < |s| ensures s[j].position != p {
        assert s[0].position <= s[j].position;
      }
    }
    AtPositionNone(s, p);
  }

  /** Inserting into a sorted run puts x after every scalar already there at its position. */
  lemma {:induction false} InsertByPositionStable(x: ImportedIdSimple, s: seq<ImportedIdSimple>, p: nat)
    requires ByPosition(s)
    ensures AtPosition(InsertByPosition(x, s), p) == AtPosition(s, p) + (if x.position == p then [x] else [])
  {
    if |s| == 0 {
      assert InsertByPosition(x, s) == [x] + [];
      AtPositionCons(x, [], p);
    } else if s[0].position <= x.position {
      var tail := s[1..];
      ByPositionTail(s);
      InsertByPositionStable(x, tail, p);
      assert InsertByPosition(x, s) == [s[0]] + InsertByPosition(x, tail);
      AtPositionCons(s[0], InsertByPosition(x, tail), p);
      assert s == [s[0]] + tail;
      AtPositionCons(s[0], tail, p);
    } else {
      assert InsertByPosition(x, s) == [x] + s;
      AtPositionCons(x, s, p);
      if x.position == p {
        ByPositionBelowHead(s, p);
      }
    }
  }

  lemma {:induction false} SortByPositionSorted(s: seq<ImportedIdSimple>)
    ensures ByPosition(SortByPosition(s))
  {
    if |s| > 0 {
      SortByPositionSorted(s[..|s| - 1]);
      InsertByPositionSorted(s[|s| - 1], SortByPosition(s[..|s| - 1]));
    }
  }

  /** The sort is stable: the scalars that share a position keep their relative order. */
  lemma {:induction false} SortByPositionStable(s: seq<ImportedIdSimple>, p: nat)
    ensures AtPosition(SortByPosition(s), p) == AtPosition(s, p)
  {
    if |s| > 0 {
      var init := s[..|s| - 1];
      var last := s[|s| - 1];
      var sorted := SortByPosition(init);
      assert SortByPosition(s) == InsertByPosition(last, sorted);
      SortByPositionStable(init, p);
      SortByPositionSorted(init);
      InsertByPositionStable(last, sorted, p);
      assert s == init + [last];
      AtPositionAppend(init, [last], p);
      AtPositionCons(last, [], p);
      assert [last] + [] == [last];
    }
  }

  /** createImportedList before sorting: one imported scalar per join column, in column order; the first failure wins. */
  function ImportedScalars(fullBeanName: string, cols: seq<TableJoinColumn>, props: seq<BeanProperty>,
                           others: seq<BeanProperty>): Result<seq<ImportedIdSimple>>
  {
    if |cols| == 0 then Ok([])
    else
      match ImportedScalars(fullBeanName, cols[..|cols| - 1], props, others)
      case Err(e) => Err(e)
      case Ok(init) =>
        match ImportedScalar(fullBeanName, cols[|cols| - 1], props, others)
        case Err(e) => Err(e)
        case Ok(s) => Ok(init + [s])
  }

  /** createImportedList fails exactly when some column has no match. */
  lemma {:induction false} ImportedScalarsFails(fullBeanName: string, cols: seq<TableJoinColumn>,
                                                props: seq<BeanProperty>, others: seq<BeanProperty>)
    ensures ImportedScalars(fullBeanName, cols, props, others).Err? <==>
      exists i | 0 <= i < |cols| :: ImportedScalar(fullBeanName, cols[i], props, others).Err?
  {
    if |cols| > 0 {
      var init := cols[..|cols| - 1];
      ImportedScalarsFails(fullBeanName, init, props, others);
      assert forall i | 0 <= i < |init| :: init[i] == cols[i];
    }
  }

  /** On success there is one imported scalar per column, each built from its column. */
  lemma {:induction false} ImportedScalarsEach(fullBeanName: string, cols: seq<TableJoinColumn>,
                                               props: seq<BeanProperty>, others: seq<BeanProperty>)
    ensures var r := ImportedScalars(fullBeanName, cols, props, others);
      r.Ok? ==> (|r.value| == |cols| &&
        forall i | 0 <= i < |cols| :: Ok(r.value[i]) == ImportedScalar(fullBeanName, cols[i], props, others))
  {
    if |cols| > 0 {
      var init := cols[..|cols| - 1];
      ImportedScalarsEach(fullBeanName, init, props, others);
      assert forall i | 0 <= i < |init| :: init[i] == cols[i];
    }
  }

  /** One imported scalar per column, each built from its column; it fails when some column has no match. */
  lemma ImportedScalarsSpec(fullBeanName: string, cols: seq<TableJoinColumn>,
                            props: seq<BeanProperty>, others: seq<BeanProperty>)
    ensures var r := ImportedScalars(fullBeanName, cols, props, others);
      (r.Err? <==> exists i | 0 <= i < |cols| :: ImportedScalar(fullBeanName, cols[i], props, others).Err?) &&
      (r.Ok? ==> (|r.value| == |cols| &&
        forall i | 0 <= i < |cols| :: Ok(r.value[i]) == ImportedScalar(fullBeanName, cols[i], props, others)))
  {
    ImportedScalarsFails(fullBeanName, cols, props, others);
    ImportedScalarsEach(fullBeanName, cols, props, others);
  }

  class BeanPropertyAssoc {
    /** getFullBeanName of the owning descriptor. */
    const fullBeanName: string
    /** descriptor.isSqlSelectBased() of the owning descriptor. */
    const sqlSelectBased: bool
    const tableJoin: TableJoin
    /** The target descriptor, as initialise finds it. */
    const targetDescriptor: TargetDescriptor

    constructor(fullBeanName: string, sqlSelectBased: bool, tableJoin: TableJoin, targetDescriptor: TargetDescriptor)
      ensures this.fullBeanName == fullBeanName && this.sqlSelectBased == sqlSelectBased
      ensures this.tableJoin == tableJoin && this.targetDescriptor == targetDescriptor
    {
      this.fullBeanName := fullBeanName;
      this.sqlSelectBased := sqlSelectBased;
      this.tableJoin := tableJoin;
      this.targetDescriptor := targetDescriptor;
    }

    /** isUpdateable: a join without columns is updateable; otherwise its first column decides. */
    function IsUpdateable(): (r: bool)
      ensures |tableJoin.columns| == 0 ==> r
      ensures |tableJoin.columns| > 0 ==> (r <==> tableJoin.columns[0].updateable)
    {
      |tableJoin.columns| <= 0 || tableJoin.columns[0].updateable
    }

    /** isInsertable: a join without columns is insertable; otherwise its first column decides. */
    function IsInsertable(): (r: bool)
      ensures |tableJoin.columns| == 0 ==> r
      ensures |tableJoin.columns| > 0 ==> (r <==> tableJoin.columns[0].insertable)
    {
      |tableJoin.columns| <= 0 || tableJoin.columns[0].insertable
    }

    /** hasId: false exactly when the target has an id property and the bean's value for it is null. */
    function HasId(bean: EntityBean): (r: bool)
      ensures !r <==> targetDescriptor.idProperty.Some? && targetDescriptor.idProperty.value.prop.name !in bean
    {
      match targetDescriptor.idProperty
      case None => true
      case Some(idProp) => idProp.prop.name in bean
    }

    /** createImportedScalar: search props, then others, for the join column's foreign column. */
    method CreateImportedScalar(col: TableJoinColumn, props: seq<BeanProperty>, others: seq<BeanProperty>)
      returns (r: Result<ImportedIdSimple>)
      ensures r == ImportedScalar(fullBeanName, col, props, others)
    {
      var matchColumn := col.foreignDbColumn;
      var localColumn := col.localDbColumn;
      var j := 0;
      while j < |props|
        invariant 0 <= j <= |props|
        invariant FirstColumnMatch(props, matchColumn, 0) == FirstColumnMatch(props, matchColumn, j)
      {
        if EqualsIgnoreCase(props[j].dbColumn, matchColumn) {
          return Ok(ImportedIdSimple(localColumn, Some(props[j]), j));
        }
        j := j + 1;
      }
      j := 0;
      while j < |others|
        invariant 0 <= j <= |others|
        invariant FirstColumnMatch(others, matchColumn, 0) == FirstColumnMatch(others, matchColumn, j)
      {
        if EqualsIgnoreCase(others[j].dbColumn, matchColumn) {
          return Ok(ImportedIdSimple(localColumn, Some(others[j]), j + |props|));
        }
        j := j + 1;
      }
      r := Err(PersistenceException(NoMatchMessage(fullBeanName, matchColumn)));
    }

    /** createImportedList: one imported scalar per join column, then sorted by position. */
    method CreateImportedList(cols: seq<TableJoinColumn>, props: seq<BeanProperty>, others: seq<BeanProperty>)
      returns (r: Result<seq<ImportedIdSimple>>)
      ensures r.Err? <==> ImportedScalars(fullBeanName, cols, props, others).Err?
      ensures r.Err? ==> r == Err(ImportedScalars(fullBeanName, cols, props, others).error)
      ensures r.Ok? ==> r.value == SortByPosition(ImportedScalars(fullBeanName, cols, props, others).value)
    {
      var list: seq<ImportedIdSimple> := [];
      var i := 0;
      while i < |cols|
        invariant 0 <= i <= |cols|
        invariant ImportedScalars(fullBeanName, cols[..i], props, others) == Ok(list)
      {
        assert cols[..i + 1][..i] == cols[..i];
        var s := CreateImportedScalar(cols[i], props, others);
        if s.Err? {
          ImportedScalarsFailFrom(fullBeanName, cols, props, others, i + 1);
          return Err(s.error);
        }
        list := list + [s.value];
        i := i + 1;
      }
      assert cols[..i] == cols;
      r := Ok(SortByPosition(list));
    }

    /**
     * createImportedId: a SQL-select-based owner imports its own column, at position 0; no
     * id property gives null; a scalar id needs exactly one join column (null otherwise);
     * an embedded id imports one sorted scalar per join column.
     */
    method CreateImportedId(ownerDbColumn: string, target: TargetDescriptor, join: TableJoin)
      returns (r: Result<Option<ImportedId>>)
      ensures sqlSelectBased ==>
        r == Ok(Some(Simple(ImportedIdSimple(ownerDbColumn,
          if target.idProperty.Some? then Some(target.idProperty.value.prop) else None, 0))))
      ensures !sqlSelectBased && target.idProperty.None? ==> r == Ok(None)
      ensures !sqlSelectBased && target.idProperty.Some? && target.idProperty.value.ScalarId? ==>
        if |join.columns| != 1 then r == Ok(None)
        else
          var s := ImportedScalar(fullBeanName, join.columns[0], [target.idProperty.value.prop], target.baseScalar);
          r == if s.Err? then Err(s.error) else Ok(Some(Simple(s.value)))
      ensures !sqlSelectBased && target.idProperty.Some? && target.idProperty.value.EmbeddedId? ==>
        var id := target.idProperty.value;
        var s := ImportedScalars(fullBeanName, join.columns, id.baseProperties, target.baseScalar);
        r == if s.Err? then Err(s.error) else Ok(Some(EmbeddedImport(id.prop, SortByPosition(s.value))))
    {
      var idProp := target.idProperty;
      var others := target.baseScalar;
      if sqlSelectBased {
        var foreign := if idProp.Some? then Some(idProp.value.prop) else None;
        return Ok(Some(Simple(ImportedIdSimple(ownerDbColumn, foreign, 0))));
      }
      var cols := join.columns;
      if idProp.None? {
        return Ok(None);
      }
      match idProp.value
      case ScalarId(p) =>
        if |cols| != 1 {
          // the source logs "No Imported Id column for [...] in table [...]" here
          return Ok(None);
        }
        var s := CreateImportedScalar(cols[0], [p], others);
        if s.Err? {
          return Err(s.error);
        }
        r := Ok(Some(Simple(s.value)));
      case EmbeddedId(p, embBaseProps) =>
        var scalars := CreateImportedList(cols, embBaseProps, others);
        if scalars.Err? {
          return Err(scalars.error);
        }
        r := Ok(Some(EmbeddedImport(p, scalars.value)));
    }
  }

  /** Once the columns up to i fail, the whole list fails with that same failure. */
  lemma {:induction false} ImportedScalarsFailFrom(fullBeanName: string, cols: seq<TableJoinColumn>,
                                                   props: seq<BeanProperty>, others: seq<BeanProperty>, i: nat)
    requires i <= |cols|
    requires ImportedScalars(fullBeanName, cols[..i], props, others).Err?
    ensures ImportedScalars(fullBeanName, cols, props, others) == ImportedScalars(fullBeanName, cols[..i], props, others)
    decreases |cols| - i
  {
    if i == |cols| {
      assert cols[..i] == cols;
    } else {
      assert cols[..i + 1][..i] == cols[..i];
      ImportedScalarsFailFrom(fullBeanName, cols, props, others, i + 1);
    }
  }

  /**
   * A successful imported list holds one scalar per join column, each the one that
   * column's foreign column matches, in ascending position order.
   */
  lemma ImportedListSpec(fullBeanName: string, cols: seq<TableJoinColumn>, props: seq<BeanProperty>, others: seq<BeanProperty>)
    requires ImportedScalars(fullBeanName, cols, props, others).Ok?
    ensures var sorted := SortByPosition(ImportedScalars(fullBeanName, cols, props, others).value);
      |sorted| == |cols| && ByPosition(sorted) &&
      forall e | e in sorted :: exists i | 0 <= i < |cols| :: ImportedScalar(fullBeanName, cols[i], props, others) == Ok(e)
  {
    var list := ImportedScalars(fullBeanName, cols, props, others).value;
    ImportedScalarsSpec(fullBeanName, cols, props, others);
    SortByPositionSpec(list);
    var sorted := SortByPosition(list);
    assert |sorted| == |multiset(sorted)| == |multiset(list)| == |list|;
    forall e | e in sorted
      ensures exists i | 0 <= i < |cols| :: ImportedScalar(fullBeanName, cols[i], props, others) == Ok(e)
    {
      assert e in multiset(sorted);
      assert e in multiset(list);
      var i :| 0 <= i < |list| && list[i] == e;
      assert ImportedScalar(fullBeanName, cols[i], props, others) == Ok(e);
    }
  }
}
