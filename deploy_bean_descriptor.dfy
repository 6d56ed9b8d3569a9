/**
 * DeployBeanDescriptor: the deployment information collected for one entity bean before
 * its BeanDescriptor is built. The model keeps the parts with rules of their own:
 * the doc-store settings and how a persist event resolves, the base-table names, the
 * property map and its ordering, the default select clause and its parsing, the id
 * properties, the persist controllers/listeners, query adapters and post-loaders, the
 * entity type and the named queries and raw SQL with their "extend" resolution.
 */
module DeployBeanDescriptor {
  import opened Java
  import opened JavaLang
  import opened LinkedMaps

  // ---------------------------------------------------------------------------
  // Doc store

  /** The DocStoreEvent annotation enum. */
  datatype DocStoreEvent = Queue | Update | Ignore | Default

  /** BeanDocStoreType: whether the bean is indexed in a document store. */
  datatype BeanDocStoreType = NoDocStore | IndexDocStore | EmbeddedDocStore

  /** The attributes of a @DocStore annotation that readDocStore takes. */
  datatype DocStore = DocStore(
    queueId: string, indexName: string, indexType: string, doc: string,
    persist: DocStoreEvent, insert: DocStoreEvent, update: DocStoreEvent, delete: DocStoreEvent)

  /**
   * getDocStoreIndexEvent: how an insert, update or delete is indexed. A bean that is not
   * in a document store ignores every event; otherwise the most specific setting wins,
   * then the bean's persist setting, then the server's. None stands for a null setting.
   */
  function IndexEvent(beanType: BeanDocStoreType, mostSpecific: Option<DocStoreEvent>,
                      persist: Option<DocStoreEvent>, serverDefault: DocStoreEvent): (r: Option<DocStoreEvent>)
    ensures beanType == NoDocStore ==> r == Some(Ignore)
    ensures beanType != NoDocStore ==> r == mostSpecific || r == persist || r == Some(serverDefault)
    ensures beanType != NoDocStore && mostSpecific != Some(Default) ==> r == mostSpecific
    ensures beanType != NoDocStore && mostSpecific == Some(Default) && persist != Some(Default) ==> r == persist
    ensures beanType != NoDocStore && mostSpecific == Some(Default) && persist == Some(Default) ==>
      r == Some(serverDefault)
    ensures mostSpecific.Some? && persist.Some? ==> r.Some?
    ensures r == Some(Default) ==>
      beanType != NoDocStore && mostSpecific == Some(Default) && persist == Some(Default) && serverDefault == Default
  {
    if beanType == NoDocStore then Some(Ignore)
    else if mostSpecific != Some(Default) then mostSpecific
    else if persist != Some(Default) then persist
    else Some(serverDefault)
  }

  // ---------------------------------------------------------------------------
  // Properties

  datatype PropertyKind = ScalarProperty | AssocOneProperty | AssocManyProperty

  /** The parts of a DeployBeanProperty the descriptor's rules look at. */
  datatype DeployBeanProperty = DeployBeanProperty(
    name: string, sortOrder: Int32, kind: PropertyKind, isTransient: bool, fetchEager: bool, isId: bool)

  /** PropOrder.compare: negative when o1 goes first, which is when its sort order is higher. */
  function PropOrder(o1: DeployBeanProperty, o2: DeployBeanProperty): (r: int)
    ensures r < 0 <==> o1.sortOrder > o2.sortOrder
    ensures r == 0 <==> o1.sortOrder == o2.sortOrder
    ensures -1 <= r <= 1
  {
    var v2 := o1.sortOrder;
    var v1 := o2.sortOrder;
    if v1 < v2 then -1 else if v1 == v2 then 0 else 1
  }

  /** The comparator is antisymmetric: swapping the arguments flips the sign. */
  lemma PropOrderAntisymmetric(o1: DeployBeanProperty, o2: DeployBeanProperty)
    ensures PropOrder(o1, o2) == -PropOrder(o2, o1)
  {
  }

  /** In PROP_ORDER: no property is followed by one that compares before it. */
  predicate InPropOrder(ps: seq<DeployBeanProperty>)
  {
    forall i, j | 0 <= i < j < |ps| :: PropOrder(ps[i], ps[j]) <= 0
  }

  /** The properties of ps with sort order k, in their order in ps. */
  function WithSortOrder(ps: seq<DeployBeanProperty>, k: int): seq<DeployBeanProperty>
  {
    if |ps| == 0 then []
    else (if ps[0].sortOrder == k then [ps[0]] else []) + WithSortOrder(ps[1..], k)
  }

  /** Inserting into a sorted run: after every property that does not compare after x. */
  function InsertInOrder(x: DeployBeanProperty, ps: seq<DeployBeanProperty>): seq<DeployBeanProperty>
  {
    if |ps| == 0 then [x]
    else if PropOrder(ps[0], x) <= 0 then [ps[0]] + InsertInOrder(x, ps[1..])
    else [x] + ps
  }

  /**
   * Collections.sort with PROP_ORDER, a stable sort: each property in turn goes in after
   * the ones before it that it does not compare before.
   */
  function SortedByPropOrder(ps: seq<DeployBeanProperty>): seq<DeployBeanProperty>
  {
    if |ps| == 0 then []
    else InsertInOrder(ps[|ps| - 1], SortedByPropOrder(ps[..|ps| - 1]))
  }

  lemma {:induction false} WithSortOrderAppend(a: seq<DeployBeanProperty>, b: seq<DeployBeanProperty>, k: int)
    ensures WithSortOrder(a + b, k) == WithSortOrder(a, k) + WithSortOrder(b, k)
  {
    if |a| > 0 {
      assert (a + b)[1..] == a[1..] + b;
      WithSortOrderAppend(a[1..], b, k);
    } else {
      assert a + b == b;
    }
  }

  lemma {:induction false} WithSortOrderNone(ps: seq<DeployBeanProperty>, k: int)
    requires forall i | 0 <= i < |ps| :: ps[i].sortOrder != k
    ensures WithSortOrder(ps, k) == []
  {
    if |ps| > 0 {
      WithSortOrderNone(ps[1..], k);
    }
  }

  /** Inserting adds exactly x. */
  lemma {:induction false} InsertInOrderMultiset(x: DeployBeanProperty, ps: seq<DeployBeanProperty>)
    ensures multiset(InsertInOrder(x, ps)) == multiset(ps) + multiset{x}
  {
    if |ps| > 0 && PropOrder(ps[0], x) <= 0 {
      InsertInOrderMultiset(x, ps[1..]);
      assert ps == [ps[0]] + ps[1..];
    }
  }

  lemma InsertInOrderMembers(x: DeployBeanProperty, ps: seq<DeployBeanProperty>, y: DeployBeanProperty)
    ensures y in InsertInOrder(x, ps) <==> y in ps || y == x
  {
    InsertInOrderMultiset(x, ps);
    assert y in InsertInOrder(x, ps) <==> y in multiset(InsertInOrder(x, ps));
    assert y in ps <==> y in multiset(ps);
  }

  /** Inserting keeps a sorted run sorted. */
  lemma {:induction false} InsertInOrderSorted(x: DeployBeanProperty, ps: seq<DeployBeanProperty>)
    requires InPropOrder(ps)
    ensures InPropOrder(InsertInOrder(x, ps))
  {
    var r := InsertInOrder(x, ps);
    if |ps| > 0 && PropOrder(ps[0], x) <= 0 {
      var tail := ps[1..];
      InsertInOrderSorted(x, tail);
      var rt := InsertInOrder(x, tail);
      assert r == [ps[0]] + rt;
      forall j | 0 <= j < |rt| ensures PropOrder(ps[0], rt[j]) <= 0 {
        InsertInOrderMembers(x, tail, rt[j]);
      }
      forall i, j | 0 <= i < j < |r| ensures PropOrder(r[i], r[j]) <= 0 {
        if i > 0 {
          assert r[i] == rt[i - 1] && r[j] == rt[j - 1];
        } else {
          assert r[j] == rt[j - 1];
        }
      }
    } else if |ps| > 0 {
      assert r == [x] + ps;
      forall i, j | 0 <= i < j < |r| ensures PropOrder(r[i], r[j]) <= 0 {
        if i > 0 {
          assert r[i] == ps[i - 1] && r[j] == ps[j - 1];
        } else if j > 1 {
          assert r[j] == ps[j - 1];
          assert PropOrder(ps[0], ps[j - 1]) <= 0;
        }
      }
    }
  }

  /** Inserting into a sorted run puts x after every property with its sort order. */
  lemma {:induction false} InsertInOrderStable(x: DeployBeanProperty, ps: seq<DeployBeanProperty>, k: int)
    requires InPropOrder(ps)
    ensures WithSortOrder(InsertInOrder(x, ps), k) == WithSortOrder(ps, k) + (if x.sortOrder == k then [x] else [])
  {
    var r := InsertInOrder(x, ps);
    if |ps| == 0 {
      assert r[1..] == [];
    } else if PropOrder(ps[0], x) <= 0 {
      var tail := ps[1..];
      assert InPropOrder(tail);
      InsertInOrderStable(x, tail, k);
      assert r[1..] == InsertInOrder(x, tail);
    } else {
      assert r[1..] == ps;
      if x.sortOrder == k {
        SortOrderBelowHead(ps, k);
      }
    }
  }

  /** No property of a sorted run has a sort order above its first one. */
  lemma SortOrderBelowHead(ps: seq<DeployBeanProperty>, k: int)
    requires InPropOrder(ps) && |ps| > 0 && ps[0].sortOrder < k
    ensures WithSortOrder(ps, k) == []
  {
    assert forall j | 0 <= j < |ps| :: ps[j].sortOrder <= ps[0].sortOrder by {
      forall j | 0 < j < |ps| ensures ps[j].sortOrder <= ps[0].sortOrder {
        assert PropOrder(ps[0], ps[j]) <= 0;
      }
    }
    WithSortOrderNone(ps, k);
  }

  lemma {:induction false} SortedByPropOrderSorted(ps: seq<DeployBeanProperty>)
    ensures InPropOrder(SortedByPropOrder(ps))
  {
    if |ps| > 0 {
      var init := ps[..|ps| - 1];
      SortedByPropOrderSorted(init);
      InsertInOrderSorted(ps[|ps| - 1], SortedByPropOrder(init));
    }
  }

  lemma {:induction false} SortedByPropOrderPermutes(ps: seq<DeployBeanProperty>)
    ensures multiset(SortedByPropOrder(ps)) == multiset(ps)
  {
    if |ps| > 0 {
      var init := ps[..|ps| - 1];
      var last := ps[|ps| - 1];
      SortedByPropOrderPermutes(init);
      InsertInOrderMultiset(last, SortedByPropOrder(init));
      assert ps == init + [last];
    }
  }

  lemma {:induction false} SortedByPropOrderStable(ps: seq<DeployBeanProperty>, k: int)
    ensures WithSortOrder(SortedByPropOrder(ps), k) == WithSortOrder(ps, k)
  {
    if |ps| > 0 {
      var init := ps[..|ps| - 1];
      var last := ps[|ps| - 1];
      SortedByPropOrderStable(init, k);
      SortedByPropOrderSorted(init);
      InsertInOrderStable(last, SortedByPropOrder(init), k);
      assert ps == init + [last];
      WithSortOrderAppend(init, [last], k);
      assert [last][1..] == [];
    }
  }

  /**
   * sortProperties orders by PROP_ORDER (descending sort order), keeps exactly the same
   * properties, and is stable: the properties that share a sort order keep their order.
   */
  lemma SortedByPropOrderSpec(ps: seq<DeployBeanProperty>)
    ensures InPropOrder(SortedByPropOrder(ps))
    ensures multiset(SortedByPropOrder(ps)) == multiset(ps)
    ensures forall k: int :: WithSortOrder(SortedByPropOrder(ps), k) == WithSortOrder(ps, k)
  {
    SortedByPropOrderSorted(ps);
    SortedByPropOrderPermutes(ps);
    forall k: int ensures WithSortOrder(SortedByPropOrder(ps), k) == WithSortOrder(ps, k) {
      SortedByPropOrderStable(ps, k);
    }
  }

  /** Sorting by PROP_ORDER means a higher sort order always comes first. */
  lemma SortedDescending(ps: seq<DeployBeanProperty>, i: int, j: int)
    requires 0 <= i < j < |SortedByPropOrder(ps)|
    ensures SortedByPropOrder(ps)[i].sortOrder >= SortedByPropOrder(ps)[j].sortOrder
  {
    SortedByPropOrderSpec(ps);
  }

  predicate DistinctNames(ps: seq<DeployBeanProperty>)
  {
    forall i, j | 0 <= i < j < |ps| :: ps[i].name != ps[j].name
  }

  lemma {:induction false} InsertKeepsDistinctNames(x: DeployBeanProperty, ps: seq<DeployBeanProperty>)
    requires DistinctNames(ps)
    requires forall i | 0 <= i < |ps| :: ps[i].name != x.name
    ensures DistinctNames(InsertInOrder(x, ps))
  {
    var r := InsertInOrder(x, ps);
    if |ps| > 0 && PropOrder(ps[0], x) <= 0 {
      var tail := ps[1..];
      InsertKeepsDistinctNames(x, tail);
      var rt := InsertInOrder(x, tail);
      assert r == [ps[0]] + rt;
      forall j | 0 <= j < |rt| ensures rt[j].name != ps[0].name {
        InsertInOrderMembers(x, tail, rt[j]);
      }
      forall i, j | 0 <= i < j < |r| ensures r[i].name != r[j].name {
        if i > 0 {
          assert r[i] == rt[i - 1] && r[j] == rt[j - 1];
        } else {
          assert r[j] == rt[j - 1];
        }
      }
    } else if |ps| > 0 {
      assert r == [x] + ps;
      forall i, j | 0 <= i < j < |r| ensures r[i].name != r[j].name {
        if i > 0 {
          assert r[i] == ps[i - 1] && r[j] == ps[j - 1];
        } else {
          assert r[j] == ps[j - 1];
        }
      }
    }
  }

  /** Sorting properties with distinct names leaves their names distinct. */
  lemma {:induction false} SortKeepsDistinctNames(ps: seq<DeployBeanProperty>)
    requires DistinctNames(ps)
    ensures DistinctNames(SortedByPropOrder(ps))
  {
    if |ps| > 0 {
      var init := ps[..|ps| - 1];
      var last := ps[|ps| - 1];
      assert DistinctNames(init);
      SortKeepsDistinctNames(init);
      SortedByPropOrderSpec(init);
      var s := SortedByPropOrder(init);
      forall i | 0 <= i < |s| ensures s[i].name != last.name {
        assert s[i] in multiset(s);
        assert s[i] in multiset(init);
        var j :| 0 <= j < |init| && init[j] == s[i];
      }
      InsertKeepsDistinctNames(last, s);
    }
  }

  /** The entries a property list makes in the property map: keyed by property name. */
  function PropertyEntries(ps: seq<DeployBeanProperty>): (r: seq<Entry<DeployBeanProperty>>)
    ensures |r| == |ps|
    ensures forall i | 0 <= i < |ps| :: r[i] == Entry(ps[i].name, ps[i])
  {
    if |ps| == 0 then [] else PropertyEntries(ps[..|ps| - 1]) + [Entry(ps[|ps| - 1].name, ps[|ps| - 1])]
  }

  /** A map keyed by property name holds properties with distinct names. */
  lemma KeyedDistinctNames(es: seq<Entry<DeployBeanProperty>>)
    requires UniqueKeys(es)
    requires forall i | 0 <= i < |es| :: es[i].key == es[i].value.name
    ensures DistinctNames(Values(es))
  {
  }

  /** With distinct names, the next property's name is not yet a key of the rebuilt map. */
  lemma NextNameIsNew(ps: seq<DeployBeanProperty>, i: nat)
    requires DistinctNames(ps) && i < |ps|
    ensures ps[i].name !in Keys(PropertyEntries(ps[..i]))
  {
    var ks := Keys(PropertyEntries(ps[..i]));
    forall j | 0 <= j < |ks| ensures ks[j] != ps[i].name {
      assert ks[j] == ps[j].name;
    }
  }

  /** Putting the next property of a list with distinct names extends the rebuilt map by its entry. */
  lemma PropertyEntriesSnoc(ps: seq<DeployBeanProperty>, i: nat)
    requires DistinctNames(ps) && i < |ps|
    ensures Put(PropertyEntries(ps[..i]), ps[i].name, ps[i]) == PropertyEntries(ps[..i + 1])
  {
    NextNameIsNew(ps, i);
    PutNew(PropertyEntries(ps[..i]), ps[i].name, ps[i]);
    assert ps[..i + 1][..i] == ps[..i];
  }

  lemma ValuesOfPropertyEntries(ps: seq<DeployBeanProperty>)
    ensures Values(PropertyEntries(ps)) == ps
  {
  }

  // ---------------------------------------------------------------------------
  // Default select clause

  /** The properties getDefaultSelectClause considers: neither transient nor to-many. */
  predicate SelectCandidate(p: DeployBeanProperty)
  {
    !p.isTransient && p.kind != AssocManyProperty
  }

  predicate HasLazyFetch(ps: seq<DeployBeanProperty>)
  {
    exists i | 0 <= i < |ps| :: SelectCandidate(ps[i]) && !ps[i].fetchEager
  }

  /** The names of the eagerly fetched candidates, in property order. */
  function EagerNames(ps: seq<DeployBeanProperty>): seq<string>
  {
    if |ps| == 0 then []
    else
      var p := ps[|ps| - 1];
      EagerNames(ps[..|ps| - 1]) + (if SelectCandidate(p) && p.fetchEager then [p.name] else [])
  }

  /** A name is an eager name exactly when an eagerly fetched candidate has it. */
  lemma {:induction false} EagerNamesSpec(ps: seq<DeployBeanProperty>, n: string)
    ensures n in EagerNames(ps) <==> exists i | 0 <= i < |ps| :: SelectCandidate(ps[i]) && ps[i].fetchEager && ps[i].name == n
  {
    if |ps| > 0 {
      var init := ps[..|ps| - 1];
      EagerNamesSpec(init, n);
      assert forall i | 0 <= i < |init| :: init[i] == ps[i];
    }
  }

  /** The text a run of names makes when each is followed by a comma. */
  function CommaTerminated(ns: seq<string>): string
  {
    if |ns| == 0 then "" else CommaTerminated(ns[..|ns| - 1]) + ns[|ns| - 1] + ","
  }

  lemma EagerNamesStep(ps: seq<DeployBeanProperty>, i: nat)
    requires i < |ps|
    ensures EagerNames(ps[..i + 1]) ==
      if SelectCandidate(ps[i]) && ps[i].fetchEager then EagerNames(ps[..i]) + [ps[i].name] else EagerNames(ps[..i])
  {
    assert ps[..i + 1][..i] == ps[..i];
    assert EagerNames(ps[..i]) + [] == EagerNames(ps[..i]);
  }

  lemma HasLazyFetchStep(ps: seq<DeployBeanProperty>, i: nat)
    requires i < |ps|
    ensures HasLazyFetch(ps[..i + 1]) == (HasLazyFetch(ps[..i]) || (SelectCandidate(ps[i]) && !ps[i].fetchEager))
  {
    var next := ps[..i + 1];
    assert forall j | 0 <= j < i :: next[j] == ps[..i][j];
    assert next[i] == ps[i];
  }

  lemma CommaTerminatedSnoc(ns: seq<string>, n: string)
    ensures CommaTerminated(ns + [n]) == CommaTerminated(ns) + n + ","
  {
    assert (ns + [n])[..|ns|] == ns;
  }

  lemma {:induction false} CommaTerminatedIsJoined(ns: seq<string>)
    requires |ns| > 0
    ensures CommaTerminated(ns) == Joined(ns, ",") + ","
  {
    if |ns| > 1 {
      CommaTerminatedIsJoined(ns[..|ns| - 1]);
    } else {
      assert ns[..0] == [];
    }
  }

  lemma {:induction false} CommaTerminatedEmpty(ns: seq<string>)
    ensures |CommaTerminated(ns)| == 0 <==> |ns| == 0
  {
    if |ns| > 0 {
      CommaTerminatedEmpty(ns[..|ns| - 1]);
    }
  }

  /**
   * getDefaultSelectClause: null when no candidate is lazily fetched; an
   * IllegalStateException when some are lazy and none is eager; otherwise the eager names,
   * in order, joined by commas.
   */
  function DefaultSelectClause(ps: seq<DeployBeanProperty>, fullName: string): Result<Option<string>>
  {
    if !HasLazyFetch(ps) then Ok(None)
    else if |EagerNames(ps)| == 0 then Err(IllegalStateException("Bean " + fullName + " has no properties?"))
    else Ok(Some(Joined(EagerNames(ps), ",")))
  }

  /**
   * What one pass over the properties has gathered, the comma-terminated eager names and
   * whether a candidate is lazy, decides the default select clause.
   */
  lemma SelectClauseOfPass(ps: seq<DeployBeanProperty>, fullName: string, sb: string, hasLazyFetch: bool)
    requires sb == CommaTerminated(EagerNames(ps)) && hasLazyFetch == HasLazyFetch(ps)
    ensures DefaultSelectClause(ps, fullName) ==
      if !hasLazyFetch then Ok(None)
      else if |sb| == 0 then Err(IllegalStateException("Bean " + fullName + " has no properties?"))
      else Ok(Some(sb[..|sb| - 1]))
  {
    CommaTerminatedEmpty(EagerNames(ps));
    if |sb| > 0 {
      CommaTerminatedIsJoined(EagerNames(ps));
    }
  }

  /** The index of the first comma of s, or |s| when it has none. */
  function IndexOfComma(s: string): (i: nat)
    ensures i <= |s|
    ensures i < |s| ==> s[i] == ','
    ensures forall j | 0 <= j < i :: s[j] != ','
  {
    if |s| == 0 then 0
    else if s[0] == ',' then 0
    else 1 + IndexOfComma(s[1..])
  }

  /** The pieces between the commas of s, the empty ones included. */
  function SplitOnComma(s: string): (r: seq<string>)
    ensures |r| > 0
    ensures forall k | 0 <= k < |r| :: ',' !in r[k]
    ensures Joined(r, ",") == s
    decreases |s|
  {
    var i := IndexOfComma(s);
    if i == |s| then [s]
    else
      var rest := SplitOnComma(s[i + 1..]);
      JoinedCons(s[..i], rest, ",");
      assert s == s[..i] + "," + s[i + 1..];
      [s[..i]] + rest
  }

  function DropTrailingEmpty(ps: seq<string>): seq<string>
  {
    if |ps| > 0 && ps[|ps| - 1] == "" then DropTrailingEmpty(ps[..|ps| - 1]) else ps
  }

  /**
   * String.split(","): the input itself when it holds no comma; otherwise the pieces
   * between the commas with the trailing empty ones removed.
   */
  function JavaSplitComma(s: string): seq<string>
  {
    if IndexOfComma(s) == |s| then [s] else DropTrailingEmpty(SplitOnComma(s))
  }

  /** What adding each piece, trimmed and when not empty, to a LinkedHashSet holding acc leaves. */
  function CollectTrimmed(acc: seq<string>, ps: seq<string>): seq<string>
  {
    if |ps| == 0 then acc
    else
      var init := CollectTrimmed(acc, ps[..|ps| - 1]);
      var t := Trim(ps[|ps| - 1]);
      if |t| > 0 && t !in init then init + [t] else init
  }

  /** parseDefaultSelectClause. */
  function ParseSelectClause(rawList: Option<string>): Option<seq<string>>
  {
    match rawList
    case None => None
    case Some(s) => Some(CollectTrimmed([], JavaSplitComma(s)))
  }

  lemma {:induction false} CollectDropsTrailingEmpty(acc: seq<string>, ps: seq<string>)
    ensures CollectTrimmed(acc, DropTrailingEmpty(ps)) == CollectTrimmed(acc, ps)
  {
    if |ps| > 0 && ps[|ps| - 1] == "" {
      CollectDropsTrailingEmpty(acc, ps[..|ps| - 1]);
      assert |Trim(ps[|ps| - 1])| == 0;
    }
  }

  /** The trailing empty strings String.split leaves out make no difference to the parse. */
  lemma ParseIgnoresSplitTrailing(s: string)
    ensures ParseSelectClause(Some(s)) == Some(CollectTrimmed([], SplitOnComma(s)))
  {
    if IndexOfComma(s) != |s| {
      CollectDropsTrailingEmpty([], SplitOnComma(s));
    }
  }

  /** The non-empty trimmed pieces of ps. */
  function TrimmedPieces(ps: seq<string>): set<string>
  {
    if |ps| == 0 then {}
    else
      var t := Trim(ps[|ps| - 1]);
      TrimmedPieces(ps[..|ps| - 1]) + (if |t| > 0 then {t} else {})
  }

  lemma {:induction false} TrimmedPiecesSpec(ps: seq<string>, x: string)
    ensures x in TrimmedPieces(ps) <==> x != "" && exists i | 0 <= i < |ps| :: Trim(ps[i]) == x
    ensures x in TrimmedPieces(ps) ==> IsTrimmed(x)
  {
    if |ps| > 0 {
      var init := ps[..|ps| - 1];
      TrimmedPiecesSpec(init, x);
      assert forall i | 0 <= i < |init| :: init[i] == ps[i];
      var t := Trim(ps[|ps| - 1]);
      assert |t| > 0 ==> IsTrimmed(t);
    }
  }

  lemma {:induction false} CollectTrimmedSpec(acc: seq<string>, ps: seq<string>)
    requires NoDuplicates(acc)
    ensures var r := CollectTrimmed(acc, ps);
      |r| >= |acc| && r[..|acc|] == acc && NoDuplicates(r) &&
      forall x :: x in r <==> x in acc || x in TrimmedPieces(ps)
  {
    if |ps| > 0 {
      var init := ps[..|ps| - 1];
      CollectTrimmedSpec(acc, init);
      var r0 := CollectTrimmed(acc, init);
      var r := CollectTrimmed(acc, ps);
      assert r[..|acc|] == r0[..|acc|];
    }
  }

  /**
   * The parsed clause holds no duplicates and only trimmed, non-empty names, and a name is
   * in it exactly when some comma-separated piece trims to it.
   */
  lemma ParseSelectClauseSpec(s: string, x: string)
    ensures var r := ParseSelectClause(Some(s)).value;
      NoDuplicates(r) &&
      (x in r <==> x != "" && exists i | 0 <= i < |SplitOnComma(s)| :: Trim(SplitOnComma(s)[i]) == x) &&
      (x in r ==> IsTrimmed(x))
  {
    ParseIgnoresSplitTrailing(s);
    CollectTrimmedSpec([], SplitOnComma(s));
    TrimmedPiecesSpec(SplitOnComma(s), x);
  }

  lemma {:induction false} IndexOfCommaAfter(p: string, q: string)
    requires ',' !in p
    ensures IndexOfComma(p + "," + q) == |p|
  {
    if |p| > 0 {
      assert (p + "," + q)[1..] == p[1..] + "," + q;
      IndexOfCommaAfter(p[1..], q);
    }
  }

  /** Splitting names joined by commas gives the names back when none holds a comma. */
  lemma {:induction false} SplitOfJoined(ns: seq<string>)
    requires |ns| > 0
    requires forall i | 0 <= i < |ns| :: ',' !in ns[i]
    ensures SplitOnComma(Joined(ns, ",")) == ns
  {
    if |ns| == 1 {
      assert IndexOfComma(ns[0]) == |ns[0]|;
    } else {
      var p := ns[0];
      var rest := ns[1..];
      assert ns == [p] + rest;
      JoinedCons(p, rest, ",");
      var s := Joined(ns, ",");
      assert s == p + "," + Joined(rest, ",");
      IndexOfCommaAfter(p, Joined(rest, ","));
      assert s[..|p|] == p;
      assert s[|p| + 1..] == Joined(rest, ",");
      SplitOfJoined(rest);
    }
  }

  lemma {:induction false} CollectOfDistinctTrimmed(ns: seq<string>)
    requires NoDuplicates(ns)
    requires forall i | 0 <= i < |ns| :: ns[i] != "" && IsTrimmed(ns[i])
    ensures CollectTrimmed([], ns) == ns
  {
    if |ns| > 0 {
      var init := ns[..|ns| - 1];
      CollectOfDistinctTrimmed(init);
      TrimOfTrimmed(ns[|ns| - 1]);
      assert ns[|ns| - 1] !in init;
      assert init + [ns[|ns| - 1]] == ns;
    }
  }

  /**
   * Round trip: when the eager names are distinct, non-empty, trimmed and comma-free,
   * parsing the default select clause gives back exactly those names, in order.
   */
  lemma DefaultSelectClauseRoundTrip(ps: seq<DeployBeanProperty>, fullName: string)
    requires NoDuplicates(EagerNames(ps))
    requires forall i | 0 <= i < |EagerNames(ps)| ::
      EagerNames(ps)[i] != "" && IsTrimmed(EagerNames(ps)[i]) && ',' !in EagerNames(ps)[i]
    requires DefaultSelectClause(ps, fullName).Ok? && DefaultSelectClause(ps, fullName).value.Some?
    ensures ParseSelectClause(DefaultSelectClause(ps, fullName).value) == Some(EagerNames(ps))
  {
    var ns := EagerNames(ps);
    var c := Joined(ns, ",");
    ParseIgnoresSplitTrailing(c);
    SplitOfJoined(ns);
    CollectOfDistinctTrimmed(ns);
  }

  // ---------------------------------------------------------------------------
  // Id properties

  /** propertiesId: the id properties, in property order. */
  function IdProperties(ps: seq<DeployBeanProperty>): seq<DeployBeanProperty>
  {
    if |ps| == 0 then []
    else
      var p := ps[|ps| - 1];
      IdProperties(ps[..|ps| - 1]) + (if p.isId then [p] else [])
  }

  /** The id properties are exactly the properties that are ids. */
  lemma {:induction false} IdPropertiesSpec(ps: seq<DeployBeanProperty>, p: DeployBeanProperty)
    ensures p in IdProperties(ps) <==> p in ps && p.isId
  {
    if |ps| > 0 {
      var init := ps[..|ps| - 1];
      IdPropertiesSpec(init, p);
      assert ps == init + [ps[|ps| - 1]];
    }
  }

  /** Filtering is order-preserving: the id properties of a + b are those of a, then of b. */
  lemma {:induction false} IdPropertiesAppend(a: seq<DeployBeanProperty>, b: seq<DeployBeanProperty>)
    ensures IdProperties(a + b) == IdProperties(a) + IdProperties(b)
    decreases |b|
  {
    if |b| == 0 {
      assert a + b == a;
    } else {
      var init := b[..|b| - 1];
      assert (a + b)[..|a + b| - 1] == a + init;
      IdPropertiesAppend(a, init);
    }
  }

  // ---------------------------------------------------------------------------
  // Named queries, raw SQL and entity type

  /** EntityType, the values the descriptor's rules use. */
  datatype EntityType = Orm | Sql | Embedded

  datatype DeployNamedQuery = DeployNamedQuery(name: string, query: string)
  datatype DeployNamedUpdate = DeployNamedUpdate(name: string, update: string)

  /**
   * DRawSqlMeta: its name, the raw SQL it extends (if any), and the names of the
   * parents it has been extended with, oldest first.
   */
  datatype RawSqlMeta = RawSqlMeta(name: string, extend: Option<string>, extendedWith: seq<string>)

  /** The name a query or raw SQL must have to make the bean an SQL entity. */
  const DEFAULT_QUERY_NAME: string := "default"

  /**
   * rawSqlProcessExtend from position i: each raw SQL that extends another is extended
   * with it, in map order, until one names a parent that is not registered; the
   * entries processed before that one stay extended.
   */
  function ExtendFrom(es: seq<Entry<RawSqlMeta>>, i: nat): (seq<Entry<RawSqlMeta>>, Outcome)
    decreases |es| - i
  {
    if i >= |es| then (es, Pass)
    else
      var meta := es[i].value;
      match meta.extend
      case None => ExtendFrom(es, i + 1)
      case Some(parent) =>
        if Get(es, parent).None? then
          (es, Fail(RuntimeException("parent query [" + parent + "] not found for sql-select " + meta.name)))
        else
          ExtendFrom(es[i := Entry(es[i].key, meta.(extendedWith := meta.extendedWith + [parent]))], i + 1)
  }

  /** Every raw SQL from position i on that extends another names a registered one. */
  predicate ParentsRegistered(es: seq<Entry<RawSqlMeta>>, i: nat)
  {
    forall j | i <= j < |es| :: es[j].value.extend.Some? ==> es[j].value.extend.value in Keys(es)
  }

  /** Resolving extends keeps the keys, names and extend settings of every entry. */
  lemma {:induction false} ExtendFromFrame(es: seq<Entry<RawSqlMeta>>, i: nat)
    ensures var r := ExtendFrom(es, i).0;
      |r| == |es| && Keys(r) == Keys(es) &&
      forall j | 0 <= j < |es| :: r[j].key == es[j].key && r[j].value.name == es[j].value.name && r[j].value.extend == es[j].value.extend
    decreases |es| - i
  {
    ExtendFromSameFrame(es, i);
    SameFrameKeys(ExtendFrom(es, i).0, es);
  }

  /** Two entry lists with the same keys, names and extend settings at every index. */
  predicate SameFrame(a: seq<Entry<RawSqlMeta>>, b: seq<Entry<RawSqlMeta>>)
  {
    |a| == |b| &&
    forall j | 0 <= j < |a| :: a[j].key == b[j].key && a[j].value.name == b[j].value.name && a[j].value.extend == b[j].value.extend
  }

  lemma SameFrameKeys(a: seq<Entry<RawSqlMeta>>, b: seq<Entry<RawSqlMeta>>)
    requires SameFrame(a, b)
    ensures Keys(a) == Keys(b)
  {
  }

  lemma SameFrameTrans(a: seq<Entry<RawSqlMeta>>, b: seq<Entry<RawSqlMeta>>, c: seq<Entry<RawSqlMeta>>)
    requires SameFrame(a, b) && SameFrame(b, c)
    ensures SameFrame(a, c)
  {
  }

  lemma UpdateSameFrame(es: seq<Entry<RawSqlMeta>>, i: nat, v: RawSqlMeta)
    requires i < |es| && v.name == es[i].value.name && v.extend == es[i].value.extend
    ensures SameFrame(es[i := Entry(es[i].key, v)], es)
  {
  }

  lemma {:induction false} ExtendFromSameFrame(es: seq<Entry<RawSqlMeta>>, i: nat)
    ensures SameFrame(ExtendFrom(es, i).0, es)
    decreases |es| - i
  {
    if i < |es| {
      var meta := es[i].value;
      if meta.extend.Some? && Get(es, meta.extend.value).Some? {
        var es' := es[i := Entry(es[i].key, meta.(extendedWith := meta.extendedWith + [meta.extend.value]))];
        assert ExtendFrom(es, i) == ExtendFrom(es', i + 1);
        ExtendFromSameFrame(es', i + 1);
        UpdateSameFrame(es, i, meta.(extendedWith := meta.extendedWith + [meta.extend.value]));
        SameFrameTrans(ExtendFrom(es', i + 1).0, es', es);
      } else if meta.extend.None? {
        assert ExtendFrom(es, i) == ExtendFrom(es, i + 1);
        ExtendFromSameFrame(es, i + 1);
      } else {
        assert ExtendFrom(es, i).0 == es;
      }
    }
  }

  /** Resolving extends from position i fails exactly when a later raw SQL names a missing parent. */
  lemma {:induction false} ExtendFromPass(es: seq<Entry<RawSqlMeta>>, i: nat)
    ensures ExtendFrom(es, i).1.Pass? <==> ParentsRegistered(es, i)
    decreases |es| - i
  {
    if i < |es| {
      var meta := es[i].value;
      if meta.extend.Some? {
        GetKeys(es, meta.extend.value);
        if Get(es, meta.extend.value).Some? {
          var es' := es[i := Entry(es[i].key, meta.(extendedWith := meta.extendedWith + [meta.extend.value]))];
          assert Keys(es') == Keys(es);
          ExtendFromPass(es', i + 1);
          assert forall j | i + 1 <= j < |es| :: es'[j] == es[j];
        }
      } else {
        ExtendFromPass(es, i + 1);
      }
    }
  }

  /** After a successful resolution each raw SQL from i on that extends another was extended with it once. */
  lemma {:induction false} ExtendFromExtended(es: seq<Entry<RawSqlMeta>>, i: nat)
    requires ExtendFrom(es, i).1.Pass?
    ensures var r := ExtendFrom(es, i).0;
      |r| == |es| &&
      forall j | i <= j < |es| ::
        r[j].value.extendedWith ==
          es[j].value.extendedWith + (if es[j].value.extend.Some? then [es[j].value.extend.value] else [])
    decreases |es| - i
  {
    ExtendFromFrame(es, i);
    if i < |es| {
      var meta := es[i].value;
      var es' := if meta.extend.Some? then es[i := Entry(es[i].key, meta.(extendedWith := meta.extendedWith + [meta.extend.value]))] else es;
      assert ExtendFrom(es, i) == ExtendFrom(es', i + 1);
      ExtendFromExtended(es', i + 1);
      ExtendFromFrameAt(es', i + 1, i);
      var r := ExtendFrom(es, i).0;
      forall j | i <= j < |es|
        ensures r[j].value.extendedWith ==
          es[j].value.extendedWith + (if es[j].value.extend.Some? then [es[j].value.extend.value] else [])
      {
        if j > i {
          assert es'[j] == es[j];
        } else if meta.extend.None? {
          assert es[j].value.extendedWith + [] == es[j].value.extendedWith;
        }
      }
    }
  }

  /** Positions before i are left alone. */
  lemma {:induction false} ExtendFromFrameAt(es: seq<Entry<RawSqlMeta>>, i: nat, j: nat)
    requires j < i && j < |es|
    ensures |ExtendFrom(es, i).0| == |es| && ExtendFrom(es, i).0[j] == es[j]
    decreases |es| - i
  {
    if i < |es| {
      var meta := es[i].value;
      if meta.extend.Some? && Get(es, meta.extend.value).Some? {
        var es' := es[i := Entry(es[i].key, meta.(extendedWith := meta.extendedWith + [meta.extend.value]))];
        ExtendFromFrameAt(es', i + 1, j);
      } else if meta.extend.None? {
        ExtendFromFrameAt(es, i + 1, j);
      }
    }
  }

  // ---------------------------------------------------------------------------
  // Persist controllers, listeners, query adapters and post-loaders

  datatype PersistController = PersistController(name: string)
  datatype PersistListener = PersistListener(name: string)
  datatype QueryAdapter = QueryAdapter(name: string)
  datatype PostLoad = PostLoad(name: string)

  /** What a getter hands out: the one registered, or a Chained* wrapper over all of them. */
  datatype Chain<T> = Single(item: T) | Chained(items: seq<T>)

  /** The registered objects a getter's result calls, in order (none for null). */
  function Members<T>(c: Option<Chain<T>>): seq<T>
  {
    match c
    case None => []
    case Some(Single(x)) => [x]
    case Some(Chained(xs)) => xs
  }

  /**
   * get*Controller/Listener/QueryAdapter/PostLoad: null for none, the single one for one, a
   * chain for several; in each case the result calls exactly the registered ones, in order.
   */
  function ChainOf<T>(items: seq<T>): (r: Option<Chain<T>>)
    ensures Members(r) == items
    ensures r.None? <==> |items| == 0
    ensures r.Some? && r.value.Chained? ==> |items| > 1
  {
    if |items| == 0 then None
    else if |items| == 1 then Some(Single(items[0]))
    else Some(Chained(items))
  }

  // ---------------------------------------------------------------------------
  // Base table

  /** TableName: only its qualified name is used here. */
  datatype TableName = TableName(qualifiedName: string)

  /** A draftable bean's draft table is named after its base table with "_draft" added. */
  const DRAFT_SUFFIX: string := "_draft"

  class DeployBeanDescriptor {
    /** beanType.getName(). */
    const fullName: string
    /** The server's doc-store persist setting (serverConfig.getDocStoreConfig().getPersist()). */
    const serverDocStorePersist: DocStoreEvent

    var propMap: seq<Entry<DeployBeanProperty>>
    var entityType: Option<EntityType>
    var namedQueries: seq<Entry<DeployNamedQuery>>
    var namedUpdates: seq<Entry<DeployNamedUpdate>>
    var rawSqlMetas: seq<Entry<RawSqlMeta>>
    var processedRawSqlExtend: bool

    var baseTableFull: Option<TableName>
    var baseTable: Option<string>
    var baseTableAsOf: Option<string>
    var baseTableVersionsBetween: Option<string>
    var draftTable: Option<string>
    var draftable: bool
    var draftableElement: bool

    var persistControllers: seq<PersistController>
    var persistListeners: seq<PersistListener>
    var queryAdapters: seq<QueryAdapter>
    var postLoaders: seq<PostLoad>

    var docStoreBeanType: BeanDocStoreType
    /** The doc text PathProperties.parse is given; the parsing is not modelled. */
    var docStorePathProperties: Option<string>
    var docStoreQueueId: Option<string>
    var docStoreIndexName: Option<string>
    var docStoreIndexType: Option<string>
    var docStorePersist: Option<DocStoreEvent>
    var docStoreInsert: Option<DocStoreEvent>
    var docStoreUpdate: Option<DocStoreEvent>
    var docStoreDelete: Option<DocStoreEvent>

    /**
     * The property map is keyed by property name, and a bean in a document store has all
     * its doc-store events set.
     */
    ghost predicate Valid()
      reads this
    {
      UniqueKeys(propMap) &&
      (forall i | 0 <= i < |propMap| :: propMap[i].key == propMap[i].value.name) &&
      (docStoreBeanType != NoDocStore ==>
        docStorePersist.Some? && docStoreInsert.Some? && docStoreUpdate.Some? && docStoreDelete.Some?)
    }

    constructor(fullName: string, serverDocStorePersist: DocStoreEvent)
      ensures Valid()
      ensures this.fullName == fullName && this.serverDocStorePersist == serverDocStorePersist
      ensures propMap == [] && entityType == None && namedQueries == [] && namedUpdates == []
      ensures rawSqlMetas == [] && !processedRawSqlExtend
      ensures baseTableFull == None && baseTable == None && baseTableAsOf == None
      ensures baseTableVersionsBetween == None && draftTable == None && !draftable && !draftableElement
      ensures persistControllers == [] && persistListeners == [] && queryAdapters == [] && postLoaders == []
      ensures docStoreBeanType == NoDocStore && docStorePathProperties == None
      ensures docStoreQueueId == None && docStoreIndexName == None && docStoreIndexType == None
      ensures docStorePersist == None && docStoreInsert == None && docStoreUpdate == None && docStoreDelete == None
    {
      this.fullName := fullName;
      this.serverDocStorePersist := serverDocStorePersist;
      propMap := [];
      entityType := None;
      namedQueries := [];
      namedUpdates := [];
      rawSqlMetas := [];
      processedRawSqlExtend := false;
      baseTableFull := None;
      baseTable := None;
      baseTableAsOf := None;
      baseTableVersionsBetween := None;
      draftTable := None;
      draftable := false;
      draftableElement := false;
      persistControllers := [];
      persistListeners := [];
      queryAdapters := [];
      postLoaders := [];
      docStoreBeanType := NoDocStore;
      docStorePathProperties := None;
      docStoreQueueId := None;
      docStoreIndexName := None;
      docStoreIndexType := None;
      docStorePersist := None;
      docStoreInsert := None;
      docStoreUpdate := None;
      docStoreDelete := None;
    }

    // --- doc store

    /** readDocStore: the bean becomes indexed, with the annotation's settings. */
    method ReadDocStore(docStore: DocStore)
      requires Valid()
      modifies this`docStoreBeanType, this`docStoreQueueId, this`docStoreIndexName, this`docStoreIndexType
      modifies this`docStorePersist, this`docStoreInsert, this`docStoreUpdate, this`docStoreDelete
      modifies this`docStorePathProperties
      ensures Valid()
      ensures docStoreBeanType == IndexDocStore
      ensures docStoreQueueId == Some(docStore.queueId) && docStoreIndexName == Some(docStore.indexName)
      ensures docStoreIndexType == Some(docStore.indexType)
      ensures docStorePersist == Some(docStore.persist) && docStoreInsert == Some(docStore.insert)
      ensures docStoreUpdate == Some(docStore.update) && docStoreDelete == Some(docStore.delete)
      ensures docStorePathProperties == if |docStore.doc| > 0 then Some(docStore.doc) else old(docStorePathProperties)
    {
      docStoreBeanType := IndexDocStore;
      docStoreQueueId := Some(docStore.queueId);
      docStoreIndexName := Some(docStore.indexName);
      docStoreIndexType := Some(docStore.indexType);
      docStorePersist := Some(docStore.persist);
      docStoreInsert := Some(docStore.insert);
      docStoreUpdate := Some(docStore.update);
      docStoreDelete := Some(docStore.delete);
      var doc := docStore.doc;
      if |doc| > 0 {
        docStorePathProperties := Some(doc);
      }
    }

    /** getDocStoreInsertEvent: never null on a valid descriptor. */
    function DocStoreInsertEvent(): (r: Option<DocStoreEvent>)
      reads this
      ensures Valid() ==> r.Some?
      ensures docStoreBeanType == NoDocStore ==> r == Some(Ignore)
    {
      IndexEvent(docStoreBeanType, docStoreInsert, docStorePersist, serverDocStorePersist)
    }

    /** getDocStoreUpdateEvent. */
    function DocStoreUpdateEvent(): (r: Option<DocStoreEvent>)
      reads this
      ensures Valid() ==> r.Some?
      ensures docStoreBeanType == NoDocStore ==> r == Some(Ignore)
    {
      IndexEvent(docStoreBeanType, docStoreUpdate, docStorePersist, serverDocStorePersist)
    }

    /** getDocStoreDeleteEvent. */
    function DocStoreDeleteEvent(): (r: Option<DocStoreEvent>)
      reads this
      ensures Valid() ==> r.Some?
      ensures docStoreBeanType == NoDocStore ==> r == Some(Ignore)
    {
      IndexEvent(docStoreBeanType, docStoreDelete, docStorePersist, serverDocStorePersist)
    }

    // --- draftable and base table

    method SetDraftable()
      modifies this`draftable
      ensures draftable
    {
      draftable := true;
    }

    /** setDraftableElement: a draftable element is draftable too. */
    method SetDraftableElement()
      modifies this`draftable, this`draftableElement
      ensures draftable && draftableElement
    {
      draftable := true;
      draftableElement := true;
    }

    /**
     * setBaseTable: the as-of and versions-between names are the base table name with the
     * suffix added (a null base table reads as "null" there), and the draft table is the
     * base table with "_draft" added when the bean is draftable, else the base table.
     */
    method SetBaseTable(baseTableFull: Option<TableName>, asOfSuffix: string, versionsBetweenSuffix: string)
      modifies this`baseTableFull, this`baseTable, this`baseTableAsOf, this`baseTableVersionsBetween, this`draftTable
      ensures this.baseTableFull == baseTableFull
      ensures baseTable == if baseTableFull.Some? then Some(baseTableFull.value.qualifiedName) else None
      ensures baseTableAsOf == Some(StringValueOf(baseTable) + asOfSuffix)
      ensures baseTableVersionsBetween == Some(StringValueOf(baseTable) + versionsBetweenSuffix)
      ensures draftTable == if draftable then Some(StringValueOf(baseTable) + DRAFT_SUFFIX) else baseTable
    {
      this.baseTableFull := baseTableFull;
      baseTable := if baseTableFull.None? then None else Some(baseTableFull.value.qualifiedName);
      baseTableAsOf := Some(StringValueOf(baseTable) + asOfSuffix);
      baseTableVersionsBetween := Some(StringValueOf(baseTable) + versionsBetweenSuffix);
      draftTable := if draftable then Some(StringValueOf(baseTable) + DRAFT_SUFFIX) else baseTable;
    }

    // --- properties

    /** propMap.values(), in map order. */
    function Properties(): (ps: seq<DeployBeanProperty>)
      reads this
      ensures |ps| == |propMap|
      ensures forall i | 0 <= i < |propMap| :: ps[i] == propMap[i].value
    {
      Values(propMap)
    }

    /** addBeanProperty: put the property under its name; returns the one it replaced, if any. */
    method AddBeanProperty(prop: DeployBeanProperty) returns (previous: Option<DeployBeanProperty>)
      requires Valid()
      modifies this`propMap
      ensures Valid()
      ensures propMap == Put(old(propMap), prop.name, prop)
      ensures previous == Get(old(propMap), prop.name)
    {
      previous := Get(propMap, prop.name);
      PutKeepsUnique(propMap, prop.name, prop);
      PutEntries(propMap, prop.name, prop);
      propMap := Put(propMap, prop.name, prop);
      assert forall i | 0 <= i < |propMap| :: propMap[i] in propMap;
    }

    /**
     * sortProperties: the map is rebuilt from its properties sorted by PROP_ORDER, so it
     * holds the same properties, in descending sort order, ties in their old order.
     */
    method SortProperties()
      requires Valid()
      modifies this`propMap
      ensures Valid()
      ensures Properties() == SortedByPropOrder(old(Properties()))
    {
      var list := SortedByPropOrder(Values(propMap));
      KeyedDistinctNames(propMap);
      SortKeepsDistinctNames(Values(propMap));
      propMap := [];
      var i := 0;
      while i < |list|
        invariant 0 <= i <= |list|
        invariant propMap == PropertyEntries(list[..i])
        invariant Valid()
      {
        PropertyEntriesSnoc(list, i);
        var _ := AddBeanProperty(list[i]);
        i := i + 1;
      }
      assert list[..|list|] == list;
      ValuesOfPropertyEntries(list);
    }

    /** getDefaultSelectClause, computed by one pass over the properties. */
    method GetDefaultSelectClause() returns (r: Result<Option<string>>)
      ensures r == DefaultSelectClause(Properties(), fullName)
    {
      var ps := Properties();
      var sb := "";
      var hasLazyFetch := false;
      var i := 0;
      while i < |ps|
        invariant 0 <= i <= |ps|
        invariant sb == CommaTerminated(EagerNames(ps[..i]))
        invariant hasLazyFetch == HasLazyFetch(ps[..i])
      {
        var prop := ps[i];
        EagerNamesStep(ps, i);
        HasLazyFetchStep(ps, i);
        if SelectCandidate(prop) {
          if prop.fetchEager {
            CommaTerminatedSnoc(EagerNames(ps[..i]), prop.name);
            sb := sb + prop.name + ",";
          } else {
            hasLazyFetch := true;
          }
        }
        i := i + 1;
      }
      assert ps[..i] == ps;
      SelectClauseOfPass(ps, fullName, sb, hasLazyFetch);
      if !hasLazyFetch {
        return Ok(None);
      }
      if |sb| == 0 {
        return Err(IllegalStateException("Bean " + fullName + " has no properties?"));
      }
      r := Ok(Some(sb[..|sb| - 1]));
    }

    /** parseDefaultSelectClause: split on commas, then add each trimmed, non-empty piece. */
    method ParseDefaultSelectClause(rawList: Option<string>) returns (r: Option<seq<string>>)
      ensures r == ParseSelectClause(rawList)
    {
      if rawList.None? {
        return None;
      }
      var res := JavaSplitComma(rawList.value);
      var names: seq<string> := [];
      var i := 0;
      while i < |res|
        invariant 0 <= i <= |res|
        invariant names == CollectTrimmed([], res[..i])
      {
        var temp := Trim(res[i]);
        assert res[..i + 1][..i] == res[..i];
        if |temp| > 0 && temp !in names {
          names := names + [temp];
        }
        i := i + 1;
      }
      assert res[..i] == res;
      r := Some(names);
    }

    /** propertiesId: the id properties, in map order. */
    method PropertiesId() returns (list: seq<DeployBeanProperty>)
      ensures list == IdProperties(Properties())
    {
      var ps := Values(propMap);
      list := [];
      var i := 0;
      while i < |ps|
        invariant 0 <= i <= |ps|
        invariant list == IdProperties(ps[..i])
      {
        assert ps[..i + 1][..i] == ps[..i];
        if ps[i].isId {
          list := list + [ps[i]];
        }
        i := i + 1;
      }
      assert ps[..i] == ps;
    }

    // --- persist controllers, listeners, query adapters, post-loaders

    function GetPersistController(): (r: Option<Chain<PersistController>>)
      reads this
      ensures Members(r) == persistControllers
    {
      ChainOf(persistControllers)
    }

    function GetPersistListener(): (r: Option<Chain<PersistListener>>)
      reads this
      ensures Members(r) == persistListeners
    {
      ChainOf(persistListeners)
    }

    function GetQueryAdapter(): (r: Option<Chain<QueryAdapter>>)
      reads this
      ensures Members(r) == queryAdapters
    {
      ChainOf(queryAdapters)
    }

    function GetPostLoad(): (r: Option<Chain<PostLoad>>)
      reads this
      ensures Members(r) == postLoaders
    {
      ChainOf(postLoaders)
    }

    method AddPersistController(controller: PersistController)
      modifies this`persistControllers
      ensures persistControllers == old(persistControllers) + [controller]
    {
      persistControllers := persistControllers + [controller];
    }

    method AddPersistListener(listener: PersistListener)
      modifies this`persistListeners
      ensures persistListeners == old(persistListeners) + [listener]
    {
      persistListeners := persistListeners + [listener];
    }

    method AddQueryAdapter(queryAdapter: QueryAdapter)
      modifies this`queryAdapters
      ensures queryAdapters == old(queryAdapters) + [queryAdapter]
    {
      queryAdapters := queryAdapters + [queryAdapter];
    }

    method AddPostLoad(postLoad: PostLoad)
      modifies this`postLoaders
      ensures postLoaders == old(postLoaders) + [postLoad]
    {
      postLoaders := postLoaders + [postLoad];
    }

    // --- entity type, named queries and raw SQL

    method SetEntityType(entityType: EntityType)
      modifies this`entityType
      ensures this.entityType == Some(entityType)
    {
      this.entityType := Some(entityType);
    }

    /** getEntityType: an entity type never set reads as ORM, and is then stored as ORM. */
    method GetEntityType() returns (r: EntityType)
      modifies this`entityType
      ensures r == if old(entityType).None? then Orm else old(entityType).value
      ensures entityType == Some(r)
    {
      if entityType.None? {
        entityType := Some(Orm);
      }
      r := entityType.value;
    }

    /** add(DRawSqlMeta): registered under its name; one named "default" makes the bean an SQL entity. */
    method AddRawSqlMeta(rawSqlMeta: RawSqlMeta)
      modifies this`rawSqlMetas, this`entityType
      ensures rawSqlMetas == Put(old(rawSqlMetas), rawSqlMeta.name, rawSqlMeta)
      ensures entityType == if rawSqlMeta.name == DEFAULT_QUERY_NAME then Some(Sql) else old(entityType)
    {
      rawSqlMetas := Put(rawSqlMetas, rawSqlMeta.name, rawSqlMeta);
      if rawSqlMeta.name == DEFAULT_QUERY_NAME {
        SetEntityType(Sql);
      }
    }

    /** add(DeployNamedUpdate): registered under its name. */
    method AddNamedUpdate(namedUpdate: DeployNamedUpdate)
      modifies this`namedUpdates
      ensures namedUpdates == Put(old(namedUpdates), namedUpdate.name, namedUpdate)
    {
      namedUpdates := Put(namedUpdates, namedUpdate.name, namedUpdate);
    }

    /** add(DeployNamedQuery): registered under its name; one named "default" makes the bean an SQL entity. */
    method AddNamedQuery(namedQuery: DeployNamedQuery)
      modifies this`namedQueries, this`entityType
      ensures namedQueries == Put(old(namedQueries), namedQuery.name, namedQuery)
      ensures entityType == if namedQuery.name == DEFAULT_QUERY_NAME then Some(Sql) else old(entityType)
    {
      namedQueries := Put(namedQueries, namedQuery.name, namedQuery);
      if namedQuery.name == DEFAULT_QUERY_NAME {
        SetEntityType(Sql);
      }
    }

    /** rawSqlProcessExtend: one pass over the raw SQL in map order, extending each that extends another. */
    method RawSqlProcessExtend() returns (o: Outcome)
      modifies this`rawSqlMetas
      ensures (rawSqlMetas, o) == ExtendFrom(old(rawSqlMetas), 0)
    {
      var i := 0;
      while i < |rawSqlMetas|
        invariant 0 <= i <= |rawSqlMetas|
        invariant ExtendFrom(rawSqlMetas, i) == ExtendFrom(old(rawSqlMetas), 0)
        decreases |rawSqlMetas| - i
      {
        var rawSqlMeta := rawSqlMetas[i].value;
        if rawSqlMeta.extend.Some? {
          var extend := rawSqlMeta.extend.value;
          var parentQuery := Get(rawSqlMetas, extend);
          if parentQuery.None? {
            return Fail(RuntimeException("parent query [" + extend + "] not found for sql-select " + rawSqlMeta.name));
          }
          rawSqlMetas := rawSqlMetas[i := Entry(rawSqlMetas[i].key, rawSqlMeta.(extendedWith := rawSqlMeta.extendedWith + [extend]))];
        }
        i := i + 1;
      }
      o := Pass;
    }

    /**
     * getRawSqlMeta: the extends are resolved on the first call that gets through; a call
     * that fails leaves the flag unset, so the next call resolves again.
     */
    method GetRawSqlMeta() returns (r: Result<seq<RawSqlMeta>>)
      modifies this`rawSqlMetas, this`processedRawSqlExtend
      ensures old(processedRawSqlExtend) ==> rawSqlMetas == old(rawSqlMetas) && processedRawSqlExtend
      ensures !old(processedRawSqlExtend) ==>
        var (es, o) := ExtendFrom(old(rawSqlMetas), 0);
        rawSqlMetas == es && processedRawSqlExtend == o.Pass? && (o.Fail? ==> r == Err(o.error))
      ensures r.Ok? ==> processedRawSqlExtend && r.value == Values(rawSqlMetas)
      ensures (old(processedRawSqlExtend) || ExtendFrom(old(rawSqlMetas), 0).1.Pass?) ==>
        r == Ok(Values(rawSqlMetas))
    {
      if !processedRawSqlExtend {
        var o := RawSqlProcessExtend();
        if o.Fail? {
          return Err(o.error);
        }
        processedRawSqlExtend := true;
      }
      return Ok(Values(rawSqlMetas));
    }
  }

  /** Resolving extends fails exactly when some raw SQL extends one that is not registered. */
  lemma RawSqlExtendFailsIffMissingParent(es: seq<Entry<RawSqlMeta>>)
    ensures ExtendFrom(es, 0).1.Fail? <==>
      exists j | 0 <= j < |es| :: es[j].value.extend.Some? && es[j].value.extend.value !in Keys(es)
  {
    ExtendFromPass(es, 0);
  }
}
