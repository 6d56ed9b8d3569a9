/**
 * DocMappingBuilder: builds the document-store mapping of a bean type. A stack holds the
 * property mapping being filled (the root first, then nested objects and lists), every
 * added mapping is recorded under its full path, the @DocStore annotation's overrides are
 * applied by full path, and the sortable properties are collected with their ".raw" names.
 *
 * SplitName.add (joining a parent path and a name) and PathProperties.includesProperty
 * are not part of this model; the builder takes them as functions.
 */
module DocMappingBuilder {
  import opened Java
  import opened LinkedMaps

  /** One @DocMapping override of the @DocStore annotation: the property it names and its settings. */
  datatype DocMapping = DocMapping(name: string, options: string)

  /** DocPropertyMapping: a property of the document, its nested properties, and the overrides applied to it. */
  class DocPropertyMapping {
    const name: Option<string>
    var children: seq<DocPropertyMapping>
    var overrides: seq<DocMapping>

    constructor(name: Option<string>)
      ensures this.name == name && children == [] && overrides == []
    {
      this.name := name;
      children := [];
      overrides := [];
    }

    method AddChild(child: DocPropertyMapping)
      modifies this`children
      ensures children == old(children) + [child]
    {
      children := children + [child];
    }

    /**
     * apply(DocMapping): what the override changes in the mapping is not part of this
     * model; the mapping records it.
     */
    method Apply(docMapping: DocMapping)
      modifies this`overrides
      ensures overrides == old(overrides) + [docMapping]
    {
      overrides := overrides + [docMapping];
    }
  }

  /** The message applyFieldMapping throws with. */
  function NotIncludedMessage(fullName: string): string
  {
    "DocMapping for [" + fullName + "] but property not included in document?"
  }

  class DocMappingBuilder {
    /** PathProperties.includesProperty(prefix, name) of the document's paths. */
    const includesProperty: (Option<string>, string) -> bool
    /** SplitName.add(parent, name). */
    const splitNameAdd: (Option<string>, Option<string>) -> string
    /** docStore.mapping(). */
    const docStoreMapping: seq<DocMapping>

    /** The stack of mappings, top last. */
    var properties: seq<DocPropertyMapping>
    /** The added mappings by full path. */
    var mapped: seq<Entry<DocPropertyMapping>>

    /** A new builder: its stack holds just a fresh root mapping (no name), and nothing is recorded. */
    constructor(includesProperty: (Option<string>, string) -> bool,
                splitNameAdd: (Option<string>, Option<string>) -> string, docStoreMapping: seq<DocMapping>)
      ensures this.includesProperty == includesProperty && this.splitNameAdd == splitNameAdd
      ensures this.docStoreMapping == docStoreMapping
      ensures |properties| == 1 && fresh(properties[0]) && properties[0].name == None
      ensures properties[0].children == [] && properties[0].overrides == []
      ensures mapped == []
    {
      this.includesProperty := includesProperty;
      this.splitNameAdd := splitNameAdd;
      this.docStoreMapping := docStoreMapping;
      var root := new DocPropertyMapping(None);
      properties := [root];
      mapped := [];
    }

    /** includesProperty. */
    predicate IncludesProperty(prefix: Option<string>, name: string)
    {
      includesProperty(prefix, name)
    }

    /** includesPath: answers exactly as includesProperty. */
    predicate IncludesPath(prefix: Option<string>, name: string)
      ensures IncludesPath(prefix, name) <==> IncludesProperty(prefix, name)
    {
      includesProperty(prefix, name)
    }

    /** The full path a mapping added now is recorded under. */
    function FullNameOf(parent: DocPropertyMapping, docMapping: DocPropertyMapping): string
      reads parent, docMapping
    {
      splitNameAdd(parent.name, docMapping.name)
    }

    /**
     * add: the mapping becomes the last child of the mapping on top of the stack and is
     * recorded under the top's name joined with its own; on an empty stack peek throws.
     */
    method Add(docMapping: DocPropertyMapping) returns (o: Outcome)
      modifies this`mapped, if |properties| > 0 then {properties[|properties| - 1]} else {}
      ensures properties == old(properties)
      ensures old(|properties|) == 0 ==> o == Fail(EmptyStackException) && mapped == old(mapped)
      ensures old(|properties|) > 0 ==>
        var parent := properties[|properties| - 1];
        o == Pass &&
        parent.children == old(parent.children) + [docMapping] && parent.overrides == old(parent.overrides) &&
        mapped == Put(old(mapped), splitNameAdd(parent.name, docMapping.name), docMapping)
    {
      if |properties| == 0 {
        return Fail(EmptyStackException);
      }
      var currentParent := properties[|properties| - 1];
      currentParent.AddChild(docMapping);
      var parentName := currentParent.name;
      var fullName := splitNameAdd(parentName, docMapping.name);
      mapped := Put(mapped, fullName, docMapping);
      o := Pass;
    }

    /** push: the nested mapping becomes the top; nothing recorded changes. */
    method Push(nested: DocPropertyMapping)
      modifies this`properties
      ensures properties == old(properties) + [nested]
    {
      properties := properties + [nested];
    }

    /** pop: the top is removed, so a push then a pop restores the stack; on an empty stack pop throws. */
    method Pop() returns (o: Outcome)
      modifies this`properties
      ensures old(|properties|) == 0 ==> o == Fail(EmptyStackException) && properties == old(properties)
      ensures old(|properties|) > 0 ==> o == Pass && properties == old(properties)[..old(|properties|) - 1]
    {
      if |properties| == 0 {
        return Fail(EmptyStackException);
      }
      properties := properties[..|properties| - 1];
      o := Pass;
    }

    /** The recorded mappings. */
    function Mapped(): set<DocPropertyMapping>
      reads this
    {
      MappedIn(mapped)
    }

    /**
     * applyMapping: each override of the annotation, in order, is applied to the mapping
     * recorded under its path SplitName.add(null, name); the first that names a path never
     * recorded throws an IllegalStateException, after the ones before it have been applied.
     */
    method ApplyMapping() returns (o: Outcome)
      modifies Mapped()`overrides
      ensures var n := AppliedCount(mapped, splitNameAdd, docStoreMapping);
        (o.Pass? <==> n == |docStoreMapping|) &&
        (o.Fail? ==> o == Fail(IllegalStateException(NotIncludedMessage(OverridePath(splitNameAdd, docStoreMapping[n]))))) &&
        forall v | v in old(Mapped()) ::
          v.overrides == old(v.overrides) + OverridesFor(mapped, splitNameAdd, v, docStoreMapping[..n])
    {
      var entries := mapped;
      var split := splitNameAdd;
      var mapping := docStoreMapping;
      var targets := MappedIn(entries);
      var i := 0;
      forall v | v in targets ensures v.overrides == old(v.overrides) + OverridesFor(entries, split, v, mapping[..0]) {
        assert v.overrides + [] == v.overrides;
      }
      while i < |mapping|
        invariant 0 <= i <= |mapping|
        invariant i <= AppliedCount(entries, split, mapping)
        invariant forall v | v in targets :: v.overrides == old(v.overrides) + OverridesFor(entries, split, v, mapping[..i])
      {
        var fullName := OverridePath(split, mapping[i]);
        var found := Get(entries, fullName);
        GetKeys(entries, fullName);
        AppliedCountAt(entries, split, mapping, i);
        if found.None? {
          o := Fail(IllegalStateException(NotIncludedMessage(fullName)));
          return;
        }
        var target := found.value;
        GetInMapped(entries, fullName);
        label Before:
        target.Apply(mapping[i]);
        forall v | v in targets
          ensures v.overrides == old(v.overrides) + OverridesFor(entries, split, v, mapping[..i + 1])
        {
          OverridesStep(entries, split, mapping, i, target, v, old(v.overrides), old@Before(v.overrides), v.overrides);
        }
        i := i + 1;
      }
      assert mapping[..i] == mapping;
      o := Pass;
    }
  }

  /** The mappings recorded in the entries. */
  function MappedIn(es: seq<Entry<DocPropertyMapping>>): set<DocPropertyMapping>
  {
    set i | 0 <= i < |es| :: es[i].value
  }

  lemma GetInMapped(es: seq<Entry<DocPropertyMapping>>, k: string)
    requires Get(es, k).Some?
    ensures Get(es, k).value in MappedIn(es)
  {
  }

  /** The full path an override names: SplitName.add(null, name). */
  function OverridePath(splitNameAdd: (Option<string>, Option<string>) -> string, m: DocMapping): string
  {
    splitNameAdd(None, Some(m.name))
  }

  /** How many overrides are applied before the first one naming an unrecorded path. */
  function AppliedCount(es: seq<Entry<DocPropertyMapping>>, splitNameAdd: (Option<string>, Option<string>) -> string,
                        ms: seq<DocMapping>): (n: nat)
    ensures n <= |ms|
    ensures forall j | 0 <= j < n :: OverridePath(splitNameAdd, ms[j]) in Keys(es)
    ensures n < |ms| ==> OverridePath(splitNameAdd, ms[n]) !in Keys(es)
  {
    if |ms| == 0 then 0
    else if OverridePath(splitNameAdd, ms[0]) !in Keys(es) then 0
    else
      var n := 1 + AppliedCount(es, splitNameAdd, ms[1..]);
      assert forall j | 1 <= j < n :: ms[j] == ms[1..][j - 1];
      n
  }

  /** Past the first i applied overrides, the next is applied exactly when its path is recorded. */
  lemma AppliedCountAt(es: seq<Entry<DocPropertyMapping>>, splitNameAdd: (Option<string>, Option<string>) -> string,
                       ms: seq<DocMapping>, i: nat)
    requires i < |ms| && i <= AppliedCount(es, splitNameAdd, ms)
    ensures OverridePath(splitNameAdd, ms[i]) in Keys(es) ==> i < AppliedCount(es, splitNameAdd, ms)
    ensures OverridePath(splitNameAdd, ms[i]) !in Keys(es) ==> i == AppliedCount(es, splitNameAdd, ms)
  {
  }

  /** The overrides of ms that name the path v is recorded under, in order. */
  function OverridesFor(es: seq<Entry<DocPropertyMapping>>, splitNameAdd: (Option<string>, Option<string>) -> string,
                        v: DocPropertyMapping, ms: seq<DocMapping>): seq<DocMapping>
  {
    if |ms| == 0 then []
    else
      var m := ms[|ms| - 1];
      OverridesFor(es, splitNameAdd, v, ms[..|ms| - 1]) + (if Get(es, OverridePath(splitNameAdd, m)) == Some(v) then [m] else [])
  }

  lemma OverridesForSnoc(es: seq<Entry<DocPropertyMapping>>, splitNameAdd: (Option<string>, Option<string>) -> string,
                         v: DocPropertyMapping, ms: seq<DocMapping>, i: nat)
    requires i < |ms|
    ensures OverridesFor(es, splitNameAdd, v, ms[..i + 1]) ==
      OverridesFor(es, splitNameAdd, v, ms[..i]) + (if Get(es, OverridePath(splitNameAdd, ms[i])) == Some(v) then [ms[i]] else [])
  {
    assert ms[..i + 1][..i] == ms[..i];
  }

  /** Applying the next override to its target extends each mapping's overrides as OverridesFor says. */
  lemma OverridesStep(es: seq<Entry<DocPropertyMapping>>, splitNameAdd: (Option<string>, Option<string>) -> string,
                      ms: seq<DocMapping>, i: nat, target: DocPropertyMapping, v: DocPropertyMapping,
                      start: seq<DocMapping>, before: seq<DocMapping>, after: seq<DocMapping>)
    requires i < |ms| && Get(es, OverridePath(splitNameAdd, ms[i])) == Some(target)
    requires before == start + OverridesFor(es, splitNameAdd, v, ms[..i])
    requires after == if v == target then before + [ms[i]] else before
    ensures after == start + OverridesFor(es, splitNameAdd, v, ms[..i + 1])
  {
    OverridesForSnoc(es, splitNameAdd, v, ms, i);
  }

  // ---------------------------------------------------------------------------
  // collectSortable, over a snapshot of the mapping tree

  /** A mapping and its nested mappings, with whether its options mark it sortable (None: no options). */
  datatype DocTree = DocTree(name: Option<string>, sortable: Option<bool>, children: seq<DocTree>)

  const RAW_SUFFIX: string := ".raw"

  /** SortableVisitor on one property: a sortable one maps its full path to that path plus ".raw". */
  function VisitNode(acc: seq<Entry<string>>, node: DocTree, prefix: Option<string>,
                     splitNameAdd: (Option<string>, Option<string>) -> string): seq<Entry<string>>
    decreases node, 1
  {
    var path := splitNameAdd(prefix, node.name);
    var acc1 := if node.sortable == Some(true) then Put(acc, path, path + RAW_SUFFIX) else acc;
    VisitChildren(acc1, node, 0, Some(path), splitNameAdd)
  }

  /** The visitor on the children of parent from index i, under the parent's full path. */
  function VisitChildren(acc: seq<Entry<string>>, parent: DocTree, i: nat, prefix: Option<string>,
                         splitNameAdd: (Option<string>, Option<string>) -> string): seq<Entry<string>>
    decreases parent, 0, |parent.children| - i
  {
    if i >= |parent.children| then acc
    else VisitChildren(VisitNode(acc, parent.children[i], prefix, splitNameAdd), parent, i + 1, prefix, splitNameAdd)
  }

  /** collectSortable: the visitor over the properties of the mapping on top of the stack. */
  function CollectSortable(top: DocTree, splitNameAdd: (Option<string>, Option<string>) -> string): seq<Entry<string>>
  {
    VisitChildren([], top, 0, None, splitNameAdd)
  }

  /** The full paths of the sortable properties below parent from child i on. */
  function SortablePathsBelow(parent: DocTree, i: nat, prefix: Option<string>,
                              splitNameAdd: (Option<string>, Option<string>) -> string): set<string>
    decreases parent, 0, |parent.children| - i
  {
    if i >= |parent.children| then {}
    else SortablePathsOf(parent.children[i], prefix, splitNameAdd) + SortablePathsBelow(parent, i + 1, prefix, splitNameAdd)
  }

  function SortablePathsOf(node: DocTree, prefix: Option<string>,
                           splitNameAdd: (Option<string>, Option<string>) -> string): set<string>
    decreases node, 1
  {
    var path := splitNameAdd(prefix, node.name);
    (if node.sortable == Some(true) then {path} else {}) + SortablePathsBelow(node, 0, Some(path), splitNameAdd)
  }

  /** Every entry maps a path to that path plus ".raw". */
  predicate RawEntries(es: seq<Entry<string>>)
  {
    forall i | 0 <= i < |es| :: es[i].value == es[i].key + RAW_SUFFIX
  }

  lemma PutRawEntry(es: seq<Entry<string>>, path: string)
    requires RawEntries(es) && UniqueKeys(es)
    ensures RawEntries(Put(es, path, path + RAW_SUFFIX)) && UniqueKeys(Put(es, path, path + RAW_SUFFIX))
    ensures (set k | k in Keys(Put(es, path, path + RAW_SUFFIX))) == (set k | k in Keys(es)) + {path}
  {
    var r := Put(es, path, path + RAW_SUFFIX);
    PutEntries(es, path, path + RAW_SUFFIX);
    PutKeepsUnique(es, path, path + RAW_SUFFIX);
    PutKeys(es, path, path + RAW_SUFFIX);
    forall i | 0 <= i < |r| ensures r[i].value == r[i].key + RAW_SUFFIX {
      assert r[i] in r;
    }
  }

  lemma {:induction false} VisitNodeSpec(acc: seq<Entry<string>>, node: DocTree, prefix: Option<string>,
                                         splitNameAdd: (Option<string>, Option<string>) -> string)
    requires RawEntries(acc) && UniqueKeys(acc)
    ensures var r := VisitNode(acc, node, prefix, splitNameAdd);
      RawEntries(r) && UniqueKeys(r) &&
      (set k | k in Keys(r)) == (set k | k in Keys(acc)) + SortablePathsOf(node, prefix, splitNameAdd)
    decreases node, 1
  {
    var path := splitNameAdd(prefix, node.name);
    var acc1 := if node.sortable == Some(true) then Put(acc, path, path + RAW_SUFFIX) else acc;
    if node.sortable == Some(true) {
      PutRawEntry(acc, path);
    }
    VisitChildrenSpec(acc1, node, 0, Some(path), splitNameAdd);
  }

  lemma {:induction false} VisitChildrenSpec(acc: seq<Entry<string>>, parent: DocTree, i: nat, prefix: Option<string>,
                                             splitNameAdd: (Option<string>, Option<string>) -> string)
    requires RawEntries(acc) && UniqueKeys(acc)
    ensures var r := VisitChildren(acc, parent, i, prefix, splitNameAdd);
      RawEntries(r) && UniqueKeys(r) &&
      (set k | k in Keys(r)) == (set k | k in Keys(acc)) + SortablePathsBelow(parent, i, prefix, splitNameAdd)
    decreases parent, 0, |parent.children| - i
  {
    if i < |parent.children| {
      var acc1 := VisitNode(acc, parent.children[i], prefix, splitNameAdd);
      VisitNodeSpec(acc, parent.children[i], prefix, splitNameAdd);
      VisitChildrenSpec(acc1, parent, i + 1, prefix, splitNameAdd);
    }
  }

  /**
   * collectSortable maps each sortable property's full path p to p + ".raw", holds each
   * path once, and holds no other path.
   */
  lemma CollectSortableSpec(top: DocTree, splitNameAdd: (Option<string>, Option<string>) -> string, p: string)
    ensures var r := CollectSortable(top, splitNameAdd);
      RawEntries(r) && UniqueKeys(r) &&
      (p in Keys(r) <==> p in SortablePathsBelow(top, 0, None, splitNameAdd)) &&
      (p in Keys(r) ==> Get(r, p) == Some(p + RAW_SUFFIX))
  {
    var r := CollectSortable(top, splitNameAdd);
    VisitChildrenSpec([], top, 0, None, splitNameAdd);
    assert (set k | k in Keys(r)) == SortablePathsBelow(top, 0, None, splitNameAdd);
    assert p in Keys(r) <==> p in (set k | k in Keys(r));
    if p in Keys(r) {
      var j :| 0 <= j < |r| && Keys(r)[j] == p;
      assert r[j] == Entry(p, p + RAW_SUFFIX);
      UniqueGet(r, j);
    }
  }

  lemma UniqueGet<V>(es: seq<Entry<V>>, j: nat)
    requires UniqueKeys(es) && j < |es|
    ensures Get(es, es[j].key) == Some(es[j].value)
  {
    var g := Get(es, es[j].key);
    var i :| 0 <= i < |es| && es[i] == Entry(es[j].key, g.value);
    assert i == j;
  }
}
