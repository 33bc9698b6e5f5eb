/**
 * OChainedIndexProxy: how an index chain for a traversed property (a.b.c) is
 * put together. Every link but the last uses the best-scoring index of its
 * class; the last link gets one chain per variant of the last class's indexes.
 *
 * The schema is a map from class names to what the code asks of an OClass:
 * the indexes involving a field (`getInvolvedIndexes`, in iteration order) and
 * the properties with their linked class (`getProperty(..).getLinkedClass()`).
 */
module ChainedIndexProxy {
  import opened Wrappers
  import opened Bytes

  /** OClass.INDEX_TYPE. */
  datatype IndexType =
    | Unique | NotUnique | Fulltext | Dictionary | Proxy
    | UniqueHashIndex | NotUniqueHashIndex | FulltextHashIndex | DictionaryHashIndex | Spatial

  /** The `ignoreNullValues` field of an index's metadata document: true, false or absent. */
  datatype Metadata = Metadata(ignoreNullValues: Option<bool>)

  /**
   * What the code reads of an OIndex: name, type, the definition's parameter
   * count, metadata (null: `None`), the class of its internal implementation and
   * its rebuild version.
   */
  datatype Index = Index(name: string, indexType: IndexType, paramCount: int, metadata: Option<Metadata>,
                         internalClass: string, rebuildVersion: int64)

  datatype SchemaClass = SchemaClass(involved: map<string, seq<Index>>, properties: map<string, Option<string>>)

  type Schema = map<string, SchemaClass>

  /** An OChainedIndexProxy is its chain of indexes. */
  datatype ChainedIndex = ChainedIndex(indexChain: seq<Index>)

  // ---------------------------------------------------------------------------
  // Scoring
  // ---------------------------------------------------------------------------

  predicate IsComposite(index: Index) {
    index.paramCount > 1
  }

  predicate IsHash(t: IndexType) {
    t == UniqueHashIndex || t == NotUniqueHashIndex
  }

  predicate IsTree(t: IndexType) {
    t == Unique || t == NotUnique
  }

  /** `supportNullValues`: metadata present and `ignoreNullValues` explicitly false. */
  function SupportNullValues(index: Index): (r: bool)
    ensures r <==> index.metadata == Some(Metadata(Some(false)))
  {
    if index.metadata.None? then false else index.metadata.value.ignoreNullValues == Some(false)
  }

  /**
   * `priorityOfUsage`: 21 for a single-field hash index, 16 for a single-field
   * UNIQUE/NOTUNIQUE index, 6 for a composite UNIQUE/NOTUNIQUE index that keeps
   * nulls, and -1 for everything else, including null.
   */
  function PriorityOfUsage(index: Option<Index>): (p: int)
    ensures p in {21, 16, 6, -1}
    ensures p == 21 <==> index.Some? && !IsComposite(index.value) && IsHash(index.value.indexType)
    ensures p == 16 <==> index.Some? && !IsComposite(index.value) && IsTree(index.value.indexType)
    ensures p == 6 <==> index.Some? && IsComposite(index.value) && SupportNullValues(index.value) && IsTree(index.value.indexType)
  {
    if index.None? then -1
    else
      var i := index.value;
      var isComposite := IsComposite(i);
      if isComposite && !SupportNullValues(i) then -1
      else
        var priority := if isComposite then 1 else 11;
        match i.indexType
        case UniqueHashIndex => if isComposite then -1 else priority + 10
        case NotUniqueHashIndex => if isComposite then -1 else priority + 10
        case Unique => priority + 5
        case NotUnique => priority + 5
        case _ => -1
  }

  function Score(index: Index): int {
    PriorityOfUsage(Some(index))
  }

  /** As the doc comment says: hash beats tree, and single-field beats composite. */
  lemma HashOverTreeOverComposite(hash: Index, tree: Index, composite: Index)
    requires !IsComposite(hash) && IsHash(hash.indexType)
    requires !IsComposite(tree) && IsTree(tree.indexType)
    requires IsComposite(composite)
    ensures Score(hash) > Score(tree) > Score(composite)
  {
  }

  /**
   * `isAppropriateAsBase`: the requirements the doc comment lists, namely a
   * UNIQUE/NOTUNIQUE index or a single-field hash index, and, if composite,
   * one that keeps nulls.
   */
  function IsAppropriateAsBase(index: Option<Index>): (r: bool)
    ensures r <==> index.Some? && (IsTree(index.value.indexType) || (IsHash(index.value.indexType) && !IsComposite(index.value)))
                   && (IsComposite(index.value) ==> SupportNullValues(index.value))
  {
    PriorityOfUsage(index) > 0
  }

  // ---------------------------------------------------------------------------
  // findBestIndex
  // ---------------------------------------------------------------------------

  /** The running best of `findBestIndex` after a prefix of the indexes. */
  function BestIndex(indexes: seq<Index>): Option<Index>
  {
    if indexes == [] then None
    else
      var best := BestIndex(indexes[..|indexes| - 1]);
      if Score(indexes[|indexes| - 1]) > PriorityOfUsage(best) then Some(indexes[|indexes| - 1]) else best
  }

  /** Position `k` holds the first of the highest-scoring indexes. */
  ghost predicate FirstMaximumAt(indexes: seq<Index>, k: int) {
    && 0 <= k < |indexes|
    && (forall j :: 0 <= j < |indexes| ==> Score(indexes[j]) <= Score(indexes[k]))
    && (forall j :: 0 <= j < k ==> Score(indexes[j]) < Score(indexes[k]))
  }

  ghost predicate AllUnusable(indexes: seq<Index>) {
    forall j :: 0 <= j < |indexes| ==> Score(indexes[j]) == -1
  }

  lemma FirstMaximumKept(indexes: seq<Index>, k: int)
    requires |indexes| > 0 && FirstMaximumAt(indexes[..|indexes| - 1], k)
    requires Score(indexes[|indexes| - 1]) <= Score(indexes[k])
    ensures FirstMaximumAt(indexes, k)
  {
    assert forall j :: 0 <= j < |indexes| - 1 ==> indexes[j] == indexes[..|indexes| - 1][j];
  }

  lemma FirstMaximumNew(indexes: seq<Index>)
    requires |indexes| > 0
    requires forall j :: 0 <= j < |indexes| - 1 ==> Score(indexes[j]) < Score(indexes[|indexes| - 1])
    ensures FirstMaximumAt(indexes, |indexes| - 1)
  {
  }

  /**
   * `findBestIndex` yields null iff every index scores -1, and otherwise the first
   * index with the highest score.
   */
  lemma {:induction false} BestIndexIsFirstMaximum(indexes: seq<Index>)
    ensures BestIndex(indexes).None? <==> AllUnusable(indexes)
    ensures BestIndex(indexes).Some? ==> exists k :: FirstMaximumAt(indexes, k) && BestIndex(indexes) == Some(indexes[k])
  {
    if indexes != [] {
      var n := |indexes|;
      var init := indexes[..n - 1];
      var last := indexes[n - 1];
      assert forall j :: 0 <= j < n - 1 ==> indexes[j] == init[j];
      BestIndexIsFirstMaximum(init);
      var best := BestIndex(init);
      if Score(last) > PriorityOfUsage(best) {
        if best.Some? {
          var k :| FirstMaximumAt(init, k) && best == Some(init[k]);
          assert Score(init[k]) < Score(last);
        }
        FirstMaximumNew(indexes);
      } else if best.Some? {
        var k :| FirstMaximumAt(init, k) && best == Some(init[k]);
        assert indexes[k] == init[k];
        FirstMaximumKept(indexes, k);
      }
    }
  }

  /** The index `findBestIndex` picks is always appropriate as a base. */
  lemma BestIndexIsAppropriate(indexes: seq<Index>)
    requires BestIndex(indexes).Some?
    ensures IsAppropriateAsBase(BestIndex(indexes))
  {
    BestIndexIsFirstMaximum(indexes);
    var k :| FirstMaximumAt(indexes, k) && BestIndex(indexes) == Some(indexes[k]);
  }

  /** `findBestIndex`: keeps the first index that beats the best so far. */
  method FindBestIndex(indexes: seq<Index>) returns (bestIndex: Option<Index>)
    ensures bestIndex == BestIndex(indexes)
  {
    bestIndex := None;
    for i := 0 to |indexes|
      invariant bestIndex == BestIndex(indexes[..i])
    {
      assert indexes[..i + 1][..i] == indexes[..i];
      if PriorityOfUsage(Some(indexes[i])) > PriorityOfUsage(bestIndex) {
        bestIndex := Some(indexes[i]);
      }
    }
    assert indexes[..|indexes|] == indexes;
  }

  // ---------------------------------------------------------------------------
  // Walking the schema
  // ---------------------------------------------------------------------------

  /** `getInvolvedIndexes(field)`: no entry means no index. */
  function InvolvedIndexes(c: SchemaClass, field: string): seq<Index> {
    if field in c.involved then c.involved[field] else []
  }

  /**
   * `getProperty(field).getLinkedClass()`: a missing property is null and its
   * dereference throws; a property without a linked class (or whose linked class
   * name the schema does not know) gives null.
   */
  function LinkedClass(schema: Schema, c: SchemaClass, field: string): (r: Result<Option<SchemaClass>>)
    ensures r.Err? <==> field !in c.properties
  {
    if field !in c.properties then Err(NullDereference)
    else
      match c.properties[field]
      case None => Ok(None)
      case Some(n) => if n in schema then Ok(Some(schema[n])) else Ok(None)
  }

  /** Puts `prefix` in front of a successful, non-null list of base indexes. */
  function PrependAll(prefix: seq<Index>, r: Result<Option<seq<Index>>>): Result<Option<seq<Index>>> {
    match r
    case Ok(Some(tail)) => Ok(Some(prefix + tail))
    case _ => r
  }

  lemma PrependNothing(r: Result<Option<seq<Index>>>)
    ensures PrependAll([], r) == r
  {
    if r.Ok? && r.value.Some? {
      assert [] + r.value.value == r.value.value;
    }
  }

  lemma PrependStep(prefix: seq<Index>, x: Index, r: Result<Option<seq<Index>>>)
    ensures PrependAll(prefix, PrependAll([x], r)) == PrependAll(prefix + [x], r)
  {
    if r.Ok? && r.value.Some? {
      assert prefix + ([x] + r.value.value) == (prefix + [x]) + r.value.value;
    }
  }

  /**
   * What `prepareBaseIndexes` computes from the current class for the remaining
   * link names: the best index of each link, or null as soon as one link has
   * none; a null class is dereferenced and throws.
   */
  function BaseFrom(schema: Schema, oClass: Option<SchemaClass>, names: seq<string>): Result<Option<seq<Index>>>
    decreases |names|
  {
    if names == [] then Ok(Some([]))
    else if oClass.None? then Err(NullDereference)
    else
      var best := BestIndex(InvolvedIndexes(oClass.value, names[0]));
      if best.None? then Ok(None)
      else
        match LinkedClass(schema, oClass.value, names[0])
        case Err(e) => Err(e)
        case Ok(next) => PrependAll([best.value], BaseFrom(schema, next, names[1..]))
  }

  /** `prepareBaseIndexes` for a chain: every name but the last is a base link. */
  function BaseIndexes(schema: Schema, start: SchemaClass, fieldChain: seq<string>): Result<Option<seq<Index>>> {
    if |fieldChain| == 0 then Err(NegativeCapacity)
    else BaseFrom(schema, Some(start), fieldChain[..|fieldChain| - 1])
  }

  /** Base indexes are one per link, each the best (hence an appropriate) index of its link. */
  lemma {:induction false} BaseFromIsAppropriate(schema: Schema, oClass: Option<SchemaClass>, names: seq<string>)
    requires BaseFrom(schema, oClass, names).Ok? && BaseFrom(schema, oClass, names).value.Some?
    ensures |BaseFrom(schema, oClass, names).value.value| == |names|
    ensures forall j :: 0 <= j < |names| ==> IsAppropriateAsBase(Some(BaseFrom(schema, oClass, names).value.value[j]))
    decreases |names|
  {
    if names != [] {
      var involved := InvolvedIndexes(oClass.value, names[0]);
      BestIndexIsAppropriate(involved);
      var next := LinkedClass(schema, oClass.value, names[0]).value;
      BaseFromIsAppropriate(schema, next, names[1..]);
    }
  }

  /** `prepareBaseIndexes`. */
  method PrepareBaseIndexes(schema: Schema, start: SchemaClass, fieldChain: seq<string>)
    returns (result: Result<Option<seq<Index>>>)
    ensures result == BaseIndexes(schema, start, fieldChain)
  {
    if |fieldChain| == 0 {
      return Err(NegativeCapacity);
    }
    var names := fieldChain[..|fieldChain| - 1];
    var found: seq<Index> := [];
    var oClass: Option<SchemaClass> := Some(start);
    var i := 0;
    PrependNothing(BaseFrom(schema, oClass, names));
    while i < |names|
      invariant 0 <= i <= |names|
      invariant BaseFrom(schema, Some(start), names) == PrependAll(found, BaseFrom(schema, oClass, names[i..]))
    {
      assert names[i..][0] == names[i];
      assert names[i..][1..] == names[i + 1..];
      if oClass.None? {
        return Err(NullDereference);
      }
      var involvedIndexes := InvolvedIndexes(oClass.value, names[i]);
      var bestIndex := FindBestIndex(involvedIndexes);
      if bestIndex.None? {
        return Ok(None);
      }
      var linked := LinkedClass(schema, oClass.value, names[i]);
      if linked.Err? {
        return Err(linked.error);
      }
      PrependStep(found, bestIndex.value, BaseFrom(schema, linked.value, names[i + 1..]));
      found := found + [bestIndex.value];
      oClass := linked.value;
      i := i + 1;
    }
    assert found + [] == found;
    return Ok(Some(found));
  }

  // ---------------------------------------------------------------------------
  // prepareLastIndexVariants
  // ---------------------------------------------------------------------------

  /** A TreeSet ordered by parameter count, as a list in iteration order. */
  ghost predicate StrictlySorted(t: seq<Index>) {
    forall i, j :: 0 <= i < j < |t| ==> t[i].paramCount < t[j].paramCount
  }

  predicate HasCount(t: seq<Index>, n: int) {
    exists i :: 0 <= i < |t| && t[i].paramCount == n
  }

  /** `TreeSet.add`: an element whose parameter count is already present is not added. */
  function TreeAdd(t: seq<Index>, x: Index): (r: seq<Index>)
    requires StrictlySorted(t)
    ensures StrictlySorted(r)
    ensures forall y :: y in r <==> y in t || (y == x && !HasCount(t, x.paramCount))
  {
    if t == [] then [x]
    else if x.paramCount < t[0].paramCount then [x] + t
    else if x.paramCount == t[0].paramCount then t
    else
      var tail := TreeAdd(t[1..], x);
      assert forall y :: y in t[1..] ==> y.paramCount > t[0].paramCount;
      assert HasCount(t, x.paramCount) <==> HasCount(t[1..], x.paramCount) by {
        if HasCount(t, x.paramCount) {
          var i :| 0 <= i < |t| && t[i].paramCount == x.paramCount;
          assert t[1..][i - 1] == t[i];
        }
        if HasCount(t[1..], x.paramCount) {
          var i :| 0 <= i < |t[1..]| && t[1..][i].paramCount == x.paramCount;
          assert t[i + 1] == t[1..][i];
        }
      }
      assert forall y :: y in t <==> y == t[0] || y in t[1..];
      var r := [t[0]] + tail;
      assert forall j :: 0 < j < |r| ==> r[j] in tail;
      r
  }

  lemma TreeAddHasCount(t: seq<Index>, x: Index)
    requires StrictlySorted(t)
    ensures HasCount(TreeAdd(t, x), x.paramCount)
  {
    var r := TreeAdd(t, x);
    if HasCount(t, x.paramCount) {
      var i :| 0 <= i < |t| && t[i].paramCount == x.paramCount;
      assert t[i] in r;
      var j :| 0 <= j < |r| && r[j] == t[i];
    } else {
      assert x in r;
      var j :| 0 <= j < |r| && r[j] == x;
    }
  }

  /** `TreeSet.addAll`: adds the elements one by one, in iteration order. */
  function TreeAddAll(t: seq<Index>, s: seq<Index>): (r: seq<Index>)
    requires StrictlySorted(t)
    ensures StrictlySorted(r)
    decreases |s|
  {
    if s == [] then t else TreeAddAll(TreeAdd(t, s[0]), s[1..])
  }

  /**
   * The TreeSet keeps, in ascending parameter-count order, only the first index
   * of each parameter count: it never adds anything but the indexes it was given,
   * it has every parameter count they have, and the first index of each count
   * is the one kept.
   */
  lemma {:induction false} TreeAddAllKeepsFirst(t: seq<Index>, s: seq<Index>)
    requires StrictlySorted(t)
    ensures forall y :: y in TreeAddAll(t, s) ==> y in t || y in s
    ensures forall y :: y in t ==> y in TreeAddAll(t, s)
    ensures forall k :: 0 <= k < |s| ==> HasCount(TreeAddAll(t, s), s[k].paramCount)
    ensures forall k :: 0 <= k < |s| && !HasCount(t, s[k].paramCount)
                        && (forall j :: 0 <= j < k ==> s[j].paramCount != s[k].paramCount)
                        ==> s[k] in TreeAddAll(t, s)
    decreases |s|
  {
    if s != [] {
      var t' := TreeAdd(t, s[0]);
      TreeAddAllKeepsFirst(t', s[1..]);
      var r := TreeAddAll(t, s);
      assert r == TreeAddAll(t', s[1..]);
      forall k | 0 <= k < |s|
        ensures HasCount(r, s[k].paramCount)
      {
        if k == 0 {
          TreeAddHasCount(t, s[0]);
          var i :| 0 <= i < |t'| && t'[i].paramCount == s[0].paramCount;
          assert t'[i] in r;
          var i' :| 0 <= i' < |r| && r[i'] == t'[i];
        } else {
          assert s[k] == s[1..][k - 1];
        }
      }
      forall k | 0 <= k < |s| && !HasCount(t, s[k].paramCount) && (forall j :: 0 <= j < k ==> s[j].paramCount != s[k].paramCount)
        ensures s[k] in r
      {
        if k == 0 {
          assert s[0] in t';
        } else {
          assert s[k] == s[1..][k - 1];
          forall i | 0 <= i < |t'|
            ensures t'[i].paramCount != s[k].paramCount
          {
            assert t'[i] in t';
            if t'[i] in t {
              var i' :| 0 <= i' < |t| && t[i'] == t'[i];
            }
          }
          assert !HasCount(t', s[k].paramCount);
          assert forall j :: 0 <= j < k - 1 ==> s[1..][j] == s[j + 1];
        }
      }
    }
  }

  function ClassesOf(s: seq<Index>): set<string> {
    set i | 0 <= i < |s| :: s[i].internalClass
  }

  lemma ClassesOfAppend(s: seq<Index>, x: Index)
    ensures ClassesOf(s + [x]) == ClassesOf(s) + {x.internalClass}
  {
    var r := s + [x];
    forall c | c in ClassesOf(s) + {x.internalClass}
      ensures c in ClassesOf(r)
    {
      if c in ClassesOf(s) {
        var i :| 0 <= i < |s| && s[i].internalClass == c;
        assert r[i] == s[i];
      } else {
        assert r[|s|] == x;
      }
    }
    forall c | c in ClassesOf(r)
      ensures c in ClassesOf(s) + {x.internalClass}
    {
      var i :| 0 <= i < |r| && r[i].internalClass == c;
      if i < |s| {
        assert r[i] == s[i];
      }
    }
  }

  /** The loop over the TreeSet: the first index of each internal class, in order. */
  function FirstPerClass(s: seq<Index>): seq<Index>
  {
    if s == [] then []
    else
      var kept := FirstPerClass(s[..|s| - 1]);
      if s[|s| - 1].internalClass in ClassesOf(kept) then kept else kept + [s[|s| - 1]]
  }

  /**
   * The class filter keeps indexes of pairwise different classes, taken in order
   * from its input, at least one for every class the input has.
   */
  lemma {:induction false} FirstPerClassProperties(s: seq<Index>)
    ensures forall i, j :: 0 <= i < j < |FirstPerClass(s)| ==> FirstPerClass(s)[i].internalClass != FirstPerClass(s)[j].internalClass
    ensures forall y :: y in FirstPerClass(s) ==> y in s
    ensures ClassesOf(FirstPerClass(s)) == ClassesOf(s)
    ensures StrictlySorted(s) ==> StrictlySorted(FirstPerClass(s))
  {
    if s != [] {
      var init, last := s[..|s| - 1], s[|s| - 1];
      FirstPerClassProperties(init);
      var kept := FirstPerClass(init);
      assert forall y :: y in init ==> y in s;
      assert s == init + [last];
      ClassesOfAppend(init, last);
      if last.internalClass !in ClassesOf(kept) {
        var r := kept + [last];
        ClassesOfAppend(kept, last);
        forall i | 0 <= i < |kept|
          ensures r[i].internalClass != last.internalClass
        {
          assert r[i] == kept[i];
        }
        if StrictlySorted(s) {
          assert StrictlySorted(init);
          forall i | 0 <= i < |kept|
            ensures kept[i].paramCount < last.paramCount
          {
            assert kept[i] in init;
            var p :| 0 <= p < |init| && init[p] == kept[i];
            assert s[p] == init[p];
          }
        }
      }
    }
  }

  lemma {:induction false} FirstPerClassClasses(s: seq<Index>)
    ensures ClassesOf(FirstPerClass(s)) == ClassesOf(s)
  {
    if s != [] {
      var init, last := s[..|s| - 1], s[|s| - 1];
      FirstPerClassClasses(init);
      assert s == init + [last];
      ClassesOfAppend(init, last);
      if last.internalClass !in ClassesOf(FirstPerClass(init)) {
        ClassesOfAppend(FirstPerClass(init), last);
      }
    }
  }

  /** For each class, the index the filter keeps is the first of that class in its input. */
  lemma {:induction false} FirstPerClassKeepsFirst(s: seq<Index>)
    ensures forall k :: 0 <= k < |s| && (forall j :: 0 <= j < k ==> s[j].internalClass != s[k].internalClass)
                        ==> s[k] in FirstPerClass(s)
  {
    if s != [] {
      var init, last := s[..|s| - 1], s[|s| - 1];
      FirstPerClassKeepsFirst(init);
      FirstPerClassClasses(init);
      var kept := FirstPerClass(init);
      forall k | 0 <= k < |s| && (forall j :: 0 <= j < k ==> s[j].internalClass != s[k].internalClass)
        ensures s[k] in FirstPerClass(s)
      {
        if k < |init| {
          assert init[k] == s[k];
          assert forall j :: 0 <= j < k ==> init[j] == s[j];
        } else {
          forall c | c in ClassesOf(kept)
            ensures c != last.internalClass
          {
            var i :| 0 <= i < |init| && init[i].internalClass == c;
            assert init[i] == s[i];
          }
        }
      }
    }
  }

  /**
   * The walk of `prepareLastIndexVariants` to the class of the last link: a
   * missing property throws, and a null linked class ends the walk with no
   * class (and then no variants).
   */
  function WalkTo(schema: Schema, c: SchemaClass, names: seq<string>): Result<Option<SchemaClass>>
    decreases |names|
  {
    if names == [] then Ok(Some(c))
    else
      match LinkedClass(schema, c, names[0])
      case Err(e) => Err(e)
      case Ok(None) => Ok(None)
      case Ok(Some(next)) => WalkTo(schema, next, names[1..])
  }

  /** What `prepareLastIndexVariants` returns. */
  function LastIndexVariants(schema: Schema, start: SchemaClass, fieldChain: seq<string>): Result<seq<Index>>
    requires |fieldChain| >= 1
  {
    match WalkTo(schema, start, fieldChain[..|fieldChain| - 1])
    case Err(e) => Err(e)
    case Ok(None) => Ok([])
    case Ok(Some(last)) => Ok(FirstPerClass(TreeAddAll([], InvolvedIndexes(last, fieldChain[|fieldChain| - 1]))))
  }

  /**
   * The last-index variants are indexes of the last link, in ascending parameter
   * count, no two with the same parameter count and no two of the same internal
   * class.
   */
  lemma LastIndexVariantsAreDistinct(schema: Schema, start: SchemaClass, fieldChain: seq<string>)
    requires |fieldChain| >= 1
    requires LastIndexVariants(schema, start, fieldChain).Ok?
    ensures var v := LastIndexVariants(schema, start, fieldChain).value;
      && (forall i, j :: 0 <= i < j < |v| ==> v[i].paramCount < v[j].paramCount)
      && (forall i, j :: 0 <= i < j < |v| ==> v[i].internalClass != v[j].internalClass)
      && (WalkTo(schema, start, fieldChain[..|fieldChain| - 1]).value.Some? ==>
            forall y :: y in v ==> y in InvolvedIndexes(WalkTo(schema, start, fieldChain[..|fieldChain| - 1]).value.value,
                                                      fieldChain[|fieldChain| - 1]))
  {
    var walk := WalkTo(schema, start, fieldChain[..|fieldChain| - 1]);
    if walk.value.Some? {
      var involved := InvolvedIndexes(walk.value.value, fieldChain[|fieldChain| - 1]);
      var tree := TreeAddAll([], involved);
      TreeAddAllKeepsFirst([], involved);
      FirstPerClassProperties(tree);
    }
  }

  /** `prepareLastIndexVariants`. Only called once the base links were found, so the chain is not empty. */
  method PrepareLastIndexVariants(schema: Schema, start: SchemaClass, fieldChain: seq<string>)
    returns (result: Result<seq<Index>>)
    requires |fieldChain| >= 1
    ensures result == LastIndexVariants(schema, start, fieldChain)
  {
    var names := fieldChain[..|fieldChain| - 1];
    var oClass := start;
    var i := 0;
    while i < |names|
      invariant 0 <= i <= |names|
      invariant WalkTo(schema, start, names) == WalkTo(schema, oClass, names[i..])
    {
      var linked := LinkedClass(schema, oClass, names[i]);
      if linked.Err? {
        return Err(linked.error);
      }
      if linked.value.None? {
        return Ok([]);
      }
      assert names[i..][1..] == names[i + 1..];
      oClass := linked.value.value;
      i := i + 1;
    }
    var involvedIndexes := TreeAddAll([], InvolvedIndexes(oClass, fieldChain[|fieldChain| - 1]));
    var kept: seq<Index> := [];
    var indexTypes: set<string> := {};
    for k := 0 to |involvedIndexes|
      invariant kept == FirstPerClass(involvedIndexes[..k]) && indexTypes == ClassesOf(kept)
    {
      assert involvedIndexes[..k + 1][..k] == involvedIndexes[..k];
      var involvedIndex := involvedIndexes[k];
      if involvedIndex.internalClass !in indexTypes {
        ClassesOfAppend(kept, involvedIndex);
        kept := kept + [involvedIndex];
        indexTypes := indexTypes + {involvedIndex.internalClass};
      }
    }
    assert involvedIndexes[..|involvedIndexes|] == involvedIndexes;
    return Ok(kept);
  }

  // ---------------------------------------------------------------------------
  // getIndexesForChain
  // ---------------------------------------------------------------------------

  /** What `getIndexesForChain` returns. */
  function IndexesForChain(schema: Schema, start: SchemaClass, fieldChain: seq<string>): Result<seq<seq<Index>>>
  {
    match BaseIndexes(schema, start, fieldChain)
    case Err(e) => Err(e)
    case Ok(None) => Ok([])
    case Ok(Some(base)) =>
      match LastIndexVariants(schema, start, fieldChain)
      case Err(e) => Err(e)
      case Ok(lasts) => Ok(seq(|lasts|, (i: int) requires 0 <= i < |lasts| => base + [lasts[i]]))
  }

  /**
   * No chain when a base link has no usable index; otherwise one chain per
   * last-index variant, each the base indexes (all appropriate as base) followed
   * by that variant, one index per link of the field chain.
   */
  lemma ChainsAreBasePlusVariant(schema: Schema, start: SchemaClass, fieldChain: seq<string>)
    requires IndexesForChain(schema, start, fieldChain).Ok?
    ensures BaseIndexes(schema, start, fieldChain) == Ok(None) ==> IndexesForChain(schema, start, fieldChain) == Ok([])
    ensures BaseIndexes(schema, start, fieldChain).value.Some? ==>
      var base := BaseIndexes(schema, start, fieldChain).value.value;
      var lasts := LastIndexVariants(schema, start, fieldChain).value;
      var chains := IndexesForChain(schema, start, fieldChain).value;
      && |chains| == |lasts|
      && (forall i :: 0 <= i < |chains| ==> chains[i] == base + [lasts[i]] && |chains[i]| == |fieldChain|)
      && (forall j :: 0 <= j < |base| ==> IsAppropriateAsBase(Some(base[j])))
  {
    var b := BaseIndexes(schema, start, fieldChain);
    if b.value.Some? {
      BaseFromIsAppropriate(schema, Some(start), fieldChain[..|fieldChain| - 1]);
    }
  }

  /** `getIndexesForChain`. */
  method GetIndexesForChain(schema: Schema, start: SchemaClass, fieldChain: seq<string>)
    returns (result: Result<seq<seq<Index>>>)
    ensures result == IndexesForChain(schema, start, fieldChain)
  {
    var baseIndexes := PrepareBaseIndexes(schema, start, fieldChain);
    if baseIndexes.Err? {
      return Err(baseIndexes.error);
    }
    if baseIndexes.value.None? {
      return Ok([]);
    }
    var base := baseIndexes.value.value;
    var lastIndexes := PrepareLastIndexVariants(schema, start, fieldChain);
    if lastIndexes.Err? {
      return Err(lastIndexes.error);
    }
    var lasts := lastIndexes.value;
    var chains: seq<seq<Index>> := [];
    for i := 0 to |lasts|
      invariant |chains| == i && forall k :: 0 <= k < i ==> chains[k] == base + [lasts[k]]
    {
      var indexes := base + [lasts[i]];
      chains := chains + [indexes];
    }
    assert chains == seq(|lasts|, (i: int) requires 0 <= i < |lasts| => base + [lasts[i]]);
    return Ok(chains);
  }

  // ---------------------------------------------------------------------------
  // getIndexNames, getName, getRebuildVersion
  // ---------------------------------------------------------------------------

  /** `getIndexNames`: the names of the chain's indexes, in chain order. */
  method GetIndexNames(proxy: ChainedIndex) returns (names: seq<string>)
    ensures |names| == |proxy.indexChain|
    ensures forall i :: 0 <= i < |names| ==> names[i] == proxy.indexChain[i].name
  {
    names := [];
    for i := 0 to |proxy.indexChain|
      invariant |names| == i && forall k :: 0 <= k < i ==> names[k] == proxy.indexChain[k].name
    {
      names := names + [proxy.indexChain[i].name];
    }
  }

  /** The names joined by ", ", as the StringBuilder loop builds them. */
  function Joined(names: seq<string>): string
  {
    if |names| == 0 then ""
    else if |names| == 1 then names[0]
    else Joined(names[..|names| - 1]) + ", " + names[|names| - 1]
  }

  /** The same join, read from the front: the first name, then ", " before each further one. */
  function JoinedFromFront(names: seq<string>): string
    decreases |names|
  {
    if |names| == 0 then "" else names[0] + Separated(names[1..])
  }

  function Separated(names: seq<string>): string
    decreases |names|
  {
    if |names| == 0 then "" else ", " + names[0] + Separated(names[1..])
  }

  lemma {:induction false} SeparatedAppend(names: seq<string>, last: string)
    ensures Separated(names + [last]) == Separated(names) + ", " + last
  {
    if names != [] {
      assert (names + [last])[1..] == names[1..] + [last];
      SeparatedAppend(names[1..], last);
    }
  }

  /** The loop's join agrees with the front-first reading. */
  lemma {:induction false} JoinedAgrees(names: seq<string>)
    ensures Joined(names) == JoinedFromFront(names)
  {
    if |names| > 1 {
      var init := names[..|names| - 1];
      JoinedAgrees(init);
      assert names[1..] == init[1..] + [names[|names| - 1]];
      SeparatedAppend(init[1..], names[|names| - 1]);
    }
  }

  /** `getName`: "IndexChain{" followed by the index names joined by ", ", then "}". */
  method GetName(proxy: ChainedIndex) returns (name: string)
    ensures name == "IndexChain{" + JoinedFromFront(seq(|proxy.indexChain|, (i: int) requires 0 <= i < |proxy.indexChain| => proxy.indexChain[i].name)) + "}"
  {
    var indexNames := GetIndexNames(proxy);
    var res := "IndexChain{";
    for i := 0 to |indexNames|
      invariant res == "IndexChain{" + Joined(indexNames[..i])
    {
      assert indexNames[..i + 1][..i] == indexNames[..i];
      if i > 0 {
        res := res + ", ";
      }
      res := res + indexNames[i];
    }
    res := res + "}";
    assert indexNames[..|indexNames|] == indexNames;
    assert indexNames == seq(|proxy.indexChain|, (i: int) requires 0 <= i < |proxy.indexChain| => proxy.indexChain[i].name);
    JoinedAgrees(indexNames);
    name := res;
  }

  /** The exact sum of the chain's rebuild versions. */
  function ExactRebuildSum(chain: seq<Index>): int
  {
    if chain == [] then 0 else ExactRebuildSum(chain[..|chain| - 1]) + chain[|chain| - 1].rebuildVersion
  }

  lemma Wrap64OfSum(a: int, b: int)
    ensures Wrap64(Wrap64(a) + b) == Wrap64(a + b)
  {
    var k := (a - Wrap64(a)) / TWO_64;
    assert a - Wrap64(a) == k * TWO_64;
    assert Wrap64(a) + b + TWO_63 == (a + b + TWO_63) - k * TWO_64;
  }

  /** `getRebuildVersion`: the sum of the chain's rebuild versions, in `long` arithmetic. */
  method GetRebuildVersion(proxy: ChainedIndex) returns (rebuildVersion: int64)
    ensures rebuildVersion == Wrap64(ExactRebuildSum(proxy.indexChain))
  {
    rebuildVersion := 0;
    var chain := proxy.indexChain;
    for i := 0 to |chain|
      invariant rebuildVersion == Wrap64(ExactRebuildSum(chain[..i]))
    {
      assert chain[..i + 1][..i] == chain[..i];
      Wrap64OfSum(ExactRebuildSum(chain[..i]), chain[i].rebuildVersion);
      rebuildVersion := Wrap64(rebuildVersion + chain[i].rebuildVersion);
    }
    assert chain[..|chain|] == chain;
  }
}
