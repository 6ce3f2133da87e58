/** A check group: the names of the checks registered under one path, each
    with its check, and its conversion into one evaluation of them all. */
module CheckMaps {
  import opened Wrappers
  import opened OrderedMaps

  /** A check is a nullary probe returning whether it succeeded. It is taken
      to be deterministic: calling it is reading its outcome. */
  type Check = () -> bool

  /** A check map (`Map<String, Check>`). */
  type CheckMap = Entries<Check>

  /** The results of one evaluation (`Map<String, Boolean>`). */
  type Results = Entries<bool>

  /** The check map's `mapValues { it.value() }`: every check run once, in
      iteration order. */
  function RunAll(m: CheckMap): (r: Results)
    ensures KeysOf(r) == KeysOf(m)
    ensures DistinctKeys(m) ==> DistinctKeys(r)
    ensures forall i :: 0 <= i < |m| ==> r[i] == (m[i].0, m[i].1())
  {
    MapValuesKeys(m, (c: Check) => c());
    MapValues(m, (c: Check) => c())
  }

  /** What `toFunction` hands out: one evaluation of a whole group. */
  type Evaluator = () -> Results

  /** The `CheckMap.toFunction()` extension: a function that, each time it is
      called, runs the checks of the map it was made from. */
  function CheckMapToFunction(m: CheckMap): (f: Evaluator)
    ensures KeysOf(f()) == KeysOf(m)
    ensures forall i :: 0 <= i < |m| ==> f()[i] == (m[i].0, m[i].1())
  {
    () => RunAll(m)
  }

  /** `CheckMapBuilder`: a group whose check map is replaced on each `add`. */
  class CheckMapBuilder {
    var inner: CheckMap

    ghost predicate Valid()
      reads this
    {
      DistinctKeys(inner)
    }

    constructor ()
      ensures Valid() && inner == []
      ensures !NotEmpty()
    {
      inner := [];
    }

    /** `inner += name to fn`: the name now maps to `fn` (see Put for what
        that keeps and what it changes). */
    method Add(name: string, fn: Check)
      requires Valid()
      modifies this
      ensures Valid()
      ensures inner == Put(old(inner), name, fn)
    {
      inner := Put(inner, name, fn);
    }

    /** Once a name has been added the builder is not empty, and the name
        is among its keys. */
    lemma NotEmptyAfterAdd(m: CheckMap, name: string, fn: Check)
      requires inner == Put(m, name, fn)
      ensures NotEmpty() && name in ToMap(inner)
    {
    }

    /** `inner.isNotEmpty()`: some name is registered. */
    function NotEmpty(): (r: bool)
      reads this
      ensures r <==> exists n :: n in ToMap(inner)
    {
      if inner == [] then false
      else
        assert inner[0].0 in ToMap(inner);
        true
    }

    /** `inner.toFunction()`: the evaluation of the current check map. */
    function ToFunction(): (f: Evaluator)
      reads this
      ensures KeysOf(f()) == KeysOf(inner)
      ensures forall i :: 0 <= i < |inner| ==> f()[i] == (inner[i].0, inner[i].1())
    {
      CheckMapToFunction(inner)
    }
  }
}
