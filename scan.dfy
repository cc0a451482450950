/**
 * The collect-and-skip loop of `ReadJarFile`, stated once for any per-entry
 * dispatcher `part`: both copies of the loop in the repository run it.
 */
module Scan {
  import opened Manifest

  /** One iteration of the loop, on entry `index` whose dispatch gave `outcome`. */
  function Step(sofar: JarResult, outcome: Outcome, index: nat): JarResult
  {
    match sofar
    case Panicked(i) => Panicked(i)
    case Returned(mods, _) =>
      match outcome
      case IndexOutOfRangePanic => Panicked(index)
      case Return(name, err) => if err.Some? then Returned(mods, None) else Returned(mods + [name], None)
  }

  /**
   * The loop over a prefix of the archive, entry by entry in archive order:
   * successes are appended, every error is skipped, and the first panic
   * aborts the scan.
   */
  function Collect(entries: seq<Entry>, part: Entry -> Outcome): (r: JarResult)
    ensures r.Returned? ==> r.err == None && |r.mods| <= |entries|
    ensures r.Panicked? ==> r.at < |entries|
  {
    if entries == [] then Returned([], None)
    else
      var last := |entries| - 1;
      Step(Collect(entries[..last], part), part(entries[last]), last)
  }

  /** An entry whose dispatch returns an identifier and a nil error. */
  predicate Succeeds(e: Entry, part: Entry -> Outcome)
  {
    part(e).Return? && part(e).err.None?
  }

  /** An entry whose dispatch panics. */
  predicate Panics(e: Entry, part: Entry -> Outcome)
  {
    part(e).IndexOutOfRangePanic?
  }

  /** Once the scan has panicked, scanning further entries does not change its result. */
  lemma {:induction false} PanicIsFinal(entries: seq<Entry>, n: nat, part: Entry -> Outcome)
    requires n <= |entries| && Collect(entries[..n], part).Panicked?
    ensures Collect(entries, part) == Collect(entries[..n], part)
    decreases |entries|
  {
    if n < |entries| {
      var last := |entries| - 1;
      assert entries[..last][..n] == entries[..n];
      PanicIsFinal(entries[..last], n, part);
    } else {
      assert entries[..n] == entries;
    }
  }

  /** An entry whose dispatch returns an error leaves the scan's result unchanged. */
  lemma SkipFailure(entries: seq<Entry>, e: Entry, part: Entry -> Outcome)
    requires part(e).Return? && part(e).err.Some?
    ensures Collect(entries + [e], part) == Collect(entries, part)
  {
  }

  /** Two dispatchers that agree on every entry of the archive give the same scan. */
  lemma {:induction false} CollectAgrees(entries: seq<Entry>, part1: Entry -> Outcome, part2: Entry -> Outcome)
    requires forall j :: 0 <= j < |entries| ==> part1(entries[j]) == part2(entries[j])
    ensures Collect(entries, part1) == Collect(entries, part2)
  {
    if entries != [] {
      var last := |entries| - 1;
      assert forall j :: 0 <= j < last ==> entries[..last][j] == entries[j];
      CollectAgrees(entries[..last], part1, part2);
    }
  }

  /**
   * The scan panics exactly when some entry panics, and then at the first
   * such entry.
   */
  lemma {:induction false} CollectPanicsAtFirst(entries: seq<Entry>, part: Entry -> Outcome)
    ensures Collect(entries, part).Panicked? <==> exists j :: 0 <= j < |entries| && Panics(entries[j], part)
    ensures Collect(entries, part).Panicked? ==>
              var at := Collect(entries, part).at;
              Panics(entries[at], part) && forall j :: 0 <= j < at ==> !Panics(entries[j], part)
  {
    if entries != [] {
      var last := |entries| - 1;
      var prefix := entries[..last];
      CollectPanicsAtFirst(prefix, part);
      assert forall j :: 0 <= j < last ==> prefix[j] == entries[j];
      if exists j :: 0 <= j < |entries| && Panics(entries[j], part) {
        var j :| 0 <= j < |entries| && Panics(entries[j], part);
        if j < last {
          assert Panics(prefix[j], part);
        }
      }
    }
  }

  /**
   * A scan that returns gives exactly the identifiers of the entries that
   * succeed, in archive order: `picked` lists the indices of those entries,
   * strictly increasing, and every index missing from it is an entry whose
   * dispatch returned an error.
   */
  lemma {:induction false} CollectKeepsSuccessesInOrder(entries: seq<Entry>, part: Entry -> Outcome)
    returns (picked: seq<nat>)
    requires Collect(entries, part).Returned?
    ensures var mods := Collect(entries, part).mods;
            |picked| == |mods| &&
            forall k :: 0 <= k < |picked| ==>
              picked[k] < |entries| && part(entries[picked[k]]) == Return(mods[k], None)
    ensures forall k, l :: 0 <= k < l < |picked| ==> picked[k] < picked[l]
    ensures forall j :: 0 <= j < |entries| ==> (j in picked <==> Succeeds(entries[j], part))
  {
    if entries == [] {
      picked := [];
    } else {
      var last := |entries| - 1;
      var prefix := entries[..last];
      var prior := CollectKeepsSuccessesInOrder(prefix, part);
      assert forall j :: 0 <= j < last ==> prefix[j] == entries[j];
      if Succeeds(entries[last], part) {
        picked := prior + [last];
      } else {
        picked := prior;
      }
    }
  }
}
