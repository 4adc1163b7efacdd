/** speed_test.py: the validating bucketed store `SBSA`, the re-sorting baseline
    `SimulatedLogN`, and the two benchmark loops over the module-level workload. */
module SpeedTest {
  import opened Wrappers
  import opened LexOrder
  import opened BucketSpec

  /** `NUM_FILES`: the size of the benchmark workload. */
  const NumFiles: nat := 100_000

  /** `SIZE_CLASSES`: the labels the workload's classes are drawn from. */
  const SizeClasses: seq<string> := ["1K", "2K", "4K", "8K", "16K", "32K"]

  /** `SBSA`: one list of file ids per size class, plus the label list it was built
      from. `insert` refuses an unknown label with `ValueError`. */
  class SBSA {
    var slots: map<string, seq<string>>
    var sizeClasses: seq<string>

    /** One bucket for each label and no other. */
    ghost predicate Valid()
      reads this
    {
      slots.Keys == set c | c in sizeClasses
    }

    constructor (sizeClasses: seq<string>)
      ensures Valid()
      ensures this.sizeClasses == sizeClasses
      ensures slots == map c | c in sizeClasses :: []
    {
      slots := map c | c in sizeClasses :: [];
      this.sizeClasses := sizeClasses;
    }

    method Insert(sizeClass: string, fileId: string) returns (outcome: Outcome)
      requires Valid()
      modifies this
      ensures Valid()
      ensures outcome == if sizeClass in sizeClasses then Pass else Fail(ValueError("Invalid size class"))
      ensures slots.Keys == old(slots.Keys) && sizeClasses == old(sizeClasses)
      ensures outcome.Fail? ==> slots == old(slots)
      ensures sizeClass in old(slots) ==> slots[sizeClass] == old(slots)[sizeClass] + [fileId]
      ensures forall c :: c in old(slots) && c != sizeClass ==> slots[c] == old(slots)[c]
    {
      if sizeClass !in slots {
        return Fail(ValueError("Invalid size class"));
      }
      slots := slots[sizeClass := slots[sizeClass] + [fileId]];
      return Pass;
    }
  }

  /** `SimulatedLogN`: appended to and fully re-sorted on every insert. The `log2` call
      before the append has no effect. */
  class SimulatedLogN {
    var data: seq<string>

    constructor ()
      ensures data == []
    {
      data := [];
    }

    method Insert(value: string)
      modifies this
      ensures Sorted(data)
      ensures multiset(data) == multiset(old(data)) + multiset{value}
      ensures |data| == |old(data)| + 1
      ensures Sorted(old(data)) ==> data == InsertOrdered(old(data), value)
    {
      data := data + [value];
      data := Sort(data);
      if Sorted(old(data)) {
        SortedPermutationUnique(data, InsertOrdered(old(data), value));
      }
    }
  }

  /** `benchmark_sbsa` over the workload `files` and the labels `sizeClasses`; the store
      it builds is returned. It raises exactly when some class is not a label, at the
      first such item. */
  method BenchmarkSbsa(sizeClasses: seq<string>, files: seq<FileEvent>) returns (sbsa: SBSA, outcome: Outcome)
    ensures fresh(sbsa) && sbsa.Valid() && sbsa.sizeClasses == sizeClasses
    ensures outcome.Pass? <==> forall i :: 0 <= i < |files| ==> files[i].0 in sizeClasses
    ensures outcome.Fail? ==> outcome == Fail(ValueError("Invalid size class"))
                              && files[ValidPrefix(sizeClasses, files)].0 !in sizeClasses
    ensures sbsa.slots == Buckets(sizeClasses, files[..ValidPrefix(sizeClasses, files)])
    ensures outcome.Pass? && NoDuplicates(sizeClasses) ==> TotalSize(sbsa.slots, sizeClasses) == |files|
  {
    sbsa := new SBSA(sizeClasses);
    EmptyWorkload(sizeClasses);
    for i := 0 to |files|
      invariant sbsa.Valid() && sbsa.sizeClasses == sizeClasses
      invariant forall k :: 0 <= k < i ==> files[k].0 in sizeClasses
      invariant sbsa.slots == Buckets(sizeClasses, files[..i])
    {
      var (size, fid) := files[i];
      outcome := sbsa.Insert(size, fid);
      if outcome.Fail? {
        assert ValidPrefix(sizeClasses, files) == i;
        return;
      }
      BucketsSnoc(sizeClasses, files[..i], files[i]);
      assert files[..i + 1] == files[..i] + [files[i]];
    }
    outcome := Pass;
    assert files[..|files|] == files;
    if NoDuplicates(sizeClasses) {
      BucketsTotal(sizeClasses, files);
    }
  }

  /** `benchmark_logn`: every id goes through a fresh `SimulatedLogN`, which ends as the
      sorted permutation of all ids. */
  method BenchmarkLogn(files: seq<FileEvent>) returns (tree: SimulatedLogN)
    ensures fresh(tree)
    ensures Sorted(tree.data)
    ensures multiset(tree.data) == multiset(Ids(files))
    ensures tree.data == Sort(Ids(files))
  {
    tree := new SimulatedLogN();
    for i := 0 to |files|
      invariant Sorted(tree.data)
      invariant multiset(tree.data) == multiset(Ids(files[..i]))
    {
      var (_, fid) := files[i];
      tree.Insert(fid);
      assert Ids(files[..i + 1]) == Ids(files[..i]) + [fid];
    }
    assert files[..|files|] == files;
    SortedPermutationUnique(tree.data, Sort(Ids(files)));
  }

  /** `SIZE_CLASSES` has no repeated label. */
  lemma SizeClassesDistinct()
    ensures NoDuplicates(SizeClasses)
  {
    forall i, j | 0 <= i < j < |SizeClasses| ensures SizeClasses[i] != SizeClasses[j] {
      assert SizeClasses[i][0] != SizeClasses[j][0] || |SizeClasses[i]| != |SizeClasses[j]|;
    }
  }

  /** The script's run, without the clock: a workload of `NUM_FILES` items whose classes
      are drawn from `SIZE_CLASSES` drives both structures. The store never raises and
      holds `NUM_FILES` ids in all; the baseline ends sorted and holds every id. */
  method Run(files: seq<FileEvent>) returns (sbsa: SBSA, tree: SimulatedLogN, outcome: Outcome)
    requires |files| == NumFiles
    requires forall i :: 0 <= i < |files| ==> files[i].0 in SizeClasses
    ensures outcome == Pass
    ensures sbsa.Valid() && sbsa.slots == Buckets(SizeClasses, files)
    ensures TotalSize(sbsa.slots, SizeClasses) == NumFiles
    ensures tree.data == Sort(Ids(files)) && |tree.data| == NumFiles
  {
    sbsa, outcome := BenchmarkSbsa(SizeClasses, files);
    SizeClassesDistinct();
    assert files[..ValidPrefix(SizeClasses, files)] == files;
    tree := BenchmarkLogn(files);
  }
}
