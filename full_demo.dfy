/** sbsa_full_demo.py: the slot registry with `map_file`/`map_task`, the unchecked
    bucketed store `SBSA`, the re-sorting baseline `SimulatedLogN`, and the two
    benchmark insertion loops. */
module FullDemo {
  import opened Wrappers
  import opened LexOrder
  import opened BucketSpec

  /** The module-level label list the slot map is built from. */
  const SizeClasses: seq<string> :=
    ["1KB", "2KB", "4KB", "8KB", "16KB", "32KB", "Low", "Medium", "High", "Critical"]

  /** The label list the demo's benchmark draws its workload from. */
  const BenchmarkSizeClasses: seq<string> := ["1K", "2K", "4K", "8K", "16K", "32K"]

  /** `{s: i for i, s in enumerate(classes)}`: its keys are exactly the labels. */
  function BuildSlots(classes: seq<string>): (slots: map<string, int>)
    ensures slots.Keys == set c | c in classes
  {
    if classes == [] then map[]
    else
      var n := |classes| - 1;
      BuildSlots(classes[..n])[classes[n] := n]
  }

  /** Each label's slot is a position holding that label; when a label repeats, the
      later position overwrites the earlier one, so the slot is its last position. */
  lemma {:induction false} SlotsAtLastPosition(classes: seq<string>)
    ensures forall c :: c in BuildSlots(classes) ==>
              0 <= BuildSlots(classes)[c] < |classes| && classes[BuildSlots(classes)[c]] == c
    ensures forall c :: c in BuildSlots(classes) ==>
              forall j :: BuildSlots(classes)[c] < j < |classes| ==> classes[j] != c
  {
    if classes != [] {
      var n := |classes| - 1;
      var init := classes[..n];
      SlotsAtLastPosition(init);
      assert forall j :: 0 <= j < n ==> classes[j] == init[j];
    }
  }

  /** With no repeated label, the slot map is a bijection between the labels and
      the positions `0 .. |classes|`. */
  lemma SlotsArePositions(classes: seq<string>)
    requires NoDuplicates(classes)
    ensures forall i :: 0 <= i < |classes| ==> BuildSlots(classes)[classes[i]] == i
    ensures forall a, b :: a in BuildSlots(classes) && b in BuildSlots(classes) && a != b
              ==> BuildSlots(classes)[a] != BuildSlots(classes)[b]
  {
    var slots := BuildSlots(classes);
    SlotsAtLastPosition(classes);
    forall i | 0 <= i < |classes| ensures slots[classes[i]] == i {
      var k := slots[classes[i]];
      assert classes[k] == classes[i];
    }
  }

  /** `map_file`: look the size class up with `-1` as the default and raise when the
      lookup gave `-1`; otherwise pass both attributes through beside the slot. */
  function MapFile<A, B>(classes: seq<string>, sizeClass: string, thickness: A, width: B): (r: Result<(int, A, B)>)
    ensures r.Ok? <==> sizeClass in classes
    ensures r.Ok? ==> 0 <= r.value.0 < |classes| && classes[r.value.0] == sizeClass
    ensures r.Ok? ==> r.value.0 == BuildSlots(classes)[sizeClass]
    ensures r.Ok? ==> r.value.1 == thickness && r.value.2 == width
    ensures r.Err? ==> r.error == ValueError("Invalid size class")
  {
    SlotsAtLastPosition(classes);
    var slots := BuildSlots(classes);
    var slot := if sizeClass in slots then slots[sizeClass] else -1;
    if slot == -1 then Err(ValueError("Invalid size class"))
    else Ok((slot, thickness, width))
  }

  /** `map_task`: test membership first, then look up. It raises for the same labels
      as `MapFile` and otherwise returns the same record; only the message differs. */
  function MapTask<A, B>(classes: seq<string>, priority: string, layer: A, duration: B): (r: Result<(int, A, B)>)
    ensures r.Ok? <==> MapFile(classes, priority, layer, duration).Ok?
    ensures r.Ok? ==> r == MapFile(classes, priority, layer, duration)
    ensures r.Err? ==> r.error == ValueError("Invalid priority class")
  {
    var slots := BuildSlots(classes);
    if priority !in slots then Err(ValueError("Invalid priority class"))
    else Ok((slots[priority], layer, duration))
  }

  lemma SizeClassesAt()
    ensures |SizeClasses| == 10
    ensures SizeClasses[0] == "1KB" && SizeClasses[1] == "2KB" && SizeClasses[2] == "4KB"
    ensures SizeClasses[3] == "8KB" && SizeClasses[4] == "16KB" && SizeClasses[5] == "32KB"
    ensures SizeClasses[6] == "Low" && SizeClasses[7] == "Medium"
    ensures SizeClasses[8] == "High" && SizeClasses[9] == "Critical"
  {
  }

  /** The module's label list has no repeated label. */
  lemma SizeClassesDistinct()
    ensures NoDuplicates(SizeClasses)
  {
    SizeClassesAt();
    forall i, j | 0 <= i < j < |SizeClasses| ensures SizeClasses[i] != SizeClasses[j] {
      assert (SizeClasses[i][0], SizeClasses[i][1]) != (SizeClasses[j][0], SizeClasses[j][1]);
    }
  }

  /** Each of the module's labels has its own position as its slot. */
  lemma SizeClassSlotIsPosition(i: int)
    requires 0 <= i < |SizeClasses|
    ensures BuildSlots(SizeClasses)[SizeClasses[i]] == i
  {
    SizeClassesDistinct();
    SlotsArePositions(SizeClasses);
  }

  /** The benchmark's label list has no repeated label. */
  lemma BenchmarkSizeClassesDistinct()
    ensures NoDuplicates(BenchmarkSizeClasses)
  {
    forall i, j | 0 <= i < j < |BenchmarkSizeClasses|
      ensures BenchmarkSizeClasses[i] != BenchmarkSizeClasses[j]
    {
      assert BenchmarkSizeClasses[i][0] != BenchmarkSizeClasses[j][0]
          || |BenchmarkSizeClasses[i]| != |BenchmarkSizeClasses[j]|;
    }
  }

  /** The slots of the module's labels: `'Low'` is 6, `'Medium'` 7, `'Critical'` 9. */
  lemma SizeClassSlots()
    ensures BuildSlots(SizeClasses)["1KB"] == 0
    ensures BuildSlots(SizeClasses)["Low"] == 6
    ensures BuildSlots(SizeClasses)["Medium"] == 7
    ensures BuildSlots(SizeClasses)["High"] == 8
    ensures BuildSlots(SizeClasses)["Critical"] == 9
  {
    SizeClassesAt();
    SizeClassSlotIsPosition(0);
    SizeClassSlotIsPosition(6);
    SizeClassSlotIsPosition(7);
    SizeClassSlotIsPosition(8);
    SizeClassSlotIsPosition(9);
  }

  /** The task manager demo's five tasks, classified against the module's label list. */
  lemma TaskManagerMapping()
    ensures MapTask(SizeClasses, "Low", 0, 0.5) == Ok((6, 0, 0.5))
    ensures MapTask(SizeClasses, "Medium", 1, 1.0) == Ok((7, 1, 1.0))
    ensures MapTask(SizeClasses, "High", 0, 2.0) == Ok((8, 0, 2.0))
    ensures MapTask(SizeClasses, "Critical", 0, 4.5) == Ok((9, 0, 4.5))
    ensures MapTask(SizeClasses, "Critical", 1, 1.5) == Ok((9, 1, 1.5))
  {
    SizeClassSlots();
    assert SizeClasses[6] == "Low" && SizeClasses[7] == "Medium";
    assert SizeClasses[8] == "High" && SizeClasses[9] == "Critical";
  }

  /** A label outside the list is refused by both classifiers. */
  lemma UnknownLabelRejected()
    ensures MapFile(SizeClasses, "Unknown", 0, 0.0) == Err(ValueError("Invalid size class"))
    ensures MapTask(SizeClasses, "Unknown", 0, 0.0) == Err(ValueError("Invalid priority class"))
  {
    assert "Unknown" !in SizeClasses by {
      forall i | 0 <= i < |SizeClasses| ensures SizeClasses[i] != "Unknown" {
        assert SizeClasses[i][0] != 'U';
      }
    }
  }

  /** `SBSA`: one list of file ids per size class. `insert` does not check the label;
      for an unknown one the dictionary lookup raises `KeyError`. */
  class SBSA {
    var slots: map<string, seq<string>>

    constructor (sizeClasses: seq<string>)
      ensures slots == map c | c in sizeClasses :: []
    {
      slots := map c | c in sizeClasses :: [];
    }

    method Insert(sizeClass: string, fileId: string) returns (outcome: Outcome)
      modifies this
      ensures outcome == if sizeClass in old(slots) then Pass else Fail(KeyError(sizeClass))
      ensures slots.Keys == old(slots.Keys)
      ensures sizeClass in old(slots) ==> slots[sizeClass] == old(slots)[sizeClass] + [fileId]
      ensures forall c :: c in old(slots) && c != sizeClass ==> slots[c] == old(slots)[c]
    {
      if sizeClass !in slots {
        return Fail(KeyError(sizeClass));
      }
      slots := slots[sizeClass := slots[sizeClass] + [fileId]];
      return Pass;
    }
  }

  /** `SimulatedLogN`: a list that is appended to and then fully re-sorted on every insert. */
  class SimulatedLogN {
    var data: seq<string>

    constructor ()
      ensures data == []
    {
      data := [];
    }

    method Insert(value: string)
      modifies this
      ensures Sorted(data)
      ensures multiset(data) == multiset(old(data)) + multiset{value}
      ensures |data| == |old(data)| + 1
      ensures Sorted(old(data)) ==> data == InsertOrdered(old(data), value)
    {
      data := data + [value];
      data := Sort(data);
      if Sorted(old(data)) {
        SortedPermutationUnique(data, InsertOrdered(old(data), value));
      }
    }
  }

  /** `benchmark_sbsa`: insert every pair into a fresh store. The store it builds is
      returned so that its final state can be stated; on the first unknown class the
      `KeyError` ends the loop. */
  method BenchmarkSbsa(sizeClasses: seq<string>, files: seq<FileEvent>) returns (sbsa: SBSA, outcome: Outcome)
    ensures fresh(sbsa)
    ensures outcome.Pass? <==> forall i :: 0 <= i < |files| ==> files[i].0 in sizeClasses
    ensures outcome.Fail? ==> outcome == Fail(KeyError(files[ValidPrefix(sizeClasses, files)].0))
    ensures sbsa.slots == Buckets(sizeClasses, files[..ValidPrefix(sizeClasses, files)])
    ensures outcome.Pass? && NoDuplicates(sizeClasses) ==> TotalSize(sbsa.slots, sizeClasses) == |files|
  {
    sbsa := new SBSA(sizeClasses);
    EmptyWorkload(sizeClasses);
    for i := 0 to |files|
      invariant forall k :: 0 <= k < i ==> files[k].0 in sizeClasses
      invariant sbsa.slots == Buckets(sizeClasses, files[..i])
    {
      var (size, fid) := files[i];
      outcome := sbsa.Insert(size, fid);
      if outcome.Fail? {
        assert ValidPrefix(sizeClasses, files) == i;
        return;
      }
      BucketsSnoc(sizeClasses, files[..i], files[i]);
      assert files[..i + 1] == files[..i] + [files[i]];
    }
    outcome := Pass;
    assert files[..|files|] == files;
    if NoDuplicates(sizeClasses) {
      BucketsTotal(sizeClasses, files);
    }
  }

  /** `benchmark_logn`: insert every id into a fresh `SimulatedLogN`, which ends as the
      sorted permutation of all ids. */
  method BenchmarkLogn(files: seq<FileEvent>) returns (tree: SimulatedLogN)
    ensures fresh(tree)
    ensures Sorted(tree.data)
    ensures multiset(tree.data) == multiset(Ids(files))
    ensures tree.data == Sort(Ids(files))
  {
    tree := new SimulatedLogN();
    for i := 0 to |files|
      invariant Sorted(tree.data)
      invariant multiset(tree.data) == multiset(Ids(files[..i]))
    {
      var (_, fid) := files[i];
      tree.Insert(fid);
      assert Ids(files[..i + 1]) == Ids(files[..i]) + [fid];
    }
    assert files[..|files|] == files;
    SortedPermutationUnique(tree.data, Sort(Ids(files)));
  }

  /** `run_benchmark`, without the clock: the same workload drives both structures.
      The workload is drawn from `SIZE_CLASSES`, so the store never raises. */
  method RunBenchmark(numFiles: nat, files: seq<FileEvent>) returns (sbsa: SBSA, tree: SimulatedLogN, outcome: Outcome)
    requires |files| == numFiles
    requires forall i :: 0 <= i < |files| ==> files[i].0 in BenchmarkSizeClasses
    ensures outcome == Pass
    ensures sbsa.slots == Buckets(BenchmarkSizeClasses, files)
    ensures TotalSize(sbsa.slots, BenchmarkSizeClasses) == numFiles
    ensures tree.data == Sort(Ids(files)) && |tree.data| == numFiles
  {
    sbsa, outcome := BenchmarkSbsa(BenchmarkSizeClasses, files);
    BenchmarkSizeClassesDistinct();
    assert files[..ValidPrefix(BenchmarkSizeClasses, files)] == files;
    tree := BenchmarkLogn(files);
  }
}
