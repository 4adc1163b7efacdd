# SBSA slot assignment and its sorted-list baseline, in Dafny

This project models the core of the SBSA ("Slot-Based Size/Attribute assignment") demo:

- The slot registry. A fixed, ordered list of labels becomes a label → position map. `map_file` and `map_task` classify an item by its label into `(slot, attribute, attribute)`. An unknown label raises `ValueError`.
- The bucketed store `SBSA`. It keeps one list of file ids per label, created empty. `insert` appends an id to the list of its label. In `sbsa_full_demo.py` this insert is unchecked, so an unknown label raises `KeyError`. In `speed_test.py` it checks first and raises `ValueError`.
- The baseline `SimulatedLogN`. It appends each value and then re-sorts the whole list.
- The benchmark loops. They feed a workload of `(size class, file id)` pairs into each structure.

## Layout

- `wrappers.dfy` (`Wrappers`) defines Python's two exceptions as an `Error` value, plus `Result` and `Outcome`.
- `lex_order.dfy` (`LexOrder`) covers Python's ordering of `str` values, proved to be a total order. It also defines `Sorted`, a sorted insert and a sort. Finally it proves that a sorted permutation is unique, so any correct sort, `list.sort` included, yields `Sort(s)`.
- `bucket_spec.dfy` (`BucketSpec`) gives what the buckets should hold after a workload: the in-order filter of the workload by class. It also states where the first unknown class occurs, and that the bucket sizes add up to the workload length.
- `full_demo.dfy` (`FullDemo`) models `sbsa_full_demo.py`. The slot map and the two classifiers are functions. `SBSA` and `SimulatedLogN` are classes whose methods update their fields. The benchmark loops are methods with loop invariants.
- `speed_test.dfy` (`SpeedTest`) models `speed_test.py`. Its `SBSA` validates labels and stores its label list. Its `SimulatedLogN` matches the demo's. It also holds the two benchmark loops and the script's run.

Design choices:

- The module-level label lists are passed as parameters; they are not globals. `size_classes` and `SIZE_CLASSES` remain as constants for the concrete lemmas.
- The random workload is an arbitrary input sequence `files`.
- The benchmark methods return the structure they fill, so its final state can be stated. Python discards it.
- On an unknown label the demo's `insert` raises `KeyError`. The model returns `Fail(KeyError(label))` rather than requiring a valid label. A stream of inserts then stops at the first unknown class, and the store holds the buckets of the prefix before it (`ValidPrefix`).
- Labels differ between the repository's files. The Task Manager example (`Task Manager Example/sbsa_core.py:4`) uses the four-label list `Low, Medium, High, Critical`, where `Critical` is slot 3. The demo's list (sbsa_full_demo.py:13) has ten labels, and there `Critical` is slot 9. The model's concrete lemmas use the demo's list.
- The classifiers raise `ValueError` with two different messages. The demo's store raises a bare `KeyError`, and the speed test's store raises `ValueError`.

## Model

| member | source | states |
|---|---|---|
| FullDemo.BuildSlots | sbsa_full_demo.py:13-14 | the slot map's keys are exactly the labels of the list |
| FullDemo.SlotsAtLastPosition | sbsa_full_demo.py:13-14 | each label maps to a position in `[0, n)` that holds that label, and no later position holds it (with a repeated label, the later position wins), so every slot is at least 0 |
| FullDemo.SlotsArePositions | sbsa_full_demo.py:13-14 | when labels are unique, each label's slot is its own position, and distinct labels get distinct slots |
| FullDemo.BenchmarkSizeClassesDistinct | sbsa_full_demo.py:104 | the benchmark's six labels are pairwise distinct |
| FullDemo.SizeClassesDistinct | sbsa_full_demo.py:13 | the module's ten labels are pairwise distinct |
| FullDemo.SizeClassSlots | sbsa_full_demo.py:13-14 | with the module's list, `1KB` is slot 0, `Low` 6, `Medium` 7, `High` 8 and `Critical` 9 |
| FullDemo.MapFile | sbsa_full_demo.py:16-20 | succeeds exactly for labels in the list, so the `-1` default never collides with a real slot; on success the slot is a position holding the label and both attributes pass through unchanged; otherwise it raises `ValueError("Invalid size class")` |
| FullDemo.MapTask | sbsa_full_demo.py:22-25 | raises for exactly the labels `MapFile` raises for, with `ValueError("Invalid priority class")`, and otherwise returns the same record as `MapFile` |
| FullDemo.TaskManagerMapping | sbsa_full_demo.py:30-40 | the five demo tasks map to `(6,0,0.5)`, `(7,1,1.0)`, `(8,0,2.0)`, `(9,0,4.5)` and `(9,1,1.5)` |
| FullDemo.UnknownLabelRejected | sbsa_full_demo.py:16-25 | an unknown label is refused by both `map_file` and `map_task`, each with its own message |
| FullDemo.SBSA.constructor | sbsa_full_demo.py:46-47 | one empty bucket per label and no other bucket |
| FullDemo.SBSA.Insert | sbsa_full_demo.py:49-50 | for a known label, appends the id to that bucket only; every other bucket and the key set are unchanged; an unknown label raises `KeyError` and changes nothing |
| FullDemo.SimulatedLogN.constructor | sbsa_full_demo.py:53-54 | starts with an empty list |
| FullDemo.SimulatedLogN.Insert | sbsa_full_demo.py:56-58 | afterwards the list is sorted, its multiset gains exactly one copy of the value, and its length grows by one; from a sorted list, the result equals inserting the value in order |
| FullDemo.BenchmarkSbsa | sbsa_full_demo.py:60-63 | succeeds exactly when every class is a label, and otherwise raises `KeyError` naming the first unknown class; each bucket holds, in input order, the ids of its class from the items before the first unknown class; with distinct labels and no failure, the bucket sizes sum to the workload length |
| FullDemo.BenchmarkLogn | sbsa_full_demo.py:65-68 | the list ends sorted and is a permutation of all ids, and so equals `Sort` of the ids |
| FullDemo.RunBenchmark | sbsa_full_demo.py:70-73 | when every class is drawn from `SIZE_CLASSES`, the store never raises, the store holds every item in its class's bucket, with `num_files` ids in all, and the baseline holds all ids sorted |
| SpeedTest.SBSA.constructor | speed_test.py:10-12 | one empty bucket per label, the label list stored, and the one-bucket-per-label invariant holds |
| SpeedTest.SBSA.Insert | speed_test.py:14-17 | with one bucket per stored label, the insert raises exactly for a label outside the stored list; an unknown label raises `ValueError("Invalid size class")` and leaves the buckets unchanged; a known label appends the id to its bucket only; the key set and the stored labels never change |
| SpeedTest.SimulatedLogN.constructor | speed_test.py:23-24 | starts with an empty list |
| SpeedTest.SimulatedLogN.Insert | speed_test.py:26-29 | afterwards the list is sorted and holds exactly one more copy of the value; the discarded `log2` call has no effect |
| SpeedTest.BenchmarkSbsa | speed_test.py:42-45 | never raises exactly when every class is a label; each bucket is the in-order filter of the workload by its class, up to the first unknown class; with distinct labels the bucket sizes sum to the workload length |
| SpeedTest.BenchmarkLogn | speed_test.py:50-53 | the list ends as the sorted permutation of all file ids |
| SpeedTest.SizeClassesDistinct | speed_test.py:35 | `SIZE_CLASSES` has no repeated label |
| SpeedTest.Run | speed_test.py:34-53 | a `NUM_FILES`-item workload drawn from `SIZE_CLASSES` never makes the store raise; the buckets total `NUM_FILES` ids; the baseline holds all `NUM_FILES` ids sorted |
| LexOrder.LexLe | speed_test.py:29 | Python's `<=` on `str`: a prefix comes no later than the string it begins, and when neither string is empty, the first characters are in order |
| LexOrder.LexLeTotal | speed_test.py:29 | any two ids are comparable under Python's string order |
| LexOrder.LexLeTransitive | speed_test.py:29 | Python's string order is transitive |
| LexOrder.LexLeAntisymmetric | speed_test.py:29 | two ids ordered both ways are equal |
| LexOrder.InsertOrdered | sbsa_full_demo.py:57-58 | placing a value into a sorted list keeps it sorted and adds exactly that value to its multiset |
| LexOrder.Sort | sbsa_full_demo.py:58 | the result is sorted and is a permutation of the input |
| LexOrder.SortedPermutationUnique | speed_test.py:29 | two sorted lists with the same multiset are equal, so the list after `sort()` does not depend on the sort algorithm |
| BucketSpec.ValidPrefix | speed_test.py:44-45 | the length of the longest prefix whose classes are all labels; the item just after it has an unknown class |
| BucketSpec.BucketsSnoc | speed_test.py:17 | appending one item of a known class extends that class's bucket by its id and leaves every other bucket as it was |
| BucketSpec.BucketsTotal | speed_test.py:42-45 | when every class is one of the distinct labels, the bucket sizes sum to the number of items |
| BucketSpec.FilterMembership | sbsa_full_demo.py:62-63 | an id is in a class's bucket exactly when some item of that class carries it: buckets gain no foreign ids and lose none of their own |
| BucketSpec.FilterOfOneClass | sbsa_full_demo.py:49-50 | items inserted in order under one class fill that bucket with exactly their ids in that order, and no other bucket |

## Left out

- Wall-clock timing with `timeit`, the printed times, and the `logn_time / sbsa_time` speedup (sbsa_full_demo.py:72-76, speed_test.py:58-66). These are non-deterministic floating-point measurements.
- Random workload generation with `random.choice` (sbsa_full_demo.py:71, speed_test.py:37). The workload is an arbitrary input sequence. The run methods take as a premise that every class is drawn from `SIZE_CLASSES` and that there are `num_files` items.
- The shape of the generated ids (`file_0`, `file_1`, ...). Ids are arbitrary strings.
- The `math.log2` call in speed_test.py:27. Its result is discarded, so it cannot affect the list.
- The algorithm behind Python's `list.sort`. The model sorts with a verified insertion sort over the whole list, so every insert is still a full re-sort. `SortedPermutationUnique` shows that the resulting list is the same for any correct sort.
- Printing: `simulate_task_manager` output and the demo's banners. The task list itself is checked by `TaskManagerMapping`.
- Plotting: `plot_growth_chart` and sbsa_vs_logn_chart.py. These are matplotlib and numpy floating-point code.
- In `sbsa_full_demo.py`, `SIZE_CLASSES` is bound only under `__main__` (line 104). Calling `benchmark_sbsa` from an importing module would raise `NameError`. The model passes the label list as a parameter instead.
- FullDemo.RunBenchmark: the default `num_files=10000` of `run_benchmark` is not modelled; the caller always passes `numFiles` and a workload of that length.
- Python's dynamic typing. Labels and ids are strings, and the two classifier attributes are generic type parameters, passed through untouched.
- FullDemo.BenchmarkSbsa: the bucket-size total is stated only when the labels are distinct. With a repeated label, the sum over the label list would count a bucket twice. The Python dictionary holds that bucket once.
- SpeedTest.BenchmarkSbsa: the bucket-size total is stated only when the labels are distinct, for the same reason.
