# Bond store and kernel autotuner of HOOMD

This project models two sequential parts of the HOOMD molecular-dynamics
library and proves properties of them in Dafny.

**The bond store (`BondData`).** Every bond between two particles is kept in
three index-aligned dense lists: the particle pair, the bond type and the bond
tag. The tag is a stable identifier. A reverse-lookup table maps each tag to
its dense index, or to the sentinel `NO_BOND` (0xffffffff) when the tag is not
in use. Deleted tags go on a stack and are reissued from its top.

The number of bond types is fixed at construction, and every type has a name.
A dirty flag records that the per-particle bond table used by the GPU is
stale. That table has one column per particle, listing the partner and type of
each of the particle's bonds, plus a count array.

The model is the class `BondStore.BondData`. Its invariant `Valid()` rests on
`TagIndex.TagIndexValid`:
- tags and reverse table are inverse on live tags;
- every other tag maps to `NO_BOND`;
- the stack holds exactly the unused tags, each once.

On top of that invariant:
- adding, removing, looking up by tag and snapshot import/export are stated
  against it;
- every lookup other than the one touched is proved unchanged;
- the GPU table is proved to list every bond in the column of both of its
  particles (`BondTable.IsBondTable`).

**The autotuner (`Autotuner`).** The autotuner picks, among a list of launch
parameters, the one whose kernel runs fastest.
1. After construction it is in start-up. It times every parameter `nsamples`
   times, with `nsamples` forced odd.
2. It then computes the median time of each parameter (the element of rank
   n/2, as `nth_element` places it). The parameter with the smallest median,
   lowest index on a tie, becomes current.
3. It then rests for `period` calls and starts a scan at the next one. The
   scan times every parameter once more into the current sample slot; the
   tuner then recomputes, advances the slot modulo `nsamples` and rests again.

The model is split in two:
- **The schedule.** `TunerSchedule.Step` is a pure function of the counters.
  Lemmas about it give the length of start-up, of the idle period and of a
  scan.
- **The class.** `Tuning.Autotuner.End` is proved to advance its counter
  fields by exactly one `Step`. It records the timing and keeps the tuned
  state as its invariant `Valid()`:
  - every median is a true median of its samples;
  - while resting, the current parameter is the one at the lowest argmin of
    the medians.

The medians come from an in-place selection on a copied array
(`OrderStatistics.NthElement`). It is proved to be a permutation that
partitions around position n. Counting below a value is proved invariant
under permutation, which makes the selected element an order statistic of the
original samples.

Integer widths are explicit where they matter. In the unsigned 32-bit
arithmetic of the range constructor:
- the parameter count `(end - start) / step + 1` wraps;
- the parameter values wrap on each addition.

The idle-call counter also wraps at 2^32. As a consequence, `period =
0xffffffff` never triggers a scan (`TunerSchedule.IdleThenScan`).

Several behaviours of the bond store are the model's own decisions, grounded
in the header:
- **Tag reuse.** `m_deleted_tags` is a `std::stack` (BondData.h:251), so
  `AddBond` reissues its top, the most recently deleted tag.
- **Type names.** `setBondTypeMapping` (BondData.h:187) declares no emptiness
  condition, so the model replaces the names whenever their count matches the
  fixed number of bond types.
- **Snapshot import validation.** `initializeFromSnapshot` (BondData.h:233) is
  refused when the lists disagree in length, or when a type or particle is out
  of range. Those are the conditions the header's index-aligned storage and
  the per-particle table need.
- **Particle range on add.** `addBond` (BondData.h:148) refuses a bond whose
  particles are out of range, because the per-particle table needs them in
  range.

## Model

| member | source | states |
|---|---|---|
| TagIndex.SwapRemove | libhoomd/data_structures/BondData.h:248-250 | removal by compaction: one element shorter, every other slot kept, the last element moved into the freed slot |
| TagIndex.SwapRemoveMultiset | libhoomd/data_structures/BondData.h:248-250 | compaction loses exactly the removed element: the multiset drops one occurrence of it and keeps the rest |
| TagIndex.LiveTagCount | libhoomd/data_structures/BondData.h:156-159 | under the tag invariant the number of live tags equals the number of stored bonds |
| TagIndex.IdentityIndexValid | libhoomd/data_structures/BondData.h:232-233 | after a bulk import (bond i has tag i, nothing deleted) the tag invariant holds |
| TagIndex.IssueFreshPreserves | libhoomd/data_structures/BondData.h:147-148 | issuing the never-used tag \|rtag\| for a bond appended at the end keeps the tag invariant |
| TagIndex.IssueRecycledPreserves | libhoomd/data_structures/BondData.h:147-148 | reissuing the top of the deleted-tag stack for an appended bond, and popping it, keeps the tag invariant |
| TagIndex.ReleasePreserves | libhoomd/data_structures/BondData.h:150-151 | removing a live tag by compaction, mapping it to NO_BOND, retargeting the moved tag and pushing the removed tag on the stack keeps the tag invariant |
| BondTable.ColumnLength | libhoomd/data_structures/BondData.h:128-131 | a particle's column has as many entries as the particle has bond endpoints |
| BondTable.ColumnListsBond | libhoomd/data_structures/BondData.h:128-131 | every bond is listed, with its type, in the column of each of its two particles, naming the other particle as partner |
| BondTable.ColumnEntriesAreBonds | libhoomd/data_structures/BondData.h:128-131 | every entry of a column comes from a bond of that particle with that partner and type |
| BondTable.DegreeSum | libhoomd/data_structures/BondData.h:267-268 | the per-particle counts add up to twice the number of bonds |
| BondTable.CountBonds | libhoomd/data_structures/BondData.h:268 | counts each particle's bonds; the height is the largest count |
| BondTable.FillColumns | libhoomd/data_structures/BondData.h:267 | builds every particle's column of (partner, type) entries in dense bond order |
| BondTable.BuildBondTable | libhoomd/data_structures/BondData.h:277-280 | the table and counts built are the bond table of the bonds: one column per particle, padded to the largest count, with true counts |
| BondStore.NewSnapshot | libhoomd/data_structures/BondData.h:116-125 | a snapshot for n bonds has n type ids and n pairs, index-aligned |
| BondStore.FindName | libhoomd/data_structures/BondData.h:189-190 | the first position of a name, or none exactly when the name is absent |
| BondStore.CheckSnapshot | libhoomd/data_structures/BondData.h:232-233 | passes exactly when the snapshot fits the store; reports a size mismatch exactly when the lengths disagree, and otherwise the error of the first bond out of range, a bad particle taking precedence over a bad type as in AddBond |
| BondStore.AddKeepsLookup | libhoomd/data_structures/BondData.h:147-148 | appending a bond under a new tag leaves every other tag's lookup as it was |
| BondStore.RemoveKeepsLookup | libhoomd/data_structures/BondData.h:150-151 | compaction on removal leaves every other tag's lookup as it was |
| BondStore.BondData.constructor | libhoomd/data_structures/BondData.h:141-142 | an empty, valid store with the given type and particle counts, marked dirty |
| BondStore.BondData.GetNumBonds | libhoomd/data_structures/BondData.h:156-159 | the length of the dense bond list, which is also the number of live tags |
| BondStore.BondData.GetBond | libhoomd/data_structures/BondData.h:164-170 | slot i's type and pair as stored, for i below both list lengths; type and particles in range |
| BondStore.BondData.GetNBondTypes | libhoomd/data_structures/BondData.h:181-184 | the fixed number of types: every stored type lies below it and it equals the number of type names |
| BondStore.BondData.GetBondByTag | libhoomd/data_structures/BondData.h:172-173 | found exactly when some dense slot carries the tag, and then it is that slot's bond; otherwise NotFound |
| BondStore.BondData.GetBondTag | libhoomd/data_structures/BondData.h:175-176 | the tag of slot id for id below the bond count, a live tag that resolves back to that slot's bond; otherwise IndexOutOfRange |
| BondStore.BondData.SetDirty | libhoomd/data_structures/BondData.h:258-265 | the dirty flag is set and nothing else changes |
| BondStore.BondData.AddBond | libhoomd/data_structures/BondData.h:147-148 | refuses a bond with an out-of-range particle or type, changing nothing; otherwise appends it under the top of the deleted stack (popped) or a never-used tag, the new tag finds the bond, every other lookup is unchanged, and the store is dirty |
| BondStore.BondData.RemoveBond | libhoomd/data_structures/BondData.h:150-151 | fails exactly for a tag that is not live, changing nothing; otherwise the bond, type and tag lists are compacted at the tag's dense index (the last entry moved into its slot), the tag no longer resolves, is pushed on the deleted stack, one bond fewer, every other lookup unchanged, the store dirty |
| BondStore.BondData.SetBondTypeMapping | libhoomd/data_structures/BondData.h:186-187 | replaces the type names exactly when there is one per bond type; otherwise SizeMismatch and no change |
| BondStore.BondData.GetTypeByName | libhoomd/data_structures/BondData.h:189-190 | the lowest type index carrying the name, whose name is indeed that one; NotFound exactly when no type has it |
| BondStore.BondData.GetNameByType | libhoomd/data_structures/BondData.h:192-193 | the name of a type index below the type count; NotFound otherwise |
| BondStore.BondData.TakeSnapshot | libhoomd/data_structures/BondData.h:229-230 | one entry per bond in dense order, entry i being the bond of tag tags[i]; the snapshot fits the store |
| BondStore.BondData.InitializeFromSnapshot | libhoomd/data_structures/BondData.h:232-233 | succeeds exactly when the snapshot fits, else changes nothing; then the store holds the snapshot's bonds and names, tag t finds bond t, higher tags are unknown, no tag is deleted, the store is dirty |
| BondStore.BondData.Install | libhoomd/data_structures/BondData.h:232-233 | a fitting snapshot installed with bond i under tag i, an empty deleted stack and the invariant kept |
| BondStore.BondData.ParticleSorted | libhoomd/data_structures/BondData.h:255-265 | the resort notification: the new particle order is taken over, the store is dirty, bonds and tags are unchanged |
| BondStore.BondData.UpdateBondTable | libhoomd/data_structures/BondData.h:276-277 | the GPU table becomes the bond table of the bonds in the current particle order |
| BondStore.BondData.GetGPUBondList | libhoomd/data_structures/BondData.h:226-227 | returns a table that matches the current bonds, rebuilding only when dirty, and clears the flag; bonds and tags are unchanged |
| BondStore.AddSound | libhoomd/data_structures/BondData.h:147-148 | the state change of a successful add keeps the store valid, the new tag was unknown and now finds the appended bond, other lookups unchanged |
| BondStore.RemoveSound | libhoomd/data_structures/BondData.h:150-151 | the state change of a successful remove keeps the store valid, the removed tag is unknown, other lookups unchanged |
| BondStore.SnapshotRoundTrip | libhoomd/data_structures/BondData.h:229-233 | exporting and re-importing a store leaves its bonds, dense order and type names as they were |
| TunerSchedule.Step | libhoomd/utils/Autotuner.cc:183-243 | one call to end() moves in-bounds counters to in-bounds counters (sample below nsamples, element below the parameter count, idle count at most period) |
| TunerSchedule.StepNAdd | libhoomd/utils/Autotuner.cc:162-244 | running a + b calls is running a calls and then b calls |
| TunerSchedule.StartupReaches | libhoomd/utils/Autotuner.cc:184-207 | during start-up, call nsamples * e + s times sample slot s of parameter e |
| TunerSchedule.StartupSlot | libhoomd/utils/Autotuner.cc:184-207 | call k of start-up, before its end, times sample slot k mod nsamples of parameter k div nsamples |
| TunerSchedule.StartupCompletes | libhoomd/utils/Autotuner.cc:184-208 | start-up lasts exactly nsamples * nparams calls, of which only the last ends the round, and leaves the tuner idle at sample 0, element 0, no calls |
| TunerSchedule.IdleCounts | libhoomd/utils/Autotuner.cc:229-233 | j calls into the rest, j at most period, the tuner is idle with j calls counted |
| TunerSchedule.IdleThenScan | libhoomd/utils/Autotuner.cc:229-243 | after period + 1 idle calls the tuner starts a scan of parameter 0 at the same sample slot, except for period 0xffffffff, where the count wraps to 0 and it stays idle |
| TunerSchedule.ScanReaches | libhoomd/utils/Autotuner.cc:209-227 | e calls into a scan the tuner times parameter e at the same sample slot |
| TunerSchedule.ScanCompletes | libhoomd/utils/Autotuner.cc:209-228 | a scan lasts exactly nparams calls, the last ends the round, and the tuner rests at the next sample slot modulo nsamples |
| TunerSchedule.IdleCycle | libhoomd/utils/Autotuner.cc:209-243 | resting and one scan take period + 1 + nparams calls and bring the tuner back to rest at the next sample slot |
| OrderStatistics.CountLessPermutation | libhoomd/utils/Autotuner.cc:268-289 | permuting the samples, as nth_element does on its copy, does not change how many lie below any value |
| OrderStatistics.OrderStatisticIsElement | libhoomd/utils/Autotuner.cc:287-289 | an element of rank k is one of the samples |
| OrderStatistics.OrderStatisticUnique | libhoomd/utils/Autotuner.cc:287-289 | the element of a given rank is unique |
| OrderStatistics.PartitionedIsOrderStatistic | libhoomd/utils/Autotuner.cc:288 | a sequence partitioned around position n, nothing larger before and nothing smaller after, holds its element of rank n there |
| OrderStatistics.NthElement | libhoomd/utils/Autotuner.cc:288 | permutes the array in place so that nothing before position n is larger than a[n] and nothing after it is smaller |
| OrderStatistics.Swap | libhoomd/utils/Autotuner.cc:288 | exchanges two elements and keeps the multiset |
| OrderStatistics.MinIndexFrom | libhoomd/utils/Autotuner.cc:288 | an index of a smallest element of the suffix from k |
| OrderStatistics.Median | libhoomd/utils/Autotuner.cc:265-289 | the value read at position n/2 after nth_element on a copy is the median of the samples, the element of rank n/2, and is one of them |
| OrderStatistics.LowestArgMin | libhoomd/utils/Autotuner.cc:293-315 | an index of a smallest median with every earlier median strictly larger |
| OrderStatistics.LowestArgMinUnique | libhoomd/utils/Autotuner.cc:248-249 | the lowest index of a minimum is unique, so the tie-break determines the result |
| OrderStatistics.LowestMinIndex | libhoomd/utils/Autotuner.cc:293-315 | the selection loop, moving only on a strictly smaller value, returns the lowest index of the minimum |
| Tuning.OddSamples | libhoomd/utils/Autotuner.cc:37-39 | the sample count is odd and positive: an odd request is kept, an even one raised by one, with no wrap |
| Tuning.BuildRange | libhoomd/utils/Autotuner.cc:95-101 | the range constructor's list: (end - start) / step + 1 values in 32-bit arithmetic, value i being start advanced i times by step |
| Tuning.RangeWithinBounds | libhoomd/utils/Autotuner.cc:78 | when start <= end and the count does not wrap, there are (end - start) / step + 1 parameters, parameter i is start + i * step within [start, end], and the next value would exceed end |
| Tuning.Autotuner.constructor | libhoomd/utils/Autotuner.cc:26-55 | a valid, enabled tuner in start-up at sample 0 of parameter 0 with that parameter current, the odd sample count and one zeroed row of samples per parameter |
| Tuning.Autotuner.Create | libhoomd/utils/Autotuner.cc:26-55 | fails exactly when the parameter list is empty; otherwise a new valid, enabled tuner with the given parameters and period, the odd sample count, in start-up with parameters[0] current |
| Tuning.Autotuner.CreateRange | libhoomd/utils/Autotuner.cc:80-121 | fails exactly when the 32-bit count is 0; otherwise a new valid, enabled tuner over the range's values with the given period, the odd sample count, in start-up with parameters[0] current |
| Tuning.Autotuner.SetEnabled | libhoomd/utils/Autotuner.cc:337 | sets whether the tuner reacts to end() |
| Tuning.Autotuner.GetParam | libhoomd/utils/Autotuner.cc:336 | one of the parameters: the one being timed while timing, the one with the lowest argmin of the medians while resting |
| Tuning.Autotuner.ComputeOptimalParameter | libhoomd/utils/Autotuner.cc:246-329 | every stored median is the median of its parameter's samples, and the result is the lowest index of the smallest median, below the parameter count |
| Tuning.Autotuner.End | libhoomd/utils/Autotuner.cc:162-244 | a disabled tuner changes nothing; otherwise the timing goes into the current slot while timing, the counters advance by exactly one Step, the medians change only when a round ends, and the tuner stays valid (tuned while resting) |
| Tuning.Autotuner.FinishRound | libhoomd/utils/Autotuner.cc:200 | recomputes every median and makes the parameter with the smallest median current |
| Tuning.Autotuner.StepStartup | libhoomd/utils/Autotuner.cc:184-208 | the start-up branch of end() advances the counters by one Step and keeps the tuner valid |
| Tuning.Autotuner.StepScanning | libhoomd/utils/Autotuner.cc:209-228 | the scanning branch of end() advances the counters by one Step, recomputing after the last parameter, and keeps the tuner valid |
| Tuning.Autotuner.StepIdle | libhoomd/utils/Autotuner.cc:229-243 | the idle branch of end() counts the call, wrapping at 2^32, and starts a scan with the current element's parameter once the count exceeds period |
| Tuning.RunStartup | libhoomd/utils/Autotuner.cc:184-208 | from a new tuner, nsamples * nparams calls to end() leave it resting at sample 0; timing s of parameter e is the time fed in at call nsamples * e + s, every median is that of its parameter's timings, and the fastest parameter is current |

## Left out

- CUDA event timing in begin() and end() is not modelled, because it is a device call. The elapsed time is a parameter of `End`, stored where the source stores it when CUDA is enabled. begin() only records an event, so it has no model.
- Times are integers rather than single-precision floats. The tuner only compares them.
- MPI gathering of samples across ranks and the broadcast of the result are not modelled. Only the single-process (root) path is.
- The "percent faster" figure, the maximum median and every log message are not modelled. They are floating point used only for output.
- The Python bindings (`export_Autotuner`, `export_BondData`) are not modelled.
- The Autotuner.h header is not part of this model. The bodies of `getParam` and `setEnabled` follow its members' names. `isComplete` and `setPeriod`, bound to Python as `setMoveRatio` and `setNSelect`, are not modelled. The counters are taken to be 32-bit unsigned.
- The BondData.cc source is not part of this model, so these behaviours are chosen rather than taken from code:
  - a fresh tag is the next unused one (`|bondRTag|`, which equals the bond count when the stack is empty);
  - removal also sets the dirty flag;
  - the add checks, and the per-bond checks of snapshot import, run particle range first, then type range;
  - a bond of a particle with itself is accepted.
- The GPU storage (`GPUVector`, `GPUArray`), `updateBondTableGPU` and `allocateBondTable` are not modelled. The bond table is a value, a sequence of columns.
- The raw accessors `getBondTable`, `getBondTypes`, `getBondTags`, `getBondRTags` and `getNBondsArray` are not modelled. They only return fields, which the model reads directly.
- The boost signal from the particle data's resort and the profiler are not modelled. The resort is the explicit call `ParticleSorted`.
- libhoomd/updaters/TwoStepBDNVTRigid.h, a rigid-body integrator header, is not modelled. It is floating-point physics.
- Tuning.Autotuner.CreateRange requires `step > 0`. The source divides by `step` unchecked, and division by zero is undefined behaviour in C++.
- BondStore.BondData.AddBond requires a free tag when the deleted stack is empty (fewer than 0xffffffff tags issued). The sentinel would otherwise become a live tag.
- BondStore.BondData.InitializeFromSnapshot requires at most 0xffffffff bonds in the snapshot, for the same reason.
- Tuning.Autotuner.constructor requires a non-empty parameter list. The source throws in that case; `Create` and `CreateRange` model the throw as `None`.
