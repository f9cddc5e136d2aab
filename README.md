# smol core bookkeeping in Dafny

This project models the bookkeeping core of `smol`, a Python package for
cluster expansions and Monte Carlo sampling on lattices. It covers the parts
that sit between an integer-coded lattice occupancy and the Monte Carlo chain
that samples it:

- **Correlation index engine** (`supercell.dfy`, `mappings.dfy`,
  `rowkeys.dfy`, `clusterspace.dfy`):
  - the per-site index a supercell derives from each orbit's table of site
    rows, with the averaging ratio of each entry;
  - the correlation vector of an occupancy;
  - species/code encoding and decoding;
  - the correlation change of a list of flips applied one after the other;
  - the contiguous orbit and function ids of a cluster subspace;
  - pruning of orbits and bit combos;
  - the supercell index cache keyed on the sorted rows of a supercell
    matrix;
  - external terms;
  - inverting and closing hierarchy mappings;
  - the encoding loop of `occupancy_from_structure`;
  - the size range of the sub-orbit search.
- **Ensembles** (`semigrand.dfy`, `canonical.dfy`):
  - the semi-grand natural parameters;
  - the checks on chemical potentials;
  - the dense site x code table of chemical potentials;
  - the chemical work and its change under a step;
  - canonical swaps that preserve composition;
  - in-place acceptance with the running minimum;
  - `reset` and the end of `anneal`.
- **Transition kernels** (`traces.dfy`, `kernel.dfy`, `wanglandau.dfy`):
  - `Trace` and `StepTrace`;
  - the helper checks of the kernels;
  - Metropolis and uniform acceptance, with the random draw passed in as
    `logu`;
  - writing an accepted step in place;
  - the kernel constructors, including their initial step on a zero
    occupancy;
  - the Wang–Landau bins, visits, flatness check and factor update.
- **Site bases** (`basis.dfy`):
  - the indicator function;
  - `sinusoid_factory`;
  - `encode_domain`;
  - the standard and indicator function arrays;
  - the species check;
  - `rotate` on the stored arrays and its argument checks;
  - the iterator name `basis_factory` builds;
  - the `from_dict` class dispatch.
- **Expansion** (`expansion.dfy`):
  - the constructor's shape checks and its fallback estimator;
  - the copying getters;
  - the weight dispatch of `fit`;
  - the guard of `print_ecis`.

Python exceptions are modelled as values:

- `Errors.Result` for a call that returns a value or raises;
- `Errors.Outcome` for a call that returns `None` or raises;
- `Errors.Option` for a value that may be missing.

Randomness, timing, and calls into code outside this model become parameters:

- random draws, as `logu` and draw indices;
- the orbit evaluator;
- the single-flip correlation change;
- processor features;
- estimator coefficients.

`common.dfy` holds the shared vocabulary: errors, flips, and `beta`.

## Model

| member | source | states |
|---|---|---|
| Flips.ApplyAt | smol/moca/sampler/kernel.py:354-356 | after writing a step's `(site, code)` pairs in order, each site holds the code of the last pair naming it, and untouched sites keep their codes |
| Flips.WriteFlips | smol/moca/ensembles/canonical.py:215-216 | writing the flips into the array in place leaves it equal to `Apply` of the old contents |
| Thermal.BetaOf | smol/moca/ensembles/canonical.py:67-71 | `beta` times `kB*T` is 1; a zero temperature raises ZeroDivisionError |
| Supercell.RowsWith | smol/cofe/configspace/supercell.py:113 | exactly the rows containing the site, each as many times as the table holds it |
| Supercell.RowsWithNonEmpty | smol/cofe/configspace/supercell.py:112-114 | a site found in the table lies in at least one row, so the ratio's divisor is positive |
| Supercell.GenerateSiteMappings | smol/cofe/configspace/supercell.py:84-117 | each site's list is the entries of the orbits touching it, in orbit order; sites no table touches get no key |
| Supercell.TouchingMeaning | smol/cofe/configspace/supercell.py:84-117 | the orbits touching a site are listed once each, in ascending order |
| Supercell.EntriesForTouching | smol/cofe/configspace/supercell.py:84-117 | a site's list holds exactly one entry per orbit touching it, in orbit order |
| Supercell.EntriesForUntouched | smol/cofe/configspace/supercell.py:112-117 | a site that no table touches gets no entry |
| Supercell.EntryMeaning | smol/cofe/configspace/supercell.py:112-117 | an entry keeps the orbit's combos and id, exactly the rows containing the site with their repeats, and a ratio of all rows to those rows that is at least 1 |
| Supercell.RatioAtLeastOne | smol/cofe/configspace/supercell.py:114 | `len(inds) / count` is at least 1 when `0 < count <= len(inds)` |
| Supercell.CorrFromOccupancy | smol/cofe/configspace/supercell.py:132-148 | the array filled in place equals the specification vector: entry 0 is one, then each orbit's combos are written in turn |
| Supercell.CorrSpecMeaning | smol/cofe/configspace/supercell.py:137-146 | for orbits whose index ranges do not overlap: entry 0 is 1, entry `orb_b_id + i` is the mean of the evaluator over all orderings of combo `i` and all rows, and every other entry is 0 |
| Supercell.EncodeOccu | smol/cofe/configspace/supercell.py:182-188 | codes are the first positions of each species in its site space, paired as `zip` pairs; a species missing from its site space raises ValueError |
| Supercell.DecodeOccu | smol/cofe/configspace/supercell.py:190-193 | each code indexes its site space as Python does, negative codes from the end; a code out of range raises IndexError |
| Supercell.DecodeEncode | smol/cofe/configspace/supercell.py:182-193 | decoding undoes encoding for an occupancy whose species lie in their site spaces |
| Supercell.EncodeDecode | smol/cofe/configspace/supercell.py:182-193 | encoding undoes decoding for in-range non-negative codes when no site space repeats a species |
| Supercell.DeltaSum | smol/cofe/configspace/supercell.py:216-224 | the accumulated change has the expected length and is the sum of single-flip changes, each taken on the occupancy left by the previous flip |
| Supercell.DeltaCorr | smol/cofe/configspace/supercell.py:199-231 | the result is the accumulated change of length `n_bit_orderings + len(all_ewalds)` together with the encoded occupancy with the flips written in order; encoding errors and out-of-range sites raise; the caller's occupancy is untouched |
| Supercell.DeltaTelescopes | smol/cofe/configspace/supercell.py:226-229 | when every single-flip change is exact, the accumulated change equals the correlation after minus the correlation before (the debug assertion) |
| RowKeys.LexTotal | smol/cofe/space/clusterspace.py:713 | Python's tuple order is total |
| RowKeys.LexAntisymmetric | smol/cofe/space/clusterspace.py:713 | Python's tuple order is antisymmetric |
| RowKeys.LexTransitive | smol/cofe/space/clusterspace.py:713 | Python's tuple order is transitive |
| RowKeys.SortRowsSorted | smol/cofe/space/clusterspace.py:713 | `sorted` returns a sorted permutation of the rows |
| RowKeys.SortedUnique | smol/cofe/space/clusterspace.py:713 | two sorted arrangements of the same rows are equal |
| RowKeys.CacheKeySameRows | smol/cofe/space/clusterspace.py:710-713 | two supercell matrices share a cache key exactly when they hold the same rows in any order |
| RowKeys.CacheKeyMeaning | smol/cofe/space/clusterspace.py:713 | the key is sorted and holds exactly the matrix's rows |
| HierarchyMappings.InvRowMeaning | smol/cofe/space/clusterspace.py:1248-1252 | the inverse row lists each `i` whose row lists `v` once, in descending order |
| HierarchyMappings.InvertMapping | smol/cofe/space/clusterspace.py:1233-1254 | output length equals input length; `i` is in `inv[v]` iff `v` is in `mapping[i]`; no row repeats; each row descends |
| HierarchyMappings.AppendNew | smol/cofe/space/clusterspace.py:1284-1286 | the row keeps its prefix, gains exactly the new values of `next` in order, and repeats none of them |
| HierarchyMappings.NextLayer | smol/cofe/space/clusterspace.py:1287-1292 | the next layer holds exactly the successors of the current one, without repeats |
| HierarchyMappings.CompleteRow | smol/cofe/space/clusterspace.py:1280-1292 | a row keeps the original row as its prefix, then lists fresh reachable indices once each, and in all holds exactly the indices reachable in one or more steps |
| HierarchyMappings.CompleteMapping | smol/cofe/space/clusterspace.py:1257-1294 | for an acyclic table, every row starts with its original row and holds exactly the indices reachable from it, with no new value repeated |
| ClusterSpace.AssignIds | smol/cofe/space/clusterspace.py:921 | an orbit takes the current orbit, function and cluster counters and advances them by one, its combo count and its cluster count |
| ClusterSpace.AssignAllMeaning | smol/cofe/space/clusterspace.py:918-925 | assigning in order numbers the orbits consecutively and advances the counters by the totals |
| ClusterSpace.AssignEstablishes | smol/cofe/space/clusterspace.py:918-925 | starting from `(1, 1, 1)`, orbit `k` gets id `k + 1`, and its function ids start after those of earlier orbits |
| ClusterSpace.AssignGroups | smol/cofe/space/clusterspace.py:919-921 | the loop over sorted keys keeps group sizes and lengths and numbers the flattened orbits as one sequence |
| ClusterSpace.ClusterSubspace.AssignOrbitIds | smol/cofe/space/clusterspace.py:912-925 | ids are handed out from `(1, 1, 1)` over ascending sizes, and the counters take the final triple |
| ClusterSpace.FunctionOrbitIdsMeaning | smol/cofe/space/clusterspace.py:312-322 | length `1 + Σ len(orbit)`; entry 0 is 0; each function id in an orbit's range is labelled with that orbit's id |
| ClusterSpace.FunctionOrbitIdsById | smol/cofe/space/clusterspace.py:312-322 | with ids assigned, entry `bit_id + i` of every orbit is the orbit's id |
| ClusterSpace.CollectFunctionOrbitIds | smol/cofe/space/clusterspace.py:319-322 | the accumulating loop yields `[0]` followed by each orbit id repeated once per combo |
| ClusterSpace.ClusterSubspace.FunctionOrbitIds | smol/cofe/space/clusterspace.py:312-322 | the property's value is the list above over the subspace's orbits in size order |
| ClusterSpace.AllBitCombosById | smol/cofe/space/clusterspace.py:294-301 | one entry per correlation function; entry 0 is `None`; entry `bit_id + i` of an orbit is its combo `i` |
| ClusterSpace.SelectOk | smol/cofe/space/clusterspace.py:446-451 | selection by cutoffs succeeds iff every requested size is a key, and otherwise raises KeyError |
| ClusterSpace.SelectContents | smol/cofe/space/clusterspace.py:446-451 | it keeps exactly the orbits of requested sizes whose diameter lies within that size's bounds, inclusive |
| ClusterSpace.FunctionRangesMeaning | smol/cofe/space/clusterspace.py:474-477 | an id is listed iff it lies in `[bit_id, bit_id + len(orbit))` for a selected orbit |
| ClusterSpace.ClusterSubspace.FunctionIndsFromCutoffs | smol/cofe/space/clusterspace.py:453-477 | the function ids of the selected orbits, orbit after orbit; a missing size raises KeyError |
| ClusterSpace.ClusterSubspace.AddExternalTerm | smol/cofe/space/clusterspace.py:479-495 | a term of a kind already present raises ValueError and changes nothing; otherwise it is appended |
| ClusterSpace.ClusterSubspace.Len | smol/cofe/space/clusterspace.py:1143-1145 | `num_corr_functions + len(external_terms)`, which for a subspace with its ids assigned is one plus the combos of every orbit plus the external terms |
| ClusterSpace.ClusterSubspace.SupercellOrbitMappings | smol/cofe/space/clusterspace.py:694-720 | a cache hit returns the identical stored object and changes nothing; a miss stores fresh tables under the sorted-rows key; either way the key maps to the returned object |
| ClusterSpace.RemoveOrbitsCheck | smol/cofe/space/clusterspace.py:754-765 | in order: an empty list fails in `min`, then a negative id, an id of 0, or an id past `num_orbits - 1` raises ValueError; otherwise it passes |
| ClusterSpace.FilterGroups | smol/cofe/space/clusterspace.py:767-769 | every size keeps its key, and its list loses exactly the listed orbits |
| ClusterSpace.ClusterSubspace.RemoveOrbits | smol/cofe/space/clusterspace.py:734-773 | a failed check changes nothing; otherwise each size keeps exactly its own orbits minus the listed ones, in order, ids are reassigned over the result and the cache is emptied |
| ClusterSpace.ToRemove | smol/cofe/space/clusterspace.py:800-803 | exactly the listed ids in `[bit_id, bit_id + len)`, shifted to local positions |
| ClusterSpace.RemoveCombosByInds | smol/cofe/space/clusterspace.py:806-808 | the listed positions are dropped; removing them all raises RuntimeError |
| ClusterSpace.PruneOrbitMeaning | smol/cofe/space/clusterspace.py:799-808 | an orbit is emptied exactly when every one of its function ids is listed; otherwise it keeps exactly the combos whose id is not listed |
| ClusterSpace.EmptiedIdsValid | smol/cofe/space/clusterspace.py:808-814 | the ids of emptied orbits pass the checks of `remove_orbits` |
| ClusterSpace.PruneGroups | smol/cofe/space/clusterspace.py:799-811 | the pruning loop over all orbits, collecting the emptied ids in order |
| ClusterSpace.ClusterSubspace.RemoveOrbitBitCombos | smol/cofe/space/clusterspace.py:775-816 | each orbit under its own size drops the combos with listed ids; emptied orbits are then removed through `remove_orbits`, which empties the cache; otherwise ids are reassigned and the cache is kept |
| ClusterSpace.SiteOccupant | smol/cofe/space/clusterspace.py:656-665 | a supercell site's occupant is the structure species at the first mapping position naming it, or a vacancy; a species not allowed raises StructureMatchError |
| ClusterSpace.OccupancyMeaning | smol/cofe/space/clusterspace.py:654-670 | the occupancy of every prefix of sites lists their occupants, or gives the first site's error |
| ClusterSpace.OccupancyErrorStays | smol/cofe/space/clusterspace.py:654-670 | once a site fails, every longer prefix fails with the same error |
| ClusterSpace.EncodedDecodes | smol/cofe/space/clusterspace.py:666-669 | encoded codes index each site's allowed species back to the species occupancy |
| ClusterSpace.OccupancyFromStructure | smol/cofe/space/clusterspace.py:654-670 | the loop yields one entry per supercell site in order, encoded or not, or raises the first site's error |
| ClusterSpace.SubOrbitSearchIgnoresMinSize | smol/cofe/space/clusterspace.py:860-867 | as written, with no level, size 1 is searched for any `1 < min_size < size`; the corrected search skips it |
| ClusterSpace.SubOrbitSearchSizes | smol/cofe/space/clusterspace.py:857-867 | as written: every searched size is below the orbit's size, and with no level exactly the sizes `1 .. size - 1` are searched |
| ClusterSpace.SubOrbitSearchSizesFixedMeaning | smol/cofe/space/clusterspace.py:857-867 | the corrected search visits exactly the sizes below the orbit's own size, no smaller than the minimum size and, given a level, at most `level` below; it visits them in descending order |
| SemiGrand.NaturalParameters | smol/moca/ensemble/semigrand.py:63 | the coefficients followed by -1.0, one longer |
| SemiGrand.ActiveSpecies | smol/moca/ensemble/semigrand.py:96-103 | a species is listed iff it is in the site space of an active sublattice, once |
| SemiGrand.Normalize | smol/moca/ensemble/semigrand.py:65-67 | keys are normalised; when two keys collide, the later value wins |
| SemiGrand.ConstructorPotentials | smol/moca/ensemble/semigrand.py:64-82 | ValueError iff an active species has no potential; otherwise exactly the active species' potentials are kept |
| SemiGrand.KeptPotentials | smol/moca/ensemble/semigrand.py:128-129 | entries whose raw key is an active species, under their normalised key |
| SemiGrand.SetterPotentials | smol/moca/ensemble/semigrand.py:111-135 | ValueError on two keys naming one species, then on a kept key set other than the active species; otherwise the kept entries |
| SemiGrand.MaxCode | smol/moca/ensemble/semigrand.py:199 | the largest code of any sublattice; an empty list raises ValueError |
| SemiGrand.TableWrittenMeaning | smol/moca/ensemble/semigrand.py:200-203 | on an active site, each code's column holds its species' potential and other columns hold 0; rows of other sites are all 0 |
| SemiGrand.BuildMuTable | smol/moca/ensemble/semigrand.py:186-204 | corrected table: one row per site, `max + 1` columns, filled as above |
| SemiGrand.MuTableColumnsShort | smol/moca/ensemble/semigrand.py:199-203 | as written, two species coded 0 and 1 get a single column |
| SemiGrand.MuTablePairsSites | smol/moca/ensemble/semigrand.py:203 | as written, paired fancy indexing gives site 0 only code 0's potential and site 1 only code 1's |
| SemiGrand.BuildMuTableAsWritten | smol/moca/ensemble/semigrand.py:186-204 | as written: one row per site, and `max(encoding)` columns |
| SemiGrand.ChemicalWorkUpdate | smol/moca/ensemble/semigrand.py:180-184 | `ChemicalWork`, the sum `Σ table[site][occ[site]]`, changes under a one-site change by the difference of the two entries |
| SemiGrand.ChemicalWorkChangeExact | smol/moca/ensemble/semigrand.py:174-184 | for a step with distinct sites, `ChemicalWorkChange` equals the work after minus the work before |
| SemiGrand.RepeatedSiteCountsTwice | smol/moca/ensemble/semigrand.py:174-177 | a step that flips one site twice counts both flips against the pre-step code |
| SemiGrand.NewPotentials | smol/moca/ensemble/semigrand.py:111-137 | corrected: either the setter's error, or the kept potentials with a table that agrees with them |
| SemiGrand.SemiGrandEnsemble.SetChemicalPotentials | smol/moca/ensemble/semigrand.py:110-140 | corrected: on a failed check nothing changes; otherwise the potentials and table are replaced |
| SemiGrand.SemiGrandEnsemble.ComputeFeatureVector | smol/moca/ensemble/semigrand.py:142-157 | the shared buffer holds the processor features followed by the chemical work, and is returned |
| SemiGrand.SemiGrandEnsemble.ComputeFeatureVectorChange | smol/moca/ensemble/semigrand.py:159-178 | the shared change buffer holds the processor change followed by the summed table differences read against the pre-step occupancy |
| SemiGrand.SemiGrandEnsemble.constructor | smol/moca/ensemble/semigrand.py:76-86 | the state once the checks have passed: the filtered potentials and a table that agrees with them |
| SemiGrand.CreateSemiGrand | smol/moca/ensemble/semigrand.py:41-86 | corrected: succeeds iff every active species has a potential and the largest code exists (at least one sublattice, none with an empty encoding); otherwise the constructor's ValueErrors in order; on success the coefficients, sublattices and site count are kept, the potentials are filtered, the table is built from them and the parameters carry -1 |
| SemiGrand.FeatureVectorsAlias | smol/moca/ensemble/semigrand.py:77-79 | two feature computations return the same buffer, so the first result shows the second occupancy's features |
| Canonical.Choice | smol/moca/ensembles/canonical.py:237-243 | a draw picks an element; an empty sequence raises IndexError |
| Canonical.SwapOptions | smol/moca/ensembles/canonical.py:240-241 | exactly the sublattice's sites whose code differs from `site1`'s, in order |
| Canonical.GetFlips | smol/moca/ensembles/canonical.py:225-248 | a draw picks the sublattice and `site1`; the step is empty iff `site1` has no swap option; otherwise it is `((site1, occ[site2]), (site2, occ[site1]))` with `site2` among the options |
| Canonical.GetFlipsSwaps | smol/moca/ensembles/canonical.py:243-245 | a returned swap exchanges two different codes on two sites of the chosen sublattice and keeps the multiset of its codes |
| Canonical.SwapKeepsCodes | smol/moca/ensembles/canonical.py:243-245 | exchanging two sites' codes keeps the multiset of codes over distinct sites |
| Canonical.AnnealCheck | smol/moca/ensembles/canonical.py:143-152 | ValueError when the start is below the current temperature, then NotImplementedError for any cooling function |
| Canonical.CanonicalEnsemble.SetTemperature | smol/moca/ensembles/canonical.py:67-71 | stores `T` first; a non-zero `T` sets `beta = 1/(kB T)` and keeps the ensemble valid; a zero `T` raises ZeroDivisionError with `beta` kept and the ensemble no longer valid |
| Canonical.CanonicalEnsemble.constructor | smol/moca/ensembles/canonical.py:55-60 | for a non-zero temperature: `beta`, the initial occupancy and energy, and a minimum equal to them held in a separate array |
| Canonical.NewCanonical | smol/moca/ensembles/canonical.py:28-60 | ZeroDivisionError iff the temperature is zero; otherwise the constructor's state |
| Canonical.CanonicalEnsemble.AttemptStep | smol/moca/ensembles/canonical.py:213-219 | acceptance adds `delta_e` and writes the flips in order; a strictly lower energy is recorded with a copy; rejection changes nothing; `min <= property` is kept |
| Canonical.CanonicalEnsemble.Reset | smol/moca/ensembles/canonical.py:173-180 | the initial occupancy and energy come back, the energy becomes the minimum, and the minimum's occupancy is the same array |
| Canonical.CanonicalEnsemble.FinishAnneal | smol/moca/ensembles/canonical.py:164-171 | as written: returns the minimum found, resets, and with `set_min_occu` restores it, while the recorded minimum stays the initial energy |
| Canonical.CanonicalEnsemble.FinishAnnealFixed | smol/moca/ensembles/canonical.py:164-171 | corrected: the restored minimum is also recorded, so `min <= property` holds |
| Canonical.Anneal | smol/moca/ensembles/canonical.py:114-171 | corrected: the checks' error changes nothing; otherwise it returns the minimum and, with `set_min_occu`, restores it |
| Canonical.AnnealLosesMinimum | smol/moca/ensembles/canonical.py:164-169 | as written, after a lower energy was found, the recorded minimum exceeds the restored energy |
| Canonical.ResetAliasesMinimum | smol/moca/ensembles/canonical.py:179-180 | after `reset`, an accepted step with no new minimum also rewrites the minimum's occupancy |
| Traces.StoreLookup | smol/moca/sampler/kernel.py:54 | after a store the name holds the new value and every other name what it held |
| Traces.StoreDistinct | smol/moca/sampler/kernel.py:54 | a store keeps the names distinct |
| Traces.StoreAppends | smol/moca/sampler/kernel.py:54 | storing a new name appends it after the existing ones |
| Traces.TraceValue | smol/moca/sampler/kernel.py:49-53 | an int or float becomes a one-element array, an array stays, anything else raises TypeError |
| Traces.NewTrace | smol/moca/sampler/kernel.py:33-36 | construction fails with TypeError iff some argument is not an array |
| Traces.Trace.Names | smol/moca/sampler/kernel.py:38-41 | the attribute names in insertion order |
| Traces.Trace.SetAttr | smol/moca/sampler/kernel.py:47-54 | numbers are wrapped, arrays stored in place of an existing name or appended; other values raise TypeError and change nothing |
| Traces.VisibleNames | smol/moca/sampler/kernel.py:76-79 | every name but `delta_trace`, in order |
| Traces.VisibleItems | smol/moca/sampler/kernel.py:81-86 | every entry but `delta_trace`, in order |
| Traces.StepTraceCheck | smol/moca/sampler/kernel.py:88-93 | `delta_trace` raises ValueError, then a non-array raises TypeError, with no wrapping |
| Traces.StepTrace.constructor | smol/moca/sampler/kernel.py:72-74 | the arguments, then an empty inner trace under `delta_trace` |
| Traces.StepTrace.Names | smol/moca/sampler/kernel.py:76-79 | never includes `delta_trace` |
| Traces.StepTrace.SetAttr | smol/moca/sampler/kernel.py:88-94 | stores arrays under any other name; otherwise raises and changes nothing; the inner trace is never replaced |
| Traces.NewStepTrace | smol/moca/sampler/kernel.py:72-74 | fails with TypeError iff some argument is not an array |
| Kernels.CheckHelper | smol/moca/sampler/kernel.py:184-189 | ValueError iff the class name is not listed |
| Kernels.CheckBias | smol/moca/sampler/kernel.py:117-118 | a kernel listing no biases raises TypeError for any bias |
| Kernels.UniformAccept | smol/moca/sampler/kernel.py:344-352 | without a bias the flag is unchanged; with one, accepts iff `Δbias >= 0` or `Δbias > logu` |
| Kernels.MetropolisAccept | smol/moca/sampler/kernel.py:392-409 | without a bias accepts iff `ΔH <= 0` or `-βΔH > logu`; with one iff `exponent >= 0` or `exponent > logu` |
| Kernels.UniformIsInfiniteTemperature | smol/moca/sampler/kernel.py:344-352 | with a bias, the uniform decision is the Metropolis decision at `beta = 0` |
| Kernels.ApplyIfAccepted | smol/moca/sampler/kernel.py:354-356 | an accepted step is written in order; a rejected one leaves the occupancy |
| Kernels.CommitStep | smol/moca/sampler/kernel.py:354-359 | writes an accepted step and records the occupancy; the flag and temperature stay |
| Kernels.DecideUniform | smol/moca/sampler/kernel.py:344-354 | with a bias change the flag is decided and stored; without one it is read unchanged |
| Kernels.UniformlyRandom.constructor | smol/moca/sampler/kernel.py:152-157 | before the initial step: the step trace holds `accepted = [True]` and an empty delta trace, with no bias and the given usher |
| Kernels.InitialUniformStep | smol/moca/sampler/kernel.py:176-177 | the initial step on a zero occupancy: the trace holds the step's flag, the delta trace and the occupancy it left; the delta trace holds the features, the enthalpy and, with a bias, the bias change |
| Kernels.NewUniformlyRandom | smol/moca/sampler/kernel.py:120-177 | the usher's ValueError, then the bias's ValueError; otherwise the state after the initial step, as above |
| Kernels.UniformlyRandom.SetUsher | smol/moca/sampler/kernel.py:184-189 | an unlisted class raises ValueError and keeps the old usher |
| Kernels.UniformlyRandom.SetBias | smol/moca/sampler/kernel.py:196-203 | an unlisted class raises ValueError and changes nothing; otherwise, when the delta trace has no `bias`, a `bias` of `[0.0]` is appended and the other entries stay, and the bias is installed; the usher and the step trace are kept |
| Kernels.UniformlyRandom.SingleStep | smol/moca/sampler/kernel.py:324-360 | records the changes; without a bias the stored flag stays; an accepted step is written, and the occupancy is recorded |
| Kernels.Metropolis.SetTemperature | smol/moca/sampler/kernel.py:287-291 | the trace takes the temperature first; then `beta = 1/(kB T)`, or ZeroDivisionError with `beta` kept |
| Kernels.Metropolis.SetBias | smol/moca/sampler/kernel.py:196-203 | as for the uniform kernel, and `beta` is kept |
| Kernels.Metropolis.SingleStep | smol/moca/sampler/kernel.py:372-417 | records the changes and the Metropolis decision; writes an accepted step; records the occupancy |
| Kernels.Metropolis.constructor | smol/moca/sampler/kernel.py:276-279 | `beta = 1/(kB T)` before the base constructor runs, then the same fresh step trace |
| Kernels.InitialMetropolisStep | smol/moca/sampler/kernel.py:279-280 | the initial step with the Metropolis decision, then the temperature appended after `accepted` and `occupancy`; `beta`, usher and bias are kept |
| Kernels.NewMetropolis | smol/moca/sampler/kernel.py:259-280 | ZeroDivisionError for a zero temperature, then the usher's ValueError, then the bias's ValueError; otherwise the initial step on zeros is recorded and the trace holds `accepted`, `occupancy` and then `temperature` |
| WangLandau.ConstructorCheck | smol/moca/sampler/kernel.py:478-503 | in order: `min > max` raises ValueError, then `mod_factor <= 0` raises ValueError, then `fixed_window` raises NotImplementedError, then a zero `bin_size` raises ZeroDivisionError when the bins are counted |
| WangLandau.WangLandauRejectsItsUshers | smol/moca/sampler/kernel.py:187 | as written, each listed usher class fails the check, since the check compares class names to the dictionary's step-name keys |
| WangLandau.UsherCheckAsWritten | smol/moca/sampler/kernel.py:184-189 | as written: only the step names "flip" and "swap" pass |
| WangLandau.UsherCheck | smol/moca/sampler/kernel.py:428 | corrected: a class passes iff it is one of the listed usher classes |
| WangLandau.WangLandauAcceptsItsUshers | smol/moca/sampler/kernel.py:428 | the corrected check admits exactly the listed usher classes |
| WangLandau.InitialBins | smol/moca/sampler/kernel.py:503-520 | bins `0 .. nbins - 1` exist, each with zero entropy and histogram for every walker |
| WangLandau.Histograms | smol/moca/sampler/kernel.py:551-559 | row `w` lists walker `w`'s counts over ascending bins |
| WangLandau.FlatnessComparesOtherWalkers | smol/moca/sampler/kernel.py:584 | as written, with two even walkers, the first is judged not flat against the second walker's mean |
| WangLandau.FlatnessShapeMismatch | smol/moca/sampler/kernel.py:584 | as written, two walkers over three bins fail to broadcast |
| WangLandau.FlatAsWritten | smol/moca/sampler/kernel.py:584 | as written: one flag per walker, when the shapes broadcast |
| WangLandau.FlatPerWalker | smol/moca/sampler/kernel.py:584 | corrected: a walker is flat iff every one of its counts exceeds `flatness` times its own mean |
| WangLandau.EvenHistogramIsFlat | smol/moca/sampler/kernel.py:584 | an even positive histogram is flat for any flatness below 1 |
| WangLandau.ApplyFlatness | smol/moca/sampler/kernel.py:586-589 | each flat walker gets `update(mfactor)` and a zeroed histogram; entropies and other walkers are kept |
| WangLandau.CheckFlatness | smol/moca/sampler/kernel.py:582-589 | corrected: the reset loop applied to the per-walker flatness of the histograms |
| WangLandau.Visit | smol/moca/sampler/kernel.py:626-629 | both bins exist; the final bin gains `mfactor` entropy and one count for the walker; nothing else changes |
| WangLandau.WangLandauKernel.BinEnergy | smol/moca/sampler/kernel.py:570-572 | the bin's lower edge `min + bin * bin_size` |
| WangLandau.WangLandauKernel.Bin | smol/moca/sampler/kernel.py:566-568 | with a positive width, the bin whose range `[min + b w, min + (b + 1) w)` holds the energy |
| WangLandau.WangLandauKernel.BinBounds | smol/moca/sampler/kernel.py:566-568 | with a positive width, the bin edge is at or below the energy and within one width of it |
| WangLandau.WangLandauKernel.EnergyLevels | smol/moca/sampler/kernel.py:529-533 | the lower edges of the bins in ascending order, each in its own bin |
| WangLandau.WangLandauKernel.EnergyLevelsIncrease | smol/moca/sampler/kernel.py:529-533 | with a positive width the levels increase strictly |
| WangLandau.WangLandauKernel.constructor | smol/moca/sampler/kernel.py:488-522 | bins `0 .. nbins - 1` at zero, every walker with the initial factor and zero energy, and the counter at 0 |
| WangLandau.WangLandauKernel.SingleStep | smol/moca/sampler/kernel.py:591-631 | accepts iff `S[cur] - S[new] >= logu`; acceptance writes the step and sets the energy to `E + ΔE`; the resulting bin gains `mfactor` and one count |
| WangLandau.WangLandauKernel.EndPass | smol/moca/sampler/kernel.py:574-589 | corrected: the counter advances; every `check_period` passes the flat walkers are updated and cleared; a zero period raises ZeroDivisionError |
| WangLandau.WangLandauKernel.SetAuxState | smol/moca/sampler/kernel.py:633-637 | corrected: each walker's energy is its features dotted with the parameters; one energy broadcasts; any other count raises ValueError |
| WangLandau.SetAuxStateNeverSets | smol/moca/sampler/kernel.py:633-636 | as written, the call raises AttributeError before any energy is set |
| WangLandau.SetAuxStateAsWritten | smol/moca/sampler/kernel.py:633-636 | as written: always AttributeError |
| WangLandau.FloorScaled | smol/moca/sampler/kernel.py:566-572 | `floor(x / w) * w` lies in `(x - w, x]` for a positive `w` |
| WangLandau.NewWangLandau | smol/moca/sampler/kernel.py:430-527 | corrected: the constructor's checks, then the corrected usher check, then IndexError when there are no walkers; otherwise walker 0 has taken one step from a zero occupancy: its bin holds `mod_factor` entropy and one count, its energy is `ΔE` if accepted, and every other cell is zero |
| WangLandau.InitialStep | smol/moca/sampler/kernel.py:176-177 | the initial step of walker 0 on a zero occupancy leaves the state described above |
| Basis.Indicator | smol/cofe/space/basis.py:509-511 | 1.0 iff `s == sp`, and 0.0 iff they differ |
| Basis.SinusoidFactory | smol/cofe/space/basis.py:514-520 | `a` is the ceiling of `n/2` (`2a - 1 <= n <= 2a`); even `n` selects sine, odd `n` cosine; `m` is kept |
| Basis.EncodeDomain | smol/cofe/space/basis.py:533-545 | `g(encoding[s])` when `s` is encoded; otherwise KeyError |
| Basis.IteratorFunctions | smol/cofe/space/basis.py:392-466 | one function per species: the indicator of the species, sinusoid `position + 1`, or the polynomial of degree `position + 1` over the encoding |
| Basis.Row | smol/cofe/space/basis.py:192 | each species' value of a function, or the first KeyError |
| Basis.StandardArrayMeaning | smol/cofe/space/basis.py:187-200 | `StandardArray` exists iff there are at least two functions (IndexError otherwise); row 0 is all ones; row `i + 1` is function `i` on each species; the last function is dropped |
| Basis.IndicatorStandardDiagonal | smol/cofe/space/basis.py:187-200 | with indicators, entry `[i][i]` of the function array is 1, and every other entry is 0 |
| Basis.IndicatorBasisIdentity | smol/cofe/space/basis.py:345-348 | `IndicatorArray` of the indicator functions is the identity |
| Basis.SinusoidStandardEntries | smol/cofe/space/basis.py:417-431 | entry `(k, i)` is sinusoid `k + 1` of `m` at encoded position `i` |
| Basis.SpeciesCheck | smol/cofe/space/basis.py:61-64 | passes iff the species sets are equal, and otherwise raises ValueError |
| Basis.CheckedSpeciesEncode | smol/cofe/space/basis.py:61-66 | after the check, every function evaluates on every site-space species |
| Basis.RotateCheckAsWritten | smol/cofe/space/basis.py:266-279 | as written: a binary space passes; otherwise equal indices, then out-of-bounds indices, raise ValueError |
| Basis.RotateSameFunctionPasses | smol/cofe/space/basis.py:270-279 | as written, indices 1 and -1 on three species pass yet name the same row |
| Basis.RotateCheck | smol/cofe/space/basis.py:266-279 | corrected: also rejects two indices that name the same row |
| Basis.StandardBasis.Rotate | smol/cofe/space/basis.py:266-289 | corrected: a binary space negates row 1 and the rotation array; otherwise, after the checks, non-constant rows become `f R^T` and the rotation array becomes `R rot`; a failure changes nothing |
| Basis.NewStandardBasis | smol/cofe/space/basis.py:36-66 | the species check's ValueError comes first, then the array's IndexError; on success the flavor is the iterator's, and the rotation array is the identity |
| Basis.UpperOfLower | smol/cofe/space/basis.py:564 | letters of either case fold to the same capital |
| Basis.IteratorNameIgnoresCase | smol/cofe/space/basis.py:564 | two names equal after lower-casing give the same iterator name |
| Basis.IteratorFor | smol/cofe/space/basis.py:564-565 | the iterator class named by `capitalize() + "Iterator"`, when one exists |
| Basis.FlavorRoundTrip | smol/cofe/space/basis.py:398-497 | each iterator's flavor resolves back to that iterator through `basis_factory` |
| Basis.BasisFactory | smol/cofe/space/basis.py:548-566 | a standard basis over the site space's species whose function array is the standard array of the named iterator's functions and whose rotation array is the identity; fewer than two species raise |
| Basis.FromDictClass | smol/cofe/space/basis.py:135-147 | a registered subclass by name; "SiteBasis" gives StandardBasis; any other name raises NameError |
| Expansion.ConstructorCheck | smol/cofe/expansion.py:60-80 | passes iff both arrays are present, rows match, weights (if any) match, and an estimator or ECIs are given; every failure is AttributeError |
| Expansion.ClusterExpansion.FeatureMatrix | smol/cofe/expansion.py:173-175 | a fresh array with the same shape and contents |
| Expansion.ClusterExpansion.Weights | smol/cofe/expansion.py:181-184 | `None` without weights, otherwise a fresh array with the same contents |
| Expansion.ClusterExpansion.Fit | smol/cofe/expansion.py:190-209 | weights are passed only when present; the ECIs become the estimator's `coef_` when it has one |
| Expansion.ClusterExpansion.PrintEcis | smol/cofe/expansion.py:244-251 | NotFittedError iff there are no ECIs |
| Expansion.NewClusterExpansion | smol/cofe/expansion.py:57-82 | fails exactly as the checks do; on success stores the arrays as given; without an estimator installs a `BaseEstimator` whose `coef_` is the ECIs |
| Expansion.CopiesAreIndependent | smol/cofe/expansion.py:173-184 | writing into returned copies leaves the stored matrix and weights unchanged |

## Left out

- Geometry is not modelled:
  - symmetry;
  - structure matching;
  - orbit generation (`from_cutoffs`, `_gen_*_orbits`, `_gen_orbit_indices`);
  - `scmatrix_from_structure`, `structure_site_mapping` and `refine_structure`;
  - `corr_from_structure`;
  - the supercell's coordinate matching, `structure_from_occu`, `mapping_from_structure` and `occu_from_structure`.

  Each orbit's index table, the site mapping and each site's allowed species are inputs.
- `smol/cofe/space/orbit.py` is not part of this model:
  - `Orbit.eval` is a parameter;
  - `Orbit.assign_ids` and `Orbit.remove_bit_combos_by_inds` are `ClusterSpace.AssignIds` and `ClusterSpace.RemoveCombosByInds`, with the behaviour the subspace relies on.
- The compiled helpers `delta_corr_single_flip` and `corr_from_occupancy` are parameters. The Ewald terms enter only through their count.
- These subspace members are not modelled:
  - `orbit_hierarchy`, `function_hierarchy` and `get_sub_function_ids`;
  - the multiplicity properties, `num_functions_per_orbit` and `function_inds_by_size`;
  - `change_site_bases`, `copy`, `__eq__` and `__str__`;
  - `PottsSubspace`.
- `get_sub_orbits` is modelled only in the sizes it searches, because `is_sub_orbit` is geometry.
- Random draws, `time.time` and the timing dictionary are not modelled:
  - random draws become `logu` and draw indices;
  - the timing dictionary of `_attempt_step` is dropped.

  Energy changes, the acceptance decision of the base ensemble, processor features and usher proposals are inputs.
- Usher and bias behaviour is not modelled:
  - `update_aux_state` and `set_aux_state` of ushers;
  - `compute_initial_trace`;
  - `mckernel_factory`, `mcusher_factory` and `mcbias_factory`.

  `smol/utils.py` is not part of this model.
- Floating point is not modelled: reals are exact, so there are no tolerances and no `np.allclose`. These are left out with it:
  - sines, cosines and polynomial values (the parameter `elementary`);
  - `np.linspace`, whose result is the parameter `grid`, and the temperature sweep of `anneal`;
  - QR `orthonormalize`, `is_orthogonal`/`is_orthonormal` and measure warnings;
  - the computation of the rotation matrix, which `Rotate` takes as input, and its zeroing of tiny entries;
  - `dos` and `exp` in Wang–Landau;
  - `num_prims_from_matrix`.
- Serialisation (`as_dict`/`from_dict` bodies, `thermo_boundaries`) is not modelled. Of `DiscreteBasis.from_dict`, only the class dispatch is modelled.
- `ClusterExpansion.from_radii`, `predict` and `prune` are not modelled, nor the printed table of `print_ecis`. Estimator fitting is foreign: `Fit` receives the resulting `coef_`.
- `Canonical.CanonicalEnsemble.FinishAnneal`: the processor's decode/encode of the minimum occupancy is taken as a round trip, since the processor is not part of this model. The member returns the minimum occupancy as codes, where the source returns it decoded into species.
- `Basis.Capitalize` folds ASCII letters only.
- `Basis.BasisFactory` requires a name for which the module defines an iterator, because `derived_class_factory` lives in `smol/utils.py`.
- `HierarchyMappings.InvertMapping` requires every value to be a row index. On a larger value the source raises IndexError, and a negative value would index from the end.
- `HierarchyMappings.CompleteMapping` requires an acyclic table, given with a ranking as a termination measure. On a cyclic table the source's inner loop does not terminate.
- `Flips.WriteFlips`, `Canonical.CanonicalEnsemble.AttemptStep`, `Kernels.UniformlyRandom.SingleStep`, `Kernels.Metropolis.SingleStep` and `WangLandau.WangLandauKernel.SingleStep` require every site of the step to lie within the occupancy. The source's ushers only propose such steps, and numpy would raise IndexError otherwise.
- `Supercell.CorrFromOccupancy` requires every table row to index the occupancy.
- `SemiGrand.SemiGrandEnsemble.ComputeFeatureVector` and `SemiGrand.SemiGrandEnsemble.ComputeFeatureVectorChange` require every code to index the table.
- `WangLandau.WangLandauKernel.SingleStep` requires a non-zero bin width. The source's float floor division by zero yields NaN, and `int` then raises.
- `Canonical.GetFlips` requires the sublattices' sites to index the occupancy.
- `ClusterSpace.ClusterSubspace.AddExternalTerm` compares term kinds by equality. The model's term kinds have no subclasses, so the asymmetry of `isinstance` under subclassing is not captured: a subclass term refused when its base is present, a base term accepted when a subclass is present.
- `Kernels.CommitStep`, `Kernels.UniformlyRandom.SingleStep` and `Kernels.Metropolis.SingleStep` record the occupancy's values in the trace. The source stores the array object itself, so later writes to the occupancy also show through `trace.occupancy`. That aliasing is not modelled.
- `Kernels.Flag`, `Kernels.DeltaRecord` and `Kernels.Metropolis.SetTemperature` store `accepted`, `enthalpy`, `bias` and `temperature` as one-element arrays. After a step or a set the source stores 0-d arrays (`np.array(value)`); the shape difference is not modelled.
- `Kernels.UniformlyRandom.constructor` and `Kernels.Metropolis.constructor` give the state before the constructor's initial step. The whole constructor, initial step included, is `Kernels.NewUniformlyRandom` and `Kernels.NewMetropolis`. These take the bias as a class name, checked as the bias setter checks it, and take the initial step's proposal, feature change, bias change and draw as parameters.
- `Canonical.CanonicalEnsemble.SetTemperature`: after a failed call the ensemble is outside `Valid`, because `beta` no longer matches the stored temperature. Its step methods require `Valid`, so the model says nothing about stepping an ensemble in that state.
- `Canonical.CanonicalEnsemble.constructor` requires a non-zero temperature. The zero case is `Canonical.NewCanonical`, which raises ZeroDivisionError.
- `WangLandau.WangLandauKernel.EndPass` checks flatness only when at least one bin exists. On an empty histogram the source's `mean(axis=1)` would raise instead; that state cannot arise after the constructor's initial step, which always creates a bin.
- `WangLandau.WangLandauKernel` does not model the step trace it inherits from `MCKernel`. Its own `single_step` never writes that trace, so it keeps `accepted = [True]` and an empty `delta_trace` throughout. The kernel has no temperature: the `temperature=1` its constructor passes goes on to the usher factory with the other keyword arguments.
- `SemiGrand.CreateSemiGrand` and `SemiGrand.NewPotentials` require `Partition`: every sublattice well formed, its sites inside the supercell, and no site in two sublattices. The source's sublattices come from the processor and meet this; numpy would raise IndexError on a site past the table.
- `Supercell.CorrFromOccupancy` and the other members that take `TablesFit` also require every table to have at least one row and every bit combo to be non-empty. On an empty table the source's mean is NaN, and on an empty combo list `np.concatenate` raises ValueError.
- `Supercell.DeltaCorr` takes no `debug` flag, so the AssertionError path of `delta_corr` is not modelled. `Supercell.DeltaTelescopes` states the identity that assertion checks.

## Findings

| source | as written | input that shows it | evidently intended | confidence | as-written member | corrected member |
|---|---|---|---|---|---|---|
| smol/moca/ensemble/semigrand.py:199-203 | the table gets `max(encoding)` columns, and `table[sites, encoding]` pairs `sites[k]` with `encoding[k]` | one active sublattice of two sites with species coded 0 and 1: one column only, so code 1 is out of range; with spare columns, site 0 gets only code 0's potential | `max + 1` columns, with every site of the sublattice holding every species' potential | not executed | SemiGrand.MuTableColumnsShort | SemiGrand.BuildMuTable |
| smol/moca/sampler/kernel.py:584 | `histograms > flatness * histograms.mean(axis=1)` broadcasts the walkers' means along the bin axis | two walkers with histograms `[1, 1]` and `[10, 10]`, flatness 0.8: the first is judged not flat | each walker is compared with its own mean | not executed | WangLandau.FlatnessComparesOtherWalkers | WangLandau.FlatPerWalker |
| smol/moca/sampler/kernel.py:187 | the usher check tests the class name against `valid_mcushers`, whose keys are step names | a `Flipper` usher fails, because "Flipper" is not among "flip" and "swap" | the check accepts the listed classes | not executed | WangLandau.WangLandauRejectsItsUshers | WangLandau.WangLandauAcceptsItsUshers |
| smol/moca/sampler/kernel.py:635 | `set_aux_state` calls `self.feature_fun`, which the kernel does not define | any call raises AttributeError | energies are the features dotted with the natural parameters | not executed | WangLandau.SetAuxStateNeverSets | WangLandau.WangLandauKernel.SetAuxState |
| smol/cofe/space/clusterspace.py:860-867 | with no level, a negative level or a level at least the size, `stop` is 0 and `min_size` is ignored | a triplet orbit with `level=None` and `min_size=2` still searches size 1 | sizes below `min_size` are never searched | not executed | ClusterSpace.SubOrbitSearchIgnoresMinSize | ClusterSpace.SubOrbitSearchSizesFixedMeaning |
| smol/moca/ensembles/canonical.py:164-169 | after `reset`, the minimum is restored as the current state, but `_min_energy` stays the initial energy | an anneal that finds an energy below the initial one | the restored minimum is also recorded as the minimum | not executed | Canonical.AnnealLosesMinimum | Canonical.CanonicalEnsemble.FinishAnnealFixed |
| smol/cofe/space/basis.py:270-279 | the checks compare the raw indices, so a negative and a positive index naming one row pass | three species with indices 1 and -1 | indices naming the same function are rejected | not executed | Basis.RotateSameFunctionPasses | Basis.RotateCheck |
