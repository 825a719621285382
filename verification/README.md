# mordred core in Dafny

This project models the core of mordred, a molecular descriptor calculator.
It covers four pieces.

- **Descriptor identity** (`descriptor.dfy`, module `Descriptors`). A descriptor is the pair (class, `parameters()`). Equality, the orderings, the hash and `__reduce_ex__` are derived from that pair as Python 3's tuple comparison does it.
  - Python booleans are the integers 0 and 1.
  - Property functions are unorderable.
  - A nested descriptor compared with anything else fails with AttributeError, raised by `other.parameters()`.
- **Missing-value channel** (also `Descriptors`). A computation ends in an `Outcome`: a value, a missing value (a raised `MissingValueException` carrying its error), or another raised exception. `fail`, `rethrow_zerodiv`, `rethrow_na` and `coord` are functions on outcomes.
- **Result container** (`result.dfy`, module `Results`). It holds the values, the descriptors and the name index. `keys()` returns a one-shot iterator over the descriptors, which matters because `__init__` reads its descriptor argument twice. `items`, `fill_missing`, `drop_missing`, `asdict`, positional lookup and lookup by name are defined on it. `drop_missing` is a method with the source's loop.
- **Two descriptor families.**
  - The BCUT family (`bcut.dfy`, module `Bcut`). The Burden matrix is built in place in an `array2`. `BurdenEigenValues` copies that matrix and fills the copy's diagonal in place. Picking an eigenvalue uses Python indexing, and names are parsed back.
  - The spectral family (`spectral.dfy`, module `Spectral`). `Eigen` and the indices computed from it. The dependency declarations. Names. The `method` registry as a class whose `methods` list the decorator appends to. `method_dict` and `get_method`.
  - `catalog.dfy` (module `Catalog`) holds what each class declares (flags, `dependencies()`, `preset()`), with the base class's defaults.
  - `molecule.dfy` is the molecule abstraction.
  - `numeric.dfy` has exact sums, extremes, and a float64 value that can be +inf or NaN.

Reals are exact. `np.linalg.eig`, `exp`, `log` and `x ** -0.5` are function-valued parameters.

## Model

| member | source | states |
|---|---|---|
| Descriptors.MissingValueExceptionClass | mordred/_base/descriptor.py:9-16 | A `MissingValueException(e)` is an Exception. Handlers for Exception and BaseException catch it; arithmetic and lookup handlers do not. |
| Descriptors.Fail | mordred/_base/descriptor.py:133-135 | `fail(e)` never yields a value and never raises anything else. It signals a missing value whose error is exactly `e`. |
| Descriptors.RethrowZeroDiv | mordred/_base/descriptor.py:124-131 | A FloatingPointError or ZeroDivisionError becomes a missing value carrying a ZeroDivisionError with the same args. Other exceptions and normal results pass unchanged. Nothing zero-division-like escapes. |
| Descriptors.RethrowZeroDivIdempotent | mordred/_base/descriptor.py:124-131 | Nesting `rethrow_zerodiv` twice is the same as once. |
| Descriptors.RethrowZeroDivMissingReason | mordred/_base/descriptor.py:124-131 | A missing value coming out either came in as one or carries a ZeroDivisionError. |
| Descriptors.RethrowNa | mordred/_base/descriptor.py:137-143 | Exactly the exceptions that are instances of the given class become missing values, a `MissingValueException` included. Anything that escapes is not an instance of it. |
| Descriptors.RethrowNaLetsOthersThrough | mordred/_base/descriptor.py:137-143 | A raised exception gets through `rethrow_na(E)` if and only if it is not an instance of E. |
| Descriptors.Coord | mordred/_base/descriptor.py:116-122 | Without `require_3D`, `coord` is a missing value wrapping AttributeError("use 3D coordinate in 2D descriptor"). With it, `coord` is the context's answer. |
| Descriptors.CoordIn2DIgnoresContext | mordred/_base/descriptor.py:116-122 | A 2D descriptor's `coord` is the same whatever the context holds, and it is a missing AttributeError. |
| Descriptors.EqIsIdentity | mordred/_base/descriptor.py:58-67 | Whenever `==` answers, it is true exactly when the (class, parameters) pairs are equal. |
| Descriptors.NeIsNotEq | mordred/_base/descriptor.py:58-67 | `!=` is the negation of `==`, failures included. |
| Descriptors.CompareReflexive | mordred/_base/descriptor.py:58-72 | A descriptor is `==` and `<=` itself, and not `<` itself. `<` is irreflexive. |
| Descriptors.GtIsConverse | mordred/_base/descriptor.py:58-72 | `a > b` is `b < a` and `a >= b` is `b <= a`. Descriptors of different classes are unorderable (TypeError). |
| Descriptors.LeIsLtOrEq | mordred/_base/descriptor.py:58-72 | When both answer, `a <= b` is `a < b or a == b`. |
| Descriptors.LtTransitive | mordred/_base/descriptor.py:58-72 | `<` is transitive, and only relates descriptors of one class. |
| Descriptors.EqualDescriptorsHashEqual | mordred/_base/descriptor.py:55-56 | Descriptors that are `==` have equal hashes. |
| Descriptors.ReduceRoundTrip | mordred/_base/descriptor.py:28-29 | Rebuilding from `__reduce_ex__` gives back a descriptor `==` to the original. |
| Catalog.FlagsOf | mordred/_base/descriptor.py:23-26 | Base defaults are explicit_hydrogens=True, kekulize=False, require_connected=False, require_3D=False. BCUTBase (mordred/_bcut.py:7-8) turns hydrogens off for Burden, BurdenEigenValues and BCUT. Common (mordred/_matrix_attributes.py:19-29) takes both flags from its parameters and requires a connected molecule. |
| Catalog.DependenciesOf | mordred/_base/descriptor.py:84-89 | The base `dependencies()` is None. Only the spectral classes, BurdenEigenValues and BCUT declare a dict. |
| Catalog.PresetOf | mordred/_base/descriptor.py:76-82 | The base `preset()` is empty. BCUT's preset is the only non-empty one, and it holds only well-formed BCUT descriptors. |
| Catalog.BcutNthSharesDependencies | mordred/_bcut.py:94-95 | BCUTs of one property declare the same dependencies whatever their `nth`: the one BurdenEigenValues of that property. |
| Catalog.BcutChainWellFormed | mordred/_bcut.py:44-45 | BCUT depends on BurdenEigenValues, which depends on Burden, which declares no dependencies. |
| Results.Init | mordred/_base/result.py:13-16 | `Result(r, d)` keeps both arguments' elements. The name index is built from `d` when `d` is a list, and is empty when `d` is an iterator, which `list(d)` has already exhausted. |
| Results.New | mordred/_base/result.py:13-16 | `Result(r, d)` with two lists keeps both as given and builds the name index from `d`. |
| Results.NameIndexLastWins | mordred/_base/result.py:16 | Every `str(d)` is in the index. It maps to a position carrying that name, and no later position carries it (the later position wins). |
| Results.Len | mordred/_base/result.py:149-150 | `len(result)` is the number of descriptors. |
| Results.Items | mordred/_base/result.py:59-84 | `items()` pairs descriptors and values by position and truncates to the shorter list. |
| Results.FillMissingAsWritten | mordred/_base/result.py:28-41 | As written, `fill_missing(x)` keeps the descriptors and replaces each missing value by `x`, but its name index is empty, because the descriptors arrive as the `keys()` iterator. |
| Results.FillMissingAsWrittenLosesNames | mordred/_base/result.py:38-41 | As written, every lookup of the filled Result by name or by descriptor raises KeyError. |
| Results.FillMissingAsWrittenCounterexample | mordred/_base/result.py:38-41 | `Result([1], [d])[d]` is 1, and so is the lookup after the intended `fill_missing(0)`; after `fill_missing(0)` as written it raises KeyError. |
| Results.FillMissing | mordred/_base/result.py:28-41 | As intended, the filled Result has the same descriptors and length. Each value becomes `x` if missing and is unchanged otherwise, and the name index is the one built from the descriptors, so it is unchanged. |
| Results.FillMissingKeepsLookups | mordred/_base/result.py:28-41 | After the intended `fill_missing(x)`, a lookup by name or descriptor succeeds exactly when it did before. A success gives the old value with a missing value replaced by `x`, and a failure is the same failure. |
| Results.DropMissing | mordred/_base/result.py:43-57 | The loop returns the filter of the items that keeps the present pairs, as a new Result. |
| Results.KeepPresentSound | mordred/_base/result.py:52-55 | No kept pair is missing, and every kept pair is one of the input's. |
| Results.KeepPresentAllPresent | mordred/_base/result.py:52-55 | A list with no missing value is kept whole. |
| Results.KeepPresentAppend | mordred/_base/result.py:50-57 | The filter commutes with concatenation, so relative order is preserved. |
| Results.DropLeavesNoMissing | mordred/_base/result.py:43-57 | After `drop_missing()` the two lists have equal length and no value is missing. |
| Results.DropIdempotent | mordred/_base/result.py:43-57 | `drop_missing()` twice is `drop_missing()` once. |
| Results.FillThenDropKeepsAll | mordred/_base/result.py:28-57 | After `fill_missing(x)` with a present `x`, `drop_missing()` keeps every item. |
| Results.IndexValues | mordred/_base/result.py:153-160 | `ix[i]` is `values[i]`, with negative `i` counting from the end. An index out of range raises IndexError. A slice `start:stop` returns `values[s:e]`, where each bound counts from the end when negative and is then clamped to `0..len`; it is empty when `s >= e`. |
| Results.SliceExamples | mordred/_base/result.py:159-160 | `values[:]` is the whole list, and `values[-1:]` is the last element alone. |
| Results.ValueByName | mordred/_base/result.py:163-171 | Name lookup returns the value at the indexed position. An unknown name raises KeyError, and a position past the values raises IndexError. |
| Results.GetItem | mordred/_base/result.py:136-147 | Integers and slices go to positional lookup. Strings and descriptors go to name lookup (a descriptor through `str`). Any other key type raises TypeError. |
| Results.LookupByDescriptor | mordred/_base/result.py:163-171 | Looking up a Result's own descriptor finds the value of the last descriptor with the same name. |
| Results.LookupDistinctNames | mordred/_base/result.py:136-147 | With distinct names, `result[d]` and `result[str(d)]` both give the value at `d`'s own position. |
| Results.AsDictRaw | mordred/_base/result.py:103-104 | Every item's descriptor is a key. Each entry comes from one of the items. |
| Results.AsDictRawLastWins | mordred/_base/result.py:103-104 | In `asdict(rawkey=True)`, a descriptor maps to the value of its last pair. |
| Results.AsDictStr | mordred/_base/result.py:105-109 | Every item's name is a key. Each entry is the value of an item with that name. |
| Results.AsDictStrIsNameLookup | mordred/_base/result.py:91-109 | With as many values as descriptors, `asdict()[s]` is the value that name lookup returns for `s`. |
| Bcut.CalculateBurden | mordred/_bcut.py:11-34 | The loop yields a fresh N×N matrix whose every cell is the Burden cell value of the bond list. |
| Bcut.BurdenSymmetric | mordred/_bcut.py:31-32 | The Burden matrix is symmetric. |
| Bcut.BurdenUnbonded | mordred/_bcut.py:15 | A cell that no bond writes, the diagonal included, keeps 0.001. |
| Bcut.BurdenLastBondWins | mordred/_bcut.py:17-32 | A cell written by a bond holds the weight of the last bond joining that pair. That weight is order/10, or 1.0 with no order, plus 0.01 at a terminal atom. |
| Bcut.WithDiagonal | mordred/_bcut.py:53 | `fill_diagonal` puts the property on the diagonal and leaves every off-diagonal cell as it was. |
| Bcut.CalculateEigenValues | mordred/_bcut.py:47-55 | The method's result equals the function of the untouched Burden matrix: `[nan]` if any property value is NaN, otherwise the sorted eigenvalues of the overlaid copy. |
| Bcut.SortDescending | mordred/_bcut.py:55 | The result is non-increasing and a permutation of the input. |
| Bcut.EigenValuesSorted | mordred/_bcut.py:54-55 | The returned eigenvalues are finite, largest first, and exactly those that `eig` computed, as a multiset. |
| Bcut.Pick | mordred/_bcut.py:97-101 | `bev[nth]` uses Python indexing (negative counts from the end). An out-of-range `nth` gives NaN. |
| Bcut.BcutNaNProperty | mordred/_bcut.py:49-51 | A property that is NaN at any atom makes every BCUT of that property NaN. |
| Bcut.BcutHighestAndLowest | mordred/_bcut.py:97-101 | `nth=0` gives the largest eigenvalue and `nth=-1` the smallest. With no eigenvalues the result is NaN. |
| Bcut.BcutDependencies | mordred/_bcut.py:94-95 | A BCUT depends on `bev`, the eigenvalues for its property, flagged with that property's `gasteiger_charges`. |
| Bcut.BevDependencies | mordred/_bcut.py:44-45 | BurdenEigenValues depends on `burden`, the one parameterless Burden. |
| Bcut.BcutSharing | mordred/_bcut.py:90-95 | BCUTs are `==` exactly when the property and `nth` are equal. BCUTs of one property with any two `nth` have `bev` dependencies that are `==`, and every BurdenEigenValues depends on the single Burden. |
| Bcut.Preset | mordred/_bcut.py:70-76 | The preset holds each property in order, first with `nth=0` and then with `nth=-1`, property-major. |
| Bcut.BcutNameRoundTrip | mordred/_bcut.py:82-86 | The name `BCUT<prop>-<|nth|>l` (nth<0) or `BCUT<prop>-<nth+1>h` parses back to the property name and `nth`. |
| Bcut.BcutNameInjective | mordred/_bcut.py:82-86 | Different (property name, nth) pairs have different names. |
| Spectral.WithClass | mordred/_matrix_attributes.py:31-37 | `cls(*self._key_args)` has the same (matrix, explicit_hydrogens, kekulize) triple. |
| Spectral.FamilyDeps | mordred/_matrix_attributes.py:39-40 | Every family descriptor that a spectral index declares has its triple and sits lower in the dependency graph. |
| Spectral.ClosureSharesEigen | mordred/_matrix_attributes.py:39-40 | Every descriptor evaluated for an index carries its triple. The only Eigen among them is `Eigen(*key_args)`, and it is always among them. |
| Spectral.SharedEigenKey | mordred/_matrix_attributes.py:23-40 | Indices sharing a triple share one Eigen descriptor. |
| Spectral.NameDeterminesClassAndFlags | mordred/_matrix_attributes.py:66-75 | The name is the class name, then "K" if kekulize, then "H" if explicit_hydrogens. It gives back the class and both flags. |
| Spectral.EigenCalculate | mordred/_matrix_attributes.py:85-99 | A None matrix raises ValueError, and so does an empty spectrum. Otherwise the values and vectors are `eig`'s, and `min`/`max` are the first positions of a smallest and a largest eigenvalue. |
| Spectral.ArgMin | mordred/_matrix_attributes.py:96 | The first position of a smallest element. |
| Spectral.ArgMax | mordred/_matrix_attributes.py:97 | The first position of a largest element. |
| Spectral.CalcSpAbs | mordred/_matrix_attributes.py:110-111 | SpAbs is non-negative and at least SM1 in absolute value. |
| Spectral.CalcSpMax | mordred/_matrix_attributes.py:122-123 | SpMax is the largest eigenvalue. |
| Spectral.SpDiamIsSpread | mordred/_matrix_attributes.py:140-141 | SpDiam is the largest minus the smallest eigenvalue, so it is non-negative. |
| Spectral.SpMeanWithinSpectrum | mordred/_matrix_attributes.py:151-152 | SpMean lies between the smallest and the largest eigenvalue. |
| Spectral.SM1IsCountTimesMean | mordred/_matrix_attributes.py:211-212 | SM1 is N times SpMean. |
| Spectral.CalcSpAD | mordred/_matrix_attributes.py:169-170 | SpAD is non-negative. |
| Spectral.SpMADWithinDiameter | mordred/_matrix_attributes.py:184-185 | SpMAD, fed the SpAD and SpMean of the same spectrum, lies between 0 and the spectral diameter. |
| Spectral.LogEEShift | mordred/_matrix_attributes.py:196-200 | The shift is non-negative and at least the largest eigenvalue, so no exponent that LogEE evaluates is positive. |
| Spectral.CalcVE1 | mordred/_matrix_attributes.py:223-224 | VE1 is non-negative and bounds the absolute value of the leading eigenvector's sum. |
| Spectral.VE2IsMeanCoefficient | mordred/_matrix_attributes.py:238-239 | VE2, fed the VE1 of the same decomposition, is non-negative. It is at most any bound on the leading eigenvector's absolute coefficients, and N·VE2 bounds the absolute sum of that vector. |
| Spectral.NpLog | mordred/_matrix_attributes.py:255 | Under the raising error state, `log` of a positive number is a value. Zero or a negative number raises FloatingPointError. |
| Spectral.CalcVE3 | mordred/_matrix_attributes.py:253-255 | VE3 never raises. It is missing (a ZeroDivisionError) exactly when 0.1·N·VE1 ≤ 0, and is otherwise that logarithm. |
| Spectral.CalcVR1 | mordred/_matrix_attributes.py:266-275 | The loop's sum equals the bond-by-bond float64 accumulation of `(v[i,max]·v[j,max]) ** -0.5`. |
| Spectral.RandicSumCases | mordred/_matrix_attributes.py:273 | VR1 is NaN exactly when some bond's product is negative. It is +inf exactly when none is negative and some is zero. Otherwise it is finite and non-negative for a positive power. |
| Spectral.CalcVR2 | mordred/_matrix_attributes.py:289-290 | VR2 is VR1 divided by the atom count, with NaN and +inf carried through. |
| Spectral.CalcVR3 | mordred/_matrix_attributes.py:304-306 | VR3 never raises. NaN and +inf pass through `log`. A finite non-positive argument is a missing ZeroDivisionError. |
| Spectral.MethodRegistry.constructor | mordred/_matrix_attributes.py:10 | The `methods` list starts empty. |
| Spectral.MethodRegistry.Method | mordred/_matrix_attributes.py:13-16 | The decorator appends the class to `methods`, sets its `as_argument` to its name, and returns it. |
| Spectral.DefineMethods | mordred/_matrix_attributes.py:13-16 | After the module is defined, `methods` is the 13 decorated classes in definition order, each with its name as `as_argument`. |
| Spectral.MethodDict | mordred/_matrix_attributes.py:309 | Every key is its class's `__name__`, every listed class is present, and nothing else is. |
| Spectral.MethodDictContents | mordred/_matrix_attributes.py:309 | `method_dict` names exactly the 13 decorated classes; Eigen and SpMean are absent. |
| Spectral.GetMethod | mordred/_matrix_attributes.py:312-316 | A string is looked up in `method_dict`, and an unknown one raises KeyError. Anything else is returned unchanged. |
| Spectral.GetMethodByName | mordred/_matrix_attributes.py:312-316 | Looking up a class's name gives the class if it is decorated, and KeyError otherwise. |

## Left out

- `exp`, `log` and `x ** -0.5` are parameters with no properties assumed. The result of `np.linalg.eig` is a parameter too. The indices computed after `Eigen` (VE1 to VR3 and the spectral ones) are stated for a decomposition that satisfies `Spectral.IsEig`: N eigenvalues, an N-by-N vector matrix, and the first-extreme `min` and `max` indices that `Eigen` computes. The imaginary parts that `Eigen` discards are taken as already discarded.
- The atom count: SpMAD, VE2, VR2, VE3 and VR3 divide by `mol.GetNumAtoms()`. `Spectral.SpMADWithinDiameter` and `Spectral.VE2IsMeanCoefficient` use the number of eigenvalues in its place. The two are equal because the matrix is N-by-N for the same prepared molecule, but the model does not tie the matrix to the molecule.
- IEEE rounding is not modelled. Reals are exact, and only NaN and +inf are represented.
- `np.errstate`: only its effect is modelled, namely `log` raising FloatingPointError at zero and below.
- The RDKit molecule is reduced to an atom count, the bonds (end atoms, optional bond order) and the atom degrees. A failing `GetBondTypeAsDouble` is a missing order.
- The atomic-property registry is not modelled. Properties are given as a value or NaN per atom, and `BCUT.__init__`'s resolution of a property name through `getter` (and its default `'m'`) is left out. The property name in a BCUT name is the property's symbol. `get_properties` is the given property list of `Bcut.Preset`.
- `is_missing` and `str()` of an arbitrary descriptor are given functions.
- Burden and BurdenEigenValues have no `__str__` of their own. Their string falls back to `__repr__`, which is not modelled.
- The evaluation context and its cache are not modelled. `mol` and the context's coordinates are inputs.
- `__repr__`, `_pretty`, `as_argument` on instances, `description()`, `is_descriptor_class`, `six`/ABCMeta plumbing, and `Result.__str__`/`__repr__`/`__reversed__`/`__iter__` are not modelled.
- Results.IndexValues: slices with a step are not modelled.
- Descriptors.Compare: property functions are equal when their symbol and `gasteiger_charges` flag agree, where Python compares the function objects by identity. Comparing two distinct properties for order raises TypeError, as it does for functions.
- Spectral.CalcSpMAD, Spectral.CalcVE2, Spectral.CalcVR2: these require at least one atom. With no atoms the spectrum is empty and `Eigen` raises before these run.
- Spectral.CalcLogEE: only the shift is proved; nothing is stated about the value, because `exp` and `log` are opaque.
- VR1 is not wrapped in `rethrow_zerodiv`, so a negative bond product gives NaN and a zero product gives +inf, not a missing value.
- Python 2 ordering is not modelled. Under Python 2, classes and functions are orderable, so comparing descriptors of different classes, or BCUTs of two distinct properties, gives an answer instead of TypeError. The model follows Python 3.
- Catalog.FlagsOf, Catalog.DependenciesOf, Catalog.PresetOf: `Other(_)` is a stub for the classes outside this model (the other matrix descriptors among them). It gets the base class's defaults, and no override such a class may declare is modelled.
- Results.FillMissing: the default `value=np.nan` is not modelled. The fill value is always passed, because values are of an arbitrary type `V`.

## Findings

| source | as written | input that shows it | evidently intended | confidence | as-written member | corrected member |
|---|---|---|---|---|---|---|
| mordred/_base/result.py:38-41 | `fill_missing` passes `self.keys()`, a one-shot iterator (result.py:75), as `d`. `__init__` exhausts it with `list(d)` (line 15), so the comprehension on line 16 builds an empty name index. | `Result([1], [d]).fill_missing(0)[d]` raises KeyError at result.py:171 | the filled Result keeps the name index, as with `list(self.keys())` | high; not executed | Results.FillMissingAsWrittenCounterexample | Results.FillMissing |
