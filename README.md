# Threshold resolution of the scanpy "find variable genes" wrapper

The script `etienne_scripts/scanpy-find-variable-genes.py` log-transforms an
annotated expression matrix and marks highly variable genes through scanpy.
The only logic the script owns is the loop in `main` that turns the
user's threshold options into the four optional bounds `min_mean`, `max_mean`,
`min_disp` and `max_disp`, which it passes on to `highly_variable_genes`.

This project models that loop in Dafny:

- `wrappers.dfy`: module `Wrappers`. It holds `Option`, which stands for Python's `None` or a value.
- `find_variable_genes.dfy`: module `FindVariableGenes`.
  - Data: `Param` is the two statistics, `Mean` and `Disp`.
  - `Classify` maps a parameter name to a `Param`. `None` means the name is unsupported.
  - `Entry` is one `(name, high, low)` triple, in the order the loop unpacks it.
  - `Bounds` holds the four optional bounds.
  - Specification: `Zip` is Python's `zip` over the three lists, which stops at the shortest one. `Step` is one iteration of the loop. `Apply` folds `Step` over the zipped entries. `Omitted` lists the names that draw a warning. `Resolve` and `Warnings` give the loop's result as functions of the three lists.
  - Implementation: the method `ResolveThresholds` is the loop itself. It uses the same four local variables and the same `if` / `elif` / `else` on the name. Each warning is recorded by appending the rejected name to a list.
  - The lemmas prove what the loop promises: zip truncation, which value goes to which field, last wins, that unsupported names change nothing, and the number of warnings.

Threshold values are never compared or combined. The model therefore
leaves their type generic (`T`). In particular, nothing requires low <= high.

The loop unpacks each triple as `(name, high, low)`: `low` goes to `min_*`
and `high` goes to `max_*`.

## Model

| member | source | states |
|---|---|---|
| `FindVariableGenes.Classify` | etienne_scripts/scanpy-find-variable-genes.py:41-49 | Exactly the names "mean" and "disp" are recognised, and each maps to the parameter whose name it is. Every other name falls into the unsupported branch. The result is the inverse of `NameOf`. |
| `FindVariableGenes.Zip` | etienne_scripts/scanpy-find-variable-genes.py:40 | The zipped triples are as many as the shortest of the three lists. Triple `i` is `(names[i], highs[i], lows[i])`. |
| `FindVariableGenes.ResolveThresholds` | etienne_scripts/scanpy-find-variable-genes.py:39-49 | The loop's four bounds are the fold of the per-entry step over the zipped prefix, starting from all `None`. The names it warns about are exactly `Warnings` of the three lists, in order. |
| `FindVariableGenes.ResolveEmpty` | etienne_scripts/scanpy-find-variable-genes.py:39-40 | If any of the three lists is empty, all four bounds stay `None` and no warning is issued. |
| `FindVariableGenes.ResolveReadsShortestPrefix` | etienne_scripts/scanpy-find-variable-genes.py:40 | Only the positions below the length of the shortest list are read. Cutting every list to that length changes neither the bounds nor the warnings. |
| `FindVariableGenes.ProcessEntry` | etienne_scripts/scanpy-find-variable-genes.py:41-49 | A "mean" entry sets (min_mean, max_mean) to (low, high) and leaves both dispersion bounds unchanged. A "disp" entry does the same for the dispersion pair and leaves the mean bounds unchanged. Any other name changes no bound and adds its own name as one warning. A supported name adds no warning. |
| `FindVariableGenes.UnsupportedEntryIgnored` | etienne_scripts/scanpy-find-variable-genes.py:47-49 | An entry with an unsupported name, in any position, changes no bound. The bounds equal those computed without it, so processing continues past it. |
| `FindVariableGenes.UnsupportedEntryWarned` | etienne_scripts/scanpy-find-variable-genes.py:47-49 | The same entry draws exactly one warning, naming it. The warning sits between the warnings of the entries before it and those of the entries after it. |
| `FindVariableGenes.OmittedConcat` | etienne_scripts/scanpy-find-variable-genes.py:47-49 | The warnings for two runs of entries, one after the other, are the first run's warnings followed by the second's. |
| `FindVariableGenes.LastOccurrenceWins` | etienne_scripts/scanpy-find-variable-genes.py:40-46 | If a parameter's name last occurs at entry `i`, its pair is (low, high) of entry `i`. Earlier entries for that name are overwritten. No ordering between low and high is required. |
| `FindVariableGenes.ResolveLastWins` | etienne_scripts/scanpy-find-variable-genes.py:40-46 | The same statement on the script's three lists. If position `i` is read and is the last read position naming `p`, then the minimum of `p` is `lows[i]` and the maximum is `highs[i]`. |
| `FindVariableGenes.RangeSetIffNamed` | etienne_scripts/scanpy-find-variable-genes.py:39-46 | A parameter's minimum is set exactly when its name occurs among the entries read. Its minimum and maximum are always set together. |
| `FindVariableGenes.ResolveRangeSetIffNamed` | etienne_scripts/scanpy-find-variable-genes.py:39-46 | The same statement on the script's three lists. The pair of `p` is set exactly when some position below the shortest length has `names[i]` equal to the name of `p`. Its two halves are set together. |
| `FindVariableGenes.WarningCount` | etienne_scripts/scanpy-find-variable-genes.py:40-49 | There are as many warnings as read positions whose name is neither "mean" nor "disp". |
| `FindVariableGenes.WarnedNamesUnsupported` | etienne_scripts/scanpy-find-variable-genes.py:47-49 | Every warned name is unsupported. |
| `FindVariableGenes.ResolveWarningCount` | etienne_scripts/scanpy-find-variable-genes.py:40-49 | The same statement on the script's three lists. The number of warnings equals the number of positions below the shortest length whose name is neither "mean" nor "disp". No warning names "mean" or "disp". |
| `FindVariableGenes.ExampleRun` | etienne_scripts/scanpy-find-variable-genes.py:39-49 | Example input: names ["mean", "variance", "mean"]. The bounds are min_mean = 2.0 and max_mean = 1.0, taken from the last "mean" entry even though low > high. Both dispersion bounds stay `None`. The only warning names "variance". |

## Left out

- Argument parsing (lines 13-33) is left out. The script itself defines `--flavor` (choices `seurat` and `cell_ranger`, default `seurat`), `--n-bins` (default 20) and `--n-top-genes` (default `None`) at lines 17-32. `ScanpyArgParser` from `wrapper_utils` parses and validates them. The name and threshold options come from its `add_subset_parameters` (line 22); `wrapper_utils` is not part of this model.
- The three lists are always taken as sequences, possibly empty. The model assumes that the parser delivers each of `parameter_names`, `high_thresholds` and `low_thresholds` as a list. If one of them arrived as `None`, Python's `zip` would raise `TypeError` at line 40. Whether that can happen depends on defaults inside `add_subset_parameters`, which is not part of this model.
- Reading and writing the data object (lines 37 and 63) is left out. It is file I/O through the external helpers `read_input_object` and `write_output_object`.
- `sc.pp.log1p` and `sc.pp.highly_variable_genes` (lines 55-61) are left out. They are calls into scanpy on floating-point matrices. Whether `n_top_genes` overrides the bounds is decided by that library, not by this script.
- The loop's `logging.warning` is modelled only as the list of rejected names, not as its message text or log level. The debug and info log lines (35 and 65) are left out.
- The process exit status and exception propagation (lines 66-70) are left out.
