# luga: result normalizer and model cache, in Dafny

luga identifies the language of a text with a pretrained fastText model.
`luga/artifacts.py` holds the two parts modelled here:

- **The result normalizer.** `beautify_one` turns one raw fastText
  prediction into a `Language(name, score)`. The prediction is a tuple of
  labels such as `("__label__da",)` and a one-element probability array.
  `beautify_many` does the same for a batch and then shapes the output.
  A score strictly below the threshold (0.5 by default) gives the sentinel
  `Language()`, which is `("unknown", 0.0)`. Otherwise the name is the first
  label with every `"__label__"` removed, and the score is kept.
- **The model cache.** `model_loader` downloads the model file when it is
  missing or when `re_download` is set. `model_deleter` removes a model file
  and reports whether there was one.

Modules:

- `PyStr` (`pystr.dfy`): Python's `str.replace` as `ReplaceAll`, with
  lemmas on when it leaves a string alone and when it strips a prefix.
- `Results` (`results.dfy`): the `Language` type with its `keys()` and
  `__getitem__`, `.squeeze().item()` as `Squeeze`, and `beautify_one` as
  `BeautifyOne`. The exceptions the source can raise are `Err` values of a
  `Result` type.
- `Batch` (`batch.dfy`): `beautify_many` as a method with the source's
  `for` loop over `zip`. It is proved equal to the function
  `BeautifyManyOf`, and the properties are lemmas about that function.
- `ModelCache` (`model_cache.dfy`): a `Storage` class whose `files` map
  stands for the disk. Its methods `ModelLoader` and `ModelDeleter` change
  that map. `Exists(path)` is `path in files`, standing for `Path.exists()`.
  A ghost counter `fetches` records how many GET requests were sent.

Behaviour of the code that the model keeps:

- The threshold test is strict. A score equal to the threshold is accepted
  (`AtOrAboveThresholdIsNamed`).
- `language[0]` is evaluated only when the score clears the threshold.
  An empty label tuple therefore fails only at or above the threshold.
- A score array that does not hold exactly one value fails in `.item()`
  (`ScoreNotScalar`).
- `beautify_many` pairs its inputs with `zip`. Inputs of different lengths
  are truncated to the shorter one, and no error is raised.
- `beautify_many` binds `results` only under `only_language`. Without that
  flag every call whose loop finishes fails with the unbound-name error
  (`ResultsUnbound`), whatever `to_array` is. No default output is invented.
  The function's annotated return type `List[Language]` is therefore never
  produced.
- The model is not told that the sentinel means "below threshold". With a
  threshold of 0.0 or less, an accepted prediction can equal the sentinel
  (`SentinelAmbiguousAtZeroThreshold`). So "sentinel exactly when below
  threshold" is proved only for positive thresholds
  (`SentinelIffBelowThreshold`).
- Removing every `"__label__"` does not always leave a name free of it.
  `"__lab__label__el__"` becomes `"__label__"` (`RemovalCanRecreatePattern`).
  The name is the bare code when the label is the prefix followed by a code
  that does not itself contain the prefix (`StripLabelOfPrefixedCode`).
- `model_loader` opens the model file for writing before it sends the GET.
  A failed transfer therefore leaves an empty file. The next load without
  `re_download` takes that file for the cached model
  (`FailedLoadLeavesEmptyModel`).

The code does not reject batch inputs of unequal length. It never returns
the `List[Language]` its return annotation advertises (luga/artifacts.py:93).
It does not write the model file atomically.

## Model

| member | source | states |
|---|---|---|
| PyStr.ReplaceAll | luga/artifacts.py:85 | `str.replace` with a non-empty pattern. Replacing by a text no longer than the pattern never lengthens the string, and a strictly shorter replacement shortens it when the pattern occurs |
| PyStr.ReplaceAbsent | luga/artifacts.py:85 | A string in which the pattern does not occur comes back unchanged |
| PyStr.ReplaceLeading | luga/artifacts.py:85 | The pattern followed by pattern-free text comes back as the replacement followed by that text |
| PyStr.RemovalCanRecreatePattern | luga/artifacts.py:85 | Removing every `"__label__"` from `"__lab__label__el__"` leaves `"__label__"`, so the result can still contain the prefix |
| Results.Language.Keys | luga/artifacts.py:63-65 | `keys()` gives the two distinct field names, `"name"` then `"score"` |
| Results.Language.Get | luga/artifacts.py:67-70 | `__getitem__` gives a value exactly for the two keys: the name for the first, the score for the second, and `None` for any other key |
| Results.GetKeysRebuilds | luga/artifacts.py:63-70 | Every key gives a value, and looking the keys up in order rebuilds the same `Language` |
| Results.Squeeze | luga/artifacts.py:80 | `.squeeze().item()` succeeds exactly when the array holds one value, and returns that value; otherwise it fails with `ScoreNotScalar` |
| Results.StripLabel | luga/artifacts.py:85 | The language code is never longer than the raw label |
| Results.BeautifyOne | luga/artifacts.py:73-85 | Succeeds exactly when the score array has one value and either that value is below the threshold or a label exists. A success is the sentinel or carries the raw score, which is at least the threshold. At or above the threshold the value is exactly the stripped first label with the raw score. A score array without exactly one value fails with `ScoreNotScalar`; with one score, the only failure is the missing label |
| Results.BelowThresholdIsSentinel | luga/artifacts.py:80-83 | A score below the threshold yields `Language()`, whatever the labels are, even none |
| Results.AtOrAboveThresholdIsNamed | luga/artifacts.py:80-85 | A score at or above the threshold, including one equal to it, yields the stripped first label with that score |
| Results.SentinelIffBelowThreshold | luga/artifacts.py:82-85 | With a positive threshold, a successful result is the sentinel exactly when the score is below the threshold |
| Results.SentinelAmbiguousAtZeroThreshold | luga/artifacts.py:58-85 | At threshold 0.0 the accepted prediction `(("__label__unknown",), [0.0])` equals the sentinel |
| Results.StripLabelOfPrefixedCode | luga/artifacts.py:85 | `"__label__"` followed by a code free of the prefix strips to exactly that code |
| Results.ExampleEnglish | luga/artifacts.py:73-85 | `(("__label__en",), [0.9827])` at the default threshold gives `Language("en", 0.9827)` |
| Results.ExampleBelowThreshold | luga/artifacts.py:82-83 | `(("__label__xx",), [0.12])` at the default threshold gives `Language("unknown", 0.0)` |
| Batch.Zip | luga/artifacts.py:100 | `zip` gives as many pairs as the shorter input has, and pair i is `(languages[i], scores[i])` |
| Batch.BeautifyEach | luga/artifacts.py:99-109 | The list the loop builds has one entry per pair, or the loop raises an exception that some pair's `beautify_one` raises |
| Batch.Names | luga/artifacts.py:112 | The comprehension keeps the length, and entry i is the name of the i-th `Language` |
| Batch.BeautifyManyOf | luga/artifacts.py:88-117 | Without `only_language` the call always fails. A success is an array exactly when `to_array` is set, and holds min(len(languages), len(scores)) names |
| Batch.BeautifyEachOk | luga/artifacts.py:99-109 | The loop completes exactly when every pair normalizes. It then holds one value per pair, in order, and value i is what `beautify_one` gives pair i |
| Batch.BeautifyEachFirstError | luga/artifacts.py:100-109 | When the pairs before k normalize and pair k fails, the loop raises pair k's exception |
| Batch.BeautifyMany | luga/artifacts.py:88-117 | The loop and the flag handling return exactly `BeautifyManyOf`: the first failing pair's exception, or the unbound-name error without `only_language`, or the names as a list or as an array |
| Batch.ManyIsPairwiseOne | luga/artifacts.py:100-112 | With `only_language`, the output has length min(len(languages), len(scores)), and entry i is the name `beautify_one` gives pair i (`"unknown"` for a sentinel) |
| Batch.ManySucceedsIff | luga/artifacts.py:111-117 | The call succeeds exactly when `only_language` is set and every pair normalizes. Once every pair normalizes, a call without `only_language` fails with the unbound-name error, with or without `to_array` |
| Batch.ToArrayKeepsNames | luga/artifacts.py:114-115 | `to_array` changes only the container: same success or error, and the same names in the same order |
| Batch.ExampleBatch | luga/artifacts.py:95-112 | `([["__label__da"], ["__label__en"]], [[0.998], [0.12]])` at 0.5 with `only_language` gives `["da", "unknown"]` |
| ModelCache.Storage.ModelLoader | luga/artifacts.py:15-34 | If the file exists and `re_download` is unset: no request and no change. Otherwise: one request, and the file is set to the body, or left empty after a failed transfer. The file exists afterwards |
| ModelCache.Storage.ModelDeleter | luga/artifacts.py:38-53 | Returns whether the file existed. Removes it and nothing else, and sends no request |
| ModelCache.Storage.DeleteTwice | luga/artifacts.py:49-53 | Of two deletions in a row, the first reports whether the file existed and the second returns false. Only that file is gone, and no request is sent |
| ModelCache.Storage.LoadTwice | luga/artifacts.py:25-34 | A plain load right after a load sends no request and changes nothing. The pair sends one request exactly when the file was missing or `re_download` was set. The disk then holds the body, or an empty model file after a failed transfer, and is otherwise unchanged |
| ModelCache.Storage.FailedLoadLeavesEmptyModel | luga/artifacts.py:29-34 | After a failed forced download the model file exists and is empty, and a following plain load keeps it without sending a request. Every other file keeps its contents |
| ModelCache.Storage.ImportTimeLoad | luga/artifacts.py:125 | The load run at import sends a request only when the model file is missing, and leaves the file present, holding the body or empty after a failed transfer |

## Left out

- HTTP transfer details: `httpx.Client`, its timeouts (10 s per read, write and pool wait, 60 s connect) and the response status. The transfer is a function from URL to a body or a failure.
- File-system details: creating the `models` directory, failures while writing or unlinking, permissions, and the package-relative path. The disk is a map from path to contents.
- Module import side effects other than the download: overriding `FastText.eprint` and `load_model`. These are foreign library calls made at load time.
- numpy: `array(...)` is taken as the identity on sequences. Score arrays are flat sequences of reals, so shapes that squeeze to one value (such as `[[0.9]]`) are not distinguished.
- Float32 and float64 rounding: scores are `real`, since only the `<` comparison matters.
- Python typing laxity: a `None` threshold, and a plain string passed where the label tuple is expected (where `[0]` would take its first character), are not modelled.
- PyStr.ReplaceAll: an empty search pattern, which Python treats differently, is excluded by its precondition. The source only calls it with `"__label__"`.
- Results.StripLabel: its own contract gives only the length bound. Its exact result for fastText labels is stated by `Results.StripLabelOfPrefixedCode`.
