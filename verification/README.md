# Arithmetic mean of a list, in Dafny

This project models `calculate_average` from `Python/example_utils.py`, the
only logic in the repository. The function sets a running total to zero,
adds each element of the list to it in encounter order, and returns the
total divided by the list's length. An empty list reaches the division with
a length of zero, and Python raises a division-by-zero error there.

The model has two modules:

- `Sums` (`sums.dfy`) holds the summation as a pure function. `Sum` adds
  elements left to right onto an accumulator that starts at zero, the same
  order the Python loop uses. `SumFromFront` is an independent head-first
  reference. The module also holds the facts the mean needs: concatenation,
  reordering, reversal and element-wise bounds.
- `ExampleUtils` (`example_utils.dfy`) holds the function itself.
  `CalculateAverage` is a method whose `while` loop mirrors the
  accumulation loop. `Average` is the same computation as a pure function.
  The empty-list failure is the value `Failure(EmptyInput)` of a `Result`
  datatype, not a precondition.

Python numbers are modelled as Dafny `real`, which is exact arithmetic. So
the sum does not depend on the order of addition, and the reordering and
range properties hold exactly.

## Model

| member | source | states |
|---|---|---|
| `Sums.SumPrefixStep` | Python/example_utils.py:17-18 | one pass of the loop body turns the sum of the first `i` elements into the sum of the first `i + 1` by adding element `i` |
| `Sums.SumFoldsAgree` | Python/example_utils.py:16-18 | accumulating from zero in encounter order gives the same total as the head-first reference sum |
| `Sums.SumAppend` | Python/example_utils.py:17-18 | the accumulated total of a concatenation is the total of the first part plus the total of the second |
| `Sums.SumPermutation` | Python/example_utils.py:17-18 | any two lists with the same elements, counted with multiplicity, accumulate to the same total |
| `Sums.SumReverse` | Python/example_utils.py:17-18 | accumulating the reversed list gives the same total |
| `Sums.SumBounds` | Python/example_utils.py:17-18 | if every element lies in `[lo, hi]`, the total of `n` elements lies in `[n * lo, n * hi]` |
| `ExampleUtils.Average` | Python/example_utils.py:5-19 | the result is an error exactly when the list is empty; otherwise the mean times the length gives back the total |
| `ExampleUtils.CalculateAverage` | Python/example_utils.py:5-19 | the loop keeps the running total equal to the sum of the elements seen so far; the result is the error exactly for the empty list, and otherwise the full total divided by the length |
| `ExampleUtils.AverageSingleton` | Python/example_utils.py:16-19 | the mean of `[x]` is `x` |
| `ExampleUtils.AveragePermutation` | Python/example_utils.py:17-19 | reordering the list in any way does not change the result, including whether it is an error |
| `ExampleUtils.AverageReverse` | Python/example_utils.py:17-19 | reversing the list does not change the result |
| `ExampleUtils.AverageBounded` | Python/example_utils.py:17-19 | if every element of a non-empty list lies in `[lo, hi]`, so does the mean |
| `ExampleUtils.AverageWithinRange` | Python/example_utils.py:13-19 | the mean of a non-empty list exists, some element is no larger than it and some element is no smaller, so it lies between the least and the greatest element |
| `ExampleUtils.AverageExamples` | Python/example_utils.py:5-19 | `[1, 2, 3, 4]` averages to `2.5`, `[5]` to `5`, `[-2, 2]` to `0`, and `[]` is the error |

## Left out

- Floating point: Python's `+` and `/` on floats round, overflow and lose precision. The model uses exact reals, so it says nothing about rounding error or about the order of addition changing a float result.
- Integer inputs: Python's accumulator starts as the integer `0`, and `/` always yields a float. Mixed `int`/`float` inputs are not modelled separately; every element is a real.
- Duck typing: Python accepts any iterable with a length and any values that support `+`. The model takes a `seq<real>` only.
- Exception type: the empty-list failure is the abstract error `EmptyInput`, not Python's `ZeroDivisionError` object.
- Empty input: no separate lemma; `Average` and `CalculateAverage` both state that the result is `Failure(EmptyInput)` exactly when the list is empty, which covers line 19 failing for a zero length.
- Read-only input: there is no contract saying the input is left unchanged. The input is a Dafny `seq`, which is an immutable value, so the method cannot modify it, and it has no `modifies` clause.
- Docstring: line 7 describes a different function ("prints a name and age"), and line 13 promises an `int` although `/` returns a float. Neither affects behaviour, and the model follows the code.
