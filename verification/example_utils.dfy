/**
 Model of `calculate_average` in Python/example_utils.py: the arithmetic mean
 of a list of numbers, computed by accumulating the elements in encounter
 order and dividing the total by the list's length. Python floats become
 exact reals. The division by a zero length on an empty list, which raises
 in Python, is the error value `Failure(EmptyInput)` here.
 */
module ExampleUtils {
  import opened Sums

  /** The single way averaging can fail: there is nothing to divide by. */
  datatype AverageError = EmptyInput

  /** Either the mean or the reason there is none. */
  datatype Result<+T> = Success(value: T) | Failure(error: AverageError)

  /** The mean as a pure function: undefined exactly for the empty list, and
      otherwise the value that, multiplied by the length, gives back the sum. */
  function Average(numbers: seq<real>): (r: Result<real>)
    ensures r.Failure? <==> |numbers| == 0
    ensures r.Success? ==> r.value * |numbers| as real == Sum(numbers)
  {
    if |numbers| == 0 then Failure(EmptyInput)
    else Success(Sum(numbers) / |numbers| as real)
  }

  /** `calculate_average`: start a running total at zero, add each element in
      turn, then divide by the number of elements. The division is where the
      empty list fails, after the loop has run zero times. */
  method CalculateAverage(numbers: seq<real>) returns (r: Result<real>)
    ensures r.Failure? <==> |numbers| == 0
    ensures r.Failure? ==> r.error == EmptyInput
    ensures r.Success? ==> r.value == Sum(numbers) / |numbers| as real
    ensures r == Average(numbers)
  {
    var total := 0.0;
    var i := 0;
    while i < |numbers|
      invariant 0 <= i <= |numbers|
      invariant total == Sum(numbers[..i])
    {
      SumPrefixStep(numbers, i);
      total := total + numbers[i];
      i := i + 1;
    }
    assert numbers[..i] == numbers;
    if |numbers| == 0 {
      r := Failure(EmptyInput);
    } else {
      r := Success(total / |numbers| as real);
    }
  }

  /** The mean of a one-element list is that element. */
  lemma AverageSingleton(x: real)
    ensures Average([x]) == Success(x)
  {
    assert [x][..0] == [];
    assert Sum([x]) == x;
  }

  /** Reordering the list in any way leaves the mean unchanged. */
  lemma AveragePermutation(a: seq<real>, b: seq<real>)
    requires multiset(a) == multiset(b)
    ensures Average(a) == Average(b)
  {
    assert |a| == |multiset(a)| == |multiset(b)| == |b|;
    SumPermutation(a, b);
  }

  /** Reversing the list leaves the mean unchanged. */
  lemma AverageReverse(s: seq<real>)
    ensures Average(Reverse(s)) == Average(s)
  {
    SumReverse(s);
  }

  /** Dividing a total that lies between n * lo and n * hi by n gives a value
      between lo and hi. */
  lemma DivisionBounds(total: real, n: real, lo: real, hi: real)
    requires n > 0.0
    requires n * lo <= total <= n * hi
    ensures lo <= total / n <= hi
  {
    var q := total / n;
    assert n * q == total;
    assert n * (q - lo) >= 0.0;
    assert n * (hi - q) >= 0.0;
  }

  /** If every element lies between lo and hi, so does the mean. */
  lemma AverageBounded(s: seq<real>, lo: real, hi: real)
    requires |s| > 0
    requires forall i :: 0 <= i < |s| ==> lo <= s[i] <= hi
    ensures lo <= Average(s).value <= hi
  {
    SumBounds(s, lo, hi);
    DivisionBounds(Sum(s), |s| as real, lo, hi);
  }

  /** The mean of a non-empty list exists and lies between its least and its
      greatest element: some element is no larger and some is no smaller. */
  lemma AverageWithinRange(s: seq<real>)
    requires |s| > 0
    ensures Average(s).Success?
    ensures exists i :: 0 <= i < |s| && s[i] <= Average(s).value
    ensures exists j :: 0 <= j < |s| && Average(s).value <= s[j]
  {
    AverageBounded(s, Min(s), Max(s));
    var i :| 0 <= i < |s| && s[i] == Min(s);
    var j :| 0 <= j < |s| && s[j] == Max(s);
    assert s[i] <= Average(s).value <= s[j];
  }

  /** The example inputs and outputs documented for the function. */
  lemma AverageExamples()
    ensures Average([1.0, 2.0, 3.0, 4.0]) == Success(2.5)
    ensures Average([5.0]) == Success(5.0)
    ensures Average([-2.0, 2.0]) == Success(0.0)
    ensures Average([]) == Failure(EmptyInput)
  {
    var s := [1.0, 2.0, 3.0, 4.0];
    assert s[..3] == [1.0, 2.0, 3.0] && s[..2] == [1.0, 2.0] && s[..1] == [1.0];
    assert Sum(s[..1]) == 1.0 by { SumPrefixStep(s, 0); }
    assert Sum(s[..2]) == 3.0 by { SumPrefixStep(s, 1); }
    assert Sum(s[..3]) == 6.0 by { SumPrefixStep(s, 2); }
    assert Sum(s) == 10.0 by { SumPrefixStep(s, 3); assert s[..4] == s; }
    assert [5.0][..0] == [];
    assert [-2.0, 2.0][..1] == [-2.0];
    assert [-2.0][..0] == [];
  }
}
