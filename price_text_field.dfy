/** The price input field's `onValueChange`: whatever the user types, only its
    digit characters reach the caller's callback. */
module PriceTextField {
  import opened Sequences

  /** Kotlin's `Char.isDigit`, restricted to the ASCII digits. */
  predicate IsDigit(c: char) {
    '0' <= c <= '9'
  }

  /** `newValue.filter { it.isDigit() }`. */
  function DigitsOnly(newValue: string): (filtered: string)
    ensures forall i :: 0 <= i < |filtered| ==> IsDigit(filtered[i])
    ensures forall c :: IsDigit(c) ==> multiset(filtered)[c] == multiset(newValue)[c]
  {
    FilterCounts(newValue, IsDigit);
    Filter(newValue, IsDigit)
  }

  /** The filter changes the typed text exactly when it holds a non-digit. */
  lemma DigitsOnlyChangesIffNonDigit(newValue: string)
    ensures DigitsOnly(newValue) == newValue <==> forall i :: 0 <= i < |newValue| ==> IsDigit(newValue[i])
  {
    if forall i :: 0 <= i < |newValue| ==> IsDigit(newValue[i]) {
      FilterKeepingAll(newValue, IsDigit);
    } else {
      var i :| 0 <= i < |newValue| && !IsDigit(newValue[i]);
      FilterDropsRejected(newValue, IsDigit, i);
    }
  }

  /** The filtered text is the input with the non-digits deleted, order kept. */
  lemma DigitsOnlyIsSubsequence(newValue: string)
    ensures IsSubsequence(DigitsOnly(newValue), newValue)
  {
    FilterIsSubsequence(newValue, IsDigit);
  }

  /** Text made only of digits passes through unchanged ... */
  lemma DigitsPassThrough(newValue: string)
    requires forall i :: 0 <= i < |newValue| ==> IsDigit(newValue[i])
    ensures DigitsOnly(newValue) == newValue
  {
    FilterKeepingAll(newValue, IsDigit);
  }

  /** ... so filtering twice is filtering once. */
  lemma DigitsOnlyIdempotent(newValue: string)
    ensures DigitsOnly(DigitsOnly(newValue)) == DigitsOnly(newValue)
  {
    DigitsPassThrough(DigitsOnly(newValue));
  }
}
