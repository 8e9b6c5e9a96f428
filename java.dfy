/** Java references that may be null, and the one JDK operation the controller relies on. */
module Java {

  /** A Java reference: either null or a value. */
  datatype Nullable<+T> = Null | Ref(value: T)

  /** `receiver.equals(other)` for `java.lang.String`: true exactly when `other` is a non-null
      string with the same characters in the same order (no case folding, no trimming). */
  predicate StringEquals(receiver: string, other: Nullable<string>)
  {
    other.Ref? && other.value == receiver
  }

  /** `String.equals` against a null argument is false, and on non-null strings it is
      character-by-character, case-sensitive equality. */
  lemma StringEqualsExact(receiver: string, other: Nullable<string>)
    ensures other.Null? ==> !StringEquals(receiver, other)
    ensures StringEquals(receiver, other) <==>
              other.Ref? && |other.value| == |receiver| &&
              forall i :: 0 <= i < |receiver| ==> receiver[i] == other.value[i]
  {
  }
}
