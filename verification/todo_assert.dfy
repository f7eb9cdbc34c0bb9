/** `TodoAssert`: AssertJ checks on a `Todo`. A check either passes (and
    returns the assert object, so checks chain) or throws, which ends the
    chain; `Outcome` records which. */
module TodoAssert {
  import opened Wrappers
  import opened JavaTypes
  import opened TodoModel

  datatype Field = Id | Text | Completed | Type

  /** Why a check threw: `isNotNull()` on a null actual, a notification
      without data, a `NullPointerException` from a null field or a null
      expected record, or a field that differs from the expected value. */
  datatype AssertFailure = ActualIsNull | DataIsNull | NullPointer | Mismatch(field: Field)

  /** `actual.equals(expected)` on a boxed field: a null receiver throws,
      and a non-null one equals only an equal non-null argument. */
  function FieldEquals<X(==)>(field: Field, actual: Option<X>, expected: Option<X>): (r: Outcome<AssertFailure>)
    ensures r.Pass? <==> actual.Some? && actual == expected
    ensures r.Fail? ==> r.error == if actual.None? then NullPointer else Mismatch(field)
  {
    if actual.None? then Fail(NullPointer)
    else if actual != expected then Fail(Mismatch(field))
    else Pass
  }

  /** `isNotNull()` of AssertJ. */
  function IsNotNull<X>(actual: Option<X>): (r: Outcome<AssertFailure>)
    ensures r.Pass? <==> actual.Some?
    ensures r.Fail? ==> r.error == ActualIsNull
  {
    if actual.None? then Fail(ActualIsNull) else Pass
  }

  /** `hasId`, TodoAssert.java:20-28. */
  function HasId(actual: Option<Todo>, expected: Option<Long>): (r: Outcome<AssertFailure>)
    ensures r.Pass? <==> actual.Some? && actual.value.id.Some? && actual.value.id == expected
    ensures actual.None? ==> r == Fail(ActualIsNull)
    ensures actual.Some? ==> r == FieldEquals(Id, actual.value.id, expected)
  {
    AndThen(IsNotNull(actual), if actual.None? then Pass else FieldEquals(Id, actual.value.id, expected))
  }

  /** `hasText`, TodoAssert.java:30-38. */
  function HasText(actual: Option<Todo>, expected: Option<string>): (r: Outcome<AssertFailure>)
    ensures r.Pass? <==> actual.Some? && actual.value.text.Some? && actual.value.text == expected
    ensures actual.None? ==> r == Fail(ActualIsNull)
    ensures actual.Some? ==> r == FieldEquals(Text, actual.value.text, expected)
  {
    AndThen(IsNotNull(actual), if actual.None? then Pass else FieldEquals(Text, actual.value.text, expected))
  }

  /** `hasCompleted`, TodoAssert.java:40-49. */
  function HasCompleted(actual: Option<Todo>, expected: Option<bool>): (r: Outcome<AssertFailure>)
    ensures r.Pass? <==> actual.Some? && actual.value.completed.Some? && actual.value.completed == expected
    ensures actual.None? ==> r == Fail(ActualIsNull)
    ensures actual.Some? ==> r == FieldEquals(Completed, actual.value.completed, expected)
  {
    AndThen(IsNotNull(actual), if actual.None? then Pass else FieldEquals(Completed, actual.value.completed, expected))
  }

  /** A todo none of whose fields is null. */
  predicate Complete(t: Todo) {
    t.id.Some? && t.text.Some? && t.completed.Some?
  }

  /** `matchesExpected`, TodoAssert.java:51-57: the null check on the actual
      todo, then reading the expected record (which throws when it is null),
      then id, text and completed in that order. */
  function MatchesExpected(actual: Option<Todo>, expected: Option<Todo>): (r: Outcome<AssertFailure>)
  {
    if actual.None? then Fail(ActualIsNull)
    else if expected.None? then Fail(NullPointer)
    else AndThen(HasId(actual, expected.value.id),
                 AndThen(HasText(actual, expected.value.text), HasCompleted(actual, expected.value.completed)))
  }

  /** `matchesExpected` passes exactly when the actual todo equals the
      expected one and has no null field. */
  lemma MatchesExpectedIff(actual: Option<Todo>, expected: Option<Todo>)
    ensures MatchesExpected(actual, expected).Pass?
            <==> actual.Some? && expected.Some? && actual.value == expected.value && Complete(actual.value)
  {
    if actual.Some? && expected.Some? && MatchesExpected(actual, expected).Pass? {
      var a, x := actual.value, expected.value;
      assert a.id == x.id && a.text == x.text && a.completed == x.completed;
    }
  }

  /** The reported failure is that of the first failing step in the order
      null actual, null expected, id, text, completed. */
  lemma MatchesExpectedFirstFailure(actual: Option<Todo>, expected: Option<Todo>)
    ensures actual.None? ==> MatchesExpected(actual, expected) == Fail(ActualIsNull)
    ensures actual.Some? && expected.None? ==> MatchesExpected(actual, expected) == Fail(NullPointer)
    ensures actual.Some? && expected.Some? ==>
              var a, x := actual.value, expected.value;
              var id := FieldEquals(Id, a.id, x.id);
              var text := FieldEquals(Text, a.text, x.text);
              var completed := FieldEquals(Completed, a.completed, x.completed);
              MatchesExpected(actual, expected)
                == if id.Fail? then id else if text.Fail? then text else completed
  {
  }
}
