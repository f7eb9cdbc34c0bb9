/** `TodoNotificationAssert`: AssertJ checks on a `TodoNotification`. */
module TodoNotificationAssert {
  import opened Wrappers
  import opened TodoModel
  import opened TodoAssert

  /** `isNotNull`, TodoNotificationAssert.java:19-22. */
  function NotificationIsNotNull(actual: Option<TodoNotification>): (r: Outcome<AssertFailure>)
    ensures r.Pass? <==> actual.Some?
    ensures r.Fail? ==> r.error == ActualIsNull
  {
    IsNotNull(actual)
  }

  /** `hasType`, TodoNotificationAssert.java:27-37: a null type throws; a
      non-null type equals only the same non-null constant. */
  function HasType(actual: Option<TodoNotification>, expected: Option<NotificationType>): (r: Outcome<AssertFailure>)
    ensures r.Pass? <==> actual.Some? && actual.value.notificationType.Some? && actual.value.notificationType == expected
    ensures actual.None? ==> r == Fail(ActualIsNull)
    ensures actual.Some? && actual.value.notificationType.None? ==> r == Fail(NullPointer)
  {
    if actual.None? then Fail(ActualIsNull)
    else FieldEquals(Type, actual.value.notificationType, expected)
  }

  /** `hasDataMatching`, TodoNotificationAssert.java:41-66: the null check,
      the data null check, reading the expected record (which throws when it
      is null), then id, text and completed in that order. */
  function HasDataMatching(actual: Option<TodoNotification>, expected: Option<Todo>): (r: Outcome<AssertFailure>)
    ensures actual.None? ==> r == Fail(ActualIsNull)
    ensures actual.Some? && actual.value.data.None? ==> r == Fail(DataIsNull)
  {
    if actual.None? then Fail(ActualIsNull)
    else if actual.value.data.None? then Fail(DataIsNull)
    else if expected.None? then Fail(NullPointer)
    else
      var d, x := actual.value.data.value, expected.value;
      AndThen(FieldEquals(Id, d.id, x.id),
              AndThen(FieldEquals(Text, d.text, x.text), FieldEquals(Completed, d.completed, x.completed)))
  }

  /** Once the notification and its data are present, `hasDataMatching` is
      `matchesExpected` applied to the todo the data describes: same verdict,
      same first failure. So it passes exactly when the data equals the
      expected todo field by field and has no null field. */
  lemma HasDataMatchingIsMatchesExpected(actual: Option<TodoNotification>, expected: Option<Todo>)
    requires actual.Some? && actual.value.data.Some?
    ensures HasDataMatching(actual, expected) == MatchesExpected(Some(AsTodo(actual.value.data.value)), expected)
    ensures HasDataMatching(actual, expected).Pass?
            <==> expected.Some? && AsTodo(actual.value.data.value) == expected.value
                 && Complete(AsTodo(actual.value.data.value))
  {
    MatchesExpectedIff(Some(AsTodo(actual.value.data.value)), expected);
  }
}
