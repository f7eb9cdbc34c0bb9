/** The records of the todo service: `Todo` and the `TodoNotification` the
    WebSocket endpoint pushes. Every field is a boxed Java value and may be
    null, which `None` stands for. */
module TodoModel {
  import opened Wrappers
  import opened JavaTypes

  /** `Todo`, Todo.java:16-19. */
  datatype Todo = Todo(id: Option<Long>, text: Option<string>, completed: Option<bool>)

  /** `TodoNotification.NotificationType`, TodoNotification.java:32-37. */
  datatype NotificationType = NewTodo

  /** The `@JsonValue` of a notification type. */
  function TypeValue(t: NotificationType): (value: string)
    ensures ParseType(value) == Some(t)
  {
    match t
    case NewTodo => "new_todo"
  }

  /** The notification type a JSON string value denotes, if any. */
  function ParseType(value: string): (r: Option<NotificationType>)
  {
    if value == "new_todo" then Some(NewTodo) else None
  }

  /** The JSON value of a type reads back as that type, and only the values
      of types are read as types. */
  lemma TypeValueRoundTrip(t: NotificationType, value: string)
    ensures ParseType(TypeValue(t)) == Some(t)
    ensures ParseType(value).Some? ==> TypeValue(ParseType(value).value) == value
  {
  }

  /** `TodoNotification.TodoData`, TodoNotification.java:24-28. */
  datatype TodoData = TodoData(id: Option<Long>, text: Option<string>, completed: Option<bool>)

  /** `TodoNotification`, TodoNotification.java:15-17; `type` is a keyword
      here, so the field is called `notificationType`. */
  datatype TodoNotification = TodoNotification(notificationType: Option<NotificationType>, data: Option<TodoData>)

  /** The data's three fields as a todo, so that the field comparisons of
      the two assertion classes can be stated once. */
  function AsTodo(d: TodoData): Todo
  {
    Todo(d.id, d.text, d.completed)
  }
}
