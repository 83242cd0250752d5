/** The response-shape handling of `fetchTasks`: what it stores in the task
    list and in the error slot for each shape of answer. */
module TaskFetch {
  import opened Common
  import opened Text
  import opened TaskModel

  datatype TaskLoad = TaskLoad(tasks: seq<Task>, error: Option<String>)

  const InvalidShapeMessage: String := "Failed to fetch tasks."

  /** `{data: ...}` yields `data` (an empty list when `data` is not an
      array), a bare array yields itself, and every other answer, `null`
      included, is an error that empties the list. A failed request stores
      the client's message after a fixed prefix. */
  function LoadTasks(o: Outcome<Task>): (r: TaskLoad)
    ensures r.error.Some? ==> r.tasks == []
    ensures r.error.None? <==>
              o.Received? && (o.body.Array? || (o.body.Object? && o.body.data.Some?))
    ensures r.tasks != [] ==>
              o.Received? &&
              ((o.body.Array? && r.tasks == o.body.elements) ||
               (o.body.Object? && o.body.data.Some? && o.body.data.value.Array? &&
                r.tasks == o.body.data.value.elements))
    ensures o.RequestFailed? ==> r.error == Some("Failed to fetch tasks: " + o.message)
    ensures o.Received? && r.error.Some? ==> r.error == Some(InvalidShapeMessage)
  {
    match o
    case RequestFailed(message) => TaskLoad([], Some("Failed to fetch tasks: " + message))
    case Received(body) =>
      match body
      case Array(elements) => TaskLoad(elements, None)
      case Object(Some(data)) => TaskLoad(if data.Array? then data.elements else [], None)
      case Object(None) => TaskLoad([], Some(InvalidShapeMessage))
      case Null => TaskLoad([], Some(InvalidShapeMessage))
      case Scalar => TaskLoad([], Some(InvalidShapeMessage))
  }

  /** Both observed list shapes deliver the same tasks, in order, and clear
      the error; a `data` key that holds no array delivers no tasks and no
      error. */
  lemma BothShapesAccepted(ts: seq<Task>, notArray: Body<Task>)
    requires !notArray.Array?
    ensures LoadTasks(Received(Array(ts))) == TaskLoad(ts, None)
    ensures LoadTasks(Received(Object(Some(Array(ts))))) == TaskLoad(ts, None)
    ensures LoadTasks(Received(Object(Some(notArray)))) == TaskLoad([], None)
  {
  }
}
