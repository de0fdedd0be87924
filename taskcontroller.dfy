/**
 * The task handlers of the API: create, list, update and delete a caller's tasks in a
 * collection shared by all users.
 *
 * The collection is a map from document id to task; the caller's id is the one the
 * authentication middleware put on the request. A fault of the database, or a caller id
 * that cannot be cast to an ObjectId, makes the handler answer 500 and leaves the
 * collection as it was.
 */
module TaskController {
  import opened Wrappers

  type Id = string
  type UserId = string

  /** A value of the JSON request body. */
  datatype Json = JText(text: string) | JNumber(number: int) | JBool(flag: bool) | JNull | JComposite

  type Body = map<string, Json>

  /** A field of a task after schema validation (and its conversions). */
  datatype Field = FText(text: string) | FDate(time: int) | FFlag(flag: bool)

  type Fields = map<string, Field>

  /** A stored task: its owner and its validated fields. */
  datatype Task = Task(user: UserId, fields: Fields)

  /** The reply a handler sends. */
  datatype Reply =
    | Created(task: Task)
    | Listed(tasks: map<Id, Task>)
    | Updated(task: Task)
    | Deleted
    | InvalidId
    | InvalidData
    | NotFound
    | ServerError

  function Status(reply: Reply): (code: int)
    ensures code in {200, 201, 400, 404, 500}
    ensures code == 400 <==> reply.InvalidId? || reply.InvalidData?
  {
    match reply
    case Created(_) => 201
    case Listed(_) => 200
    case Updated(_) => 200
    case Deleted => 200
    case InvalidId => 400
    case InvalidData => 400
    case NotFound => 404
    case ServerError => 500
  }

  predicate IsHexDigit(c: char) {
    '0' <= c <= '9' || 'a' <= c <= 'f' || 'A' <= c <= 'F'
  }

  /** `mongoose.Types.ObjectId.isValid`: a twelve-character string or a 24-digit hexadecimal string. */
  predicate IsValidObjectId(id: string)
    ensures IsValidObjectId(id) ==> |id| == 12 || |id| == 24
    ensures |id| == 12 ==> IsValidObjectId(id)
  {
    |id| == 12 || (|id| == 24 && forall i :: 0 <= i < 24 ==> IsHexDigit(id[i]))
  }

  /** Ids as a client sends them: a hexadecimal ObjectId passes, a short or non-hex one does not. */
  lemma ObjectIdExamples()
    ensures IsValidObjectId("507f1f77bcf86cd799439011")
    ensures !IsValidObjectId("123")
    ensures !IsValidObjectId("507f1f77bcf86cd79943901g")
  {
    assert !IsHexDigit("507f1f77bcf86cd79943901g"[23]);
  }

  /** The largest magnitude of a JavaScript time value; `new Date(n)` beyond it is an Invalid Date. */
  const MaxTime: int := 8_640_000_000_000_000

  predicate InTimeRange(t: int) {
    -MaxTime <= t <= MaxTime
  }

  const AllowedKeys: set<string> := {"title", "description", "dueDate", "completed"}

  /**
   * One key of the schema: `title` a non-empty string, `description` any string, `dueDate`
   * a number of milliseconds or a text the date parser accepts, in both cases a valid time
   * value, `completed` a boolean. Any other key is not allowed.
   */
  function ValidateField(key: string, value: Json, parseDate: string -> Option<int>): (r: Option<Field>)
    ensures r.Some? ==> key in AllowedKeys && FieldFits(key, r.value)
    ensures key !in AllowedKeys || value.JNull? || value.JComposite? ==> r == None
    ensures key == "title" ==>
              (r.Some? <==> value.JText? && value.text != "") && (r.Some? ==> r.value == FText(value.text))
    ensures key == "description" ==>
              (r.Some? <==> value.JText?) && (r.Some? ==> r.value == FText(value.text))
    ensures (key == "dueDate" && value.JNumber?) ==>
              (r.Some? <==> InTimeRange(value.number)) && (r.Some? ==> r.value == FDate(value.number))
    ensures (key == "dueDate" && value.JText?) ==>
              (r.Some? <==> parseDate(value.text).Some? && InTimeRange(parseDate(value.text).value)) &&
              (r.Some? ==> r.value == FDate(parseDate(value.text).value))
    ensures (key == "dueDate" && value.JBool?) ==> r == None
    ensures key == "completed" ==>
              (r.Some? <==> value.JBool?) && (r.Some? ==> r.value == FFlag(value.flag))
  {
    if key == "title" then
      (if value.JText? && value.text != "" then Some(FText(value.text)) else None)
    else if key == "description" then
      (if value.JText? then Some(FText(value.text)) else None)
    else if key == "dueDate" then
      (match value
       case JNumber(n) => if InTimeRange(n) then Some(FDate(n)) else None
       case JText(s) =>
         (match parseDate(s) case Some(t) => if InTimeRange(t) then Some(FDate(t)) else None case None => None)
       case _ => None)
    else if key == "completed" then
      (if value.JBool? then Some(FFlag(value.flag)) else None)
    else None
  }

  /** What a validated field of each key looks like. */
  predicate FieldFits(key: string, f: Field) {
    if key == "title" then f.FText? && f.text != ""
    else if key == "description" then f.FText?
    else if key == "dueDate" then f.FDate? && InTimeRange(f.time)
    else key == "completed" && f.FFlag?
  }

  /** A task's fields as they pass the schema: a title, and only the schema's keys. */
  predicate WellFormed(fields: Fields) {
    "title" in fields &&
    forall k :: k in fields ==> k in AllowedKeys && FieldFits(k, fields[k])
  }

  /** `taskSchema.validate(body)`: every key valid and `title` present, else an error. */
  function Validate(body: Body, parseDate: string -> Option<int>): (r: Result<Fields, string>)
    ensures r.Ok? <==> "title" in body && forall k :: k in body ==> ValidateField(k, body[k], parseDate).Some?
    ensures r.Ok? ==> WellFormed(r.value) && r.value.Keys == body.Keys
    ensures r.Ok? ==> forall k :: k in body ==> r.value[k] == ValidateField(k, body[k], parseDate).value
    ensures (exists k :: k in body && k !in AllowedKeys) ==> r.Err?
  {
    if "title" in body && forall k :: k in body ==> ValidateField(k, body[k], parseDate).Some? then
      Ok(map k | k in body :: ValidateField(k, body[k], parseDate).value)
    else
      Err("Datos inválidos")
  }

  /** A body can never name the owner or the document id: both keys are rejected. */
  lemma BodyCannotSetOwner(body: Body, parseDate: string -> Option<int>)
    requires "user" in body || "_id" in body
    ensures Validate(body, parseDate).Err?
  {
    var k := if "user" in body then "user" else "_id";
    assert k in body && k !in AllowedKeys;
  }

  /** An update sets the fields it names and keeps the others, as a `$set` does. */
  function Merge(current: Fields, changes: Fields): (r: Fields)
    requires WellFormed(current) && WellFormed(changes)
    ensures WellFormed(r)
    ensures r.Keys == current.Keys + changes.Keys
    ensures forall k :: k in changes ==> r[k] == changes[k]
    ensures forall k :: k in current && k !in changes ==> r[k] == current[k]
  {
    current + changes
  }

  /**
   * The database call cannot complete: it throws, or the caller's id is not an ObjectId
   * (the cast in the query throws). Either way the handler's `catch` answers 500.
   */
  predicate Faulty(caller: UserId, fails: bool)
    ensures |caller| == 12 ==> (Faulty(caller, fails) <==> fails)
    ensures |caller| != 12 && |caller| != 24 ==> Faulty(caller, fails)
  {
    fails || !IsValidObjectId(caller)
  }

  /** The tasks a caller owns. */
  function OwnedBy(tasks: map<Id, Task>, caller: UserId): (r: map<Id, Task>)
    ensures forall id :: id in r <==> id in tasks && tasks[id].user == caller
    ensures forall id :: id in r ==> r[id] == tasks[id]
  {
    map id | id in tasks && tasks[id].user == caller :: tasks[id]
  }

  /** Every record other than `id` is as it was. */
  ghost predicate OnlyTouches(before: map<Id, Task>, after: map<Id, Task>, id: Id) {
    forall k :: k != id ==> (k in before <==> k in after) && (k in before ==> before[k] == after[k])
  }

  /** The records of every other user are as they were, and none was added for them. */
  ghost predicate OthersUntouched(before: map<Id, Task>, after: map<Id, Task>, caller: UserId) {
    (forall k :: k in before && before[k].user != caller ==> k in after && after[k] == before[k]) &&
    (forall k :: k in after && after[k].user != caller ==> k in before && before[k] == after[k])
  }

  /** Every stored task has fields that passed the schema. */
  ghost predicate AllWellFormed(tasks: map<Id, Task>) {
    forall id :: id in tasks ==> WellFormed(tasks[id].fields)
  }

  /** Storing a task whose fields passed the schema keeps every stored task well formed. */
  lemma StorePreservesWellFormed(tasks: map<Id, Task>, id: Id, task: Task)
    requires AllWellFormed(tasks) && WellFormed(task.fields)
    ensures AllWellFormed(tasks[id := task])
  {
  }

  /** Leaving the collection as it was touches nothing. */
  lemma UnchangedTouchesNothing(tasks: map<Id, Task>, id: Id, caller: UserId)
    ensures OnlyTouches(tasks, tasks, id) && OthersUntouched(tasks, tasks, caller)
  {
  }

  /** Replacing one of the caller's tasks by another of theirs touches only that record. */
  lemma ReplaceOwnedTouchesOne(tasks: map<Id, Task>, id: Id, caller: UserId, task: Task)
    requires id in tasks && tasks[id].user == caller && task.user == caller
    ensures OnlyTouches(tasks, tasks[id := task], id)
    ensures OthersUntouched(tasks, tasks[id := task], caller)
  {
  }

  class TaskStore {
    var tasks: map<Id, Task>

    ghost predicate Valid()
      reads this
    {
      AllWellFormed(tasks)
    }

    constructor ()
      ensures Valid() && tasks == map[]
    {
      tasks := map[];
    }

    /**
     * `createTask`: 400 on an invalid body; otherwise one new task with the validated fields
     * and the caller as owner, under the id the database assigns, and 201.
     */
    method CreateTask(caller: UserId, body: Body, parseDate: string -> Option<int>, newId: Id, fails: bool)
      returns (reply: Reply)
      requires Valid()
      modifies this
      ensures Valid()
      ensures Validate(body, parseDate).Err? ==> reply == InvalidData && tasks == old(tasks)
      ensures Validate(body, parseDate).Ok? && (Faulty(caller, fails) || newId in old(tasks)) ==>
                reply == ServerError && tasks == old(tasks)
      ensures reply.Created? <==> Validate(body, parseDate).Ok? && !Faulty(caller, fails) && newId !in old(tasks)
      ensures reply.Created? ==>
                reply.task == Task(caller, Validate(body, parseDate).value) &&
                tasks == old(tasks)[newId := reply.task]
      ensures OthersUntouched(old(tasks), tasks, caller)
    {
      var validation := Validate(body, parseDate);
      if validation.Err? {
        return InvalidData;
      }
      if Faulty(caller, fails) || newId in tasks {
        return ServerError;
      }
      var task := Task(caller, validation.value);
      tasks := tasks[newId := task];
      reply := Created(task);
    }

    /** `getTasks`: exactly the caller's tasks, or 500 when the database call fails. */
    method GetTasks(caller: UserId, fails: bool) returns (reply: Reply)
      ensures reply.Listed? || reply == ServerError
      ensures reply == ServerError <==> Faulty(caller, fails)
      ensures reply.Listed? ==>
                (forall id :: id in reply.tasks <==> id in tasks && tasks[id].user == caller) &&
                (forall id :: id in reply.tasks ==> reply.tasks[id] == tasks[id])
    {
      if Faulty(caller, fails) {
        return ServerError;
      }
      reply := Listed(OwnedBy(tasks, caller));
    }

    /**
     * `updateTask`: the id is checked before the body; only a task with that id owned by the
     * caller is changed, and only in the fields the body names; otherwise 404 and nothing changes.
     */
    method UpdateTask(caller: UserId, id: Id, body: Body, parseDate: string -> Option<int>, fails: bool)
      returns (reply: Reply)
      requires Valid()
      modifies this
      ensures Valid()
      ensures !IsValidObjectId(id) ==> reply == InvalidId
      ensures IsValidObjectId(id) && Validate(body, parseDate).Err? ==> reply == InvalidData
      ensures IsValidObjectId(id) && Validate(body, parseDate).Ok? && Faulty(caller, fails) ==> reply == ServerError
      ensures (IsValidObjectId(id) && Validate(body, parseDate).Ok? && !Faulty(caller, fails) &&
               !(id in old(tasks) && old(tasks)[id].user == caller)) ==> reply == NotFound
      ensures reply.Updated? <==>
                IsValidObjectId(id) && Validate(body, parseDate).Ok? && !Faulty(caller, fails) &&
                id in old(tasks) && old(tasks)[id].user == caller
      ensures reply.Updated? ==>
                reply.task == Task(caller, Merge(old(tasks)[id].fields, Validate(body, parseDate).value)) &&
                tasks == old(tasks)[id := reply.task]
      ensures !reply.Updated? ==> tasks == old(tasks)
      ensures reply.Updated? || reply.InvalidId? || reply.InvalidData? || reply.ServerError? || reply.NotFound?
      ensures OnlyTouches(old(tasks), tasks, id)
      ensures OthersUntouched(old(tasks), tasks, caller)
    {
      UnchangedTouchesNothing(tasks, id, caller);
      if !IsValidObjectId(id) {
        return InvalidId;
      }
      var validation := Validate(body, parseDate);
      if validation.Err? {
        return InvalidData;
      }
      if Faulty(caller, fails) {
        return ServerError;
      }
      if id in tasks && tasks[id].user == caller {
        var task := Task(caller, Merge(tasks[id].fields, validation.value));
        ReplaceOwnedTouchesOne(tasks, id, caller, task);
        StorePreservesWellFormed(tasks, id, task);
        tasks := tasks[id := task];
        return Updated(task);
      }
      return NotFound;
    }

    /**
     * `deleteTask`: removes the task with that id only if the caller owns it; otherwise 404
     * and every record survives.
     */
    method DeleteTask(caller: UserId, id: Id, fails: bool) returns (reply: Reply)
      requires Valid()
      modifies this
      ensures Valid()
      ensures !IsValidObjectId(id) ==> reply == InvalidId
      ensures IsValidObjectId(id) && Faulty(caller, fails) ==> reply == ServerError
      ensures (IsValidObjectId(id) && !Faulty(caller, fails) &&
               !(id in old(tasks) && old(tasks)[id].user == caller)) ==> reply == NotFound
      ensures reply == Deleted <==>
                IsValidObjectId(id) && !Faulty(caller, fails) && id in old(tasks) && old(tasks)[id].user == caller
      ensures reply == Deleted ==> tasks == old(tasks) - {id}
      ensures reply != Deleted ==> tasks == old(tasks)
      ensures reply in {Deleted, InvalidId, ServerError, NotFound}
      ensures OnlyTouches(old(tasks), tasks, id)
      ensures OthersUntouched(old(tasks), tasks, caller)
    {
      if !IsValidObjectId(id) {
        return InvalidId;
      }
      if Faulty(caller, fails) {
        return ServerError;
      }
      if id in tasks && tasks[id].user == caller {
        tasks := tasks - {id};
        return Deleted;
      }
      return NotFound;
    }
  }

  /**
   * Another user's task survives every handler a caller can run on it, whatever the body:
   * an update or a delete aimed at it answers 404 (or an earlier error) and changes nothing.
   */
  method ForeignTaskIsSafe(store: TaskStore, caller: UserId, id: Id, body: Body, parseDate: string -> Option<int>)
    returns (updateReply: Reply, deleteReply: Reply)
    requires store.Valid()
    requires id in store.tasks && store.tasks[id].user != caller
    modifies store
    ensures !updateReply.Updated? && !deleteReply.Deleted?
    ensures store.tasks == old(store.tasks)
  {
    updateReply := store.UpdateTask(caller, id, body, parseDate, false);
    deleteReply := store.DeleteTask(caller, id, false);
  }
}
