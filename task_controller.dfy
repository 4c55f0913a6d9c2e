/**
 * TaskController: the eight request handlers over the Tasks table. The
 * controller's database context is folded into the object: `tasks` is the
 * table, `nextId` the next value of its identity column.
 */
module TaskControllers {
  import opened Wrappers
  import opened TaskEntities
  import opened TaskTable

  /** What an action answers: HTTP 200 with a task, a list or a success flag, 404, or 400. */
  datatype Outcome =
    | OkTask(task: TaskRecord)
    | OkList(tasks: seq<TaskRecord>)
    | OkDeleted
    | NotFound
    | BadRequest

  /** The status rewrite of the full listing: 0 reads as Pendente, anything else as Finalizado. */
  function Normalize(status: Status): (r: Status)
    ensures r == Pendente || r == Finalizado
    ensures r == Pendente <==> status == 0
  {
    if status == 0 then Pendente else Finalizado
  }

  /** A record as the full listing shows it. */
  function Normalized(t: TaskRecord): (r: TaskRecord)
    ensures r.id == t.id && r.title == t.title && r.description == t.description && r.date == t.date
    ensures r.status == Normalize(t.status)
  {
    t.(status := Normalize(t.status))
  }

  /**
   * `DateTime.TryParse(s, out date)`: `parse` stands for the culture-dependent
   * parser. The out argument is always written; on failure it is MinDate.
   */
  function TryParse(parse: string -> Option<Date>, s: string): (r: (bool, Date))
    ensures r.0 <==> parse(s).Some?
    ensures r.0 ==> r.1 == parse(s).value
    ensures !r.0 ==> r.1 == MinDate
  {
    match parse(s)
    case Some(d) => (true, d)
    case None => (false, MinDate)
  }

  class TaskController {
    var tasks: map<int, TaskRecord>
    var nextId: int

    /** The table invariant: records sit under their own ids, all below the identity counter. */
    predicate Valid()
      reads this
    {
      WellKeyed(tasks, nextId)
    }

    /** An empty table whose identity column starts at 1. */
    constructor ()
      ensures Valid() && tasks == map[] && nextId == 1
    {
      tasks := map[];
      nextId := 1;
    }

    /** `_context.Tasks.ToList()`: every stored record once, in ascending id order. */
    function Rows(): (r: seq<TaskRecord>)
      reads this
      requires Valid()
      ensures IdsAscending(r)
      ensures forall t :: t in r <==> t in tasks.Values
    {
      FullScan(tasks, nextId);
      Scan(tasks, 1, nextId)
    }

    /** GET SearchTaskByID/{id}: the stored record, or 404 when the id is absent. */
    function SearchTaskByID(id: int): (r: Outcome)
      reads this
      requires Valid()
      ensures r.OkTask? || r == NotFound
      ensures r.OkTask? <==> id in tasks
      ensures r.OkTask? ==> r.task in tasks.Values && r.task.id == id
    {
      if id in tasks then OkTask(tasks[id]) else NotFound
    }

    /**
     * PUT UpdateTask/{id}: overwrite title, description, date and status of
     * the stored record with the payload's. The payload's own id is ignored
     * and no range check is made on the status.
     */
    method UpdateTask(id: int, taskWillUpdate: TaskRecord) returns (r: Outcome)
      requires Valid()
      modifies this
      ensures Valid() && nextId == old(nextId)
      ensures id !in old(tasks) ==> r == NotFound && tasks == old(tasks)
      ensures id in old(tasks) ==>
        var updated := TaskRecord(id, taskWillUpdate.title, taskWillUpdate.description,
                                  taskWillUpdate.date, taskWillUpdate.status);
        r == OkTask(updated) && tasks == old(tasks)[id := updated]
    {
      if id !in tasks {
        return NotFound;
      }
      var task := tasks[id];
      task := task.(title := taskWillUpdate.title);
      task := task.(description := taskWillUpdate.description);
      task := task.(date := taskWillUpdate.date);
      task := task.(status := taskWillUpdate.status);
      tasks := tasks[id := task];
      r := OkTask(task);
    }

    /** DELETE DeleteTask/{id}: remove the stored record, or 404 when the id is absent. */
    method DeleteTask(id: int) returns (r: Outcome)
      requires Valid()
      modifies this
      ensures Valid() && nextId == old(nextId)
      ensures id !in old(tasks) ==> r == NotFound && tasks == old(tasks)
      ensures id in old(tasks) ==> r == OkDeleted && tasks == old(tasks) - {id}
    {
      if id !in tasks {
        return NotFound;
      }
      tasks := tasks - {id};
      r := OkDeleted;
    }

    /**
     * GET SearchAllTasks: the full listing, each element's status rewritten
     * in place on the in-memory copy. Nothing is saved, so the table keeps
     * the stored statuses (the method may not modify `this`).
     */
    method SearchAllTasks() returns (r: Outcome)
      requires Valid()
      ensures r.OkList?
      ensures |r.tasks| == |Rows()|
      ensures forall i :: 0 <= i < |r.tasks| ==> r.tasks[i] == Normalized(Rows()[i])
      ensures forall t :: t in r.tasks <==> exists k :: k in tasks && t == Normalized(tasks[k])
      ensures IdsAscending(r.tasks)
    {
      var list := Rows();
      var a := new TaskRecord[|list|](i requires 0 <= i < |list| => list[i]);
      for i := 0 to a.Length
        invariant forall j :: 0 <= j < i ==> a[j] == Normalized(list[j])
        invariant forall j :: i <= j < a.Length ==> a[j] == list[j]
      {
        if a[i].status == 0 {
          a[i] := a[i].(status := Pendente);
        } else {
          a[i] := a[i].(status := Finalizado);
        }
      }
      r := OkList(a[..]);
      forall t
        ensures t in r.tasks <==> exists k :: k in tasks && t == Normalized(tasks[k])
      {
        if t in r.tasks {
          var j :| 0 <= j < |r.tasks| && r.tasks[j] == t;
          assert list[j] in tasks.Values;
        }
        if exists k :: k in tasks && t == Normalized(tasks[k]) {
          var k :| k in tasks && t == Normalized(tasks[k]);
          assert tasks[k] in tasks.Values;
          var j :| 0 <= j < |list| && list[j] == tasks[k];
          assert r.tasks[j] == t;
        }
      }
    }

    /** GET SearchTasksByTitle/{title}: the records whose title contains `title`. */
    function SearchTasksByTitle(title: string): (r: Outcome)
      reads this
      requires Valid()
      ensures r.OkList? && IdsAscending(r.tasks)
      ensures forall t :: t in r.tasks <==> t in tasks.Values && Contains(t.title, title)
    {
      OkList(Where(Rows(), TitleContains(title)))
    }

    /**
     * GET SearchTasksByDate/{dateTask}: the records dated exactly as
     * `dateTask` parses. `date` first holds the clock's `now`, but TryParse
     * always overwrites it, with MinDate when parsing fails.
     */
    function SearchTasksByDate(dateTask: string, parse: string -> Option<Date>, now: Date): (r: Outcome)
      reads this
      requires Valid()
      ensures r.OkList? && IdsAscending(r.tasks)
      ensures forall t :: t in r.tasks <==>
        t in tasks.Values && t.date == (if parse(dateTask).Some? then parse(dateTask).value else MinDate)
    {
      var date := now;
      var date := TryParse(parse, dateTask).1;
      OkList(Where(Rows(), DateEquals(date)))
    }

    /** GET SearchTasksByStatus/{statusTask}: the records whose stored status equals `statusTask`. */
    function SearchTasksByStatus(statusTask: Status): (r: Outcome)
      reads this
      requires Valid()
      ensures r.OkList? && IdsAscending(r.tasks)
      ensures forall t :: t in r.tasks <==> t in tasks.Values && t.status == statusTask
    {
      OkList(Where(Rows(), StatusEquals(statusTask)))
    }

    /**
     * POST RegisterTask: 400 without a payload; otherwise the payload is
     * stored under the next identity value, which the answer carries.
     */
    method RegisterTask(taskRegister: Option<TaskRecord>) returns (r: Outcome)
      requires Valid()
      modifies this
      ensures Valid()
      ensures taskRegister.None? ==> r == BadRequest && tasks == old(tasks) && nextId == old(nextId)
      ensures taskRegister.Some? ==>
        var created := taskRegister.value.(id := old(nextId));
        && old(nextId) !in old(tasks)
        && r == OkTask(created)
        && tasks == old(tasks)[old(nextId) := created]
        && nextId == old(nextId) + 1
    {
      if taskRegister.None? {
        return BadRequest;
      }
      var task := taskRegister.value.(id := nextId);
      tasks := tasks[nextId := task];
      nextId := nextId + 1;
      r := OkTask(task);
    }
  }

  /** The rewrite is idempotent: a listed status already reads as itself. */
  lemma NormalizeIdempotent(status: Status)
    ensures Normalize(Normalize(status)) == Normalize(status)
  {
  }

  /** An empty title is contained in every title, so the title search lists the whole table. */
  lemma EmptyTitleListsAll(c: TaskController)
    requires c.Valid()
    ensures c.SearchTasksByTitle("") == OkList(c.Rows())
  {
    forall t | t in c.Rows()
      ensures Matches(t, TitleContains(""))
    {
      ContainsEmpty(t.title);
    }
    WhereAll(c.Rows(), TitleContains(""));
  }

  /** The clock value given to the date search never reaches its result. */
  lemma DateSearchIgnoresNow(c: TaskController, dateTask: string, parse: string -> Option<Date>, now1: Date, now2: Date)
    requires c.Valid()
    ensures c.SearchTasksByDate(dateTask, parse, now1) == c.SearchTasksByDate(dateTask, parse, now2)
  {
  }

  /** An unparsable date searches for MinDate, exactly as a date that parses to MinDate does. */
  lemma UnparsableDateSearchesMinDate(c: TaskController, dateTask: string, parse: string -> Option<Date>, now: Date)
    requires c.Valid() && parse(dateTask).None?
    ensures c.SearchTasksByDate(dateTask, parse, now) == c.SearchTasksByDate(dateTask, s => Some(MinDate), now)
  {
  }

  /**
   * The status search compares the stored integer: a record stored with a
   * status other than 0 and 1 is found under that integer, not under
   * Finalizado, although the full listing shows it as Finalizado.
   */
  lemma StatusSearchSeesStoredStatus(c: TaskController, k: int)
    requires c.Valid() && k in c.tasks
    requires c.tasks[k].status != Pendente && c.tasks[k].status != Finalizado
    ensures c.tasks[k] in c.SearchTasksByStatus(c.tasks[k].status).tasks
    ensures forall t :: t in c.SearchTasksByStatus(Finalizado).tasks ==> t.id != k
    ensures Normalized(c.tasks[k]).status == Finalizado
  {
  }
}
