/**
 * Clients of TaskController: request sequences whose answers follow from
 * the actions' contracts alone.
 */
module TaskScenarios {
  import opened Wrappers
  import opened TaskEntities
  import opened TaskTable
  import opened TaskControllers

  /** A table holding one record under key 1 scans to that record alone. */
  lemma OneRow(t: TaskRecord)
    ensures Scan(map[1 := t], 1, 2) == [t]
  {
  }

  /** Filtering a one-record listing keeps the record exactly when it matches. */
  lemma OneWhere(t: TaskRecord, c: Criterion)
    ensures Where([t], c) == if Matches(t, c) then [t] else []
  {
  }

  /** A registered task is found under the id the answer carries, with the payload's fields. */
  method RegisterThenSearch(c: TaskController, payload: TaskRecord) returns (created: Outcome, found: Outcome)
    requires c.Valid()
    modifies c
    ensures c.Valid()
    ensures created.OkTask? && found == created
    ensures created.task == payload.(id := created.task.id)
  {
    created := c.RegisterTask(Some(payload));
    found := c.SearchTaskByID(created.task.id);
  }

  /** A second delete of the same id answers 404, and a lookup afterwards too. */
  method DeleteTwice(c: TaskController, id: int) returns (first: Outcome, second: Outcome, lookup: Outcome)
    requires c.Valid()
    modifies c
    ensures c.Valid()
    ensures first == OkDeleted || first == NotFound
    ensures second == NotFound && lookup == NotFound
  {
    first := c.DeleteTask(id);
    second := c.DeleteTask(id);
    lookup := c.SearchTaskByID(id);
  }

  /**
   * Register "Buy milk" with status 1, list, update the status to 0, list
   * again: the listing shows Finalizado, then Pendente.
   */
  method BuyMilk(day: Date) returns (created: Outcome, before: Outcome, after: Outcome)
    ensures created == OkTask(TaskRecord(1, "Buy milk", "2%", day, 1))
    ensures before == OkList([TaskRecord(1, "Buy milk", "2%", day, Finalizado)])
    ensures after == OkList([TaskRecord(1, "Buy milk", "2%", day, Pendente)])
  {
    var c := new TaskController();
    var payload := TaskRecord(0, "Buy milk", "2%", day, 1);
    created := c.RegisterTask(Some(payload));
    assert c.tasks == map[1 := created.task] && c.nextId == 2;
    OneRow(created.task);
    before := c.SearchAllTasks();
    var _ := c.UpdateTask(1, payload.(status := 0));
    assert c.tasks == map[1 := TaskRecord(1, "Buy milk", "2%", day, 0)] && c.nextId == 2;
    OneRow(TaskRecord(1, "Buy milk", "2%", day, 0));
    after := c.SearchAllTasks();
  }

  /**
   * A task dated `now` is not found by a date search whose string does not
   * parse: the search looks for MinDate, not for the current time.
   */
  method UnparsableDateMissesNow(now: Date) returns (unparsable: Outcome, parsed: Outcome)
    requires now != MinDate
    ensures unparsable == OkList([])
    ensures parsed == OkList([TaskRecord(1, "t", "d", now, Pendente)])
  {
    var c := new TaskController();
    var _ := c.RegisterTask(Some(TaskRecord(0, "t", "d", now, Pendente)));
    assert c.tasks == map[1 := TaskRecord(1, "t", "d", now, Pendente)] && c.nextId == 2;
    OneRow(TaskRecord(1, "t", "d", now, Pendente));
    OneWhere(TaskRecord(1, "t", "d", now, Pendente), DateEquals(MinDate));
    OneWhere(TaskRecord(1, "t", "d", now, Pendente), DateEquals(now));
    unparsable := c.SearchTasksByDate("not a date", s => None, now);
    parsed := c.SearchTasksByDate("now", s => Some(now), now);
  }

  /** Registering without a payload answers 400 and leaves the table as it was. */
  method RegisterNothing(c: TaskController) returns (r: Outcome)
    requires c.Valid()
    modifies c
    ensures r == BadRequest && c.tasks == old(c.tasks) && c.nextId == old(c.nextId)
  {
    r := c.RegisterTask(None);
  }
}
