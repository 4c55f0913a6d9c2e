# TaskApi request handlers, modelled in Dafny

TaskApi is a small HTTP service that keeps "Task" records (title,
description, date, status) in one relational table, `Tasks`. Its only
logic sits in `TaskController`: eight actions that look up, overwrite,
delete, insert, list and filter rows. This project models those eight
actions over an in-memory table and proves what each one answers and how
it changes the table.

- `wrappers.dfy` (`Wrappers`): `Option`, used for an absent payload and for a
  parse result.
- `task_entities.dfy` (`TaskEntities`): the `TaskRecord` row (`ID_TAREFA`,
  `TITULO`, `DESCRICAO`, `DATA`, `STATUS`). `Date` is a `DateTime` compared by
  its tick count. `MinDate` is `DateTime.MinValue`. The status is the stored
  integer, with the named constants `Pendente` (0) and `Finalizado` (1).
- `task_table.dfy` (`TaskTable`): the table is a map from primary key to row.
  `Scan` is the full table read in key order (`ToList()`). `Where` is the
  filtered read (`Where(...).ToList()`), with the three filters of the
  controller given as a `Criterion`. `Contains` is substring containment.
- `task_controller.dfy` (`TaskControllers`): the class `TaskController`.
  `tasks` is the table and `nextId` the next value of the identity column,
  which starts at 1 and steps by 1.
  - `UpdateTask`, `DeleteTask` and `RegisterTask` change the table. They are
    methods whose contracts give the new table exactly.
  - `SearchAllTasks` copies the listing into an array and rewrites each
    status in place with a loop, as the source's `foreach` does. It has no
    `modifies` clause, so it cannot change the table.
  - `SearchTaskByID` and the three searches only read, so they are functions
    of the table.
- `task_scenarios.dfy` (`TaskScenarios`): client request sequences. They
  include the register/list/update/list scenario, a delete repeated twice,
  and a date search with an unparsable string.

List answers are stated by membership: a record is in the answer exactly
when it is stored and matches. Ids are also stated to be strictly
ascending, so no record appears twice. The model lists rows in key order.
Because identity values only grow, key order is also insertion order.

### Where the description and the code differ

The system's description says that an unparsable date makes the date search
fall back to the current time. The code does not do this
(`Controllers/TaskController.cs:249-251`). It first sets `date` to
`DateTime.Now`, but `DateTime.TryParse` always writes its out argument, and
on failure it writes `DateTime.MinValue`. So an unparsable string searches
for `MinDate`, and the value taken from the clock is never used. The model
follows the code. `UnparsableDateSearchesMinDate`, `DateSearchIgnoresNow` and
`UnparsableDateMissesNow` state this behaviour.

## Model

| member | source | states |
|---|---|---|
| `TaskTable.ScanMember` | Controllers/TaskController.cs:167 | a scan of keys [lo, hi) lists a record exactly when it is stored under one of those keys |
| `TaskTable.ScanAscending` | Migrations/20231109114044_CreateTaskTable.cs:18-19 | when every row carries its key as id, a scan lists ids strictly ascending and within [lo, hi) |
| `TaskTable.FullScan` | Controllers/TaskController.cs:167 | the full read of a well-keyed table lists every stored record, only those, each once (ids ascending) |
| `TaskTable.Where` | Controllers/TaskController.cs:213 | a filtered read keeps exactly the records of the input that match the criterion and keeps ascending ids ascending (also the filters at lines 251 and 287) |
| `TaskTable.WhereAll` | Controllers/TaskController.cs:213 | a criterion every record matches returns the input unchanged |
| `TaskTable.ContainsEmpty` | Controllers/TaskController.cs:213 | the empty string is contained in every title |
| `TaskControllers.Normalize` | Controllers/TaskController.cs:179-184 | the listed status is always Pendente or Finalizado, and it is Pendente exactly when the stored value is 0 |
| `TaskControllers.Normalized` | Controllers/TaskController.cs:177-185 | the listing rewrites only the status and leaves id, title, description and date as stored |
| `TaskControllers.TryParse` | Controllers/TaskController.cs:250 | the out date is the parsed value on success and MinDate on failure, and the flag says which |
| `TaskControllers.NormalizeIdempotent` | Controllers/TaskController.cs:177-185 | rewriting an already rewritten status changes nothing |
| `TaskControllers.TaskController.constructor` | Migrations/20231109114044_CreateTaskTable.cs:18-19 | a new table is empty and its identity column starts at 1 |
| `TaskControllers.TaskController.Rows` | Controllers/TaskController.cs:167 | the listing holds exactly the stored records, each once, ascending by id |
| `TaskControllers.TaskController.SearchTaskByID` | Controllers/TaskController.cs:36-53 | the answer is a stored record exactly when the id is present, and that record carries the id; otherwise 404; the table is only read |
| `TaskControllers.TaskController.UpdateTask` | Controllers/TaskController.cs:76-109 | an absent id answers 404 and leaves the table alone; a present id gets the payload's title, description, date and status, of any value, keeps its key, every other row is unchanged and the answer is the new row |
| `TaskControllers.TaskController.DeleteTask` | Controllers/TaskController.cs:129-149 | an absent id answers 404 and leaves the table alone; a present id is removed and nothing else changes |
| `TaskControllers.TaskController.SearchAllTasks` | Controllers/TaskController.cs:165-192 | never 404; one entry per stored record in listing order, each with its status rewritten and other fields as stored; the table is not changed |
| `TaskControllers.TaskController.SearchTasksByTitle` | Controllers/TaskController.cs:211-228 | the answer holds exactly the stored records whose title contains the argument, each once |
| `TaskControllers.TaskController.SearchTasksByDate` | Controllers/TaskController.cs:247-266 | the answer holds exactly the stored records dated as the string parses, or dated MinDate when it does not parse |
| `TaskControllers.TaskController.SearchTasksByStatus` | Controllers/TaskController.cs:285-302 | the answer holds exactly the stored records whose stored status equals the argument, with no rewrite |
| `TaskControllers.TaskController.RegisterTask` | Controllers/TaskController.cs:321-339 | no payload answers 400 and leaves the table alone; otherwise the payload is stored under the next identity value, which was unused, the counter advances, and the answer is the stored row |
| `TaskControllers.EmptyTitleListsAll` | Controllers/TaskController.cs:213 | a title search for the empty string answers the whole listing |
| `TaskControllers.DateSearchIgnoresNow` | Controllers/TaskController.cs:249-250 | the clock value never affects the date search |
| `TaskControllers.UnparsableDateSearchesMinDate` | Controllers/TaskController.cs:249-251 | an unparsable date answers the same as a date that parses to MinDate |
| `TaskControllers.StatusSearchSeesStoredStatus` | Controllers/TaskController.cs:285-287 | a row stored with a status other than 0 or 1 is found under that integer and not under Finalizado, although the listing shows it as Finalizado |
| `TaskScenarios.RegisterThenSearch` | Controllers/TaskController.cs:321-339 | a lookup right after a registration finds the payload under the returned id |
| `TaskScenarios.DeleteTwice` | Controllers/TaskController.cs:129-149 | the second delete of an id, and a lookup after it, answer 404 |
| `TaskScenarios.BuyMilk` | Controllers/TaskController.cs:76-192 | register with status 1, list, update to status 0, list: the id is 1 and the listing shows Finalizado, then Pendente |
| `TaskScenarios.UnparsableDateMissesNow` | Controllers/TaskController.cs:247-251 | a task dated at the current time is not found by an unparsable date string, but is found by a string that parses to that time |
| `TaskScenarios.RegisterNothing` | Controllers/TaskController.cs:323-329 | registering without a payload answers 400 and inserts nothing |

## Left out

- The database layer is replaced by the map and the identity counter. This covers the EF Core context, `Find`, `Update`, `Remove`, `Add`, `SaveChanges` and the translation of LINQ to SQL. The `Tasks` table schema and the context class are not part of this model.
- HTTP routing, the Swagger annotations, model binding and the JSON bodies with their message strings are not modelled. Each answer is an `Outcome` constructor instead.
- The unreachable `tasks == null` branches of the list actions (lines 169, 215, 253 and 289) are dead code. `ToList()` never returns null, so no list action answers 404.
- `DateTime.TryParse` and `DateTime.Now` are parameters: a parser function and a clock value. Parsing rules and culture settings are not modelled.
- The order of list answers is fixed as ascending id. SQL Server does not guarantee any order without `ORDER BY`, so contracts are stated by membership.
- `Contains` is case-sensitive substring containment. Under SQL Server the match follows the database collation, which is often case-insensitive.
- `TaskStatusEnum` is not part of this model. `Pendente` = 0 and `Finalizado` = 1 are inferred from lines 91 and 278 of the controller.
- The `[NotMapped]` field `STATUS_TAREFA` is not modelled. The controller never reads or writes it.
- Ids and statuses are unbounded integers. The 32-bit range of the `int` columns and the overflow of the identity column are not modelled.
- A client-supplied id on insert is ignored. SQL Server rejects an explicit identity value; that rejection is not modelled.
- A null `TITULO` or `DESCRICAO` is not modelled. The columns are not nullable, so `SaveChanges` would fail. Strings are always present in the model.
- A null payload to `UpdateTask` is not modelled. The source has no check for it.
- The listing's in-place status rewrite changes entities tracked by the request's context. Because the context lives for one request and nothing is saved, the model rewrites a fresh copy. Any aliasing with later saves in the same context is not modelled.
- Concurrent requests are not modelled. Each action is atomic on the map.
