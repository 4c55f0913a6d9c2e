/**
 * The one entity of the system: a row of the Tasks table
 * (ID_TAREFA, TITULO, DESCRICAO, DATA, STATUS).
 */
module TaskEntities {

  /** A DateTime value. Two DateTime values are equal when their tick counts are. */
  datatype Date = Date(ticks: int)

  /** DateTime.MinValue, whose tick count is zero. */
  const MinDate: Date := Date(0)

  /** TaskStatusEnum is persisted as a plain integer column: any integer can be stored. */
  type Status = int

  /** TaskStatusEnum.Pendente: a task still to be done. */
  const Pendente: Status := 0

  /** TaskStatusEnum.Finalizado: a finished task. */
  const Finalizado: Status := 1

  /** A stored task; `id` is the primary key, assigned by the table's identity column. */
  datatype TaskRecord = TaskRecord(
    id: int,
    title: string,
    description: string,
    date: Date,
    status: Status)
}
