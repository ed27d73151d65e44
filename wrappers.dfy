/** Failure-carrying results shared by every module of the model.
    Python exceptions of the modelled code become values of `Error`. */
module Wrappers {

  datatype Option<+T> = None | Some(value: T)

  /** Which validation assertion of the constraint validator failed. */
  datatype Check =
    | PoolCount          // validate_pool_constraint
    | OnePerPoolLimit    // validate_number_of_task_constraints, TasksPerPoolConstraint
    | OneTasksLimit      // validate_number_of_task_constraints, TasksConstraint
    | PerPoolCapacity    // validate_tasks_per_pool
    | TotalCapacity      // validate_total_tasks
    | PoolsWithScore     // validate_total_tasks_with_score, every pool has the score
    | PerPoolScore       // validate_total_tasks_with_score, enough per pool
    | FlatScore          // validate_total_tasks_with_score, enough pools with the score
    | NotebookMissing    // calculate_points, a task without a notebook

  /** The Python exceptions the modelled code can raise. */
  datatype Error =
    | AssertionError(check: Check)
    | ValueError          // min() of an empty sequence, random.sample with a bad size
    | KeyError(key: int)  // a score missing from a plain dict
    | FileNotFoundError   // a missing source file, or os.makedirs("")

  datatype Result<+T> = Ok(value: T) | Err(error: Error)

  datatype Outcome = Pass | Fail(error: Error)
}
