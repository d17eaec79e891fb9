/** The mapping from a compiler action to the task that displays it. */
module CompilerDefines {
  import TaskEngine

  /** Compiler::Action. `Unlisted` stands for any value of the enumeration
      that the switch does not name (an out-of-range cast). */
  datatype Action =
    | NoAction | IPGen | Synthesis | Pack | Global | Detailed
    | Routing | STA | Power | Bitstream | Batch
    | Unlisted(code: int)

  /** toTaskId: the stage task of a pipeline action, or the invalid id. */
  function ToTaskId(action: Action): (id: nat)
    ensures id == TaskEngine.INVALID_ID || id in TaskEngine.TOP_LEVEL_STAGES
    ensures id == TaskEngine.INVALID_ID <==> action.NoAction? || action.Batch? || action.Unlisted?
  {
    match action
    case Synthesis => TaskEngine.SYNTHESIS
    case Global => TaskEngine.GLOBAL_PLACEMENT
    case Detailed => TaskEngine.PLACEMENT
    case Pack => TaskEngine.PACKING
    case Routing => TaskEngine.ROUTING
    case STA => TaskEngine.TIMING_SIGN_OFF
    case Bitstream => TaskEngine.BITSTREAM
    case Power => TaskEngine.POWER
    case IPGen => TaskEngine.IP_GENERATE
    case NoAction => TaskEngine.INVALID_ID
    case Batch => TaskEngine.INVALID_ID
    case Unlisted(_) => TaskEngine.INVALID_ID
  }

  /** The action whose stage task is `id`, if there is one: an independent
      reading of the table in the opposite direction. */
  function ActionOf(id: nat): (a: Action)
  {
    if id == TaskEngine.SYNTHESIS then Synthesis
    else if id == TaskEngine.GLOBAL_PLACEMENT then Global
    else if id == TaskEngine.PLACEMENT then Detailed
    else if id == TaskEngine.PACKING then Pack
    else if id == TaskEngine.ROUTING then Routing
    else if id == TaskEngine.TIMING_SIGN_OFF then STA
    else if id == TaskEngine.BITSTREAM then Bitstream
    else if id == TaskEngine.POWER then Power
    else if id == TaskEngine.IP_GENERATE then IPGen
    else NoAction
  }

  /** The nine pipeline actions map to distinct stage tasks, and each stage
      task leads back to its action. */
  lemma ToTaskIdRoundTrip(action: Action)
    requires ToTaskId(action) != TaskEngine.INVALID_ID
    ensures ActionOf(ToTaskId(action)) == action
  {
  }

  /** Different pipeline actions display in different tasks. */
  lemma ToTaskIdInjective(a: Action, b: Action)
    requires ToTaskId(a) != TaskEngine.INVALID_ID
    requires ToTaskId(a) == ToTaskId(b)
    ensures a == b
  {
    ToTaskIdRoundTrip(a);
    ToTaskIdRoundTrip(b);
  }

  /** A valid result is a registered Regular task that sits in the execution
      queue, never a Clean, Settings or Button sub-task. */
  lemma ToTaskIdIsStage(action: Action)
    requires ToTaskId(action) != TaskEngine.INVALID_ID
    ensures ToTaskId(action) < TaskEngine.TASK_COUNT
    ensures TaskEngine.Kind(ToTaskId(action)) == TaskEngine.Regular
    ensures ToTaskId(action) in TaskEngine.EXECUTION_QUEUE
  {
    TaskEngine.TopLevelStagesWellFormed();
    TaskEngine.TopLevelStagesAreQueuedStages();
    var k :| 0 <= k < |TaskEngine.TOP_LEVEL_STAGES| && TaskEngine.TOP_LEVEL_STAGES[k] == ToTaskId(action);
  }
}
