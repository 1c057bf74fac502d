/// `Action` (HPCAction.cpp): what a character decided to do this turn. It is a
/// value type; its constructors, `reset` and `set` are datatype values here.
module Actions {
  import opened Geometry

  /// `ActionType`; `NoAction` is the source's `ActionType_TERM`, the reset value.
  datatype ActionType = Wait | Accel | NoAction

  datatype Action = Action(kind: ActionType, value: Vec2)

  /// The default constructor and `Action::reset`.
  const NoneDecided := Action(NoAction, Zero)

  /// `Action::Wait()`: a decided wait, whose value is the zero vector.
  function WaitAction(): (a: Action)
    ensures a.kind == Wait && IsDecided(a) && a.value == Zero
  {
    Action(Wait, Zero)
  }

  /// `Action::Accel(target)`: a decided acceleration carrying exactly its target.
  function AccelAction(target: Vec2): (a: Action)
    ensures a.kind == Accel && IsDecided(a) && a.value == target
  {
    Action(Accel, target)
  }

  /// A decided action is either a wait or an acceleration.
  predicate IsDecided(a: Action) {
    a.kind != NoAction
  }
}
