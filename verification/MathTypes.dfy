/** The values of a math training: settings, questions, work fields. */
module MathTypes {
  import opened Decimal

  datatype Operation = Plus | Minus | Multiply | Divide | OtherOperation
  datatype Level = Easy | Medium | Hard | Columnar | OtherLevel
  datatype AnswerMode = Input | Choice | OtherAnswerMode
  datatype DivisionMode = ResultOnly | Steps | Full | OtherDivisionMode

  datatype Settings = Settings(operation: Operation, level: Level, answerMode: AnswerMode,
                               divisionMode: DivisionMode, allowNegative: bool)
  {
    predicate Valid() {
      && !operation.OtherOperation? && !level.OtherLevel?
      && !answerMode.OtherAnswerMode? && !divisionMode.OtherDivisionMode?
      && (level.Columnar? ==> answerMode.Input?)
    }

    function Count(): nat {
      match level
      case Medium => 12
      case Hard => 15
      case _ => 8
    }

    function LegacyStars(): nat {
      match level
      case Easy => 1
      case Medium => 2
      case _ => 3
    }

    function PreviousStars(): nat {
      if level.Columnar? then
        if operation.Multiply? then 4
        else if operation.Divide? then
          match divisionMode
          case Full => 5
          case Steps => 4
          case _ => 3
        else 3
      else
        var stars := LegacyStars() + if operation.Multiply? || operation.Divide? then 1 else 0;
        if answerMode.Choice? then Max(1, stars - 1) else stars
    }

    function Stars(): nat {
      PreviousStars() + 1
    }
  }

  /** Division of integers that truncates toward zero. */
  function Truncated(a: int, b: int): int
    requires b != 0
  {
    if a >= 0 then a / b else -((-a) / b)
  }

  datatype Question = Question(left: int, right: int, options: seq<int>) {
    function Result(op: Operation): int {
      match op
      case Plus => left + right
      case Minus => left - right
      case Multiply => left * right
      case Divide => if right != 0 then Truncated(left, right) else 0
      case OtherOperation => 0
    }
  }

  /** The names of the work fields; SumCarry marks live on the notebook page only. */
  datatype Key =
    | Carry(i: nat)
    | MulCarry(row: nat, j: nat)
    | Partial(row: nat)
    | Bring(step: nat)
    | Product(step: nat)
    | Remainder(step: nat)
    | Answer
    | SumCarry(j: nat)

  datatype Field = Field(key: Key, width: nat, shift: nat)
}
