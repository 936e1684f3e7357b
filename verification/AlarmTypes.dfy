/** Enumerations shared by the alarm modules, and the transition table of AlarmStateMachine.h. */
module AlarmTypes {

  datatype AlarmState =
    | Normal | ActiveUnack | ActiveAck | RtnUnack | RtnAck | Shelved | SuppressedByDesign | OutOfService

  datatype AlarmPriority = Advisory | Minor | Major | Critical

  datatype AlarmLimit = NoLimit | LowLow | Low | High | HighHigh | Deviation | RateOfChange {
    /** The enumerator's value, by which the engine compares limits. */
    function Rank(): nat {
      match this
      case NoLimit => 0
      case LowLow => 1
      case Low => 2
      case High => 3
      case HighHigh => 4
      case Deviation => 5
      case RateOfChange => 6
    }
  }

  predicate CanTransition(from: AlarmState, to: AlarmState) {
    match from
    case Normal => to.ActiveUnack? || to.OutOfService?
    case ActiveUnack => to.ActiveAck? || to.RtnUnack? || to.Shelved? || to.SuppressedByDesign?
    case ActiveAck => to.RtnUnack? || to.Shelved? || to.SuppressedByDesign? || to.ActiveUnack?
    case RtnUnack => to.RtnAck? || to.ActiveUnack?
    case RtnAck => to.Normal? || to.ActiveUnack?
    case Shelved => to.ActiveUnack? || to.RtnUnack?
    case SuppressedByDesign => to.ActiveUnack? || to.RtnUnack? || to.OutOfService?
    case OutOfService => to.ActiveUnack? || to.RtnUnack?
  }
}
