/**
  The records the digest pipeline works on (src/robotics_digest/models/models.py).
  Timestamps are whole seconds; a day offset is the floor of a difference of
  timestamps divided by the length of a day, as `timedelta.days` is.
 */
module Models {
  import opened Wrappers

  datatype Role = ME | EE | SCM | EM | PM

  datatype PhaseName = Concept | DetailedDesign | ProtoBuild | Dvt | Pvt | Ramp

  datatype User = User(id: string, name: string, role: Role)

  /** A phase covers the days `startDay..endDay`, both ends included. */
  datatype ProjectPhase = ProjectPhase(name: PhaseName, startDay: int, endDay: int)

  datatype Project = Project(id: string, name: string, phases: seq<ProjectPhase>)

  datatype Message = Message(
    id: string,
    ts: int,
    authorId: string,
    projectId: string,
    channel: string,
    text: string,
    threadRootId: Option<string>,
    reactions: seq<string>,
    isDecision: bool,
    isRisk: bool,
    isBlocker: bool,
    mentions: seq<string>,
    reactingUsers: seq<(string, seq<string>)>,  // reaction label -> reacting user ids, in insertion order
    replyCount: int,
    replies: seq<Message>)

  datatype UserFocus = UserFocus(userId: string, day: int, projectIds: seq<string>)

  const SECONDS_PER_DAY: int := 86400

  /** `datetime(2025, 1, 1)` in seconds since 1970-01-01 00:00. */
  const EPOCH_2025: int := 1735689600

  /** `(ts - origin).days`: whole days, rounded towards minus infinity. */
  function DayOffset(ts: int, origin: int): (d: int)
    ensures d * SECONDS_PER_DAY <= ts - origin < (d + 1) * SECONDS_PER_DAY
  {
    (ts - origin) / SECONDS_PER_DAY
  }

  /** The role as the source spells it. */
  function RoleName(r: Role): string {
    match r
    case ME => "ME"
    case EE => "EE"
    case SCM => "SCM"
    case EM => "EM"
    case PM => "PM"
  }

  /** The phase name as the source spells it. */
  function PhaseLabel(p: PhaseName): string {
    match p
    case Concept => "concept"
    case DetailedDesign => "detailed_design"
    case ProtoBuild => "proto_build"
    case Dvt => "dvt"
    case Pvt => "pvt"
    case Ramp => "ramp"
  }
}
