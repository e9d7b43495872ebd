/** The records the client works with (the interfaces and enums of `types.ts`),
    with calendar fields as `Calendar` values. */
module Domain {
  import opened Base
  import opened Calendar

  type Id = string

  datatype MainCategory = Masculino | Femenino | Mixto

  /** Skill level; its display text is `SubCategoryName`. */
  datatype SubCategory = Basico | Intermedio | Avanzado

  datatype Position = Setter | Libero | MiddleBlocker | OutsideHitter | OppositeHitter

  function MainCategoryName(c: MainCategory): string
  {
    match c
    case Masculino => "Masculino"
    case Femenino => "Femenino"
    case Mixto => "Mixto"
  }

  /** The enum's string values, which are what the client sends and displays. */
  function SubCategoryName(l: SubCategory): string
  {
    match l
    case Basico => "Básico"
    case Intermedio => "Intermedio"
    case Avanzado => "Avanzado"
  }

  function PositionName(p: Position): string
  {
    match p
    case Setter => "Colocador"
    case Libero => "Líbero"
    case MiddleBlocker => "Central"
    case OutsideHitter => "Punta Receptor"
    case OppositeHitter => "Opuesto"
  }

  datatype PlayerStats = PlayerStats(attack: int, defense: int, block: int, pass: int)

  /** The name of one of the four stat inputs (`attack`, `defense`, `block`, `pass`). */
  datatype Stat = Attack | Defense | Block | Pass

  const ZeroStats: PlayerStats := PlayerStats(0, 0, 0, 0)

  function StatValue(s: PlayerStats, which: Stat): int
  {
    match which
    case Attack => s.attack
    case Defense => s.defense
    case Block => s.block
    case Pass => s.pass
  }

  /** `{ ...stats, [name]: value }`. */
  function WithStat(s: PlayerStats, which: Stat, value: int): (r: PlayerStats)
    ensures StatValue(r, which) == value
    ensures forall other :: other != which ==> StatValue(r, other) == StatValue(s, other)
  {
    match which
    case Attack => s.(attack := value)
    case Defense => s.(defense := value)
    case Block => s.(block := value)
    case Pass => s.(pass := value)
  }

  function TotalScore(s: PlayerStats): int
  {
    s.attack + s.defense + s.block + s.pass
  }

  /** A stats record; an empty `id` stands for a record that has none yet. */
  datatype StatsRecord = StatsRecord(id: Id, date: Moment, stats: PlayerStats)

  /** `birthDate` is a `YYYY-MM-DD` string that may be empty: `None`. */
  datatype Player = Player(
    id: Id,
    name: string,
    document: string,
    address: string,
    phone: string,
    joinDate: Moment,
    birthDate: Option<Date>,
    avatarUrl: string,
    mainCategories: seq<MainCategory>,
    subCategory: SubCategory,
    position: Position,
    statsHistory: seq<StatsRecord>,
    lastPaymentDate: Option<Moment>)

  /** `tournament` and `tournamentPosition` are optional strings; an absent one is `None`. */
  datatype Team = Team(
    id: Id,
    name: string,
    mainCategory: MainCategory,
    subCategory: SubCategory,
    playerIds: seq<Id>,
    tournament: Option<string>,
    tournamentPosition: Option<string>,
    coachId: Option<Id>)

  /** `Omit<Team, 'id'>`: what the team-creation form sends. */
  datatype TeamDraft = TeamDraft(
    name: string,
    mainCategory: MainCategory,
    subCategory: SubCategory,
    playerIds: seq<Id>,
    tournament: Option<string>)

  datatype AttendanceStatus = Presente | Ausente

  /** An attendance record as the client holds it: the date is a calendar day. */
  datatype Attendance = Attendance(playerId: Id, date: Date, status: AttendanceStatus)

  datatype Colors = Colors(
    primary: string,
    secondary: string,
    tertiary: string,
    background: string,
    surface: string,
    textPrimary: string,
    textSecondary: string)

  datatype ClubSettings = ClubSettings(
    name: string,
    logoUrl: string,
    colors: Colors,
    teamCreationEnabled: bool,
    monthlyPaymentEnabled: bool)

  /** The user types the client distinguishes; "no user type" is `None`. */
  datatype Role = Admin | SuperAdmin | Coach

  /** The settings the client shows until the server's answer arrives. */
  const ClientDefaultSettings: ClubSettings := ClubSettings(
    "Voley Club",
    "/logo-default.svg",
    Colors("#DC2626", "#F9FAFB", "#FBBF24", "#000000", "#1F2937", "#F9FAFB", "#9CA3AF"),
    true,
    true)
}
