/** The value types of the interview simulator: the closed string unions of the
    configuration and of the per-answer feedback, and the configuration record
    that the form hands to the session. */
module InterviewTypes {

  datatype ExperienceLevel = Junior | Mid | Senior | Executive
  datatype InterviewMode = TechnicalMode | BehavioralMode | Comprehensive | Custom
  datatype InterviewRound = Screening | Technical | Behavioral | Final
  datatype BrainMode = Analytical | Creative | Execution | Social
  datatype Personality = StrictEngineer | FriendlyHr | LogicalAnalyst | CreativeSolver | CeoVisionary
  datatype InterviewerRole = Hr | TechnicalLead | BehavioralCoach | DomainExpert
  datatype Difficulty = Easy | Medium | Hard | Expert

  /** The string the source uses for each experience level. */
  function ExperienceLevelName(e: ExperienceLevel): string {
    match e
    case Junior => "junior"
    case Mid => "mid"
    case Senior => "senior"
    case Executive => "executive"
  }

  function ModeName(m: InterviewMode): string {
    match m
    case TechnicalMode => "technical"
    case BehavioralMode => "behavioral"
    case Comprehensive => "comprehensive"
    case Custom => "custom"
  }

  function RoleId(r: InterviewerRole): string {
    match r
    case Hr => "hr"
    case TechnicalLead => "technical-lead"
    case BehavioralCoach => "behavioral-coach"
    case DomainExpert => "domain-expert"
  }

  function DifficultyName(d: Difficulty): string {
    match d
    case Easy => "easy"
    case Medium => "medium"
    case Hard => "hard"
    case Expert => "expert"
  }

  /** The configuration the form emits and the session reads. */
  datatype InterviewConfig = InterviewConfig(
    name: string,
    experienceLevel: ExperienceLevel,
    skills: seq<string>,
    desiredRole: string,
    jobDomain: string,
    mode: InterviewMode,
    round: InterviewRound,
    brainMode: BrainMode,
    enablePressureMode: bool,
    enableHints: bool,
    enableCodingChallenges: bool,
    enablePsychometricAnalysis: bool,
    selectedPersonalities: seq<Personality>)

  /** Who wrote a message of the conversation sent to the model. */
  datatype Author = User | Model

  /** One entry of the conversation history: `{ role, parts: [{ text }] }`. */
  datatype ConversationMessage = ConversationMessage(role: Author, text: string)
}
