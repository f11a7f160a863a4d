/** The configuration form: the skill list (added trimmed and once, removed by
    value), the interviewer personalities (toggled, at most three), and the
    submit that emits the configuration only when the form is complete. */
module ConfigurationForm {
  import opened Wrappers
  import opened Text
  import opened Lists
  import opened InterviewTypes

  /** At most this many personalities can be selected. */
  const MaxPersonalities: nat := 3

  /** The selection the form starts with. */
  const InitialPersonalities: seq<Personality> := [FriendlyHr, LogicalAnalyst]

  /** `isFormValid`, and the guard of `handleSubmit`: a non-blank name, role
      and domain and at least one skill. */
  predicate IsComplete(name: string, desiredRole: string, jobDomain: string, skills: seq<string>) {
    Trim(name) != "" && Trim(desiredRole) != "" && Trim(jobDomain) != "" && |skills| > 0
  }

  /** The text inputs of the form. */
  datatype TextField = NameField | RoleField | DomainField | SkillField

  class Form {
    var name: string
    var experienceLevel: ExperienceLevel
    var skills: seq<string>
    var currentSkill: string
    var desiredRole: string
    var jobDomain: string
    var mode: InterviewMode
    var round: InterviewRound
    var brainMode: BrainMode
    var enablePressureMode: bool
    var enableHints: bool
    var enableCodingChallenges: bool
    var enablePsychometricAnalysis: bool
    var selectedPersonalities: seq<Personality>

    /** Every skill is trimmed, non-empty and listed once; the personalities
        are distinct and at most three. */
    predicate Valid()
      reads this
    {
      && IsCleanList(skills)
      && NoDuplicates(selectedPersonalities) && |selectedPersonalities| <= MaxPersonalities
    }

    /** The form as it first appears. */
    constructor()
      ensures Valid()
      ensures name == "" && skills == [] && currentSkill == "" && desiredRole == "" && jobDomain == ""
      ensures experienceLevel == Mid && mode == Comprehensive && round == Screening && brainMode == Analytical
      ensures !enablePressureMode && enableHints && !enableCodingChallenges && enablePsychometricAnalysis
      ensures selectedPersonalities == InitialPersonalities
    {
      name := "";
      experienceLevel := Mid;
      skills := [];
      currentSkill := "";
      desiredRole := "";
      jobDomain := "";
      mode := Comprehensive;
      round := Screening;
      brainMode := Analytical;
      enablePressureMode := false;
      enableHints := true;
      enableCodingChallenges := false;
      enablePsychometricAnalysis := true;
      selectedPersonalities := InitialPersonalities;
    }

    /** Typing in one of the text inputs. */
    method EditText(field: TextField, value: string)
      modifies this`name, this`desiredRole, this`jobDomain, this`currentSkill
      ensures name == (if field == NameField then value else old(name))
      ensures desiredRole == (if field == RoleField then value else old(desiredRole))
      ensures jobDomain == (if field == DomainField then value else old(jobDomain))
      ensures currentSkill == (if field == SkillField then value else old(currentSkill))
    {
      match field
      case NameField => name := value;
      case RoleField => desiredRole := value;
      case DomainField => jobDomain := value;
      case SkillField => currentSkill := value;
    }

    /** Choosing in the selects and flipping the switches. */
    method Choose(level: ExperienceLevel, m: InterviewMode, r: InterviewRound, brain: BrainMode,
                  pressure: bool, hints: bool, coding: bool, psychometric: bool)
      modifies this`experienceLevel, this`mode, this`round, this`brainMode,
               this`enablePressureMode, this`enableHints, this`enableCodingChallenges,
               this`enablePsychometricAnalysis
      ensures experienceLevel == level && mode == m && round == r && brainMode == brain
      ensures enablePressureMode == pressure && enableHints == hints
      ensures enableCodingChallenges == coding && enablePsychometricAnalysis == psychometric
    {
      experienceLevel, mode, round, brainMode := level, m, r, brain;
      enablePressureMode, enableHints := pressure, hints;
      enableCodingChallenges, enablePsychometricAnalysis := coding, psychometric;
    }

    /** `handleAddSkill`: the trimmed input joins the skills, and the input is
        cleared, when it is non-blank and not yet listed. */
    method AddSkill()
      requires Valid()
      modifies this`skills, this`currentSkill
      ensures Valid()
      ensures Added(skills, currentSkill) == AddTrimmed(old(skills), old(currentSkill))
    {
      var skill := Trim(currentSkill);
      AddTrimmedKeepsClean(skills, currentSkill);
      if skill != "" && skill !in skills {
        skills := skills + [skill];
        currentSkill := "";
      }
    }

    /** `handleRemoveSkill`: every entry equal to `skill` goes, the others stay in order. */
    method RemoveSkill(skill: string)
      requires Valid()
      modifies this`skills
      ensures Valid()
      ensures skills == RemoveAll(old(skills), skill)
    {
      RemoveAllKeepsClean(skills, skill);
      skills := RemoveAll(skills, skill);
    }

    /** `togglePersonality`: a selected personality is deselected, another one
        is added while fewer than three are selected. */
    method TogglePersonality(p: Personality)
      requires Valid()
      modifies this`selectedPersonalities
      ensures Valid()
      ensures selectedPersonalities == ToggleCapped(old(selectedPersonalities), p, MaxPersonalities)
    {
      ToggleCappedKeepsBound(selectedPersonalities, p, MaxPersonalities);
      if p in selectedPersonalities {
        selectedPersonalities := RemoveAll(selectedPersonalities, p);
      } else if |selectedPersonalities| < MaxPersonalities {
        selectedPersonalities := selectedPersonalities + [p];
      }
    }

    /** `handleSubmit`: nothing unless the form is complete; then the
        configuration with the name, role and domain trimmed, the skills as
        listed, and the friendly HR interviewer when no personality is selected. */
    method Submit() returns (config: Option<InterviewConfig>)
      requires Valid()
      ensures config.Some? <==> IsComplete(name, desiredRole, jobDomain, skills)
      ensures config.Some? ==>
                var c := config.value;
                && c.name == Trim(name) && c.desiredRole == Trim(desiredRole) && c.jobDomain == Trim(jobDomain)
                && c.name != "" && c.desiredRole != "" && c.jobDomain != ""
                && c.skills == skills && IsCleanList(c.skills) && |c.skills| > 0
                && c.experienceLevel == experienceLevel && c.mode == mode && c.round == round
                && c.brainMode == brainMode && c.enablePressureMode == enablePressureMode
                && c.enableHints == enableHints && c.enableCodingChallenges == enableCodingChallenges
                && c.enablePsychometricAnalysis == enablePsychometricAnalysis
                && c.selectedPersonalities == (if selectedPersonalities == [] then [FriendlyHr] else selectedPersonalities)
                && 0 < |c.selectedPersonalities| <= MaxPersonalities && NoDuplicates(c.selectedPersonalities)
    {
      if Trim(name) == "" || Trim(desiredRole) == "" || Trim(jobDomain) == "" || |skills| == 0 {
        return None;
      }
      var personalities := if |selectedPersonalities| > 0 then selectedPersonalities else [FriendlyHr];
      config := Some(InterviewConfig(
        Trim(name), experienceLevel, skills, Trim(desiredRole), Trim(jobDomain), mode, round, brainMode,
        enablePressureMode, enableHints, enableCodingChallenges, enablePsychometricAnalysis,
        personalities));
    }
  }
}
