/**
 The skill and job panel's decisions: job eligibility against a stat map,
 the per-requirement rows, the requirement captions, the +/- gating of each
 skill, which job is shown as current, and which controls hand a request to
 the overlay. The panel itself never changes points or levels; it only
 forwards requests.
 */
module SkillManager {
  import opened Basics

  /**
   The player's statistics as the host sends them: the numeric fields by
   name, the already decoded skill levels, and the current job key.
   */
  datatype Stats = Stats(numbers: map<string, int>, skills: map<string, int>, job: Option<string>)

  datatype Skill = Skill(title: string, description: string, maxLevel: int)

  /** A special job; its requirements are the (stat name, minimum) entries in their listed order. */
  datatype SpecialJob = SpecialJob(title: string, description: string, requirements: seq<(string, int)>)

  datatype PanelData = PanelData(stats: Stats, skills: map<string, Skill>, specialJobs: map<string, SpecialJob>)

  /** A stat by name (`stats[key] || 0`): a stat the host did not send reads as 0. */
  function StatValue(s: Stats, key: string): (v: int)
    ensures key !in s.numbers ==> v == 0
    ensures key in s.numbers ==> v == s.numbers[key]
  {
    if key in s.numbers then s.numbers[key] else 0
  }

  /**
   `checkJobRequirements`: walks the entries and stops at the first one whose
   stat is below its minimum.
   */
  function CheckJobRequirements(s: Stats, reqs: seq<(string, int)>): (ok: bool)
    ensures ok <==> forall i :: 0 <= i < |reqs| ==> StatValue(s, reqs[i].0) >= reqs[i].1
    decreases |reqs|
  {
    if |reqs| == 0 then true
    else if StatValue(s, reqs[0].0) < reqs[0].1 then false
    else CheckJobRequirements(s, reqs[1..])
  }

  /** A job without requirements is always available. */
  lemma NoRequirementsEligible(s: Stats)
    ensures CheckJobRequirements(s, [])
  {
  }

  /** A requirement on a stat the host did not send fails for any positive minimum. */
  lemma MissingStatFails(s: Stats, reqs: seq<(string, int)>, i: nat)
    requires i < |reqs| && reqs[i].0 !in s.numbers && reqs[i].1 > 0
    ensures !CheckJobRequirements(s, reqs)
  {
  }

  /** Every stat of `b` is at least the same stat of `a` (absent reading as 0). */
  ghost predicate Dominates(a: Stats, b: Stats) {
    forall k :: StatValue(a, k) <= StatValue(b, k)
  }

  /** Raising stats never makes an available job unavailable. */
  lemma EligibilityMonotone(a: Stats, b: Stats, reqs: seq<(string, int)>)
    requires Dominates(a, b)
    requires CheckJobRequirements(a, reqs)
    ensures CheckJobRequirements(b, reqs)
  {
  }

  /** The stats with one stat raised by `amount`. */
  function Raise(s: Stats, key: string, amount: nat): (s': Stats)
    ensures StatValue(s', key) == StatValue(s, key) + amount
    ensures forall k :: k != key ==> StatValue(s', k) == StatValue(s, k)
  {
    s.(numbers := s.numbers[key := StatValue(s, key) + amount])
  }

  /** Raising any single stat keeps every available job available. */
  lemma RaiseKeepsEligible(s: Stats, key: string, amount: nat, reqs: seq<(string, int)>)
    requires CheckJobRequirements(s, reqs)
    ensures CheckJobRequirements(Raise(s, key, amount), reqs)
  {
    EligibilityMonotone(s, Raise(s, key, amount), reqs);
  }

  /** The captions of the five stats the panel knows by name. */
  const RequirementLabels: map<string, string> := map[
    "level" := "レベル",
    "npc_kills" := "NPCキル数",
    "player_kills" := "プレイヤーキル数",
    "raids_completed" := "レイド完了数",
    "escapes_success" := "脱出成功数"]

  /** `getRequirementLabel`: the caption of a known stat, the stat name itself otherwise. */
  function RequirementLabel(key: string): (caption: string)
    ensures key == "level" ==> caption == "レベル"
    ensures key == "npc_kills" ==> caption == "NPCキル数"
    ensures key == "player_kills" ==> caption == "プレイヤーキル数"
    ensures key == "raids_completed" ==> caption == "レイド完了数"
    ensures key == "escapes_success" ==> caption == "脱出成功数"
    ensures key !in {"level", "npc_kills", "player_kills", "raids_completed", "escapes_success"} ==> caption == key
  {
    if key in RequirementLabels then RequirementLabels[key] else key
  }

  /** One requirement row: caption, current value, minimum, and whether it is met. */
  datatype RequirementRow = RequirementRow(caption: string, current: int, threshold: int, fulfilled: bool)

  /** The requirement rows of a job card, one per entry, in the entries' order. */
  function RequirementRows(s: Stats, reqs: seq<(string, int)>): (rows: seq<RequirementRow>)
    ensures |rows| == |reqs|
    ensures forall i :: 0 <= i < |reqs| ==>
      && rows[i].caption == RequirementLabel(reqs[i].0)
      && rows[i].current == StatValue(s, reqs[i].0)
      && rows[i].threshold == reqs[i].1
      && (rows[i].fulfilled <==> rows[i].current >= rows[i].threshold)
  {
    seq(|reqs|, i requires 0 <= i < |reqs| =>
      var current := StatValue(s, reqs[i].0);
      RequirementRow(RequirementLabel(reqs[i].0), current, reqs[i].1, current >= reqs[i].1))
  }

  /** A job card reads as available exactly when every one of its rows reads as met. */
  lemma AvailableAgreesWithRows(s: Stats, reqs: seq<(string, int)>)
    ensures CheckJobRequirements(s, reqs) <==>
      forall i :: 0 <= i < |reqs| ==> RequirementRows(s, reqs)[i].fulfilled
  {
    var rows := RequirementRows(s, reqs);
    assert forall i :: 0 <= i < |reqs| ==> (rows[i].fulfilled <==> StatValue(s, reqs[i].0) >= reqs[i].1);
  }

  /** The level of a skill; a skill absent from the decoded map is at level 0. */
  function SkillLevel(s: Stats, key: string): (level: int)
    ensures key !in s.skills ==> level == 0
    ensures key in s.skills ==> level == s.skills[key]
  {
    if key in s.skills then s.skills[key] else 0
  }

  /** The unspent points; absent reads as 0. */
  function SkillPoints(s: Stats): (points: int)
    ensures "skill_points" !in s.numbers ==> points == 0
    ensures "skill_points" in s.numbers ==> points == s.numbers["skill_points"]
  {
    StatValue(s, "skill_points")
  }

  /**
   The "+" button of a skill card: on only while a point is left to spend
   and one more level stays within the skill's maximum.
   */
  function CanIncrease(s: Stats, key: string, skill: Skill): (ok: bool)
    ensures ok <==> SkillPoints(s) >= 1 && SkillLevel(s, key) + 1 <= skill.maxLevel
    ensures SkillPoints(s) <= 0 ==> !ok
  {
    SkillPoints(s) > 0 && SkillLevel(s, key) < skill.maxLevel
  }

  /** The "-" button of a skill card: on only while one level less stays non-negative; off for a skill never raised. */
  function CanDecrease(s: Stats, key: string): (ok: bool)
    ensures ok <==> SkillLevel(s, key) - 1 >= 0
    ensures key !in s.skills ==> !ok
  {
    SkillLevel(s, key) > 0
  }

  /**
   The +/- gating keeps the level in range: starting from a level within
   0..maxLevel, the one-step change an enabled button asks for stays within it;
   with no points left (or none sent) "+" is off, and a skill never raised has "-" off.
   */
  lemma GatedStepStaysInRange(s: Stats, key: string, skill: Skill)
    requires 0 <= SkillLevel(s, key) <= skill.maxLevel
    ensures CanIncrease(s, key, skill) ==> 0 <= SkillLevel(s, key) + 1 <= skill.maxLevel
    ensures CanDecrease(s, key) ==> 0 <= SkillLevel(s, key) - 1 <= skill.maxLevel
    ensures SkillPoints(s) <= 0 ==> !CanIncrease(s, key, skill)
    ensures key !in s.skills ==> !CanDecrease(s, key)
  {
  }

  /** The job shown as current: set, non-empty, and present in the catalog; otherwise none. */
  function CurrentJob(d: PanelData): (r: Option<SpecialJob>)
    ensures r.Some? <==> d.stats.job.Some? && d.stats.job.value != "" && d.stats.job.value in d.specialJobs
    ensures r.Some? ==> r.value == d.specialJobs[d.stats.job.value]
  {
    match d.stats.job
    case None => None
    case Some(k) => if k != "" && k in d.specialJobs then Some(d.specialJobs[k]) else None
  }

  /** The badge of a job card. */
  datatype Badge = CurrentBadge | AvailableBadge | LockedBadge

  /**
   The badge of a job card: "current" exactly for the recorded job (whose card
   is then the one shown as current, for a non-empty key), otherwise
   "available" or "locked" as its requirements are met or not.
   */
  function JobBadge(d: PanelData, jobKey: string): (b: Badge)
    requires jobKey in d.specialJobs
    ensures b == CurrentBadge <==> d.stats.job == Some(jobKey)
    ensures b == CurrentBadge && jobKey != "" ==> CurrentJob(d) == Some(d.specialJobs[jobKey])
    ensures b != CurrentBadge ==> (b == AvailableBadge <==> CheckJobRequirements(d.stats, d.specialJobs[jobKey].requirements))
  {
    if d.stats.job == Some(jobKey) then CurrentBadge
    else if CheckJobRequirements(d.stats, d.specialJobs[jobKey].requirements) then AvailableBadge
    else LockedBadge
  }

  /** The change-job button: on an available job card that is not the current job, i.e. on every "available" badge. */
  function ChangeJobOffered(d: PanelData, jobKey: string): (ok: bool)
    ensures ok <==> jobKey in d.specialJobs && JobBadge(d, jobKey) == AvailableBadge
  {
    && jobKey in d.specialJobs
    && CheckJobRequirements(d.stats, d.specialJobs[jobKey].requirements)
    && d.stats.job != Some(jobKey)
  }

  /** The change-job button appears exactly on the cards whose badge reads "available". */
  lemma OfferedIffAvailableBadge(d: PanelData, jobKey: string)
    requires jobKey in d.specialJobs
    ensures ChangeJobOffered(d, jobKey) <==> JobBadge(d, jobKey) == AvailableBadge
  {
  }

  /**
   Once the host records the change, the job is no longer offered and is
   shown as current (for a non-empty key); no locked job becomes available;
   the job left behind is offered again exactly when it is still available,
   and every other job keeps its offer.
   */
  lemma ChangeJobSettles(d: PanelData, jobKey: string, other: string)
    requires ChangeJobOffered(d, jobKey)
    ensures var d' := d.(stats := d.stats.(job := Some(jobKey)));
      && !ChangeJobOffered(d', jobKey)
      && (jobKey != "" ==> CurrentJob(d') == Some(d.specialJobs[jobKey]))
      && (other in d.specialJobs ==> JobBadge(d', other) != AvailableBadge || JobBadge(d, other) != LockedBadge)
      && (other != jobKey && d.stats.job != Some(other) ==> ChangeJobOffered(d', other) == ChangeJobOffered(d, other))
      && (d.stats.job == Some(other) && other in d.specialJobs ==>
            ChangeJobOffered(d', other) == CheckJobRequirements(d.stats, d.specialJobs[other].requirements))
  {
  }

  /** The controls of the panel. */
  datatype Control =
    | DecreaseButton(skillKey: string)
    | IncreaseButton(skillKey: string)
    | ResetButton
    | ChangeJobButton(jobKey: string)
    | CloseButton

  /** What a press hands to the overlay. */
  datatype Request =
    | AllocateSkill(skillName: string, points: int)
    | ResetSkills
    | ChangeJob(jobName: string)
    | Close

  /**
   Pressing a control: each skill card of the catalog carries -1/+1 buttons
   gated as above, reset and close are always on, and change-job only where offered.
   */
  function Press(d: PanelData, c: Control): (r: Option<Request>)
    ensures r.Some? && r.value.AllocateSkill? ==>
      var k := r.value.skillName;
      && k in d.skills
      && (r.value.points == 1 || r.value.points == -1)
      && (r.value.points == 1 ==> CanIncrease(d.stats, k, d.skills[k]))
      && (r.value.points == -1 ==> CanDecrease(d.stats, k))
    ensures r.Some? && r.value.ChangeJob? ==> ChangeJobOffered(d, r.value.jobName)
    ensures c == ResetButton ==> r == Some(ResetSkills)
    ensures c == CloseButton ==> r == Some(Close)
    ensures c.IncreaseButton? ==> (r.Some? <==> c.skillKey in d.skills && CanIncrease(d.stats, c.skillKey, d.skills[c.skillKey]))
    ensures c.DecreaseButton? ==> (r.Some? <==> c.skillKey in d.skills && CanDecrease(d.stats, c.skillKey))
    ensures c.ChangeJobButton? ==> (r.Some? <==> ChangeJobOffered(d, c.jobKey))
    ensures c.IncreaseButton? && r.Some? ==> r == Some(AllocateSkill(c.skillKey, 1))
    ensures c.DecreaseButton? && r.Some? ==> r == Some(AllocateSkill(c.skillKey, -1))
    ensures c.ChangeJobButton? && r.Some? ==> r == Some(ChangeJob(c.jobKey))
  {
    match c
    case DecreaseButton(k) =>
      if k in d.skills && CanDecrease(d.stats, k) then Some(AllocateSkill(k, -1)) else None
    case IncreaseButton(k) =>
      if k in d.skills && CanIncrease(d.stats, k, d.skills[k]) then Some(AllocateSkill(k, 1)) else None
    case ResetButton => Some(ResetSkills)
    case ChangeJobButton(k) => if ChangeJobOffered(d, k) then Some(ChangeJob(k)) else None
    case CloseButton => Some(Close)
  }
}
