/**
 The post-raid result screen: the rating (a score and a five-tier letter
 grade), the per-line performance breakdown with its separately computed
 total, and the `m:ss` survival-time display.
 */
module ResultScreen {
  import opened Basics
  import opened Text

  /**
   The host's result payload. Numeric fields may be absent; every use reads
   them as `field || 0`.
   */
  datatype ResultData = ResultData(
    name: string,
    role: string,
    raidSuccess: bool,
    survivalTime: Option<int>,
    npcKills: Option<int>,
    playerKills: Option<int>,
    totalXpEarned: Option<int>,
    successReward: Option<int>)

  datatype Grade = S | A | B | C | D

  /** Position of a grade from worst (D = 0) to best (S = 4). */
  function Rank(g: Grade): nat {
    match g
    case D => 0
    case C => 1
    case B => 2
    case A => 3
    case S => 4
  }

  /** The least score that earns a grade above D. */
  function Threshold(g: Grade): int
    requires g != D
  {
    match g
    case C => 50
    case B => 100
    case A => 150
    case S => 200
  }

  /** `field || 0` for a numeric field. */
  function OrZero(v: Option<int>): int {
    v.GetOr(0)
  }

  const SecondsPerMinute: int := 60
  const PointsPerMinute: int := 10
  const PointsPerNpcKill: int := 5
  const PointsPerPlayerKill: int := 20
  const SuccessBonus: int := 100

  /** The score as `calculateRating` accumulates it, one bonus after another. */
  function RatingScore(d: ResultData): (score: int)
    ensures score == Total(Breakdown(d))
  {
    BreakdownLinesSum(d);
    var s0 := 0;
    var s1 := s0 + FloorDiv(OrZero(d.survivalTime), SecondsPerMinute) * PointsPerMinute;
    var s2 := s1 + OrZero(d.npcKills) * PointsPerNpcKill;
    var s3 := s2 + OrZero(d.playerKills) * PointsPerPlayerKill;
    if d.raidSuccess then s3 + SuccessBonus else s3
  }

  /**
   The grade for a score: the best grade whose threshold the score reaches,
   D when it reaches none.
   */
  function GradeOf(score: int): (g: Grade)
    ensures g != D ==> score >= Threshold(g)
    ensures forall h: Grade :: Rank(h) > Rank(g) ==> score < Threshold(h)
  {
    if score >= 200 then S
    else if score >= 150 then A
    else if score >= 100 then B
    else if score >= 50 then C
    else D
  }

  /**
   `calculateRating(data).grade`: the best grade whose threshold the total of
   the printed breakdown lines reaches, D when it reaches none.
   */
  function CalculateRating(d: ResultData): (g: Grade)
    ensures g != D ==> Total(Breakdown(d)) >= Threshold(g)
    ensures forall h: Grade :: Rank(h) > Rank(g) ==> Total(Breakdown(d)) < Threshold(h)
  {
    GradeOf(RatingScore(d))
  }

  /** One line of the performance breakdown: its caption and its points. */
  datatype Line = SurvivalLine(points: int) | NpcKillLine(points: int) | PlayerKillLine(points: int) | SuccessLine(points: int)

  /**
   The breakdown lines the screen shows, in order: 10 points per whole minute
   survived, 5 per NPC kill, 20 per player kill, and the 100-point success
   line last, only for a successful raid.
   */
  function Breakdown(d: ResultData): (lines: seq<Line>)
    ensures |lines| == if d.raidSuccess then 4 else 3
    ensures lines[0] == SurvivalLine(10 * (OrZero(d.survivalTime) / 60))
    ensures lines[1] == NpcKillLine(5 * OrZero(d.npcKills))
    ensures lines[2] == PlayerKillLine(20 * OrZero(d.playerKills))
    ensures d.raidSuccess ==> lines[3] == SuccessLine(100)
  {
    [ SurvivalLine(FloorDiv(OrZero(d.survivalTime), SecondsPerMinute) * PointsPerMinute),
      NpcKillLine(OrZero(d.npcKills) * PointsPerNpcKill),
      PlayerKillLine(OrZero(d.playerKills) * PointsPerPlayerKill) ]
    + (if d.raidSuccess then [SuccessLine(SuccessBonus)] else [])
  }

  function Total(lines: seq<Line>): int
    decreases |lines|
  {
    if |lines| == 0 then 0 else lines[0].points + Total(lines[1..])
  }

  /**
   The total the breakdown prints, recomputed from the payload in one
   expression; it equals the sum of the lines printed above it.
   */
  function BreakdownTotal(d: ResultData): (total: int)
    ensures total == Total(Breakdown(d))
  {
    BreakdownLinesSum(d);
    FloorDiv(OrZero(d.survivalTime), SecondsPerMinute) * PointsPerMinute
    + OrZero(d.npcKills) * PointsPerNpcKill
    + OrZero(d.playerKills) * PointsPerPlayerKill
    + (if d.raidSuccess then SuccessBonus else 0)
  }

  /** The total of the breakdown is the sum of its three or four lines' points. */
  lemma BreakdownLinesSum(d: ResultData)
    ensures var lines := Breakdown(d);
      Total(lines) == lines[0].points + lines[1].points + lines[2].points + (if d.raidSuccess then lines[3].points else 0)
  {
    var lines := Breakdown(d);
    var tail: seq<Line> := if d.raidSuccess then [SuccessLine(SuccessBonus)] else [];
    assert Total(tail) == if d.raidSuccess then SuccessBonus else 0 by {
      if d.raidSuccess {
        assert tail[1..] == [];
      }
    }
    assert lines[1..][1..][1..] == tail;
    assert Total(lines[1..][1..]) == lines[2].points + Total(tail);
    assert Total(lines[1..]) == lines[1].points + Total(lines[1..][1..]);
  }

  /**
   The printed total agrees with the score the grade was computed from, and
   with the sum of the lines printed above it.
   */
  lemma BreakdownAgreesWithRating(d: ResultData)
    ensures BreakdownTotal(d) == RatingScore(d)
    ensures BreakdownTotal(d) == Total(Breakdown(d))
    ensures CalculateRating(d) == GradeOf(BreakdownTotal(d))
  {
  }

  /** A higher score never earns a worse grade. */
  lemma GradeMonotone(s1: int, s2: int)
    requires s1 <= s2
    ensures Rank(GradeOf(s1)) <= Rank(GradeOf(s2))
  {
  }

  /** The success bonus adds exactly 100 points on success and nothing on failure. */
  lemma SuccessBonusExact(d: ResultData)
    ensures RatingScore(d.(raidSuccess := true)) == RatingScore(d.(raidSuccess := false)) + 100
  {
  }

  /** Worked examples: 300 s, 5 NPC and 2 player kills with success give 215 (S); all zero with failure give 0 (D). */
  lemma RatingExamples()
    ensures RatingScore(ResultData("", "", true, Some(300), Some(5), Some(2), None, None)) == 215
    ensures CalculateRating(ResultData("", "", true, Some(300), Some(5), Some(2), None, None)) == S
    ensures RatingScore(ResultData("", "", false, Some(0), Some(0), Some(0), Some(0), Some(0))) == 0
    ensures CalculateRating(ResultData("", "", false, Some(0), Some(0), Some(0), Some(0), Some(0))) == D
    ensures RatingScore(ResultData("", "", true, Some(600), Some(2), Some(0), None, None)) == 210
    ensures CalculateRating(ResultData("", "", false, None, None, None, None, None)) == D
  {
  }

  /**
   `formatTime(seconds)`: whole minutes, a colon, and the remaining seconds
   padded to two characters. The display of a non-negative number of seconds
   loses nothing: it reads back as the same number.
   */
  function FormatTime(seconds: int): (t: string)
    ensures |t| >= 4
    ensures seconds >= 0 ==> ParseTime(t) == Some(seconds)
  {
    if seconds >= 0 then
      NonNegativeParts(seconds);
      ClockReadsBack(seconds / 60, seconds % 60);
      Reassemble(seconds);
      Clock(FloorDiv(seconds, SecondsPerMinute), JsRem(seconds, SecondsPerMinute))
    else
      Clock(FloorDiv(seconds, SecondsPerMinute), JsRem(seconds, SecondsPerMinute))
  }

  /** The `m:ss` text for given minutes and remaining seconds. */
  function Clock(minutes: int, remaining: int): (t: string)
    ensures |t| >= 4
  {
    IntToString(minutes) + ":" + PadStart(IntToString(remaining), 2, '0')
  }

  /** For non-negative seconds the minutes and remainder are the natural quotient and remainder by 60. */
  lemma NonNegativeParts(seconds: int)
    requires seconds >= 0
    ensures FloorDiv(seconds, SecondsPerMinute) == seconds / 60 >= 0
    ensures JsRem(seconds, SecondsPerMinute) == seconds % 60
  {
  }

  /** For non-negative seconds the display is the clock text of the natural quotient and remainder by 60. */
  lemma FormatTimeIsClock(seconds: nat)
    ensures FormatTime(seconds) == Clock(seconds / 60, seconds % 60)
  {
    NonNegativeParts(seconds);
  }

  /** A remainder below 60, rendered and padded, is exactly two digits spelling its value. */
  lemma TwoDigitField(r: int)
    requires 0 <= r < 60
    ensures var f := PadStart(NatToString(r), 2, '0');
      |f| == 2 && AllDigits(f) && ParseDigits(f) == r
  {
    var f := PadStart(NatToString(r), 2, '0');
    ParseNatToString(r);
    if r < 10 {
      assert f == ['0'] + NatToString(r);
    } else {
      assert f == NatToString(r);
    }
  }

  /** For non-negative parts no minus sign appears. */
  lemma ClockOfNaturals(m: nat, r: nat)
    ensures Clock(m, r) == NatToString(m) + ":" + PadStart(NatToString(r), 2, '0')
  {
  }

  /** The pieces of a display `a + ":" + f` whose field `f` is two digits spelling `r`. */
  lemma Pieces(t: string, a: string, f: string, r: nat)
    requires t == a + ":" + f && |a| >= 1 && |f| == 2 && AllDigits(f) && ParseDigits(f) == r
    ensures |t| >= 4 && t[..|t| - 3] == a && t[|t| - 3] == ':' && AllDigits(t[|t| - 2..]) && ParseDigits(t[|t| - 2..]) == r
  {
    Joined(a, f);
  }

  /** The pieces of `a + ":" + f` for a two-character field `f`. */
  lemma Joined(a: string, f: string)
    requires |f| == 2
    ensures var t := a + ":" + f;
      && |t| == |a| + 3
      && t[..|t| - 3] == a
      && t[|t| - 3] == ':'
      && t[|t| - 2..] == f
  {
  }

  /**
   For non-negative minutes and a remainder below 60 the display is the
   minutes' digits, a colon, and two digits spelling the remainder.
   */
  lemma ClockFields(m: nat, r: nat)
    requires r < 60
    ensures var t := Clock(m, r);
      && |t| >= 4
      && t[..|t| - 3] == NatToString(m)
      && t[|t| - 3] == ':'
      && AllDigits(t[|t| - 2..])
      && ParseDigits(t[|t| - 2..]) == r
  {
    ClockOfNaturals(m, r);
    TwoDigitField(r);
    Pieces(Clock(m, r), NatToString(m), PadStart(NatToString(r), 2, '0'), r);
  }

  /**
   Negative seconds follow JavaScript: the minutes are floored and the
   remainder keeps the dividend's sign, so half a minute before zero shows
   as "-1:-30".
   */
  lemma FormatTimeHalfMinuteBefore()
    ensures FormatTime(-30) == "-1:-30"
  {
    assert FormatTime(-30) == Clock(-1, -30);
    assert IntToString(-1) == "-1";
    assert NatToString(30) == "30";
    assert PadStart("-30", 2, '0') == "-30";
  }

  /** A whole minute before zero has a zero remainder and shows as "-1:00". */
  lemma FormatTimeMinuteBefore()
    ensures FormatTime(-60) == "-1:00"
  {
    assert FormatTime(-60) == Clock(-1, 0);
    assert IntToString(-1) == "-1";
    assert PadStart("0", 2, '0') == "00";
  }

  /** For non-negative seconds, the display spells the whole minutes and two digits of remaining seconds. */
  lemma FormatTimeShape(seconds: nat)
    ensures var t := FormatTime(seconds);
      && |t| >= 4
      && t[..|t| - 3] == NatToString(seconds / 60)
      && t[|t| - 3] == ':'
      && AllDigits(t[|t| - 2..])
      && ParseDigits(t[|t| - 2..]) == seconds % 60
  {
    FormatTimeIsClock(seconds);
    ClockFields(seconds / 60, seconds % 60);
  }

  /** Reads an `m:ss` display back into seconds; None for anything of another shape. */
  function ParseTime(t: string): Option<int> {
    if |t| >= 4 && t[|t| - 3] == ':' && AllDigits(t[..|t| - 3]) && AllDigits(t[|t| - 2..]) then
      Some(ParseDigits(t[..|t| - 3]) * 60 + ParseDigits(t[|t| - 2..]))
    else
      None
  }

  /** A display joined from digits spelling `m` and a two-digit field spelling `r` reads back as `m * 60 + r`. */
  lemma ReadsBackParts(a: string, f: string, m: nat, r: nat)
    requires |a| >= 1 && AllDigits(a) && ParseDigits(a) == m
    requires |f| == 2 && AllDigits(f) && ParseDigits(f) == r
    ensures ParseTime(a + ":" + f) == Some(m * 60 + r)
  {
    Joined(a, f);
  }

  /** A clock display with a remainder below 60 reads back as its number of seconds. */
  lemma ClockReadsBack(m: nat, r: nat)
    requires r < 60
    ensures ParseTime(Clock(m, r)) == Some(m * 60 + r)
  {
    ClockOfNaturals(m, r);
    TwoDigitField(r);
    ParseNatToString(m);
    ReadsBackParts(NatToString(m), PadStart(NatToString(r), 2, '0'), m, r);
  }

  /** Whole minutes and the remainder make up the seconds again. */
  lemma Reassemble(seconds: nat)
    ensures (seconds / 60) * 60 + seconds % 60 == seconds
  {
  }
}
