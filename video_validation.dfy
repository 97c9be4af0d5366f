// comment-service/video_validation.go: the account-age rule for video comments.
// The account age reaches the model as whole days (Go's int(hours / 24)).

module VideoValidation {

  const DaysPerMonth := 30
  const MinMonths := 18
  const MonthsPerStep := 6
  const StepSeconds := 5
  const CapSeconds := 20

  const AgeMessage := "Account must be at least 18 months old to upload video comments"
  const LimitMessage := "Video duration exceeds allowed limit"

  /** Go's integer division, which truncates toward zero. */
  function TruncDiv(a: int, b: int): (q: int)
    requires b > 0
    ensures a >= 0 ==> q == a / b
    ensures a < 0 ==> q == -((-a) / b)
  {
    if a >= 0 then a / b else -((-a) / b)
  }

  /** The ceiling a `GetMaxVideoDuration` call answers with. */
  datatype Allowance = Allowance(maxDuration: int, canUpload: bool)

  /** The verdict of `ValidateVideoUpload`: (valid, message, maxDuration). */
  datatype Verdict = Verdict(valid: bool, message: string, maxDuration: int)

  function AgeInMonths(ageDays: int): int
  {
    TruncDiv(ageDays, DaysPerMonth)
  }

  function GetMaxVideoDuration(ageDays: int): (r: Allowance)
    ensures r.canUpload <==> ageDays >= MinMonths * DaysPerMonth
    ensures !r.canUpload ==> r.maxDuration == 0
    ensures r.canUpload ==> StepSeconds <= r.maxDuration <= CapSeconds && r.maxDuration % StepSeconds == 0
    ensures ageDays >= 36 * DaysPerMonth ==> r.maxDuration == CapSeconds
  {
    var months := AgeInMonths(ageDays);
    if months < MinMonths then
      Allowance(0, false)
    else
      var additionalPeriods := (months - MinMonths) / MonthsPerStep;
      var maxDuration := StepSeconds + additionalPeriods * StepSeconds;
      Allowance(if maxDuration > CapSeconds then CapSeconds else maxDuration, true)
  }

  /** Between 18 and 36 months the ceiling is 5 seconds plus 5 for each whole 6 months beyond 18. */
  lemma DurationSteps(ageDays: int, periods: nat)
    requires periods < 3
    requires (MinMonths + MonthsPerStep * periods) * DaysPerMonth <= ageDays < (MinMonths + MonthsPerStep * (periods + 1)) * DaysPerMonth
    ensures GetMaxVideoDuration(ageDays) == Allowance(StepSeconds * (periods + 1), true)
  {
    var months := AgeInMonths(ageDays);
    assert MinMonths + MonthsPerStep * periods <= months < MinMonths + MonthsPerStep * (periods + 1);
    assert (months - MinMonths) / MonthsPerStep == periods;
  }

  /** An older account is never allowed less. */
  lemma {:induction false} DurationMonotonic(d1: int, d2: int)
    requires d1 <= d2
    ensures GetMaxVideoDuration(d1).canUpload ==> GetMaxVideoDuration(d2).canUpload
    ensures GetMaxVideoDuration(d1).maxDuration <= GetMaxVideoDuration(d2).maxDuration
  {
    var m1, m2 := AgeInMonths(d1), AgeInMonths(d2);
    if m1 >= MinMonths {
      assert d1 >= 0 && m1 <= m2;
      assert (m1 - MinMonths) / MonthsPerStep <= (m2 - MinMonths) / MonthsPerStep;
    }
  }

  /** The cases of video_validation_test.go, with ages of exactly n * 30 days. */
  lemma RecordedCases()
    ensures GetMaxVideoDuration(30 * 17) == Allowance(0, false)
    ensures GetMaxVideoDuration(30 * 18) == Allowance(5, true)
    ensures GetMaxVideoDuration(30 * 24) == Allowance(10, true)
    ensures GetMaxVideoDuration(30 * 30) == Allowance(15, true)
    ensures GetMaxVideoDuration(30 * 36) == Allowance(20, true)
    ensures GetMaxVideoDuration(30 * 48) == Allowance(20, true)
    ensures ValidateVideoUpload(30 * 18, 5).valid && ValidateVideoUpload(30 * 18, 5).maxDuration == 5
    ensures !ValidateVideoUpload(30 * 17, 5).valid && ValidateVideoUpload(30 * 17, 5).maxDuration == 0
    ensures !ValidateVideoUpload(30 * 18, 10).valid && ValidateVideoUpload(30 * 18, 10).maxDuration == 5
    ensures ValidateVideoUpload(30 * 30, 15).valid && ValidateVideoUpload(30 * 30, 15).maxDuration == 15
  {
  }

  function ValidateVideoUpload(ageDays: int, videoSeconds: int): (r: Verdict)
    ensures r.valid <==> GetMaxVideoDuration(ageDays).canUpload && videoSeconds <= GetMaxVideoDuration(ageDays).maxDuration
    ensures r.valid ==> r.message == "" && r.maxDuration == GetMaxVideoDuration(ageDays).maxDuration
    ensures !GetMaxVideoDuration(ageDays).canUpload ==> r == Verdict(false, AgeMessage, 0)
    ensures GetMaxVideoDuration(ageDays).canUpload && !r.valid ==> r == Verdict(false, LimitMessage, GetMaxVideoDuration(ageDays).maxDuration)
  {
    var a := GetMaxVideoDuration(ageDays);
    if !a.canUpload then Verdict(false, AgeMessage, 0)
    else if videoSeconds > a.maxDuration then Verdict(false, LimitMessage, a.maxDuration)
    else Verdict(true, "", a.maxDuration)
  }

  /** A video of exactly the ceiling is accepted; one second more is refused. */
  lemma BoundaryIsInclusive(ageDays: int)
    requires ageDays >= MinMonths * DaysPerMonth
    ensures ValidateVideoUpload(ageDays, GetMaxVideoDuration(ageDays).maxDuration).valid
    ensures !ValidateVideoUpload(ageDays, GetMaxVideoDuration(ageDays).maxDuration + 1).valid
  {
  }
}
