/**
 * The automatic-alert settings (components/AutomationSettings.tsx): the three
 * controls, each of which hands the parent a copy of the settings with one
 * field replaced.
 */
module AutomationSettingsView {
  import opened Types
  import opened Text
  import AttendanceTracker

  /** The on/off switch. */
  function SetEnabled(s: AutomationSettings, enabled: bool): (r: AutomationSettings)
    ensures r.enabled == enabled
    ensures r.webhookUrl == s.webhookUrl && r.threshold == s.threshold
  {
    s.(enabled := enabled)
  }

  /** The endpoint URL box. */
  function SetWebhookUrl(s: AutomationSettings, url: string): (r: AutomationSettings)
    ensures r.webhookUrl == url
    ensures r.enabled == s.enabled && r.threshold == s.threshold
  {
    s.(webhookUrl := url)
  }

  /**
   * `parseInt(value) || 1`: the number typed, read as `parseInt` reads it; no
   * number at all (`NaN`) and zero both become 1. The input's `min` and `max`
   * bound only the spinner, so anything else, negatives included, passes.
   */
  function ThresholdOf(input: string): (n: int)
    ensures n != 0
    ensures ParseInt(input).Some? && ParseInt(input).value != 0 ==> n == ParseInt(input).value
    ensures ParseInt(input).None? || ParseInt(input).value == 0 ==> n == 1
  {
    match ParseInt(input)
    case None => 1
    case Some(v) => if v == 0 then 1 else v
  }

  /** The absences box. */
  function SetThreshold(s: AutomationSettings, input: string): (r: AutomationSettings)
    ensures r.threshold == ThresholdOf(input)
    ensures r.webhookUrl == s.webhookUrl && r.enabled == s.enabled
  {
    s.(threshold := ThresholdOf(input))
  }

  /** A positive count typed in decimal is kept as typed. */
  lemma ThresholdPositive(n: nat)
    requires n > 0
    ensures ThresholdOf(NatToDecimal(n)) == n
  {
    ParseIntDecimal(n);
  }

  /** A negative count is kept too: nothing clamps it to the input's minimum of 1. */
  lemma ThresholdNegative(n: nat)
    requires n > 0
    ensures ThresholdOf("-" + NatToDecimal(n)) == -(n as int)
  {
    ParseIntNegativeDecimal(n);
  }

  /** Zero and an empty box both give 1. */
  lemma ThresholdFallback()
    ensures ThresholdOf("0") == 1
    ensures ThresholdOf("") == 1
  {
    ParseIntDecimal(0);
    assert NatToDecimal(0) == "0";
    assert TrimStart("") == "";
  }

  /**
   * With a threshold of 1 or less, which the box lets through, every absence
   * saved for a known student raises a notification, since the count always
   * includes the absence being saved.
   */
  lemma LowThresholdAlertsEveryAbsence(record: AttendanceRecord, students: seq<Student>,
                                       records: seq<AttendanceRecord>, automation: AutomationSettings,
                                       date: string, i: nat)
    requires automation.threshold <= 1
    requires record.status == Absent && i < |students| && students[i].id == record.studentId
    ensures |AttendanceTracker.NotificationFor(record, students, records, automation, date)| == 1
  {
    AttendanceTracker.NotificationForSpec(record, students, records, automation, date);
    assert students[i] in students;
  }
}
