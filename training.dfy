/** The training page, src/pages/Training.tsx: how a module's length in
    minutes is shown, which modules the signed-in user has completed, and
    the completed count and percentage of the summary cards. The fetched
    module list and completion rows are inputs. */
module Training {
  import opened Common
  import opened Text

  datatype TrainingModule = TrainingModule(id: string, title: string, url: string, duration: int,
                                           requiredForTaskType: string)

  datatype CompletedTraining = CompletedTraining(trainingId: string, completedAt: string)

  // ------------------------------------------------------------ durations

  /** `formatDuration`: under an hour as minutes ("45m"); otherwise whole
      hours ("2h"), with the leftover minutes when there are any ("1h 30m"). */
  function FormatDuration(minutes: int): (s: string)
    ensures |s| >= 2
  {
    if minutes < 60 then IntToString(minutes) + "m"
    else
      var hours, remaining := minutes / 60, minutes % 60;
      if remaining > 0 then NatToString(hours) + "h " + NatToString(remaining) + "m"
      else NatToString(hours) + "h"
  }

  /** Reads a shown duration back into minutes: "<n>m", "<n>h" or
      "<n>h <n>m" with decimal numbers; anything else is `None`. */
  function ReadDuration(s: string): Option<nat>
  {
    if |s| < 2 then None
    else
      var body := s[..|s| - 1];
      if s[|s| - 1] == 'h' then
        if AllDigits(body) then Some(60 * DigitsValue(body)) else None
      else if s[|s| - 1] == 'm' then
        var k := IndexOf(body, 'h');
        if k < 0 then
          if AllDigits(body) then Some(DigitsValue(body)) else None
        else if k + 1 < |body| && body[k + 1] == ' ' && AllDigits(body[..k]) && AllDigits(body[k + 2..]) then
          Some(60 * DigitsValue(body[..k]) + DigitsValue(body[k + 2..]))
        else None
      else None
  }

  lemma NoLetterInDigits(s: string, c: char)
    requires AllDigits(s) && !IsDigit(c)
    ensures c !in s
  {
  }

  /** Every non-negative duration is shown as text that reads back as the
      same number of minutes. */
  lemma FormatDurationRoundTrip(minutes: nat)
    ensures ReadDuration(FormatDuration(minutes)) == Some(minutes)
  {
    if minutes < 60 {
      MinutesRoundTrip(minutes);
    } else if minutes % 60 > 0 {
      HoursMinutesRoundTrip(minutes);
    } else {
      HoursRoundTrip(minutes);
    }
  }

  // The three shapes of FormatDurationRoundTrip.

  lemma MinutesRoundTrip(minutes: nat)
    requires minutes < 60
    ensures ReadDuration(FormatDuration(minutes)) == Some(minutes)
  {
    var s := FormatDuration(minutes);
    var body := s[..|s| - 1];
    assert body == NatToString(minutes);
    NoLetterInDigits(body, 'h');
    DigitsValueOfNatToString(minutes);
  }

  lemma HoursRoundTrip(minutes: nat)
    requires minutes >= 60 && minutes % 60 == 0
    ensures ReadDuration(FormatDuration(minutes)) == Some(minutes)
  {
    var s := FormatDuration(minutes);
    var h := NatToString(minutes / 60);
    DigitsValueOfNatToString(minutes / 60);
    assert s[..|s| - 1] == h;
  }

  lemma HoursMinutesRoundTrip(minutes: nat)
    requires minutes >= 60 && minutes % 60 > 0
    ensures ReadDuration(FormatDuration(minutes)) == Some(minutes)
  {
    var s := FormatDuration(minutes);
    var body := s[..|s| - 1];
    var hours, remaining := minutes / 60, minutes % 60;
    var h, r := NatToString(hours), NatToString(remaining);
    DigitsValueOfNatToString(hours);
    assert body == h + ['h'] + (" " + r);
    NoLetterInDigits(h, 'h');
    IndexOfAfter(h, 'h', " " + r);
    assert body[..|h|] == h;
    assert body[|h| + 2..] == r;
    DigitsValueOfNatToString(remaining);
  }

  // ------------------------------------------------------------ completion

  /** `isCompleted`: some completion row names the module. */
  function IsCompleted(completed: seq<CompletedTraining>, trainingId: string): (b: bool)
    ensures b <==> exists i :: 0 <= i < |completed| && completed[i].trainingId == trainingId
  {
    Find(completed, (ct: CompletedTraining) => ct.trainingId == trainingId).Some?
  }

  /** `completedCount`: the modules that have a completion row. */
  function CompletedCount(training: seq<TrainingModule>, completed: seq<CompletedTraining>): nat
  {
    CountWhere(training, (t: TrainingModule) => IsCompleted(completed, t.id))
  }

  /** The count never exceeds the number of modules; it is zero exactly when
      no module has a completion row, and full exactly when every one has. */
  lemma CompletedCountBounds(training: seq<TrainingModule>, completed: seq<CompletedTraining>)
    ensures CompletedCount(training, completed) <= |training|
    ensures CompletedCount(training, completed) == 0 <==>
              forall i :: 0 <= i < |training| ==> !IsCompleted(completed, training[i].id)
    ensures CompletedCount(training, completed) == |training| <==>
              forall i :: 0 <= i < |training| ==> IsCompleted(completed, training[i].id)
    ensures completed == [] ==> CompletedCount(training, completed) == 0
  {
  }

  /** `Math.round(completed / total * 100)`, or 0 with no modules, computed on
      exact rationals: rounding to the nearest integer, halves upwards. */
  function ProgressPercent(completedCount: nat, total: nat): (p: nat)
    ensures total == 0 ==> p == 0
    ensures total > 0 ==> p * (2 * total) <= 200 * completedCount + total < (p + 1) * (2 * total)
  {
    if total == 0 then 0 else (200 * completedCount + total) / (2 * total)
  }

  /** Cancelling a positive factor from a strict inequality. */
  lemma MulLessCancel(a: int, b: int, m: int)
    requires m > 0 && a * m < b * m
    ensures a < b
  {
  }

  lemma ProgressPercentAtMost100(c: nat, total: nat)
    requires c <= total
    ensures ProgressPercent(c, total) <= 100
  {
    if total > 0 {
      MulLessCancel(ProgressPercent(c, total), 101, 2 * total);
    }
  }

  lemma ProgressPercentExtremes(total: nat)
    ensures total > 0 ==> ProgressPercent(total, total) == 100
    ensures ProgressPercent(0, total) == 0
  {
    if total > 0 {
      var q := ProgressPercent(total, total);
      MulLessCancel(100, q + 1, 2 * total);
      MulLessCancel(q, 101, 2 * total);
      MulLessCancel(ProgressPercent(0, total), 1, 2 * total);
    }
  }

  lemma ProgressPercentMonotone(c: nat, c2: nat, total: nat)
    requires c <= c2
    ensures ProgressPercent(c, total) <= ProgressPercent(c2, total)
  {
    if total > 0 {
      MulLessCancel(ProgressPercent(c, total), ProgressPercent(c2, total) + 1, 2 * total);
    }
  }

  /** The percentage lies in 0..100, is 100 when everything is completed and 0
      when nothing is, and never drops as more modules are completed. */
  lemma ProgressPercentBounds(c: nat, c2: nat, total: nat)
    requires c <= c2 <= total
    ensures ProgressPercent(c, total) <= 100
    ensures total > 0 ==> ProgressPercent(total, total) == 100
    ensures ProgressPercent(0, total) == 0
    ensures ProgressPercent(c, total) <= ProgressPercent(c2, total)
  {
    ProgressPercentAtMost100(c, total);
    ProgressPercentExtremes(total);
    ProgressPercentMonotone(c, c2, total);
  }

  /** The page's percentage card. */
  function PageProgress(training: seq<TrainingModule>, completed: seq<CompletedTraining>): (p: nat)
    ensures p <= 100
  {
    CompletedCountBounds(training, completed);
    ProgressPercentAtMost100(CompletedCount(training, completed), |training|);
    ProgressPercent(CompletedCount(training, completed), |training|)
  }
}
