/**
 * Cooking mode: the step-by-step view of a recipe's instructions, each
 * step optionally carrying a countdown timer. The timer counts whole
 * seconds down to zero and shows them as `MM:SS`; the view keeps a step
 * cursor inside the instruction list.
 */
module CookingMode {
  import opened Wrappers

  datatype ProcessedInstruction = ProcessedInstruction(text: string, timerInMinutes: Option<int>)

  /** A step shows a timer when its minutes are present and non-zero (`timerInMinutes && <Timer …/>`). */
  predicate HasTimer(p: ProcessedInstruction) {
    p.timerInMinutes.Some? && p.timerInMinutes.value != 0
  }

  /** The instructions as shown when the timer service fails: every text kept, in order, with no timer. */
  function Fallback(instructions: seq<string>): (r: seq<ProcessedInstruction>)
    ensures |r| == |instructions|
    ensures forall i :: 0 <= i < |r| ==> r[i].text == instructions[i] && r[i].timerInMinutes == None
    ensures forall i :: 0 <= i < |r| ==> !HasTimer(r[i])
  {
    seq(|instructions|, i requires 0 <= i < |instructions| => ProcessedInstruction(instructions[i], None))
  }

  // ----------------------------------------------------------- the timer

  function Max(a: int, b: int): int {
    if a < b then b else a
  }

  /** One second of countdown: at one second or less the timer lands on zero (and stops); otherwise it loses a second. */
  function TickValue(t: int): (r: int)
    ensures 0 <= r
    ensures r <= Max(t - 1, 0)
    ensures t > 1 ==> r == t - 1
  {
    if t <= 1 then 0 else t - 1
  }

  /** The time left after `n` ticks. */
  function Ticks(t: int, n: nat): int
    decreases n
  {
    if n == 0 then t else Ticks(TickValue(t), n - 1)
  }

  /** Once started from `t` seconds, `n` ticks leave `t - n` seconds, never fewer than zero. */
  lemma {:induction false} TicksCountDown(t: int, n: nat)
    requires 0 <= t
    ensures Ticks(t, n) == Max(t - n, 0)
    decreases n
  {
    if n > 0 {
      TicksCountDown(TickValue(t), n - 1);
    }
  }

  /**
   * The countdown of one step. `timeLeft` starts at `minutes * 60` and
   * stays between zero and that start. A negative start (the service's
   * minutes are not checked) is kept until the first tick or reset, and
   * the first tick takes it to zero.
   */
  class Timer {
    const minutes: int
    var timeLeft: int
    var isRunning: bool

    ghost predicate Valid()
      reads this
    {
      0 <= timeLeft <= Max(minutes * 60, 0) || (minutes < 0 && timeLeft == minutes * 60)
    }

    constructor (minutes: int)
      ensures Valid()
      ensures this.minutes == minutes && timeLeft == minutes * 60 && !isRunning
    {
      this.minutes := minutes;
      timeLeft := minutes * 60;
      isRunning := false;
    }

    /**
     * One interval firing. The interval exists only while the timer runs;
     * the tick that reaches zero stops the timer and sounds the alarm.
     */
    method Tick() returns (alarm: bool)
      requires Valid()
      modifies this
      ensures Valid()
      ensures old(isRunning) ==>
                timeLeft == TickValue(old(timeLeft)) && isRunning == (old(timeLeft) > 1) && alarm == (old(timeLeft) <= 1)
      ensures !old(isRunning) ==> timeLeft == old(timeLeft) && !isRunning && !alarm
    {
      alarm := false;
      if isRunning {
        if timeLeft <= 1 {
          isRunning := false;
          alarm := true;
          timeLeft := 0;
        } else {
          timeLeft := timeLeft - 1;
        }
      }
    }

    /** Start / pause. */
    method Toggle()
      requires Valid()
      modifies this
      ensures Valid()
      ensures isRunning == !old(isRunning) && timeLeft == old(timeLeft)
    {
      isRunning := !isRunning;
    }

    /** Reset: stopped, with the full time back. */
    method Reset()
      requires Valid()
      modifies this
      ensures Valid()
      ensures !isRunning && timeLeft == minutes * 60
    {
      isRunning := false;
      timeLeft := minutes * 60;
    }
  }

  // ---------------------------------------------------------- formatting

  function DigitChar(d: int): char
    requires 0 <= d < 10
  {
    ('0' as int + d) as char
  }

  predicate IsDigit(c: char) {
    '0' <= c <= '9'
  }

  predicate AllDigits(s: string) {
    forall i :: 0 <= i < |s| ==> IsDigit(s[i])
  }

  function DigitValue(c: char): nat
    requires IsDigit(c)
  {
    c as int - '0' as int
  }

  /** `n.toString()` for a non-negative integer: its decimal digits, without leading zeros. */
  function NatToString(n: nat): (r: string)
    ensures 1 <= |r|
    ensures AllDigits(r)
    ensures n < 10 ==> |r| == 1
    ensures 10 <= n < 100 ==> |r| == 2
    decreases n
  {
    if n < 10 then [DigitChar(n)] else NatToString(n / 10) + [DigitChar(n % 10)]
  }

  /** `i.toString()` for an integer: a minus sign for a negative one, then the digits of its magnitude. */
  function IntToString(i: int): (r: string)
    ensures 0 <= i ==> AllDigits(r) && ParseDigits(r) == i
    ensures i < 0 ==> 2 <= |r| && r[0] == '-' && AllDigits(r[1..]) && ParseDigits(r[1..]) == -i
  {
    if i < 0 then
      NatToStringRoundTrip(-i);
      var r := "-" + NatToString(-i);
      assert r[1..] == NatToString(-i);
      r
    else
      NatToStringRoundTrip(i);
      NatToString(i)
  }

  /** `s.padStart(2, '0')` */
  function PadStart2(s: string): (r: string)
    ensures |r| == Max(|s|, 2)
    ensures r[|r| - |s|..] == s
    ensures forall i :: 0 <= i < |r| - |s| ==> r[i] == '0'
  {
    if |s| == 0 then "00" else if |s| == 1 then "0" + s else s
  }

  /** JavaScript's `%` by 60: the remainder takes the sign of the dividend and differs from it by a multiple of 60. */
  function JsRem60(s: int): (r: int)
    ensures -60 < r < 60
    ensures 0 <= s ==> 0 <= r
    ensures s < 0 ==> r <= 0
    ensures (s - r) % 60 == 0
  {
    if s >= 0 then s % 60 else -((-s) % 60)
  }

  /**
   * `formatTime`: `Math.floor(s / 60)` and `s % 60`, each padded to two
   * characters, joined by a colon. A non-negative time gives digits, a
   * colon and two digits; a negative one starts with a minus sign.
   */
  function FormatTime(seconds: int): (r: string)
    ensures 0 <= seconds ==> 5 <= |r| && r[|r| - 3] == ':' && AllDigits(r[..|r| - 3]) && AllDigits(r[|r| - 2..])
    ensures 0 <= seconds < 6000 ==> |r| == 5
    ensures seconds < 0 ==> 0 < |r| && r[0] == '-'
  {
    JoinedShape(seconds);
    MinutesText(seconds) + ":" + SecondsText(seconds)
  }

  /** The shape of the joined text, stated on its two parts. */
  lemma JoinedShape(seconds: int)
    ensures var r := MinutesText(seconds) + ":" + SecondsText(seconds);
            && (0 <= seconds ==> 5 <= |r| && r[|r| - 3] == ':' && AllDigits(r[..|r| - 3]) && AllDigits(r[|r| - 2..]))
            && (0 <= seconds < 6000 ==> |r| == 5)
            && (seconds < 0 ==> 0 < |r| && r[0] == '-')
  {
    var m := MinutesText(seconds);
    var sc := SecondsText(seconds);
    if 0 <= seconds {
      MinutesPart(seconds);
      SecondsPart(seconds);
      SplitAtColon(m, sc);
    } else {
      NegativeMinutes(seconds);
      assert (m + ":" + sc)[0] == m[0];
    }
  }

  function MinutesText(seconds: int): string {
    PadStart2(IntToString(seconds / 60))
  }

  function SecondsText(seconds: int): string {
    PadStart2(IntToString(JsRem60(seconds)))
  }

  /** The minutes of a non-negative time: at least two digits, exactly two below 100 minutes, reading back as the minutes. */
  lemma MinutesPart(seconds: int)
    requires 0 <= seconds
    ensures var m := MinutesText(seconds);
            2 <= |m| && AllDigits(m) && ParseDigits(m) == seconds / 60 && (seconds < 6000 ==> |m| == 2)
  {
    var q := seconds / 60;
    assert IntToString(q) == NatToString(q);
    PaddedDigits(q);
  }

  /** The seconds of a non-negative time: two digits reading back as the remainder. */
  lemma SecondsPart(seconds: int)
    requires 0 <= seconds
    ensures var sc := SecondsText(seconds);
            |sc| == 2 && AllDigits(sc) && ParseDigits(sc) == seconds % 60
  {
    var rm := seconds % 60;
    assert JsRem60(seconds) == rm;
    assert IntToString(rm) == NatToString(rm);
    PaddedDigits(rm);
  }

  /** A negative time has negative minutes, written with a leading minus sign. */
  lemma NegativeMinutes(seconds: int)
    requires seconds < 0
    ensures MinutesText(seconds)[0] == '-'
  {
    var q := seconds / 60;
    assert q < 0;
    var t := IntToString(q);
    assert 2 <= |t| && t[0] == '-';
  }

  /** The value of a string of decimal digits. */
  function ParseDigits(s: string): nat
    requires AllDigits(s)
    decreases |s|
  {
    if s == [] then 0 else ParseDigits(s[..|s| - 1]) * 10 + DigitValue(s[|s| - 1])
  }

  /** Reads `MM:SS` back: at least two minute digits, a colon, two second digits below 60. */
  function ParseTime(r: string): Option<int> {
    if 5 <= |r| && r[|r| - 3] == ':' && AllDigits(r[..|r| - 3]) && AllDigits(r[|r| - 2..]) && ParseDigits(r[|r| - 2..]) < 60
    then Some(ParseDigits(r[..|r| - 3]) * 60 + ParseDigits(r[|r| - 2..]))
    else None
  }

  /** Reading a number's digits gives the number back. */
  lemma {:induction false} NatToStringRoundTrip(n: nat)
    ensures ParseDigits(NatToString(n)) == n
    decreases n
  {
    if n >= 10 {
      NatToStringRoundTrip(n / 10);
      var s := NatToString(n);
      assert s[..|s| - 1] == NatToString(n / 10);
    }
  }

  /** Leading zeros do not change a digit string's value. */
  lemma {:induction false} LeadingZero(s: string)
    requires AllDigits(s)
    ensures ParseDigits("0" + s) == ParseDigits(s)
    decreases |s|
  {
    if s != [] {
      var t := "0" + s;
      assert t[..|t| - 1] == "0" + s[..|s| - 1];
      LeadingZero(s[..|s| - 1]);
    }
  }

  /** Padding a digit string keeps its value. */
  lemma PadKeepsValue(s: string)
    requires AllDigits(s)
    ensures AllDigits(PadStart2(s))
    ensures ParseDigits(PadStart2(s)) == ParseDigits(s)
  {
    if |s| == 0 {
      assert ParseDigits("0") == 0;
    } else if |s| == 1 {
      LeadingZero(s);
    }
  }

  /** Two digit strings around a colon split back into the same two strings. */
  lemma SplitAtColon(m: string, sec: string)
    requires 2 <= |m| && |sec| == 2 && AllDigits(m) && AllDigits(sec)
    ensures var r := m + ":" + sec;
            && 5 <= |r| && r[|r| - 3] == ':'
            && r[..|r| - 3] == m && r[|r| - 2..] == sec
  {
    var r := m + ":" + sec;
    assert r[..|r| - 3] == m;
    assert r[|r| - 2..] == sec;
  }

  /** A padded number is at least two digits, exactly two below 100, and reads back as the number. */
  lemma PaddedDigits(n: nat)
    ensures var m := PadStart2(NatToString(n));
            2 <= |m| && AllDigits(m) && ParseDigits(m) == n && (n < 100 ==> |m| == 2)
  {
    NatToStringRoundTrip(n);
    PadKeepsValue(NatToString(n));
  }

  /** `ParseTime` reads the two parts of a joined `MM:SS`. */
  lemma ParseJoined(m: string, sc: string)
    requires 2 <= |m| && |sc| == 2 && AllDigits(m) && AllDigits(sc) && ParseDigits(sc) < 60
    ensures ParseTime(m + ":" + sc) == Some(ParseDigits(m) * 60 + ParseDigits(sc))
  {
    var r := m + ":" + sc;
    SplitAtColon(m, sc);
    var mm, ss := r[..|r| - 3], r[|r| - 2..];
    assert mm == m && ss == sc;
    assert AllDigits(mm) && AllDigits(ss) && ParseDigits(ss) < 60;
    assert ParseTime(r) == Some(ParseDigits(mm) * 60 + ParseDigits(ss));
  }

  /**
   * For non-negative time, `formatTime` writes `MM:SS` that reads back as
   * the time: minutes at least two digits, seconds two digits below 60;
   * below 100 minutes the text is five characters.
   */
  lemma FormatTimeRoundTrip(seconds: int)
    requires 0 <= seconds
    ensures ParseTime(FormatTime(seconds)) == Some(seconds)
    ensures seconds < 6000 ==> |FormatTime(seconds)| == 5
  {
    var m := MinutesText(seconds);
    var sc := SecondsText(seconds);
    assert FormatTime(seconds) == m + ":" + sc;
    MinutesPart(seconds);
    SecondsPart(seconds);
    ParseJoined(m, sc);
    assert ParseTime(m + ":" + sc) == Some(seconds / 60 * 60 + seconds % 60);
  }

  // ---------------------------------------------------------- the cursor

  /** `handleNext`: one step forward while there is a later step. `len` is `None` while nothing is loaded. */
  function NextStep(step: int, len: Option<nat>): (r: int)
    ensures r == step || r == step + 1
    ensures len.Some? && step < len.value - 1 ==> r == step + 1
    ensures len.Some? && 0 <= step < len.value ==> 0 <= r < len.value
    ensures len.None? || step >= len.value - 1 ==> r == step
  {
    if len.Some? && step < len.value - 1 then step + 1 else step
  }

  /** `handlePrev`: one step back while there is an earlier step. */
  function PrevStep(step: int): (r: int)
    ensures r == step || r == step - 1
    ensures step > 0 ==> r == step - 1
    ensures 0 <= step ==> 0 <= r
    ensures step <= 0 ==> r == step
  {
    if step > 0 then step - 1 else step
  }

  /** Forward then back returns to the same step wherever forward moved; back then forward does so wherever back moved. */
  lemma NextPrevInverse(step: int, len: nat)
    ensures 0 <= step < len - 1 ==> PrevStep(NextStep(step, Some(len))) == step
    ensures 0 < step < len ==> NextStep(PrevStep(step), Some(len)) == step
  {
  }

  function NextTimes(step: int, len: Option<nat>, k: nat): int
    decreases k
  {
    if k == 0 then step else NextTimes(NextStep(step, len), len, k - 1)
  }

  /** Pressing forward `k` times from the first step reaches step `k`, stopping at the last one. */
  lemma {:induction false} NextTimesStopsAtLast(len: nat, step: nat, k: nat)
    requires 0 < len && step < len
    ensures NextTimes(step, Some(len), k) == if step + k < len then step + k else len - 1
    decreases k
  {
    if k > 0 {
      NextTimesStopsAtLast(len, NextStep(step, Some(len)), k - 1);
    }
  }

  function Length(p: Option<seq<ProcessedInstruction>>): Option<nat> {
    if p.Some? then Some(|p.value|) else None
  }

  /**
   * The cooking-mode view of one recipe: the instructions it was opened
   * with, the processed steps (none until the timer service answers), the
   * loading and error flags and the step cursor.
   */
  class Session {
    const instructions: seq<string>
    var processed: Option<seq<ProcessedInstruction>>
    var isLoading: bool
    var hasError: bool
    var currentStep: int

    ghost predicate Valid()
      reads this
    {
      && 0 <= currentStep
      && (processed.None? ==> currentStep == 0)
      && (processed.Some? && processed.value != [] ==> currentStep < |processed.value|)
      && (processed.Some? && processed.value == [] ==> currentStep == 0)
      && (isLoading <==> processed.None?)
    }

    constructor (instructions: seq<string>)
      ensures Valid()
      ensures this.instructions == instructions && processed.None? && isLoading && !hasError && currentStep == 0
    {
      this.instructions := instructions;
      processed := None;
      isLoading := true;
      hasError := false;
      currentStep := 0;
    }

    /**
     * The service's answer arrives: its steps, or, when it failed (`None`),
     * the fallback steps and the error notice. Loading ends either way.
     */
    method FinishLoading(result: Option<seq<ProcessedInstruction>>)
      requires Valid() && isLoading
      modifies this
      ensures Valid()
      ensures processed == Some(if result.Some? then result.value else Fallback(instructions))
      ensures hasError == (old(hasError) || result.None?) && !isLoading && currentStep == old(currentStep)
    {
      if result.Some? {
        processed := Some(result.value);
      } else {
        hasError := true;
        processed := Some(Fallback(instructions));
      }
      isLoading := false;
    }

    method Next()
      requires Valid()
      modifies this
      ensures Valid()
      ensures currentStep == NextStep(old(currentStep), Length(processed))
      ensures processed == old(processed) && isLoading == old(isLoading) && hasError == old(hasError)
    {
      if processed.Some? && currentStep < |processed.value| - 1 {
        currentStep := currentStep + 1;
      }
    }

    method Prev()
      requires Valid()
      modifies this
      ensures Valid()
      ensures currentStep == PrevStep(old(currentStep))
      ensures processed == old(processed) && isLoading == old(isLoading) && hasError == old(hasError)
    {
      if currentStep > 0 {
        currentStep := currentStep - 1;
      }
    }

    /** `processedInstructions?.[currentStep]`: defined whenever some steps are loaded. */
    function CurrentInstruction(): (r: Option<ProcessedInstruction>)
      reads this
      ensures Valid() && processed.Some? && processed.value != [] ==> r.Some?
      ensures r.Some? ==> processed.Some? && r.value in processed.value
    {
      if processed.Some? && 0 <= currentStep < |processed.value| then Some(processed.value[currentStep]) else None
    }
  }
}
