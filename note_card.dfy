/**
 * A note's card inside its calendar box: its own top and height, the
 * "Xh Ym" duration label, and the details / delete dialogs.
 */
module NoteCard {
  import opened Wrappers
  import opened JsValue
  import opened NoteTypes

  /** The card's style: top is always 0 px; height is the clock-time distance at 100 px per hour. */
  datatype Position = Position(top: real, height: real)

  /** Hours plus a fraction for the minutes, times 100: the percentage getNotePosition computes. */
  function ClockPercent(m: Moment): real {
    ((m.hour as real) + (m.minute as real) / 60.0) * 100.0
  }

  /**
   * getNotePosition.  Only the clock times are used, so the height is
   * negative exactly when the end's clock time comes before the start's
   * (a note that crosses midnight), and zero when they are equal.
   */
  function NotePosition(n: Note): (p: Position)
    requires n.Valid()
    ensures p.top == 0.0
    ensures p.height == 100.0 * ((n.end.hour - n.start.hour) as real)
                      + (100.0 / 60.0) * ((n.end.minute - n.start.minute) as real)
    ensures p.height < 0.0 <==> n.end.hour < n.start.hour || (n.end.hour == n.start.hour && n.end.minute < n.start.minute)
    ensures p.height == 0.0 <==> n.end.hour == n.start.hour && n.end.minute == n.start.minute
  {
    var p := Position(0.0, ClockPercent(n.end) - ClockPercent(n.start));
    ClockPercentOrder(n.start, n.end);
    ClockPercentOrder(n.end, n.start);
    p
  }

  lemma ClockPercentOrder(a: Moment, b: Moment)
    requires a.Valid() && b.Valid()
    ensures ClockPercent(a) < ClockPercent(b) <==> a.hour < b.hour || (a.hour == b.hour && a.minute < b.minute)
  {
    if a.hour < b.hour {
      assert (a.hour as real) + 1.0 <= b.hour as real;
    } else if b.hour < a.hour {
      assert (b.hour as real) + 1.0 <= a.hour as real;
    }
  }

  /** JavaScript's `%`: the remainder of the quotient truncated toward zero, with the dividend's sign. */
  function JsRem(a: int, b: int): (r: int)
    requires b > 0
    ensures a >= 0 ==> 0 <= r < b && r == a % b
    ensures a < 0 ==> -b < r <= 0
    ensures a == b * (if a >= 0 then a / b else -((-a) / b)) + r
  {
    if a >= 0 then a % b
    else
      var q := (-a) / b;
      assert -a == b * q + (-a) % b;
      -((-a) % b)
  }

  const HourMs := 1000 * 60 * 60
  const MinuteMs := 1000 * 60

  /** Math.floor(durationMs / 3600000); Dafny's division by a positive divisor is the floor. */
  function Hours(durationMs: int): int {
    durationMs / HourMs
  }

  /** Math.floor((durationMs % 3600000) / 60000), with the truncating `%`. */
  function Minutes(durationMs: int): int {
    JsRem(durationMs, HourMs) / MinuteMs
  }

  /** For a non-negative duration the split is exact: whole hours and 0..59 leftover minutes. */
  lemma DurationSplit(durationMs: int)
    requires durationMs >= 0
    ensures 0 <= Minutes(durationMs) <= 59
    ensures Hours(durationMs) * 60 + Minutes(durationMs) == durationMs / MinuteMs
  {
    var h := durationMs / HourMs;
    var rest := durationMs % HourMs;
    assert durationMs == h * HourMs + rest;
    assert rest / MinuteMs <= 59;
    assert durationMs == (h * 60 + rest / MinuteMs) * MinuteMs + rest % MinuteMs;
  }

  /**
   * A negative duration (an end before its start, which no schema forbids)
   * floors the hours but truncates the remainder, so both parts come out
   * negative.  For a whole number of hours the label is right (0 minutes);
   * otherwise the minutes lie in -60..-1 and the label reads 60 minutes
   * more negative than the duration: hours*60 + minutes is one hour below
   * the floor of the duration in minutes.
   */
  lemma NegativeDurationSplitAll(durationMs: int)
    requires durationMs < 0
    ensures Hours(durationMs) < 0
    ensures durationMs % HourMs == 0 ==> Minutes(durationMs) == 0 && Hours(durationMs) * 60 == durationMs / MinuteMs
    ensures durationMs % HourMs != 0 ==> -60 <= Minutes(durationMs) <= -1
    ensures durationMs % HourMs != 0 ==> Hours(durationMs) * 60 + Minutes(durationMs) == durationMs / MinuteMs - 60
  {
    var a := -durationMs;
    var q := a / HourMs;
    var r := a % HourMs;
    assert a == q * HourMs + r;
    if r == 0 {
      assert durationMs == (-q) * HourMs;
      assert durationMs == (-q * 60) * MinuteMs;
    } else {
      PartialHourSplit(durationMs, q, r);
    }
  }

  lemma PartialHourSplit(durationMs: int, q: int, r: int)
    requires q >= 0 && 0 < r < HourMs && -durationMs == q * HourMs + r
    ensures Hours(durationMs) == -q - 1 && JsRem(durationMs, HourMs) == -r
    ensures -60 <= Minutes(durationMs) <= -1
    ensures Hours(durationMs) * 60 + Minutes(durationMs) == durationMs / MinuteMs - 60
  {
    assert durationMs == (-q - 1) * HourMs + (HourMs - r);
    assert (-durationMs) / HourMs == q && (-durationMs) % HourMs == r;
    var m := (-r) / MinuteMs;
    assert -r == m * MinuteMs + (-r) % MinuteMs;
    assert durationMs == (-q * 60 + m) * MinuteMs + (-r) % MinuteMs;
  }

  /** A negative duration (end before start) splits into negative parts: one minute short gives -1 and -1. */
  lemma NegativeDurationSplit()
    ensures Hours(-60000) == -1 && Minutes(-60000) == -1
    ensures DurationText(-60000) == "-1h -1m"
  {
    assert NatDigits(1) == "1";
  }

  function Digit(d: nat): char
    requires d < 10
  {
    "0123456789"[d]
  }

  /** The decimal numeral of n, as template literals print it. */
  function NatDigits(n: nat): (s: string)
    ensures |s| > 0 && forall i :: 0 <= i < |s| ==> '0' <= s[i] <= '9'
    ensures |s| > 1 ==> s[0] != '0'
  {
    if n < 10 then [Digit(n)] else NatDigits(n / 10) + [Digit(n % 10)]
  }

  function IntDigits(i: int): string {
    if i < 0 then "-" + NatDigits(-i) else NatDigits(i)
  }

  /** Reading a numeral back: the partner of NatDigits. */
  function ParseDigits(s: string): nat
    requires forall i :: 0 <= i < |s| ==> '0' <= s[i] <= '9'
  {
    if s == [] then 0 else ParseDigits(s[..|s| - 1]) * 10 + (s[|s| - 1] - '0') as nat
  }

  lemma {:induction false} DigitsRoundTrip(n: nat)
    ensures ParseDigits(NatDigits(n)) == n
  {
    var s := NatDigits(n);
    if n >= 10 {
      assert s == NatDigits(n / 10) + [Digit(n % 10)];
      assert s[..|s| - 1] == NatDigits(n / 10);
      DigitReadsBack(n % 10);
      DigitsRoundTrip(n / 10);
    } else {
      DigitReadsBack(n);
    }
  }

  lemma DigitReadsBack(d: nat)
    requires d < 10
    ensures (Digit(d) - '0') as nat == d
  {
  }

  /** durationText: `${hours}h ${minutes}m`. */
  function DurationText(durationMs: int): (t: string)
    ensures durationMs >= 0 ==> t == NatDigits(Hours(durationMs)) + "h " + NatDigits(Minutes(durationMs)) + "m"
  {
    var text := IntDigits(Hours(durationMs)) + "h " + IntDigits(Minutes(durationMs)) + "m";
    if durationMs >= 0 then DurationSplit(durationMs); text else text
  }

  /**
   * The label of a negative duration: a negative hour count, then "0m" for
   * a whole number of hours and a negative minute count otherwise.
   */
  lemma NegativeDurationText(durationMs: int)
    requires durationMs < 0
    ensures durationMs % HourMs == 0 ==>
      DurationText(durationMs) == "-" + NatDigits(-Hours(durationMs)) + "h 0m"
    ensures durationMs % HourMs != 0 ==>
      DurationText(durationMs) == "-" + NatDigits(-Hours(durationMs)) + "h -" + NatDigits(-Minutes(durationMs)) + "m"
  {
    NegativeDurationSplitAll(durationMs);
    var h := NatDigits(-Hours(durationMs));
    assert IntDigits(Hours(durationMs)) == "-" + h;
    if durationMs % HourMs == 0 {
      assert IntDigits(Minutes(durationMs)) == "0";
    } else {
      assert IntDigits(Minutes(durationMs)) == "-" + NatDigits(-Minutes(durationMs));
    }
  }

  /** The duration of a note as its card reports it, from the two time values. */
  function NoteDuration(n: Note): string {
    DurationText(n.end.ms - n.start.ms)
  }

  /**
   * The card's dialog flags and the callbacks it fires.  `onEdit` and
   * `onDelete` are props the parent may leave out; calling a missing one
   * throws a TypeError before the dialog's setter runs.
   */
  class Card {
    const note: Note
    const hasOnEdit: bool
    const hasOnDelete: bool
    var showDialog: bool
    var showDeleteDialog: bool

    constructor(note: Note, hasOnEdit: bool, hasOnDelete: bool)
      ensures this.note == note && this.hasOnEdit == hasOnEdit && this.hasOnDelete == hasOnDelete
      ensures !showDialog && !showDeleteDialog
    {
      this.note := note;
      this.hasOnEdit := hasOnEdit;
      this.hasOnDelete := hasOnDelete;
      showDialog := false;
      showDeleteDialog := false;
    }

    /** A click on the card opens the details dialog. */
    method Click()
      modifies this
      ensures showDialog && showDeleteDialog == old(showDeleteDialog)
    {
      showDialog := true;
    }

    /**
     * The pencil: onEdit gets the note and the details dialog closes.
     * Without onEdit the call throws and the dialog stays as it was.
     */
    method HandleEdit() returns (edited: Result<Note, JsError>)
      modifies this
      ensures hasOnEdit ==> edited == Ok(note) && !showDialog
      ensures !hasOnEdit ==> edited == Err(TypeError) && showDialog == old(showDialog)
      ensures showDeleteDialog == old(showDeleteDialog)
    {
      if !hasOnEdit {
        return Err(TypeError);
      }
      edited := Ok(note);
      showDialog := false;
    }

    /** The trash button: details close and the delete confirmation opens. */
    method Trash()
      modifies this
      ensures !showDialog && showDeleteDialog
    {
      showDialog := false;
      showDeleteDialog := true;
    }

    /**
     * Confirming the deletion: onDelete gets exactly the note's id, and the
     * confirmation closes.  Without onDelete the call throws and the
     * confirmation stays open.
     */
    method HandleDelete() returns (deletedId: Result<string, JsError>)
      modifies this
      ensures hasOnDelete ==> deletedId == Ok(note.id) && !showDeleteDialog
      ensures !hasOnDelete ==> deletedId == Err(TypeError) && showDeleteDialog == old(showDeleteDialog)
      ensures showDialog == old(showDialog)
    {
      if !hasOnDelete {
        return Err(TypeError);
      }
      deletedId := Ok(note.id);
      showDeleteDialog := false;
    }

    /** The dialogs' own open/close requests (Escape, Cancel, the overlay). */
    method SetShowDialog(open: bool)
      modifies this
      ensures showDialog == open && showDeleteDialog == old(showDeleteDialog)
    {
      showDialog := open;
    }

    method SetShowDeleteDialog(open: bool)
      modifies this
      ensures showDeleteDialog == open && showDialog == old(showDialog)
    {
      showDeleteDialog := open;
    }
  }
}
