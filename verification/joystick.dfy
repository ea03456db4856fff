/**
 * The joystick bridge: translation of Linux joystick events (struct js_event)
 * into bit fields of the shared parameter-register word array `parmreg`,
 * which the emulated machine polls.
 *
 * Layout, relative to word 4 of `parmreg` (relative bit o lives in word
 * 4 + o / 32 at bit o % 32), for a slot whose bit offset is `nb`:
 *   - button flag, 1 bit at 122 + nb, inverted (0 = pressed, 1 = released);
 *   - X direction, 2 bits at 120 + nb;
 *   - Y direction, 2 bits at 118 + nb;
 * with direction codes 2 = negative, 1 = positive, 3 = centred.
 */
module Joystick {

  /** Width of one register word. */
  const WORD_BITS: nat := 32

  /**
   * One 32-bit word of the parameter register block, as its bits: element
   * i is the bit of weight 2^i.
   */
  type Word = w: seq<bool> | |w| == WORD_BITS witness seq(WORD_BITS, i => false)

  /** A C `short` / `__s16`. */
  newtype int16 = x: int | -0x8000 <= x < 0x8000

  /** A C `__u8`. */
  type u8 = x: int | 0 <= x < 0x100

  /** Event types of the Linux joystick API (linux/joystick.h). */
  const JS_EVENT_BUTTON: u8 := 0x01
  const JS_EVENT_AXIS: u8 := 0x02
  const JS_EVENT_INIT: u8 := 0x80

  /** Index of the first parameter word that holds joystick state. */
  const JOY_BASE_WORD: nat := 4
  /** Relative bit offsets of the three fields, before the slot offset is added. */
  const BUTTON_BIT: nat := 122
  const X_BIT: nat := 120
  const Y_BIT: nat := 118

  /** Direction codes. */
  const DIR_NEGATIVE: nat := 2
  const DIR_POSITIVE: nat := 1
  const DIR_CENTRED: nat := 3

  /** struct js_event without its timestamp, which the bridge never reads. */
  datatype Event = Event(value: int16, kind: u8, number: u8)

  /** struct axis_state: the last value seen on each coordinate of one axis. */
  datatype AxisState = AxisState(x: int16, y: int16)

  /** Number of cached axes (`struct axis_state axes[3]`). */
  const AXIS_COUNT: nat := 3

  // ---------------------------------------------------------------------------
  // Bitwise operators on a word
  // ---------------------------------------------------------------------------

  /** The integer constants 0..3 that thread_joystick shifts, as words. */
  function Const(n: nat): Word
    requires n < 4
  {
    seq(WORD_BITS, i => (i == 0 && n % 2 == 1) || (i == 1 && n >= 2))
  }

  /** `a & b` */
  function And(a: Word, b: Word): Word
  {
    seq(WORD_BITS, i requires 0 <= i < WORD_BITS => a[i] && b[i])
  }

  /** `a | b` */
  function Or(a: Word, b: Word): Word
  {
    seq(WORD_BITS, i requires 0 <= i < WORD_BITS => a[i] || b[i])
  }

  /** `~a` */
  function Not(a: Word): Word
  {
    seq(WORD_BITS, i requires 0 <= i < WORD_BITS => !a[i])
  }

  /** `a << k`; bits moved past the top are dropped. */
  function Shl(a: Word, k: nat): Word
  {
    seq(WORD_BITS, i requires 0 <= i < WORD_BITS => i >= k && a[i - k])
  }

  /** The unsigned value of the `width` bits of `w` from bit `s` upwards. */
  function Field(w: Word, s: nat, width: nat): nat
    requires s + width <= WORD_BITS
    decreases width
  {
    if width == 0 then 0 else (if w[s] then 1 else 0) + 2 * Field(w, s + 1, width - 1)
  }

  /** Reading back the bits of a constant gives the constant. */
  lemma ConstValue(n: nat)
    requires n < 4
    ensures Field(Const(n), 0, 2) == n
    ensures n < 2 ==> Field(Const(n), 0, 1) == n
  {
    assert Field(Const(n), 2, 0) == 0;
  }

  /**
   * The read-mask-or each store of thread_joystick performs on a word:
   * `(w & ~(mask << s)) | v << s`.
   */
  function Deposit(w: Word, s: nat, mask: nat, v: nat): (r: Word)
    requires FitsMask(mask, v)
    ensures forall i :: 0 <= i < WORD_BITS && !(s <= i < s + MaskWidth(mask)) ==> r[i] == w[i]
  {
    Or(And(w, Not(Shl(Const(mask), s))), Shl(Const(v), s))
  }

  /** Width of the field a mask of thread_joystick covers (1 -> 1 bit, 3 -> 2 bits). */
  function MaskWidth(mask: nat): nat
  {
    if mask == 1 then 1 else 2
  }

  /** The field masks of thread_joystick (1 and 3), and values that fit them. */
  predicate FitsMask(mask: nat, v: nat)
  {
    (mask == 1 && v < 2) || (mask == 3 && v < 4)
  }

  /**
   * Deposit replaces bits s .. s + width - 1 by the bits of v and keeps every
   * other bit.
   */
  lemma DepositBit(w: Word, s: nat, mask: nat, v: nat, i: nat)
    requires FitsMask(mask, v) && i < WORD_BITS
    ensures Deposit(w, s, mask, v)[i] ==
      if s <= i < s + MaskWidth(mask) then Const(v)[i - s] else w[i]
  {
  }

  /** After a deposit, the field holds the deposited value. */
  lemma DepositField(w: Word, s: nat, mask: nat, v: nat)
    requires FitsMask(mask, v) && s + MaskWidth(mask) <= WORD_BITS
    ensures Field(Deposit(w, s, mask, v), s, MaskWidth(mask)) == v
  {
    var d := Deposit(w, s, mask, v);
    DepositBit(w, s, mask, v, s);
    ConstValue(v);
    if mask == 3 {
      DepositBit(w, s, mask, v, s + 1);
      assert Field(d, s + 2, 0) == 0;
    } else {
      assert Field(d, s + 1, 0) == 0;
    }
  }

  /** Two deposits into non-overlapping bit ranges can be made in either order. */
  lemma DepositCommutes(w: Word, s1: nat, m1: nat, v1: nat, s2: nat, m2: nat, v2: nat)
    requires FitsMask(m1, v1) && FitsMask(m2, v2)
    requires s1 + MaskWidth(m1) <= s2 || s2 + MaskWidth(m2) <= s1
    ensures Deposit(Deposit(w, s1, m1, v1), s2, m2, v2) == Deposit(Deposit(w, s2, m2, v2), s1, m1, v1)
  {
    var a := Deposit(Deposit(w, s1, m1, v1), s2, m2, v2);
    var b := Deposit(Deposit(w, s2, m2, v2), s1, m1, v1);
    forall i | 0 <= i < WORD_BITS
      ensures a[i] == b[i]
    {
      DepositBit(w, s1, m1, v1, i);
      DepositBit(w, s2, m2, v2, i);
      DepositBit(Deposit(w, s1, m1, v1), s2, m2, v2, i);
      DepositBit(Deposit(w, s2, m2, v2), s1, m1, v1, i);
    }
  }

  /** A second identical deposit changes nothing. */
  lemma DepositIdempotent(w: Word, s: nat, mask: nat, v: nat)
    requires FitsMask(mask, v)
    ensures Deposit(Deposit(w, s, mask, v), s, mask, v) == Deposit(w, s, mask, v)
  {
    var d := Deposit(w, s, mask, v);
    forall i | 0 <= i < WORD_BITS
      ensures Deposit(d, s, mask, v)[i] == d[i]
    {
      DepositBit(w, s, mask, v, i);
      DepositBit(d, s, mask, v, i);
    }
  }

  // ---------------------------------------------------------------------------
  // The register file
  // ---------------------------------------------------------------------------

  /** Word of `parmreg` that holds relative bit `o`. */
  function WordOf(o: nat): nat
  {
    JOY_BASE_WORD + o / WORD_BITS
  }

  /** Position of relative bit `o` inside its word. */
  function BitOf(o: nat): nat
  {
    o % WORD_BITS
  }

  /** The field of width MaskWidth(mask) at relative bit `o`. */
  function RegField(regs: seq<Word>, o: nat, mask: nat): nat
    requires WordOf(o) < |regs| && BitOf(o) + MaskWidth(mask) <= WORD_BITS
  {
    Field(regs[WordOf(o)], BitOf(o), MaskWidth(mask))
  }

  /** The read-modify-write of one field at relative bit `o`. */
  function WriteField(regs: seq<Word>, o: nat, mask: nat, v: nat): (r: seq<Word>)
    requires WordOf(o) < |regs| && FitsMask(mask, v)
    ensures |r| == |regs|
    ensures forall i :: 0 <= i < |regs| && i != WordOf(o) ==> r[i] == regs[i]
  {
    regs[WordOf(o) := Deposit(regs[WordOf(o)], BitOf(o), mask, v)]
  }

  /**
   * The slot offsets `nb` thread_joystick can use without undefined behaviour:
   * no shifted constant of a write reaches the sign bit of a C `int`
   * (`1 << 31`, `2 << 30` and `3 << 30` are undefined), and the button word
   * exists in a register file of `words` words.
   */
  predicate ValidSlot(nb: nat, words: nat)
  {
    && BitOf(BUTTON_BIT + nb) <= 30
    && BitOf(X_BIT + nb) <= 29
    && BitOf(Y_BIT + nb) <= 29
    && WordOf(BUTTON_BIT + nb) < words
  }

  /**
   * For every valid slot offset the three fields lie in one word, at bits
   * s..s+1 (Y), s+2..s+3 (X) and s+4 (button).
   */
  lemma SlotLayout(nb: nat, words: nat)
    requires ValidSlot(nb, words)
    ensures WordOf(Y_BIT + nb) == WordOf(X_BIT + nb) == WordOf(BUTTON_BIT + nb) < words
    ensures BitOf(Y_BIT + nb) <= 26
    ensures BitOf(X_BIT + nb) == BitOf(Y_BIT + nb) + 2
    ensures BitOf(BUTTON_BIT + nb) == BitOf(Y_BIT + nb) + 4
  {
  }

  /** The code thread_joystick writes for an axis coordinate of value `v`. */
  function DirectionCode(v: int16): nat
  {
    if v < 0 then DIR_NEGATIVE else if v > 0 then DIR_POSITIVE else DIR_CENTRED
  }

  /** The sign a direction code stands for; the initial code 0 stands for none. */
  function CodeSign(c: nat): int
  {
    if c == DIR_NEGATIVE then -1 else if c == DIR_POSITIVE then 1 else 0
  }

  function Sign(v: int16): int
  {
    if v < 0 then -1 else if v > 0 then 1 else 0
  }

  /**
   * The direction code fits two bits, is never the initial 0, and gives back
   * the sign of the coordinate: equal codes exactly for equal signs.
   */
  lemma DirectionCodeEncodesSign(v: int16, w: int16)
    ensures 1 <= DirectionCode(v) <= 3
    ensures CodeSign(DirectionCode(v)) == Sign(v)
    ensures DirectionCode(v) == DirectionCode(w) <==> Sign(v) == Sign(w)
  {
  }

  // ---------------------------------------------------------------------------
  // One event, as a function of the state
  // ---------------------------------------------------------------------------

  /** The joystick state one event touches: the axis cache and the registers. */
  datatype JoyState = JoyState(axes: seq<AxisState>, regs: seq<Word>)

  /** The effect of get_axis_state on the axis cache. */
  function CacheAxis(axes: seq<AxisState>, e: Event): (r: seq<AxisState>)
    requires |axes| == AXIS_COUNT
    ensures |r| == AXIS_COUNT
    ensures forall a :: 0 <= a < AXIS_COUNT && a != e.number / 2 ==> r[a] == axes[a]
  {
    var axis := e.number / 2;
    if axis < AXIS_COUNT then
      if e.number % 2 == 0 then axes[axis := axes[axis].(x := e.value)]
      else axes[axis := axes[axis].(y := e.value)]
    else axes
  }

  /** The button flag the JS_EVENT_BUTTON case stores: `!event.value`. */
  function ButtonFlag(value: int16): nat
  {
    if value == 0 then 1 else 0
  }

  /** Both direction fields rewritten from the cached axis `a`, X first. */
  function WriteDirections(regs: seq<Word>, a: AxisState, nb: nat): seq<Word>
    requires ValidSlot(nb, |regs|)
  {
    var r := WriteField(regs, X_BIT + nb, 3, DirectionCode(a.x));
    WriteField(r, Y_BIT + nb, 3, DirectionCode(a.y))
  }

  /** One pass of the event loop of thread_joystick on the event `e`. */
  function Step(st: JoyState, e: Event, nb: nat): (r: JoyState)
    requires |st.axes| == AXIS_COUNT && ValidSlot(nb, |st.regs|)
    ensures |r.axes| == AXIS_COUNT && |r.regs| == |st.regs|
    ensures forall i :: 0 <= i < |st.regs| && i != WordOf(BUTTON_BIT + nb) ==> r.regs[i] == st.regs[i]
  {
    if e.kind == JS_EVENT_BUTTON then
      st.(regs := WriteField(st.regs, BUTTON_BIT + nb, 1, ButtonFlag(e.value)))
    else if e.kind == JS_EVENT_AXIS then
      var axes := CacheAxis(st.axes, e);
      var axis := e.number / 2;
      if axis < AXIS_COUNT then JoyState(axes, WriteDirections(st.regs, axes[axis], nb))
      else st.(axes := axes)
    else
      st
  }

  // ---------------------------------------------------------------------------
  // Properties of one event
  // ---------------------------------------------------------------------------

  /**
   * get_axis_state sets the x (even number) or y (odd number) coordinate of
   * axis number / 2 when that axis exists, and nothing else.
   */
  lemma CacheAxisUpdatesOneCoordinate(axes: seq<AxisState>, e: Event)
    requires |axes| == AXIS_COUNT
    ensures |CacheAxis(axes, e)| == AXIS_COUNT
    ensures e.number / 2 >= AXIS_COUNT ==> CacheAxis(axes, e) == axes
    ensures e.number / 2 < AXIS_COUNT ==>
      var a := e.number / 2;
      var r := CacheAxis(axes, e);
      && (e.number % 2 == 0 ==> r[a].x == e.value && r[a].y == axes[a].y)
      && (e.number % 2 == 1 ==> r[a].y == e.value && r[a].x == axes[a].x)
      && forall j :: 0 <= j < AXIS_COUNT && j != a ==> r[j] == axes[j]
  {
  }

  /**
   * A button event stores the negated value in the one shared button bit,
   * whatever the button number, and leaves the axis cache and every other
   * bit of every word as they were.
   */
  lemma ButtonEventSetsOnlyItsBit(st: JoyState, e: Event, nb: nat)
    requires |st.axes| == AXIS_COUNT && ValidSlot(nb, |st.regs|)
    requires e.kind == JS_EVENT_BUTTON
    ensures Step(st, e, nb).axes == st.axes
    ensures |Step(st, e, nb).regs| == |st.regs|
    ensures Step(st, e, nb).regs[WordOf(BUTTON_BIT + nb)][BitOf(BUTTON_BIT + nb)] <==> e.value == 0
    ensures forall i, k {:trigger Step(st, e, nb).regs[i][k]} ::
      0 <= i < |st.regs| && 0 <= k < WORD_BITS && (i != WordOf(BUTTON_BIT + nb) || k != BitOf(BUTTON_BIT + nb)) ==>
        Step(st, e, nb).regs[i][k] == st.regs[i][k]
  {
    var o := BUTTON_BIT + nb;
    var w, s := WordOf(o), BitOf(o);
    var r := Step(st, e, nb).regs;
    DepositBit(st.regs[w], s, 1, ButtonFlag(e.value), s);
    forall i, k | 0 <= i < |st.regs| && 0 <= k < WORD_BITS && (i != w || k != s)
      ensures r[i][k] == st.regs[i][k]
    {
      if i == w {
        DepositBit(st.regs[w], s, 1, ButtonFlag(e.value), k);
      }
    }
  }

  /**
   * A 2-bit write at relative bit `o` stores its value there and preserves
   * every bit outside o..o+1 of every word.
   */
  lemma WriteFieldPreservesOtherBits(regs: seq<Word>, o: nat, v: nat)
    requires WordOf(o) < |regs| && BitOf(o) <= 29 && v < 4
    ensures RegField(WriteField(regs, o, 3, v), o, 3) == v
    ensures forall i, k {:trigger WriteField(regs, o, 3, v)[i][k]} ::
      0 <= i < |regs| && 0 <= k < WORD_BITS && (i != WordOf(o) || (k != BitOf(o) && k != BitOf(o) + 1)) ==>
        WriteField(regs, o, 3, v)[i][k] == regs[i][k]
  {
    var w, s := WordOf(o), BitOf(o);
    var r := WriteField(regs, o, 3, v);
    DepositField(regs[w], s, 3, v);
    forall i, k | 0 <= i < |regs| && 0 <= k < WORD_BITS && (i != w || (k != s && k != s + 1))
      ensures r[i][k] == regs[i][k]
    {
      if i == w {
        DepositBit(regs[w], s, 3, v, k);
      }
    }
  }

  /**
   * An axis event on an existing axis caches the value, then rewrites both
   * direction fields from the cached x and y of that axis (not only the
   * coordinate that moved); the button bit and every other word are kept.
   */
  lemma AxisEventWritesBothDirections(st: JoyState, e: Event, nb: nat)
    requires |st.axes| == AXIS_COUNT && ValidSlot(nb, |st.regs|)
    requires e.kind == JS_EVENT_AXIS && e.number / 2 < AXIS_COUNT
    ensures Step(st, e, nb).axes == CacheAxis(st.axes, e)
    ensures |Step(st, e, nb).regs| == |st.regs|
    ensures RegField(Step(st, e, nb).regs, X_BIT + nb, 3) == DirectionCode(CacheAxis(st.axes, e)[e.number / 2].x)
    ensures RegField(Step(st, e, nb).regs, Y_BIT + nb, 3) == DirectionCode(CacheAxis(st.axes, e)[e.number / 2].y)
    ensures RegField(Step(st, e, nb).regs, BUTTON_BIT + nb, 1) == RegField(st.regs, BUTTON_BIT + nb, 1)
    ensures forall i :: 0 <= i < |st.regs| && i != WordOf(X_BIT + nb) ==> Step(st, e, nb).regs[i] == st.regs[i]
    ensures forall k {:trigger st.regs[WordOf(Y_BIT + nb)][k]} :: 0 <= k < WORD_BITS && !(BitOf(Y_BIT + nb) <= k < BitOf(Y_BIT + nb) + 4) ==>
      Step(st, e, nb).regs[WordOf(Y_BIT + nb)][k] == st.regs[WordOf(Y_BIT + nb)][k]
  {
    SlotLayout(nb, |st.regs|);
    var a := CacheAxis(st.axes, e)[e.number / 2];
    var w, s := WordOf(Y_BIT + nb), BitOf(Y_BIT + nb);
    var cx, cy := DirectionCode(a.x), DirectionCode(a.y);
    var w0 := st.regs[w];
    var w1 := Deposit(w0, s + 2, 3, cx);
    var w2 := Deposit(w1, s, 3, cy);
    assert Step(st, e, nb).regs == st.regs[w := w2];
    DepositField(w0, s + 2, 3, cx);
    DepositField(w1, s, 3, cy);
    DepositBit(w1, s, 3, cy, s + 2);
    DepositBit(w1, s, 3, cy, s + 3);
    assert Field(w2, s + 4, 0) == 0 && Field(w1, s + 4, 0) == 0 && Field(w0, s + 4, 0) == 0;
    assert Field(w2, s + 2, 2) == Field(w1, s + 2, 2);
    DepositBit(w1, s, 3, cy, s + 4);
    DepositBit(w0, s + 2, 3, cx, s + 4);
    forall k | 0 <= k < WORD_BITS && !(s <= k < s + 4)
      ensures w2[k] == w0[k]
    {
      DepositBit(w0, s + 2, 3, cx, k);
      DepositBit(w1, s, 3, cy, k);
    }
  }

  /** Event types other than button and axis change nothing. */
  lemma OtherEventsChangeNothing(st: JoyState, e: Event, nb: nat)
    requires |st.axes| == AXIS_COUNT && ValidSlot(nb, |st.regs|)
    requires e.kind != JS_EVENT_BUTTON && e.kind != JS_EVENT_AXIS
    ensures Step(st, e, nb) == st
  {
  }

  /** Init events carry JS_EVENT_INIT on top of their type, so they are ignored too. */
  lemma InitEventsAreIgnored(st: JoyState, e: Event, nb: nat)
    requires |st.axes| == AXIS_COUNT && ValidSlot(nb, |st.regs|)
    requires e.kind == JS_EVENT_INIT + JS_EVENT_BUTTON || e.kind == JS_EVENT_INIT + JS_EVENT_AXIS
    ensures Step(st, e, nb) == st
  {
    OtherEventsChangeNothing(st, e, nb);
  }

  /** An axis event numbered 6 or more touches neither the cache nor the registers. */
  lemma UnknownAxisChangesNothing(st: JoyState, e: Event, nb: nat)
    requires |st.axes| == AXIS_COUNT && ValidSlot(nb, |st.regs|)
    requires e.kind == JS_EVENT_AXIS && e.number / 2 >= AXIS_COUNT
    ensures Step(st, e, nb) == st
  {
  }

  /**
   * The three fields of a slot are disjoint, so the writes to them commute:
   * the order in which thread_joystick issues them does not matter.
   */
  lemma FieldWritesCommute(regs: seq<Word>, nb: nat, vb: nat, vx: nat, vy: nat)
    requires ValidSlot(nb, |regs|) && vb < 2 && vx < 4 && vy < 4
    ensures WriteField(WriteField(regs, X_BIT + nb, 3, vx), Y_BIT + nb, 3, vy)
         == WriteField(WriteField(regs, Y_BIT + nb, 3, vy), X_BIT + nb, 3, vx)
    ensures WriteField(WriteField(regs, BUTTON_BIT + nb, 1, vb), Y_BIT + nb, 3, vy)
         == WriteField(WriteField(regs, Y_BIT + nb, 3, vy), BUTTON_BIT + nb, 1, vb)
    ensures WriteField(WriteField(regs, BUTTON_BIT + nb, 1, vb), X_BIT + nb, 3, vx)
         == WriteField(WriteField(regs, X_BIT + nb, 3, vx), BUTTON_BIT + nb, 1, vb)
  {
    SlotLayout(nb, |regs|);
    var w, s := WordOf(Y_BIT + nb), BitOf(Y_BIT + nb);
    DepositCommutes(regs[w], s + 2, 3, vx, s, 3, vy);
    DepositCommutes(regs[w], s + 4, 1, vb, s, 3, vy);
    DepositCommutes(regs[w], s + 4, 1, vb, s + 2, 3, vx);
  }

  /** Writing the same value to the same field twice is writing it once. */
  lemma WriteFieldIdempotent(regs: seq<Word>, o: nat, mask: nat, v: nat)
    requires WordOf(o) < |regs| && FitsMask(mask, v)
    ensures WriteField(WriteField(regs, o, mask, v), o, mask, v) == WriteField(regs, o, mask, v)
  {
    DepositIdempotent(regs[WordOf(o)], BitOf(o), mask, v);
  }

  /**
   * Applying an event twice gives the state of applying it once. The event
   * loop ignores a failed read and re-applies the previous event, so this
   * is what makes that harmless.
   */
  lemma StepIdempotent(st: JoyState, e: Event, nb: nat)
    requires |st.axes| == AXIS_COUNT && ValidSlot(nb, |st.regs|)
    ensures |Step(st, e, nb).axes| == AXIS_COUNT && |Step(st, e, nb).regs| == |st.regs|
    ensures Step(Step(st, e, nb), e, nb) == Step(st, e, nb)
  {
    if e.kind == JS_EVENT_BUTTON {
      WriteFieldIdempotent(st.regs, BUTTON_BIT + nb, 1, ButtonFlag(e.value));
    } else if e.kind == JS_EVENT_AXIS {
      var axes := CacheAxis(st.axes, e);
      assert CacheAxis(axes, e) == axes;
      var axis := e.number / 2;
      if axis < AXIS_COUNT {
        var cx, cy := DirectionCode(axes[axis].x), DirectionCode(axes[axis].y);
        var r0 := WriteField(st.regs, X_BIT + nb, 3, cx);
        var r1 := WriteField(r0, Y_BIT + nb, 3, cy);
        FieldWritesCommute(r0, nb, 0, cx, cy);
        WriteFieldIdempotent(st.regs, X_BIT + nb, 3, cx);
        assert WriteField(r1, X_BIT + nb, 3, cx) == r1;
        WriteFieldIdempotent(r0, Y_BIT + nb, 3, cy);
      }
    }
  }

  /**
   * For the one slot thread_joystick drives (nb = 5 * 0), the three fields are
   * in word 7 at bits 22-23 (Y), 24-25 (X) and 26 (button).
   */
  lemma SlotZeroLayout()
    ensures ValidSlot(0, 8)
    ensures WordOf(Y_BIT) == WordOf(X_BIT) == WordOf(BUTTON_BIT) == 7
    ensures BitOf(Y_BIT) == 22 && BitOf(X_BIT) == 24 && BitOf(BUTTON_BIT) == 26
  {
  }

  // ---------------------------------------------------------------------------
  // The imperative code
  // ---------------------------------------------------------------------------

  /**
   * get_axis_state: cache the event's value in `axes` and return the axis
   * number.
   */
  method GetAxisState(e: Event, axes: array<AxisState>) returns (axis: nat)
    requires axes.Length == AXIS_COUNT
    modifies axes
    ensures axis == e.number / 2
    ensures axes[..] == CacheAxis(old(axes[..]), e)
  {
    axis := e.number / 2;
    if axis < AXIS_COUNT {
      if e.number % 2 == 0 {
        axes[axis] := axes[axis].(x := e.value);
      } else {
        axes[axis] := axes[axis].(y := e.value);
      }
    }
  }

  /** One load-mask-or-store into `parmreg` at relative bit `o`, as each case of the switch does it. */
  method StoreField(parmreg: array<Word>, o: nat, mask: nat, v: nat)
    requires WordOf(o) < parmreg.Length && FitsMask(mask, v)
    modifies parmreg
    ensures parmreg[..] == WriteField(old(parmreg[..]), o, mask, v)
  {
    var i := JOY_BASE_WORD + o / 32;
    parmreg[i] := Or(And(parmreg[i], Not(Shl(Const(mask), o % 32))), Shl(Const(v), o % 32));
  }

  /**
   * The six conditional stores of the axis case of thread_joystick, in its
   * order, for the cached axis `a`: they leave both direction fields
   * rewritten as `WriteDirections` describes.
   */
  method StoreDirections(parmreg: array<Word>, a: AxisState, nb: nat)
    requires ValidSlot(nb, parmreg.Length)
    modifies parmreg
    ensures parmreg[..] == WriteDirections(old(parmreg[..]), a, nb)
  {
    ghost var r0 := parmreg[..];
    if a.x < 0 {
      StoreField(parmreg, X_BIT + nb, 3, 2);
    }
    if a.x > 0 {
      StoreField(parmreg, X_BIT + nb, 3, 1);
    }
    if a.y < 0 {
      StoreField(parmreg, Y_BIT + nb, 3, 2);
    }
    if a.y > 0 {
      StoreField(parmreg, Y_BIT + nb, 3, 1);
    }
    if a.x == 0 {
      StoreField(parmreg, X_BIT + nb, 3, 3);
    }
    if a.y == 0 {
      StoreField(parmreg, Y_BIT + nb, 3, 3);
    }
    if a.x == 0 && a.y != 0 {
      // the Y field was stored before the X field: swap the two stores
      FieldWritesCommute(r0, nb, 0, DirectionCode(a.x), DirectionCode(a.y));
    }
  }

  /**
   * The body of the event loop of thread_joystick for one event `e`, with
   * the slot's bit offset `nb` (5 * 0 in thread_joystick).
   */
  method HandleEvent(e: Event, axes: array<AxisState>, parmreg: array<Word>, nb: nat)
    requires axes.Length == AXIS_COUNT && ValidSlot(nb, parmreg.Length)
    modifies axes, parmreg
    ensures JoyState(axes[..], parmreg[..]) == Step(JoyState(old(axes[..]), old(parmreg[..])), e, nb)
  {
    if e.kind == JS_EVENT_BUTTON {
      StoreField(parmreg, BUTTON_BIT + nb, 1, if e.value == 0 then 1 else 0);
    } else if e.kind == JS_EVENT_AXIS {
      var axis := GetAxisState(e, axes);
      if axis < AXIS_COUNT {
        StoreDirections(parmreg, axes[axis], nb);
      }
    }
  }
}
