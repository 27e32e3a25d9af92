/**
  The extraction time-window cursor: the generator `Extraction.__get_params`.
  Each resumption yields a window `{start, end}` with `end = start + interval`,
  both written as `%Y-%m-%d %H:%M:%S.%f`. The assignment `start := end` sits
  after the `yield`, so it runs only when the generator is resumed for the
  next window.
*/
module Windows {
  import opened Wrappers
  import opened DateTimes

  const InitialStart: string := "2023-04-01 00:00:57.860798"
  const IntervalHours: nat := 24

  datatype Window = Window(start: string, end: string)

  datatype CursorError =
    | Overflow   // `datetime + timedelta` left Python's year range; the generator dies
    | Exhausted  // `next` on a generator that already raised: `StopIteration`

  /** Both ends parse, and the end is the start moved forward by `hours`. */
  predicate Spans(w: Window, hours: nat) {
    && Parse(w.start).Some? && Parse(w.end).Some?
    && Parse(w.end).value == AddHours(Parse(w.start).value, hours)
  }

  /** Each window starts where the previous one ended. */
  predicate Chained(ws: seq<Window>) {
    forall k :: 0 < k < |ws| ==> ws[k - 1].end == ws[k].start
  }

  predicate AllSpan(ws: seq<Window>, hours: nat) {
    forall k :: 0 <= k < |ws| ==> Spans(ws[k], hours)
  }

  function StartOf(w: Window): DateTime
    requires Parse(w.start).Some?
  {
    Parse(w.start).value
  }

  /** The configured first start is a well-formed timestamp. */
  lemma FirstStart()
    ensures Parse(InitialStart) == Some(DateTime(2023, 4, 1, 0, 0, 57, 860798))
  {
    var s := InitialStart;
    assert Shaped(s);
    assert Fields(s) == DateTime(2023, 4, 1, 0, 0, 57, 860798);
  }

  /** The first window ends one calendar day after the configured start. */
  lemma FirstEnd()
    ensures AddHours(DateTime(2023, 4, 1, 0, 0, 57, 860798), IntervalHours)
            == DateTime(2023, 4, 2, 0, 0, 57, 860798)
  {
    var dt := DateTime(2023, 4, 1, 0, 0, 57, 860798);
    assert DaysInMonth(2023, 4) == 30;
    AddOneDay(dt);
  }

  /** The end of the first window is written in the same format as the start. */
  lemma FirstEndText()
    ensures Fmt(DateTime(2023, 4, 2, 0, 0, 57, 860798)) == "2023-04-02 00:00:57.860798"
  {
    var s := "2023-04-02 00:00:57.860798";
    assert Shaped(s);
    assert Fields(s) == DateTime(2023, 4, 2, 0, 0, 57, 860798);
    FmtFields(s);
  }

  lemma AppendWindow(ws: seq<Window>, w: Window, hours: nat)
    requires Chained(ws) && AllSpan(ws, hours) && Spans(w, hours)
    requires ws != [] ==> ws[|ws| - 1].end == w.start
    ensures Chained(ws + [w]) && AllSpan(ws + [w], hours)
  {
    var v := ws + [w];
    forall k | 0 <= k < |v| ensures Spans(v[k], hours) {
      if k < |ws| { assert v[k] == ws[k]; }
    }
    forall k | 0 < k < |v| ensures v[k - 1].end == v[k].start {
      if k < |ws| { assert v[k] == ws[k] && v[k - 1] == ws[k - 1]; }
    }
  }

  /** One step of a chain of spanning windows: exactly one interval later. */
  lemma StepLater(ws: seq<Window>, k: nat)
    requires Chained(ws) && AllSpan(ws, IntervalHours) && 0 < k < |ws|
    ensures Micros(StartOf(ws[k])) == Micros(StartOf(ws[k - 1])) + IntervalHours * MicrosPerHour
    ensures Before(StartOf(ws[k - 1]), StartOf(ws[k]))
  {
    assert Spans(ws[k - 1], IntervalHours);
    var prev := StartOf(ws[k - 1]);
    assert StartOf(ws[k]) == AddHours(prev, IntervalHours);
    AddHoursElapsed(prev, IntervalHours);
    AddHoursLater(prev, IntervalHours);
  }

  /** The k-th window of a chain starts exactly k intervals after the first. */
  lemma {:induction false} WindowsContiguous(ws: seq<Window>, k: nat)
    requires Chained(ws) && AllSpan(ws, IntervalHours) && k < |ws|
    ensures Micros(StartOf(ws[k])) == Micros(StartOf(ws[0])) + k * (IntervalHours * MicrosPerHour)
    decreases k
  {
    if k > 0 {
      WindowsContiguous(ws, k - 1);
      StepLater(ws, k);
      var d := IntervalHours * MicrosPerHour;
      assert (k - 1) * d + d == k * d;
    }
  }

  /** The cursor never rewinds: a later window starts strictly later, by whole intervals. */
  lemma WindowsIncrease(ws: seq<Window>, i: nat, j: nat)
    requires Chained(ws) && AllSpan(ws, IntervalHours) && i < j < |ws|
    ensures Micros(StartOf(ws[i])) < Micros(StartOf(ws[j]))
    ensures Micros(StartOf(ws[j])) - Micros(StartOf(ws[i])) == (j - i) * (IntervalHours * MicrosPerHour)
  {
    WindowsContiguous(ws, i);
    WindowsContiguous(ws, j);
  }

  /** The generator's state as a value: the attribute `self.start` and the frame. */
  datatype Cursor = Cursor(start: string, frame: Frame)

  /** The generator's own frame: not yet started, paused at `yield` with its local `end`
      pending, or closed after raising. */
  datatype Frame = Fresh | Paused(end: string) | Closed

  const InitialCursor := Cursor(InitialStart, Fresh)

  /** The `start` in force once a paused generator has run `self.start = end`. */
  function Resumed(c: Cursor): string {
    if c.frame.Paused? then c.frame.end else c.start
  }

  /** Once resumed, the generator starts where the last window it yielded ended, or at the
      configured start before the first. */
  lemma ResumedIsLastEnd(c: Cursor, ws: seq<Window>)
    requires CursorInv(c, ws)
    ensures Resumed(c) == if ws == [] then InitialStart else ws[|ws| - 1].end
  {
  }

  /** The generator can be resumed: it is closed, or its `start` parses. */
  predicate Ready(c: Cursor) {
    c.frame.Closed? || Parse(Resumed(c)).Some?
  }

  /** One `next()` on the generator, reading the interval afresh: the new state and what
      the call produces. */
  function Step(c: Cursor, hours: nat): (Cursor, Result<Window, CursorError>)
    requires Ready(c)
  {
    if c.frame.Closed? then (c, Failure(Exhausted))
    else
      var s := Resumed(c);
      var next := AddHours(Parse(s).value, hours);
      if next.year > MaxYear then (Cursor(s, Closed), Failure(Overflow))
      else (Cursor(s, Paused(Fmt(next))), Success(Window(s, Fmt(next))))
  }

  /** The windows handed out so far, after a step producing `r`. */
  function Record(ws: seq<Window>, r: Result<Window, CursorError>): seq<Window> {
    if r.Success? then ws + [r.value] else ws
  }

  /** What the generator keeps between calls, given the windows it has yielded. */
  ghost predicate CursorInv(c: Cursor, ws: seq<Window>) {
    && Parse(c.start).Some?
    && Chained(ws) && AllSpan(ws, IntervalHours)
    && (ws == [] ==> c.start == InitialStart && !c.frame.Paused?)
    && (ws != [] ==> ws[0].start == InitialStart)
    && (c.frame.Paused? ==> ws != [] && ws[|ws| - 1] == Window(c.start, c.frame.end))
    && (!c.frame.Paused? && ws != [] ==> ws[|ws| - 1].end == c.start)
  }

  lemma InitialInv()
    ensures CursorInv(InitialCursor, [])
  {
    FirstStart();
  }

  lemma InvReady(c: Cursor, ws: seq<Window>)
    requires CursorInv(c, ws)
    ensures Ready(c)
  {
    if c.frame.Paused? {
      assert Spans(ws[|ws| - 1], IntervalHours);
    }
  }

  /** A step yields `(start, start + hours)` for the resumed `start`, both as text that
      parses back, unless the end falls past year 9999; a closed generator stays closed. */
  lemma StepSpec(c: Cursor, hours: nat)
    requires Ready(c)
    ensures c.frame.Closed? ==> Step(c, hours) == (c, Failure(Exhausted))
    ensures !c.frame.Closed? ==>
      var s := Resumed(c);
      var r := Step(c, hours).1;
      && Step(c, hours).0.start == s
      && (r.Failure? <==> AddHours(Parse(s).value, hours).year > MaxYear)
      && (r.Failure? ==> r == Failure(Overflow) && Step(c, hours).0.frame == Closed)
      && (r.Success? ==>
            && r.value.start == s && Spans(r.value, hours)
            && Step(c, hours).0 == Cursor(s, Paused(r.value.end)))
  {
    if !c.frame.Closed? {
      var next := AddHours(Parse(Resumed(c)).value, hours);
      if next.year <= MaxYear {
        ParseFmt(next);
      }
    }
  }

  /** Every step keeps the invariant, and the yielded windows form a chain from the
      configured start. */
  lemma StepInv(c: Cursor, ws: seq<Window>)
    requires CursorInv(c, ws)
    ensures Ready(c) && CursorInv(Step(c, IntervalHours).0, Record(ws, Step(c, IntervalHours).1))
  {
    InvReady(c, ws);
    StepSpec(c, IntervalHours);
    var n := Step(c, IntervalHours);
    if !c.frame.Closed? {
      // the `start` in force once `self.start = end` has run
      var s := Resumed(c);
      assert Parse(s).Some? && (ws != [] ==> ws[|ws| - 1].end == s) by {
        if c.frame.Paused? { assert Spans(ws[|ws| - 1], IntervalHours); }
      }
      if n.1.Success? {
        AppendWindow(ws, n.1.value, IntervalHours);
        assert n.0 == Cursor(s, Paused(n.1.value.end));
        assert Record(ws, n.1) == ws + [n.1.value];
      } else {
        assert n.0 == Cursor(s, Closed) && Record(ws, n.1) == ws;
      }
    }
  }

  /** The invariant for the attribute and the frame a step leaves behind. */
  lemma StepKeeps(c: Cursor, ws: seq<Window>, start: string, frame: Frame, ws': seq<Window>)
    requires CursorInv(c, ws)
    requires Ready(c) && start == Step(c, IntervalHours).0.start && frame == Step(c, IntervalHours).0.frame
    requires ws' == Record(ws, Step(c, IntervalHours).1)
    ensures CursorInv(Cursor(start, frame), ws')
  {
    StepInv(c, ws);
    assert Cursor(start, frame) == Step(c, IntervalHours).0;
  }

  /** Successive successful calls hand the fetcher windows that meet end to start. */
  lemma StepsMeet(c: Cursor, ws: seq<Window>)
    requires CursorInv(c, ws)
    requires Ready(c) && Step(c, IntervalHours).1.Success?
    ensures Ready(Step(c, IntervalHours).0)
    ensures var c' := Step(c, IntervalHours).0;
      Step(c', IntervalHours).1.Success? ==>
        Step(c, IntervalHours).1.value.end == Step(c', IntervalHours).1.value.start
  {
    StepInv(c, ws);
    StepSpec(c, IntervalHours);
    InvReady(Step(c, IntervalHours).0, Record(ws, Step(c, IntervalHours).1));
    StepSpec(Step(c, IntervalHours).0, IntervalHours);
  }

  /** The first call yields the day from the configured start. */
  lemma FirstWindow()
    ensures Ready(InitialCursor)
    ensures Step(InitialCursor, IntervalHours).1
            == Success(Window(InitialStart, "2023-04-02 00:00:57.860798"))
  {
    var dt := DateTime(2023, 4, 1, 0, 0, 57, 860798);
    FirstStart();
    assert Resumed(InitialCursor) == InitialStart && Parse(InitialStart).value == dt;
    FirstEnd();
    FirstEndText();
    assert Fmt(AddHours(dt, IntervalHours)) == "2023-04-02 00:00:57.860798";
  }

  /** The generator object behind `Extraction._params_gen`: the attributes `self.start`
      and `self.interval`, and the generator's frame. */
  class Extraction {
    var start: string
    var frame: Frame
    const interval: nat
    ghost var windows: seq<Window>

    function State(): Cursor
      reads this
    {
      Cursor(start, frame)
    }

    ghost predicate Valid()
      reads this
    {
      interval == IntervalHours && CursorInv(State(), windows)
    }

    constructor ()
      ensures Valid()
      ensures State() == InitialCursor && interval == IntervalHours && windows == []
    {
      start := InitialStart;
      frame := Fresh;
      interval := IntervalHours;
      windows := [];
      InitialInv();
    }

    /** `next(self._params_gen)`: the window parameters for one request. */
    method Next() returns (r: Result<Window, CursorError>)
      requires Valid()
      modifies this
      ensures Valid()
      ensures Ready(old(State()))
      ensures start == Step(old(State()), interval).0.start && frame == Step(old(State()), interval).0.frame
      ensures r == Step(old(State()), interval).1 && windows == Record(old(windows), r)
    {
      ghost var c, ws := State(), windows;
      InvReady(c, ws);
      var step := Step(State(), interval);
      start, frame, r := step.0.start, step.0.frame, step.1;
      windows := Record(windows, r);
      StepKeeps(c, ws, start, frame, windows);
    }
  }

  /** Two successive requests: the second window begins where the first ended. */
  method NextTwo(e: Extraction) returns (a: Result<Window, CursorError>, b: Result<Window, CursorError>)
    requires e.Valid()
    modifies e
    ensures e.Valid()
    ensures a.Success? && b.Success? ==> a.value.end == b.value.start
  {
    ghost var c := e.State();
    ghost var ws := e.windows;
    a := e.Next();
    assert e.State() == Step(c, IntervalHours).0;
    b := e.Next();
    if a.Success? {
      StepsMeet(c, ws);
    }
  }
}
