/** The console component (ZConsole.cs): text written to it goes into the
    line queue, one queue slot per screen line, with long lines wrapped to the
    screen width; drawing renders the queue oldest line first.

    The SpriteFont is the `Measure` the console is built with. Whether
    `LoadContent` has run (`font != null` in C#) is the flag `loaded`; the
    sprite batch and the colour only matter to rendering and are not part of
    this model. */
module ZuneConsole {
  import opened Wrappers
  import opened LineQueues
  import opened ConsoleText

  /** The usable width of the portrait screen, 240 pixels less a margin of 2. */
  const PortraitWidth := 238
  /** The usable width of the landscape screen, 320 pixels less a margin of 2. */
  const LandscapeWidth := 318

  /** The width budget of a line in the given orientation (ZConsole.cs:116, 190, 194). */
  function LineWidth(portrait: bool): (w: int)
    ensures w == if portrait then 238 else 318
  {
    if portrait then PortraitWidth else LandscapeWidth
  }

  /** The height budget used to size the scroll-back (ZConsole.cs:213): the
      other orientation's width, i.e. the screen's height less the margin. */
  function ScreenHeight(portrait: bool): (h: int)
    ensures h == LineWidth(!portrait)
    ensures portrait <==> h > LineWidth(portrait)
  {
    if portrait then LandscapeWidth else PortraitWidth
  }

  // ---------------------------------------------------------------------
  // What writing does to the view of the queue

  /** One call the console makes on the line queue. */
  datatype LineOp = ReplaceFirst(line: string) | AddLine(line: string)

  /** The effect of one queue call on the newest-first view. */
  function Step(v: View, op: LineOp): (r: View)
    requires |v| >= 1
    ensures |r| == |v|
  {
    match op
    case ReplaceFirst(x) => ReplaceView(v, x)
    case AddLine(x) => AddView(v, x)
  }

  /** The effect of a series of queue calls, made in order. */
  function Apply(v: View, ops: seq<LineOp>): (r: View)
    requires |v| >= 1
    ensures |r| == |v|
  {
    if ops == [] then v else Step(Apply(v, ops[..|ops| - 1]), ops[|ops| - 1])
  }

  /** Applying two series one after the other is applying their concatenation. */
  lemma {:induction false} ApplyConcat(v: View, a: seq<LineOp>, b: seq<LineOp>)
    requires |v| >= 1
    ensures Apply(v, a + b) == Apply(Apply(v, a), b)
    decreases |b|
  {
    if b == [] {
      assert a + b == a;
    } else {
      assert (a + b)[..|a + b| - 1] == a + b[..|b| - 1];
      ApplyConcat(v, a, b[..|b| - 1]);
    }
  }

  /** The queue calls for the fragments of one wrapped piece
      (ZConsole.cs:198-204): the first replaces the newest line when the piece
      continues it, every other fragment is added as a new line. */
  function WrapOps(frags: seq<string>, first: bool): (ops: seq<LineOp>)
    ensures |ops| == |frags|
  {
    if frags == [] then []
    else [if first then ReplaceFirst(frags[0]) else AddLine(frags[0])] + WrapOps(frags[1..], false)
  }

  /** Extending the fragments by one extends the calls by one. */
  lemma {:induction false} WrapOpsSnoc(frags: seq<string>, first: bool, f: string)
    ensures WrapOps(frags + [f], first)
         == WrapOps(frags, first) + [if first && frags == [] then ReplaceFirst(f) else AddLine(f)]
  {
    if frags != [] {
      assert (frags + [f])[1..] == frags[1..] + [f];
      WrapOpsSnoc(frags[1..], false, f);
    }
  }

  /** Handing over one more fragment is one more queue call. */
  lemma WrapOpsStep(v: View, done: seq<string>, first: bool, f: string)
    requires |v| >= 1
    ensures Apply(v, WrapOps(done + [f], first))
         == Step(Apply(v, WrapOps(done, first)), if first && done == [] then ReplaceFirst(f) else AddLine(f))
  {
    WrapOpsSnoc(done, first, f);
    var before := WrapOps(done, first);
    var op := if first && done == [] then ReplaceFirst(f) else AddLine(f);
    assert (before + [op])[..|before|] == before;
  }

  /** What a call makes of the queue, and how it ends. */
  datatype Effect = Effect(ops: seq<LineOp>, outcome: Outcome)

  /** One piece of a write (ZConsole.cs:116-123): a piece wider than the
      budget is wrapped, any other piece replaces the newest line if it is the
      first piece and is added as a new line otherwise. */
  function PieceEffect(m: Measure, w: int, piece: string, first: bool): (e: Effect)
    ensures m(piece).x <= w ==> e.outcome == Pass && |e.ops| == 1
  {
    if m(piece).x > w then
      var r := Fragments(m, w, piece, 0, 5);
      Effect(WrapOps(r.frags, first), r.outcome)
    else
      Effect([if first then ReplaceFirst(piece) else AddLine(piece)], Pass)
  }

  /** The loop of `Write` over the pieces (ZConsole.cs:114-124), stopping at
      the first piece that throws. */
  function WriteEffect(m: Measure, w: int, pieces: seq<string>): (e: Effect)
  {
    if pieces == [] then Effect([], Pass)
    else
      var prior := WriteEffect(m, w, pieces[..|pieces| - 1]);
      if prior.outcome.Fail? then prior
      else
        var e := PieceEffect(m, w, pieces[|pieces| - 1], |pieces| == 1);
        Effect(prior.ops + e.ops, e.outcome)
  }

  /** The loop of `Write` after one more piece. */
  lemma WriteEffectStep(m: Measure, w: int, pieces: seq<string>, i: nat, next: nat)
    requires i < |pieces| && next == i + 1
    requires WriteEffect(m, w, pieces[..i]).outcome == Pass
    ensures var prior := WriteEffect(m, w, pieces[..i]);
            var e := PieceEffect(m, w, pieces[i], i == 0);
            WriteEffect(m, w, pieces[..next]) == Effect(prior.ops + e.ops, e.outcome)
  {
    assert pieces[..next][..i] == pieces[..i];
  }

  /** Once a piece has thrown, the later pieces change nothing. */
  lemma {:induction false} WriteEffectStops(m: Measure, w: int, pieces: seq<string>, i: nat)
    requires i <= |pieces|
    requires WriteEffect(m, w, pieces[..i]).outcome.Fail?
    ensures WriteEffect(m, w, pieces) == WriteEffect(m, w, pieces[..i])
    decreases |pieces| - i
  {
    if i < |pieces| {
      assert pieces[..i + 1][..i] == pieces[..i];
      WriteEffectStops(m, w, pieces, i + 1);
    } else {
      assert pieces[..i] == pieces;
    }
  }

  /** The text `Write` splits (ZConsole.cs:111-112): the newest line, when
      there is one, followed by the new text, where C# concatenation reads a
      null text as empty. Null when both are null. */
  function Continued(newest: Option<string>, text: Option<string>): (r: Option<string>)
    ensures r.None? <==> newest.None? && text.None?
    ensures newest.Some? ==> r == Some(newest.value + text.GetOr(""))
    ensures newest.None? ==> r == text
  {
    if newest.Some? then Some(newest.value + text.GetOr("")) else text
  }

  /** The whole of `Write` on a queue showing `v`: NullReference when there is
      no text to split, else the effect of the loop over its pieces. */
  function WriteText(m: Measure, w: int, v: View, text: Option<string>): (e: Effect)
    requires |v| >= 1
  {
    match Continued(v[0], text)
    case None => Effect([], Fail(NullReference))
    case Some(full) => WriteEffect(m, w, Split(full))
  }

  /** `r` is `v` after `pieces` were written one line each, the first over
      the newest line: the newest lines are the pieces, last piece newest, and
      the older lines have moved up by the number of new lines. */
  ghost predicate WrittenOver(v: View, pieces: seq<string>, r: View)
  {
    var n := |pieces|;
    && n >= 1 && |r| == |v|
    && (forall j :: 0 <= j < n && j < |v| ==> r[j] == Some(pieces[n - 1 - j]))
    && (forall j :: n <= j < |v| ==> r[j] == v[j - n + 1])
  }

  /** Pieces that all fit the width are written one line each. */
  lemma {:induction false} WriteUnwrapped(m: Measure, w: int, v: View, pieces: seq<string>)
    requires |v| >= 1 && |pieces| >= 1
    requires forall i :: 0 <= i < |pieces| ==> m(pieces[i]).x <= w
    ensures WriteEffect(m, w, pieces).outcome == Pass
    ensures WrittenOver(v, pieces, Apply(v, WriteEffect(m, w, pieces).ops))
    decreases |pieces|
  {
    var n := |pieces|;
    var last := pieces[n - 1];
    var init := pieces[..n - 1];
    var e := WriteEffect(m, w, pieces);
    assert m(last).x <= w;
    if n == 1 {
      assert init == [];
      assert e.ops == [ReplaceFirst(last)];
      assert Apply(v, e.ops) == Step(Apply(v, []), ReplaceFirst(last));
    } else {
      assert forall i :: 0 <= i < |init| ==> init[i] == pieces[i];
      WriteUnwrapped(m, w, v, init);
      var prior := WriteEffect(m, w, init);
      assert init + [last] == pieces;
      WriteOneMore(m, w, v, init, last);
      WrittenOverAdd(v, init, Apply(v, prior.ops), last);
    }
  }

  /** A fitting piece after the first, written after a run that passed, adds
      one line. */
  lemma WriteOneMore(m: Measure, w: int, v: View, init: seq<string>, last: string)
    requires |v| >= 1 && |init| >= 1 && m(last).x <= w
    requires WriteEffect(m, w, init).outcome == Pass
    ensures WriteEffect(m, w, init + [last]).outcome == Pass
    ensures Apply(v, WriteEffect(m, w, init + [last]).ops)
            == AddView(Apply(v, WriteEffect(m, w, init).ops), last)
  {
    var pieces := init + [last];
    var prior := WriteEffect(m, w, init);
    assert pieces[..|pieces| - 1] == init;
    var ops := WriteEffect(m, w, pieces).ops;
    assert ops == prior.ops + [AddLine(last)];
    assert ops[..|ops| - 1] == prior.ops;
  }

  /** One more fitting piece is one more line. */
  lemma WrittenOverAdd(v: View, init: seq<string>, q: View, last: string)
    requires |v| >= 1 && |init| >= 1 && WrittenOver(v, init, q)
    ensures WrittenOver(v, init + [last], AddView(q, last))
  {
    var pieces := init + [last];
    var n := |pieces|;
    var r := AddView(q, last);
    forall j | 0 <= j < n && j < |v|
      ensures r[j] == Some(pieces[n - 1 - j])
    {
      if j > 0 {
        assert r[j] == q[j - 1];
        assert q[j - 1] == Some(init[n - 2 - (j - 1)]);
      }
    }
    forall j | n <= j < |v|
      ensures r[j] == v[j - n + 1]
    {
      assert r[j] == q[j - 1];
      assert q[j - 1] == v[j - 1 - (n - 1) + 1];
    }
  }

  /** Writing a text without a line break that fits the width continues the
      newest line: it becomes the newest line followed by the text, and no
      other line changes. */
  lemma ContinueLine(m: Measure, w: int, v: View, text: string)
    requires |v| >= 1 && '\n' !in text
    requires v[0].Some? ==> '\n' !in v[0].value
    requires m(Continued(v[0], Some(text)).value).x <= w
    ensures var e := WriteText(m, w, v, Some(text));
            e.outcome == Pass && Apply(v, e.ops) == ReplaceView(v, Continued(v[0], Some(text)).value)
  {
    var full := Continued(v[0], Some(text)).value;
    assert '\n' !in full;
    SplitPlain(full);
    var e := WriteEffect(m, w, [full]);
    assert WriteText(m, w, v, Some(text)) == e;
    WriteUnwrapped(m, w, v, [full]);
    var r := Apply(v, e.ops);
    assert WrittenOver(v, [full], r);
    assert r == ReplaceView(v, full);
  }

  /** Writing two texts, neither holding a line break and both fitting, is
      writing their concatenation. */
  lemma WriteTwice(m: Measure, w: int, v: View, a: string, b: string)
    requires |v| >= 1 && '\n' !in a && '\n' !in b
    requires v[0].Some? ==> '\n' !in v[0].value
    requires m(Continued(v[0], Some(a + b)).value).x <= w
    requires m(Continued(v[0], Some(a)).value).x <= w
    ensures var v1 := Apply(v, WriteText(m, w, v, Some(a)).ops);
            Apply(v1, WriteText(m, w, v1, Some(b)).ops) == Apply(v, WriteText(m, w, v, Some(a + b)).ops)
  {
    var first := Continued(v[0], Some(a)).value;
    var both := Continued(v[0], Some(a + b)).value;
    ContinueLine(m, w, v, a);
    var v1 := ReplaceView(v, first);
    if v[0].Some? {
      ConcatAssoc(v[0].value, a, b);
    }
    assert first + b == both;
    NoBreakIn(first, b);
    NoBreakIn(a, b);
    ContinueLine(m, w, v1, b);
    ContinueLine(m, w, v, a + b);
    assert ReplaceView(v1, both) == ReplaceView(v, both);
  }

  lemma ConcatAssoc(x: string, a: string, b: string)
    ensures (x + a) + b == x + (a + b)
  {
  }

  /** Two texts without line breaks make one without. */
  lemma NoBreakIn(a: string, b: string)
    requires '\n' !in a && '\n' !in b
    ensures '\n' !in a + b
  {
  }

  /** A line written with `WriteLine` that fits the width ends the current
      line: the newest line becomes empty and the one before it is the
      continued line. */
  lemma LineEnds(m: Measure, w: int, v: View, text: string)
    requires |v| >= 2 && '\n' !in text
    requires v[0].Some? ==> '\n' !in v[0].value
    requires m(Continued(v[0], Some(text)).value).x <= w
    requires m("").x <= w
    ensures var e := WriteText(m, w, v, Some(text + "\n"));
            var r := Apply(v, e.ops);
            e.outcome == Pass && r[0] == Some("") && r[1] == Continued(v[0], Some(text))
  {
    var full := Continued(v[0], Some(text)).value;
    var pieces := [full, ""];
    LineEndsPieces(v, text);
    var e := WriteEffect(m, w, pieces);
    WriteUnwrapped(m, w, v, pieces);
    var r := Apply(v, e.ops);
    assert WrittenOver(v, pieces, r);
    assert r[0] == Some(pieces[1]) && r[1] == Some(pieces[0]);
  }

  /** `WriteLine`'s text continuing a line without a break splits into that
      line and an empty one. */
  lemma LineEndsPieces(v: View, text: string)
    requires |v| >= 1 && '\n' !in text
    requires v[0].Some? ==> '\n' !in v[0].value
    ensures var full := Continued(v[0], Some(text)).value;
            Continued(v[0], Some(text + "\n")) == Some(full + "\n") &&
            Split(full + "\n") == [full, ""]
  {
    var full := Continued(v[0], Some(text)).value;
    if v[0].Some? {
      assert v[0].value + (text + "\n") == (v[0].value + text) + "\n";
    }
    SplitTrailingBreak(full);
    SplitPlain(full);
  }

  // ---------------------------------------------------------------------
  // Drawing

  /** The text `Draw` hands to `DrawString` for one slot (ZConsole.cs:151-152):
      nothing for an empty slot, else the line and a line break. */
  function Shown(slot: Option<string>): string
  {
    match slot
    case None => ""
    case Some(line) => line + "\n"
  }

  /** The text `Draw` renders for a newest-first view: the oldest line first. */
  function Render(v: View): string
  {
    if v == [] then "" else Render(v[1..]) + Shown(v[0])
  }

  /** A cleared console renders as nothing. */
  lemma {:induction false} RenderNones(n: nat)
    ensures Render(Nones(n)) == ""
  {
    if n > 0 {
      assert Nones(n)[1..] == Nones(n - 1);
      RenderNones(n - 1);
    }
  }

  /** The rendered text ends with the newest line, and begins with what the
      older lines render as. */
  lemma RenderNewest(v: View, line: string)
    requires |v| >= 1 && v[0] == Some(line)
    ensures Render(v) == Render(v[1..]) + line + "\n"
  {
  }

  /** A new line is rendered after everything that was there, except the
      oldest line, which leaves the screen. */
  lemma RenderAdd(v: View, line: string)
    requires |v| >= 1
    ensures Render(AddView(v, line)) == Render(v[..|v| - 1]) + line + "\n"
  {
    var r := AddView(v, line);
    assert r[1..] == v[..|v| - 1];
  }

  // ---------------------------------------------------------------------
  // The component

  class ZConsole {
    /** The font's `MeasureString`. */
    const measure: Measure
    /** The scroll-back store. */
    const lq: LineQueue
    /** `DisplayPortrait`. */
    var isPortrait: bool
    /** Whether `LoadContent` has run, `font != null`. */
    var loaded: bool

    ghost predicate Valid()
      reads this, lq, lq.queue
    {
      lq.Valid() && Tall(measure)
    }

    /** The lines on screen, newest first. */
    ghost function Lines(): (v: View)
      reads this, lq, lq.queue
      requires Valid()
      ensures |v| >= 1
    {
      lq.Lines()
    }

    /** The line count `SetupLines` sizes the queue to in the current orientation. */
    ghost function LineCount(): (n: nat)
      reads this
      requires Tall(measure)
      ensures n >= 1
    {
      Capacity(measure, ScreenHeight(isPortrait), 0)
    }

    /** A console in portrait mode whose font is not loaded yet
        (ZConsole.cs:24, 26, 37-52). */
    constructor (font: Measure)
      requires Tall(font)
      ensures Valid() && fresh(lq) && fresh(lq.queue)
      ensures measure == font && isPortrait && !loaded
      ensures Lines() == [None]
    {
      measure := font;
      isPortrait := true;
      loaded := false;
      lq := new LineQueue();
    }

    /** `LoadContent` (ZConsole.cs:175-181): load the font, then size the
        queue to the screen. */
    method LoadContent()
      requires Valid()
      modifies this, lq
      ensures Valid() && loaded && isPortrait == old(isPortrait)
      ensures fresh(lq.queue)
      ensures Lines() == ResizeView(old(Lines()), LineCount())
      decreases 1
    {
      loaded := true;
      SetupLines();
    }

    /** `SetupLines` (ZConsole.cs:209-223): load the font first if needed, then
        grow a probe text one line at a time while it is no taller than the
        screen and resize the queue to the number of probe lines. When the
        font was not loaded the queue is resized twice to the same size,
        which is the same as once. */
    method SetupLines()
      requires Valid()
      modifies this, lq
      ensures Valid() && loaded && isPortrait == old(isPortrait)
      ensures fresh(lq.queue)
      ensures Lines() == ResizeView(old(Lines()), LineCount())
      decreases if loaded then 0 else 2
    {
      ghost var v0 := Lines();
      if !loaded {
        LoadContent();
      }
      ghost var v1 := Lines();
      var h := ScreenHeight(isPortrait);
      var maxLines := 1;
      var str := ".";
      while measure(str).y <= h
        invariant maxLines >= 1 && str == Probe(maxLines - 1)
        invariant maxLines <= h + 2
        invariant Capacity(measure, h, maxLines - 1) == Capacity(measure, h, 0)
        decreases h + 2 - maxLines
      {
        assert maxLines - 1 <= measure(Probe(maxLines - 1)).y;
        str := str + "\n.";
        maxLines := maxLines + 1;
      }
      var _ := lq.Resize(maxLines);
      assert Lines() == ResizeView(v1, LineCount());
      if !old(loaded) {
        ResizeTwice(v0, LineCount());
      }
    }

    /** The `DisplayPortrait` setter (ZConsole.cs:67-77): nothing happens when
        the orientation is unchanged, else the queue is resized for the new
        screen height. */
    method SetDisplayPortrait(value: bool)
      requires Valid()
      modifies this, lq
      ensures Valid() && isPortrait == value
      ensures old(isPortrait) == value ==> Lines() == old(Lines()) && loaded == old(loaded)
      ensures old(isPortrait) != value ==> loaded && Lines() == ResizeView(old(Lines()), LineCount())
    {
      if isPortrait == value {
        return;
      }
      isPortrait := value;
      SetupLines();
    }

    /** The `DisplayLandscape` setter (ZConsole.cs:81-91): the same as setting
        `DisplayPortrait` to the opposite. */
    method SetDisplayLandscape(value: bool)
      requires Valid()
      modifies this, lq
      ensures Valid() && isPortrait == !value
      ensures old(isPortrait) == !value ==> Lines() == old(Lines()) && loaded == old(loaded)
      ensures old(isPortrait) != !value ==> loaded && Lines() == ResizeView(old(Lines()), LineCount())
    {
      if isPortrait == !value {
        return;
      }
      isPortrait := !value;
      SetupLines();
    }

    /** `Clear` (ZConsole.cs:130-133): every line becomes empty. */
    method Clear()
      requires Valid()
      modifies lq.queue
      ensures Valid() && Lines() == Nones(|old(Lines())|)
    {
      lq.Clear();
    }

    /** `WriteWrapString` (ZConsole.cs:184-207): cut `p` into fragments with
        the coarse and fine width probes and hand them to the queue, the first
        over the newest line when `appendFirstLine`. Where the C# loop would
        run forever, the method stops with `Diverges`. */
    method WriteWrapString(p: string, appendFirstLine: bool) returns (o: Outcome)
      requires Valid()
      modifies lq, lq.queue
      ensures Valid() && lq.queue == old(lq.queue)
      ensures var r := Fragments(measure, LineWidth(isPortrait), p, 0, 5);
              o == r.outcome && Lines() == Apply(old(Lines()), WrapOps(r.frags, appendFirstLine))
    {
      var w := LineWidth(isPortrait);
      ghost var v0 := Lines();
      ghost var all := Fragments(measure, w, p, 0, 5);
      ghost var done: seq<string> := [];
      assert Pending(measure, w, p, all, done, 0, 5);
      var ixSt: nat := 0;
      var length: nat := 5;
      var first := appendFirstLine;
      while ixSt < |p|
        invariant Valid() && ixSt <= |p| && lq.queue == old(lq.queue)
        invariant first == (appendFirstLine && done == [])
        invariant Pending(measure, w, p, all, done, ixSt, length)
        invariant Lines() == Apply(v0, WrapOps(done, appendFirstLine))
        decreases |p| - ixSt, if length == 0 then 0 else 1
      {
        var l;
        o, l := NextFragment(p, ixSt, length);
        if o.Fail? || (l == 0 && length == 0) {
          if o.Pass? {
            o := Fail(Diverges);
          }
          PendingStop(measure, w, p, all, done, ixSt, length, o);
          return;
        }
        var next := ixSt + l;
        PendingStep(measure, w, p, all, done, ixSt, length, l, next);
        var frag := p[ixSt..next];
        WrapOpsStep(v0, done, appendFirstLine, frag);
        HandOver(frag, first);
        first := false;
        done := done + [frag];
        ixSt := next;
        length := l;
      }
      PendingEnd(measure, w, p, all, done, ixSt, length);
      o := Pass;
    }

    /** Hand a fragment to the queue (ZConsole.cs:198-204): over the newest
        line when it continues it, else as a new line. */
    method HandOver(frag: string, first: bool)
      requires Valid()
      modifies lq, lq.queue
      ensures Valid() && lq.queue == old(lq.queue)
      ensures Lines() == Step(old(Lines()), if first then ReplaceFirst(frag) else AddLine(frag))
    {
      if !first {
        var _ := lq.Add(Some(frag));
      } else {
        var _ := lq.ReplaceFirstLine(Some(frag));
      }
    }

    /** One pass of the probes (ZConsole.cs:189-197): the length of the next
        fragment from `ixSt`, or the exception `Substring` throws. */
    method NextFragment(p: string, ixSt: nat, carried: nat) returns (o: Outcome, l: nat)
      requires ixSt < |p|
      ensures var r := FragmentLength(measure, LineWidth(isPortrait), p, ixSt, carried);
              (o == Pass <==> r.Success?) && (r.Success? ==> l == r.value)
              && (r.Failure? ==> o == Fail(r.error))
    {
      var w := LineWidth(isPortrait);
      var length: int := carried;
      while ixSt + length < |p| && measure(p[ixSt..ixSt + length]).x < w
        invariant length >= 0
        invariant Coarse(measure, w, p, ixSt, length) == Coarse(measure, w, p, ixSt, carried)
        decreases |p| - ixSt - length
      {
        length := length + 5;
      }
      length := length - 5;
      ghost var c := length;
      while ixSt + length < |p|
        invariant length >= c
        invariant Fine(measure, w, p, ixSt, length) == Fine(measure, w, p, ixSt, c)
        decreases |p| - ixSt - length
      {
        if length < 0 {
          return Fail(ArgumentOutOfRange), 0;
        }
        if measure(p[ixSt..ixSt + length]).x >= w {
          break;
        }
        length := length + 1;
      }
      length := length - 1;
      if ixSt + length > |p| {
        length := |p| - ixSt;
      }
      if length < 0 {
        return Fail(ArgumentOutOfRange), 0;
      }
      o, l := Pass, length;
    }

    /** `Write` (ZConsole.cs:107-125): load the font if needed, continue the
        newest line with the text and write it piece by piece between line
        breaks. A null text with no newest line to continue throws
        NullReference; a wrapped piece that throws stops the write. */
    method Write(text: Option<string>) returns (o: Outcome)
      requires Valid()
      modifies this, lq, lq.queue
      ensures Valid() && isPortrait == old(isPortrait) && loaded
      ensures var v1 := if old(loaded) then old(Lines()) else ResizeView(old(Lines()), LineCount());
              var e := WriteText(measure, LineWidth(isPortrait), v1, text);
              o == e.outcome && Lines() == Apply(v1, e.ops)
    {
      if !loaded {
        LoadContent();
      }
      var newest := lq.Get(0);
      var full := Continued(newest.value, text);
      if full.None? {
        return Fail(NullReference);
      }
      var pieces := Split(full.value);
      o := WritePieces(pieces);
    }

    /** The loop of `Write` over the line pieces (ZConsole.cs:114-124),
        stopping at the first piece whose wrapping fails. */
    method WritePieces(pieces: seq<string>) returns (o: Outcome)
      requires Valid()
      modifies lq, lq.queue
      ensures Valid() && lq.queue == old(lq.queue)
      ensures var e := WriteEffect(measure, LineWidth(isPortrait), pieces);
              o == e.outcome && Lines() == Apply(old(Lines()), e.ops)
    {
      var w := LineWidth(isPortrait);
      ghost var v1 := Lines();
      var i := 0;
      o := Pass;
      while i < |pieces|
        invariant Valid() && i <= |pieces| && lq.queue == old(lq.queue) && o == Pass
        invariant WriteEffect(measure, w, pieces[..i]).outcome == Pass
        invariant Lines() == Apply(v1, WriteEffect(measure, w, pieces[..i]).ops)
      {
        var next := i + 1;
        ghost var prior := WriteEffect(measure, w, pieces[..i]);
        ghost var e := PieceEffect(measure, w, pieces[i], i == 0);
        WriteEffectStep(measure, w, pieces, i, next);
        ApplyConcat(v1, prior.ops, e.ops);
        o := WritePiece(pieces[i], i == 0);
        if o.Fail? {
          WriteEffectStops(measure, w, pieces, next);
          return;
        }
        i := next;
      }
      assert pieces[..i] == pieces;
    }

    /** One piece of `Write` (ZConsole.cs:116-123): wrapped when wider than
        the line, else over the newest line when it is the first piece and as
        a new line otherwise. */
    method WritePiece(piece: string, first: bool) returns (o: Outcome)
      requires Valid()
      modifies lq, lq.queue
      ensures Valid() && lq.queue == old(lq.queue)
      ensures var e := PieceEffect(measure, LineWidth(isPortrait), piece, first);
              o == e.outcome && Lines() == Apply(old(Lines()), e.ops)
    {
      if measure(piece).x > LineWidth(isPortrait) {
        o := WriteWrapString(piece, first);
      } else {
        var op := if first then ReplaceFirst(piece) else AddLine(piece);
        assert Apply(old(Lines()), [op]) == Step(old(Lines()), op) by {
          assert [op][..0] == [];
        }
        HandOver(piece, first);
        o := Pass;
      }
    }

    /** `WriteLine` (ZConsole.cs:97-101): a null text is read as empty, and a
        line break ends the line. */
    method WriteLine(text: Option<string>) returns (o: Outcome)
      requires Valid()
      modifies this, lq, lq.queue
      ensures Valid() && isPortrait == old(isPortrait) && loaded
      ensures var v1 := if old(loaded) then old(Lines()) else ResizeView(old(Lines()), LineCount());
              var e := WriteText(measure, LineWidth(isPortrait), v1, Some(text.GetOr("") + "\n"));
              o == e.outcome && Lines() == Apply(v1, e.ops)
    {
      o := Write(Some(text.GetOr("") + "\n"));
    }

    /** The text `Draw` renders (ZConsole.cs:144-153), after loading the font
        if needed: the lines oldest first, each ending in a line break, empty
        slots skipped. */
    method Draw() returns (output: string)
      requires Valid()
      modifies this, lq
      ensures Valid() && isPortrait == old(isPortrait) && loaded
      ensures old(loaded) ==> Lines() == old(Lines())
      ensures !old(loaded) ==> Lines() == ResizeView(old(Lines()), LineCount())
      ensures output == Render(Lines())
    {
      if !loaded {
        LoadContent();
      }
      ghost var v := Lines();
      output := "";
      var i := lq.Count() - 1;
      while i >= 0
        invariant Valid() && Lines() == v
        invariant -1 <= i < |v|
        invariant output == Render(v[i + 1..])
      {
        var slot := lq.Get(i);
        assert slot.value == v[i];
        ghost var here := v[i..];
        assert here[1..] == v[i + 1..];
        assert Render(here) == output + Shown(v[i]);
        if slot.value.Some? {
          output := output + slot.value.value + "\n";
        }
        i := i - 1;
        assert v[i + 1..] == here;
      }
      assert v[0..] == v;
    }
  }
}
