/** The text side of the console (ZConsole.cs): splitting written text at line
    breaks, the line-height probe that sizes the scroll-back, and the
    character-granular wrapping search of `WriteWrapString`.

    The font's `MeasureString` is a parameter: a function from text to its
    rendered extent, in whole pixels. */
module ConsoleText {
  import opened Wrappers

  /** Rendered width `x` and height `y` of a text, as `MeasureString` gives them. */
  datatype Extent = Extent(x: nat, y: nat)

  /** A font's `MeasureString`. */
  type Measure = string -> Extent

  // ---------------------------------------------------------------------
  // Line breaks: `String.Split('\n')` and its inverse

  /** `text.Split('\n')` (ZConsole.cs:113): the pieces between line breaks,
      always at least one, none holding a line break. */
  function Split(s: string): (r: seq<string>)
    ensures |r| >= 1
    ensures forall i :: 0 <= i < |r| ==> '\n' !in r[i]
  {
    if s == [] then [""]
    else
      var rest := Split(s[1..]);
      if s[0] == '\n' then [""] + rest
      else [[s[0]] + rest[0]] + rest[1..]
  }

  /** The pieces glued back together with a line break between neighbours. */
  function Join(segs: seq<string>): string
    requires |segs| >= 1
  {
    if |segs| == 1 then segs[0] else segs[0] + "\n" + Join(segs[1..])
  }

  /** Splitting loses nothing: joining the pieces gives the text back. */
  lemma {:induction false} JoinSplit(s: string)
    ensures Join(Split(s)) == s
  {
    if s != [] {
      JoinSplit(s[1..]);
      var rest := Split(s[1..]);
      if s[0] != '\n' && |rest| > 1 {
        assert Join(rest) == rest[0] + "\n" + Join(rest[1..]);
        assert ([s[0]] + rest[0]) + "\n" + Join(rest[1..]) == [s[0]] + Join(rest);
      }
      assert s == [s[0]] + s[1..];
    }
  }

  /** Pieces without line breaks are exactly what splitting their join gives. */
  lemma {:induction false} SplitJoin(segs: seq<string>)
    requires |segs| >= 1
    requires forall i :: 0 <= i < |segs| ==> '\n' !in segs[i]
    ensures Split(Join(segs)) == segs
  {
    if |segs| == 1 {
      SplitPlain(segs[0]);
    } else {
      SplitJoin(segs[1..]);
      SplitBefore(segs[0], Join(segs[1..]));
      assert [segs[0]] + segs[1..] == segs;
    }
  }

  /** A text without line breaks splits into itself. */
  lemma {:induction false} SplitPlain(a: string)
    requires '\n' !in a
    ensures Split(a) == [a]
  {
    if a != [] {
      assert '\n' !in a[1..] by {
        forall i | 0 <= i < |a[1..]| ensures a[1..][i] != '\n' {
          assert a[1..][i] == a[i + 1];
        }
      }
      SplitPlain(a[1..]);
      assert [a[0]] + a[1..] == a;
    }
  }

  /** A line-break-free prefix followed by a line break becomes its own piece. */
  lemma {:induction false} SplitBefore(a: string, b: string)
    requires '\n' !in a
    ensures Split(a + "\n" + b) == [a] + Split(b)
  {
    if a == [] {
      assert a + "\n" + b == "\n" + b;
      assert ("\n" + b)[1..] == b;
    } else {
      assert '\n' !in a[1..] by {
        forall i | 0 <= i < |a[1..]| ensures a[1..][i] != '\n' {
          assert a[1..][i] == a[i + 1];
        }
      }
      SplitBefore(a[1..], b);
      assert (a + "\n" + b)[1..] == a[1..] + "\n" + b;
      assert [a[0]] + a[1..] == a;
    }
  }

  /** A text ending in a line break ends in an empty piece, the new partial line. */
  lemma SplitTrailingBreak(s: string)
    ensures Split(s + "\n") == Split(s) + [""]
  {
    var segs := Split(s) + [""];
    JoinSplit(s);
    JoinAppend(Split(s), "");
    assert Join(segs) == s + "\n";
    assert forall i :: 0 <= i < |segs| ==> '\n' !in segs[i] by {
      assert forall i :: 0 <= i < |Split(s)| ==> segs[i] == Split(s)[i];
    }
    SplitJoin(segs);
  }

  /** Joining one more piece adds a line break and that piece. */
  lemma {:induction false} JoinAppend(segs: seq<string>, last: string)
    requires |segs| >= 1
    ensures Join(segs + [last]) == Join(segs) + "\n" + last
  {
    if |segs| > 1 {
      JoinAppend(segs[1..], last);
      assert (segs + [last])[1..] == segs[1..] + [last];
    }
  }

  // ---------------------------------------------------------------------
  // The line-height probe of `SetupLines` (ZConsole.cs:209-223)

  /** The probe text after `j` extensions: `"."`, then `"\n."` appended `j` times. */
  function Probe(j: nat): string
  {
    if j == 0 then "." else Probe(j - 1) + "\n."
  }

  /** A font whose lines are at least one pixel high: `j + 1` probe lines are
      at least `j` pixels tall. Without this the probe loop need not stop. */
  ghost predicate Tall(m: Measure)
  {
    forall j: nat :: j <= m(Probe(j)).y
  }

  /** The line count the probe settles on when started after `j` extensions
      under height budget `h`: one more than the extensions made while the
      probe stayed no taller than `h`. */
  function Capacity(m: Measure, h: int, j: nat): (r: nat)
    requires Tall(m)
    ensures r >= j + 1
    ensures m(Probe(r - 1)).y > h
    ensures forall i :: j <= i < r - 1 ==> m(Probe(i)).y <= h
    decreases h - j
  {
    assert j <= m(Probe(j)).y;
    if m(Probe(j)).y <= h then Capacity(m, h, j + 1) else j + 1
  }

  // ---------------------------------------------------------------------
  // `WriteWrapString` (ZConsole.cs:184-207)

  /** The loop guard of both probe loops (ZConsole.cs:189-190, 193-194) for a
      non-negative trial length: the trial piece ends before the end of `p`
      and measures strictly narrower than the budget `w`. */
  predicate Fits(m: Measure, w: int, p: string, ixSt: nat, length: int)
  {
    0 <= length && ixSt + length < |p| && m(p[ixSt..ixSt + length]).x < w
  }

  /** The coarse probe (ZConsole.cs:189-191): grow the trial length by 5 while
      it fits; the result is the first such length that does not fit. */
  function Coarse(m: Measure, w: int, p: string, ixSt: nat, length: nat): (r: nat)
    ensures r >= length && !Fits(m, w, p, ixSt, r)
    decreases |p| - ixSt - length
  {
    if ixSt + length < |p| && m(p[ixSt..ixSt + length]).x < w then
      Coarse(m, w, p, ixSt, length + 5)
    else length
  }

  /** The coarse probe stops at the first of `length`, `length + 5`, ... that
      does not fit: it is a whole number of steps of 5 on, and every earlier
      step fits. */
  lemma {:induction false} CoarseSteps(m: Measure, w: int, p: string, ixSt: nat, length: nat)
    ensures var r := Coarse(m, w, p, ixSt, length);
            (r - length) % 5 == 0 &&
            forall i: nat :: length + 5 * i < r ==> Fits(m, w, p, ixSt, length + 5 * i)
    decreases |p| - ixSt - length
  {
    var r := Coarse(m, w, p, ixSt, length);
    if ixSt + length < |p| && m(p[ixSt..ixSt + length]).x < w {
      CoarseSteps(m, w, p, ixSt, length + 5);
      assert r - length == (r - (length + 5)) + 5;
      forall i: nat | length + 5 * i < r
        ensures Fits(m, w, p, ixSt, length + 5 * i)
      {
        if i > 0 {
          var j: nat := i - 1;
          assert length + 5 * i == length + 5 + 5 * j;
        }
      }
    }
  }

  /** When the coarse probe moved at all, the step before its result fits. */
  lemma {:induction false} CoarseLastFits(m: Measure, w: int, p: string, ixSt: nat, length: nat)
    requires Coarse(m, w, p, ixSt, length) > length
    ensures Coarse(m, w, p, ixSt, length) - 5 >= length
    ensures Fits(m, w, p, ixSt, Coarse(m, w, p, ixSt, length) - 5)
    decreases |p| - ixSt - length
  {
    if Coarse(m, w, p, ixSt, length + 5) > length + 5 {
      CoarseLastFits(m, w, p, ixSt, length + 5);
    }
  }

  /** The fine probe (ZConsole.cs:193-195): grow the trial length by 1 while it
      fits. `Substring` refuses a negative length, so a negative trial length
      that is still inside `p` raises ArgumentOutOfRange. */
  function Fine(m: Measure, w: int, p: string, ixSt: nat, length: int): (r: Result<int>)
    requires ixSt < |p|
    ensures r.Failure? <==> length < 0
    ensures r.Failure? ==> r.error == ArgumentOutOfRange
    ensures r.Success? ==> r.value >= length && !Fits(m, w, p, ixSt, r.value)
    decreases |p| - ixSt - length
  {
    if ixSt + length < |p| then
      if length < 0 then Failure(ArgumentOutOfRange)
      else if m(p[ixSt..ixSt + length]).x < w then Fine(m, w, p, ixSt, length + 1)
      else Success(length)
    else Success(length)
  }

  /** Every length the fine probe stepped over fits: its result is the first
      length from `length` on that does not. */
  lemma {:induction false} FineSteps(m: Measure, w: int, p: string, ixSt: nat, length: int)
    requires ixSt < |p| && Fine(m, w, p, ixSt, length).Success?
    ensures forall l :: length <= l < Fine(m, w, p, ixSt, length).value ==> Fits(m, w, p, ixSt, l)
    decreases |p| - ixSt - length
  {
    if ixSt + length < |p| && length >= 0 && m(p[ixSt..ixSt + length]).x < w {
      FineSteps(m, w, p, ixSt, length + 1);
    }
  }

  /** One pass of the outer loop (ZConsole.cs:189-197) from `ixSt` with the
      length `carried` over from the previous pass: the coarse probe, the step
      back by 5, the fine probe, the step back by 1 and the clamp to the end of
      `p`. The `Substring` that cuts the fragment (ZConsole.cs:199, 202)
      refuses a negative length. */
  function FragmentLength(m: Measure, w: int, p: string, ixSt: nat, carried: nat): (r: Result<nat>)
    requires ixSt < |p|
    ensures r.Success? ==> ixSt + r.value <= |p|
    ensures r.Failure? ==> r.error == ArgumentOutOfRange
  {
    var c := Coarse(m, w, p, ixSt, carried) - 5;
    match Fine(m, w, p, ixSt, c)
    case Failure(e) => Failure(e)
    case Success(lf) =>
      var l := if ixSt + (lf - 1) > |p| then |p| - ixSt else lf - 1;
      if l < 0 then Failure(ArgumentOutOfRange) else Success(l)
  }

  /** What a run of the wrapping loop produces: the fragments handed to the
      line queue, in order, and how the loop ended. */
  datatype Wrapped = Wrapped(frags: seq<string>, outcome: Outcome)

  /** The fragments glued together. */
  function Concat(frags: seq<string>): string
  {
    if frags == [] then "" else frags[0] + Concat(frags[1..])
  }

  /** The outer loop (ZConsole.cs:187-206) from start index `ixSt` with trial
      length `length`. `length` is not reset between fragments. A pass that
      starts with length 0 and cuts an empty fragment leaves the loop in the
      state it started from, so the C# loop never ends: that outcome is
      `Diverges`. The fragments cut before an exception are kept, since they
      have already been handed to the line queue. */
  function Fragments(m: Measure, w: int, p: string, ixSt: nat, length: nat): (r: Wrapped)
    requires ixSt <= |p|
    decreases |p| - ixSt, if length == 0 then 0 else 1
  {
    if ixSt >= |p| then Wrapped([], Pass)
    else
      match FragmentLength(m, w, p, ixSt, length)
      case Failure(e) => Wrapped([], Fail(e))
      case Success(l) =>
        if l == 0 && length == 0 then Wrapped([], Fail(Diverges))
        else
          var rest := Fragments(m, w, p, ixSt + l, l);
          Wrapped([p[ixSt..ixSt + l]] + rest.frags, rest.outcome)
  }

  /** The fragments are consecutive pieces of the text: glued together they
      are a prefix of what was to be written, and all of it when the loop
      ends normally. */
  lemma {:induction false} FragmentsCover(m: Measure, w: int, p: string, ixSt: nat, length: nat)
    requires ixSt <= |p|
    ensures var r := Fragments(m, w, p, ixSt, length);
            && Concat(r.frags) <= p[ixSt..]
            && (r.outcome.Pass? ==> Concat(r.frags) == p[ixSt..])
    decreases |p| - ixSt, if length == 0 then 0 else 1
  {
    if ixSt < |p| {
      var fl := FragmentLength(m, w, p, ixSt, length);
      if fl.Success? && !(fl.value == 0 && length == 0) {
        var l := fl.value;
        var next := ixSt + l;
        FragmentsStep(m, w, p, ixSt, length, l, next);
        FragmentsCover(m, w, p, next, l);
        var rest := Fragments(m, w, p, next, l);
        var frag := p[ixSt..next];
        assert ([frag] + rest.frags)[1..] == rest.frags;
        assert Concat([frag] + rest.frags) == frag + Concat(rest.frags);
        assert p[ixSt..] == frag + p[next..];
        PrefixAfter(frag, Concat(rest.frags), p[next..]);
      }
    }
  }

  /** Putting the same text in front keeps a prefix a prefix. */
  lemma PrefixAfter(f: string, a: string, b: string)
    requires a <= b
    ensures f + a <= f + b
  {
    assert (f + b)[..|f + a|] == f + b[..|a|];
  }

  /** The loop only ever ends normally, by a negative `Substring` length, or
      by running forever. */
  lemma {:induction false} FragmentsOutcome(m: Measure, w: int, p: string, ixSt: nat, length: nat)
    requires ixSt <= |p|
    ensures Fragments(m, w, p, ixSt, length).outcome in {Pass, Fail(ArgumentOutOfRange), Fail(Diverges)}
    decreases |p| - ixSt, if length == 0 then 0 else 1
  {
    if ixSt < |p| {
      var fl := FragmentLength(m, w, p, ixSt, length);
      if fl.Success? && !(fl.value == 0 && length == 0) {
        FragmentsOutcome(m, w, p, ixSt + fl.value, fl.value);
      }
    }
  }

  /** One pass of the loop: a pass that cuts a fragment without repeating
      its start state hands that fragment over and continues after it. */
  lemma FragmentsStep(m: Measure, w: int, p: string, ixSt: nat, length: nat, l: nat, next: nat)
    requires ixSt < |p| && FragmentLength(m, w, p, ixSt, length) == Success(l)
    requires l != 0 || length != 0
    requires next == ixSt + l
    ensures next <= |p|
    ensures var rest := Fragments(m, w, p, next, l);
            Fragments(m, w, p, ixSt, length) == Wrapped([p[ixSt..next]] + rest.frags, rest.outcome)
  {
  }

  /** A pass that throws, or that would repeat its start state, ends the
      loop without handing over anything more. */
  lemma FragmentsStop(m: Measure, w: int, p: string, ixSt: nat, length: nat, o: Outcome)
    requires ixSt < |p|
    requires var fl := FragmentLength(m, w, p, ixSt, length);
             || (fl.Failure? && o == Fail(fl.error))
             || (fl == Success(0) && length == 0 && o == Fail(Diverges))
    ensures Fragments(m, w, p, ixSt, length) == Wrapped([], o)
  {
  }

  /** Midway through a call: the fragments `done` are cut, and the rest of
      `all` is what the passes from (ixSt, length) produce. */
  ghost predicate Pending(m: Measure, w: int, p: string, all: Wrapped, done: seq<string>, ixSt: nat, length: nat) {
    ixSt <= |p| &&
    var tail := Fragments(m, w, p, ixSt, length);
    all == Wrapped(done + tail.frags, tail.outcome)
  }

  /** A pass that cuts a fragment moves it from the pending passes to `done`. */
  lemma PendingStep(m: Measure, w: int, p: string, all: Wrapped, done: seq<string>,
                    ixSt: nat, length: nat, l: nat, next: nat)
    requires ixSt < |p| && FragmentLength(m, w, p, ixSt, length) == Success(l)
    requires l != 0 || length != 0
    requires next == ixSt + l
    requires Pending(m, w, p, all, done, ixSt, length)
    ensures next <= |p| && Pending(m, w, p, all, done + [p[ixSt..next]], next, l)
  {
    FragmentsStep(m, w, p, ixSt, length, l, next);
    var rest := Fragments(m, w, p, next, l);
    assert done + ([p[ixSt..next]] + rest.frags) == (done + [p[ixSt..next]]) + rest.frags;
  }

  /** When the passes stop, `done` is everything the call cuts. */
  lemma PendingStop(m: Measure, w: int, p: string, all: Wrapped, done: seq<string>, ixSt: nat, length: nat, o: Outcome)
    requires ixSt < |p|
    requires var fl := FragmentLength(m, w, p, ixSt, length);
             || (fl.Failure? && o == Fail(fl.error))
             || (fl == Success(0) && length == 0 && o == Fail(Diverges))
    requires Pending(m, w, p, all, done, ixSt, length)
    ensures all == Wrapped(done, o)
  {
    FragmentsStop(m, w, p, ixSt, length, o);
    assert done + [] == done;
  }

  /** At the end of the text nothing is pending. */
  lemma PendingEnd(m: Measure, w: int, p: string, all: Wrapped, done: seq<string>, ixSt: nat, length: nat)
    requires ixSt >= |p| && Pending(m, w, p, all, done, ixSt, length)
    ensures all == Wrapped(done, Pass)
  {
    assert done + [] == done;
  }

  /** Under any measure, the first fragment of a call is strictly narrower than
      the budget: the fine probe either measured it or the call fails before
      cutting anything. Later fragments have no such bound, because the trial
      length is carried over from the previous fragment. */
  lemma FirstFragmentFits(m: Measure, w: int, p: string)
    requires |p| > 0
    ensures var r := Fragments(m, w, p, 0, 5);
            |r.frags| > 0 ==> m(r.frags[0]).x < w
  {
    var r := Fragments(m, w, p, 0, 5);
    var big := Coarse(m, w, p, 0, 5);
    var c := big - 5;
    var fine := Fine(m, w, p, 0, c);
    if |r.frags| > 0 && fine.Success? {
      var lf := fine.value;
      if big > 5 {
        CoarseLastFits(m, w, p, 0, 5);
      }
      assert lf > c;
      FineSteps(m, w, p, 0, c);
      assert Fits(m, w, p, 0, lf - 1);
      assert r.frags[0] == p[0..lf - 1];
    }
  }

  /** The width `MeasureString` gives for a text of one pixel per character. */
  function CharWidths(s: string): Extent
  {
    Extent(|s|, 1)
  }

  /** With one pixel per character and a budget of 4, the ten letters
      `abcdefghij` are cut into `abc`, `def`, `ghi`; the length 3 carried into
      the last pass then steps back to -2 and `Substring` throws. */
  lemma CarriedLengthThrows()
    ensures Fragments(CharWidths, 4, "abcdefghij", 0, 5)
         == Wrapped(["abc", "def", "ghi"], Fail(ArgumentOutOfRange))
  {
    var p := "abcdefghij";
    CarriedFirstPass();
    CarriedLaterPass(3);
    CarriedLaterPass(6);
    CarriedLastPass();
    assert Fragments(CharWidths, 4, p, 9, 3) == Wrapped([], Fail(ArgumentOutOfRange));
    assert p[6..9] == "ghi" && p[3..6] == "def" && p[0..3] == "abc";
    assert Fragments(CharWidths, 4, p, 6, 3) == Wrapped(["ghi"], Fail(ArgumentOutOfRange));
    assert Fragments(CharWidths, 4, p, 3, 3) == Wrapped(["def", "ghi"], Fail(ArgumentOutOfRange));
  }

  /** The first pass of the scenario above cuts three characters. */
  lemma CarriedFirstPass()
    ensures FragmentLength(CharWidths, 4, "abcdefghij", 0, 5) == Success(3)
  {
    var p := "abcdefghij";
    assert Coarse(CharWidths, 4, p, 0, 5) == 5;
    assert Fine(CharWidths, 4, p, 0, 0) == Success(4);
  }

  /** The second and third passes, starting from the carried length 3, cut three more. */
  lemma CarriedLaterPass(ixSt: nat)
    requires ixSt == 3 || ixSt == 6
    ensures FragmentLength(CharWidths, 4, "abcdefghij", ixSt, 3) == Success(3)
  {
    var p := "abcdefghij";
    assert Coarse(CharWidths, 4, p, ixSt, 8) == 8;
    assert Coarse(CharWidths, 4, p, ixSt, 3) == 8;
    assert Fine(CharWidths, 4, p, ixSt, 4) == Success(4);
    assert Fine(CharWidths, 4, p, ixSt, 3) == Success(4);
  }

  /** The last pass: the coarse probe cannot move and the fine probe starts at -2. */
  lemma CarriedLastPass()
    ensures FragmentLength(CharWidths, 4, "abcdefghij", 9, 3) == Failure(ArgumentOutOfRange)
  {
    assert Coarse(CharWidths, 4, "abcdefghij", 9, 3) == 3;
  }

  /** An ordinary over-wide line can make the loop run forever too. With one
      pixel per character and a budget of 10, the fifteen letters
      `abcdefghijklmno` are cut into `abcdefghi` and `jklmn`. The length 5
      carried into the third pass then steps back to an empty fragment. The
      fourth pass starts from length 0, cuts nothing again, and the last
      letter is never written. */
  lemma TailDiverges()
    ensures Fragments(CharWidths, 10, "abcdefghijklmno", 0, 5)
         == Wrapped(["abcdefghi", "jklmn", ""], Fail(Diverges))
  {
    var p := "abcdefghijklmno";
    TailFirstPass();
    TailSecondPass();
    TailEmptyPasses();
    assert Fragments(CharWidths, 10, p, 14, 0) == Wrapped([], Fail(Diverges));
    assert p[14..14] == "" && p[9..14] == "jklmn" && p[0..9] == "abcdefghi";
    assert Fragments(CharWidths, 10, p, 14, 5) == Wrapped([""], Fail(Diverges));
    assert Fragments(CharWidths, 10, p, 9, 9) == Wrapped(["jklmn", ""], Fail(Diverges));
  }

  /** The first pass of the scenario above cuts nine characters. */
  lemma TailFirstPass()
    ensures FragmentLength(CharWidths, 10, "abcdefghijklmno", 0, 5) == Success(9)
  {
    var p := "abcdefghijklmno";
    assert Coarse(CharWidths, 10, p, 0, 10) == 10;
    assert Coarse(CharWidths, 10, p, 0, 5) == 10;
    assert Fine(CharWidths, 10, p, 0, 10) == Success(10);
    assert Fine(CharWidths, 10, p, 0, 8) == Success(10);
    assert Fine(CharWidths, 10, p, 0, 6) == Success(10);
    assert Fine(CharWidths, 10, p, 0, 5) == Success(10);
  }

  /** The second pass, from the carried length 9, cuts five characters. */
  lemma TailSecondPass()
    ensures FragmentLength(CharWidths, 10, "abcdefghijklmno", 9, 9) == Success(5)
  {
    var p := "abcdefghijklmno";
    assert Coarse(CharWidths, 10, p, 9, 9) == 9;
    assert Fine(CharWidths, 10, p, 9, 6) == Success(6);
    assert Fine(CharWidths, 10, p, 9, 4) == Success(6);
  }

  /** From the last letter, with the carried length 5 or with 0, a pass cuts nothing. */
  lemma TailEmptyPasses()
    ensures FragmentLength(CharWidths, 10, "abcdefghijklmno", 14, 5) == Success(0)
    ensures FragmentLength(CharWidths, 10, "abcdefghijklmno", 14, 0) == Success(0)
  {
    var p := "abcdefghijklmno";
    assert Coarse(CharWidths, 10, p, 14, 5) == 5;
    assert Coarse(CharWidths, 10, p, 14, 0) == 5;
    assert Fine(CharWidths, 10, p, 14, 1) == Success(1);
    assert Fine(CharWidths, 10, p, 14, 0) == Success(1);
  }

  /** A measure under which every character is wider than any console line. */
  function WideGlyphs(s: string): Extent
  {
    Extent(300 * |s|, 1)
  }

  /** When one character is already too wide, the first pass cuts the empty
      fragment and the second starts with length 0 and cuts it again: the C#
      loop runs forever, handing `""` to the line queue each time. */
  lemma WideGlyphDiverges()
    ensures Fragments(WideGlyphs, 238, "ab", 0, 5) == Wrapped([""], Fail(Diverges))
  {
    assert FragmentLength(WideGlyphs, 238, "ab", 0, 5) == Success(0);
    assert FragmentLength(WideGlyphs, 238, "ab", 0, 0) == Success(0);
  }
}
