/** The piecewise-linear emitter, stated over values: for each bit of a
    signal, one `V<name> <name> 0 pwl(...)` directive whose segments record
    the first level and then only the real level changes along the timeline. */
module Pwl {
  import opened Base
  import opened Text
  import opened Bits
  import opened Timelines
  import opened Signals

  /** The rise/fall parameters passed to the emitter. */
  datatype RiseFall = RiseFall(trf: int, tcrf: int)

  /** Time rendering, left abstract: `time(t)` is the text written for tick
      `t` converted to nanoseconds, `timePlus(t, p)` the text written for the
      sum of that time and the parameter named `p`. */
  datatype Formatter = Formatter(time: int -> string, timePlus: (int, string) -> string)

  /** Supply-rail token for a bit. */
  function Level(b: Bit): string
  {
    if b != 0 then "vvdd" else "0"
  }

  /** The cursor value before the first timeline entry. */
  const NoLevel := "na"

  /** Rise/fall parameter chosen for a signal: `tcrf` for `CLK` only. */
  function RiseFallName(name: string): (p: string)
    ensures p == "tcrf" <==> name == "CLK"
    ensures p == "trf" <==> name != "CLK"
  {
    if name == "CLK" then "tcrf" else "trf"
  }

  /** `expr.get(p)`. */
  function RiseFallValue(expr: RiseFall, p: string): int
  {
    if p == "tcrf" then expr.tcrf else expr.trf
  }

  datatype Segment =
    | Initial(level: string)                                   // "0 <level>\n+"
    | Step(tick: int, level: string)                           // "'<t>' <level> "
    | Ramp(tick: int, from: string, param: string, level: string) // "'<t>' <from> '<t+param>' <level> "

  /** The segment for a level change at `tick`. As written, the ramp form is
      chosen when the selected parameter's value is zero and the step form
      otherwise. */
  function Transition(name: string, expr: RiseFall, tick: int, prev: string, cur: string): (r: Segment)
    ensures !r.Initial? && r.tick == tick && r.level == cur
    ensures r.Ramp? <==> RiseFallValue(expr, RiseFallName(name)) == 0
    ensures r.Ramp? ==> r.from == prev && r.param == RiseFallName(name)
  {
    var p := RiseFallName(name);
    if RiseFallValue(expr, p) == 0 then Ramp(tick, prev, p, cur) else Step(tick, cur)
  }

  /** Every vector of the timeline has bit position `m`. */
  predicate Covers(tl: Timeline, m: nat)
  {
    forall e :: e in tl ==> m < |e.bits|
  }

  function LevelAt(e: Entry, m: nat): string
    requires m < |e.bits|
  {
    Level(e.bits[m])
  }

  /** The `_prev` cursor after walking `tl`. */
  function PrevLevel(tl: Timeline, m: nat): string
    requires Covers(tl, m)
  {
    if tl == [] then NoLevel else LevelAt(tl[|tl| - 1], m)
  }

  /** What one timeline entry contributes, given the cursor before it. */
  function SegmentFor(name: string, expr: RiseFall, tick: int, prev: string, cur: string): seq<Segment>
  {
    if prev == NoLevel then [Initial(cur)]
    else if prev != cur then [Transition(name, expr, tick, prev, cur)]
    else []
  }

  /** The segments of bit `m` for the timeline `tl`, in timeline order. */
  function Segments(name: string, expr: RiseFall, tl: Timeline, m: nat): (r: seq<Segment>)
    requires Covers(tl, m)
    ensures |r| <= |tl|
    decreases |tl|
  {
    if tl == [] then []
    else
      var init := tl[..|tl| - 1];
      assert forall e :: e in init ==> e in tl;
      Segments(name, expr, init, m)
        + SegmentFor(name, expr, tl[|tl| - 1].tick, PrevLevel(init, m), LevelAt(tl[|tl| - 1], m))
  }

  /** The levels of bit `m` along the timeline. */
  function Levels(tl: Timeline, m: nat): (ls: seq<string>)
    requires Covers(tl, m)
    ensures |ls| == |tl|
  {
    seq(|tl|, i requires 0 <= i < |tl| => LevelAt(tl[i], m))
  }

  /** Number of positions whose level differs from the one before it. */
  function Changes(ls: seq<string>): nat
  {
    if |ls| <= 1 then 0
    else Changes(ls[..|ls| - 1]) + (if ls[|ls| - 1] != ls[|ls| - 2] then 1 else 0)
  }

  /** The positions, in increasing order, whose level differs from the one
      before it. */
  function ChangePositions(ls: seq<string>): (r: seq<nat>)
    ensures forall j :: 0 <= j < |r| ==> 0 < r[j] < |ls|
    ensures forall j, j' :: 0 <= j < j' < |r| ==> r[j] < r[j']
  {
    if |ls| <= 1 then []
    else ChangePositions(ls[..|ls| - 1]) + (if ls[|ls| - 1] != ls[|ls| - 2] then [|ls| - 1] else [])
  }

  function Render(s: Segment, fmt: Formatter): string
  {
    match s
    case Initial(l) => "0 " + l + "\n+"
    case Step(t, l) => "'" + fmt.time(t) + "' " + l + " "
    case Ramp(t, p, param, l) => "'" + fmt.time(t) + "' " + p + " '" + fmt.timePlus(t, param) + "' " + l + " "
  }

  function RenderAll(segs: seq<Segment>, fmt: Formatter): string
  {
    if segs == [] then "" else RenderAll(segs[..|segs| - 1], fmt) + Render(segs[|segs| - 1], fmt)
  }

  /** Name of the directive for vector position `m` (position 0 is the most
      significant bit): `name[width-1-m]` for a bus, `name` otherwise. */
  function PwlName(name: string, width: nat, m: nat): (r: string)
    requires m < width
    ensures |r| >= |name| && r[..|name|] == name
    ensures width == 1 ==> r == name
    ensures width > 1 ==> |r| > |name| + 2 && r[|name|] == '[' && r[|r| - 1] == ']'
    ensures width > 1 ==> ParseInt(r[|name| + 1..|r| - 1]) == Some(width - 1 - m)
  {
    if width > 1 then
      var index := NatToDecimal(width - 1 - m);
      var r := name + "[" + index + "]";
      assert r[|name| + 1..|r| - 1] == index;
      ParseDecimal(width - 1 - m);
      r
    else name
  }

  function Header(n: string): string
  {
    "V" + n + " " + n + " 0 pwl("
  }

  /** The directive for vector position `m` of a signal. */
  function Directive(s: Signal, expr: RiseFall, fmt: Formatter, m: nat): (r: string)
    requires Wf(s) && m < |s.data|
    ensures var h := Header(PwlName(s.decl.name, s.decl.width, m));
      |r| >= |h| + 3 && r[..|h|] == h && r[|r| - 3..] == ")\n\n"
  {
    Header(PwlName(s.decl.name, s.decl.width, m))
      + RenderAll(Segments(s.decl.name, expr, s.timing, m), fmt) + ")\n\n"
  }

  /** The directives of the first `k` vector positions, in order. */
  function Directives(s: Signal, expr: RiseFall, fmt: Formatter, k: nat): (r: string)
    requires Wf(s) && k <= |s.data|
    ensures r == "" <==> k == 0
  {
    if k == 0 then "" else Directives(s, expr, fmt, k - 1) + Directive(s, expr, fmt, k - 1)
  }

  /** One more vector position appends its directive. */
  lemma DirectivesStep(s: Signal, expr: RiseFall, fmt: Formatter, m: nat)
    requires Wf(s) && m < |s.data|
    ensures Directives(s, expr, fmt, m + 1) == Directives(s, expr, fmt, m) + Directive(s, expr, fmt, m)
  {
  }

  /** `generate_piecewise_linear`: nothing for a signal that saw x/z, and
      otherwise one directive per vector position. */
  function SignalText(s: Signal, expr: RiseFall, fmt: Formatter): (r: string)
    requires Wf(s)
    ensures !s.safe ==> r == ""
  {
    if !s.safe then "" else Directives(s, expr, fmt, |s.data|)
  }

  /** `Module.export_pwl` over the first `k` identifiers: each signal's text
      followed by a newline, in declaration order. */
  function ScopeTextUpTo(sc: Scope, expr: RiseFall, fmt: Formatter, k: nat): (r: string)
    requires ScopeWf(sc) && k <= |sc.ids|
    ensures |r| >= k && (k > 0 ==> r[|r| - 1] == '\n')
  {
    if k == 0 then ""
    else
      assert sc.ids[k - 1] in sc.ids;
      ScopeTextUpTo(sc, expr, fmt, k - 1) + SignalText(sc.vars[sc.ids[k - 1]], expr, fmt) + "\n"
  }

  lemma ScopeTextStep(sc: Scope, expr: RiseFall, fmt: Formatter, k: nat)
    requires ScopeWf(sc) && k < |sc.ids|
    ensures sc.ids[k] in sc.vars
    ensures ScopeTextUpTo(sc, expr, fmt, k + 1) == ScopeTextUpTo(sc, expr, fmt, k) + SignalText(sc.vars[sc.ids[k]], expr, fmt) + "\n"
  {
    assert sc.ids[k] in sc.ids;
  }

  /** `Module.export_pwl`: one newline-terminated block per identifier, and
      nothing for a scope without signals. */
  function ScopeText(sc: Scope, expr: RiseFall, fmt: Formatter): (r: string)
    requires ScopeWf(sc)
    ensures |r| >= |sc.ids|
    ensures sc.ids == [] <==> r == ""
    ensures r != "" ==> r[|r| - 1] == '\n'
  {
    ScopeTextUpTo(sc, expr, fmt, |sc.ids|)
  }

  lemma LevelsPrefix(tl: Timeline, m: nat)
    requires Covers(tl, m) && tl != []
    ensures Covers(tl[..|tl| - 1], m)
    ensures Levels(tl[..|tl| - 1], m) == Levels(tl, m)[..|tl| - 1]
  {
    assert forall e :: e in tl[..|tl| - 1] ==> e in tl;
  }

  /** Walking one more timeline entry appends that entry's contribution. */
  lemma SegmentsStep(name: string, expr: RiseFall, tl: Timeline, k: nat, m: nat)
    requires Covers(tl, m) && k < |tl|
    ensures Covers(tl[..k], m) && Covers(tl[..k + 1], m)
    ensures Segments(name, expr, tl[..k + 1], m)
            == Segments(name, expr, tl[..k], m)
               + SegmentFor(name, expr, tl[k].tick, PrevLevel(tl[..k], m), LevelAt(tl[k], m))
  {
    assert forall e :: e in tl[..k + 1] ==> e in tl;
    assert forall e :: e in tl[..k] ==> e in tl;
    assert tl[..k + 1][..k] == tl[..k];
  }

  lemma RenderAllAppend(a: seq<Segment>, b: seq<Segment>, fmt: Formatter)
    requires |b| <= 1
    ensures RenderAll(a + b, fmt) == RenderAll(a, fmt) + RenderAll(b, fmt)
  {
    if b == [] {
      assert a + b == a;
    } else {
      var ab := a + b;
      assert ab[..|ab| - 1] == a && ab[|ab| - 1] == b[0];
      assert b[..0] == [];
      var rb := Render(b[0], fmt);
      assert RenderAll(b, fmt) == "" + rb;
      assert "" + rb == rb;
    }
  }

  lemma RenderOne(segs: seq<Segment>, fmt: Formatter)
    requires |segs| <= 1
    ensures RenderAll(segs, fmt) == if segs == [] then "" else Render(segs[0], fmt)
  {
    if segs != [] {
      assert segs[..0] == [];
      assert "" + Render(segs[0], fmt) == Render(segs[0], fmt);
    }
  }

  /** Appending the contribution of entry `k` to the text of the first `k`
      entries gives the text of the first `k + 1`. */
  lemma DirectiveStep(name: string, expr: RiseFall, fmt: Formatter, tl: Timeline, k: nat, m: nat,
                      head: string, line: string, chunk: string)
    requires Covers(tl, m) && k < |tl|
    requires Covers(tl[..k], m)
    requires line == head + RenderAll(Segments(name, expr, tl[..k], m), fmt)
    requires chunk == RenderAll(SegmentFor(name, expr, tl[k].tick, PrevLevel(tl[..k], m), LevelAt(tl[k], m)), fmt)
    ensures Covers(tl[..k + 1], m)
    ensures line + chunk == head + RenderAll(Segments(name, expr, tl[..k + 1], m), fmt)
  {
    SegmentsStep(name, expr, tl, k, m);
    var before := Segments(name, expr, tl[..k], m);
    var added := SegmentFor(name, expr, tl[k].tick, PrevLevel(tl[..k], m), LevelAt(tl[k], m));
    RenderAllAppend(before, added, fmt);
    AppendAssoc(head, RenderAll(before, fmt), chunk);
  }

  /** The directive for position `m` once the first `k` timeline entries
      are walked, before the closing parenthesis. */
  function DirectiveUpTo(s: Signal, expr: RiseFall, fmt: Formatter, m: nat, k: nat): string
    requires Wf(s) && m < |s.data| && k <= |s.timing|
  {
    assert Covers(s.timing[..k], m) by {
      assert forall e :: e in s.timing[..k] ==> e in s.timing;
    }
    Header(PwlName(s.decl.name, s.decl.width, m)) + RenderAll(Segments(s.decl.name, expr, s.timing[..k], m), fmt)
  }

  /** The `_prev` cursor once the first `k` entries are walked. */
  function PrevAt(s: Signal, m: nat, k: nat): string
    requires Wf(s) && m < |s.data| && k <= |s.timing|
  {
    if k == 0 then NoLevel
    else
      assert s.timing[k - 1] in s.timing;
      LevelAt(s.timing[k - 1], m)
  }

  lemma DirectiveUpToStart(s: Signal, expr: RiseFall, fmt: Formatter, m: nat)
    requires Wf(s) && m < |s.data|
    ensures DirectiveUpTo(s, expr, fmt, m, 0) == Header(PwlName(s.decl.name, s.decl.width, m))
  {
    assert s.timing[..0] == [];
  }

  /** Walking entry `k` appends its contribution and moves the cursor to
      its level. */
  lemma DirectiveUpToStep(s: Signal, expr: RiseFall, fmt: Formatter, m: nat, k: nat)
    requires Wf(s) && m < |s.data| && k < |s.timing|
    ensures m < |s.timing[k].bits|
    ensures DirectiveUpTo(s, expr, fmt, m, k + 1)
            == DirectiveUpTo(s, expr, fmt, m, k)
               + RenderAll(SegmentFor(s.decl.name, expr, s.timing[k].tick, PrevAt(s, m, k), Level(s.timing[k].bits[m])), fmt)
    ensures PrevAt(s, m, k + 1) == Level(s.timing[k].bits[m])
  {
    var tl := s.timing;
    assert tl[k] in tl;
    assert Covers(tl, m);
    assert k > 0 ==> tl[..k][k - 1] == tl[k - 1];
    SegmentsStep(s.decl.name, expr, tl, k, m);
    DirectiveStep(s.decl.name, expr, fmt, tl, k, m, Header(PwlName(s.decl.name, s.decl.width, m)),
                  DirectiveUpTo(s, expr, fmt, m, k),
                  RenderAll(SegmentFor(s.decl.name, expr, tl[k].tick, PrevAt(s, m, k), Level(tl[k].bits[m])), fmt));
  }

  lemma DirectiveUpToEnd(s: Signal, expr: RiseFall, fmt: Formatter, m: nat)
    requires Wf(s) && m < |s.data|
    ensures DirectiveUpTo(s, expr, fmt, m, |s.timing|) + ")\n\n" == Directive(s, expr, fmt, m)
  {
    assert s.timing[..|s.timing|] == s.timing;
  }

  /** The text appended for one entry, as the loop spells it out, is the
      rendering of that entry's contribution. */
  lemma ChunkRendersSegment(name: string, expr: RiseFall, fmt: Formatter, tick: int,
                            prev: string, cur: string, chunk: string)
    requires prev == NoLevel ==> chunk == "0 " + cur + "\n+"
    requires prev != NoLevel && prev == cur ==> chunk == ""
    requires prev != NoLevel && prev != cur ==>
      var p := if name == "CLK" then "tcrf" else "trf";
      chunk == if RiseFallValue(expr, p) == 0
               then "'" + fmt.time(tick) + "' " + prev + " '" + fmt.timePlus(tick, p) + "' " + cur + " "
               else "'" + fmt.time(tick) + "' " + cur + " "
    ensures chunk == RenderAll(SegmentFor(name, expr, tick, prev, cur), fmt)
  {
    var added := SegmentFor(name, expr, tick, prev, cur);
    RenderOne(added, fmt);
  }

  lemma LevelIsReal(b: Bit)
    ensures Level(b) != NoLevel
  {
  }

  /** Transition compression: one segment for the first entry and one per
      level change; none at all for an empty timeline. */
  lemma {:induction false} SegmentCount(name: string, expr: RiseFall, tl: Timeline, m: nat)
    requires Covers(tl, m)
    ensures |Segments(name, expr, tl, m)| == if tl == [] then 0 else 1 + Changes(Levels(tl, m))
    decreases |tl|
  {
    if tl != [] {
      var n := |tl|;
      var init := tl[..n - 1];
      LevelsPrefix(tl, m);
      SegmentCount(name, expr, init, m);
      LevelIsReal(tl[n - 1].bits[m]);
      if init != [] {
        LevelIsReal(init[n - 2].bits[m]);
        var ls := Levels(tl, m);
        assert ls[..n - 1] == Levels(init, m);
        assert PrevLevel(init, m) == ls[n - 2];
      }
    }
  }

  /** Segment `k` (not the first) follows the rules for a level change. */
  predicate LaterSegmentOk(segs: seq<Segment>, k: nat, name: string, expr: RiseFall)
    requires 0 < k < |segs|
  {
    && !segs[k].Initial?
    && segs[k].level != segs[k - 1].level
    && (segs[k].Ramp? <==> RiseFallValue(expr, RiseFallName(name)) == 0)
    && (segs[k].Ramp? ==> segs[k].from == segs[k - 1].level && segs[k].param == RiseFallName(name))
  }

  /** First and last segments of a bit: the first is `Initial` with the first
      level, and the last ends on the final cursor value. */
  lemma {:induction false} SegmentsEnds(name: string, expr: RiseFall, tl: Timeline, m: nat)
    requires Covers(tl, m)
    ensures var segs := Segments(name, expr, tl, m);
      && (tl == [] <==> segs == [])
      && (segs != [] ==> segs[0] == Initial(LevelAt(tl[0], m)) && segs[|segs| - 1].level == PrevLevel(tl, m))
  {
    if tl != [] {
      SegmentsFirst(name, expr, tl, m);
      SegmentsLast(name, expr, tl, m);
    }
  }

  /** A one-entry timeline gives just the `Initial` segment. */
  lemma SegmentsSingle(name: string, expr: RiseFall, tl: Timeline, m: nat)
    requires Covers(tl, m) && |tl| == 1
    ensures Segments(name, expr, tl, m) == [Initial(LevelAt(tl[0], m))]
  {
    assert tl[..0] == [];
  }

  lemma {:induction false} SegmentsFirst(name: string, expr: RiseFall, tl: Timeline, m: nat)
    requires Covers(tl, m) && tl != []
    ensures Segments(name, expr, tl, m) != []
    ensures Segments(name, expr, tl, m)[0] == Initial(LevelAt(tl[0], m))
    decreases |tl|
  {
    var n := |tl|;
    if n == 1 {
      SegmentsSingle(name, expr, tl, m);
    } else {
      var init := tl[..n - 1];
      assert Covers(init, m) by {
        assert forall e :: e in init ==> e in tl;
      }
      SegmentsFirst(name, expr, init, m);
      var s0 := Segments(name, expr, init, m);
      var extra := SegmentFor(name, expr, tl[n - 1].tick, PrevLevel(init, m), LevelAt(tl[n - 1], m));
      assert Segments(name, expr, tl, m) == s0 + extra;
      assert init[0] == tl[0];
    }
  }

  lemma {:induction false} SegmentsLast(name: string, expr: RiseFall, tl: Timeline, m: nat)
    requires Covers(tl, m) && tl != []
    ensures Segments(name, expr, tl, m) != []
    ensures Segments(name, expr, tl, m)[|Segments(name, expr, tl, m)| - 1].level == PrevLevel(tl, m)
    decreases |tl|
  {
    var n := |tl|;
    if n == 1 {
      SegmentsSingle(name, expr, tl, m);
    } else {
      var init := tl[..n - 1];
      assert Covers(init, m) by {
        assert forall e :: e in init ==> e in tl;
      }
      SegmentsLast(name, expr, init, m);
      var s0 := Segments(name, expr, init, m);
      var prev, cur := PrevLevel(init, m), LevelAt(tl[n - 1], m);
      LevelIsReal(init[n - 2].bits[m]);
      if prev == cur {
        assert Segments(name, expr, tl, m) == s0;
      } else {
        assert Segments(name, expr, tl, m) == s0 + [Transition(name, expr, tl[n - 1].tick, prev, cur)];
      }
    }
  }

  /** Every later segment of a bit is a real change: it is never `Initial`,
      it starts from the previous segment's level and ends on a different one,
      and it is a ramp over the parameter `RiseFallName(name)` exactly when
      that parameter's value is zero (the step form otherwise). */
  lemma {:induction false} SegmentsChange(name: string, expr: RiseFall, tl: Timeline, m: nat)
    requires Covers(tl, m)
    ensures var segs := Segments(name, expr, tl, m);
      forall k :: 0 < k < |segs| ==> LaterSegmentOk(segs, k, name, expr)
    decreases |tl|
  {
    var n := |tl|;
    if n > 1 {
      var init := tl[..n - 1];
      SegmentsUnfold(name, expr, tl, m);
      var s0 := Segments(name, expr, init, m);
      var prev, cur := PrevLevel(init, m), LevelAt(tl[n - 1], m);
      SegmentsChange(name, expr, init, m);
      assert s0 != [] && s0[|s0| - 1].level == prev by {
        SegmentsLast(name, expr, init, m);
      }
      LevelIsReal(init[n - 2].bits[m]);
      if prev == cur {
        assert SegmentFor(name, expr, tl[n - 1].tick, prev, cur) == [];
        assert Segments(name, expr, tl, m) == s0 + [] == s0;
      } else {
        var seg := Transition(name, expr, tl[n - 1].tick, prev, cur);
        assert SegmentFor(name, expr, tl[n - 1].tick, prev, cur) == [seg];
        assert Segments(name, expr, tl, m) == s0 + [seg];
        LaterAppend(s0, seg, name, expr);
      }
    }
  }

  /** A real change appended after well-formed segments keeps them so. */
  lemma LaterAppend(s0: seq<Segment>, seg: Segment, name: string, expr: RiseFall)
    requires s0 != [] && forall k :: 0 < k < |s0| ==> LaterSegmentOk(s0, k, name, expr)
    requires !seg.Initial? && seg.level != s0[|s0| - 1].level
    requires seg.Ramp? <==> RiseFallValue(expr, RiseFallName(name)) == 0
    requires seg.Ramp? ==> seg.from == s0[|s0| - 1].level && seg.param == RiseFallName(name)
    ensures forall k :: 0 < k < |s0| + 1 ==> LaterSegmentOk(s0 + [seg], k, name, expr)
  {
    var segs := s0 + [seg];
    forall k | 0 < k < |segs|
      ensures LaterSegmentOk(segs, k, name, expr)
    {
      if k < |s0| {
        assert LaterSegmentOk(s0, k, name, expr);
      }
    }
  }

  /** One more level appends its position when it differs from the last. */
  lemma ChangePositionsStep(ls: seq<string>)
    requires |ls| > 1
    ensures ChangePositions(ls)
            == ChangePositions(ls[..|ls| - 1]) + (if ls[|ls| - 1] != ls[|ls| - 2] then [|ls| - 1] else [])
  {
  }

  /** Exactly the positions where the level changes are listed. */
  lemma {:induction false} ChangePositionsCount(ls: seq<string>)
    ensures |ChangePositions(ls)| == Changes(ls)
    decreases |ls|
  {
    if |ls| > 1 {
      ChangePositionsCount(ls[..|ls| - 1]);
    }
  }

  lemma {:induction false} ChangePositionsComplete(ls: seq<string>)
    ensures forall i :: 0 < i < |ls| ==> (i in ChangePositions(ls) <==> ls[i] != ls[i - 1])
    decreases |ls|
  {
    var n := |ls|;
    if n > 1 {
      var init := ls[..n - 1];
      ChangePositionsComplete(init);
      var p0 := ChangePositions(init);
      forall i | 0 < i < n
        ensures i in ChangePositions(ls) <==> ls[i] != ls[i - 1]
      {
        if i < n - 1 {
          assert init[i] == ls[i] && init[i - 1] == ls[i - 1];
          assert i in ChangePositions(ls) <==> i in p0;
        } else {
          assert n - 1 !in p0;
        }
      }
    }
  }

  /** Segment `k` after the first belongs to the change at position
      `pos[k-1]`: it carries that entry's tick and ends on its level, which
      differs from the level before it. */
  predicate StampOk(segs: seq<Segment>, tl: Timeline, ls: seq<string>, pos: seq<nat>, k: nat)
    requires 0 < k < |segs| && |segs| == |pos| + 1 && |ls| == |tl|
  {
    && 0 < pos[k - 1] < |tl|
    && !segs[k].Initial?
    && segs[k].tick == tl[pos[k - 1]].tick
    && segs[k].level == ls[pos[k - 1]]
    && ls[pos[k - 1] - 1] != ls[pos[k - 1]]
  }

  /** Every segment after the first is stamped by its change position. */
  predicate Stamped(segs: seq<Segment>, tl: Timeline, ls: seq<string>, pos: seq<nat>)
  {
    && |ls| == |tl| && |segs| == |pos| + 1
    && forall k :: 0 < k < |segs| ==> StampOk(segs, tl, ls, pos, k)
  }

  /** An entry that keeps the level adds no segment. */
  lemma StampedKeep(s0: seq<Segment>, tl: Timeline, ls: seq<string>, p0: seq<nat>)
    requires |tl| == |ls| > 1 && Stamped(s0, tl[..|tl| - 1], ls[..|ls| - 1], p0)
    ensures Stamped(s0, tl, ls, p0)
  {
    var n := |tl|;
    forall k | 0 < k < |s0|
      ensures StampOk(s0, tl, ls, p0, k)
    {
      assert StampOk(s0, tl[..n - 1], ls[..n - 1], p0, k);
      var i := p0[k - 1];
      assert tl[..n - 1][i] == tl[i];
      assert ls[..n - 1][i] == ls[i] && ls[..n - 1][i - 1] == ls[i - 1];
    }
  }

  /** An entry that changes the level adds one segment stamped with it. */
  lemma StampedAdd(s0: seq<Segment>, tl: Timeline, ls: seq<string>, p0: seq<nat>, seg: Segment)
    requires |tl| == |ls| > 1 && Stamped(s0, tl[..|tl| - 1], ls[..|ls| - 1], p0)
    requires !seg.Initial? && seg.tick == tl[|tl| - 1].tick && seg.level == ls[|ls| - 1]
    requires ls[|ls| - 2] != ls[|ls| - 1]
    ensures Stamped(s0 + [seg], tl, ls, p0 + [|tl| - 1])
  {
    var n := |tl|;
    StampedKeep(s0, tl, ls, p0);
    var segs, pos := s0 + [seg], p0 + [n - 1];
    forall k | 0 < k < |segs|
      ensures StampOk(segs, tl, ls, pos, k)
    {
      if k < |s0| {
        assert StampOk(s0, tl, ls, p0, k);
        assert segs[k] == s0[k] && pos[k - 1] == p0[k - 1];
      }
    }
  }

  /** When the later segments happen: segment `k` (after the first) is
      stamped with the tick of the `k`-th entry at which the level changes,
      and ends on that entry's level. */
  lemma {:induction false} SegmentTimes(name: string, expr: RiseFall, tl: Timeline, m: nat)
    requires Covers(tl, m) && tl != []
    ensures Stamped(Segments(name, expr, tl, m), tl, Levels(tl, m), ChangePositions(Levels(tl, m)))
    decreases |tl|
  {
    var n := |tl|;
    var ls := Levels(tl, m);
    if n == 1 {
      assert Segments(name, expr, tl, m) == [Initial(LevelAt(tl[0], m))] by {
        assert tl[..0] == [];
      }
    } else {
      var init := tl[..n - 1];
      LevelsPrefix(tl, m);
      SegmentTimes(name, expr, init, m);
      var s0, p0 := Segments(name, expr, init, m), ChangePositions(ls[..n - 1]);
      ChangePositionsStep(ls);
      var prev, cur := PrevLevel(init, m), LevelAt(tl[n - 1], m);
      assert prev == ls[n - 2] && cur == ls[n - 1];
      LevelIsReal(init[n - 2].bits[m]);
      SegmentsUnfold(name, expr, tl, m);
      if prev == cur {
        assert SegmentFor(name, expr, tl[n - 1].tick, prev, cur) == [];
        assert Segments(name, expr, tl, m) == s0 + [] == s0;
        assert ChangePositions(ls) == p0 + [] == p0;
        StampedKeep(s0, tl, ls, p0);
      } else {
        var seg := Transition(name, expr, tl[n - 1].tick, prev, cur);
        assert SegmentFor(name, expr, tl[n - 1].tick, prev, cur) == [seg];
        assert Segments(name, expr, tl, m) == s0 + [seg];
        assert ChangePositions(ls) == p0 + [n - 1];
        assert Stamped(s0, tl[..|tl| - 1], ls[..|ls| - 1], p0);
        assert !seg.Initial? && seg.tick == tl[|tl| - 1].tick;
        assert seg.level == ls[|ls| - 1];
        assert ls[|ls| - 2] != ls[|ls| - 1];
        StampedAdd(s0, tl, ls, p0, seg);
      }
    }
  }

  /** The last entry of a timeline contributes after all the others. */
  lemma SegmentsUnfold(name: string, expr: RiseFall, tl: Timeline, m: nat)
    requires Covers(tl, m) && tl != []
    ensures Covers(tl[..|tl| - 1], m)
    ensures Segments(name, expr, tl, m)
            == Segments(name, expr, tl[..|tl| - 1], m)
               + SegmentFor(name, expr, tl[|tl| - 1].tick, PrevLevel(tl[..|tl| - 1], m), LevelAt(tl[|tl| - 1], m))
  {
    assert forall e :: e in tl[..|tl| - 1] ==> e in tl;
  }

  /** The bit names of a bus are pairwise different. */
  lemma BusNamesDistinct(name: string, width: nat, a: nat, b: nat)
    requires width > 1 && a < width && b < width && a != b
    ensures PwlName(name, width, a) != PwlName(name, width, b)
  {
  }
}
