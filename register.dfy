/** A declared signal as a mutable object: its declaration is fixed, while
    the last written vector, the timeline and the export-safe flag are
    updated in place as value changes arrive. */
module Registers {
  import opened Base
  import opened Text
  import opened Bits
  import opened Timelines
  import opened Signals
  import opened Pwl

  class Register {
    const kind: Kind
    const name: string
    const width: nat
    const dim: nat
    var data: seq<Bit>
    var timing: Timeline
    var exportPwlSafe: bool

    function Declaration(): Decl
    {
      Decl(kind, name, width, dim)
    }

    /** The signal this object currently holds. */
    function Value(): Signal
      reads this
    {
      Signal(Declaration(), data, timing, exportPwlSafe)
    }

    ghost predicate Valid()
      reads this
    {
      Wf(Value())
    }

    /** A new register or wire of the given width: all-zero vector, empty
        timeline, safe to export. */
    constructor (kind: Kind, name: string, width: nat)
      ensures Value() == Declared(Decl(kind, name, width, 0)) && Valid()
    {
      this.kind := kind;
      this.name := name;
      this.width := width;
      this.dim := 0;
      data := Zeros(width);
      timing := [];
      exportPwlSafe := true;
    }

    /** `int2bit_array`: fails exactly when the value needs more than `width`
        bits; otherwise fills a zeroed buffer so that position `width-1-i`
        holds bit `i` of the value. */
    method Int2BitArray(value: int) returns (r: Result<seq<Bit>>)
      ensures r == Encode(value, width)
    {
      if BitLength(value) > width {
        return Err(ValueTooWide(value, width));
      }
      var bits := new Bit[width](_ => 0);
      for i := 0 to width
        invariant forall j :: 0 <= j < i ==> bits[width - 1 - j] == BitAt(value, j)
      {
        bits[width - 1 - i] := BitAt(value, i);
      }
      forall p | 0 <= p < width
        ensures bits[..][p] == ToBits(value, width)[p]
      {
        ToBitsAt(value, width, width - 1 - p);
      }
      assert bits[..] == ToBits(value, width);
      r := Ok(bits[..]);
    }

    /** `update(t, value)`: on success the entry for `t` and the last written
        vector become the encoding of `value` (see `Signals.Updated`); a value
        that is too wide changes nothing. */
    method Update(t: int, value: int) returns (r: Result<()>)
      modifies this
      ensures r.Err? <==> BitLength(value) > width
      ensures match Updated(old(Value()), t, value)
              case Ok(s) => r == Ok(()) && Value() == s
              case Err(f) => r == Err(f) && unchanged(this)
    {
      var bits := Int2BitArray(value);
      if bits.Err? {
        return Err(bits.fault);
      }
      timing := Put(timing, t, bits.value);
      data := bits.value;
      r := Ok(());
    }

    /** `tag(x_state)`: the flag becomes `not x_state`. */
    method Tag(xState: bool)
      modifies this
      ensures Value() == Tagged(old(Value()), xState)
    {
      exportPwlSafe := !xState;
    }

    /** `generate_piecewise_linear`: nothing for a signal tagged unsafe;
        otherwise one directive per vector position, most significant first.
        Each directive is built by walking the timeline with the `_prev`
        cursor and appending a segment only for the first entry and for
        entries whose level differs from the previous one. */
    method GeneratePiecewiseLinear(expr: RiseFall, fmt: Formatter) returns (lines: string)
      requires Valid()
      ensures lines == SignalText(Value(), expr, fmt)
    {
      if !exportPwlSafe {
        return "";
      }
      ghost var s := Value();
      lines := "";
      var m := 0;
      while m < |data|
        invariant 0 <= m <= |data|
        invariant lines == Directives(s, expr, fmt, m)
      {
        var line := DirectiveLine(expr, fmt, m);
        DirectivesStep(s, expr, fmt, m);
        lines := lines + line;
        m := m + 1;
      }
    }

    /** The directive for vector position `m`, built by walking the timeline
        with the `_prev` cursor: a segment for the first entry and for every
        entry whose level differs from the previous one. */
    method DirectiveLine(expr: RiseFall, fmt: Formatter, m: nat) returns (line: string)
      requires Valid() && m < |data|
      ensures line == Directive(Value(), expr, fmt, m)
    {
      ghost var s := Value();
      var tl := timing;
      var pwlName := if width > 1 then name + "[" + NatToDecimal(width - 1 - m) + "]" else name;
      line := "V" + pwlName + " " + pwlName + " 0 pwl(";
      assert pwlName == PwlName(name, width, m);
      DirectiveUpToStart(s, expr, fmt, m);
      var prev := NoLevel;
      var k := 0;
      while k < |tl|
        invariant 0 <= k <= |tl|
        invariant prev == PrevAt(s, m, k)
        invariant line == DirectiveUpTo(s, expr, fmt, m, k)
      {
        var e := tl[k];
        DirectiveUpToStep(s, expr, fmt, m, k);
        var cur := Level(e.bits[m]);
        var chunk := Chunk(expr, fmt, e.tick, prev, cur);
        line := line + chunk;
        prev := cur;
        k := k + 1;
      }
      DirectiveUpToEnd(s, expr, fmt, m);
      line := line + ")\n\n";
    }

    /** The text one timeline entry adds: the initial level for the first
        entry, a ramp or a step where the level changes, nothing otherwise. */
    method Chunk(expr: RiseFall, fmt: Formatter, tick: int, prev: string, cur: string) returns (chunk: string)
      ensures chunk == RenderAll(SegmentFor(name, expr, tick, prev, cur), fmt)
    {
      chunk := "";
      if prev == NoLevel {
        chunk := "0 " + cur + "\n+";
      } else if prev != cur {
        var p := if name == "CLK" then "tcrf" else "trf";
        if RiseFallValue(expr, p) == 0 {
          chunk := "'" + fmt.time(tick) + "' " + prev + " '" + fmt.timePlus(tick, p) + "' " + cur + " ";
        } else {
          chunk := "'" + fmt.time(tick) + "' " + cur + " ";
        }
      }
      ChunkRendersSegment(name, expr, fmt, tick, prev, cur, chunk);
    }
  }
}
