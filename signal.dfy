/** Values describing a declared signal and a scope, as the emitter and the
    document model see them: the declaration, the last written vector, the
    timeline and the export-safe flag. */
module Signals {
  import opened Base
  import opened Bits
  import opened Timelines

  /** A register and a wire behave alike; only the declared kind differs. */
  datatype Kind = Reg | Wire

  datatype Decl = Decl(kind: Kind, name: string, width: nat, dim: nat)

  datatype Signal = Signal(decl: Decl, data: seq<Bit>, timing: Timeline, safe: bool)

  /** A scope whose signals are exported: identifiers in declaration order. */
  datatype Scope = Scope(name: string, ids: seq<string>, vars: map<string, Signal>)

  /** A scope that is never exported; only its declarations are kept. */
  datatype ShadowScope = ShadowScope(name: string, ids: seq<string>, decls: map<string, Decl>)

  function Zeros(n: nat): (r: seq<Bit>)
    ensures |r| == n && forall i :: 0 <= i < n ==> r[i] == 0
  {
    seq(n, _ => 0)
  }

  /** A freshly declared signal: all-zero vector, empty timeline, safe. */
  function Declared(d: Decl): Signal
  {
    Signal(d, Zeros(d.width), [], true)
  }

  /** The last written vector and every timeline vector have the declared
      width, and timeline keys are unique. */
  predicate Wf(s: Signal)
  {
    |s.data| == s.decl.width && WellFormed(s.timing, s.decl.width)
  }

  ghost predicate ScopeWf(sc: Scope)
  {
    Distinct(sc.ids)
    && (forall id :: id in sc.vars <==> id in sc.ids)
    && (forall id :: id in sc.vars ==> Wf(sc.vars[id]))
  }

  ghost predicate ShadowWf(sc: ShadowScope)
  {
    Distinct(sc.ids) && forall id :: id in sc.decls <==> id in sc.ids
  }

  /** `int2bit_array`: the MSB-first vector of `v`, or the width error. */
  function Encode(v: int, width: nat): (r: Result<seq<Bit>>)
    ensures r.Err? <==> BitLength(v) > width
    ensures r.Err? ==> r.fault == ValueTooWide(v, width)
    ensures r.Ok? ==> |r.value| == width
                      && forall i :: 0 <= i < width ==> r.value[width - 1 - i] == BitAt(v, i)
  {
    if BitLength(v) > width then Err(ValueTooWide(v, width))
    else
      var bits := ToBits(v, width);
      assert forall i :: 0 <= i < width ==> bits[width - 1 - i] == BitAt(v, i) by {
        forall i | 0 <= i < width { ToBitsAt(v, width, i); }
      }
      Ok(bits)
  }

  /** `update(t, v)`: the timeline entry for `t` and the last written vector
      both become the encoding of `v`; every other key keeps its vector and
      the flag is untouched. */
  function Updated(s: Signal, t: int, v: int): (r: Result<Signal>)
    ensures r.Err? <==> BitLength(v) > s.decl.width
    ensures r.Ok? ==>
              && r.value.decl == s.decl && r.value.safe == s.safe
              && r.value.data == ToBits(v, s.decl.width)
              && Find(r.value.timing, t) == Some(ToBits(v, s.decl.width))
              && (forall k :: k != t ==> Find(r.value.timing, k) == Find(s.timing, k))
              && Ticks(r.value.timing) == (if t in Ticks(s.timing) then Ticks(s.timing) else Ticks(s.timing) + [t])
              && (Wf(s) ==> Wf(r.value))
  {
    match Encode(v, s.decl.width)
    case Err(f) => Err(f)
    case Ok(bits) =>
      var r := s.(data := bits, timing := Put(s.timing, t, bits));
      assert bits == ToBits(v, s.decl.width);
      FindPut(s.timing, t, bits, t);
      assert forall k :: k != t ==> Find(r.timing, k) == Find(s.timing, k) by {
        forall k | k != t { FindPut(s.timing, t, bits, k); }
      }
      assert Wf(s) ==> Wf(r) by {
        if Wf(s) { PutWellFormed(s.timing, t, bits, s.decl.width); }
      }
      Ok(r)
  }

  /** `tag(x_state)`: the flag becomes `not x_state`; nothing else changes. */
  function Tagged(s: Signal, xState: bool): (r: Signal)
    ensures r.safe <==> !xState
    ensures r.decl == s.decl && r.data == s.data && r.timing == s.timing
    ensures Wf(s) ==> Wf(r)
  {
    s.(safe := !xState)
  }
}
