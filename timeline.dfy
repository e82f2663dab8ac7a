/** A signal's timeline: the dictionary from tick to bit vector, kept as an
    association list in insertion order, which is the order in which the
    emitter walks it. Writing an existing tick replaces its vector where it
    stands; writing a new tick appends it. */
module Timelines {
  import opened Base
  import opened Bits

  datatype Entry = Entry(tick: int, bits: seq<Bit>)

  type Timeline = seq<Entry>

  /** The keys, in iteration order. */
  function Ticks(tl: Timeline): (ks: seq<int>)
    ensures |ks| == |tl|
    ensures forall i :: 0 <= i < |tl| ==> ks[i] == tl[i].tick
  {
    if tl == [] then [] else [tl[0].tick] + Ticks(tl[1..])
  }

  /** Keys are unique and every vector has the signal's width. */
  predicate WellFormed(tl: Timeline, width: nat)
  {
    Distinct(Ticks(tl)) && forall e :: e in tl ==> |e.bits| == width
  }

  /** Dictionary lookup. */
  function Find(tl: Timeline, t: int): (r: Option<seq<Bit>>)
    ensures r.None? <==> t !in Ticks(tl)
  {
    if tl == [] then None
    else if tl[0].tick == t then Some(tl[0].bits)
    else Find(tl[1..], t)
  }

  /** Dictionary assignment `timing[t] = bits`. */
  function Put(tl: Timeline, t: int, bits: seq<Bit>): (r: Timeline)
    ensures Ticks(r) == if t in Ticks(tl) then Ticks(tl) else Ticks(tl) + [t]
  {
    if tl == [] then [Entry(t, bits)]
    else if tl[0].tick == t then [Entry(t, bits)] + tl[1..]
    else [tl[0]] + Put(tl[1..], t, bits)
  }

  /** After `timing[t] = bits`, looking up `t` gives `bits` and every other
      key keeps its vector. */
  lemma {:induction false} FindPut(tl: Timeline, t: int, bits: seq<Bit>, k: int)
    ensures Find(Put(tl, t, bits), k) == if k == t then Some(bits) else Find(tl, k)
  {
    if tl != [] && tl[0].tick != t {
      FindPut(tl[1..], t, bits, k);
    }
  }

  /** With unique keys, overwriting an existing tick replaces exactly its own
      entry, at its own position. */
  lemma {:induction false} PutInPlace(tl: Timeline, t: int, bits: seq<Bit>, i: nat)
    requires Distinct(Ticks(tl)) && i < |tl| && tl[i].tick == t
    ensures Put(tl, t, bits) == tl[i := Entry(t, bits)]
  {
    if i > 0 {
      assert tl[0].tick != t by {
        assert Ticks(tl)[0] != Ticks(tl)[i];
      }
      assert Ticks(tl[1..]) == Ticks(tl)[1..];
      DistinctTail(Ticks(tl));
      PutInPlace(tl[1..], t, bits, i - 1);
      ConsUpdate(tl, i, Entry(t, bits));
    }
  }

  lemma ConsUpdate<T>(s: seq<T>, i: nat, x: T)
    requires 0 < i < |s|
    ensures [s[0]] + s[1..][i - 1 := x] == s[i := x]
  {
  }

  lemma DistinctTail(s: seq<int>)
    requires s != [] && Distinct(s)
    ensures Distinct(s[1..])
  {
    forall a, b | 0 <= a < b < |s| - 1
      ensures s[1..][a] != s[1..][b]
    {
      assert s[a + 1] != s[b + 1];
    }
  }

  /** Writing a vector of the signal's width keeps the timeline well formed. */
  lemma PutWellFormed(tl: Timeline, t: int, bits: seq<Bit>, width: nat)
    requires WellFormed(tl, width) && |bits| == width
    ensures WellFormed(Put(tl, t, bits), width)
  {
    var r := Put(tl, t, bits);
    if t !in Ticks(tl) {
      assert Distinct(Ticks(r)) by {
        forall a, b | 0 <= a < b < |r|
          ensures Ticks(r)[a] != Ticks(r)[b]
        {
          if b == |tl| {
            assert Ticks(r)[a] == Ticks(tl)[a];
          } else {
            assert Ticks(r)[a] == Ticks(tl)[a] && Ticks(r)[b] == Ticks(tl)[b];
          }
        }
      }
    }
    PutEntries(tl, t, bits);
  }

  lemma {:induction false} PutEntries(tl: Timeline, t: int, bits: seq<Bit>)
    ensures forall e :: e in Put(tl, t, bits) ==> e in tl || e == Entry(t, bits)
  {
    if tl != [] && tl[0].tick != t {
      PutEntries(tl[1..], t, bits);
    }
  }
}
