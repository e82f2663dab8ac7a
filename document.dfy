/** The parsed document as a value: header fields, the top scope with its
    signals, the side scopes that are never exported, every declaration in
    order, and the identifier-to-name map. The operations below are the state
    transitions of the document; the classes in `Scopes` are proved to
    perform exactly these. */
module Documents {
  import opened Base
  import opened Bits
  import opened Timelines
  import opened Signals
  import opened TimeScales

  /** A value carried by a value change once the interpreter has read it: an
      integer, or a string that contains `x` or `z`. */
  datatype Value = Num(n: int) | Str(s: string)

  datatype Doc = Doc(
    date: string,
    version: string,
    timescale: Option<TimeScale>,
    top: Option<Scope>,
    shadows: seq<ShadowScope>,
    signals: seq<Decl>,
    sigMap: map<string, string>)

  const EmptyDoc := Doc("", "", None, None, [], [], map[])

  ghost predicate DocWf(d: Doc)
  {
    && (d.top.Some? ==> ScopeWf(d.top.value))
    && (d.top.None? ==> d.shadows == [])
    && (forall i :: 0 <= i < |d.shadows| ==> ShadowWf(d.shadows[i]))
  }

  /** Name of the scope that declarations currently go to: the top scope
      until a differently named scope is opened, and from then on the most
      recently opened one. */
  function CurrentName(d: Doc): Option<string>
  {
    if d.top.None? then None
    else if d.shadows == [] then Some(d.top.value.name)
    else Some(d.shadows[|d.shadows| - 1].name)
  }

  /** `update_module`: opening a scope. The first scope opened becomes the
      top scope for good; a scope named like the top scope changes nothing;
      any other name starts a new side scope that becomes current. */
  function UpdateModule(d: Doc, scope: string): (r: Doc)
    ensures DocWf(d) ==> DocWf(r)
    ensures r.top.Some? && r.top.value.name == (if d.top.None? then scope else d.top.value.name)
    ensures d.top.Some? ==> r.top == d.top
    ensures DocWf(d) ==> CurrentName(r) == if d.top.Some? && d.top.value.name == scope then CurrentName(d) else Some(scope)
    ensures r.signals == d.signals && r.sigMap == d.sigMap && r.timescale == d.timescale
    ensures d.top.None? ==> r == d.(top := Some(Scope(scope, [], map[])))
    ensures d.top.Some? && d.top.value.name != scope ==> r == d.(shadows := d.shadows + [ShadowScope(scope, [], map[])])
    ensures d.top.Some? && d.top.value.name == scope ==> r == d
  {
    if d.top.None? then d.(top := Some(Scope(scope, [], map[])))
    else if d.top.value.name != scope then d.(shadows := d.shadows + [ShadowScope(scope, [], map[])])
    else d
  }

  function AddId(ids: seq<string>, id: string): (r: seq<string>)
    ensures Distinct(ids) ==> Distinct(r)
    ensures forall k :: k in r <==> k in ids || k == id
  {
    if id in ids then ids else ids + [id]
  }

  /** The current scope gains the signal under `id`: the top scope while no
      side scope is open, otherwise the most recently opened side scope,
      which records the declaration only. */
  function Declare(d: Doc, id: string, s: Signal): (r: Doc)
    requires d.top.Some?
    ensures r.(top := d.top, shadows := d.shadows) == d
    ensures r.top.Some? && r.top.value.name == d.top.value.name && |r.shadows| == |d.shadows|
    ensures CurrentName(r) == CurrentName(d)
    ensures d.shadows == [] ==>
              && r.top.value.vars == d.top.value.vars[id := s]
              && r.top.value.ids == AddId(d.top.value.ids, id)
              && r.shadows == []
    ensures d.shadows != [] ==>
              && r.top == d.top
              && r.shadows[..|d.shadows| - 1] == d.shadows[..|d.shadows| - 1]
              && r.shadows[|d.shadows| - 1].decls == d.shadows[|d.shadows| - 1].decls[id := s.decl]
              && r.shadows[|d.shadows| - 1].ids == AddId(d.shadows[|d.shadows| - 1].ids, id)
  {
    if d.shadows == [] then
      var sc := d.top.value;
      d.(top := Some(sc.(ids := AddId(sc.ids, id), vars := sc.vars[id := s])))
    else
      var n := |d.shadows|;
      var sh := d.shadows[n - 1];
      d.(shadows := d.shadows[n - 1 := sh.(ids := AddId(sh.ids, id), decls := sh.decls[id := s.decl])])
  }

  /** Declaring a well-formed signal keeps the document well formed. */
  lemma DeclareWf(d: Doc, id: string, s: Signal)
    requires DocWf(d) && Wf(s) && d.top.Some?
    ensures DocWf(Declare(d, id, s))
  {
  }

  /** With side scopes open, declaring rewrites the last one only. */
  lemma DeclareSide(d: Doc, id: string, s: Signal, init: seq<ShadowScope>, sh: ShadowScope)
    requires d.top.Some? && d.shadows == init + [sh]
    ensures Declare(d, id, s) == d.(shadows := init + [sh.(ids := AddId(sh.ids, id), decls := sh.decls[id := s.decl])])
  {
    var sh' := sh.(ids := AddId(sh.ids, id), decls := sh.decls[id := s.decl]);
    assert (init + [sh])[|init| := sh'] == init + [sh'];
  }

  /** Declaring does not look at the identifier map or the declaration
      list. */
  lemma DeclareFields(d: Doc, id: string, s: Signal, sigMap: map<string, string>, signals: seq<Decl>)
    requires d.top.Some?
    ensures Declare(d.(sigMap := sigMap, signals := signals), id, s) == Declare(d, id, s).(sigMap := sigMap, signals := signals)
  {
  }

  /** `add_reg` / `add_wire`: the signal is recorded in the identifier map
      and the list of all declarations, and lands in the current scope under
      its identifier, replacing an earlier one there. With no scope open
      there is no current scope and the conversion stops. */
  function AddSignal(d: Doc, id: string, s: Signal): (r: Result<Doc>)
    ensures r.Err? <==> d.top.None?
    ensures r.Err? ==> r.fault == NoScope
    ensures r.Ok? ==> r.value.sigMap == d.sigMap[id := s.decl.name] && r.value.signals == d.signals + [s.decl]
  {
    if d.top.None? then Err(NoScope)
    else Ok(Declare(d, id, s).(sigMap := d.sigMap[id := s.decl.name], signals := d.signals + [s.decl]))
  }

  /** A declaration keeps the document well formed, and the current scope
      stays the same. */
  lemma AddSignalWf(d: Doc, id: string, s: Signal)
    requires DocWf(d) && Wf(s) && d.top.Some?
    ensures AddSignal(d, id, s).Ok? && DocWf(AddSignal(d, id, s).value)
    ensures CurrentName(AddSignal(d, id, s).value) == CurrentName(d)
  {
    DeclareWf(d, id, s);
  }

  /** `is_reg_top_module`: the identifier is declared in the top scope. */
  function IsRegTopModule(d: Doc, id: string): (r: bool)
    requires d.top.Some?
    ensures ScopeWf(d.top.value) ==> (r <==> id in d.top.value.ids)
    ensures r ==> id in d.top.value.vars.Keys
  {
    id in d.top.value.vars
  }

  /** `d` with the top-scope signal `id` replaced. */
  function WithSignal(d: Doc, id: string, s: Signal): Doc
    requires d.top.Some?
  {
    d.(top := Some(d.top.value.(vars := d.top.value.vars[id := s])))
  }

  /** Writing back the signal already there changes nothing. */
  lemma WithSignalSame(d: Doc, id: string)
    requires d.top.Some? && id in d.top.value.vars
    ensures WithSignal(d, id, d.top.value.vars[id]) == d
  {
    assert d.top.value.vars[id := d.top.value.vars[id]] == d.top.value.vars;
  }

  /** `update_timing_assignment`. In the default mode an identifier outside
      the top scope is skipped. A kept one needs a usable time base; a string
      value tags the signal instead of recording an entry, and an integer is
      written at tick `t`. In full mode an identifier outside the top scope
      stops the conversion. */
  function UpdateTiming(d: Doc, t: int, id: string, v: Value, full: bool): (r: Result<Doc>)
    ensures r.Ok? ==> d.top.Some? && r.value.top.Some? && r.value.(top := d.top) == d
    ensures r.Ok? ==> r.value.top.value.name == d.top.value.name && r.value.top.value.ids == d.top.value.ids
    ensures r.Ok? && r.value != d ==> id in d.top.value.vars
    ensures full && r.Ok? ==> id in d.top.value.vars
    ensures r.Err? && r.fault == NoScope ==> d.top.None?
    ensures r.Err? && r.fault == NoTimescale ==> d.timescale.None?
    ensures d.top.Some? && id in d.top.value.vars && d.timescale.None? ==> r == Err(NoTimescale)
    ensures d.top.Some? && id in d.top.value.vars && d.timescale.Some? && !KnownUnit(d.timescale.value.baseUnit)
            ==> r == Err(UnknownUnit(d.timescale.value.baseUnit))
    ensures d.top.Some? && id in d.top.value.vars && d.timescale.Some? && KnownUnit(d.timescale.value.baseUnit)
            ==> r == Assign(d, t, id, v)
  {
    if !full && d.top.None? then Err(NoScope)
    else if !full && !IsRegTopModule(d, id) then Ok(d)
    else if d.timescale.None? then Err(NoTimescale)
    else if ConvertTo(d.timescale.value, t, "ns").None? then Err(UnknownUnit(d.timescale.value.baseUnit))
    else if d.top.None? then Err(NoScope)
    else if !IsRegTopModule(d, id) then Err(UnknownIdentifier(id))
    else Assign(d, t, id, v)
  }

  /** The new signal a value change makes: a string value tags the signal
      unsafe, an integer is recorded at tick `t` or, if too wide, stops the
      conversion. */
  function Written(s: Signal, t: int, v: Value): (r: Result<Signal>)
    ensures r.Err? <==> v.Num? && BitLength(v.n) > s.decl.width
    ensures r.Ok? ==> r.value.decl == s.decl && (Wf(s) ==> Wf(r.value))
  {
    match v
    case Str(_) => Ok(Tagged(s, true))
    case Num(n) => Updated(s, t, n)
  }

  /** The write itself, on the top-scope signal `id`. */
  function Assign(d: Doc, t: int, id: string, v: Value): (r: Result<Doc>)
    requires d.top.Some? && id in d.top.value.vars
    ensures r.Err? <==> v.Num? && BitLength(v.n) > d.top.value.vars[id].decl.width
  {
    match Written(d.top.value.vars[id], t, v)
    case Err(f) => Err(f)
    case Ok(s') => Ok(WithSignal(d, id, s'))
  }

  /** In the default mode a value change for an identifier outside the top
      scope leaves the document exactly as it was. */
  lemma UpdateTimingSkips(d: Doc, t: int, id: string, v: Value)
    requires d.top.Some? && id !in d.top.value.vars
    ensures UpdateTiming(d, t, id, v, false) == Ok(d)
  {
  }

  /** A successful update touches the top-scope signal `id` and nothing else:
      every other field and every other signal are as before. */
  lemma UpdateTimingFrame(d: Doc, t: int, id: string, v: Value, full: bool)
    requires UpdateTiming(d, t, id, v, full).Ok?
    ensures var r := UpdateTiming(d, t, id, v, full).value;
      && r.(top := d.top) == d
      && (d.top.Some? <==> r.top.Some?)
      && (r.top.Some? ==>
            && r.top.value.name == d.top.value.name && r.top.value.ids == d.top.value.ids
            && r.top.value.vars.Keys == d.top.value.vars.Keys
            && forall k :: k in d.top.value.vars && k != id ==> r.top.value.vars[k] == d.top.value.vars[k])
  {
  }

  /** A string value marks the signal unsafe and records no timeline entry;
      an integer value records its encoding at tick `t`. */
  lemma UpdateTimingEffect(d: Doc, t: int, id: string, v: Value, full: bool)
    requires UpdateTiming(d, t, id, v, full).Ok? && d.top.Some? && id in d.top.value.vars
    ensures var s := d.top.value.vars[id];
      var s' := UpdateTiming(d, t, id, v, full).value.top.value.vars[id];
      && s'.decl == s.decl
      && (v.Str? ==> !s'.safe && s'.timing == s.timing && s'.data == s.data)
      && (v.Num? ==> s'.safe == s.safe && Find(s'.timing, t) == Some(ToBits(v.n, s.decl.width)))
  {
  }

  /** The export-safe flag only ever goes from true to false. */
  lemma UpdateTimingKeepsUnsafe(d: Doc, t: int, id: string, v: Value, full: bool, k: string)
    requires UpdateTiming(d, t, id, v, full).Ok? && d.top.Some? && k in d.top.value.vars
    requires !d.top.value.vars[k].safe
    ensures var r := UpdateTiming(d, t, id, v, full).value;
      r.top.Some? && k in r.top.value.vars && !r.top.value.vars[k].safe
  {
  }

  /** An update keeps the document well formed. */
  lemma UpdateTimingWf(d: Doc, t: int, id: string, v: Value, full: bool)
    requires DocWf(d) && UpdateTiming(d, t, id, v, full).Ok?
    ensures DocWf(UpdateTiming(d, t, id, v, full).value)
  {
  }

  /** A value too wide for its signal stops the conversion. */
  lemma UpdateTimingTooWide(d: Doc, t: int, id: string, n: int, full: bool)
    requires d.top.Some? && id in d.top.value.vars && d.timescale.Some?
    requires KnownUnit(d.timescale.value.baseUnit)
    requires BitLength(n) > d.top.value.vars[id].decl.width
    ensures UpdateTiming(d, t, id, Num(n), full) == Err(ValueTooWide(n, d.top.value.vars[id].decl.width))
  {
  }
}
