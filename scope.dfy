/** The scope objects of the document: `Module`, a named dictionary from
    identifiers to register objects, and `VCDModule`, the parsed document
    holding the top module, the side modules opened after it and the
    bookkeeping lists. Each is tied to its value in `Signals` / `Documents`
    by an abstraction function, and every method is proved to perform the
    corresponding transition there. */
module Scopes {
  import opened Base
  import opened Signals
  import opened TimeScales
  import opened Pwl
  import opened Registers
  import opened Documents

  class Module {
    const name: string
    /** Identifiers in dictionary (first-insertion) order. */
    var ids: seq<string>
    var variables: map<string, Register>

    /** No register object is stored under two identifiers, so writing
        through one identifier leaves the others' signals alone. */
    ghost predicate Unaliased()
      reads this
    {
      Injective(variables)
    }

    /** The scope as a value, with each register's current signal. */
    ghost function Abs(): Scope
      reads this, variables.Values
    {
      Scope(name, ids, HeldSignals(variables))
    }

    /** The scope as a side scope: its declarations only. */
    ghost function Header(): ShadowScope
      reads this
    {
      ShadowScope(name, ids, HeldDecls(variables))
    }

    constructor (name: string)
      ensures this.name == name && ids == [] && variables == map[]
      ensures Unaliased()
      ensures Abs() == Scope(name, [], map[]) && Header() == ShadowScope(name, [], map[])
    {
      this.name := name;
      ids := [];
      variables := map[];
    }

    /** `add_signal`: `reg` is stored under `id`, replacing what was there;
        a new identifier goes to the end of the order. */
    method AddSignal(id: string, reg: Register)
      modifies this
      ensures variables == old(variables)[id := reg] && ids == AddId(old(ids), id)
      ensures old(Unaliased()) && reg !in old(variables.Values) ==> Unaliased()
    {
      if Injective(variables) && reg !in variables.Values {
        InjectiveUpdate(variables, id, reg);
      }
      variables := variables[id := reg];
      ids := AddId(ids, id);
    }

    /** `export_pwl`: every signal's text followed by a blank line, in
        dictionary order. */
    method ExportPwl(expr: RiseFall, fmt: Formatter) returns (data: string)
      requires ScopeWf(Abs())
      ensures data == ScopeText(Abs(), expr, fmt)
    {
      ghost var sc := Abs();
      data := "";
      for k := 0 to |ids|
        invariant data == ScopeTextUpTo(sc, expr, fmt, k)
      {
        var id := ids[k];
        var reg := Held(sc, id);
        var text := reg.GeneratePiecewiseLinear(expr, fmt);
        ScopeTextStep(sc, expr, fmt, k);
        data := data + text + "\n";
      }
    }

    /** The register under `id`, which holds the signal the scope value
        has there. */
    method Held(ghost sc: Scope, id: string) returns (reg: Register)
      requires sc == Abs() && ScopeWf(sc) && id in sc.ids
      ensures reg.Valid() && reg.Value() == sc.vars[id]
    {
      assert id in sc.vars;
      reg := variables[id];
    }
  }

  /** The signals a dictionary of registers currently holds. */
  ghost function HeldSignals(vs: map<string, Register>): (r: map<string, Signal>)
    reads vs.Values
    ensures r.Keys == vs.Keys
  {
    map id | id in vs :: vs[id].Value()
  }

  /** The declarations of a dictionary of registers. */
  function HeldDecls(vs: map<string, Register>): (r: map<string, Decl>)
    ensures r.Keys == vs.Keys
  {
    map id | id in vs :: vs[id].Declaration()
  }

  /** No register object is stored under two identifiers. */
  ghost predicate Injective(vs: map<string, Register>)
  {
    forall a, b {:trigger vs[a], vs[b]} :: a in vs && b in vs && a != b ==> vs[a] != vs[b]
  }

  lemma InjectiveUpdate(vs: map<string, Register>, id: string, reg: Register)
    requires Injective(vs) && reg !in vs.Values
    ensures Injective(vs[id := reg])
  {
    var ws := vs[id := reg];
    forall a, b | a in ws && b in ws && a != b
      ensures ws[a] != ws[b]
    {
      if a != id && b != id {
        assert ws[a] == vs[a] && ws[b] == vs[b];
      } else if a == id {
        assert ws[b] == vs[b] && vs[b] in vs.Values;
      } else {
        assert ws[a] == vs[a] && vs[a] in vs.Values;
      }
    }
  }

  /** The held signals depend only on the registers themselves. */
  twostate lemma HeldFrame(vs: map<string, Register>)
    requires unchanged(vs.Values)
    ensures HeldSignals(vs) == old(HeldSignals(vs))
  {
  }

  /** After `add_signal`, the scope value holds the new signal under `id`. */
  twostate lemma SignalAdded(m: Module, new id: string, new reg: Register)
    requires unchanged(old(m.variables.Values))
    requires m.variables == old(m.variables)[id := reg] && m.ids == AddId(old(m.ids), id)
    ensures m.Abs() == old(m.Abs()).(ids := AddId(old(m.ids), id), vars := old(m.Abs()).vars[id := reg.Value()])
  {
    SignalsUpdate(old(m.variables), id, reg);
    HeldFrame(old(m.variables));
  }

  /** After `add_signal`, the side scope value holds the new declaration
      under `id`. */
  twostate lemma DeclAdded(m: Module, new id: string, new reg: Register)
    requires m.variables == old(m.variables)[id := reg] && m.ids == AddId(old(m.ids), id)
    ensures m.Header() == old(m.Header()).(ids := AddId(old(m.ids), id), decls := old(m.Header()).decls[id := reg.Declaration()])
  {
    DeclsUpdate(old(m.variables), id, reg);
  }

  lemma SignalsUpdate(vs: map<string, Register>, id: string, reg: Register)
    ensures HeldSignals(vs[id := reg]) == HeldSignals(vs)[id := reg.Value()]
  {
  }

  lemma DeclsUpdate(vs: map<string, Register>, id: string, reg: Register)
    ensures HeldDecls(vs[id := reg]) == HeldDecls(vs)[id := reg.Declaration()]
  {
  }

  /** No module object appears twice in the sequence. */
  ghost predicate Separate(ms: seq<Module>)
  {
    forall i, j :: 0 <= i < j < |ms| ==> ms[i] != ms[j]
  }

  /** The module declarations go to. */
  ghost function Current(top: Module?, ms: seq<Module>): Module?
  {
    if top == null then null else if ms == [] then top else ms[|ms| - 1]
  }

  /** The side scopes as values, in opening order. */
  ghost function Headers(ms: seq<Module>): (r: seq<ShadowScope>)
    reads ms
    ensures |r| == |ms|
  {
    if ms == [] then [] else Headers(ms[..|ms| - 1]) + [ms[|ms| - 1].Header()]
  }

  function Declarations(rs: seq<Register>): (r: seq<Decl>)
    ensures |r| == |rs| && forall i :: 0 <= i < |rs| ==> r[i] == rs[i].Declaration()
  {
    if rs == [] then [] else Declarations(rs[..|rs| - 1]) + [rs[|rs| - 1].Declaration()]
  }

  /** The objects the top scope's value depends on. */
  ghost function TopFrame(top: Module?): set<object>
    reads top
  {
    if top == null then {} else {top} + top.variables.Values
  }

  /** The modules of a sequence, as a set of objects. */
  function ModuleSet(ms: seq<Module>): (r: set<object>)
    ensures forall m :: m in ms ==> m in r
  {
    set m | m in ms :: m as object
  }

  lemma ModuleSetAppend(ms: seq<Module>, m: Module)
    ensures ModuleSet(ms + [m]) == ModuleSet(ms) + {m}
  {
  }

  /** The top scope as a value, if one is open. */
  ghost function TopScope(top: Module?): Option<Scope>
    reads top, TopFrame(top)
  {
    if top == null then None else Some(top.Abs())
  }

  lemma DeclarationsAppend(rs: seq<Register>, reg: Register)
    ensures Declarations(rs + [reg]) == Declarations(rs) + [reg.Declaration()]
  {
    assert (rs + [reg])[..|rs|] == rs;
  }

  lemma HeadersAppend(ms: seq<Module>, m: Module)
    ensures Headers(ms + [m]) == Headers(ms) + [m.Header()]
  {
    assert (ms + [m])[..|ms|] == ms;
  }

  /** The top scope's value depends only on its frame. */
  twostate lemma TopScopeFrame(top: Module?)
    requires top != null ==> unchanged(top) && unchanged(old(top.variables.Values))
    ensures TopScope(top) == old(TopScope(top))
  {
  }

  /** The side scopes' values depend only on the side modules. */
  twostate lemma HeadersFrame(ms: seq<Module>)
    requires unchanged(ms)
    ensures Headers(ms) == old(Headers(ms))
  {
  }

  /** Writing through identifier `id` of an unaliased top module changes
      the top scope's signal `id` and nothing else. */
  twostate lemma WriteFrame(top: Module, new id: string)
    requires old(top.Unaliased()) && id in old(top.variables)
    requires unchanged(top) && unchanged(old(top.variables.Values) - {old(top.variables[id])})
    ensures top.Abs() == old(top.Abs()).(vars := old(top.Abs()).vars[id := top.variables[id].Value()])
  {
  }

  /** A value change applied to one register: `tag(True)` for a string
      value, `update(t, value)` for an integer. */
  method Write(reg: Register, t: int, v: Value) returns (r: Result<()>)
    modifies reg
    ensures match Written(old(reg.Value()), t, v)
            case Err(f) => r == Err(f) && unchanged(reg)
            case Ok(s) => r == Ok(()) && reg.Value() == s
  {
    if v.Str? {
      reg.Tag(true);
      r := Ok(());
    } else {
      r := reg.Update(t, v.n);
    }
  }

  /** The document invariant depends only on the document object and its
      top module. */
  twostate lemma ValidFrame(v: VCDModule)
    requires old(v.Valid()) && unchanged(v) && (v.topModule != null ==> unchanged(v.topModule))
    ensures v.Valid()
  {
  }

  /** The document's objects are found through the document object and its
      top module only. */
  twostate lemma ObjectsFrame(v: VCDModule)
    requires unchanged(v) && (v.topModule != null ==> unchanged(v.topModule))
    ensures v.Objects() == old(v.Objects())
  {
  }

  /** The document's value and invariant depend on its objects only. */
  twostate lemma DocumentFrame(v: VCDModule)
    requires unchanged(old(v.Objects()))
    ensures v.Objects() == old(v.Objects()) && v.Abs() == old(v.Abs()) && (old(v.Valid()) ==> v.Valid())
  {
    TopScopeFrame(v.topModule);
    HeadersFrame(v.shadowModules);
  }

  /** Writing the header fields of the document object changes those
      fields of the document's value and nothing else. */
  twostate lemma HeaderWrite(v: VCDModule)
    requires unchanged(old(v.Objects()) - {v})
    requires v.topModule == old(v.topModule) && v.currentModule == old(v.currentModule)
    requires v.shadowModules == old(v.shadowModules) && v.signals == old(v.signals) && v.sigMap == old(v.sigMap)
    ensures v.Abs() == old(v.Abs()).(date := v.date, version := v.version, timescale := v.timescale)
    ensures v.Objects() == old(v.Objects()) && (old(v.Valid()) ==> v.Valid())
  {
    TopScopeFrame(v.topModule);
    HeadersFrame(v.shadowModules);
  }

  class VCDModule {
    var date: string
    var version: string
    var timescale: Option<TimeScale>
    var topModule: Module?
    var currentModule: Module?
    var shadowModules: seq<Module>
    var signals: seq<Register>
    var sigMap: map<string, string>

    /** Side modules exist only below a top module and are distinct
        objects, none of them the top module; the top module is unaliased;
        declarations go to the top module until a differently named scope
        opens, then to the most recently opened side module. */
    ghost predicate Valid()
      reads this, topModule
    {
      && currentModule == Current(topModule, shadowModules)
      && (topModule == null ==> shadowModules == [])
      && (topModule != null ==> topModule.Unaliased() && topModule !in shadowModules && Separate(shadowModules))
    }

    ghost function Abs(): Doc
      reads this, TopFrame(topModule), shadowModules
    {
      Doc(date, version, timescale,
          TopScope(topModule),
          Headers(shadowModules),
          Declarations(signals),
          sigMap)
    }

    /** Every object the document is made of: itself, the top module and
        its registers, and the side modules. */
    ghost function Objects(): set<object>
      reads this, topModule
    {
      {this} + TopFrame(topModule) + ModuleSet(shadowModules)
    }

    /** The module declarations go to is one of the document's objects. */
    lemma CurrentIsOwned()
      requires Valid()
      ensures currentModule != null ==> currentModule in Objects()
    {
      if currentModule != null && shadowModules != [] {
        assert currentModule in shadowModules;
      }
    }

    constructor ()
      ensures Valid() && Abs() == EmptyDoc && Objects() == {this}
    {
      date := "";
      version := "";
      timescale := None;
      topModule := null;
      currentModule := null;
      shadowModules := [];
      signals := [];
      sigMap := map[];
    }

    /** `update_module`: the first scope opened becomes the top module, a
        differently named one a new side module that becomes current; the
        top module's name again changes nothing. */
    method UpdateModule(scope: string)
      requires Valid()
      modifies this
      ensures Valid()
      ensures Abs() == Documents.UpdateModule(old(Abs()), scope)
      ensures fresh(Objects() - old(Objects()))
    {
      if topModule == null {
        var m := new Module(scope);
        SetTop(m);
      } else if topModule.name != scope {
        var m := new Module(scope);
        AddSide(m);
      }
    }

    /** Installs a new, empty module as the top module (and current one). */
    method SetTop(m: Module)
      requires Valid() && topModule == null
      requires m.ids == [] && m.variables == map[]
      modifies this
      ensures Valid()
      ensures Abs() == old(Abs()).(top := Some(Scope(m.name, [], map[])))
      ensures Objects() == old(Objects()) + {m}
    {
      topModule, currentModule := m, m;
    }

    /** Appends a new module to the side modules and makes it current. */
    method AddSide(m: Module)
      requires Valid() && topModule != null && m != topModule && m !in shadowModules
      modifies this
      ensures Valid()
      ensures Abs() == old(Abs()).(shadows := old(Abs()).shadows + [m.Header()])
      ensures Objects() == old(Objects()) + {m}
    {
      HeadersAppend(shadowModules, m);
      ModuleSetAppend(shadowModules, m);
      shadowModules, currentModule := shadowModules + [m], m;
      TopScopeFrame(topModule);
      HeadersFrame(shadowModules);
    }

    /** `add_reg` / `add_wire` (their bodies are the same): the identifier
        map learns the signal's name, the register lands in the current
        module and is appended to the list of all signals; with no scope open
        there is no current module and the conversion stops. The register is
        a new one, not already held by the top module. */
    method AddReg(reg: Register, id: string) returns (r: Result<()>)
      requires Valid() && reg !in TopFrame(topModule)
      modifies this, currentModule
      ensures Valid()
      ensures match Documents.AddSignal(old(Abs()), id, old(reg.Value()))
              case Err(f) => r == Err(f)
              case Ok(e) => r == Ok(()) && Abs() == e
      ensures Objects() <= old(Objects()) + {reg}
    {
      if currentModule == null {
        sigMap := sigMap[id := reg.name];
        r := Err(NoScope);
      } else {
        Record(reg, id);
        DeclareCurrent(reg, id);
        DeclareFields(old(Abs()), id, reg.Value(), sigMap, old(Abs()).signals + [reg.Declaration()]);
        r := Ok(());
      }
    }

    /** The identifier map learns the signal's name and the register is
        appended to the list of all signals. */
    method Record(reg: Register, id: string)
      requires Valid()
      modifies this
      ensures Valid() && topModule == old(topModule) && shadowModules == old(shadowModules) && Objects() == old(Objects())
      ensures Abs() == old(Abs()).(sigMap := old(sigMap)[id := reg.name], signals := old(Abs()).signals + [reg.Declaration()])
    {
      DeclarationsAppend(signals, reg);
      sigMap, signals := sigMap[id := reg.name], signals + [reg];
      TopScopeFrame(topModule);
      HeadersFrame(shadowModules);
    }

    /** The current module gains the signal. */
    method DeclareCurrent(reg: Register, id: string)
      requires Valid() && topModule != null && reg !in TopFrame(topModule)
      modifies currentModule
      ensures Valid() && Abs() == Declare(old(Abs()), id, reg.Value())
      ensures Objects() <= old(Objects()) + {reg}
    {
      if shadowModules == [] {
        AddToTop(reg, id);
      } else {
        AddToSide(reg, id);
      }
    }

    /** The top module is current: it gains the signal. */
    method AddToTop(reg: Register, id: string)
      requires Valid() && topModule != null && shadowModules == [] && reg !in TopFrame(topModule)
      modifies topModule
      ensures Valid() && Abs() == Declare(old(Abs()), id, reg.Value())
      ensures Objects() <= old(Objects()) + {reg}
    {
      var top := topModule;
      top.AddSignal(id, reg);
      SignalAdded(top, id, reg);
    }

    /** A side module is current: it gains the declaration. */
    method AddToSide(reg: Register, id: string)
      requires Valid() && topModule != null && shadowModules != []
      modifies shadowModules[|shadowModules| - 1]
      ensures Valid() && Abs() == Declare(old(Abs()), id, reg.Value())
      ensures Objects() == old(Objects())
    {
      var n := |shadowModules|;
      var cur := shadowModules[n - 1];
      ghost var init := shadowModules[..n - 1];
      assert shadowModules == init + [cur];
      HeadersAppend(init, cur);
      DeclareSide(Abs(), id, reg.Value(), Headers(init), cur.Header());
      cur.AddSignal(id, reg);
      DeclAdded(cur, id, reg);
      TopScopeFrame(topModule);
      HeadersFrame(init);
      HeadersAppend(init, cur);
      ValidFrame(this);
    }

    /** `is_reg_top_module`: whether the identifier is declared in the top
        module; with no top module the conversion stops. */
    method IsRegTopModule(id: string) returns (r: Result<bool>)
      requires Valid()
      ensures r == if Abs().top.None? then Err(NoScope) else Ok(Documents.IsRegTopModule(Abs(), id))
    {
      if topModule == null {
        return Err(NoScope);
      }
      r := Ok(id in topModule.variables);
    }

    /** `update_timing_assignment`: performs `Documents.UpdateTiming` on the
        register object of the top module that `id` names. */
    method UpdateTimingAssignment(t: int, id: string, v: Value, full: bool) returns (r: Result<()>)
      requires Valid()
      modifies if topModule == null then {} else topModule.variables.Values
      ensures Valid()
      ensures match UpdateTiming(old(Abs()), t, id, v, full)
              case Err(f) => r == Err(f) && Abs() == old(Abs())
              case Ok(e) => r == Ok(()) && Abs() == e
      ensures Objects() == old(Objects())
    {
      if !full {
        var top := IsRegTopModule(id);
        if top.Err? {
          return Err(top.fault);
        }
        if !top.value {
          return Ok(());
        }
      }
      if timescale.None? {
        return Err(NoTimescale);
      }
      var timeValue := ConvertTo(timescale.value, t, "ns");
      if timeValue.None? {
        return Err(UnknownUnit(timescale.value.baseUnit));
      }
      if topModule == null {
        return Err(NoScope);
      }
      if id !in topModule.variables {
        return Err(UnknownIdentifier(id));
      }
      r := Assign(t, id, v);
      ObjectsFrame(this);
    }

    /** The write through the register object `id` names: a string value
        tags it, an integer is recorded at tick `t`. */
    method Assign(t: int, id: string, v: Value) returns (r: Result<()>)
      requires Valid() && topModule != null && id in topModule.variables
      modifies topModule.variables[id]
      ensures Valid()
      ensures match Documents.Assign(old(Abs()), t, id, v)
              case Err(f) => r == Err(f) && Abs() == old(Abs())
              case Ok(e) => r == Ok(()) && Abs() == e
    {
      var reg := topModule.variables[id];
      ghost var d := Abs();
      assert d.top.value.vars[id] == reg.Value();
      r := Write(reg, t, v);
      WriteFrame(topModule, id);
      HeadersFrame(shadowModules);
      assert Abs() == WithSignal(d, id, reg.Value());
      if r.Err? {
        WithSignalSame(d, id);
      }
    }

    /** `export_pwl`: the text of the top module, which the source writes to
        the output file; with no top module the conversion stops. */
    method ExportPwl(expr: RiseFall, fmt: Formatter) returns (r: Result<string>)
      requires Valid() && DocWf(Abs())
      ensures r == if Abs().top.None? then Err(NoScope) else Ok(ScopeText(Abs().top.value, expr, fmt))
    {
      if topModule == null {
        return Err(NoScope);
      }
      var data := topModule.ExportPwl(expr, fmt);
      r := Ok(data);
    }
  }
}
