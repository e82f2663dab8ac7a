/** The token interpreter. `VCDParser._parse_group` folds the token stream of
    a VCD file into a `VCDModule`, keeping the time stamp of the last
    `#<time>` and the name of the last opened scope as cursors; `parse`
    turns an assertion error of the tokenizer into "no document". The token
    stream is a sequence of tokens, and its end plays the part of
    `StopIteration`. */
module Parsers {
  import opened Base
  import opened Text
  import opened Signals
  import opened TimeScales
  import opened Pwl
  import opened Registers
  import opened Documents
  import opened Scopes

  /** The type of a `$var` declaration. */
  datatype VarType = RegVar | WireVar | OtherVar(name: string)

  /** The payload of a value change as the tokenizer delivers it. */
  datatype RawValue = IntValue(n: int) | StrValue(s: string)

  /** One token. `Change` stands for both scalar and vector value changes,
      which the interpreter handles alike; `Other` for every kind it
      ignores; `Malformed` for the point at which the tokenizer raises an
      assertion error. The timescale token carries its printed form. */
  datatype Token =
    | Date(text: string)
    | Version(text: string)
    | Timescale(text: string)
    | EnterScope(ident: string)
    | Upscope
    | Var(varType: VarType, reference: string, size: nat, idCode: string)
    | ChangeTime(time: int)
    | Change(idCode: string, value: RawValue)
    | Dumpvar
    | Other
    | Malformed

  /** The accumulator of the fold: the document and the two cursors. */
  datatype State = State(doc: Doc, timestamp: int, scope: Option<string>)

  /** How a step or a whole run ends: normally, with the tokenizer's
      assertion error, or with an uncaught error. */
  datatype Outcome<T> = Done(value: T) | Rejected | Crashed(fault: Fault)

  /** A new document, time stamp 0, no scope. */
  const Start := State(EmptyDoc, 0, None)

  /** The payload `update_timing_assignment` receives: integers as they
      are, strings containing `x` or `z` as strings, and any other string
      read with `int()`, whose `ValueError` stops the conversion. */
  function ReadValue(raw: RawValue): (r: Result<Value>)
    ensures r.Err? <==> raw.StrValue? && !('x' in raw.s || 'z' in raw.s) && ParseInt(raw.s).None?
    ensures r.Ok? ==> (r.value.Str? <==> raw.StrValue? && ('x' in raw.s || 'z' in raw.s))
    ensures r.Ok? && r.value.Str? ==> r.value.s == raw.s
    ensures r.Ok? && r.value.Num? ==> r.value.n == if raw.IntValue? then raw.n else ParseInt(raw.s).value
  {
    match raw
    case IntValue(n) => Ok(Num(n))
    case StrValue(s) =>
      if 'x' in s || 'z' in s then Ok(Str(s))
      else
        match ParseInt(s)
        case None => Err(BadInteger(s))
        case Some(n) => Ok(Num(n))
  }

  /** A value change written in decimal reaches the document as that
      number. */
  lemma ReadDecimal(n: nat)
    ensures ReadValue(StrValue(NatToDecimal(n))) == Ok(Num(n))
  {
    var s := NatToDecimal(n);
    assert !('x' in s || 'z' in s) by {
      assert forall c :: c in s ==> IsDigit(c);
    }
    ParseDecimal(n);
  }

  /** The kind of signal a `$var` declares, if any. */
  function VarKind(ty: VarType): Option<Kind>
  {
    match ty
    case RegVar => Some(Reg)
    case WireVar => Some(Wire)
    case OtherVar(_) => None
  }

  /** The tokens whose handling can raise: a timescale that does not read,
      a declaration outside every scope, a time stamp before the time base,
      and a value change. */
  predicate MayCrash(tok: Token)
  {
    tok.Timescale? || tok.Var? || tok.ChangeTime? || tok.Change?
  }

  /** One turn of the loop in `_parse_group`. */
  function Advance(st: State, tok: Token, full: bool): (r: Outcome<State>)
    ensures r.Rejected? <==> tok.Malformed?
    ensures r.Crashed? ==> MayCrash(tok)
    ensures r.Done? ==> r.value.scope == match tok
                                         case EnterScope(ident) => Some(ident)
                                         case Upscope => None
                                         case _ => st.scope
  {
    match tok
    case Date(text) => Done(st.(doc := st.doc.(date := text)))
    case Version(text) => Done(st.(doc := st.doc.(version := text)))
    case Timescale(text) =>
      (match ParseTimescale(text)
       case Err(f) => Crashed(f)
       case Ok(ts) => Done(st.(doc := st.doc.(timescale := Some(ts)))))
    case EnterScope(ident) => Done(st.(doc := UpdateModule(st.doc, ident), scope := Some(ident)))
    case Upscope => Done(st.(scope := None))
    case Var(ty, reference, size, id) =>
      (match VarKind(ty)
       case None => Done(st)
       case Some(k) =>
         match AddSignal(st.doc, id, Declared(Decl(k, reference, size, 0)))
         case Err(f) => Crashed(f)
         case Ok(d) => Done(st.(doc := d)))
    // the debug message names the time base's unit, which needs a time base
    case ChangeTime(time) =>
      if st.doc.timescale.None? then Crashed(NoTimescale) else Done(st.(timestamp := time))
    case Change(id, raw) =>
      (match ReadValue(raw)
       case Err(f) => Crashed(f)
       case Ok(v) =>
         match UpdateTiming(st.doc, st.timestamp, id, v, full)
         case Err(f) => Crashed(f)
         case Ok(d) => Done(st.(doc := d)))
    case Dumpvar => Done(st)
    case Other => Done(st)
    case Malformed => Rejected
  }

  /** The loop of `_parse_group` from state `st` over `tokens`: it stops at
      the first step that does not end normally. */
  function Fold(st: State, tokens: seq<Token>, full: bool): (r: Outcome<State>)
    ensures r.Rejected? ==> Malformed in tokens
    ensures r.Crashed? ==> exists i :: 0 <= i < |tokens| && MayCrash(tokens[i])
    decreases |tokens|, 1
  {
    if tokens == [] then Done(st) else Continue(st, tokens[0], tokens[1..], full)
  }

  /** One step from `st` on `tok`, then the run over `rest` if the step
      ended normally. */
  function Continue(st: State, tok: Token, rest: seq<Token>, full: bool): (r: Outcome<State>)
    ensures r.Rejected? ==> tok.Malformed? || Malformed in rest
    ensures r.Crashed? ==> MayCrash(tok) || exists i :: 0 <= i < |rest| && MayCrash(rest[i])
    decreases |rest|, 2
  {
    match Advance(st, tok, full)
    case Done(s) => Fold(s, rest, full)
    case Rejected => Rejected
    case Crashed(f) => Crashed(f)
  }

  /** The rest of a run after a step ended with `o`: from `st` over
      `tokens` if it ended normally, otherwise the run ends with it too. */
  function Then(o: Outcome<()>, st: State, tokens: seq<Token>, full: bool): Outcome<State>
  {
    match o
    case Done(_) => Fold(st, tokens, full)
    case Rejected => Rejected
    case Crashed(f) => Crashed(f)
  }

  /** The outcome of a step that ended with `o` in state `st`. */
  function Resumed(o: Outcome<()>, st: State): (r: Outcome<State>)
    ensures r.Done? <==> o.Done?
  {
    match o
    case Done(_) => Done(st)
    case Rejected => Rejected
    case Crashed(f) => Crashed(f)
  }

  /** A run whose first step ends with `o` in state `s` goes on from `s`
      over the remaining tokens. */
  lemma FoldStep(st: State, tokens: seq<Token>, full: bool, o: Outcome<()>, s: State)
    requires tokens != [] && Advance(st, tokens[0], full) == Resumed(o, s)
    ensures Fold(st, tokens, full) == Then(o, s, tokens[1..], full)
  {
  }

  /** The `VAR` step spelled out. */
  lemma AdvanceVar(st: State, tok: Token, full: bool)
    requires tok.Var?
    ensures Advance(st, tok, full) ==
            match VarKind(tok.varType)
            case None => Done(st)
            case Some(k) =>
              match AddSignal(st.doc, tok.idCode, Declared(Decl(k, tok.reference, tok.size, 0)))
              case Err(f) => Crashed(f)
              case Ok(d) => Done(st.(doc := d))
  {
  }

  /** `parse`: the document, `None` for an assertion error of the
      tokenizer, or the error that stops the program. `full` is off. */
  function Parsed(tokens: seq<Token>): (r: Result<Option<Doc>>)
    ensures r == Ok(None) ==> Malformed in tokens
    ensures tokens == [] ==> r == Ok(Some(EmptyDoc))
  {
    match Fold(Start, tokens, false)
    case Done(s) => Ok(Some(s.doc))
    case Rejected => Ok(None)
    case Crashed(f) => Err(f)
  }

  /** Running over two stretches of tokens is running over the first and
      then, if it ended normally, over the second. */
  lemma {:induction false} FoldAppend(st: State, a: seq<Token>, b: seq<Token>, full: bool)
    ensures Fold(st, a + b, full) ==
            match Fold(st, a, full)
            case Done(s) => Fold(s, b, full)
            case Rejected => Rejected
            case Crashed(f) => Crashed(f)
    decreases |a|
  {
    if a == [] {
      assert a + b == b;
    } else {
      assert (a + b)[0] == a[0] && (a + b)[1..] == a[1..] + b;
      if Advance(st, a[0], full).Done? {
        FoldAppend(Advance(st, a[0], full).value, a[1..], b, full);
      }
    }
  }

  /** A step keeps the document well formed. */
  lemma AdvanceWf(st: State, tok: Token, full: bool)
    requires DocWf(st.doc) && Advance(st, tok, full).Done?
    ensures DocWf(Advance(st, tok, full).value.doc)
  {
    match tok
    case Var(ty, reference, size, id) =>
      if VarKind(ty).Some? {
        var s := Declared(Decl(VarKind(ty).value, reference, size, 0));
        assert Wf(s);
        AddSignalWf(st.doc, id, s);
      }
    case Change(id, raw) =>
      UpdateTimingWf(st.doc, st.timestamp, id, ReadValue(raw).value, full);
    case _ =>
  }

  /** A run that ends normally leaves a well-formed document. */
  lemma {:induction false} FoldWf(st: State, tokens: seq<Token>, full: bool)
    requires DocWf(st.doc) && Fold(st, tokens, full).Done?
    ensures DocWf(Fold(st, tokens, full).value.doc)
    decreases |tokens|
  {
    if tokens != [] {
      AdvanceWf(st, tokens[0], full);
      FoldWf(Advance(st, tokens[0], full).value, tokens[1..], full);
    }
  }

  /** A document `parse` returns is well formed, so it can be exported. */
  lemma ParsedWf(tokens: seq<Token>)
    requires Parsed(tokens).Ok? && Parsed(tokens).value.Some?
    ensures DocWf(Parsed(tokens).value.value)
  {
    FoldWf(Start, tokens, false);
  }

  /** The text of the last `$date` token, or `d` if there is none. */
  function LastDate(tokens: seq<Token>, d: string): string
    decreases |tokens|
  {
    if tokens == [] then d else LastDate(tokens[1..], if tokens[0].Date? then tokens[0].text else d)
  }

  /** The text of the last `$version` token, or `v` if there is none. */
  function LastVersion(tokens: seq<Token>, v: string): string
    decreases |tokens|
  {
    if tokens == [] then v else LastVersion(tokens[1..], if tokens[0].Version? then tokens[0].text else v)
  }

  /** The time base read from the last `$timescale` token that reads as
      one, or `ts` if there is none. */
  function LastTimescale(tokens: seq<Token>, ts: Option<TimeScale>): Option<TimeScale>
    decreases |tokens|
  {
    if tokens == [] then ts
    else
      var ts' := if tokens[0].Timescale? && ParseTimescale(tokens[0].text).Ok?
                 then Some(ParseTimescale(tokens[0].text).value) else ts;
      LastTimescale(tokens[1..], ts')
  }

  /** The time of the last `#<time>` token, or `t` if there is none. */
  function LastTime(tokens: seq<Token>, t: int): int
    decreases |tokens|
  {
    if tokens == [] then t else LastTime(tokens[1..], if tokens[0].ChangeTime? then tokens[0].time else t)
  }

  /** A step changes the header fields and the time stamp only through
      its own kind of token. */
  lemma AdvanceHeader(st: State, tok: Token, full: bool)
    requires Advance(st, tok, full).Done?
    ensures var s := Advance(st, tok, full).value;
      && s.doc.date == (if tok.Date? then tok.text else st.doc.date)
      && s.doc.version == (if tok.Version? then tok.text else st.doc.version)
      && s.doc.timescale == (if tok.Timescale? then Some(ParseTimescale(tok.text).value) else st.doc.timescale)
      && s.timestamp == (if tok.ChangeTime? then tok.time else st.timestamp)
  {
    if tok.Change? {
      UpdateTimingFrame(st.doc, st.timestamp, tok.idCode, ReadValue(tok.value).value, full);
    }
  }

  /** After a run that ends normally, the date, version and time base are
      those of the last token of their kind, and the time stamp is the time
      of the last `#<time>` token. */
  lemma {:induction false} FoldHeader(st: State, tokens: seq<Token>, full: bool)
    requires Fold(st, tokens, full).Done?
    ensures var s := Fold(st, tokens, full).value;
      && s.doc.date == LastDate(tokens, st.doc.date)
      && s.doc.version == LastVersion(tokens, st.doc.version)
      && s.doc.timescale == LastTimescale(tokens, st.doc.timescale)
      && s.timestamp == LastTime(tokens, st.timestamp)
    decreases |tokens|
  {
    if tokens != [] {
      AdvanceHeader(st, tokens[0], full);
      FoldHeader(Advance(st, tokens[0], full).value, tokens[1..], full);
    }
  }

  /** A value change is recorded at the time of the most recent `#<time>`
      token before it, 0 if there was none. */
  lemma ChangeAtLatestTime(tokens: seq<Token>, k: nat, full: bool, st: State, v: Value)
    requires k < |tokens| && tokens[k].Change?
    requires Fold(Start, tokens[..k], full) == Done(st)
    requires ReadValue(tokens[k].value) == Ok(v)
    ensures Fold(Start, tokens[..k + 1], full) ==
            match UpdateTiming(st.doc, LastTime(tokens[..k], 0), tokens[k].idCode, v, full)
            case Ok(d) => Done(st.(doc := d))
            case Err(f) => Crashed(f)
  {
    FoldHeader(Start, tokens[..k], full);
    assert tokens[..k + 1] == tokens[..k] + [tokens[k]];
    FoldAppend(Start, tokens[..k], [tokens[k]], full);
    assert [tokens[k]][1..] == [];
    assert Fold(st, [tokens[k]], full) == Continue(st, tokens[k], [], full);
  }

  /** A `$timescale` token written as a decimal magnitude, one space and
      a unit sets the time base to that magnitude and unit. */
  lemma TimescaleTokenSets(st: State, n: nat, unit: string, full: bool)
    requires unit != [] && NoSpace(unit)
    ensures Advance(st, Timescale(NatToDecimal(n) + " " + unit), full) ==
            Done(st.(doc := st.doc.(timescale := Some(TimeScale(n, unit)))))
  {
    ParseTimescaleWritten(n, unit);
  }

  /** The scope cursor only feeds log messages: a step from a state that
      differs only in the cursor ends the same way, with the same document
      and time stamp. */
  lemma AdvanceScopeFree(st: State, x: Option<string>, tok: Token, full: bool)
    ensures match Advance(st, tok, full)
            case Done(s) => Advance(st.(scope := x), tok, full).Done? &&
                            Advance(st.(scope := x), tok, full).value == s.(scope := Advance(st.(scope := x), tok, full).value.scope)
            case Rejected => Advance(st.(scope := x), tok, full) == Rejected
            case Crashed(f) => Advance(st.(scope := x), tok, full) == Crashed(f)
  {
  }

  /** The document and time stamp of a run's end, if it ends normally. */
  function Core(o: Outcome<State>): Outcome<(Doc, int)>
  {
    match o
    case Done(s) => Done((s.doc, s.timestamp))
    case Rejected => Rejected
    case Crashed(f) => Crashed(f)
  }

  /** The scope cursor never influences the document. */
  lemma {:induction false} FoldScopeFree(st: State, x: Option<string>, tokens: seq<Token>, full: bool)
    ensures Core(Fold(st.(scope := x), tokens, full)) == Core(Fold(st, tokens, full))
    decreases |tokens|
  {
    if tokens != [] {
      AdvanceScopeFree(st, x, tokens[0], full);
      var o := Advance(st, tokens[0], full);
      if o.Done? {
        var y := Advance(st.(scope := x), tokens[0], full).value.scope;
        assert Advance(st.(scope := x), tokens[0], full).value == o.value.(scope := y);
        FoldScopeFree(o.value, y, tokens[1..], full);
      }
    }
  }

  /** `$upscope` changes only the scope cursor, so removing it from a
      stream leaves the document and time stamp where they were: later
      declarations still go to the module opened last. */
  lemma UpscopeIgnored(st: State, a: seq<Token>, b: seq<Token>, full: bool)
    ensures Core(Fold(st, a + [Upscope] + b, full)) == Core(Fold(st, a + b, full))
  {
    FoldAppend(st, a, [Upscope] + b, full);
    FoldAppend(st, a, b, full);
    assert a + [Upscope] + b == a + ([Upscope] + b);
    if Fold(st, a, full).Done? {
      var s := Fold(st, a, full).value;
      assert ([Upscope] + b)[0] == Upscope && ([Upscope] + b)[1..] == b;
      FoldScopeFree(s, None, b, full);
    }
  }

  /** `$dumpvars` and the token kinds the loop does not handle change
      nothing: removing them from a stream changes no outcome. */
  lemma SkippedTokens(st: State, a: seq<Token>, tok: Token, b: seq<Token>, full: bool)
    requires tok == Dumpvar || tok == Other
    ensures Fold(st, a + [tok] + b, full) == Fold(st, a + b, full)
  {
    FoldAppend(st, a, [tok] + b, full);
    FoldAppend(st, a, b, full);
    assert a + [tok] + b == a + ([tok] + b);
    assert ([tok] + b)[0] == tok && ([tok] + b)[1..] == b;
  }

  /** An assertion error of the tokenizer after a prefix that ends
      normally makes `parse` return `None`, whatever follows. */
  lemma MalformedRejects(tokens: seq<Token>, k: nat)
    requires k < |tokens| && tokens[k] == Malformed
    requires Fold(Start, tokens[..k], false).Done?
    ensures Parsed(tokens) == Ok(None)
  {
    assert tokens == tokens[..k] + tokens[k..];
    FoldAppend(Start, tokens[..k], tokens[k..], false);
  }

  /** In the default mode a value change for an identifier outside the top
      module leaves the state exactly as it was. */
  lemma ChangeOutsideTopSkipped(st: State, id: string, raw: RawValue)
    requires st.doc.top.Some? && id !in st.doc.top.value.vars && ReadValue(raw).Ok?
    ensures Advance(st, Change(id, raw), false) == Done(st)
  {
    UpdateTimingSkips(st.doc, st.timestamp, id, ReadValue(raw).value);
  }

  /** A `$var reg` after `$scope a` and `$upscope` lands in the current
      module, which is the module named `a` (the top module if it is the
      first scope or has that name, otherwise the side module just opened),
      except when `a` names the top module while side modules exist: that
      repeated entry only warns, and the last side module stays current. */
  lemma VarAfterUpscope(st: State, a: string, reference: string, size: nat, id: string, full: bool)
    requires DocWf(st.doc)
    ensures var o := Fold(st, [EnterScope(a), Upscope, Var(RegVar, reference, size, id)], full);
      && o.Done?
      && CurrentName(o.value.doc) ==
         (if st.doc.top.Some? && st.doc.top.value.name == a then CurrentName(st.doc) else Some(a))
      && (o.value.doc.shadows == [] ==>
            id in o.value.doc.top.value.vars &&
            o.value.doc.top.value.vars[id] == Declared(Decl(Reg, reference, size, 0)))
      && (o.value.doc.shadows != [] ==>
            var last := o.value.doc.shadows[|o.value.doc.shadows| - 1];
            id in last.decls && last.decls[id] == Decl(Reg, reference, size, 0))
  {
    var v := Var(RegVar, reference, size, id);
    var toks := [EnterScope(a), Upscope, v];
    var d1 := UpdateModule(st.doc, a);
    var s := Declared(Decl(Reg, reference, size, 0));
    AddSignalWf(d1, id, s);
    var d2 := AddSignal(d1, id, s).value;
    var s1 := State(d1, st.timestamp, Some(a));
    var s2 := s1.(scope := None);
    var s3 := s2.(doc := d2);
    assert Fold(st, toks, full) == Done(s3) by {
      assert Advance(st, EnterScope(a), full) == Done(s1);
      assert Advance(s1, Upscope, full) == Done(s2);
      assert Advance(s2, v, full) == Done(s3);
      FoldThree(st, EnterScope(a), Upscope, v, s1, s2, s3, full);
    }
  }

  /** Three steps that each end normally make a run that ends in the state
      after the third. */
  lemma FoldThree(st: State, t1: Token, t2: Token, t3: Token, s1: State, s2: State, s3: State, full: bool)
    requires Advance(st, t1, full) == Done(s1) && Advance(s1, t2, full) == Done(s2)
    requires Advance(s2, t3, full) == Done(s3)
    ensures Fold(st, [t1, t2, t3], full) == Done(s3)
  {
    assert [t1, t2, t3][1..] == [t2, t3] && [t2, t3][1..] == [t3] && [t3][1..] == [];
    assert Continue(s2, t3, [], full) == Fold(s3, [], full) == Done(s3);
    assert Fold(s2, [t3], full) == Done(s3);
    assert Continue(s1, t2, [t3], full) == Done(s3);
    assert Fold(s1, [t2, t3], full) == Done(s3);
    assert Continue(st, t1, [t2, t3], full) == Done(s3);
  }

  class VCDParser {
    /** The rise/fall time table set with `set_expr`. */
    var expr: Option<RiseFall>
    /** The tokens not yet read. */
    var t: seq<Token>

    constructor ()
      ensures expr == None && t == []
    {
      expr := None;
      t := [];
    }

    /** `set_expr`: remembers the rise/fall time table. */
    method SetExpr(e: RiseFall)
      modifies this
      ensures expr == Some(e) && t == old(t)
    {
      expr := Some(e);
    }

    /** `parse`: reads the whole stream into a new document; an assertion
        error of the tokenizer gives `None` (here `null`), any other error
        stops the program. */
    method Parse(tokens: seq<Token>) returns (r: Result<VCDModule?>)
      modifies this
      ensures expr == old(expr)
      ensures match Parsed(tokens)
              case Ok(Some(d)) => r.Ok? && r.value != null && fresh(r.value) && r.value.Valid()
                                  && r.value.Abs() == d && DocWf(d)
              case Ok(None) => r == Ok(null)
              case Err(f) => r == Err(f)
    {
      t := tokens;
      var o := ParseGroup(false);
      match o
      case Done(top) =>
        ParsedWf(tokens);
        r := Ok(top);
      case Rejected =>
        r := Ok(null);
      case Crashed(f) =>
        r := Err(f);
    }

    /** `_parse_group`: a new document, time stamp 0 and no scope, then
        one step per token until the stream ends. */
    method ParseGroup(full: bool) returns (r: Outcome<VCDModule>)
      modifies this
      ensures expr == old(expr)
      ensures match Fold(Start, old(t), full)
              case Done(s) => r.Done? && fresh(r.value) && r.value.Valid() && r.value.Abs() == s.doc
              case Rejected => r.Rejected?
              case Crashed(f) => r == Crashed(f)
    {
      var top := new VCDModule();
      var timestamp := 0;
      var scope: Option<string> := None;
      var o: Outcome<()> := Done(());
      while t != [] && o.Done?
        invariant top.Valid() && fresh(top.Objects()) && expr == old(expr)
        invariant Fold(Start, old(t), full) == Then(o, State(top.Abs(), timestamp, scope), t, full)
        decreases |t|
      {
        var tok := t[0];
        ghost var toks := t;
        ghost var before := top.Objects();
        label Turn:
        ghost var st := State(top.Abs(), timestamp, scope);
        o, timestamp, scope := Apply(top, tok, timestamp, scope, full);
        FoldStep(st, toks, full, o, State(top.Abs(), timestamp, scope));
        // what the turn created is fresh here too, so the whole document is
        forall x | x in top.Objects()
          ensures !old(allocated(x))
        {
          if x !in before {
            assert !old@Turn(allocated(x));
          }
        }
        label Read:
        t := t[1..];
        DocumentFrame@Read(top);
      }
      match o {
        case Done(_) => r := Done(top);
        case Rejected => r := Rejected;
        case Crashed(f) => r := Crashed(f);
      }
    }

    /** One turn of the loop: the branch for the token's kind. */
    method Apply(top: VCDModule, tok: Token, timestamp: int, scope: Option<string>, full: bool)
      returns (o: Outcome<()>, timestamp': int, scope': Option<string>)
      requires top.Valid()
      modifies top.Objects()
      ensures top.Valid() && fresh(top.Objects() - old(top.Objects()))
      ensures Advance(State(old(top.Abs()), timestamp, scope), tok, full) ==
              Resumed(o, State(top.Abs(), timestamp', scope'))
    {
      timestamp', scope' := timestamp, scope;
      match tok {
        case EnterScope(ident) =>
          scope' := Some(ident);
          top.UpdateModule(ident);
          o := Done(());
        case Var(_, _, _, _) =>
          o := ApplyVar(top, tok, timestamp, scope, full);
        case Change(_, _) =>
          o := ApplyChange(top, tok, timestamp, scope, full);
        case _ =>
          o, timestamp', scope' := ApplyHeader(top, tok, timestamp, scope, full);
      }
    }

    /** The branches that touch no scope: the header fields, the time stamp
        and the scope name, or nothing. */
    method ApplyHeader(top: VCDModule, tok: Token, timestamp: int, scope: Option<string>, full: bool)
      returns (o: Outcome<()>, timestamp': int, scope': Option<string>)
      requires top.Valid() && !tok.EnterScope? && !tok.Var? && !tok.Change?
      modifies top
      ensures top.Valid() && top.Objects() == old(top.Objects())
      ensures Advance(State(old(top.Abs()), timestamp, scope), tok, full) ==
              Resumed(o, State(top.Abs(), timestamp', scope'))
    {
      o, timestamp', scope' := Done(()), timestamp, scope;
      match tok {
        case Date(text) =>
          top.date := text;
        case Version(text) =>
          top.version := text;
        case Timescale(text) =>
          var ts := ParseTimescale(text);
          if ts.Err? {
            o := Crashed(ts.fault);
          } else {
            top.timescale := Some(ts.value);
          }
        case Upscope =>
          scope' := None;
        case ChangeTime(time) =>
          timestamp' := time;
          if top.timescale.None? {
            o := Crashed(NoTimescale);
          }
        case Dumpvar =>
        case Other =>
        case Malformed =>
          o := Rejected;
      }
      HeaderWrite(top);
    }

    /** The `VAR` branch: a `reg` declares a register, a `wire` a wire,
        both of the declared size; any other type declares nothing. */
    method ApplyVar(top: VCDModule, tok: Token, timestamp: int, scope: Option<string>, full: bool) returns (o: Outcome<()>)
      requires top.Valid() && tok.Var?
      modifies top.Objects()
      ensures top.Valid() && fresh(top.Objects() - old(top.Objects()))
      ensures Advance(State(old(top.Abs()), timestamp, scope), tok, full) ==
              Resumed(o, State(top.Abs(), timestamp, scope))
    {
      o := Done(());
      ghost var st := State(top.Abs(), timestamp, scope);
      AdvanceVar(st, tok, full);
      var ty, id := tok.varType, tok.idCode;
      if ty.RegVar? || ty.WireVar? {
        var reg := NewRegister(ty, tok.reference, tok.size);
        ghost var added := AddSignal(st.doc, id, reg.Value());
        assert Advance(st, tok, full) == if added.Err? then Crashed(added.fault) else Done(st.(doc := added.value));
        assert top.Abs() == st.doc;
        top.CurrentIsOwned();
        var r := top.AddReg(reg, id);
        if r.Err? {
          o := Crashed(r.fault);
        }
      }
    }

    /** A `reg` makes a register, a `wire` a wire, of the declared size. */
    method NewRegister(ty: VarType, reference: string, size: nat) returns (reg: Register)
      requires VarKind(ty).Some?
      ensures fresh(reg) && reg.Value() == Declared(Decl(VarKind(ty).value, reference, size, 0))
    {
      reg := new Register(if ty.RegVar? then Reg else Wire, reference, size);
    }

    /** The value-change branch: the payload is read as the source reads
        it and handed to `update_timing_assignment` at time `timestamp`. */
    method ApplyChange(top: VCDModule, tok: Token, timestamp: int, scope: Option<string>, full: bool) returns (o: Outcome<()>)
      requires top.Valid() && tok.Change?
      modifies top.Objects()
      ensures top.Valid() && top.Objects() == old(top.Objects())
      ensures Advance(State(old(top.Abs()), timestamp, scope), tok, full) ==
              Resumed(o, State(top.Abs(), timestamp, scope))
    {
      var id, raw := tok.idCode, tok.value;
      var v: Value;
      match raw {
        case IntValue(n) =>
          v := Num(n);
        case StrValue(s) =>
          if 'x' in s || 'z' in s {
            v := Str(s);
          } else {
            var n := ParseInt(s);
            if n.None? {
              return Crashed(BadInteger(s));
            }
            v := Num(n.value);
          }
      }
      ghost var st := State(top.Abs(), timestamp, scope);
      ghost var updated := UpdateTiming(st.doc, timestamp, id, v, full);
      assert ReadValue(raw) == Ok(v);
      assert Advance(st, tok, full) == if updated.Err? then Crashed(updated.fault) else Done(st.(doc := updated.value));
      var r := top.UpdateTimingAssignment(timestamp, id, v, full);
      o := if r.Err? then Crashed(r.fault) else Done(());
    }
  }
}
