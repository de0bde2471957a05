/**
 * Configuration variables: who may set what, where each array element's value comes from, and what
 * RESET ALL puts back. Values are opaque; a record carries the function that reads and checks them.
 */
module ConfigVars {
  import opened Bytes

  /** Contexts in the order the program compares them. */
  datatype Ctx = Boot | Init | Reload | Pcp | Session {
    function Rank(): (n: nat)
    {
      match this
      case Boot => 0
      case Init => 1
      case Reload => 2
      case Pcp => 3
      case Session => 4
    }
  }

  datatype Source = Default | File | Argv | Client | SessionSet | ValueDefault

  /** One value, with the value and source it is reset to, and the context that set it last. */
  datatype Cell = Cell(value: int, source: Source, reset: int, resetSource: Source, setBy: Ctx)

  /** The fixed part of a parameter; a scalar is an array of one without an index-free form. */
  datatype Spec = Spec(
    context: Ctx,
    size: nat,
    indexFree: bool,         // ARRAY_VAR_ALLOW_NO_INDEX, and the index-free record exists
    isDefault: bool,         // DEFAULT_FOR_NO_VALUE_ARRAY_VAR on that record
    noResetAll: bool,
    boot: int,
    eval: string -> Option<int>,
    emptySlot: int -> bool)

  datatype Record = Record(spec: Spec, cells: seq<Cell>, free: Cell) {
    predicate Valid() { |cells| == spec.size }
  }

  // ----- one assignment

  datatype Gate = Pass | Ignore | Refuse

  /** Whether a parameter of one context may be set from another. */
  function GateOf(param: Ctx, ctx: Ctx): (g: Gate)
  {
    match param
    case Boot => if ctx.Boot? then Pass else if ctx.Reload? then Ignore else Refuse
    case Init => if ctx.Init? || ctx.Boot? then Pass else if ctx.Reload? then Ignore else Refuse
    case Reload => if ctx.Rank() > Reload.Rank() then Refuse else Pass
    case Pcp => if ctx.Rank() > Pcp.Rank() then Refuse else Pass
    case Session => Pass
  }

  /**
   * The gate, pair by pair. A parameter may be set from its own context and from those before it in the
   * order, a reload of one fixed at start is passed over in silence, and everything else is refused;
   * only a parameter fixed before start may not even be set at start.
   */
  lemma GateTable()
    ensures GateOf(Boot, Boot) == Pass && GateOf(Boot, Init) == Refuse && GateOf(Boot, Reload) == Ignore
    ensures GateOf(Boot, Pcp) == Refuse && GateOf(Boot, Session) == Refuse
    ensures GateOf(Init, Boot) == Pass && GateOf(Init, Init) == Pass && GateOf(Init, Reload) == Ignore
    ensures GateOf(Init, Pcp) == Refuse && GateOf(Init, Session) == Refuse
    ensures GateOf(Reload, Boot) == Pass && GateOf(Reload, Init) == Pass && GateOf(Reload, Reload) == Pass
    ensures GateOf(Reload, Pcp) == Refuse && GateOf(Reload, Session) == Refuse
    ensures GateOf(Pcp, Boot) == Pass && GateOf(Pcp, Init) == Pass && GateOf(Pcp, Reload) == Pass
    ensures GateOf(Pcp, Pcp) == Pass && GateOf(Pcp, Session) == Refuse
    ensures forall ctx :: GateOf(Session, ctx) == Pass
  {
  }

  /** The value to assign: read from the text, the boot value, or the reset value. */
  function NewValue(spec: Spec, c: Cell, value: Option<string>, source: Source): (v: Option<int>)
  {
    if value.Some? then spec.eval(value.value)
    else if source.Default? then Some(spec.boot)
    else Some(c.reset)
  }

  /** A cell after an accepted value; loading at start also moves what it will be reset to. */
  function Assigned(c: Cell, v: int, isReset: bool, ctx: Ctx, source: Source): (r: Cell)
  {
    Cell(v,
         if isReset then c.resetSource else source,
         if ctx.Init? then v else c.reset,
         if ctx.Init? then source else c.resetSource,
         ctx)
  }

  function Assign(spec: Spec, c: Cell, value: Option<string>, ctx: Ctx, source: Source): (r: Option<Cell>)
  {
    match NewValue(spec, c, value, source)
    case None => None
    case Some(v) => Some(Assigned(c, v, value.None? && !source.Default?, ctx, source))
  }

  function SetCell(r: Record, i: nat, value: Option<string>, ctx: Ctx, source: Source): (q: Record)
    requires r.Valid() && i < r.spec.size
    ensures q.Valid() && q.spec == r.spec
  {
    if !GateOf(r.spec.context, ctx).Pass? then r
    else
      match Assign(r.spec, r.cells[i], value, ctx, source)
      case None => r
      case Some(c) => r.(cells := r.cells[i := c])
  }

  /** Elements that have no value of their own. */
  predicate FollowsDefault(c: Cell)
  {
    c.source.Default? || c.source.ValueDefault?
  }

  /** The elements that follow the default take an index-free value, as if loaded at start. */
  function Propagated(cells: seq<Cell>, v: int): (r: seq<Cell>)
    ensures |r| == |cells|
  {
    seq(|cells|, i requires 0 <= i < |cells| =>
      if FollowsDefault(cells[i]) then Assigned(cells[i], v, false, Init, ValueDefault) else cells[i])
  }

  /** The value an index-free assignment hands to the elements. */
  function Handed(spec: Spec, free: Cell, value: Option<string>): (v: Option<int>)
  {
    if value.Some? then spec.eval(value.value) else Some(free.value)
  }

  function SetFree(r: Record, value: Option<string>, ctx: Ctx, source: Source): (q: Record)
    requires r.Valid()
    ensures q.Valid() && q.spec == r.spec
  {
    if !GateOf(r.spec.context, ctx).Pass? || !r.spec.indexFree then r
    else
      var free := Assign(r.spec, r.free, value, ctx, source);
      var r' := if free.Some? then r.(free := free.value) else r;
      var v := Handed(r.spec, r'.free, value);
      if r.spec.isDefault && v.Some? && !r.spec.context.Boot? then r'.(cells := Propagated(r'.cells, v.value)) else r'
  }

  function SetOption(r: Record, index: Option<nat>, value: Option<string>, ctx: Ctx, source: Source): (q: Record)
    requires r.Valid() && (index.Some? ==> index.value < r.spec.size)
    ensures q.Valid() && q.spec == r.spec
  {
    if index.Some? then SetCell(r, index.value, value, ctx, source) else SetFree(r, value, ctx, source)
  }

  function Booted(spec: Spec): (r: Record)
    ensures r.Valid()
  {
    var c := Cell(spec.boot, Default, spec.boot, Default, Boot);
    Record(spec, seq(spec.size, _ => c), c)
  }

  // ----- array parameters loaded at start

  /** One line of the configuration file. */
  datatype Line = Line(index: Option<nat>, value: string)

  function Load(spec: Spec, lines: seq<Line>): (r: Record)
    requires forall k :: 0 <= k < |lines| && lines[k].index.Some? ==> lines[k].index.value < spec.size
    ensures r.Valid() && r.spec == spec
    decreases |lines|
  {
    if lines == [] then Booted(spec)
    else
      var last := lines[|lines| - 1];
      SetOption(Load(spec, lines[..|lines| - 1]), last.index, Some(last.value), Init, File)
  }

  /** The last accepted value given to index i itself. */
  function LastOwn(spec: Spec, lines: seq<Line>, i: nat): (v: Option<int>)
    decreases |lines|
  {
    if lines == [] then None
    else
      var last := lines[|lines| - 1];
      if last.index == Some(i) && spec.eval(last.value).Some? then spec.eval(last.value)
      else LastOwn(spec, lines[..|lines| - 1], i)
  }

  /** The last accepted value given without an index. */
  function LastFree(spec: Spec, lines: seq<Line>): (v: Option<int>)
    decreases |lines|
  {
    if lines == [] then None
    else
      var last := lines[|lines| - 1];
      if last.index.None? && spec.eval(last.value).Some? then spec.eval(last.value)
      else LastFree(spec, lines[..|lines| - 1])
  }

  /** Its own value if it was given one, else the index-free one, else the boot value. */
  function Resolved(spec: Spec, lines: seq<Line>, i: nat): (v: int)
  {
    var own, free := LastOwn(spec, lines, i), LastFree(spec, lines);
    if own.Some? then own.value else if free.Some? then free.value else spec.boot
  }

  /**
   * Whatever the order of the lines, each element ends up with its resolved value, which is also
   * what it will be reset to; it follows the default exactly when it was given no value of its own.
   */
  lemma {:induction false} LoadResolves(spec: Spec, lines: seq<Line>, i: nat)
    requires !spec.context.Boot? && spec.indexFree && spec.isDefault && i < spec.size
    requires forall k :: 0 <= k < |lines| && lines[k].index.Some? ==> lines[k].index.value < spec.size
    ensures var c := Load(spec, lines).cells[i];
            && c.value == Resolved(spec, lines, i) && c.reset == c.value
            && (FollowsDefault(c) <==> LastOwn(spec, lines, i).None?)
            && !c.setBy.Session?
    decreases |lines|
  {
    if lines == [] {
    } else {
      LoadResolves(spec, lines[..|lines| - 1], i);
    }
  }

  // ----- SET, then RESET ALL

  datatype Op = Op(param: nat, index: Option<nat>, value: Option<string>)

  /** All parameters; a SET from a session names one of them, with or without an index. */
  ghost predicate Fits(params: seq<Record>, op: Op)
  {
    op.param < |params| && params[op.param].Valid() && (op.index.Some? ==> op.index.value < params[op.param].spec.size)
  }

  function SessionSetOne(params: seq<Record>, op: Op): (r: seq<Record>)
    requires Fits(params, op)
    ensures |r| == |params|
  {
    params[op.param := SetOption(params[op.param], op.index, op.value, Session, SessionSet)]
  }

  function ResetCell(spec: Spec, c: Cell): (r: Cell)
  {
    if !c.setBy.Session? || !GateOf(spec.context, Init).Pass? then c
    else Assigned(c, c.reset, true, Init, File)
  }

  /** RESET ALL for one parameter: the elements set by a session, then the index-free value. */
  function ResetRecord(r: Record): (q: Record)
    requires r.Valid()
    ensures q.Valid() && q.spec == r.spec
  {
    if r.spec.noResetAll then r
    else
      Record(r.spec,
             seq(r.spec.size, i requires 0 <= i < r.spec.size =>
               if r.spec.emptySlot(i) then r.cells[i] else ResetCell(r.spec, r.cells[i])),
             if r.spec.indexFree then ResetCell(r.spec, r.free) else r.free)
  }

  predicate AllValid(params: seq<Record>)
  {
    forall k :: 0 <= k < |params| ==> params[k].Valid()
  }

  function ResetAll(params: seq<Record>): (r: seq<Record>)
    requires AllValid(params)
    ensures |r| == |params|
  {
    seq(|params|, k requires 0 <= k < |params| => ResetRecord(params[k]))
  }

  /** As loading leaves a parameter: nothing set by a session, every value equal to its reset value. */
  predicate Loaded(r: Record)
  {
    && r.Valid()
    && (forall i :: 0 <= i < |r.cells| ==> r.cells[i].value == r.cells[i].reset && !r.cells[i].setBy.Session?)
    && r.free.value == r.free.reset && !r.free.setBy.Session?
  }

  /** RESET ALL looks at every element, and no index-free value is handed on to the elements. */
  predicate Restorable(spec: Spec)
  {
    spec.context.Session? ==>
      && !spec.noResetAll
      && !(spec.indexFree && spec.isDefault)
      && forall i :: 0 <= i < spec.size ==> !spec.emptySlot(i)
  }

  predicate SameValues(r: Record, q: Record)
  {
    && |r.cells| == |q.cells|
    && (forall i :: 0 <= i < |r.cells| ==> r.cells[i].value == q.cells[i].value)
    && r.free.value == q.free.value
  }

  /** Between the loaded record and now only sessions set values, and no reset value moved. */
  ghost predicate Touched(r: Record, q: Record)
  {
    && q.Valid() && q.spec == r.spec && |q.cells| == |r.cells|
    && (forall i :: 0 <= i < |r.cells| ==> TouchedCell(r.spec, r.cells[i], q.cells[i]))
    && TouchedCell(r.spec, r.free, q.free)
    && (!r.spec.indexFree ==> q.free == r.free)
  }

  ghost predicate TouchedCell(spec: Spec, c: Cell, d: Cell)
  {
    d == c || (spec.context.Session? && d.setBy.Session? && d.reset == c.reset && d.resetSource == c.resetSource)
  }

  lemma SessionSetTouches(r: Record, q: Record, index: Option<nat>, value: Option<string>)
    requires Loaded(r) && Touched(r, q) && Restorable(r.spec) && (index.Some? ==> index.value < r.spec.size)
    ensures Touched(r, SetOption(q, index, value, Session, SessionSet))
  {
  }

  lemma ResetCellRestores(spec: Spec, c: Cell, d: Cell)
    requires c.value == c.reset && !c.setBy.Session? && TouchedCell(spec, c, d)
    ensures ResetCell(spec, d).value == c.value
    ensures !spec.context.Session? ==> d == c
  {
  }

  lemma TouchedResets(r: Record, q: Record)
    requires Loaded(r) && Touched(r, q) && Restorable(r.spec)
    ensures SameValues(r, ResetRecord(q))
  {
    hide ResetCell, TouchedCell;
    var t := ResetRecord(q);
    forall i | 0 <= i < |r.cells|
      ensures t.cells[i].value == r.cells[i].value
    {
      ResetCellRestores(r.spec, r.cells[i], q.cells[i]);
    }
    ResetCellRestores(r.spec, r.free, q.free);
  }

  /** Every parameter is as loading left it, and RESET ALL can restore it. */
  ghost predicate AllLoaded(params: seq<Record>)
    ensures AllLoaded(params) ==> AllValid(params)
  {
    forall j :: 0 <= j < |params| ==> Loaded(params[j]) && Restorable(params[j].spec)
  }

  ghost predicate AllFit(params: seq<Record>, ops: seq<Op>)
  {
    forall j :: 0 <= j < |ops| ==> Fits(params, ops[j])
  }

  function SessionSets(params: seq<Record>, ops: seq<Op>): (r: seq<Record>)
    requires AllValid(params) && AllFit(params, ops)
    ensures |r| == |params| && AllValid(r)
    ensures forall k :: 0 <= k < |params| ==> r[k].spec == params[k].spec
    decreases |ops|
  {
    if ops == [] then params
    else
      var op := ops[|ops| - 1];
      var before := SessionSets(params, ops[..|ops| - 1]);
      assert Fits(params, op) && before[op.param].spec == params[op.param].spec;
      SessionSetOne(before, op)
  }

  lemma {:induction false} SetsTouch(params: seq<Record>, ops: seq<Op>, k: nat)
    requires AllLoaded(params) && AllFit(params, ops) && k < |params|
    ensures Touched(params[k], SessionSets(params, ops)[k])
    decreases |ops|
  {
    hide Touched, SetOption, Restorable;
    if ops == [] {
      TouchedNothing(params[k]);
    } else {
      var shorter, op := ops[..|ops| - 1], ops[|ops| - 1];
      SetsTouch(params, shorter, k);
      if op.param == k {
        assert Fits(params, op);
        SessionSetTouches(params[k], SessionSets(params, shorter)[k], op.index, op.value);
      }
    }
  }

  lemma TouchedNothing(r: Record)
    requires Loaded(r)
    ensures Touched(r, r)
  {
  }

  /** A parameter and the lines of the file that set it. */
  datatype Setting = Setting(spec: Spec, lines: seq<Line>) {
    predicate InRange()
    {
      forall k :: 0 <= k < |lines| && lines[k].index.Some? ==> lines[k].index.value < spec.size
    }

    function Loading(): (r: Record)
      requires InRange()
      ensures r.Valid() && r.spec == spec
    {
      Load(spec, lines)
    }
  }

  /** Loading leaves every value equal to what it is reset to. */
  lemma {:induction false} LoadIsLoaded(spec: Spec, lines: seq<Line>)
    requires forall k :: 0 <= k < |lines| && lines[k].index.Some? ==> lines[k].index.value < spec.size
    ensures Loaded(Load(spec, lines))
    decreases |lines|
  {
    if lines == [] {
    } else {
      LoadIsLoaded(spec, lines[..|lines| - 1]);
    }
  }

  function LoadAll(file: seq<Setting>): (r: seq<Record>)
    requires forall j :: 0 <= j < |file| ==> file[j].InRange()
    ensures |r| == |file| && AllValid(r)
  {
    seq(|file|, j requires 0 <= j < |file| => file[j].Loading())
  }

  /**
   * From the state that loading any lines leaves, any sequence of accepted or refused session SETs
   * followed by RESET ALL brings every value back, provided no parameter open to sessions hands an
   * index-free value on or is left out of RESET ALL.
   */
  lemma SetThenResetAll(file: seq<Setting>, ops: seq<Op>, k: nat)
    requires forall j :: 0 <= j < |file| ==> file[j].InRange() && Restorable(file[j].spec)
    requires AllFit(LoadAll(file), ops) && k < |file|
    ensures SameValues(LoadAll(file)[k], ResetAll(SessionSets(LoadAll(file), ops))[k])
  {
    hide Touched, Restorable, ResetRecord, Loaded, Load;
    var params := LoadAll(file);
    forall j | 0 <= j < |params|
      ensures Loaded(params[j]) && Restorable(params[j].spec)
    {
      LoadIsLoaded(file[j].spec, file[j].lines);
    }
    assert AllLoaded(params);
    SetsTouch(params, ops, k);
    TouchedResets(params[k], SessionSets(params, ops)[k]);
  }

  /** A session SET whose value is handed on to elements that follow the default, and differs from theirs. */
  predicate HandsOn(r: Record, index: Option<nat>, value: Option<string>)
  {
    && index.None? && r.spec.context.Session? && r.spec.indexFree && r.spec.isDefault
    && (value.Some? ==> r.spec.eval(value.value).Some?)
    && var v := if value.Some? then r.spec.eval(value.value).value else r.free.reset;
       exists i :: 0 <= i < |r.cells| && FollowsDefault(r.cells[i]) && r.cells[i].value != v
  }

  /**
   * One SET followed by RESET ALL restores a loaded parameter exactly when the SET hands nothing
   * new on: values handed on become reset values, so RESET ALL keeps them.
   */
  lemma OneSetThenReset(r: Record, index: Option<nat>, value: Option<string>)
    requires Loaded(r) && !r.spec.noResetAll && (forall i :: 0 <= i < r.spec.size ==> !r.spec.emptySlot(i))
    requires index.Some? ==> index.value < r.spec.size
    ensures SameValues(r, ResetRecord(SetOption(r, index, value, Session, SessionSet))) <==> !HandsOn(r, index, value)
  {
    if r.spec.context.Session? && index.None? && r.spec.indexFree && r.spec.isDefault {
      var q := SetOption(r, index, value, Session, SessionSet);
      var t := ResetRecord(q);
      if value.None? || r.spec.eval(value.value).Some? {
        var v := if value.Some? then r.spec.eval(value.value).value else r.free.reset;
        assert forall i :: 0 <= i < |r.cells| ==>
          t.cells[i].value == if FollowsDefault(r.cells[i]) then v else r.cells[i].value;
        assert t.free.value == r.free.value;
      } else {
        assert t.cells == r.cells;
      }
    } else {
      TouchedNothing(r);
      SessionSetKeepsOthers(r, index, value);
    }
  }

  lemma SessionSetKeepsOthers(r: Record, index: Option<nat>, value: Option<string>)
    requires Loaded(r) && !r.spec.noResetAll && (forall i :: 0 <= i < r.spec.size ==> !r.spec.emptySlot(i))
    requires index.Some? ==> index.value < r.spec.size
    requires !(r.spec.context.Session? && index.None? && r.spec.indexFree && r.spec.isDefault)
    ensures SameValues(r, ResetRecord(SetOption(r, index, value, Session, SessionSet)))
  {
    var q := SetOption(r, index, value, Session, SessionSet);
    assert Touched(r, q);
    var t := ResetRecord(q);
    forall i | 0 <= i < |r.cells|
      ensures t.cells[i].value == r.cells[i].value
    {
      ResetCellRestores(r.spec, r.cells[i], q.cells[i]);
    }
    ResetCellRestores(r.spec, r.free, q.free);
  }

  // ----- a RELOAD in between

  /** A reload moves the value but not what it is reset to. */
  lemma ReloadForgotten(r: Record, i: nat, value: string, later: string)
    requires Loaded(r) && r.spec.context.Session? && i < r.spec.size && !r.spec.noResetAll && !r.spec.emptySlot(i)
    requires r.spec.eval(value).Some? && r.spec.eval(later).Some?
    ensures var reloaded := SetOption(r, Some(i), Some(value), Reload, File);
            var reset := ResetRecord(SetOption(reloaded, Some(i), Some(later), Session, SessionSet));
            && reloaded.cells[i].value == r.spec.eval(value).value
            && reset.cells[i].value == r.cells[i].value
  {
  }

  /** The failing case: an index-free SET of a session array parameter survives RESET ALL. */
  lemma IndexFreeSetSticks(eval: string -> Option<int>, emptySlot: int -> bool)
    requires eval("7") == Some(7) && !emptySlot(0)
    ensures var r := Booted(Spec(Session, 1, true, true, false, 0, eval, emptySlot));
            Loaded(r) && !SameValues(r, ResetRecord(SetOption(r, None, Some("7"), Session, SessionSet)))
  {
    var r := Booted(Spec(Session, 1, true, true, false, 0, eval, emptySlot));
    assert FollowsDefault(r.cells[0]) && r.cells[0].value != 7;
    OneSetThenReset(r, None, Some("7"));
  }
}
