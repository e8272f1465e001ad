/**
 Live reloading (cmd/shadowdns/main.go) as interleaved steps: queries, the SIGHUP goroutine's
 reload one step at a time with any fallible step free to fail, and the SIGUSR1 goroutine's log
 reopening. Sinks, file descriptors and GeoIP handles are identified by numbers given out in order.
 */
module Reload {
  import opened Wrappers

  type Id = nat

  /** Everything a reload installs; `handles` are the GeoIP handles the state's matcher reads. */
  datatype Live = Live(state: Id, handles: set<Id>, limiter: Id, logger: Option<Id>, logCfg: Option<Id>, sink: Option<Id>,
                       geo: set<Id>, clears: nat)

  /** What a loaded configuration asks for. */
  datatype Conf = Conf(geoDirectory: bool, geoRules: bool, queryLog: Option<Id>)

  /** How far a reload has come, in program order; Undo releases handles after a failure. */
  datatype Stage = LoadConf | LoadShadow | OpenCountry | OpenAsn | BuildState | BuildLimiter | OpenQueryLog
                 | SwapState | StoreLimiter | StoreLogger | StoreSink | CloseOld | StoreGeo | ClearEphemeral
                 | Undo

  datatype Reloading = Idle
                     | Busy(stage: Stage, start: Live, conf: Conf, handles: set<Id>, state: Id, limiter: Id, newSink: Option<Id>)

  /** The SIGUSR1 goroutine: waiting, about to load the query-log sink, or about to reopen one. */
  datatype Reopening = Waiting | Loading | Holding(sink: Id)

  datatype World = World(
    live: Live,
    main: Option<Id>,
    sinks: map<Id, Option<Id>>,
    fdOpened: set<Id>, fdClosed: set<Id>,
    geoOpened: set<Id>, geoClosed: set<Id>,
    installed: set<Id>,
    queries: map<Id, set<Id>>,
    writers: map<Id, Id>,
    reload: Reloading, reopen: Reopening,
    next: Id)

  datatype Step =
    | QueryStart(q: Id) | QueryEnd(q: Id)
    /** A query loads the logger pointer, and later writes its line through it. */
    | LogLoad(q: Id) | LogWrite(q: Id)
    | ReloadStart
    /** ok says whether the next fallible step of the reload succeeds. */
    | ReloadStep(ok: bool, loaded: Conf)
    | UndoStep(handle: Id)
    | ReopenStart
    /** opens says whether the log path can be opened again. */
    | ReopenMain(opens: bool) | ReopenLoad | ReopenQueryLog(opens: bool)

  // ----- sinks

  function IsOpen(w: World, s: Id): bool {
    s in w.sinks && w.sinks[s].Some?
  }

  /** Close is terminal: a closed sink has no descriptor. */
  function CloseSink(w: World, s: Id): World {
    if !IsOpen(w, s) then w
    else w.(sinks := w.sinks[s := None], fdClosed := w.fdClosed + {w.sinks[s].value})
  }

  /** A new descriptor takes over before the old one is closed; a closed sink is left alone. */
  function ReopenSinkStep(w: World, s: Id, opens: bool): World {
    if !IsOpen(w, s) || !opens then w
    else w.(sinks := w.sinks[s := Some(w.next)], fdOpened := w.fdOpened + {w.next}, fdClosed := w.fdClosed + {w.sinks[s].value},
            next := w.next + 1)
  }

  // ----- the reload

  predicate BeforeCommit(st: Stage) {
    st in {LoadConf, LoadShadow, OpenCountry, OpenAsn, BuildState, BuildLimiter, OpenQueryLog, SwapState, Undo}
  }

  /** A failure after the GeoIP handles are open releases them first. */
  function Abort(w: World): World
    requires w.reload.Busy?
  {
    w.(reload := if w.reload.handles == {} then Idle else w.reload.(stage := Undo))
  }

  function Goto(w: World, st: Stage): World
    requires w.reload.Busy?
  {
    w.(reload := w.reload.(stage := st))
  }

  function OpenHandle(w: World, st: Stage): World
    requires w.reload.Busy?
  {
    w.(reload := w.reload.(stage := st, handles := w.reload.handles + {w.next}),
       geoOpened := w.geoOpened + {w.next}, next := w.next + 1)
  }

  /** Whether the query log differs from the start of the reload; stable until it is stored. */
  predicate LogChanged(r: Reloading)
    requires r.Busy?
  {
    r.start.logCfg != r.conf.queryLog
  }

  function Advance(w: World, ok: bool, loaded: Conf): World
    requires w.reload.Busy? && w.reload.stage != Undo
  {
    var r := w.reload;
    match r.stage
    case LoadConf => if ok then w.(reload := r.(stage := LoadShadow, conf := loaded)) else Abort(w)
    case LoadShadow => if ok then Goto(w, OpenCountry) else Abort(w)
    case OpenCountry =>
      if !r.conf.geoDirectory then (if r.conf.geoRules then Abort(w) else Goto(w, BuildState))
      else if ok then OpenHandle(w, OpenAsn) else Abort(w)
    case OpenAsn => if ok then OpenHandle(w, BuildState) else Abort(w)
    case BuildState =>
      if ok then w.(reload := r.(stage := BuildLimiter, state := w.next), next := w.next + 1) else Abort(w)
    case BuildLimiter =>
      if ok then w.(reload := r.(stage := OpenQueryLog, limiter := w.next), next := w.next + 1) else Abort(w)
    case OpenQueryLog =>
      if !LogChanged(r) || r.conf.queryLog == None then Goto(w, SwapState)
      else if ok then
        w.(reload := r.(stage := SwapState, newSink := Some(w.next)),
           sinks := w.sinks[w.next := Some(w.next + 1)], fdOpened := w.fdOpened + {w.next + 1}, next := w.next + 2)
      else Abort(w)
    case SwapState =>
      w.(live := w.live.(state := r.state, handles := r.handles), installed := w.installed + r.handles,
         reload := r.(stage := StoreLimiter))
    case StoreLimiter =>
      w.(live := w.live.(limiter := r.limiter), reload := r.(stage := if LogChanged(r) then StoreLogger else StoreGeo))
    case StoreLogger => w.(live := w.live.(logger := r.newSink), reload := r.(stage := StoreSink))
    case StoreSink => w.(live := w.live.(logCfg := r.conf.queryLog, sink := r.newSink), reload := r.(stage := CloseOld))
    case CloseOld => Goto(if r.start.sink.Some? then CloseSink(w, r.start.sink.value) else w, StoreGeo)
    case StoreGeo => w.(live := w.live.(geo := r.handles), reload := r.(stage := ClearEphemeral))
    case ClearEphemeral => w.(live := w.live.(clears := w.live.clears + 1), reload := Idle)
  }

  predicate Enabled(w: World, s: Step) {
    match s
    case QueryStart(q) => q !in w.queries
    case QueryEnd(q) => q in w.queries && q !in w.writers
    case LogLoad(q) => q in w.queries && q !in w.writers && w.live.logger.Some?
    case LogWrite(q) => q in w.writers
    case ReloadStart => w.reload.Idle?
    case ReloadStep(_, _) => w.reload.Busy? && w.reload.stage != Undo
    case UndoStep(h) => w.reload.Busy? && w.reload.stage == Undo && h in w.reload.handles
    case ReopenStart => w.reopen.Waiting? && w.main.None?
    case ReopenMain(_) => w.reopen.Waiting? && w.main.Some?
    case ReopenLoad => w.reopen.Loading?
    case ReopenQueryLog(_) => w.reopen.Holding?
  }

  function Next(w: World, s: Step): World
    requires Enabled(w, s)
  {
    match s
    case QueryStart(q) => w.(queries := w.queries[q := w.live.handles])
    case QueryEnd(q) => w.(queries := w.queries - {q})
    case LogLoad(q) => w.(writers := w.writers[q := w.live.logger.value])
    case LogWrite(q) => w.(writers := w.writers - {q})
    case ReloadStart => w.(reload := Busy(LoadConf, w.live, Conf(false, false, None), {}, 0, 0, None))
    case ReloadStep(ok, loaded) => Advance(w, ok, loaded)
    case UndoStep(h) =>
      var left := w.reload.handles - {h};
      w.(geoClosed := w.geoClosed + {h}, reload := if left == {} then Idle else w.reload.(handles := left))
    case ReopenStart => w.(reopen := Loading)
    case ReopenMain(opens) => ReopenSinkStep(w, w.main.value, opens).(reopen := Loading)
    case ReopenLoad => w.(reopen := if w.live.sink.Some? then Holding(w.live.sink.value) else Waiting)
    case ReopenQueryLog(opens) => ReopenSinkStep(w, w.reopen.sink, opens).(reopen := Waiting)
  }

  // ----- the invariant

  function Opt(o: Option<Id>): set<Id> {
    match o
    case None => {}
    case Some(i) => {i}
  }

  /** Every number in use was given out before. */
  ghost predicate Numbered(w: World) {
    && (forall i :: i in w.sinks ==> i < w.next) && (forall i :: i in w.fdOpened ==> i < w.next)
    && (forall i :: i in w.geoOpened ==> i < w.next)
    && w.fdClosed <= w.fdOpened && w.geoClosed <= w.geoOpened && w.installed <= w.geoOpened
    && w.sinks.Keys !! w.fdOpened && w.fdOpened !! w.geoOpened && w.sinks.Keys !! w.geoOpened
  }

  /** The sinks someone answers for: the main log, the query log, and those a reload holds. */
  function Owned(w: World): set<Id> {
    Opt(w.main) + Opt(w.live.sink) +
    (if w.reload.Busy? then Opt(w.reload.newSink) + (if w.reload.stage == CloseOld then Opt(w.reload.start.sink) else {}) else {})
  }

  /** Open sinks hold distinct open descriptors, each open descriptor has its sink, each open sink an owner. */
  ghost predicate Descriptors(w: World) {
    && (forall s :: IsOpen(w, s) ==> w.sinks[s].value in w.fdOpened && w.sinks[s].value !in w.fdClosed)
    && (forall s, t :: IsOpen(w, s) && IsOpen(w, t) && w.sinks[s] == w.sinks[t] ==> s == t)
    && (forall d :: d in w.fdOpened && d !in w.fdClosed ==> exists s :: IsOpen(w, s) && w.sinks[s].value == d)
    && (forall s :: IsOpen(w, s) ==> s in Owned(w))
  }

  /** The sinks in use are open and separate. */
  ghost predicate InUse(w: World) {
    && (w.main.Some? ==> IsOpen(w, w.main.value) && w.live.sink != w.main)
    && (w.live.sink.Some? ==> IsOpen(w, w.live.sink.value))
    && (w.live.logger.Some? ==> IsOpen(w, w.live.logger.value))
  }

  /** GeoIP: nothing installed is closed, queries read installed handles, and none is left over. */
  ghost predicate Handles(w: World) {
    && w.installed !! w.geoClosed
    && w.live.handles <= w.installed && w.live.geo <= w.installed
    && (forall q :: q in w.queries ==> w.queries[q] <= w.installed)
    && w.geoOpened - w.installed - w.geoClosed == (if w.reload.Busy? && BeforeCommit(w.reload.stage) then w.reload.handles else {})
    && (w.reload.Busy? ==> w.reload.handles <= w.geoOpened)
    && (w.reload.Busy? && !BeforeCommit(w.reload.stage) ==> w.reload.handles <= w.installed)
    && (w.reload.Busy? && BeforeCommit(w.reload.stage) ==> w.reload.handles !! w.installed && w.reload.handles !! w.geoClosed)
  }

  /** The live state a reload started at stage `st` has reached, from its start. */
  function Reached(r: Reloading): Live
    requires r.Busy?
  {
    var l0 := r.start;
    if BeforeCommit(r.stage) then l0
    else
      var l1 := l0.(state := r.state, handles := r.handles);
      if r.stage == StoreLimiter then l1
      else
        var l2 := l1.(limiter := r.limiter);
        if r.stage == StoreLogger then l2
        else
          var l3 := if LogChanged(r) then l2.(logger := r.newSink) else l2;
          if r.stage == StoreSink then l3
          else
            var l4 := if LogChanged(r) then l3.(logCfg := r.conf.queryLog, sink := r.newSink) else l3;
            if r.stage in {CloseOld, StoreGeo} then l4
            else l4.(geo := r.handles)
  }

  /** Where a reload stands determines the live state and the sinks it holds. */
  ghost predicate Progress(w: World) {
    && (w.reload.Idle? ==> w.live.logger == w.live.sink)
    && (w.reload.Busy? ==>
          var r := w.reload;
          && w.live == Reached(r)
          && r.start.logger == r.start.sink
          && (r.stage in {StoreLogger, StoreSink, CloseOld} ==> LogChanged(r))
          && (r.newSink.Some? ==> LogChanged(r) && IsOpen(w, r.newSink.value) && r.newSink != w.main && r.newSink != r.start.sink)
          && (r.newSink.Some? ==> r.stage !in {LoadConf, LoadShadow, OpenCountry, OpenAsn, BuildState, BuildLimiter, OpenQueryLog, Undo})
          && (r.stage in {SwapState, StoreLimiter, StoreLogger, StoreSink, CloseOld} && LogChanged(r) ==>
                (r.newSink.Some? <==> r.conf.queryLog.Some?))
          && (r.start.sink.Some? && (r.stage in {SwapState, StoreLimiter, StoreLogger, StoreSink, CloseOld} || BeforeCommit(r.stage)) ==>
                IsOpen(w, r.start.sink.value) && r.start.sink != w.main)
          && (r.stage == Undo ==> r.handles != {}))
  }

  ghost predicate Inv(w: World) {
    Numbered(w) && Descriptors(w) && InUse(w) && Handles(w) && Progress(w)
  }

  /** A server that has just started, with whatever logs and GeoIP handles its configuration asked for. */
  ghost predicate Starts(w: World) {
    && w.reload == Idle && w.reopen == Waiting && w.queries == map[] && w.writers == map[] && w.live.logger == w.live.sink
    && w.live.handles == w.live.geo == w.installed == w.geoOpened && w.geoClosed == {} && w.fdClosed == {}
    && w.sinks.Keys == Opt(w.main) + Opt(w.live.sink) && (w.main.Some? ==> w.live.sink != w.main)
    && (forall s :: s in w.sinks ==> w.sinks[s].Some? && w.sinks[s].value in w.fdOpened)
    && (forall s, t :: s in w.sinks && t in w.sinks && w.sinks[s] == w.sinks[t] ==> s == t)
    && (forall d :: d in w.fdOpened ==> exists s :: s in w.sinks && w.sinks[s] == Some(d))
    && Numbered(w)
  }

  lemma StartHolds(w: World)
    requires Starts(w)
    ensures Inv(w)
  {
  }

  // ----- every step keeps it

  /** What the sink part of the invariant needs of a step that opens and closes nothing. */
  lemma SinksUntouched(w: World, v: World)
    requires Descriptors(w)
    requires v.sinks == w.sinks && v.fdOpened == w.fdOpened && v.fdClosed == w.fdClosed
    requires forall s :: IsOpen(w, s) && s in Owned(w) ==> s in Owned(v)
    ensures Descriptors(v)
  {
    hide Owned;
    assert forall s :: IsOpen(v, s) <==> IsOpen(w, s);
    forall d | d in v.fdOpened && d !in v.fdClosed ensures exists s :: IsOpen(v, s) && v.sinks[s].value == d {
      var s :| IsOpen(w, s) && w.sinks[s].value == d;
      assert IsOpen(v, s) && v.sinks[s].value == d;
    }
  }

  lemma ReopenDescriptors(w: World, s: Id)
    requires Numbered(w) && Descriptors(w) && IsOpen(w, s)
    ensures Descriptors(ReopenSinkStep(w, s, true))
  {
    var v := ReopenSinkStep(w, s, true);
    assert Owned(v) == Owned(w);
    hide Owned;
    assert forall t :: IsOpen(v, t) <==> IsOpen(w, t);
    forall d | d in v.fdOpened && d !in v.fdClosed ensures exists t :: IsOpen(v, t) && v.sinks[t].value == d {
      if d == w.next {
        assert IsOpen(v, s) && v.sinks[s].value == d;
      } else {
        var t :| IsOpen(w, t) && w.sinks[t].value == d;
        assert IsOpen(v, t) && v.sinks[t].value == d;
      }
    }
  }

  lemma ReopenRest(w: World, s: Id)
    requires Inv(w) && IsOpen(w, s)
    ensures var v := ReopenSinkStep(w, s, true); Numbered(v) && InUse(v) && Handles(v)
  {
    var v := ReopenSinkStep(w, s, true);
    assert w.sinks[s].value in w.fdOpened by { hide InUse, Handles, Progress, Numbered; }
    assert Numbered(v) by { hide InUse, Handles, Progress, Descriptors; }
    hide Numbered, Descriptors, Progress;
    assert InUse(v) by {
      assert forall t :: IsOpen(v, t) <==> IsOpen(w, t);
      hide Handles, IsOpen;
    }
    hide InUse, IsOpen;
  }

  lemma ReopenProgress(w: World, s: Id)
    requires Progress(w) && IsOpen(w, s)
    ensures Progress(ReopenSinkStep(w, s, true))
  {
    var v := ReopenSinkStep(w, s, true);
    assert forall t :: IsOpen(v, t) <==> IsOpen(w, t);
    hide IsOpen, Reached, LogChanged;
  }

  lemma ReopenKeeps(w: World, s: Id, opens: bool)
    requires Inv(w)
    ensures Inv(ReopenSinkStep(w, s, opens))
  {
    if IsOpen(w, s) && opens {
      ReopenDescriptors(w, s);
      ReopenRest(w, s);
      ReopenProgress(w, s);
      hide Descriptors, Numbered, InUse, Handles, Progress, ReopenSinkStep;
    }
  }

  /** A step that leaves the logs, the live state and the reload alone keeps the rest of the invariant. */
  lemma UntouchedKeeps(w: World, v: World)
    requires Inv(w) && Handles(v)
    requires v == w.(queries := v.queries, writers := v.writers, reopen := v.reopen)
    ensures Inv(v)
  {
    SameSinks(w, v);
    assert Numbered(v) by { hide Descriptors, InUse, Handles, Progress; }
    assert Progress(v) by { hide Descriptors, InUse, Handles, Numbered, Reached, LogChanged; }
    hide Numbered, Descriptors, InUse, Handles, Progress;
    FiveParts(v);
  }

  lemma SameSinks(w: World, v: World)
    requires Descriptors(w) && InUse(w)
    requires v == w.(queries := v.queries, writers := v.writers, reopen := v.reopen)
    ensures Descriptors(v) && InUse(v)
  {
    assert Owned(v) == Owned(w);
    assert forall t :: IsOpen(v, t) <==> IsOpen(w, t);
    SinksUntouched(w, v);
    hide Descriptors, Owned, IsOpen;
  }

  lemma QueriesKeep(w: World, s: Step)
    requires Inv(w) && Enabled(w, s) && (s.QueryStart? || s.QueryEnd? || s.LogLoad? || s.LogWrite?)
    ensures Inv(Next(w, s))
  {
    hide Numbered, Descriptors, InUse, Progress, BeforeCommit;
    var v := Next(w, s);
    assert Handles(v);
    assert v == w.(queries := v.queries, writers := v.writers, reopen := v.reopen);
    hide *;
    UntouchedKeeps(w, v);
  }

  lemma UndoKeeps(w: World, h: Id)
    requires Inv(w) && Enabled(w, UndoStep(h))
    ensures Inv(Next(w, UndoStep(h)))
  {
    var v := Next(w, UndoStep(h));
    UndoSinks(w, h);
    assert Handles(v) by { hide Descriptors, InUse, Progress, Owned; }
    assert Numbered(v) by { hide Descriptors, InUse, Progress, Owned, IsOpen; }
    assert Progress(v) by { hide Descriptors, InUse, Handles, Numbered, Owned; }
    hide *;
    FiveParts(v);
  }

  lemma UndoSinks(w: World, h: Id)
    requires Inv(w) && Enabled(w, UndoStep(h))
    ensures var v := Next(w, UndoStep(h)); Descriptors(v) && InUse(v)
  {
    hide Numbered, Handles, LogChanged, Reached;
    var v := Next(w, UndoStep(h));
    assert Owned(v) == Owned(w);
    assert forall t :: IsOpen(v, t) <==> IsOpen(w, t);
    SinksUntouched(w, v);
    hide Descriptors, Owned, Progress;
  }

  predicate Preparing(w: World) {
    w.reload.Busy? && w.reload.stage in {LoadConf, LoadShadow, OpenCountry, OpenAsn, BuildState, BuildLimiter}
  }

  /** The steps that may fail, up to the limiter, touch neither a sink nor the live state. */
  lemma PreparingLeaves(w: World, ok: bool, loaded: Conf)
    requires Preparing(w)
    ensures var v := Advance(w, ok, loaded);
            && v.sinks == w.sinks && v.live == w.live && v.main == w.main && v.fdOpened == w.fdOpened && v.fdClosed == w.fdClosed
            && v.installed == w.installed && v.geoClosed == w.geoClosed && v.queries == w.queries && w.next <= v.next
            && (v.reload.Busy? ==> v.reload.newSink == w.reload.newSink && v.reload.start == w.reload.start)
            && (v.reload.Busy? ==>
                  || (v.reload.handles == w.reload.handles && v.geoOpened == w.geoOpened)
                  || (v.reload.handles == w.reload.handles + {w.next} && v.geoOpened == w.geoOpened + {w.next} && w.next < v.next))
            && (v.reload.Busy? ==> v.reload.stage in {LoadShadow, OpenCountry, OpenAsn, BuildState, BuildLimiter, OpenQueryLog, Undo})
            && (v.reload.Busy? && v.reload.stage == Undo ==> v.reload.handles != {})
            && (v.reload.Idle? ==> w.reload.handles == {} && v.geoOpened == w.geoOpened)
  {
  }

  lemma PreparingParts(w: World, ok: bool, loaded: Conf)
    requires Inv(w) && Preparing(w)
    ensures var v := Advance(w, ok, loaded); Numbered(v) && Descriptors(v) && InUse(v)
  {
    var v := Advance(w, ok, loaded);
    PreparingLeaves(w, ok, loaded);
    assert w.reload.newSink == None;
    hide Advance, Handles, Progress;
    assert forall t :: IsOpen(v, t) <==> IsOpen(w, t);
    SinksUntouched(w, v);
    hide Descriptors;
  }

  lemma PreparingRest(w: World, ok: bool, loaded: Conf)
    requires Inv(w) && Preparing(w)
    ensures var v := Advance(w, ok, loaded); Handles(v) && Progress(v)
  {
    var v := Advance(w, ok, loaded);
    PreparingLeaves(w, ok, loaded);
    assert w.reload.newSink == None;
    hide Advance, Descriptors, InUse;
    assert forall t :: IsOpen(v, t) <==> IsOpen(w, t);
    hide IsOpen;
  }

  lemma PreparingKeeps(w: World, ok: bool, loaded: Conf)
    requires Inv(w) && Preparing(w)
    ensures Inv(Advance(w, ok, loaded))
  {
    PreparingParts(w, ok, loaded);
    PreparingRest(w, ok, loaded);
    hide *;
    FiveParts(Advance(w, ok, loaded));
  }

  lemma FiveParts(w: World)
    requires Numbered(w) && Descriptors(w) && InUse(w) && Handles(w) && Progress(w)
    ensures Inv(w)
  {
  }

  predicate OpensLog(w: World) {
    w.reload.Busy? && w.reload.stage == OpenQueryLog && LogChanged(w.reload) && w.reload.conf.queryLog.Some?
  }

  lemma NewLogLeaves(w: World, loaded: Conf)
    requires OpensLog(w) && w.reload.newSink == None
    ensures var v := Advance(w, true, loaded);
            && v.sinks == w.sinks[w.next := Some(w.next + 1)] && v.fdClosed == w.fdClosed
            && v.fdOpened == w.fdOpened + {w.next + 1} && Owned(v) == Owned(w) + {w.next}
  {
  }

  lemma NewLogDescriptors(w: World, loaded: Conf)
    requires Inv(w) && OpensLog(w)
    ensures Descriptors(Advance(w, true, loaded))
  {
    assert w.reload.newSink == None by { hide Descriptors, InUse, Handles, Numbered, Reached; }
    NewLogLeaves(w, loaded);
    assert Numbered(w) && Descriptors(w) by { hide Numbered, Descriptors, InUse, Handles, Progress; }
    hide *;
    OneMoreSink(w, Advance(w, true, loaded));
  }

  /** One more sink with an owner and a descriptor of its own, both numbers new. */
  lemma OneMoreSink(w: World, v: World)
    requires Numbered(w) && Descriptors(w)
    requires v.sinks == w.sinks[w.next := Some(w.next + 1)] && v.fdOpened == w.fdOpened + {w.next + 1} && v.fdClosed == w.fdClosed
    requires Owned(v) == Owned(w) + {w.next}
    ensures Descriptors(v)
  {
    hide Owned;
    assert forall t :: IsOpen(v, t) <==> IsOpen(w, t) || t == w.next;
    forall d | d in v.fdOpened && d !in v.fdClosed ensures exists t :: IsOpen(v, t) && v.sinks[t].value == d {
      if d == w.next + 1 {
        assert IsOpen(v, w.next) && v.sinks[w.next].value == d;
      } else {
        var t :| IsOpen(w, t) && w.sinks[t].value == d;
        assert IsOpen(v, t) && v.sinks[t].value == d;
      }
    }
  }

  lemma NewLogParts(w: World, loaded: Conf)
    requires Inv(w) && OpensLog(w)
    ensures var v := Advance(w, true, loaded); Numbered(v) && InUse(v) && Handles(v)
  {
    hide Descriptors;
    var v := Advance(w, true, loaded);
    assert forall t :: IsOpen(v, t) <==> IsOpen(w, t) || t == w.next;
  }

  lemma NewLogProgress(w: World, loaded: Conf)
    requires Inv(w) && OpensLog(w)
    ensures Progress(Advance(w, true, loaded))
  {
    hide Descriptors, Handles;
    var v := Advance(w, true, loaded);
    assert forall t :: IsOpen(v, t) <==> IsOpen(w, t) || t == w.next;
    assert w.main.Some? ==> w.main.value in w.sinks;
    assert w.reload.start.sink.Some? ==> w.reload.start.sink.value in w.sinks;
    hide IsOpen;
  }

  /** Opening a new query log. */
  lemma NewLogKeeps(w: World, loaded: Conf)
    requires Inv(w) && OpensLog(w)
    ensures Inv(Advance(w, true, loaded))
  {
    NewLogDescriptors(w, loaded);
    NewLogParts(w, loaded);
    NewLogProgress(w, loaded);
    hide *;
    FiveParts(Advance(w, true, loaded));
  }

  lemma OpenLogKeeps(w: World, ok: bool, loaded: Conf)
    requires Inv(w) && w.reload.Busy? && w.reload.stage == OpenQueryLog
    ensures Inv(Advance(w, ok, loaded))
  {
    if LogChanged(w.reload) && w.reload.conf.queryLog.Some? && ok {
      NewLogKeeps(w, loaded);
      assert Advance(w, ok, loaded) == Advance(w, true, loaded);
    } else {
      NoLogKeeps(w, ok, loaded);
    }
  }

  /** An unchanged or removed query log opens nothing, and neither does a failure. */
  lemma NoLogKeeps(w: World, ok: bool, loaded: Conf)
    requires Inv(w) && OpensNoLog(w, ok)
    ensures Inv(Advance(w, ok, loaded))
  {
    var v := Advance(w, ok, loaded);
    NoLogLeaves(w, ok, loaded);
    NoLogSinks(w, ok, loaded);
    hide Advance;
    assert Numbered(v) by { hide Descriptors, InUse, Handles, Progress, Owned; }
    assert Handles(v) by { hide Descriptors, InUse, Progress, Owned; }
    assert Progress(v) by { hide Descriptors, InUse, Handles, Numbered, Owned; }
    hide *;
    FiveParts(v);
  }

  predicate OpensNoLog(w: World, ok: bool) {
    && w.reload.Busy? && w.reload.stage == OpenQueryLog
    && !(LogChanged(w.reload) && w.reload.conf.queryLog.Some? && ok)
  }

  /** Only the reload's stage moves: to the swap, to releasing handles, or to the end. */
  lemma NoLogLeaves(w: World, ok: bool, loaded: Conf)
    requires OpensNoLog(w, ok)
    ensures var v := Advance(w, ok, loaded);
            && v == w.(reload := v.reload)
            && (|| (v.reload == Idle && w.reload.handles == {})
                || (v.reload == w.reload.(stage := Undo) && w.reload.handles != {})
                || (v.reload == w.reload.(stage := SwapState) && (LogChanged(w.reload) ==> w.reload.conf.queryLog.None?)))
  {
  }

  lemma NoLogSinks(w: World, ok: bool, loaded: Conf)
    requires Inv(w) && OpensNoLog(w, ok)
    ensures var v := Advance(w, ok, loaded); Descriptors(v) && InUse(v)
  {
    var v := Advance(w, ok, loaded);
    NoLogLeaves(w, ok, loaded);
    hide Advance, Handles, Numbered;
    assert Owned(v) == Owned(w) by { hide Descriptors, InUse, Reached; }
    hide Progress, Owned;
    assert forall t :: IsOpen(v, t) <==> IsOpen(w, t);
    SinksUntouched(w, v);
    hide Descriptors;
  }

  predicate Installing(w: World) {
    w.reload.Busy? && w.reload.stage in {SwapState, StoreLimiter, StoreLogger, StoreSink, StoreGeo, ClearEphemeral}
  }

  /** The installing steps other than the close open and close nothing. */
  lemma InstallingLeaves(w: World, ok: bool, loaded: Conf)
    requires Installing(w)
    ensures var v := Advance(w, ok, loaded);
            && v.sinks == w.sinks && v.main == w.main && v.fdOpened == w.fdOpened && v.fdClosed == w.fdClosed
            && v.geoOpened == w.geoOpened && v.geoClosed == w.geoClosed && v.queries == w.queries && w.next == v.next
            && v.installed == (if w.reload.stage == SwapState then w.installed + w.reload.handles else w.installed)
            && v.live.handles == (if w.reload.stage == SwapState then w.reload.handles else w.live.handles)
            && v.live.geo == (if w.reload.stage == StoreGeo then w.reload.handles else w.live.geo)
            && v.live.sink == (if w.reload.stage == StoreSink then w.reload.newSink else w.live.sink)
            && v.live.logger == (if w.reload.stage == StoreLogger then w.reload.newSink else w.live.logger)
            && (v.reload.Busy? ==> v.reload.newSink == w.reload.newSink && v.reload.start == w.reload.start)
            && (v.reload.Busy? ==> v.reload.handles == w.reload.handles && !BeforeCommit(v.reload.stage))
            && (v.reload.Busy? && v.reload.stage == CloseOld ==> w.reload.stage == StoreSink)
            && (w.reload.stage == StoreSink ==> v.reload == w.reload.(stage := CloseOld))
  {
  }

  lemma InstallingDescriptors(w: World, ok: bool, loaded: Conf)
    requires Inv(w) && Installing(w)
    ensures Descriptors(Advance(w, ok, loaded))
  {
    var v := Advance(w, ok, loaded);
    InstallingLeaves(w, ok, loaded);
    assert Owned(w) <= Owned(v) by { hide Descriptors, InUse, Handles, Numbered; }
    hide Advance;
    SinksUntouched(w, v);
  }

  lemma InstallingParts(w: World, ok: bool, loaded: Conf)
    requires Inv(w) && Installing(w)
    ensures var v := Advance(w, ok, loaded); Numbered(v) && InUse(v)
  {
    var v := Advance(w, ok, loaded);
    InstallingLeaves(w, ok, loaded);
    hide Advance, Descriptors;
    assert forall t :: IsOpen(v, t) <==> IsOpen(w, t);
    hide IsOpen;
  }

  lemma InstallingHandles(w: World, ok: bool, loaded: Conf)
    requires Inv(w) && Installing(w)
    ensures Handles(Advance(w, ok, loaded))
  {
    InstallingLeaves(w, ok, loaded);
    hide Advance, Descriptors, InUse, Progress, Numbered;
  }

  lemma InstallingProgress(w: World, ok: bool, loaded: Conf)
    requires Progress(w) && Installing(w)
    ensures Progress(Advance(w, ok, loaded))
  {
    var v := Advance(w, ok, loaded);
    assert forall t :: IsOpen(v, t) <==> IsOpen(w, t);
    hide IsOpen;
  }

  lemma InstallingKeeps(w: World, ok: bool, loaded: Conf)
    requires Inv(w) && Installing(w)
    ensures Inv(Advance(w, ok, loaded))
  {
    InstallingDescriptors(w, ok, loaded);
    InstallingParts(w, ok, loaded);
    InstallingHandles(w, ok, loaded);
    InstallingProgress(w, ok, loaded);
    hide *;
    FiveParts(Advance(w, ok, loaded));
  }

  predicate Closing(w: World) {
    w.reload.Busy? && w.reload.stage == CloseOld
  }

  lemma ClosedOne(w: World, ok: bool, loaded: Conf)
    requires Closing(w)
    ensures var v, gone := Advance(w, ok, loaded), w.reload.start.sink;
            forall t: Id :: (IsOpen(v, t) <==> IsOpen(w, t) && !(gone.Some? && t == gone.value))
                            && (IsOpen(v, t) ==> v.sinks[t] == w.sinks[t])
  {
  }

  lemma ClosingDescriptors(w: World, ok: bool, loaded: Conf)
    requires Inv(w) && Closing(w)
    ensures Descriptors(Advance(w, ok, loaded))
  {
    hide InUse, Handles, Progress, Numbered;
    var v := Advance(w, ok, loaded);
    var gone := w.reload.start.sink;
    ClosedOne(w, ok, loaded);
    assert forall t: Id :: t in Owned(w) && !(gone.Some? && t == gone.value) ==> t in Owned(v);
    hide Owned;
    forall d | d in v.fdOpened && d !in v.fdClosed ensures exists t :: IsOpen(v, t) && v.sinks[t].value == d {
      var t :| IsOpen(w, t) && w.sinks[t].value == d;
      assert IsOpen(v, t) && v.sinks[t].value == d;
    }
  }

  lemma ClosingParts(w: World, ok: bool, loaded: Conf)
    requires Inv(w) && Closing(w)
    ensures var v := Advance(w, ok, loaded); Numbered(v) && Handles(v)
  {
    hide InUse, Progress, Owned;
    assert IsOpen(w, if w.reload.start.sink.Some? then w.reload.start.sink.value else 0) && w.reload.start.sink.Some? ==>
        w.sinks[w.reload.start.sink.value].value in w.fdOpened;
  }

  lemma ClosingUse(w: World, ok: bool, loaded: Conf)
    requires Inv(w) && Closing(w)
    ensures InUse(Advance(w, ok, loaded))
  {
    hide Descriptors, Numbered, Handles;
    ClosedOne(w, ok, loaded);
    assert w.live.sink == w.live.logger == w.reload.newSink;
    hide IsOpen;
  }

  lemma ClosingProgress(w: World, ok: bool, loaded: Conf)
    requires Inv(w) && Closing(w)
    ensures Progress(Advance(w, ok, loaded))
  {
    hide Descriptors, Numbered, Handles, InUse;
    ClosedOne(w, ok, loaded);
    hide IsOpen;
  }

  lemma ClosingKeeps(w: World, ok: bool, loaded: Conf)
    requires Inv(w) && Closing(w)
    ensures Inv(Advance(w, ok, loaded))
  {
    ClosingDescriptors(w, ok, loaded);
    ClosingParts(w, ok, loaded);
    ClosingUse(w, ok, loaded);
    ClosingProgress(w, ok, loaded);
    hide *;
    FiveParts(Advance(w, ok, loaded));
  }

  lemma RestartKeeps(w: World)
    requires Inv(w) && w.reload.Idle?
    ensures Inv(Next(w, ReloadStart))
  {
    var v := Next(w, ReloadStart);
    RestartSinks(w);
    assert Handles(v) && Numbered(v) by { hide Descriptors, InUse, Progress, Owned; }
    assert Progress(v) by { hide Descriptors, Handles, Numbered, Owned; }
    hide *;
    FiveParts(v);
  }

  lemma RestartSinks(w: World)
    requires Inv(w) && w.reload.Idle?
    ensures var v := Next(w, ReloadStart); Descriptors(v) && InUse(v)
  {
    hide Numbered, Handles, Progress;
    var v := Next(w, ReloadStart);
    assert Owned(v) == Owned(w);
    assert forall t :: IsOpen(v, t) <==> IsOpen(w, t);
    SinksUntouched(w, v);
    hide Descriptors, Owned;
  }

  lemma WaitKeeps(w: World, r: Reopening)
    requires Inv(w)
    ensures Inv(w.(reopen := r))
  {
    var v := w.(reopen := r);
    hide Numbered, Descriptors, InUse, Progress, BeforeCommit;
    assert Handles(v);
    hide *;
    UntouchedKeeps(w, v);
  }

  /** Every step of the reload goroutine keeps the invariant. */
  lemma AdvanceKeeps(w: World, ok: bool, loaded: Conf)
    requires Inv(w) && w.reload.Busy? && w.reload.stage != Undo
    ensures Inv(Advance(w, ok, loaded))
  {
    hide Inv, Advance;
    if w.reload.stage == OpenQueryLog {
      OpenLogKeeps(w, ok, loaded);
    } else if w.reload.stage == CloseOld {
      ClosingKeeps(w, ok, loaded);
    } else if w.reload.stage in {SwapState, StoreLimiter, StoreLogger, StoreSink, StoreGeo, ClearEphemeral} {
      InstallingKeeps(w, ok, loaded);
    } else {
      PreparingKeeps(w, ok, loaded);
    }
  }

  /** Every step of every goroutine keeps the invariant. */
  lemma StepKeeps(w: World, s: Step)
    requires Inv(w) && Enabled(w, s)
    ensures Inv(Next(w, s))
  {
    hide Inv, Advance, ReopenSinkStep;
    match s
    case QueryStart(_) => QueriesKeep(w, s);
    case QueryEnd(_) => QueriesKeep(w, s);
    case LogLoad(_) => QueriesKeep(w, s);
    case LogWrite(_) => QueriesKeep(w, s);
    case ReloadStart => RestartKeeps(w);
    case ReloadStep(ok, loaded) => AdvanceKeeps(w, ok, loaded);
    case UndoStep(h) => UndoKeeps(w, h);
    case ReopenStart => WaitKeeps(w, Loading);
    case ReopenMain(opens) =>
      ReopenKeeps(w, w.main.value, opens);
      WaitKeeps(ReopenSinkStep(w, w.main.value, opens), Loading);
    case ReopenLoad => WaitKeeps(w, if w.live.sink.Some? then Holding(w.live.sink.value) else Waiting);
    case ReopenQueryLog(opens) =>
      ReopenKeeps(w, w.reopen.sink, opens);
      WaitKeeps(ReopenSinkStep(w, w.reopen.sink, opens), Waiting);
  }

  // ----- whole runs

  /** Any interleaving of the goroutines' steps from a server that has just started. */
  ghost predicate IsRun(ws: seq<World>, steps: seq<Step>) {
    && |ws| == |steps| + 1 && Starts(ws[0])
    && forall i {:trigger steps[i]} :: 0 <= i < |steps| ==> Enabled(ws[i], steps[i]) && ws[i + 1] == Next(ws[i], steps[i])
  }

  lemma {:induction false} RunHolds(ws: seq<World>, steps: seq<Step>, j: nat)
    requires IsRun(ws, steps) && j < |ws|
    ensures Inv(ws[j])
  {
    hide Inv, Next, Starts;
    if j == 0 {
      StartHolds(ws[0]);
    } else {
      RunHolds(ws, steps, j - 1);
      StepKeeps(ws[j - 1], steps[j - 1]);
    }
  }

  lemma StepIsMonotone(w: World, s: Step)
    requires Enabled(w, s) && Inv(w)
    ensures w.installed <= Next(w, s).installed
    ensures forall t :: t in w.sinks && w.sinks[t] == None ==> t in Next(w, s).sinks && Next(w, s).sinks[t] == None
  {
    hide Descriptors, InUse, Handles, Progress, LogChanged, Advance;
    if s.ReloadStep? {
      AdvanceIsMonotone(w, s.ok, s.loaded);
    }
  }

  lemma AdvanceIsMonotone(w: World, ok: bool, loaded: Conf)
    requires Numbered(w) && w.reload.Busy? && w.reload.stage != Undo
    ensures var v := Advance(w, ok, loaded);
            && w.installed <= v.installed
            && forall t :: t in w.sinks && w.sinks[t] == None ==> t in v.sinks && v.sinks[t] == None
  {
    hide LogChanged;
    assert forall t :: t in w.sinks ==> t < w.next;
  }

  lemma {:induction false} RunIsMonotone(ws: seq<World>, steps: seq<Step>, i: nat, j: nat)
    requires IsRun(ws, steps) && i <= j < |ws|
    ensures ws[i].installed <= ws[j].installed
    ensures forall t :: t in ws[i].sinks && ws[i].sinks[t] == None ==> t in ws[j].sinks && ws[j].sinks[t] == None
  {
    hide Inv, Next, Starts;
    if i < j {
      RunIsMonotone(ws, steps, i, j - 1);
      RunHolds(ws, steps, j - 1);
      StepIsMonotone(ws[j - 1], steps[j - 1]);
    }
  }

  /**
   No GeoIP generation is closed once installed: not by a later reload, whether it succeeds or
   fails, and not while any query, however slow, still reads the state it was installed with.
   */
  lemma InstalledGeoIPNeverCloses(ws: seq<World>, steps: seq<Step>, i: nat, j: nat)
    requires IsRun(ws, steps) && i <= j < |ws|
    ensures ws[i].installed !! ws[j].geoClosed
    ensures forall q :: q in ws[i].queries ==> ws[i].queries[q] !! ws[j].geoClosed
    ensures ws[i].live.handles !! ws[j].geoClosed
  {
    RunHolds(ws, steps, i);
    RunHolds(ws, steps, j);
    RunIsMonotone(ws, steps, i, j);
    hide Numbered, Descriptors, InUse, Progress, IsRun;
  }

  /** Closing a log sink is for good: no reopen, however late, brings it back. */
  lemma ClosedSinkNeverReopens(ws: seq<World>, steps: seq<Step>, i: nat, j: nat, s: Id)
    requires IsRun(ws, steps) && i <= j < |ws|
    requires s in ws[i].sinks && !IsOpen(ws[i], s)
    ensures s in ws[j].sinks && !IsOpen(ws[j], s)
  {
    RunIsMonotone(ws, steps, i, j);
    hide IsRun;
  }

  /**
   No descriptor leaks. At every moment each log descriptor ever opened is closed, or is the
   one of an open sink that is the main log, the current query log, or held by a reload still
   in progress; and the query logger that a query loads writes to an open sink when it is loaded.
   */
  lemma DescriptorsAreAccountedFor(ws: seq<World>, steps: seq<Step>, j: nat, d: Id)
    requires IsRun(ws, steps) && j < |ws| && d in ws[j].fdOpened
    ensures var w := ws[j];
            d in w.fdClosed || exists s :: s in Owned(w) && IsOpen(w, s) && w.sinks[s].value == d
    ensures ws[j].reload.Idle? ==> Owned(ws[j]) == Opt(ws[j].main) + Opt(ws[j].live.sink)
    ensures ws[j].live.logger.Some? ==> IsOpen(ws[j], ws[j].live.logger.value)
  {
    RunHolds(ws, steps, j);
    var w := ws[j];
    if d !in w.fdClosed {
      var s :| IsOpen(w, s) && w.sinks[s].value == d;
      assert s in Owned(w);
    }
  }

  // ----- when a query-log line is lost

  /** The step with which a reload retires sink t. */
  predicate Retires(w: World, s: Step, t: Id) {
    s.ReloadStep? && w.reload.Busy? && w.reload.stage == CloseOld && w.reload.start.sink == Some(t)
  }

  lemma OnlyRetiringCloses(w: World, s: Step, t: Id)
    requires Enabled(w, s) && Inv(w) && IsOpen(w, t)
    ensures t in Next(w, s).sinks
    ensures IsOpen(Next(w, s), t) <==> !Retires(w, s, t)
  {
    hide Descriptors, InUse, Handles, Progress, LogChanged, Advance;
    if s.ReloadStep? {
      AdvanceCloses(w, s.ok, s.loaded, t);
    }
  }

  lemma AdvanceCloses(w: World, ok: bool, loaded: Conf, t: Id)
    requires Numbered(w) && w.reload.Busy? && w.reload.stage != Undo && IsOpen(w, t)
    ensures t in Advance(w, ok, loaded).sinks
    ensures IsOpen(Advance(w, ok, loaded), t) <==> !(w.reload.stage == CloseOld && w.reload.start.sink == Some(t))
  {
    hide LogChanged;
    assert t < w.next;
  }

  /** A sink stays open until it is retired, and never reopens. */
  lemma {:induction false} ClosedOnlyIfRetired(ws: seq<World>, steps: seq<Step>, i: nat, j: nat, t: Id)
    requires IsRun(ws, steps) && i <= j < |ws| && IsOpen(ws[i], t)
    ensures t in ws[j].sinks
    ensures IsOpen(ws[j], t) <==> forall k :: i <= k < j ==> !Retires(ws[k], steps[k], t)
  {
    hide Inv, Next, Starts, Retires, Enabled;
    if i < j {
      ClosedOnlyIfRetired(ws, steps, i, j - 1, t);
      RunHolds(ws, steps, j - 1);
      assert Enabled(ws[j - 1], steps[j - 1]);
      if IsOpen(ws[j - 1], t) {
        OnlyRetiringCloses(ws[j - 1], steps[j - 1], t);
      } else {
        RunIsMonotone(ws, steps, j - 1, j);
      }
    }
  }

  lemma LoadedLoggerIsOpen(w: World, q: Id)
    requires Inv(w) && Enabled(w, LogLoad(q))
    ensures IsOpen(w, w.live.logger.value)
  {
    hide Numbered, Descriptors, Handles, Progress;
  }

  /**
   A query that loads the logger at step i and writes through it at step j loses its line exactly
   when some reload retires that sink in between: the window is from the load to the write only.
   */
  lemma LineLostExactlyWhenRetired(ws: seq<World>, steps: seq<Step>, i: nat, j: nat, q: Id)
    requires IsRun(ws, steps) && i < j < |steps| && steps[i] == LogLoad(q) && steps[j] == LogWrite(q)
    requires forall k :: i < k < j ==> steps[k] != LogWrite(q)
    ensures q in ws[j].writers && Some(ws[j].writers[q]) == ws[i].live.logger
    ensures IsOpen(ws[j], ws[j].writers[q]) <==> forall k :: i <= k < j ==> !Retires(ws[k], steps[k], ws[j].writers[q])
  {
    hide Inv, Next, Starts, Retires, IsOpen;
    RunHolds(ws, steps, i);
    assert Enabled(ws[i], steps[i]);
    LoadedLoggerIsOpen(ws[i], q);
    WriterIsKept(ws, steps, i, j, q);
    ClosedOnlyIfRetired(ws, steps, i, j, ws[i].live.logger.value);
  }

  lemma {:induction false} WriterIsKept(ws: seq<World>, steps: seq<Step>, i: nat, j: nat, q: Id)
    requires IsRun(ws, steps) && i < j < |ws| && steps[i] == LogLoad(q)
    requires forall k :: i < k < j ==> steps[k] != LogWrite(q)
    ensures q in ws[j].writers && Some(ws[j].writers[q]) == ws[i].live.logger
  {
    hide Starts, Next;
    assert Enabled(ws[j - 1], steps[j - 1]) && ws[j] == Next(ws[j - 1], steps[j - 1]);
    if j == i + 1 {
      LoadRecordsLogger(ws[i], q);
    } else {
      WriterIsKept(ws, steps, i, j - 1, q);
      OtherStepsKeepWriter(ws[j - 1], steps[j - 1], q);
    }
  }

  lemma LoadRecordsLogger(w: World, q: Id)
    requires Enabled(w, LogLoad(q))
    ensures var v := Next(w, LogLoad(q)).writers; q in v && Some(v[q]) == w.live.logger
  {
  }

  lemma OtherStepsKeepWriter(w: World, s: Step, q: Id)
    requires Enabled(w, s) && s != LogWrite(q) && q in w.writers
    ensures q in Next(w, s).writers && Next(w, s).writers[q] == w.writers[q]
  {
  }

  /** A reload that has not reached the swap has changed nothing live. */
  predicate Uncommitted(w: World) {
    w.reload.Busy? && BeforeCommit(w.reload.stage)
  }

  lemma UncommittedStep(w: World, s: Step)
    requires Enabled(w, s) && Inv(w) && Uncommitted(w)
    ensures var v := Next(w, s);
            && (Uncommitted(v) ==> v.reload.start == w.reload.start)
            && (v.reload.Idle? ==> v.live == w.reload.start)
  {
    hide Numbered, Descriptors, InUse, Handles, LogChanged;
  }

  lemma {:induction false} UncommittedKeepsStart(ws: seq<World>, steps: seq<Step>, i: nat, j: nat)
    requires IsRun(ws, steps) && i < j < |ws| && steps[i].ReloadStart?
    requires forall k :: i < k <= j ==> Uncommitted(ws[k])
    ensures ws[j].reload.Busy? && ws[j].reload.start == ws[i].live
  {
    hide Inv, Starts;
    if j == i + 1 {
    } else {
      UncommittedKeepsStart(ws, steps, i, j - 1);
      RunHolds(ws, steps, j - 1);
      UncommittedStep(ws[j - 1], steps[j - 1]);
    }
  }

  /**
   A failed reload changes nothing: if a reload ends without having reached the swap, whatever
   queries and reopens ran in between, the live state is the one it started from, and every
   GeoIP handle it opened is closed.
   */
  lemma FailedReloadChangesNothing(ws: seq<World>, steps: seq<Step>, i: nat, j: nat)
    requires IsRun(ws, steps) && i + 1 < j < |ws| && steps[i].ReloadStart?
    requires (forall k :: i < k < j ==> Uncommitted(ws[k])) && ws[j].reload.Idle?
    ensures ws[j].live == ws[i].live
    ensures ws[j].geoOpened == ws[j].installed + ws[j].geoClosed
  {
    hide Inv, Starts, Next, Enabled, Uncommitted;
    UncommittedKeepsStart(ws, steps, i, j - 1);
    RunHolds(ws, steps, j - 1);
    RunHolds(ws, steps, j);
    assert Enabled(ws[j - 1], steps[j - 1]) && Uncommitted(ws[j - 1]) && ws[j] == Next(ws[j - 1], steps[j - 1]);
    hide IsRun;
    UncommittedStep(ws[j - 1], steps[j - 1]);
    IdleHoldsNoHandle(ws[j]);
  }

  lemma IdleHoldsNoHandle(w: World)
    requires Inv(w) && w.reload.Idle?
    ensures w.geoOpened == w.installed + w.geoClosed
  {
    hide Descriptors, InUse, Progress;
    forall h | h in w.geoOpened ensures h in w.installed + w.geoClosed {
      assert h !in w.geoOpened - w.installed - w.geoClosed;
    }
  }

  /** What a reload that reached the swap leaves once it ends: all of its own parts, and no other's. */
  lemma SuccessfulReloadInstallsEverything(w: World, s: Step)
    requires Inv(w) && Enabled(w, s) && w.reload.Busy? && !BeforeCommit(w.reload.stage) && Next(w, s).reload.Idle?
    ensures var r, l := w.reload, Next(w, s).live;
            && l.state == r.state && l.handles == l.geo == r.handles && l.limiter == r.limiter
            && l.logCfg == r.conf.queryLog && l.clears == r.start.clears + 1
            && l.logger == l.sink == (if LogChanged(r) then r.newSink else r.start.sink)
  {
    EndsByClearing(w, s);
    hide Numbered, Descriptors, InUse, Handles;
  }

  lemma EndsByClearing(w: World, s: Step)
    requires Enabled(w, s) && w.reload.Busy? && !BeforeCommit(w.reload.stage) && Next(w, s).reload.Idle?
    ensures s.ReloadStep? && w.reload.stage == ClearEphemeral
  {
    hide LogChanged;
  }

  // ----- what single steps do

  /** A step that may fail, and does, ends the reload without touching what is live. */
  lemma FailingStepAborts(w: World, loaded: Conf)
    requires Enabled(w, ReloadStep(false, loaded)) && w.reload.stage in {LoadConf, LoadShadow, OpenAsn, BuildState, BuildLimiter}
    ensures var v := Next(w, ReloadStep(false, loaded));
            v.live == w.live && (v.reload.Idle? || v.reload.stage == Undo)
  {
  }

  /** GeoIP rules without a directory fail the reload; so does a directory or a changed query log that does not open. */
  lemma FailingOpenAborts(w: World, ok: bool, loaded: Conf)
    requires Enabled(w, ReloadStep(ok, loaded))
    ensures var v := Next(w, ReloadStep(ok, loaded));
            w.reload.stage == OpenCountry && (if w.reload.conf.geoDirectory then !ok else w.reload.conf.geoRules) ==>
              v.live == w.live && (v.reload.Idle? || v.reload.stage == Undo)
    ensures var v := Next(w, ReloadStep(ok, loaded));
            w.reload.stage == OpenQueryLog && !ok && w.reload.conf.queryLog.Some? && w.reload.start.logCfg != w.reload.conf.queryLog ==>
              v.live == w.live && (v.reload.Idle? || v.reload.stage == Undo)
  {
  }

  /** A reopened sink gets a descriptor never used before, and gives up its old one. */
  lemma ReopenBringsNewDescriptor(w: World, s: Id)
    requires Inv(w) && IsOpen(w, s)
    ensures var v := ReopenSinkStep(w, s, true);
            && IsOpen(v, s) && v.sinks[s].value !in w.fdOpened && v.sinks[s].value in v.fdOpened && v.sinks[s].value !in v.fdClosed
            && w.sinks[s].value in v.fdClosed && (forall t :: t != s && t in w.sinks ==> t in v.sinks && v.sinks[t] == w.sinks[t])
    ensures ReopenSinkStep(w, s, false) == w
  {
    hide InUse, Handles, Progress, Owned;
  }

  /** One round of log reopening: the main log first, then the query log that is current when it is looked up. */
  lemma ReopenRound(w: World, opens: bool)
    ensures Enabled(w, ReopenMain(opens)) ==>
              w.main.Some? && Next(w, ReopenMain(opens)) == ReopenSinkStep(w, w.main.value, opens).(reopen := Loading)
    ensures Enabled(w, ReopenStart) ==> w.main.None? && Next(w, ReopenStart) == w.(reopen := Loading)
    ensures Enabled(w, ReopenLoad) ==>
              Next(w, ReopenLoad) == w.(reopen := if w.live.sink.Some? then Holding(w.live.sink.value) else Waiting)
    ensures Enabled(w, ReopenQueryLog(opens)) ==>
              Next(w, ReopenQueryLog(opens)) == ReopenSinkStep(w, w.reopen.sink, opens).(reopen := Waiting)
  {
  }

  /** A query reads one generation of GeoIP handles from its start to its end, whatever is reloaded meanwhile. */
  lemma {:induction false} QueryKeepsGeneration(ws: seq<World>, steps: seq<Step>, i: nat, j: nat, q: Id)
    requires IsRun(ws, steps) && i < j < |ws| && steps[i] == QueryStart(q)
    requires forall k :: i < k < j ==> steps[k] != QueryEnd(q)
    ensures q in ws[j].queries && ws[j].queries[q] == ws[i].live.handles
  {
    hide Starts, Next, Enabled;
    assert Enabled(ws[j - 1], steps[j - 1]) && ws[j] == Next(ws[j - 1], steps[j - 1]);
    if j == i + 1 {
      StartReadsLive(ws[i], q);
    } else {
      QueryKeepsGeneration(ws, steps, i, j - 1, q);
      OtherStepsKeepQuery(ws[j - 1], steps[j - 1], q);
    }
  }

  lemma StartReadsLive(w: World, q: Id)
    requires Enabled(w, QueryStart(q))
    ensures var v := Next(w, QueryStart(q)).queries; q in v && v[q] == w.live.handles
  {
  }

  lemma OtherStepsKeepQuery(w: World, s: Step, q: Id)
    requires Enabled(w, s) && s != QueryEnd(q) && q in w.queries
    ensures q in Next(w, s).queries && Next(w, s).queries[q] == w.queries[q]
  {
  }

  // ----- what a reload brings

  /** Given out since n and before m. */
  predicate Between(n: Id, m: Id, i: Id) {
    n <= i < m
  }

  /**
   The parts a reload holds are numbers given out since it started: two GeoIP handles when a
   directory is configured and none otherwise, then a state, then a limiter, then a query log.
   */
  ghost predicate NewParts(r: Reloading, n: Id, m: Id) {
    r.Busy? && r.stage != Undo ==>
      && (forall h :: h in r.handles ==> Between(n, m, h))
      && (r.newSink.Some? ==> Between(n, m, r.newSink.value))
      && (match r.stage
          case LoadConf => r.handles == {} && r.newSink == None
          case LoadShadow => r.handles == {} && r.newSink == None
          case OpenCountry => r.handles == {} && r.newSink == None
          case OpenAsn => r.conf.geoDirectory && |r.handles| == 1 && r.newSink == None
          case _ =>
            && |r.handles| == (if r.conf.geoDirectory then 2 else 0) && (r.conf.geoRules ==> r.conf.geoDirectory)
            && (r.stage != BuildState ==> Between(n, m, r.state))
            && (r.stage !in {BuildState, BuildLimiter} ==> Between(n, m, r.limiter) && r.limiter != r.state)
            && (r.stage in {BuildState, BuildLimiter, OpenQueryLog} ==> r.newSink == None)
            && (r.stage !in {BuildState, BuildLimiter, OpenQueryLog} ==>
                  (r.newSink.Some? <==> LogChanged(r) && r.conf.queryLog.Some?)))
  }

  lemma OpeningBringsNew(w: World, n: Id, ok: bool, loaded: Conf)
    requires w.reload.Busy? && w.reload.stage in {LoadConf, LoadShadow, OpenCountry, OpenAsn}
    requires NewParts(w.reload, n, w.next) && n <= w.next
    ensures var v := Advance(w, ok, loaded); NewParts(v.reload, n, v.next) && w.next <= v.next
  {
    var v, r := Advance(w, ok, loaded), w.reload;
    if v.reload.Busy? && v.reload.handles == r.handles + {w.next} {
      assert w.next !in r.handles;
    }
    hide LogChanged, BeforeCommit;
  }

  lemma BuildingBringsNew(w: World, n: Id, ok: bool, loaded: Conf)
    requires w.reload.Busy? && w.reload.stage in {BuildState, BuildLimiter, OpenQueryLog}
    requires NewParts(w.reload, n, w.next) && n <= w.next
    ensures var v := Advance(w, ok, loaded); NewParts(v.reload, n, v.next) && w.next <= v.next
  {
    hide BeforeCommit;
  }

  lemma InstallingBringsNew(w: World, n: Id, ok: bool, loaded: Conf)
    requires w.reload.Busy?
    requires w.reload.stage in {SwapState, StoreLimiter, StoreLogger, StoreSink, CloseOld, StoreGeo, ClearEphemeral}
    requires NewParts(w.reload, n, w.next) && n <= w.next
    ensures var v := Advance(w, ok, loaded); NewParts(v.reload, n, v.next) && w.next <= v.next
  {
    hide BeforeCommit;
  }

  lemma AdvanceBringsNew(w: World, n: Id, ok: bool, loaded: Conf)
    requires w.reload.Busy? && w.reload.stage != Undo && NewParts(w.reload, n, w.next) && n <= w.next
    ensures var v := Advance(w, ok, loaded); NewParts(v.reload, n, v.next) && w.next <= v.next
  {
    hide Advance, NewParts;
    if w.reload.stage in {LoadConf, LoadShadow, OpenCountry, OpenAsn} {
      OpeningBringsNew(w, n, ok, loaded);
    } else if w.reload.stage in {BuildState, BuildLimiter, OpenQueryLog} {
      BuildingBringsNew(w, n, ok, loaded);
    } else {
      InstallingBringsNew(w, n, ok, loaded);
    }
  }

  lemma StepBringsNew(w: World, s: Step, n: Id)
    requires Enabled(w, s) && NewParts(w.reload, n, w.next) && n <= w.next
    requires s.ReloadStart? ==> n == w.next
    ensures NewParts(Next(w, s).reload, n, Next(w, s).next) && n <= Next(w, s).next
  {
    if s.ReloadStep? {
      AdvanceBringsNew(w, n, s.ok, s.loaded);
    }
    hide Advance, LogChanged;
  }

  lemma {:induction false} ReloadHoldsNewParts(ws: seq<World>, steps: seq<Step>, i: nat, j: nat)
    requires IsRun(ws, steps) && i < j < |ws| && steps[i].ReloadStart?
    requires forall k :: i < k < j ==> !steps[k].ReloadStart?
    ensures NewParts(ws[j].reload, ws[i].next, ws[j].next) && ws[i].next <= ws[j].next
  {
    hide Starts, NewParts, Next;
    assert Enabled(ws[j - 1], steps[j - 1]) && ws[j] == Next(ws[j - 1], steps[j - 1]);
    if j == i + 1 {
      IdleHoldsNothing(ws[i]);
    } else {
      ReloadHoldsNewParts(ws, steps, i, j - 1);
    }
    StepBringsNew(ws[j - 1], steps[j - 1], ws[i].next);
  }

  lemma IdleHoldsNothing(w: World)
    requires w.reload.Idle?
    ensures NewParts(w.reload, w.next, w.next)
  {
  }

  /**
   A reload that runs to its end installs parts made since it started, whatever ran in between: a
   new state and a new limiter; two new GeoIP handles if its configuration has a directory, and
   none otherwise; and a new query log, or none, if the log's configuration changed.
   */
  lemma ReloadBringsNewParts(ws: seq<World>, steps: seq<Step>, i: nat, j: nat)
    requires IsRun(ws, steps) && i + 1 < j < |ws| && steps[i].ReloadStart?
    requires forall k :: i < k < j ==> !steps[k].ReloadStart?
    requires ws[j - 1].reload.Busy? && !BeforeCommit(ws[j - 1].reload.stage) && ws[j].reload.Idle?
    ensures var l, conf, n := ws[j].live, ws[j - 1].reload.conf, ws[i].next;
            && Between(n, ws[j].next, l.state) && Between(n, ws[j].next, l.limiter)
            && (forall h :: h in l.handles ==> Between(n, ws[j].next, h))
            && |l.handles| == (if conf.geoDirectory then 2 else 0) && (conf.geoRules ==> conf.geoDirectory)
            && l.logCfg == conf.queryLog
            && (if ws[j - 1].reload.start.logCfg == conf.queryLog then l.logger == ws[j - 1].reload.start.sink
                else (l.logger.Some? <==> conf.queryLog.Some?) && (l.logger.Some? ==> Between(n, ws[j].next, l.logger.value)))
  {
    var w, s := ws[j - 1], steps[j - 1];
    assert Enabled(w, s) && ws[j] == Next(w, s);
    RunHolds(ws, steps, j - 1);
    ReloadHoldsNewParts(ws, steps, i, j - 1);
    EndsByClearing(w, s);
    SuccessfulReloadInstallsEverything(w, s);
    StepKeepsCount(w, s);
    hide IsRun, Inv, Next, Enabled, Starts;
  }

  lemma StepKeepsCount(w: World, s: Step)
    requires Enabled(w, s)
    ensures w.next <= Next(w, s).next
  {
  }
}
