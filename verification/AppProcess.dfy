/**
 Starting and stopping an app (src/process.cpp `execute`, `terminate`, `launch_input_only`):
 prep commands with their undo commands, the display name and the input settings that an app
 overrides while it runs. What commands do, and which display an app gets, are parameters.
 */
module AppProcess {
  import opened Wrappers

  // ----- Data -----

  datatype Prep = Prep(doCmd: string, undoCmd: string)

  datatype App = App(id: int, cmd: string, gamepad: string, preps: seq<Prep>)

  /** How running a command ended: its exit code, permission denied, or any other error. */
  datatype Outcome = Exit(code: int) | Denied | Failed

  datatype Input = Input(controller: bool, gamepad: string)

  /** What happens around an `execute`: the virtual display's name, the encoder probe, each do command, the app itself. */
  datatype World = World(display: Option<string>, probeFails: bool, outcome: nat -> Outcome, launchFails: bool)

  /** A prep command run for the `run`-th `execute`. */
  datatype Entry = Did(run: nat, step: nat) | Undid(run: nat, step: nat)

  datatype Proc = Proc(
    appId: int,
    app: App,
    cursor: nat,
    initialDisplay: string,
    savedInput: Option<Input>,
    outputName: string,
    input: Input,
    run: nat,
    log: seq<Entry>)

  const NO_APP := App(0, "", "", [])
  const PROBE_FAILED := 503

  // ----- Single steps -----

  /** A step is passed when there is nothing to do, its command exits with zero, or it is denied for an app without a command. */
  predicate Passes(app: App, k: nat, o: Outcome)
    requires k < |app.preps|
  {
    app.preps[k].doCmd == "" || o == Exit(0) || (o == Denied && app.cmd == "")
  }

  /** Where the cursor stops: at the first step that fails, or at the end. */
  function PassedFrom(app: App, outcome: nat -> Outcome, k: nat): nat
    requires k <= |app.preps|
    decreases |app.preps| - k
  {
    if k == |app.preps| || !Passes(app, k, outcome(k)) then k else PassedFrom(app, outcome, k + 1)
  }

  lemma {:induction false} PassedFromStops(app: App, outcome: nat -> Outcome, k: nat)
    requires k <= |app.preps|
    ensures var n := PassedFrom(app, outcome, k);
      && k <= n <= |app.preps|
      && (forall i :: k <= i < n ==> Passes(app, i, outcome(i)))
      && (n < |app.preps| ==> !Passes(app, n, outcome(n)))
    decreases |app.preps| - k
  {
    if k < |app.preps| && Passes(app, k, outcome(k)) {
      PassedFromStops(app, outcome, k + 1);
    }
  }

  /** An empty command is skipped. */
  function DoOf(app: App, run: nat, k: nat): seq<Entry>
    requires k < |app.preps|
  {
    if app.preps[k].doCmd == "" then [] else [Did(run, k)]
  }

  function UndoOf(app: App, run: nat, k: nat): seq<Entry>
    requires k < |app.preps|
  {
    if app.preps[k].undoCmd == "" then [] else [Undid(run, k)]
  }

  /** The do commands of the first `k` steps, in order. */
  function Dos(app: App, run: nat, k: nat): seq<Entry>
    requires k <= |app.preps|
  {
    if k == 0 then [] else Dos(app, run, k - 1) + DoOf(app, run, k - 1)
  }

  /** The undo commands of the first `k` steps, last step first. */
  function Undos(app: App, run: nat, k: nat): seq<Entry>
    requires k <= |app.preps|
  {
    if k == 0 then [] else UndoOf(app, run, k - 1) + Undos(app, run, k - 1)
  }

  /** Do commands run in the order of the steps. */
  lemma {:induction false} DosForwards(app: App, run: nat, k: nat)
    requires k <= |app.preps|
    ensures forall a :: 0 <= a < |Dos(app, run, k)| ==> Dos(app, run, k)[a].Did? && Dos(app, run, k)[a].step < k
    ensures forall a, b :: 0 <= a < b < |Dos(app, run, k)| ==> Dos(app, run, k)[a].step < Dos(app, run, k)[b].step
  {
    if k > 0 {
      DosForwards(app, run, k - 1);
    }
  }

  /** Undo commands run in the opposite order. */
  lemma {:induction false} UndosBackwards(app: App, run: nat, k: nat)
    requires k <= |app.preps|
    ensures forall a :: 0 <= a < |Undos(app, run, k)| ==> Undos(app, run, k)[a].Undid? && Undos(app, run, k)[a].step < k
    ensures forall a, b :: 0 <= a < b < |Undos(app, run, k)| ==> Undos(app, run, k)[a].step > Undos(app, run, k)[b].step
  {
    if k > 0 {
      UndosBackwards(app, run, k - 1);
    }
  }

  predicate Valid(p: Proc) {
    p.cursor <= |p.app.preps|
  }

  function AfterTerminate(p: Proc): Proc
    requires Valid(p)
  {
    p.(appId := -1,
      app := NO_APP,
      cursor := 0,
      initialDisplay := "",
      savedInput := None,
      outputName := if p.appId <= 0 && p.initialDisplay == "" then p.outputName else p.initialDisplay,
      input := if p.savedInput.Some? then p.savedInput.value else p.input,
      log := p.log + Undos(p.app, p.run, p.cursor))
  }

  /** An `execute` up to its first prep command: the settings an app overrides are saved. */
  function Prepared(p: Proc, app: App, w: World): Proc
    requires Valid(p)
  {
    var q := AfterTerminate(p);
    q.(appId := app.id,
      app := app,
      run := q.run + 1,
      initialDisplay := q.outputName,
      outputName := if w.display.Some? then w.display.value else q.outputName,
      savedInput := if app.gamepad == "" then None else Some(q.input),
      input := if app.gamepad == "" then q.input
               else if app.gamepad == "disabled" then q.input.(controller := false)
               else Input(true, app.gamepad))
  }

  /** The fail guard: the display name is put back, then everything is terminated. */
  function Guarded(p: Proc): Proc
    requires Valid(p)
  {
    AfterTerminate(p.(outputName := p.initialDisplay))
  }

  function Execute(p: Proc, app: App, w: World): (Proc, int)
    requires Valid(p)
  {
    var q := Prepared(p, app, w);
    if w.probeFails then (Guarded(q), PROBE_FAILED)
    else
      var n := PassedFrom(app, w.outcome, 0);
      PassedFromStops(app, w.outcome, 0);
      if n < |app.preps| then (Guarded(q.(cursor := n, log := q.log + Dos(app, q.run, n + 1))), -1)
      else
        var done := q.(cursor := n, log := q.log + Dos(app, q.run, n));
        if app.cmd != "" && w.launchFails then (Guarded(done), -1) else (done, 0)
  }

  function LaunchInputOnly(p: Proc, inputOnlyId: int): Proc {
    p.(appId := inputOnlyId)
  }

  // ----- Runs -----

  datatype Event =
    | Run(app: App, w: World)
    | Terminate
    | InputOnly(id: int)

  function Step(p: Proc, e: Event): (q: Proc)
    requires Valid(p)
    ensures Valid(q)
  {
    match e
    case Run(app, w) => PassedFromStops(app, w.outcome, 0); Execute(p, app, w).0
    case Terminate => AfterTerminate(p)
    case InputOnly(id) => LaunchInputOnly(p, id)
  }

  function Fresh(outputName: string, input: Input): Proc {
    Proc(0, NO_APP, 0, "", None, outputName, input, 0, [])
  }

  function After(outputName: string, input: Input, events: seq<Event>): (p: Proc)
    ensures Valid(p)
  {
    if events == [] then Fresh(outputName, input)
    else Step(After(outputName, input, events[..|events| - 1]), events[|events| - 1])
  }

  // ----- Bracketing -----

  /** One `execute` of a run, as it was asked for. */
  datatype Launch = Launch(app: App, w: World) {
    /** How many steps it passes: none when the probe fails, else up to the first that fails. */
    function Passed(): (n: nat)
      ensures n <= |app.preps|
    {
      PassedFromStops(app, w.outcome, 0);
      if w.probeFails then 0 else PassedFrom(app, w.outcome, 0)
    }
    /** How many it tries: the one that fails, too. */
    function Tried(): (n: nat)
      ensures n <= |app.preps|
    {
      if !w.probeFails && Passed() < |app.preps| then Passed() + 1 else Passed()
    }
    /** Whether the app is running when it returns. */
    predicate Succeeds() {
      !w.probeFails && Passed() == |app.preps| && !(app.cmd != "" && w.launchFails)
    }
  }

  /** The launches of a run, in order; the r-th is known in the log as run r. */
  function Launches(events: seq<Event>): seq<Launch> {
    if events == [] then []
    else
      var before := Launches(events[..|events| - 1]);
      match events[|events| - 1]
      case Run(app, w) => before + [Launch(app, w)]
      case _ => before
  }

  /** Whether the last launch is still running: it succeeded and no `terminate` came after it. */
  predicate StillRuns(events: seq<Event>) {
    events != [] &&
    match events[|events| - 1]
    case Run(app, w) => Launch(app, w).Succeeds()
    case Terminate => false
    case InputOnly(_) => StillRuns(events[..|events| - 1])
  }

  /** A launch that is over: the commands tried, forwards, then the undo commands of the steps passed, backwards. */
  function Bracket(run: nat, l: Launch): seq<Entry> {
    Dos(l.app, run, l.Tried()) + Undos(l.app, run, l.Passed())
  }

  function Brackets(ls: seq<Launch>): seq<Entry> {
    if ls == [] then [] else Brackets(ls[..|ls| - 1]) + Bracket(|ls|, ls[|ls| - 1])
  }

  /** What the log has to be, from the events alone. */
  function ExpectedLog(events: seq<Event>): seq<Entry> {
    var ls := Launches(events);
    if StillRuns(events) && ls != [] then
      var last := ls[|ls| - 1];
      Brackets(ls[..|ls| - 1]) + Dos(last.app, |ls|, last.Passed())
    else Brackets(ls)
  }

  /** How the process stands after the events. */
  ghost predicate Tracks(p: Proc, events: seq<Event>) {
    var ls := Launches(events);
    && Valid(p) && p.run == |ls| && p.log == ExpectedLog(events)
    && if StillRuns(events) then ls != [] && p.app == ls[|ls| - 1].app && p.cursor == ls[|ls| - 1].Passed() == ls[|ls| - 1].Tried()
       else p.cursor == 0
  }

  lemma NoSteps(app: App, run: nat)
    ensures Dos(app, run, 0) == [] && Undos(app, run, 0) == []
  {
  }

  lemma Regroup(a: seq<Entry>, d: seq<Entry>, u: seq<Entry>)
    ensures (a + d) + u == a + (d + u)
  {
  }

  /** Terminating undoes the steps of the launch that runs, and nothing when none does. */
  lemma TerminateLog(p: Proc, events: seq<Event>)
    requires Tracks(p, events)
    ensures AfterTerminate(p).log == Brackets(Launches(events))
  {
    hide Dos, Undos;
    var ls := Launches(events);
    NoSteps(p.app, p.run);
    if StillRuns(events) {
      var last := ls[|ls| - 1];
      Regroup(Brackets(ls[..|ls| - 1]), Dos(last.app, |ls|, last.Passed()), Undos(last.app, |ls|, last.Passed()));
    } else {
      assert p.log + [] == p.log;
    }
  }

  /** A launch appends its own bracket, or the open half of it when the app runs. */
  lemma ExecuteLog(p: Proc, app: App, w: World)
    requires Valid(p)
    ensures var l, r := Launch(app, w), p.run + 1;
      var closed := AfterTerminate(p).log;
      var q := Execute(p, app, w).0;
      && Valid(q) && q.run == r
      && (l.Succeeds() ==> q.log == closed + Dos(app, r, l.Passed()) && q.app == app && q.cursor == l.Passed() == l.Tried())
      && (!l.Succeeds() ==> q.log == closed + Bracket(r, l) && q.cursor == 0)
  {
    hide Dos, Undos, Passes;
    PassedFromStops(app, w.outcome, 0);
    NoSteps(app, p.run + 1);
    var l, r := Launch(app, w), p.run + 1;
    var closed := AfterTerminate(p).log;
    Regroup(closed, Dos(app, r, l.Tried()), Undos(app, r, l.Passed()));
    if w.probeFails {
      assert closed + ([] + []) == closed && closed + [] == closed;
    }
  }

  /**
   Over every run of `execute` and `terminate`, failures included, the log is what the events
   call for: for every launch that is over its do commands forwards, up to the step that failed,
   then the undo commands of the steps it passed backwards, all before the next launch; and of
   the app that still runs the do commands alone.
   */
  lemma {:induction false} LogIsBracketed(outputName: string, input: Input, events: seq<Event>)
    ensures After(outputName, input, events).log == ExpectedLog(events)
    ensures Tracks(After(outputName, input, events), events)
    decreases |events|
  {
    hide Execute, AfterTerminate, Bracket, Dos;
    if events != [] {
      var init, e := events[..|events| - 1], events[|events| - 1];
      var p := After(outputName, input, init);
      LogIsBracketed(outputName, input, init);
      TerminateLog(p, init);
      TerminateRests(p);
      if e.Run? {
        ExecuteLog(p, e.app, e.w);
        var ls := Launches(events);
        assert ls == Launches(init) + [Launch(e.app, e.w)];
        assert ls[..|ls| - 1] == Launches(init);
      }
    }
  }

  lemma TerminateRests(p: Proc)
    requires Valid(p)
    ensures Valid(AfterTerminate(p)) && AfterTerminate(p).cursor == 0 && AfterTerminate(p).run == p.run
  {
  }

  // ----- Undo exactly once -----

  function Count(log: seq<Entry>, e: Entry): nat {
    if log == [] then 0 else Count(log[..|log| - 1], e) + (if log[|log| - 1] == e then 1 else 0)
  }

  lemma {:induction false} CountAppend(a: seq<Entry>, b: seq<Entry>, e: Entry)
    ensures Count(a + b, e) == Count(a, e) + Count(b, e)
    decreases |b|
  {
    if b == [] {
      assert a + b == a;
    } else {
      var n := |b| - 1;
      CountAppend(a, b[..n], e);
      assert (a + b)[..|a| + n] == a + b[..n];
    }
  }

  lemma CountOne(s: seq<Entry>, e: Entry)
    requires |s| <= 1
    ensures Count(s, e) == if s == [e] then 1 else 0
  {
    if |s| == 1 {
      assert s[..0] == [];
    }
  }

  lemma {:induction false} CountDos(app: App, run: nat, k: nat, r: nat, i: nat)
    requires k <= |app.preps|
    ensures Count(Dos(app, run, k), Undid(r, i)) == 0
    ensures Count(Dos(app, run, k), Did(r, i)) == if r == run && i < k && app.preps[i].doCmd != "" then 1 else 0
    decreases k
  {
    hide Count;
    if k > 0 {
      CountDos(app, run, k - 1, r, i);
      CountAppend(Dos(app, run, k - 1), DoOf(app, run, k - 1), Undid(r, i));
      CountAppend(Dos(app, run, k - 1), DoOf(app, run, k - 1), Did(r, i));
      CountOne(DoOf(app, run, k - 1), Undid(r, i));
      CountOne(DoOf(app, run, k - 1), Did(r, i));
    } else {
      CountOne([], Undid(r, i));
      CountOne([], Did(r, i));
    }
  }

  lemma {:induction false} CountUndos(app: App, run: nat, k: nat, r: nat, i: nat)
    requires k <= |app.preps|
    ensures Count(Undos(app, run, k), Did(r, i)) == 0
    ensures Count(Undos(app, run, k), Undid(r, i)) == if r == run && i < k && app.preps[i].undoCmd != "" then 1 else 0
    decreases k
  {
    hide Count;
    if k > 0 {
      CountUndos(app, run, k - 1, r, i);
      CountAppend(UndoOf(app, run, k - 1), Undos(app, run, k - 1), Undid(r, i));
      CountAppend(UndoOf(app, run, k - 1), Undos(app, run, k - 1), Did(r, i));
      CountOne(UndoOf(app, run, k - 1), Undid(r, i));
      CountOne(UndoOf(app, run, k - 1), Did(r, i));
    } else {
      CountOne([], Undid(r, i));
      CountOne([], Did(r, i));
    }
  }

  /** Step `i` is passed when the probe succeeded and it and every step before it passes. */
  predicate StepPassed(l: Launch, i: nat) {
    !l.w.probeFails && i < |l.app.preps| && forall j :: 0 <= j <= i ==> Passes(l.app, j, l.w.outcome(j))
  }

  /** Step `i` is tried when every step before it passes. */
  predicate StepTried(l: Launch, i: nat) {
    !l.w.probeFails && i < |l.app.preps| && forall j :: 0 <= j < i ==> Passes(l.app, j, l.w.outcome(j))
  }

  lemma StepsCounted(l: Launch, i: nat)
    ensures StepPassed(l, i) <==> i < l.Passed()
    ensures StepTried(l, i) <==> i < l.Tried()
  {
    PassedFromStops(l.app, l.w.outcome, 0);
  }

  lemma CountBracket(run: nat, l: Launch, r: nat, i: nat)
    ensures Count(Bracket(run, l), Undid(r, i)) == if r == run && StepPassed(l, i) && l.app.preps[i].undoCmd != "" then 1 else 0
    ensures Count(Bracket(run, l), Did(r, i)) == if r == run && StepTried(l, i) && l.app.preps[i].doCmd != "" then 1 else 0
  {
    hide Count, Dos, Undos, StepPassed, StepTried;
    StepsCounted(l, i);
    CountDos(l.app, run, l.Tried(), r, i);
    CountUndos(l.app, run, l.Passed(), r, i);
    CountAppend(Dos(l.app, run, l.Tried()), Undos(l.app, run, l.Passed()), Undid(r, i));
    CountAppend(Dos(l.app, run, l.Tried()), Undos(l.app, run, l.Passed()), Did(r, i));
  }

  lemma {:induction false} CountBrackets(ls: seq<Launch>, r: nat, i: nat)
    ensures Count(Brackets(ls), Undid(r, i))
         == if 0 < r <= |ls| && StepPassed(ls[r - 1], i) && ls[r - 1].app.preps[i].undoCmd != "" then 1 else 0
    ensures Count(Brackets(ls), Did(r, i))
         == if 0 < r <= |ls| && StepTried(ls[r - 1], i) && ls[r - 1].app.preps[i].doCmd != "" then 1 else 0
    decreases |ls|
  {
    hide Count, Bracket, StepPassed, StepTried;
    if ls != [] {
      var n := |ls| - 1;
      CountBrackets(ls[..n], r, i);
      CountBracket(|ls|, ls[n], r, i);
      CountAppend(Brackets(ls[..n]), Bracket(|ls|, ls[n]), Undid(r, i));
      CountAppend(Brackets(ls[..n]), Bracket(|ls|, ls[n]), Did(r, i));
    } else {
      CountOne([], Undid(r, i));
      CountOne([], Did(r, i));
    }
  }

  /** The number of the launch that an event is. */
  function RunOf(events: seq<Event>, n: nat): nat
    requires n < |events|
  {
    |Launches(events[..n + 1])|
  }

  lemma {:induction false} LaunchAt(events: seq<Event>, n: nat)
    requires n < |events| && events[n].Run?
    ensures 0 < RunOf(events, n) <= |Launches(events)|
    ensures Launches(events)[RunOf(events, n) - 1] == Launch(events[n].app, events[n].w)
    decreases |events|
  {
    var init := events[..|events| - 1];
    if n < |events| - 1 {
      LaunchAt(init, n);
      assert init[..n + 1] == events[..n + 1];
    } else {
      assert events[..n + 1] == events;
    }
  }

  /** A launch is over when another came after it, or it failed, or `terminate` was called. */
  predicate Over(events: seq<Event>, n: nat)
    requires n < |events|
  {
    RunOf(events, n) < |Launches(events)| || !StillRuns(events)
  }

  /**
   Over every run and for every `execute` in it: each passed step of a launch that is over was
   undone exactly once, the failed step and those after it never, nothing of the app that still
   runs; and each step was done exactly once when every step before it passed, else never.
   */
  lemma UndoneOnce(outputName: string, input: Input, events: seq<Event>, n: nat, i: nat)
    requires n < |events| && events[n].Run?
    ensures var log := After(outputName, input, events).log;
      var l, r := Launch(events[n].app, events[n].w), RunOf(events, n);
      && Count(log, Undid(r, i)) == (if Over(events, n) && StepPassed(l, i) && l.app.preps[i].undoCmd != "" then 1 else 0)
      && Count(log, Did(r, i)) == (if StepTried(l, i) && l.app.preps[i].doCmd != "" then 1 else 0)
  {
    hide Count, Brackets, Dos, StepPassed, StepTried, After, RunOf;
    LogIsBracketed(outputName, input, events);
    LaunchAt(events, n);
    LogCounts(events, RunOf(events, n), i, After(outputName, input, events));
  }

  lemma LogCounts(events: seq<Event>, r: nat, i: nat, p: Proc)
    requires 0 < r <= |Launches(events)| && Tracks(p, events)
    ensures var l := Launches(events)[r - 1];
      var over := r < |Launches(events)| || !StillRuns(events);
      && Count(ExpectedLog(events), Undid(r, i)) == (if over && StepPassed(l, i) && l.app.preps[i].undoCmd != "" then 1 else 0)
      && Count(ExpectedLog(events), Did(r, i)) == (if StepTried(l, i) && l.app.preps[i].doCmd != "" then 1 else 0)
  {
    hide Count, Brackets, Dos, StepPassed, StepTried;
    var ls := Launches(events);
    if StillRuns(events) {
      var last, front := ls[|ls| - 1], ls[..|ls| - 1];
      CountBrackets(front, r, i);
      CountDos(last.app, |ls|, last.Passed(), r, i);
      CountAppend(Brackets(front), Dos(last.app, |ls|, last.Passed()), Undid(r, i));
      CountAppend(Brackets(front), Dos(last.app, |ls|, last.Passed()), Did(r, i));
      StepsCounted(last, i);
    } else {
      CountBrackets(ls, r, i);
    }
  }

  // ----- Outcome by outcome -----

  /** A do command fails its step by a nonzero exit code or an error; being denied is an error only for an app that has a command. */
  predicate Breaks(app: App, k: nat, o: Outcome) {
    && k < |app.preps| && app.preps[k].doCmd != ""
    && match o
       case Exit(code) => code != 0
       case Failed => true
       case Denied => app.cmd != ""
  }

  ghost predicate SomeBreaks(app: App, w: World) {
    exists k :: 0 <= k < |app.preps| && Breaks(app, k, w.outcome(k))
  }

  lemma BreaksIff(app: App, k: nat, o: Outcome)
    requires k < |app.preps|
    ensures Breaks(app, k, o) <==> !Passes(app, k, o)
  {
  }

  /** The code an `execute` returns, by what the probe, the do commands and the app's own command did. */
  lemma CodeIs(p: Proc, app: App, w: World)
    requires Valid(p)
    ensures var code := Execute(p, app, w).1;
      && (code == 503 <==> w.probeFails)
      && (code == -1 <==> !w.probeFails && (SomeBreaks(app, w) || (app.cmd != "" && w.launchFails)))
      && code in {0, -1, 503}
  {
    hide Dos, Undos, Breaks, Passes;
    PassedFromStops(app, w.outcome, 0);
    var n := PassedFrom(app, w.outcome, 0);
    forall k: nat | k < |app.preps| ensures Breaks(app, k, w.outcome(k)) <==> !Passes(app, k, w.outcome(k)) {
      BreaksIff(app, k, w.outcome(k));
    }
  }

  /** What the log gains for this `execute`: the do commands up to the first that breaks, that one included, and none behind it. */
  lemma DoneBeforeBreak(p: Proc, app: App, w: World, i: nat)
    requires Valid(p)
    ensures var q := Execute(p, app, w).0;
      Count(q.log, Did(p.run + 1, i)) - Count(p.log, Did(p.run + 1, i))
      == if !w.probeFails && i < |app.preps| && app.preps[i].doCmd != ""
            && (forall k :: 0 <= k < i ==> !Breaks(app, k, w.outcome(k))) then 1 else 0
  {
    hide Count, Dos, Undos, Breaks, Passes, StepTried, StepPassed;
    var l, r := Launch(app, w), p.run + 1;
    var before := Undos(p.app, p.run, p.cursor);
    ExecuteLog(p, app, w);
    CountAppend(p.log, before, Did(r, i));
    CountUndos(p.app, p.run, p.cursor, r, i);
    CountBracket(r, l, r, i);
    CountDos(app, r, l.Passed(), r, i);
    StepsCounted(l, i);
    CountAppend(p.log + before, Bracket(r, l), Did(r, i));
    CountAppend(p.log + before, Dos(app, r, l.Passed()), Did(r, i));
    TriedIff(l, i);
  }

  lemma TriedIff(l: Launch, i: nat)
    ensures StepTried(l, i) <==>
      !l.w.probeFails && i < |l.app.preps| && forall k :: 0 <= k < i ==> !Breaks(l.app, k, l.w.outcome(k))
  {
    hide Breaks, Passes;
    if i < |l.app.preps| {
      forall k: nat | k < i ensures Breaks(l.app, k, l.w.outcome(k)) <==> !Passes(l.app, k, l.w.outcome(k)) {
        BreaksIff(l.app, k, l.w.outcome(k));
      }
    }
  }

  /** What is in force while an app runs: the display it was given, and the controller it asks for. */
  lemma InForce(p: Proc, app: App, w: World)
    requires Idle(p) && Execute(p, app, w).1 == 0
    ensures var q := Execute(p, app, w).0;
      && q.appId == app.id && q.app == app
      && q.outputName == (match w.display case Some(name) => name case None => p.outputName)
      && (app.gamepad == "" ==> q.input == p.input)
      && (app.gamepad == "disabled" ==> !q.input.controller && q.input.gamepad == p.input.gamepad)
      && (app.gamepad != "" && app.gamepad != "disabled" ==> q.input.controller && q.input.gamepad == app.gamepad)
  {
    hide Dos, Undos, Passes;
    PassedFromStops(app, w.outcome, 0);
  }

  /** Terminating again does nothing to the commands and settings. */
  lemma SecondTerminateIsIdle(p: Proc)
    requires Valid(p)
    ensures AfterTerminate(AfterTerminate(p)) == AfterTerminate(p)
  {
  }

  // ----- Settings come back -----

  /** No app: the user's own display name and input settings are in force. */
  predicate Idle(p: Proc) {
    Valid(p) && p.appId <= 0 && p.initialDisplay == "" && p.savedInput == None
  }

  /** While an app runs the user's settings are the saved ones. */
  predicate Keeps(p: Proc, outputName: string, input: Input) {
    if p.appId > 0 then
      && p.initialDisplay == outputName
      && (if p.savedInput.Some? then p.savedInput.value == input else p.input == input)
    else Idle(p) && p.outputName == outputName && p.input == input
  }

  predicate PositiveOnly(e: Event) {
    !e.InputOnly? && (e.Run? ==> e.app.id > 0)
  }

  lemma TerminateRestores(p: Proc, outputName: string, input: Input)
    requires Valid(p) && Keeps(p, outputName, input)
    ensures var q := AfterTerminate(p);
      Idle(q) && q.outputName == outputName && q.input == input
  {
    hide Undos;
  }

  lemma GuardRestores(p: Proc, outputName: string, input: Input)
    requires Valid(p) && p.appId > 0 && Keeps(p, outputName, input)
    ensures Keeps(Guarded(p), outputName, input)
  {
    hide Undos;
  }

  lemma StepKeepsSettings(p: Proc, e: Event, outputName: string, input: Input)
    requires Valid(p) && Keeps(p, outputName, input) && PositiveOnly(e)
    ensures Keeps(Step(p, e), outputName, input)
  {
    hide Undos, Dos, Passes;
    TerminateRestores(p, outputName, input);
    if e.Run? {
      PassedFromStops(e.app, e.w.outcome, 0);
      var n := PassedFrom(e.app, e.w.outcome, 0);
      var q := Prepared(p, e.app, e.w);
      GuardRestores(q, outputName, input);
      if n < |e.app.preps| {
        GuardRestores(q.(cursor := n, log := q.log + Dos(e.app, q.run, n + 1)), outputName, input);
      } else {
        GuardRestores(q.(cursor := n, log := q.log + Dos(e.app, q.run, n)), outputName, input);
      }
    }
  }

  /**
   Over every run of `execute` with positive ids and `terminate`, however they fail: whenever no
   app runs, the display name and the input settings are those from before.
   */
  lemma {:induction false} SettingsComeBack(outputName: string, input: Input, events: seq<Event>)
    requires forall i :: 0 <= i < |events| ==> PositiveOnly(events[i])
    ensures Keeps(After(outputName, input, events), outputName, input)
    decreases |events|
  {
    if events != [] {
      SettingsComeBack(outputName, input, events[..|events| - 1]);
      StepKeepsSettings(After(outputName, input, events[..|events| - 1]), events[|events| - 1], outputName, input);
    }
  }

  /** For any id: a failed `execute` always restores, a finished one exactly under this condition. */
  lemma RestoredIff(p: Proc, app: App, w: World)
    requires Idle(p)
    ensures var (q, code) := Execute(p, app, w);
      && Valid(q)
      && (code != 0 ==> q.outputName == p.outputName && q.input == p.input)
      && (code == 0 ==>
        && AfterTerminate(q).input == p.input
        && (AfterTerminate(q).outputName == p.outputName
            <==> app.id > 0 || p.outputName != "" || w.display == None || w.display == Some("")))
  {
    hide Undos, Dos, Passes;
    PassedFromStops(app, w.outcome, 0);
  }

  /** Input-only mode never saves a display name: ending it empties the configured one. */
  lemma InputOnlyEmptiesDisplay(p: Proc, id: int)
    requires Idle(p) && id > 0
    ensures var q := AfterTerminate(LaunchInputOnly(p, id));
      q.outputName == "" && (q.outputName == p.outputName <==> p.outputName == "")
  {
  }

  // ----- The process object -----

  class ProcT {
    var appId: int
    var app: App
    var prepIt: nat
    var initialDisplay: string
    var savedInput: Option<Input>
    var outputName: string
    var input: Input
    var run: nat
    var log: seq<Entry>

    constructor (outputName: string, input: Input)
      ensures State() == Fresh(outputName, input)
    {
      appId, app, prepIt, initialDisplay, savedInput := 0, NO_APP, 0, "", None;
      this.outputName, this.input, run, log := outputName, input, 0, [];
    }

    ghost function State(): Proc
      reads this
    {
      Proc(appId, app, prepIt, initialDisplay, savedInput, outputName, input, run, log)
    }

    /** Walks the cursor back to the first step, undoing every step it passed. */
    method CallTerminate()
      requires Valid(State())
      modifies this
      ensures State() == AfterTerminate(old(State()))
    {
      ghost var before := State();
      hide Undos;
      NoSteps(app, run);
      while prepIt != 0
        invariant prepIt <= |app.preps|
        invariant State() == before.(cursor := prepIt, log := log)
        invariant log + Undos(app, run, prepIt) == before.log + Undos(app, run, before.cursor)
      {
        UndoOne(log, app, run, prepIt);
        if app.preps[prepIt - 1].undoCmd != "" {
          log := log + [Undid(run, prepIt - 1)];
        }
        prepIt := prepIt - 1;
      }
      assert log + Undos(app, run, 0) == log;
      if appId <= 0 && initialDisplay == "" {
        initialDisplay := outputName;
      } else {
        outputName := initialDisplay;
      }
      appId, app, initialDisplay := -1, NO_APP, "";
      if savedInput.Some? {
        input := savedInput.value;
        savedInput := None;
      }
    }

    method FailGuard()
      requires Valid(State())
      modifies this
      ensures State() == Guarded(old(State()))
    {
      outputName := initialDisplay;
      CallTerminate();
    }

    /** The settings an app overrides are saved before they are changed. */
    method Prepare(app: App, w: World)
      requires Valid(State())
      modifies this
      ensures State() == Prepared(old(State()), app, w)
    {
      CallTerminate();
      this.app, appId, run := app, app.id, run + 1;
      initialDisplay := outputName;
      if app.gamepad != "" {
        savedInput := Some(input);
        if app.gamepad == "disabled" {
          input := input.(controller := false);
        } else {
          input := Input(true, app.gamepad);
        }
      }
      if w.display.Some? {
        outputName := w.display.value;
      }
    }

    /** The prep commands; the cursor stays at the step that fails. */
    method RunPreps(w: World) returns (ok: bool)
      requires Valid(State()) && prepIt == 0
      modifies this`prepIt, this`log
      ensures prepIt == PassedFrom(app, w.outcome, 0) <= |app.preps|
      ensures ok <==> prepIt == |app.preps|
      ensures log == old(log) + Dos(app, run, if ok then prepIt else prepIt + 1)
    {
      NoSteps(app, run);
      assert log == old(log) + Dos(app, run, prepIt);
      hide Dos;
      while prepIt != |app.preps|
        invariant prepIt <= |app.preps|
        invariant PassedFrom(app, w.outcome, 0) == PassedFrom(app, w.outcome, prepIt)
        invariant log == old(log) + Dos(app, run, prepIt)
        decreases |app.preps| - prepIt
      {
        DosNext(old(log), app, run, prepIt);
        PassedNext(app, w.outcome, prepIt);
        hide PassedFrom;
        if app.preps[prepIt].doCmd == "" {
          prepIt := prepIt + 1;
          continue;
        }
        log := log + [Did(run, prepIt)];
        var outcome := w.outcome(prepIt);
        if outcome == Failed || (outcome == Denied && app.cmd != "") {
          return false;
        }
        if outcome.Exit? && outcome.code != 0 {
          return false;
        }
        prepIt := prepIt + 1;
      }
      ok := true;
    }

    method CallExecute(app: App, w: World) returns (code: int)
      requires Valid(State())
      modifies this
      ensures (State(), code) == Execute(old(State()), app, w)
    {
      PassedFromStops(app, w.outcome, 0);
      Prepare(app, w);
      if w.probeFails {
        FailGuard();
        return PROBE_FAILED;
      }
      var ok := RunPreps(w);
      if !ok || (app.cmd != "" && w.launchFails) {
        FailGuard();
        return -1;
      }
      code := 0;
    }
  }

  lemma PassedNext(app: App, outcome: nat -> Outcome, k: nat)
    requires k < |app.preps|
    ensures PassedFrom(app, outcome, k) == if Passes(app, k, outcome(k)) then PassedFrom(app, outcome, k + 1) else k
  {
  }

  lemma DosNext(log: seq<Entry>, app: App, run: nat, k: nat)
    requires k < |app.preps|
    ensures log + Dos(app, run, k + 1)
         == if app.preps[k].doCmd == "" then log + Dos(app, run, k) else log + Dos(app, run, k) + [Did(run, k)]
  {
  }

  lemma UndoOne(log: seq<Entry>, app: App, run: nat, k: nat)
    requires 0 < k <= |app.preps|
    ensures log + Undos(app, run, k)
         == (if app.preps[k - 1].undoCmd == "" then log else log + [Undid(run, k - 1)]) + Undos(app, run, k - 1)
  {
  }
}
