/**
 Concurrent scrapes and health reads (exporter.go): each takes the exporter's mutex, and a scrape works on the shared
 state in many small steps while it holds it.
 */
module Interleaving {
  import opened Overview
  import opened Scrapes
  import opened Wrappers

  // Where a thread is. A scrape remembers what the API will answer and which modules have returned.
  datatype Place =
    | Idle
    | WantsScrape(out: Outcome)
    | Locked(out: Outcome)
    | AfterResets(out: Outcome)
    | InModules(out: Outcome, done: map<string, bool>)
    | UpIsSet(out: Outcome)
    | OutcomeIsSet(out: Outcome)
    | WantsHealth
    | Reading
    | HasRead

  // One answer to a health read, and how many scrapes were complete when it was read.
  datatype Answer = Answer(after: nat, ok: bool)

  datatype World = World(view: View, lock: Option<nat>, threads: map<nat, Place>, completed: seq<Outcome>,
      answers: seq<Answer>)

  datatype Action =
    | StartScrape(out: Outcome)
    | StartHealth
    | Acquire
    | Resets
    | OverviewReturns
    | ModuleReturns(name: string)
    | SetUp
    | SetOutcome
    | Read
    | Release

  function PlaceOf(w: World, t: nat): Place
  {
    if t in w.threads then w.threads[t] else Idle
  }

  predicate Holding(p: Place)
  {
    !p.Idle? && !p.WantsScrape? && !p.WantsHealth?
  }

  predicate AllReturned(out: Outcome, done: map<string, bool>)
  {
    done.Keys == out.modules.Keys
  }

  predicate Enabled(w: World, t: nat, a: Action)
  {
    var p := PlaceOf(w, t);
    match a
    case StartScrape(out) => p.Idle? && OVERVIEW !in out.modules
    case StartHealth => p.Idle?
    case Acquire => w.lock.None? && (p.WantsScrape? || p.WantsHealth?)
    case Resets => p.Locked?
    case OverviewReturns => p.AfterResets?
    case ModuleReturns(name) => p.InModules? && name in p.out.modules && name !in p.done
    case SetUp => p.InModules? && AllReturned(p.out, p.done)
    case SetOutcome => p.UpIsSet?
    case Read => p.Reading?
    case Release => p.OutcomeIsSet? || p.HasRead?
  }

  function UpLabels(v: View): seq<string>
  {
    [v.overview.info.clusterName, v.overview.info.node]
  }

  function Goes(w: World, t: nat, p: Place): World
  {
    w.(threads := w.threads[t := p])
  }

  // One step of one thread.
  function Step(w: World, t: nat, a: Action): World
    requires Enabled(w, t, a)
  {
    var p := PlaceOf(w, t);
    match a
    case StartScrape(out) => Goes(w, t, WantsScrape(out))
    case StartHealth => Goes(w, t, WantsHealth)
    case Acquire => Goes(w, t, if p.WantsScrape? then Locked(p.out) else Reading).(lock := Some(t))
    case Resets => Goes(w, t, AfterResets(p.out)).(view := AfterReset(w.view))
    case OverviewReturns => Goes(w, t, InModules(p.out, map[])).(view := AfterOverview(w.view, p.out.reply))
    case ModuleReturns(name) =>
      var ok := p.out.modules[name];
      Goes(w, t, InModules(p.out, p.done[name := ok])).(view := AfterModule(w.view, name, ok))
    case SetUp => Goes(w, t, UpIsSet(p.out)).(view := w.view.(up := w.view.up[UpLabels(w.view) := Flag(AllUp(p.out))]))
    case SetOutcome => Goes(w, t, OutcomeIsSet(p.out)).(view := w.view.(lastScrapeOK := AllUp(p.out)))
    case Read => Goes(w, t, HasRead).(answers := w.answers + [Answer(|w.completed|, w.view.lastScrapeOK)])
    case Release =>
      Goes(w, t, Idle).(lock := None, completed := if p.OutcomeIsSet? then w.completed + [p.out] else w.completed)
  }

  // A run: any interleaving of enabled steps.
  datatype Move = Move(t: nat, a: Action)

  ghost predicate Moves(before: World, move: Move, after: World)
  {
    Enabled(before, move.t, move.a) && after == Step(before, move.t, move.a)
  }

  ghost predicate IsRun(start: World, moves: seq<Move>, end: World)
    decreases |moves|
  {
    if moves == [] then end == start
    else
      var front, last := moves[..|moves| - 1], moves[|moves| - 1];
      exists before :: IsRun(start, front, before) && Moves(before, last, end)
  }

  function Start(v: View): World
  {
    World(v, None, map[], [], [])
  }

  // --- The invariant ---

  // What the shared state is, seen from where the lock holder is; base is the state after the completed scrapes.
  ghost predicate Fits(p: Place, base: View, view: View)
  {
    match p
    case Locked(_) => view == base
    case AfterResets(_) => view == AfterReset(base)
    case InModules(out, done) =>
      && view == Partial(base, out.reply, done) && done.Keys <= out.modules.Keys
      && forall name :: name in done ==> done[name] == out.modules[name]
    case UpIsSet(out) => view == NextView(base, out).(lastScrapeOK := base.lastScrapeOK)
    case OutcomeIsSet(out) => view == NextView(base, out)
    case Reading => view == base
    case HasRead => view == base
    case _ => false
  }

  predicate Sane(p: Place)
  {
    (p.WantsScrape? || p.Locked? || p.AfterResets? || p.InModules? || p.UpIsSet? || p.OutcomeIsSet?) ==>
        OVERVIEW !in p.out.modules
  }

  ghost predicate AnswersRight(v: View, completed: seq<Outcome>, answers: seq<Answer>)
  {
    forall i :: 0 <= i < |answers| ==>
      answers[i].after <= |completed| && answers[i].ok == Run(v, completed[..answers[i].after]).lastScrapeOK
  }

  // Only the lock holder is inside.
  ghost predicate Exclusive(w: World)
  {
    && (forall t :: t in w.threads ==> Sane(w.threads[t]))
    && (forall t :: t in w.threads && Holding(w.threads[t]) ==> w.lock == Some(t))
  }

  ghost predicate ViewRight(v: View, w: World)
  {
    match w.lock
    case None => w.view == Run(v, w.completed)
    case Some(t) => Fits(PlaceOf(w, t), Run(v, w.completed), w.view)
  }

  ghost predicate Invariant(v: View, w: World)
  {
    Exclusive(w) && ViewRight(v, w) && AnswersRight(v, w.completed, w.answers)
  }

  lemma {:induction false} StaysExclusive(w: World, t: nat, a: Action)
    requires Exclusive(w) && Enabled(w, t, a)
    ensures Exclusive(Step(w, t, a))
  {
  }

  lemma {:induction false} FitsNext(p: Place, base: View, w: World, t: nat, a: Action)
    requires PlaceOf(w, t) == p && Fits(p, base, w.view) && Sane(p) && Enabled(w, t, a)
    requires !a.Release?
    ensures Fits(PlaceOf(Step(w, t, a), t), base, Step(w, t, a).view)
  {
    match a
    case OverviewReturns => PartialStart(base, p.out.reply);
    case ModuleReturns(name) => PartialOneMore(base, p.out.reply, p.done, name, p.out.modules[name]);
    case SetUp => assert p.done == p.out.modules;
    case _ =>
  }

  lemma {:induction false} AnswersStay(v: View, completed: seq<Outcome>, out: Outcome, answers: seq<Answer>)
    requires AnswersRight(v, completed, answers)
    ensures AnswersRight(v, completed + [out], answers)
  {
    forall i | 0 <= i < |answers|
      ensures (completed + [out])[..answers[i].after] == completed[..answers[i].after]
    {
    }
  }

  // A step outside the lock changes nothing that is shared, but for taking the lock when it is free.
  lemma {:induction false} OutsideKeeps(v: View, w: World, t: nat, a: Action)
    requires Exclusive(w) && ViewRight(v, w) && Enabled(w, t, a) && !Holding(PlaceOf(w, t))
    ensures ViewRight(v, Step(w, t, a))
    ensures Step(w, t, a).completed == w.completed && Step(w, t, a).answers == w.answers
  {
  }

  lemma {:induction false} ReleaseKeeps(v: View, w: World, t: nat)
    requires Invariant(v, w) && Enabled(w, t, Release)
    ensures ViewRight(v, Step(w, t, Release))
    ensures AnswersRight(v, Step(w, t, Release).completed, w.answers)
  {
    var p, w' := PlaceOf(w, t), Step(w, t, Release);
    if p.OutcomeIsSet? {
      assert w'.completed[..|w'.completed| - 1] == w.completed;
      AnswersStay(v, w.completed, p.out, w.answers);
    }
  }

  lemma {:induction false} InsideKeeps(v: View, w: World, t: nat, a: Action)
    requires Exclusive(w) && ViewRight(v, w) && Enabled(w, t, a) && Holding(PlaceOf(w, t)) && !a.Release?
    ensures ViewRight(v, Step(w, t, a)) && Step(w, t, a).completed == w.completed
  {
    FitsNext(PlaceOf(w, t), Run(v, w.completed), w, t, a);
  }

  lemma {:induction false} ReadKeeps(v: View, w: World, t: nat)
    requires Invariant(v, w) && Enabled(w, t, Read)
    ensures AnswersRight(v, w.completed, Step(w, t, Read).answers)
  {
    assert w.completed[..|w.completed|] == w.completed;
  }

  lemma {:induction false} StepKeeps(v: View, w: World, t: nat, a: Action)
    requires Invariant(v, w) && Enabled(w, t, a)
    ensures Invariant(v, Step(w, t, a))
  {
    StaysExclusive(w, t, a);
    if !Holding(PlaceOf(w, t)) {
      OutsideKeeps(v, w, t, a);
    } else if a.Release? {
      ReleaseKeeps(v, w, t);
    } else {
      InsideKeeps(v, w, t, a);
      if a.Read? {
        ReadKeeps(v, w, t);
      }
    }
  }

  lemma {:induction false} RunKeeps(v: View, moves: seq<Move>, w: World)
    requires IsRun(Start(v), moves, w)
    ensures Invariant(v, w)
    decreases |moves|
  {
    if moves != [] {
      var move := moves[|moves| - 1];
      var before :| IsRun(Start(v), moves[..|moves| - 1], before) && Moves(before, move, w);
      RunKeeps(v, moves[..|moves| - 1], before);
      StepKeeps(v, before, move.t, move.a);
    }
  }

  // In every interleaving, at most one thread is inside, and whenever nobody is, the shared state is what the completed
  // scrapes would have left one after the other.
  lemma {:induction false} ScrapesAreAtomic(v: View, moves: seq<Move>, w: World)
    requires IsRun(Start(v), moves, w)
    ensures forall s, t :: s in w.threads && t in w.threads && Holding(w.threads[s]) && Holding(w.threads[t]) ==> s == t
    ensures w.lock.None? ==> w.view == Run(v, w.completed)
  {
    RunKeeps(v, moves, w);
  }

  lemma {:induction false} OutcomeOfRun(v: View, outs: seq<Outcome>)
    ensures Run(v, outs).lastScrapeOK == if outs == [] then v.lastScrapeOK else AllUp(outs[|outs| - 1])
  {
  }

  // In every interleaving, a health read answers with the outcome of the last scrape completed before it, or with true
  // if there was none.
  lemma {:induction false} HealthReadsAreComplete(v: View, moves: seq<Move>, w: World, i: nat)
    requires IsRun(Start(v), moves, w) && v.lastScrapeOK && i < |w.answers|
    ensures w.answers[i].after <= |w.completed|
    ensures var n := w.answers[i].after;
      w.answers[i].ok <==>
        n > 0 ==> var out := w.completed[n - 1];
                  out.reply.Some? && forall name :: name in out.modules ==> out.modules[name]
  {
    RunKeeps(v, moves, w);
    OutcomeOfRun(v, w.completed[..w.answers[i].after]);
  }
}
