/**
 Any number of threads that unmarshal service graphs at the same time, over the package globals they
 share. The first pass of a thread reads the default request without holding the mutex; saving,
 overwriting and restoring the globals are separate steps; the decoders of either pass may look at
 the globals at any moment while the pass lasts.
 */
module ParseThreads {
  import opened Topology
  import opened Json
  import opened Decoding
  import opened Parsing
  import opened Layering
  import opened Ambients

  /** Where UnmarshalJSON is; `d` are the thread's own defaults, the other fields its saved values. */
  datatype Phase =
    | FirstPass(seen: map<seq<nat>, Request>)
    | Locking(d: Defaults)
    | SavingService(d: Defaults)
    | SettingService(d: Defaults, svc: Service)
    | SavingRequest(d: Defaults, svc: Service)
    | SettingRequest(d: Defaults, svc: Service, req: Request)
    | SecondPass(d: Defaults, svc: Service, req: Request, seen: map<seq<nat>, Request>, bases: map<nat, Service>)
    | RestoringService(d: Defaults, svc: Service, req: Request, r: Result<seq<Service>, DecodeError>)
    | RestoringRequest(d: Defaults, req: Request, r: Result<seq<Service>, DecodeError>)
    | Unlocking(d: Defaults, r: Result<seq<Service>, DecodeError>)
    | Finished(result: Result<seq<Service>, ParseError>)

  /** The package globals and the holder of the mutex. */
  datatype Shared = Shared(svc: Service, req: Request, holder: Option<nat>)

  datatype State = State(shared: Shared, phases: seq<Phase>)

  /** A decoder looks up the default for the call at `at`, for service `k`, or the thread goes on. */
  datatype Action = LookRequest(at: seq<nat>) | LookService(k: nat) | Go

  const BUILT_IN_SERVICE := DefaultServiceFor(DEFAULT_DEFAULTS)

  function Init(n: nat): State {
    State(Shared(BUILT_IN_SERVICE, BUILT_IN_REQUEST, None), seq(n, _ => FirstPass(map[])))
  }

  /** What was looked up earlier; everything else is looked up now. */
  function Looked(seen: map<seq<nat>, Request>, now: Request): Ambient {
    (at: seq<nat>) => if at in seen then seen[at] else now
  }

  function LookedBases(bases: map<nat, Service>, now: Service): Bases {
    (k: nat) => if k in bases then bases[k] else now
  }

  function AfterFirst(r: Result<Defaults, DecodeError>): Phase {
    match r
    case Err(e) => Finished(Err(Undecodable(e)))
    case Ok(d) => Locking(d)
  }

  function StepPhase(codec: Codec, input: Json, g: Shared, i: nat, phase: Phase, act: Action): Option<(Shared, Phase)> {
    match act
    case LookRequest(at) =>
      if phase.FirstPass? && at !in phase.seen then
        Some((g, FirstPass(phase.seen[at := g.req])))
      else if phase.SecondPass? && at !in phase.seen then
        Some((g, phase.(seen := phase.seen[at := g.req])))
      else None
    case LookService(k) =>
      if phase.SecondPass? && k !in phase.bases then
        Some((g, phase.(bases := phase.bases[k := g.svc])))
      else None
    case Go =>
      match phase
      case FirstPass(seen) => Some((g, AfterFirst(DecodeMetadata(codec, Looked(seen, g.req), input))))
      case Locking(d) => if g.holder.None? then Some((g.(holder := Some(i)), SavingService(d))) else None
      case SavingService(d) => Some((g, SettingService(d, g.svc)))
      case SettingService(d, svc) => Some((g.(svc := DefaultServiceFor(d)), SavingRequest(d, svc)))
      case SavingRequest(d, svc) => Some((g, SettingRequest(d, svc, g.req)))
      case SettingRequest(d, svc, req) => Some((g.(req := DefaultRequestFor(d)), SecondPass(d, svc, req, map[], map[])))
      case SecondPass(d, svc, req, seen, bases) =>
        Some((g, RestoringService(d, svc, req,
                   DecodeGraph(codec, Looked(seen, g.req), LookedBases(bases, g.svc), input))))
      case RestoringService(d, svc, req, r) => Some((g.(svc := svc), RestoringRequest(d, req, r)))
      case RestoringRequest(d, req, r) => Some((g.(req := req), Unlocking(d, r)))
      case Unlocking(d, r) => Some((g.(holder := None), Finished(Validated(r))))
      case Finished(_) => None
  }

  function Step(codec: Codec, inputs: seq<Json>, st: State, i: nat, act: Action): Option<State> {
    if i >= |st.phases| || i >= |inputs| then None
    else
      match StepPhase(codec, inputs[i], st.shared, i, st.phases[i], act)
      case None => None
      case Some((g, phase)) => Some(State(g, st.phases[i := phase]))
  }

  function Run(codec: Codec, inputs: seq<Json>, st: State, schedule: seq<(nat, Action)>): Option<State>
    decreases schedule
  {
    if schedule == [] then Some(st)
    else
      match Step(codec, inputs, st, schedule[0].0, schedule[0].1)
      case None => None
      case Some(next) => Run(codec, inputs, next, schedule[1..])
  }

  // ---------------------------------------------------------------- the invariant

  ghost predicate Blank(amb: Ambient) {
    SameNames(amb, Fixed(BUILT_IN_REQUEST))
  }

  /** `d` is what a first pass makes of the input under some ambient defaults. */
  ghost predicate Justified(codec: Codec, input: Json, d: Defaults) {
    exists amb: Ambient :: Blank(amb) && DecodeMetadata(codec, amb, input) == Ok(d)
  }

  function OwnGraph(codec: Codec, d: Defaults, input: Json): Result<seq<Service>, DecodeError> {
    DecodeGraph(codec, Fixed(DefaultRequestFor(d)), Every(DefaultServiceFor(d)), input)
  }

  ghost predicate SomeParse(codec: Codec, input: Json, result: Result<seq<Service>, ParseError>) {
    exists amb: Ambient :: Blank(amb) && result == Parse(codec, amb, input)
  }

  ghost predicate PhaseOk(codec: Codec, input: Json, phase: Phase) {
    match phase
    case FirstPass(seen) => forall at <- seen :: seen[at].serviceName == ""
    case SecondPass(d, _, _, seen, bases) =>
      && Justified(codec, input, d)
      && (forall at <- seen :: seen[at] == DefaultRequestFor(d))
      && (forall k <- bases :: bases[k] == DefaultServiceFor(d))
    case RestoringService(d, _, _, r) => Justified(codec, input, d) && r == OwnGraph(codec, d, input)
    case RestoringRequest(d, _, r) => Justified(codec, input, d) && r == OwnGraph(codec, d, input)
    case Unlocking(d, r) => Justified(codec, input, d) && r == OwnGraph(codec, d, input)
    case Finished(result) => SomeParse(codec, input, result)
    case _ => Justified(codec, input, phase.d)
  }

  predicate InCritical(phase: Phase) {
    !phase.FirstPass? && !phase.Locking? && !phase.Finished?
  }

  /** What the globals and the saved values are, by the phase of the thread that holds the mutex. */
  predicate GlobalsOk(g: Shared, phase: Phase) {
    match phase
    case SavingService(_) => g.svc == BUILT_IN_SERVICE && g.req == BUILT_IN_REQUEST
    case SettingService(_, svc) => g.svc == svc == BUILT_IN_SERVICE && g.req == BUILT_IN_REQUEST
    case SavingRequest(d, svc) =>
      g.svc == DefaultServiceFor(d) && svc == BUILT_IN_SERVICE && g.req == BUILT_IN_REQUEST
    case SettingRequest(d, svc, req) =>
      g.svc == DefaultServiceFor(d) && svc == BUILT_IN_SERVICE && g.req == req == BUILT_IN_REQUEST
    case SecondPass(d, svc, req, _, _) =>
      && g.svc == DefaultServiceFor(d) && svc == BUILT_IN_SERVICE
      && g.req == DefaultRequestFor(d) && req == BUILT_IN_REQUEST
    case RestoringService(d, svc, req, _) =>
      svc == BUILT_IN_SERVICE && g.req == DefaultRequestFor(d) && req == BUILT_IN_REQUEST
    case RestoringRequest(d, req, _) =>
      g.svc == BUILT_IN_SERVICE && g.req == DefaultRequestFor(d) && req == BUILT_IN_REQUEST
    case Unlocking(_, _) => g.svc == BUILT_IN_SERVICE && g.req == BUILT_IN_REQUEST
    case _ => false
  }

  ghost predicate SharedOk(g: Shared, phases: seq<Phase>) {
    match g.holder
    case None =>
      && g.svc == BUILT_IN_SERVICE && g.req == BUILT_IN_REQUEST
      && (forall i | 0 <= i < |phases| :: !InCritical(phases[i]))
    case Some(h) =>
      && h < |phases| && GlobalsOk(g, phases[h])
      && (forall i | 0 <= i < |phases| && i != h :: !InCritical(phases[i]))
  }

  ghost predicate Inv(codec: Codec, inputs: seq<Json>, st: State) {
    && |st.phases| == |inputs|
    && SharedOk(st.shared, st.phases)
    && (forall i | 0 <= i < |inputs| :: PhaseOk(codec, inputs[i], st.phases[i]))
  }

  lemma FirstPassEnds(codec: Codec, input: Json, seen: map<seq<nat>, Request>, now: Request)
    requires PhaseOk(codec, input, FirstPass(seen)) && now.serviceName == ""
    ensures PhaseOk(codec, input, AfterFirst(DecodeMetadata(codec, Looked(seen, now), input)))
  {
    var amb := Looked(seen, now);
    assert Blank(amb);
    if DecodeMetadata(codec, amb, input).Err? {
      assert SomeParse(codec, input, Parse(codec, amb, input));
    }
  }

  lemma SecondPassEnds(codec: Codec, input: Json, phase: Phase, g: Shared)
    requires phase.SecondPass? && PhaseOk(codec, input, phase) && GlobalsOk(g, phase)
    ensures DecodeGraph(codec, Looked(phase.seen, g.req), LookedBases(phase.bases, g.svc), input)
         == OwnGraph(codec, phase.d, input)
  {
    var amb, base := Looked(phase.seen, g.req), LookedBases(phase.bases, g.svc);
    var own, every := Fixed(DefaultRequestFor(phase.d)), Every(DefaultServiceFor(phase.d));
    assert SameValues(amb, own);
    assert input.JObject? ==> ListsAgree(base, every, input.fields) by {
      assert forall k: nat :: base(k) == every(k);
    }
    GraphAgrees(codec, amb, own, base, every, input);
  }

  lemma PhaseStaysOk(codec: Codec, inputs: seq<Json>, st: State, i: nat, act: Action)
    requires Inv(codec, inputs, st) && Step(codec, inputs, st, i, act).Some?
    ensures PhaseOk(codec, inputs[i], Step(codec, inputs, st, i, act).value.phases[i])
  {
    var phase := st.phases[i];
    assert PhaseOk(codec, inputs[i], phase);
    if act.Go? {
      match phase
      case FirstPass(seen) => FirstPassEnds(codec, inputs[i], seen, st.shared.req);
      case SecondPass(_, _, _, _, _) => SecondPassEnds(codec, inputs[i], phase, st.shared);
      case _ =>
    }
  }

  lemma SharedStaysOk(codec: Codec, inputs: seq<Json>, st: State, i: nat, act: Action)
    requires SharedOk(st.shared, st.phases) && Step(codec, inputs, st, i, act).Some?
    ensures SharedOk(Step(codec, inputs, st, i, act).value.shared, Step(codec, inputs, st, i, act).value.phases)
  {
  }

  lemma StepKeepsInv(codec: Codec, inputs: seq<Json>, st: State, i: nat, act: Action)
    requires Inv(codec, inputs, st) && Step(codec, inputs, st, i, act).Some?
    ensures Inv(codec, inputs, Step(codec, inputs, st, i, act).value)
  {
    PhaseStaysOk(codec, inputs, st, i, act);
    SharedStaysOk(codec, inputs, st, i, act);
  }

  lemma {:induction false} RunKeepsInv(codec: Codec, inputs: seq<Json>, st: State, schedule: seq<(nat, Action)>)
    requires Inv(codec, inputs, st) && Run(codec, inputs, st, schedule).Some?
    ensures Inv(codec, inputs, Run(codec, inputs, st, schedule).value)
    decreases schedule
  {
    if schedule != [] {
      StepKeepsInv(codec, inputs, st, schedule[0].0, schedule[0].1);
      RunKeepsInv(codec, inputs, Step(codec, inputs, st, schedule[0].0, schedule[0].1).value, schedule[1..]);
    }
  }

  // ---------------------------------------------------------------- what holds in every run

  /**
   In every reachable state of any number of threads: at most one thread is past the lock; the
   globals have their original values whenever the mutex is free; a second pass finds its own
   defaults in them, as does everything it looked up before; and while a thread is unfinished, some
   thread can go on.
   */
  lemma GlobalsAreProtected(codec: Codec, inputs: seq<Json>, schedule: seq<(nat, Action)>, st: State, i: nat)
    requires Run(codec, inputs, Init(|inputs|), schedule) == Some(st) && i < |st.phases|
    ensures st.shared.holder.None? ==> st.shared == Init(|inputs|).shared
    ensures InCritical(st.phases[i]) <==> st.shared.holder == Some(i)
    ensures st.phases[i].SecondPass? ==>
              && st.shared.svc == DefaultServiceFor(st.phases[i].d)
              && st.shared.req == DefaultRequestFor(st.phases[i].d)
              && (forall at <- st.phases[i].seen :: st.phases[i].seen[at] == st.shared.req)
              && (forall k <- st.phases[i].bases :: st.phases[i].bases[k] == st.shared.svc)
    ensures !st.phases[i].Finished? ==> exists t :: Step(codec, inputs, st, t, Go).Some?
  {
    RunKeepsInv(codec, inputs, Init(|inputs|), schedule);
    assert PhaseOk(codec, inputs[i], st.phases[i]);
    if !st.phases[i].Finished? {
      var t := if st.shared.holder.Some? then st.shared.holder.value else i;
      assert Step(codec, inputs, st, t, Go).Some?;
    }
  }

  /**
   Concurrent parses do not interfere: whatever the other threads parse and however they are
   scheduled, a robust document is parsed as if it were alone.
   */
  lemma NoInterference(codec: Codec, inputs: seq<Json>, schedule: seq<(nat, Action)>, st: State, i: nat)
    requires Run(codec, inputs, Init(|inputs|), schedule) == Some(st)
    requires i < |st.phases| == |inputs| && st.phases[i].Finished?
    requires inputs[i].JObject? && UniqueDefaults(inputs[i].fields) && Robust(inputs[i].fields)
    ensures st.phases[i].result == Parse(codec, Fixed(BUILT_IN_REQUEST), inputs[i])
  {
    RunKeepsInv(codec, inputs, Init(|inputs|), schedule);
    assert PhaseOk(codec, inputs[i], st.phases[i]);
    var amb: Ambient :| Blank(amb) && st.phases[i].result == Parse(codec, amb, inputs[i]);
    RobustParse(codec, amb, inputs[i].fields);
  }

  /**
   Whatever the document, threads can only change sizes of calls in each other's graphs: a document
   that fails alone fails with the same error, and one that parses alone parses to the same graph up
   to these sizes.
   */
  lemma OnlySizesDiffer(codec: Codec, inputs: seq<Json>, schedule: seq<(nat, Action)>, st: State, i: nat)
    requires Run(codec, inputs, Init(|inputs|), schedule) == Some(st)
    requires i < |st.phases| == |inputs| && st.phases[i].Finished?
    ensures UpToSizes(st.phases[i].result, Parse(codec, Fixed(BUILT_IN_REQUEST), inputs[i]))
  {
    RunKeepsInv(codec, inputs, Init(|inputs|), schedule);
    assert PhaseOk(codec, inputs[i], st.phases[i]);
    var amb: Ambient :| Blank(amb) && st.phases[i].result == Parse(codec, amb, inputs[i]);
    ParseAlike(codec, amb, Fixed(BUILT_IN_REQUEST), inputs[i]);
  }

  // ---------------------------------------------------------------- where isolation is lost

  ghost predicate Reaches(codec: Codec, inputs: seq<Json>, st: State, last: State) {
    exists schedule :: Run(codec, inputs, st, schedule) == Some(last)
  }

  lemma {:induction false} RunConcat(codec: Codec, inputs: seq<Json>, st: State, a: seq<(nat, Action)>,
                                     b: seq<(nat, Action)>, mid: State)
    requires Run(codec, inputs, st, a) == Some(mid)
    ensures Run(codec, inputs, st, a + b) == Run(codec, inputs, mid, b)
    decreases a
  {
    if a == [] {
      assert a + b == b;
    } else {
      assert (a + b)[1..] == a[1..] + b;
      RunConcat(codec, inputs, Step(codec, inputs, st, a[0].0, a[0].1).value, a[1..], b, mid);
    }
  }

  lemma ReachesTransitive(codec: Codec, inputs: seq<Json>, a: State, b: State, c: State)
    requires Reaches(codec, inputs, a, b) && Reaches(codec, inputs, b, c)
    ensures Reaches(codec, inputs, a, c)
  {
    var s :| Run(codec, inputs, a, s) == Some(b);
    var t :| Run(codec, inputs, b, t) == Some(c);
    RunConcat(codec, inputs, a, s, t, b);
  }

  /** Thread `i` goes on. */
  lemma Goes(codec: Codec, inputs: seq<Json>, st: State, i: nat) returns (next: State)
    requires i < |st.phases| == |inputs| && StepPhase(codec, inputs[i], st.shared, i, st.phases[i], Go).Some?
    ensures var (g, phase) := StepPhase(codec, inputs[i], st.shared, i, st.phases[i], Go).value;
            next == State(g, st.phases[i := phase])
    ensures Reaches(codec, inputs, st, next)
  {
    next := Step(codec, inputs, st, i, Go).value;
    assert [(i, Go)][1..] == [];
    assert Run(codec, inputs, st, [(i, Go)]) == Some(next);
  }

  lemma Enters(codec: Codec, inputs: seq<Json>, st: State, i: nat) returns (next: State)
    requires i < |st.phases| == |inputs| && st.phases[i].Locking? && st.shared.holder.None?
    ensures var d := st.phases[i].d;
            next == State(Shared(DefaultServiceFor(d), DefaultRequestFor(d), Some(i)),
                          st.phases[i := SecondPass(d, st.shared.svc, st.shared.req, map[], map[])])
    ensures Reaches(codec, inputs, st, next)
  {
    next := st;
    for n := 0 to 5
      invariant |next.phases| == |inputs|
      invariant n == 0 ==> next == st
      invariant n > 0 ==> Reaches(codec, inputs, st, next)
      invariant next.phases == st.phases[i := next.phases[i]]
      invariant EntersAt(st.shared, st.phases[i].d, i, n, next.shared, next.phases[i])
    {
      var last := next;
      next := Goes(codec, inputs, last, i);
      if n > 0 {
        ReachesTransitive(codec, inputs, st, last, next);
      }
    }
  }

  predicate EntersAt(g: Shared, d: Defaults, i: nat, n: nat, now: Shared, phase: Phase) {
    if n == 0 then now == g && phase == Locking(d)
    else if n == 1 then now == g.(holder := Some(i)) && phase == SavingService(d)
    else if n == 2 then now == g.(holder := Some(i)) && phase == SettingService(d, g.svc)
    else if n == 3 then now == g.(holder := Some(i), svc := DefaultServiceFor(d)) && phase == SavingRequest(d, g.svc)
    else if n == 4 then
      now == g.(holder := Some(i), svc := DefaultServiceFor(d)) && phase == SettingRequest(d, g.svc, g.req)
    else
      && now == Shared(DefaultServiceFor(d), DefaultRequestFor(d), Some(i))
      && phase == SecondPass(d, g.svc, g.req, map[], map[])
  }

  lemma Leaves(codec: Codec, inputs: seq<Json>, st: State, i: nat) returns (next: State)
    requires i < |st.phases| == |inputs| && st.phases[i].SecondPass?
    requires st.phases[i].seen == map[] && st.phases[i].bases == map[]
    requires st.shared == Shared(DefaultServiceFor(st.phases[i].d), DefaultRequestFor(st.phases[i].d), Some(i))
    ensures var p := st.phases[i];
            next == State(Shared(p.svc, p.req, None),
                          st.phases[i := Finished(Validated(OwnGraph(codec, p.d, inputs[i])))])
    ensures Reaches(codec, inputs, st, next)
  {
    var p := st.phases[i];
    EmptyLooks(codec, inputs[i], p.d);
    next := st;
    for n := 0 to 4
      invariant |next.phases| == |inputs|
      invariant n == 0 ==> next == st
      invariant n > 0 ==> Reaches(codec, inputs, st, next)
      invariant next.phases == st.phases[i := next.phases[i]]
      invariant LeavesAt(p, OwnGraph(codec, p.d, inputs[i]), i, n, next.shared, next.phases[i])
    {
      var last := next;
      next := Goes(codec, inputs, last, i);
      if n > 0 {
        ReachesTransitive(codec, inputs, st, last, next);
      }
    }
  }

  predicate LeavesAt(p: Phase, r: Result<seq<Service>, DecodeError>, i: nat, n: nat, now: Shared, phase: Phase)
    requires p.SecondPass?
  {
    if n == 0 then now == Shared(DefaultServiceFor(p.d), DefaultRequestFor(p.d), Some(i)) && phase == p
    else if n == 1 then
      && now == Shared(DefaultServiceFor(p.d), DefaultRequestFor(p.d), Some(i))
      && phase == RestoringService(p.d, p.svc, p.req, r)
    else if n == 2 then
      now == Shared(p.svc, DefaultRequestFor(p.d), Some(i)) && phase == RestoringRequest(p.d, p.req, r)
    else if n == 3 then now == Shared(p.svc, p.req, Some(i)) && phase == Unlocking(p.d, r)
    else now == Shared(p.svc, p.req, None) && phase == Finished(Validated(r))
  }

  lemma EmptyLooks(codec: Codec, input: Json, d: Defaults)
    ensures DecodeGraph(codec, Looked(map[], DefaultRequestFor(d)), LookedBases(map[], DefaultServiceFor(d)), input)
         == OwnGraph(codec, d, input)
  {
    var base, every := LookedBases(map[], DefaultServiceFor(d)), Every(DefaultServiceFor(d));
    assert forall k: nat :: base(k) == every(k);
    GraphAgrees(codec, Looked(map[], DefaultRequestFor(d)), Fixed(DefaultRequestFor(d)), base, every, input);
  }

  /** A document that only sets a default request size of one byte. */
  const OTHER := JObject([("defaults", JObject([("requestSize", JInt(1))]))])

  /** What thread 0 ends with when its first pass falls into the second pass of OTHER. */
  lemma InterferedRun(codec: Codec, input: Json) returns (st: State)
    ensures Reaches(codec, [input, OTHER], Init(2), st) && |st.phases| == 2
    ensures st.phases[0] == Finished(Parse(codec, Looked(map[], RequestCommand("", 1)), input))
  {
    var inputs, d := [input, OTHER], DEFAULT_DEFAULTS.(requestSize := 1);
    var a := Goes(codec, inputs, Init(2), 1);
    var b := Enters(codec, inputs, a, 1);
    ReachesTransitive(codec, inputs, Init(2), a, b);
    var c := Goes(codec, inputs, b, 0);
    ReachesTransitive(codec, inputs, Init(2), b, c);
    var e := Leaves(codec, inputs, c, 1);
    ReachesTransitive(codec, inputs, Init(2), c, e);
    st := e;
    if st.phases[0].Locking? {
      var f := Enters(codec, inputs, e, 0);
      ReachesTransitive(codec, inputs, Init(2), e, f);
      st := Leaves(codec, inputs, f, 0);
      ReachesTransitive(codec, inputs, Init(2), f, st);
    }
  }

  /**
   Where a document is not robust, isolation is really lost: next to a document that sets a request
   size, some schedule makes its parse end with another result than it has alone.
   */
  lemma Interference(codec: Codec, top: seq<(string, Json)>)
    requires UniqueServices(top) && !Robust(top)
    requires Parse(codec, Fixed(BUILT_IN_REQUEST), JObject(top)).Ok?
    ensures exists schedule, st ::
              && Run(codec, [JObject(top), OTHER], Init(2), schedule) == Some(st)
              && |st.phases| == 2 && st.phases[0].Finished?
              && st.phases[0].result != Parse(codec, Fixed(BUILT_IN_REQUEST), JObject(top))
  {
    var st := InterferedRun(codec, JObject(top));
    var schedule :| Run(codec, [JObject(top), OTHER], Init(2), schedule) == Some(st);
    var seen, one := Looked(map[], RequestCommand("", 1)), Fixed(RequestCommand("", 1));
    MetadataSame(codec, seen, one, top);
    FragileParse(codec, RequestCommand("", 1), top);
  }
}
