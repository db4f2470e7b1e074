/** The data-path report of a secret consumer (`Registration::set_secret_path` in src/admin.rs): the
    last path, the number of fallbacks to the relay, and the reason shown while on it. */
module SecretPath {
  import opened Basics
  import opened Tally

  datatype Path = Unknown | Relay | Direct

  datatype Shown = Shown(path: Path, fallbacks: nat, reason: Option<string>)

  /** One report from the peer, whose path name may be anything. */
  datatype Report = Report(name: string, reason: Option<string>)

  const FRESH := Shown(Unknown, 0, None)

  function PathOf(name: string): Option<Path> {
    if name == "direct" then Some(Direct) else if name == "relay" then Some(Relay) else None
  }

  /** One whole call of `set_secret_path`. */
  function Apply(s: Shown, r: Report): Shown {
    match PathOf(r.name)
    case None => s
    case Some(path) =>
      Shown(path,
            if path.Relay? && !s.path.Relay? then s.fallbacks + 1 else s.fallbacks,
            if path.Direct? then None else r.reason)
  }

  function After(s: Shown, reports: seq<Report>): Shown {
    if reports == [] then s else Apply(After(s, reports[..|reports| - 1]), reports[|reports| - 1])
  }

  /** The paths of the recognised reports, those that say relay or direct, oldest first. */
  function Known(reports: seq<Report>): seq<Path> {
    if reports == [] then []
    else
      var name := reports[|reports| - 1].name;
      Known(reports[..|reports| - 1])
      + (if name == "relay" then [Relay] else if name == "direct" then [Direct] else [])
  }

  /** How often a history of paths moves onto the relay from something else. */
  function RelayEntries(paths: seq<Path>): nat {
    if paths == [] then 0
    else
      var n := |paths| - 1;
      RelayEntries(paths[..n]) + (if paths[n].Relay? && (n == 0 || !paths[n - 1].Relay?) then 1 else 0)
  }

  function Latest(paths: seq<Path>): Path { if paths == [] then Unknown else paths[|paths| - 1] }

  /** The last report with a recognised path. */
  function LastKnown(reports: seq<Report>): Option<Report> {
    if reports == [] then None
    else if reports[|reports| - 1].name in {"relay", "direct"} then Some(reports[|reports| - 1])
    else LastKnown(reports[..|reports| - 1])
  }

  lemma RelayEntriesSnoc(paths: seq<Path>, p: Path)
    ensures RelayEntries(paths + [p]) ==
      RelayEntries(paths) + (if p.Relay? && !Latest(paths).Relay? then 1 else 0)
  {
  }

  /** Over every history of reports the counter is the number of entries into relay among the
      recognised ones, the path is the last recognised one, and on the relay, and only there, the reason
      of that report is held. */
  lemma {:induction false} HistoryIsCounted(reports: seq<Report>)
    ensures var s := After(FRESH, reports);
      && s.fallbacks == RelayEntries(Known(reports))
      && s.path == Latest(Known(reports))
      && s.reason == (if s.path.Relay? && LastKnown(reports).Some? then LastKnown(reports).value.reason else None)
      && (LastKnown(reports).Some? <==> !s.path.Unknown?)
  {
    if reports != [] {
      var front, r := reports[..|reports| - 1], reports[|reports| - 1];
      HistoryIsCounted(front);
      if PathOf(r.name).Some? {
        RelayEntriesSnoc(Known(front), PathOf(r.name).value);
      } else {
        assert Known(reports) == Known(front);
      }
    }
  }

  // ----- Overlapping calls

  /** The call's three effects are separate atomic operations: swap the path, count the fallback, store
      the reason. A call is in `Counting` or `Storing` between them. */
  datatype Call = Counting(path: Path, reason: Option<string>) | Storing(path: Path, reason: Option<string>) | Returned

  datatype State = State(shown: Shown, calls: seq<Call>, swaps: seq<Path>)

  datatype Step = Swap(path: Path, reason: Option<string>) | Count(i: nat) | Store(i: nat)

  function Owes(c: Call): nat { if c.Counting? then 1 else 0 }

  predicate Enabled(s: State, step: Step) {
    match step
    case Swap(path, _) => !path.Unknown?
    case Count(i) => i < |s.calls| && s.calls[i].Counting?
    case Store(i) => i < |s.calls| && s.calls[i].Storing?
  }

  function Next(s: State, step: Step): State
    requires Enabled(s, step)
  {
    match step
    case Swap(path, reason) =>
      var call := if path.Relay? && !s.shown.path.Relay? then Counting(path, reason) else Storing(path, reason);
      State(s.shown.(path := path), s.calls + [call], s.swaps + [path])
    case Count(i) =>
      s.(shown := s.shown.(fallbacks := s.shown.fallbacks + 1),
         calls := s.calls[i := Storing(s.calls[i].path, s.calls[i].reason)])
    case Store(i) =>
      s.(shown := s.shown.(reason := if s.calls[i].path.Direct? then None else s.calls[i].reason),
         calls := s.calls[i := Returned])
  }

  const START := State(FRESH, [], [])

  predicate Runs(s: State, steps: seq<Step>)
    decreases |steps|
  {
    steps == [] || (Enabled(s, steps[0]) && Runs(Next(s, steps[0]), steps[1..]))
  }

  function Exec(s: State, steps: seq<Step>): State
    requires Runs(s, steps)
    decreases |steps|
  {
    if steps == [] then s else Exec(Next(s, steps[0]), steps[1..])
  }

  ghost predicate Inv(s: State) {
    && s.shown.path == Latest(s.swaps)
    && s.shown.fallbacks + Total(s.calls, Owes) == RelayEntries(s.swaps)
  }

  lemma {:induction false} RunKeepsInv(s: State, steps: seq<Step>)
    requires Inv(s) && Runs(s, steps)
    ensures Inv(Exec(s, steps))
    decreases |steps|
  {
    if steps != [] {
      var step := steps[0];
      match step {
        case Swap(path, reason) =>
          RelayEntriesSnoc(s.swaps, path);
          TotalAppend(s.calls, Next(s, step).calls[|s.calls|], Owes);
        case Count(i) => TotalUpdate(s.calls, i, Storing(s.calls[i].path, s.calls[i].reason), Owes);
        case Store(i) => TotalUpdate(s.calls, i, Returned, Owes);
      }
      RunKeepsInv(Next(s, step), steps[1..]);
    }
  }

  /** Even when calls overlap, the path is the last one swapped in and no fallback is lost or counted
      twice: once every call has returned the counter is exact. */
  lemma OverlappingReportsAreCounted(steps: seq<Step>)
    requires Runs(START, steps)
    requires forall i :: 0 <= i < |Exec(START, steps).calls| ==> Exec(START, steps).calls[i].Returned?
    ensures var s := Exec(START, steps);
      s.shown.path == Latest(s.swaps) && s.shown.fallbacks == RelayEntries(s.swaps)
  {
    RunKeepsInv(START, steps);
    NothingOwed(Exec(START, steps).calls);
  }

  lemma {:induction false} NothingOwed(calls: seq<Call>)
    requires forall i :: 0 <= i < |calls| ==> calls[i].Returned?
    ensures Total(calls, Owes) == 0
  {
    if calls != [] {
      NothingOwed(calls[..|calls| - 1]);
    }
  }

  // ----- What the interface promises of the reason when calls overlap

  /** The calls of a run, in the order of their swaps: call `i` makes swap `i`. */
  function SwapsOf(steps: seq<Step>): (swaps: seq<Step>)
    ensures forall i :: 0 <= i < |swaps| ==> swaps[i].Swap?
  {
    if steps == [] then [] else (if steps[0].Swap? then [steps[0]] else []) + SwapsOf(steps[1..])
  }

  /** The call that stored its reason last. */
  function LastStore(steps: seq<Step>, before: Option<nat>): Option<nat> {
    if steps == [] then before
    else LastStore(steps[1..], if steps[0].Store? then Some(steps[0].i) else before)
  }

  /** The reason a call stores. */
  function Stores(swap: Step): Option<string>
    requires swap.Swap?
  {
    if swap.path.Direct? then None else swap.reason
  }

  /** Each call still carries what its swap brought, and the reason shown is the last one stored. */
  ghost predicate Remembers(s: State, swaps: seq<Step>, last: Option<nat>) {
    && |s.calls| == |swaps|
    && (forall i :: 0 <= i < |swaps| ==> swaps[i].Swap? && Carries(s.calls[i], swaps[i]))
    && s.shown.path == (if swaps == [] then Unknown else swaps[|swaps| - 1].path)
    && (last.Some? ==> last.value < |swaps|)
    && s.shown.reason == (if last.None? then None else Stores(swaps[last.value]))
  }

  predicate Carries(call: Call, swap: Step)
    requires swap.Swap?
  {
    call.Returned? || (call.path == swap.path && call.reason == swap.reason)
  }

  lemma RemembersStep(s: State, step: Step, swaps: seq<Step>, last: Option<nat>)
    requires Remembers(s, swaps, last) && Enabled(s, step)
    ensures Remembers(Next(s, step), swaps + (if step.Swap? then [step] else []),
                      if step.Store? then Some(step.i) else last)
  {
  }

  lemma {:induction false} RemembersRun(s: State, steps: seq<Step>, swaps: seq<Step>, last: Option<nat>)
    requires Remembers(s, swaps, last) && Runs(s, steps)
    ensures Remembers(Exec(s, steps), swaps + SwapsOf(steps), LastStore(steps, last))
    decreases |steps|
  {
    if steps == [] {
      assert swaps + SwapsOf(steps) == swaps;
    } else {
      var swaps' := swaps + (if steps[0].Swap? then [steps[0]] else []);
      RemembersStep(s, steps[0], swaps, last);
      RemembersRun(Next(s, steps[0]), steps[1..], swaps', if steps[0].Store? then Some(steps[0].i) else last);
      assert swaps + SwapsOf(steps) == swaps' + SwapsOf(steps[1..]);
    }
  }

  /** The last swap is a direct report's, the last store a relay report's that gave a reason. */
  predicate Overtaken(swaps: seq<Step>, last: Option<nat>)
    requires forall i :: 0 <= i < |swaps| ==> swaps[i].Swap?
  {
    && swaps != [] && swaps[|swaps| - 1].path.Direct?
    && last.Some? && last.value < |swaps| && swaps[last.value].path.Relay? && swaps[last.value].reason.Some?
  }

  /** Exactly when overlapping calls show a reason on the direct path, under every interleaving: when a
      direct report swapped last and a relay report with a reason stored last. */
  lemma ReasonIsLeftExactly(steps: seq<Step>)
    requires Runs(START, steps)
    ensures Exec(START, steps).shown.path.Direct? && Exec(START, steps).shown.reason.Some?
      <==> Overtaken(SwapsOf(steps), LastStore(steps, None))
  {
    StartRemembers(steps);
    SwapsAreKnown(START, steps);
    LeftIff(Exec(START, steps), SwapsOf(steps), LastStore(steps, None));
  }

  lemma StartRemembers(steps: seq<Step>)
    requires Runs(START, steps)
    ensures Remembers(Exec(START, steps), SwapsOf(steps), LastStore(steps, None))
  {
    RemembersRun(START, steps, [], None);
    assert [] + SwapsOf(steps) == SwapsOf(steps);
  }

  lemma LeftIff(s: State, swaps: seq<Step>, last: Option<nat>)
    requires Remembers(s, swaps, last) && forall i :: 0 <= i < |swaps| ==> !swaps[i].path.Unknown?
    ensures s.shown.path.Direct? && s.shown.reason.Some? <==> Overtaken(swaps, last)
  {
  }

  lemma {:induction false} SwapsAreKnown(s: State, steps: seq<Step>)
    requires Runs(s, steps)
    ensures forall i :: 0 <= i < |SwapsOf(steps)| ==> !SwapsOf(steps)[i].path.Unknown?
    decreases |steps|
  {
    if steps != [] {
      SwapsAreKnown(Next(s, steps[0]), steps[1..]);
    }
  }

  /** Two overlapping calls that do: the interface takes a shared reference and allows them, although
      a consumer's one control task never makes them. */
  lemma OverlapCanLeaveAReason() returns (steps: seq<Step>)
    ensures Runs(START, steps)
    ensures var s := Exec(START, steps);
      s.shown.path.Direct? && s.shown.reason.Some? && forall i :: 0 <= i < |s.calls| ==> s.calls[i].Returned?
  {
    var relay, direct := Swap(Relay, Some("checks failed")), Swap(Direct, None);
    var s1 := Next(START, relay);
    var s2 := Next(s1, direct);
    var s3 := Next(s2, Store(1));
    var s4 := Next(s3, Count(0));
    RunsCons(s4, Store(0), []);
    RunsCons(s3, Count(0), [Store(0)] + []);
    RunsCons(s2, Store(1), [Count(0)] + ([Store(0)] + []));
    RunsCons(s1, direct, [Store(1)] + ([Count(0)] + ([Store(0)] + [])));
    RunsCons(START, relay, [direct] + ([Store(1)] + ([Count(0)] + ([Store(0)] + []))));
    steps := [relay] + ([direct] + ([Store(1)] + ([Count(0)] + ([Store(0)] + []))));
  }

  lemma RunsCons(s: State, step: Step, rest: seq<Step>)
    requires Enabled(s, step) && Runs(Next(s, step), rest)
    ensures Runs(s, [step] + rest) && Exec(s, [step] + rest) == Exec(Next(s, step), rest)
  {
  }
}
