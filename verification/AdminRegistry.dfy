/** The in-memory registry behind the admin page (src/admin.rs): registrations that remove themselves,
    guards that count active connections, and the sorted snapshot. */
module AdminRegistry {
  import opened Basics
  import opened Tally
  import opened SecretPath

  /** One registration: its id, what it was registered with, whether its handle is still held, its
      active-connection counter, the path it shows, and every report it was ever sent. */
  datatype Reg = Reg(id: nat, facts: Facts, live: bool, active: int, shown: Shown, reports: seq<Report>)

  /** One connection's guard on the counter of registration `reg`. */
  datatype Guard = Guard(reg: nat, held: bool)

  /** What a registration is made with and never changes, as the page shows it: field names and texts. */
  type Facts = map<string, string>

  datatype Registry = Registry(next: nat, entries: map<nat, nat>, regs: seq<Reg>, guards: seq<Guard>)

  datatype Op =
    | Register(facts: Facts)
    | Unregister(r: nat)
    | NewGuard(r: nat)
    | DropGuard(g: nat)
    | Tell(r: nat, report: Report)

  /** Ids come from a 64-bit counter that starts at one and wraps. */
  const IDS: nat := 0x1_0000_0000_0000_0000

  const EMPTY := Registry(1, map[], [], [])

  predicate Allowed(s: Registry, op: Op) {
    match op
    case Register(_) => true
    case Unregister(r) => r < |s.regs| && s.regs[r].live
    case NewGuard(r) => r < |s.regs|
    case DropGuard(g) => g < |s.guards| && s.guards[g].held && s.guards[g].reg < |s.regs|
    case Tell(r, _) => r < |s.regs| && s.regs[r].live
  }

  function ApplyOp(s: Registry, op: Op): Registry
    requires Allowed(s, op)
  {
    match op
    case Register(facts) =>
      s.(next := (s.next + 1) % IDS,
         entries := s.entries[s.next := |s.regs|],
         regs := s.regs + [Reg(s.next, facts, true, 0, FRESH, [])])
    case Unregister(r) =>
      s.(entries := s.entries - {s.regs[r].id}, regs := s.regs[r := s.regs[r].(live := false)])
    case NewGuard(r) =>
      s.(regs := s.regs[r := s.regs[r].(active := s.regs[r].active + 1)], guards := s.guards + [Guard(r, true)])
    case DropGuard(g) =>
      var r := s.guards[g].reg;
      s.(regs := s.regs[r := s.regs[r].(active := s.regs[r].active - 1)], guards := s.guards[g := Guard(r, false)])
    case Tell(r, report) =>
      var reg := s.regs[r];
      s.(regs := s.regs[r := reg.(shown := Apply(reg.shown, report), reports := reg.reports + [report])])
  }

  predicate History(s: Registry, ops: seq<Op>)
    decreases |ops|
  {
    ops == [] || (Allowed(s, ops[0]) && History(ApplyOp(s, ops[0]), ops[1..]))
  }

  function Replay(s: Registry, ops: seq<Op>): Registry
    requires History(s, ops)
    decreases |ops|
  {
    if ops == [] then s else Replay(ApplyOp(s, ops[0]), ops[1..])
  }

  // ----- What every operation keeps

  ghost function HeldFor(r: nat): Guard -> nat { (g: Guard) => if g.held && g.reg == r then 1 else 0 }

  ghost predicate Numbered(s: Registry) {
    && s.next == (1 + |s.regs|) % IDS
    && forall i :: 0 <= i < |s.regs| ==> s.regs[i].id == (1 + i) % IDS
  }

  ghost predicate Counted(s: Registry) {
    && (forall g :: 0 <= g < |s.guards| ==> s.guards[g].reg < |s.regs|)
    && forall i :: 0 <= i < |s.regs| ==> s.regs[i].active == Total(s.guards, HeldFor(i))
  }

  ghost predicate Recorded(s: Registry) {
    forall i :: 0 <= i < |s.regs| ==> s.regs[i].shown == After(FRESH, s.regs[i].reports)
  }

  /** The map lists exactly the registrations whose handle is held, under their ids. */
  ghost predicate Listed(s: Registry) {
    && (forall id :: id in s.entries ==>
          s.entries[id] < |s.regs| && s.regs[s.entries[id]].id == id && s.regs[s.entries[id]].live)
    && (forall i :: 0 <= i < |s.regs| && s.regs[i].live ==> s.regs[i].id in s.entries && s.entries[s.regs[i].id] == i)
  }

  ghost predicate Consistent(s: Registry) {
    Numbered(s) && Counted(s) && Recorded(s) && (|s.regs| <= IDS ==> Listed(s))
  }

  lemma CountedAt(s: Registry, op: Op, i: nat)
    requires Counted(s) && Allowed(s, op) && i < |ApplyOp(s, op).regs|
    ensures ApplyOp(s, op).regs[i].active == Total(ApplyOp(s, op).guards, HeldFor(i))
  {
    match op {
      case Register(_) =>
        if i == |s.regs| {
          NoGuardsYet(s.guards, i);
        }
      case NewGuard(r) => TotalAppend(s.guards, Guard(r, true), HeldFor(i));
      case DropGuard(g) => TotalUpdate(s.guards, g, Guard(s.guards[g].reg, false), HeldFor(i));
      case _ =>
    }
  }

  lemma CountedStep(s: Registry, op: Op)
    requires Counted(s) && Allowed(s, op)
    ensures Counted(ApplyOp(s, op))
  {
    forall i | 0 <= i < |ApplyOp(s, op).regs|
      ensures ApplyOp(s, op).regs[i].active == Total(ApplyOp(s, op).guards, HeldFor(i))
    {
      CountedAt(s, op, i);
    }
  }

  lemma {:induction false} NoGuardsYet(guards: seq<Guard>, r: nat)
    requires forall g :: 0 <= g < |guards| ==> guards[g].reg < r
    ensures Total(guards, HeldFor(r)) == 0
  {
    if guards != [] {
      NoGuardsYet(guards[..|guards| - 1], r);
    }
  }

  lemma RecordedStep(s: Registry, op: Op)
    requires Recorded(s) && Allowed(s, op)
    ensures Recorded(ApplyOp(s, op))
  {
  }

  /** Two registrations share an id exactly when they are a multiple of 2^64 registrations apart. */
  lemma IdsRepeatExactly(s: Registry, i: nat, j: nat)
    requires Numbered(s) && i < j < |s.regs|
    ensures s.regs[i].id == s.regs[j].id <==> (j - i) % IDS == 0
  {
  }

  lemma ModDifference(a: nat, b: nat)
    requires a <= b
    ensures a % IDS == b % IDS <==> (b - a) % IDS == 0
  {
  }

  lemma RegisterListed(s: Registry, facts: Facts)
    requires Numbered(s) && Listed(s) && |s.regs| < IDS
    ensures Listed(ApplyOp(s, Register(facts)))
  {
    forall i | 0 <= i < |s.regs|
      ensures s.regs[i].id != s.next
    {
      ModDifference(1 + i, 1 + |s.regs|);
    }
    var t := ApplyOp(s, Register(facts));
    forall id | id in t.entries
      ensures t.entries[id] < |t.regs| && t.regs[t.entries[id]].id == id && t.regs[t.entries[id]].live
    {
      if id != s.next {
        assert id in s.entries;
      }
    }
  }

  lemma UnregisterListed(s: Registry, r: nat)
    requires Numbered(s) && Listed(s) && r < |s.regs| <= IDS && s.regs[r].live
    ensures Listed(ApplyOp(s, Unregister(r)))
  {
  }

  /** Listing depends only on which handles are held, and on the ids. */
  lemma OtherwiseListed(s: Registry, t: Registry)
    requires Listed(s) && t.entries == s.entries && |t.regs| == |s.regs|
    requires forall i :: 0 <= i < |s.regs| ==> t.regs[i].id == s.regs[i].id && t.regs[i].live == s.regs[i].live
    ensures Listed(t)
  {
  }

  lemma ListedStep(s: Registry, op: Op)
    requires Numbered(s) && Listed(s) && Allowed(s, op) && |ApplyOp(s, op).regs| <= IDS
    ensures Listed(ApplyOp(s, op))
  {
    match op {
      case Register(facts) => RegisterListed(s, facts);
      case Unregister(r) => UnregisterListed(s, r);
      case _ => OtherwiseListed(s, ApplyOp(s, op));
    }
  }

  lemma NumberedStep(s: Registry, op: Op)
    requires Numbered(s) && Allowed(s, op)
    ensures Numbered(ApplyOp(s, op))
  {
    if op.Register? {
      NextId(1 + |s.regs|);
    }
  }

  lemma NextId(n: nat)
    ensures (n % IDS + 1) % IDS == (n + 1) % IDS
  {
  }

  lemma OpKeepsConsistent(s: Registry, op: Op)
    requires Consistent(s) && Allowed(s, op)
    ensures Consistent(ApplyOp(s, op))
  {
    NumberedStep(s, op);
    CountedStep(s, op);
    RecordedStep(s, op);
    if |ApplyOp(s, op).regs| <= IDS {
      ListedStep(s, op);
    }
  }

  lemma {:induction false} ReplayKeepsConsistent(s: Registry, ops: seq<Op>)
    requires Consistent(s) && History(s, ops)
    ensures Consistent(Replay(s, ops))
    decreases |ops|
  {
    if ops != [] {
      OpKeepsConsistent(s, ops[0]);
      ReplayKeepsConsistent(ApplyOp(s, ops[0]), ops[1..]);
    }
  }

  // ----- What the page shows

  datatype View = View(id: nat, facts: Facts, active: int, shown: Shown)

  ghost predicate HasRow(rows: seq<View>, id: nat) { exists i :: 0 <= i < |rows| && rows[i].id == id }

  function RowOf(s: Registry, id: nat): View
    requires id in s.entries && s.entries[id] < |s.regs|
  {
    View(id, s.regs[s.entries[id]].facts, s.regs[s.entries[id]].active, s.regs[s.entries[id]].shown)
  }

  /** The rows of a snapshot: strictly ascending ids, one row per entry, showing that entry. */
  ghost predicate IsSnapshot(s: Registry, rows: seq<View>) {
    && (forall i, j :: 0 <= i < j < |rows| ==> rows[i].id < rows[j].id)
    && (forall id :: id in s.entries <==> HasRow(rows, id))
    && (forall i :: 0 <= i < |rows| ==>
          rows[i].id in s.entries && s.entries[rows[i].id] < |s.regs|
          && rows[i] == RowOf(s, rows[i].id))
  }

  // ----- What a history of operations says by itself

  /** What each registration was made with, in the order they were made. */
  function Made(ops: seq<Op>): seq<Facts> {
    if ops == [] then [] else (if ops[0].Register? then [ops[0].facts] else []) + Made(ops[1..])
  }

  /** The reports sent to registration `r`, oldest first. */
  function Told(ops: seq<Op>, r: nat): seq<Report> {
    if ops == [] then [] else (if ops[0].Tell? && ops[0].r == r then [ops[0].report] else []) + Told(ops[1..], r)
  }

  /** The registration each guard was taken on, in the order they were taken. */
  function GuardsTaken(ops: seq<Op>): seq<nat> {
    if ops == [] then [] else (if ops[0].NewGuard? then [ops[0].r] else []) + GuardsTaken(ops[1..])
  }

  /** How many of the first `n` guards were taken on registration `r` and not dropped. */
  function OpenGuards(ops: seq<Op>, r: nat, n: nat): nat
    requires n <= |GuardsTaken(ops)|
  {
    if n == 0 then 0
    else OpenGuards(ops, r, n - 1) + (if GuardsTaken(ops)[n - 1] == r && DropGuard(n - 1) !in ops then 1 else 0)
  }

  /** What registration `r` was told before, if it exists yet. */
  function ToldBefore(s: Registry, r: nat): seq<Report> { if r < |s.regs| then s.regs[r].reports else [] }

  lemma ToldStep(s: Registry, op: Op, r: nat)
    requires Allowed(s, op)
    ensures ToldBefore(ApplyOp(s, op), r) == ToldBefore(s, r) + Told([op], r)
  {
    assert [op][1..] == [];
  }

  lemma {:induction false} ToldRun(s: Registry, ops: seq<Op>, r: nat)
    requires History(s, ops)
    ensures ToldBefore(Replay(s, ops), r) == ToldBefore(s, r) + Told(ops, r)
    decreases |ops|
  {
    if ops == [] {
      assert ToldBefore(s, r) + [] == ToldBefore(s, r);
    } else {
      ToldStep(s, ops[0], r);
      ToldRun(ApplyOp(s, ops[0]), ops[1..], r);
      ToldFront(ops, r);
      assert ToldBefore(s, r) + Told([ops[0]], r) + Told(ops[1..], r) == ToldBefore(s, r) + Told(ops, r);
    }
  }

  lemma {:induction false} MadeRun(s: Registry, ops: seq<Op>, r: nat)
    requires History(s, ops)
    ensures var e := Replay(s, ops);
      && |e.regs| == |s.regs| + |Made(ops)|
      && (|s.regs| <= r < |e.regs| ==> e.regs[r].facts == Made(ops)[r - |s.regs|])
      && (r < |s.regs| ==> e.regs[r].facts == s.regs[r].facts)
    decreases |ops|
  {
    if ops != [] {
      MadeRun(ApplyOp(s, ops[0]), ops[1..], r);
    }
  }

  lemma {:induction false} LiveRun(s: Registry, ops: seq<Op>, r: nat)
    requires History(s, ops)
    ensures |Replay(s, ops).regs| >= |s.regs|
    ensures r < |Replay(s, ops).regs| ==>
      (Replay(s, ops).regs[r].live <==> (r < |s.regs| ==> s.regs[r].live) && Unregister(r) !in ops)
    decreases |ops|
  {
    if ops != [] {
      assert ops == [ops[0]] + ops[1..];
      LiveRun(ApplyOp(s, ops[0]), ops[1..], r);
    }
  }

  lemma ToldFront(ops: seq<Op>, r: nat)
    requires ops != []
    ensures Told(ops, r) == Told([ops[0]], r) + Told(ops[1..], r)
  {
    assert [ops[0]][1..] == [];
  }

  lemma {:induction false} GuardRun(s: Registry, ops: seq<Op>, g: nat)
    requires History(s, ops)
    ensures var e := Replay(s, ops);
      && |e.guards| == |s.guards| + |GuardsTaken(ops)|
      && (|s.guards| <= g < |e.guards| ==> e.guards[g].reg == GuardsTaken(ops)[g - |s.guards|])
      && (g < |s.guards| ==> e.guards[g].reg == s.guards[g].reg)
      && (g < |e.guards| ==> (e.guards[g].held <==> (g < |s.guards| ==> s.guards[g].held) && DropGuard(g) !in ops))
    decreases |ops|
  {
    if ops != [] {
      assert ops == [ops[0]] + ops[1..];
      GuardRun(ApplyOp(s, ops[0]), ops[1..], g);
    }
  }

  lemma {:induction false} GuardsAreCounted(ops: seq<Op>, r: nat, n: nat)
    requires History(EMPTY, ops) && n <= |GuardsTaken(ops)| == |Replay(EMPTY, ops).guards|
    ensures Total(Replay(EMPTY, ops).guards[..n], HeldFor(r)) == OpenGuards(ops, r, n)
  {
    if n > 0 {
      var guards := Replay(EMPTY, ops).guards;
      GuardsAreCounted(ops, r, n - 1);
      GuardRun(EMPTY, ops, n - 1);
      assert guards[..n][..n - 1] == guards[..n - 1];
    }
  }

  /** The registry is what its operations made it: each registration holds what it was made with, what it
      alone was told, and is held until it is dropped; its active count is the guards taken on it and not
      dropped. */
  lemma RegistryIsItsHistory(ops: seq<Op>, r: nat)
    requires History(EMPTY, ops)
    ensures |Replay(EMPTY, ops).regs| == |Made(ops)|
    ensures r < |Made(ops)| ==>
      var reg := Replay(EMPTY, ops).regs[r];
      && reg.id == (1 + r) % IDS && reg.facts == Made(ops)[r] && reg.reports == Told(ops, r)
      && (reg.live <==> Unregister(r) !in ops)
      && reg.active == OpenGuards(ops, r, |GuardsTaken(ops)|)
  {
    MadeRun(EMPTY, ops, r);
    if r < |Made(ops)| {
      ToldRun(EMPTY, ops, r);
      LiveRun(EMPTY, ops, r);
      assert [] + Told(ops, r) == Told(ops, r);
      ActiveIsOpen(ops, r);
    }
  }

  lemma ActiveIsOpen(ops: seq<Op>, r: nat)
    requires History(EMPTY, ops) && r < |Replay(EMPTY, ops).regs|
    ensures Replay(EMPTY, ops).regs[r].active == OpenGuards(ops, r, |GuardsTaken(ops)|)
    ensures Replay(EMPTY, ops).regs[r].id == (1 + r) % IDS
  {
    GuardRun(EMPTY, ops, 0);
    ReplayKeepsConsistent(EMPTY, ops);
    var guards := Replay(EMPTY, ops).guards;
    GuardsAreCounted(ops, r, |guards|);
    assert guards[..|guards|] == guards;
  }

  /** After every history of at most 2^64 registrations a snapshot lists exactly the registrations
      that were not dropped, each once, with what it was made with and as many active connections as
      guards were taken on it and not dropped. */
  lemma SnapshotListsTheLive(ops: seq<Op>, rows: seq<View>, r: nat)
    requires History(EMPTY, ops) && r < |Made(ops)| <= IDS
    requires IsSnapshot(Replay(EMPTY, ops), rows)
    ensures Unregister(r) !in ops <==>
      exists i :: 0 <= i < |rows| && rows[i].id == (1 + r) % IDS && rows[i].facts == Made(ops)[r]
                  && rows[i].active == OpenGuards(ops, r, |GuardsTaken(ops)|)
                  && rows[i].shown == After(FRESH, Told(ops, r))
                  && Replay(EMPTY, ops).entries[rows[i].id] == r
  {
    ReplayKeepsConsistent(EMPTY, ops);
    RegistryIsItsHistory(ops, r);
    var s := Replay(EMPTY, ops);
    if s.regs[r].live {
      assert HasRow(rows, s.regs[r].id);
      var i :| 0 <= i < |rows| && rows[i].id == s.regs[r].id;
      assert rows[i] == RowOf(s, rows[i].id);
    }
  }

  /** What a registration shows about the data path is the history of the reports sent to it: the last
      recognised path, every entry into relay counted once, and on the relay the reason of that report. */
  lemma ShownIsTheHistory(ops: seq<Op>, r: nat)
    requires History(EMPTY, ops) && r < |Made(ops)|
    ensures r < |Replay(EMPTY, ops).regs|
    ensures var shown, told := Replay(EMPTY, ops).regs[r].shown, Told(ops, r);
      && shown.path == Latest(Known(told))
      && shown.fallbacks == RelayEntries(Known(told))
      && shown.reason == (if shown.path.Relay? && LastKnown(told).Some? then LastKnown(told).value.reason else None)
  {
    ReplayKeepsConsistent(EMPTY, ops);
    RegistryIsItsHistory(ops, r);
    HistoryIsCounted(Told(ops, r));
  }

  // ----- The registry as the server holds it

  /** The updates `set_secret_path` makes to an entry, in its order; an unknown name changes nothing. */
  method Reported(shown: Shown, name: string, reason: Option<string>) returns (after: Shown)
    ensures after == Apply(shown, Report(name, reason))
  {
    if name != "direct" && name != "relay" {
      return shown;
    }
    var path := if name == "direct" then Direct else Relay;
    var prev := shown.path;
    after := shown.(path := path);
    if path == Relay && prev != Relay {
      after := after.(fallbacks := after.fallbacks + 1);
    }
    after := after.(reason := if path == Direct then None else reason);
  }

  class Admin {
    var next: nat
    var entries: map<nat, nat>
    var regs: seq<Reg>
    var guards: seq<Guard>

    ghost function Current(): Registry
      reads this
    {
      Registry(next, entries, regs, guards)
    }

    ghost predicate Valid()
      reads this
    {
      Consistent(Current())
    }

    constructor ()
      ensures Valid() && Current() == EMPTY
    {
      next, entries, regs, guards := 1, map[], [], [];
    }

    /** `register`. */
    method RegisterTunnel(facts: Facts) returns (r: nat)
      requires Valid()
      modifies this
      ensures Valid() && Current() == ApplyOp(old(Current()), Register(facts)) && r == |old(regs)|
    {
      OpKeepsConsistent(Current(), Register(facts));
      r := |regs|;
      var id := next;
      next := (next + 1) % IDS;
      regs := regs + [Reg(id, facts, true, 0, FRESH, [])];
      entries := entries[id := r];
    }

    /** `Registration::drop`. */
    method DropRegistration(r: nat)
      requires Valid() && r < |regs| && regs[r].live
      modifies this
      ensures Valid() && Current() == ApplyOp(old(Current()), Unregister(r))
      ensures entries == old(entries) - {old(regs[r]).id}
      ensures regs == old(regs)[r := old(regs[r]).(live := false)] && guards == old(guards)
    {
      OpKeepsConsistent(Current(), Unregister(r));
      entries := entries - {regs[r].id};
      regs := regs[r := regs[r].(live := false)];
    }

    /** `ActiveGuard::new`. */
    method Guarded(r: nat) returns (g: nat)
      requires Valid() && r < |regs|
      modifies this
      ensures Valid() && Current() == ApplyOp(old(Current()), NewGuard(r)) && g == |old(guards)|
      ensures regs[r] == old(regs[r]).(active := old(regs[r]).active + 1) && guards == old(guards) + [Guard(r, true)]
      ensures |regs| == |old(regs)| && forall i :: 0 <= i < |regs| && i != r ==> regs[i] == old(regs[i])
    {
      OpKeepsConsistent(Current(), NewGuard(r));
      g := |guards|;
      regs := regs[r := regs[r].(active := regs[r].active + 1)];
      guards := guards + [Guard(r, true)];
    }

    /** `ActiveGuard::drop`. */
    method ReleaseGuard(g: nat)
      requires Valid() && g < |guards| && guards[g].held
      modifies this
      ensures Valid() && Current() == ApplyOp(old(Current()), DropGuard(g))
      ensures var r := old(guards[g]).reg;
        && regs[r] == old(regs[r]).(active := old(regs[r]).active - 1)
        && |regs| == |old(regs)| && forall i :: 0 <= i < |regs| && i != r ==> regs[i] == old(regs[i])
    {
      OpKeepsConsistent(Current(), DropGuard(g));
      var r := guards[g].reg;
      regs := regs[r := regs[r].(active := regs[r].active - 1)];
      guards := guards[g := Guard(r, false)];
    }

    /** `Registration::set_secret_path`. */
    method SetSecretPath(r: nat, name: string, reason: Option<string>)
      requires Valid() && r < |regs| && regs[r].live
      modifies this
      ensures Valid() && Current() == ApplyOp(old(Current()), Tell(r, Report(name, reason)))
      ensures regs[r].shown == Apply(old(regs[r]).shown, Report(name, reason))
      ensures |regs| == |old(regs)| && forall i :: 0 <= i < |regs| && i != r ==> regs[i] == old(regs[i])
    {
      OpKeepsConsistent(Current(), Tell(r, Report(name, reason)));
      var shown := Reported(regs[r].shown, name, reason);
      regs := regs[r := regs[r].(shown := shown, reports := regs[r].reports + [Report(name, reason)])];
    }

    /** `snapshot`: collect the entries in whatever order the map yields them, then sort by id. */
    method Snapshot() returns (rows: seq<View>)
      requires Valid() && |regs| <= IDS
      ensures IsSnapshot(Current(), rows)
    {
      var views: seq<View> := [];
      var left := entries.Keys;
      while left != {}
        invariant left <= entries.Keys
        invariant Collected(Current(), views, entries.Keys - left)
      {
        var id :| id in left;
        CollectOne(Current(), views, entries.Keys - left, id);
        views := views + [View(id, regs[entries[id]].facts, regs[entries[id]].active, regs[entries[id]].shown)];
        assert entries.Keys - left + {id} == entries.Keys - (left - {id});
        left := left - {id};
      }
      assert entries.Keys - left == entries.Keys;
      rows := SortById(views);
      CollectedAll(Current(), views);
    }
  }

  /** `views` are the rows of the entries under `ids`, in some order. */
  ghost predicate Collected(s: Registry, views: seq<View>, ids: set<nat>)
    requires Listed(s) && ids <= s.entries.Keys
  {
    && Apart(views)
    && (forall id :: id in ids ==> RowOf(s, id) in views)
    && forall row :: row in views ==> row.id in ids && row == RowOf(s, row.id)
  }

  lemma CollectOne(s: Registry, views: seq<View>, ids: set<nat>, id: nat)
    requires Listed(s) && id in s.entries && id !in ids && ids <= s.entries.Keys
    requires Collected(s, views, ids)
    ensures Collected(s, views + [RowOf(s, id)], ids + {id})
  {
    forall i | 0 <= i < |views|
      ensures views[i].id != id
    {
      assert views[i] in views;
    }
  }

  lemma CollectedAll(s: Registry, views: seq<View>)
    requires Listed(s) && Collected(s, views, s.entries.Keys)
    ensures IsSnapshot(s, SortById(views))
  {
    SortIs(views);
    var rows := SortById(views);
    forall id | id in s.entries
      ensures HasRow(rows, id)
    {
      assert RowOf(s, id) in rows;
    }
    forall i | 0 <= i < |rows|
      ensures rows[i].id in s.entries && rows[i] == RowOf(s, rows[i].id)
    {
      assert rows[i] in rows;
    }
  }

  ghost predicate Apart(rows: seq<View>) {
    forall i, j :: 0 <= i < j < |rows| ==> rows[i].id != rows[j].id
  }

  ghost predicate Ascending(rows: seq<View>) {
    forall i, j :: 0 <= i < j < |rows| ==> rows[i].id < rows[j].id
  }

  /** `sort_by_key`: stable, so an element goes behind those of the same id. */
  function SortById(rows: seq<View>): seq<View> {
    if rows == [] then [] else Insert(SortById(rows[..|rows| - 1]), rows[|rows| - 1])
  }

  function Insert(rows: seq<View>, row: View): seq<View> {
    if rows == [] || row.id < rows[0].id then [row] + rows else [rows[0]] + Insert(rows[1..], row)
  }

  /** Sorting rows with distinct ids keeps exactly them and puts them in strictly ascending order. */
  lemma {:induction false} SortIs(rows: seq<View>)
    requires Apart(rows)
    ensures Ascending(SortById(rows)) && forall x :: x in SortById(rows) <==> x in rows
  {
    if rows != [] {
      var front, row := rows[..|rows| - 1], rows[|rows| - 1];
      SortIs(front);
      var sorted := SortById(front);
      forall i | 0 <= i < |sorted|
        ensures sorted[i].id != row.id
      {
        assert sorted[i] in front;
      }
      InsertIs(sorted, row);
      assert rows == front + [row];
    }
  }

  lemma {:induction false} InsertIs(rows: seq<View>, row: View)
    requires Ascending(rows) && forall i :: 0 <= i < |rows| ==> rows[i].id != row.id
    ensures Ascending(Insert(rows, row))
    ensures forall x :: x in Insert(rows, row) <==> x in rows || x == row
    decreases |rows|
  {
    if rows != [] && rows[0].id < row.id {
      InsertIs(rows[1..], row);
      var tail := Insert(rows[1..], row);
      assert rows == [rows[0]] + rows[1..];
      forall i | 0 <= i < |tail|
        ensures rows[0].id < tail[i].id
      {
        assert tail[i] in tail;
      }
    }
  }
}
