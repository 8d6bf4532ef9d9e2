/** The execution claim and the account-owner fence: any number of cycles interleave over a
    shared marker store, an owner store and exclusive lock files; reads may be stale, store calls
    may raise before or after taking effect, and a cycle may crash between any two steps. */
module ExecutionClaim {
  import opened Orders

  type Key = string
  type Account = string
  type Profile = string
  type Path = string
  type CycleId = nat

  // ----------------------------------------------------------- account identity

  /** One cycle's configuration; the marker key is empty when deduplication is off. */
  datatype Config = Config(
    dryRun: bool,
    dedup: bool,
    hasStore: bool,
    key: Key,
    configured: seq<Account>,    // account ids of the service: fence and order routing both read them
    fromSnapshot: seq<Account>,  // account ids in the portfolio snapshot: a fallback of the fence only
    scope: string,
    profile: Profile,
    lockPath: Path)
  {
    /** The only cycles that may claim, and so the only ones that may send. */
    predicate CanClaim() {
      !dryRun && dedup && key != "" && hasStore
    }
  }

  /** Blank ids dropped, repetitions dropped, order kept. */
  function Normalized(ids: seq<Account>): seq<Account> {
    if ids == [] then []
    else
      var before, id := Normalized(ids[..|ids| - 1]), ids[|ids| - 1];
      if id == "" || id in before then before else before + [id]
  }

  /** Every id that is not empty, once. */
  lemma {:induction false} NormalizedExactly(ids: seq<Account>)
    ensures forall id :: id in Normalized(ids) <==> id in ids && id != ""
    ensures forall i, j :: 0 <= i < j < |Normalized(ids)| ==> Normalized(ids)[i] != Normalized(ids)[j]
  {
    if ids != [] {
      var n := |ids| - 1;
      NormalizedExactly(ids[..n]);
      assert ids == ids[..n] + [ids[n]];
    }
  }

  function UpperChar(c: char): char {
    if 'a' <= c <= 'z' then (c as int - 32) as char else c
  }

  function Upper(s: string): string {
    if s == "" then "" else [UpperChar(s[0])] + Upper(s[1..])
  }

  predicate Contains(s: string, part: string) {
    part <= s || (s != "" && Contains(s[1..], part))
  }

  predicate IsPhysical(id: Account) {
    && id != ""
    && Upper(id) !in ["PAPER", "LIVE", "DRY_RUN", "DRY-RUN", "DEFAULT"]
    && !Contains(Upper(id), "GROUP")
  }

  // ---- texts, apart from their recursion

  /** Equal up to the case of ASCII letters. */
  predicate SameLetter(a: char, b: char) {
    || a == b
    || ('a' <= a <= 'z' && b as int == a as int - 32)
    || ('A' <= a <= 'Z' && b as int == a as int + 32)
  }

  predicate SameIgnoringCase(s: string, t: string) {
    |s| == |t| && forall i :: 0 <= i < |s| ==> SameLetter(s[i], t[i])
  }

  lemma {:induction false} UpperAt(s: string)
    ensures |Upper(s)| == |s| && forall i :: 0 <= i < |s| ==> Upper(s)[i] == UpperChar(s[i])
  {
    if s != "" {
      UpperAt(s[1..]);
    }
  }

  lemma SameLetterIsUpper(a: char, b: char)
    ensures SameLetter(a, b) <==> UpperChar(a) == UpperChar(b)
  {
  }

  lemma UpperIgnoresCase(s: string, t: string)
    ensures Upper(s) == Upper(t) <==> SameIgnoringCase(s, t)
  {
    UpperAt(s);
    UpperAt(t);
    forall i | 0 <= i < |s| && i < |t| ensures SameLetter(s[i], t[i]) <==> UpperChar(s[i]) == UpperChar(t[i]) {
      SameLetterIsUpper(s[i], t[i]);
    }
    if SameIgnoringCase(s, t) {
      assert forall i :: 0 <= i < |s| ==> Upper(s)[i] == Upper(t)[i];
    }
    if Upper(s) == Upper(t) {
      forall i | 0 <= i < |s| ensures SameLetter(s[i], t[i]) {
        assert Upper(s)[i] == Upper(t)[i];
      }
    }
  }

  predicate OccursAt(s: string, part: string, i: nat) {
    i + |part| <= |s| && s[i..i + |part|] == part
  }

  lemma OccursAtStart(s: string, part: string)
    ensures part <= s <==> OccursAt(s, part, 0)
  {
  }

  lemma {:induction false} ContainsASlice(s: string, part: string)
    ensures Contains(s, part) <==> exists i: nat :: OccursAt(s, part, i)
  {
    OccursAtStart(s, part);
    if part <= s {
      assert OccursAt(s, part, 0);
    } else if s == "" {
      if i: nat :| OccursAt(s, part, i) {
        assert false;
      }
    } else {
      ContainsASlice(s[1..], part);
      if i: nat :| OccursAt(s[1..], part, i) {
        assert s[1..][i..i + |part|] == s[i + 1..i + 1 + |part|];
        assert OccursAt(s, part, i + 1);
      }
      if i: nat :| OccursAt(s, part, i) {
        assert i > 0;
        assert s[1..][i - 1..i - 1 + |part|] == s[i..i + |part|];
        assert OccursAt(s[1..], part, i - 1);
      }
    }
  }

  predicate MentionedAt(s: string, part: string, i: nat) {
    i + |part| <= |s| && SameIgnoringCase(s[i..i + |part|], part)
  }

  /** Some stretch of s is part, ignoring case. */
  ghost predicate Mentions(s: string, part: string) {
    exists i: nat :: MentionedAt(s, part, i)
  }

  lemma UpperOfSlice(s: string, i: nat, j: nat)
    requires i <= j <= |s|
    ensures |Upper(s)| == |s| && Upper(s)[i..j] == Upper(s[i..j])
  {
    UpperAt(s);
    UpperAt(s[i..j]);
  }

  lemma MentionIsOccurrence(s: string, part: string, i: nat)
    ensures MentionedAt(s, part, i) <==> OccursAt(Upper(s), Upper(part), i)
  {
    UpperAt(s);
    UpperAt(part);
    if i + |part| <= |s| {
      UpperOfSlice(s, i, i + |part|);
      UpperIgnoresCase(s[i..i + |part|], part);
    }
  }

  lemma MentionsIsContains(s: string, part: string)
    ensures Mentions(s, part) <==> Contains(Upper(s), Upper(part))
  {
    ContainsASlice(Upper(s), Upper(part));
    forall i: nat ensures MentionedAt(s, part, i) <==> OccursAt(Upper(s), Upper(part), i) {
      MentionIsOccurrence(s, part, i);
    }
  }

  /** The labels that are no account, however they are written. */
  ghost predicate IsLabel(id: Account) {
    || SameIgnoringCase(id, "paper") || SameIgnoringCase(id, "live") || SameIgnoringCase(id, "dry_run")
    || SameIgnoringCase(id, "dry-run") || SameIgnoringCase(id, "default")
    || Mentions(id, "group")
  }

  lemma UpperModes()
    ensures Upper("paper") == "PAPER" && Upper("live") == "LIVE"
  {
    UpperAt("paper");
    UpperAt("live");
  }

  lemma UpperDryRuns()
    ensures Upper("dry_run") == "DRY_RUN" && Upper("dry-run") == "DRY-RUN"
  {
    UpperAt("dry_run");
    UpperAt("dry-run");
  }

  lemma UpperNames()
    ensures Upper("default") == "DEFAULT" && Upper("group") == "GROUP"
  {
    UpperAt("default");
    UpperAt("group");
  }

  /** An id is physical exactly when it is not empty and no label. */
  lemma PhysicalExactly(id: Account)
    ensures IsPhysical(id) <==> id != "" && !IsLabel(id)
  {
    UpperModes();
    UpperDryRuns();
    UpperNames();
    UpperIgnoresCase(id, "paper");
    UpperIgnoresCase(id, "live");
    UpperIgnoresCase(id, "dry_run");
    UpperIgnoresCase(id, "dry-run");
    UpperIgnoresCase(id, "default");
    MentionsIsContains(id, "group");
  }

  datatype Resolution = Physical(account: Account) | NoAccount | NotExactlyOne | LabelNotAccount | ScopeNotAccount

  /** The account the owner fence guards. */
  function FencedAccount(c: Config): Resolution {
    var configured := Normalized(c.configured);
    var candidates := if configured != [] then configured else Normalized(c.fromSnapshot);
    if candidates == [] then NoAccount
    else if |candidates| != 1 then NotExactlyOne
    else if !IsPhysical(candidates[0]) then LabelNotAccount
    else if c.scope != "" && Upper(candidates[0]) == Upper(c.scope) then ScopeNotAccount
    else Physical(candidates[0])
  }

  /** The account written on the orders; a service with several accounts refuses to route. */
  predicate Routable(c: Config) {
    |Normalized(c.configured)| <= 1
  }

  function OrderAccount(c: Config): Option<Account>
    requires Routable(c)
  {
    var ids := Normalized(c.configured);
    if ids == [] then None else Some(ids[0])
  }

  /** The repository's own portfolio reader writes back the account ids it was given. */
  predicate Wired(c: Config) {
    Normalized(c.fromSnapshot) == Normalized(c.configured)
  }

  /** So with that reader the account that is fenced is always the account the orders carry. */
  lemma WiredOrdersCarryFencedAccount(c: Config)
    requires Wired(c) && FencedAccount(c).Physical?
    ensures Routable(c) && OrderAccount(c) == Some(FencedAccount(c).account)
  {
  }

  /** With any other reader: the fenced account is the account the orders carry exactly when the service
      configures one; a cycle fenced by its snapshot alone would send orders that name no account. */
  lemma OrdersCarryFencedAccount(c: Config)
    requires FencedAccount(c).Physical?
    ensures Routable(c)
    ensures OrderAccount(c) == Some(FencedAccount(c).account) <==> Normalized(c.configured) != []
    ensures OrderAccount(c).Some? ==> OrderAccount(c) == Some(FencedAccount(c).account)
  {
  }

  /** Such a cycle: nothing configured, one account in the snapshot, a fence and no account on the orders. */
  lemma ASnapshotFenceNamesNoAccount(c: Config)
    requires c.configured == [] && c.fromSnapshot == ["7"] && c.scope == ""
    ensures FencedAccount(c) == Physical("7") && Routable(c) && OrderAccount(c) == None
  {
    assert ["7"][..0] == [] && Normalized(["7"]) == ["7"];
    assert "7"[1..] == "" && Upper("7") == "7";
  }

  // -------------------------------------------------------- transition system

  datatype Store = Store(markers: set<Key>, owners: map<Account, Profile>)

  datatype Phase =
    | Ready      // past the dedup reads
    | Passing    // holds the execution lock, between two submissions
    | Fencing    // inside the claim, about to call the owner store
    | Claiming   // inside the claim, about to create the marker
    | Sending    // cleared, about to hand an order to the broker
    | Done
    | Crashed

  datatype Local = Local(phase: Phase, attempted: bool, acquired: bool, locked: bool)

  /** An order handed to the broker delegate. */
  datatype Submission = Submission(cycle: CycleId, account: Option<Account>)

  datatype World = World(store: Store, locks: set<Path>, cycles: map<CycleId, Local>, sent: seq<Submission>)

  /** A store call answers, or raises before or after it took effect. */
  datatype Reply = Answered | RaisedBefore | RaisedAfter

  datatype Action =
    | Start(alreadyRecorded: bool)   // any answer: the dedup reads may be stale or fail
    | TakeLock
    | SubmitIntent
    | Fence(reply: Reply)
    | Claim(reply: Reply)
    | Deliver
    | Finish(record: bool)           // a failed marker write is a finish without record
    | Crash

  type Fleet = CycleId -> Config

  function WithLocal(w: World, c: CycleId, l: Local): World {
    w.(cycles := w.cycles[c := l])
  }

  /** First writer wins. */
  function OwnerAfter(owners: map<Account, Profile>, a: Account, p: Profile): map<Account, Profile> {
    if a in owners then owners else owners[a := p]
  }

  /** One atomic step of cycle c; an action its phase does not allow changes nothing. A refusal
      leaves the cycle between submissions, as if a caller had caught the error. */
  function Step(cfg: Config, w: World, c: CycleId, a: Action): World {
    if a.Start? then
      if c in w.cycles then w
      else if !Routable(cfg) || (cfg.key != "" && cfg.hasStore && a.alreadyRecorded)
      then WithLocal(w, c, Local(Done, false, false, false))
      else WithLocal(w, c, Local(Ready, false, false, false))
    else if c !in w.cycles then w
    else
      var l := w.cycles[c];
      match a
      case Start(_) => w
      case Crash => WithLocal(w, c, l.(phase := Crashed))
      case TakeLock =>
        if l.phase != Ready then w
        else if cfg.lockPath in w.locks then WithLocal(w, c, l.(phase := Done))
        else WithLocal(w, c, l.(phase := Passing, locked := true)).(locks := w.locks + {cfg.lockPath})
      case SubmitIntent =>
        if l.phase != Passing || cfg.dryRun then w
        else if l.attempted then (if l.acquired then WithLocal(w, c, l.(phase := Sending)) else w)
        else if cfg.CanClaim() && FencedAccount(cfg).Physical?
        then WithLocal(w, c, l.(phase := Fencing, attempted := true))
        else WithLocal(w, c, l.(attempted := true))
      case Fence(reply) =>
        if l.phase != Fencing || !FencedAccount(cfg).Physical? then w
        else
          var account := FencedAccount(cfg).account;
          var owners := OwnerAfter(w.store.owners, account, cfg.profile);
          if reply == RaisedBefore then WithLocal(w, c, l.(phase := Passing))
          else
            WithLocal(w, c, l.(phase := if reply == Answered && owners[account] == cfg.profile then Claiming else Passing))
            .(store := w.store.(owners := owners))
      case Claim(reply) =>
        if l.phase != Claiming then w
        else if reply == RaisedBefore then WithLocal(w, c, l.(phase := Passing))
        else
          var created := reply == Answered && cfg.key !in w.store.markers;
          WithLocal(w, c, l.(phase := if created then Sending else Passing, acquired := created))
          .(store := w.store.(markers := w.store.markers + {cfg.key}))
      case Deliver =>
        if l.phase != Sending || !Routable(cfg) then w
        else WithLocal(w, c, l.(phase := Passing)).(sent := w.sent + [Submission(c, OrderAccount(cfg))])
      case Finish(record) =>
        if l.phase != Passing then w
        else
          var done := WithLocal(w, c, l.(phase := Done));
          if record && cfg.hasStore && cfg.key != ""
          then done.(store := w.store.(markers := w.store.markers + {cfg.key}))
          else done
  }

  datatype Event = Event(cycle: CycleId, action: Action)

  type Stepper = (World, Event) -> World

  function StepperOf(fleet: Fleet): Stepper {
    (w: World, e: Event) => Step(fleet(e.cycle), w, e.cycle, e.action)
  }

  /** The world after the first k events of an interleaving. */
  function Run(step: Stepper, start: World, events: seq<Event>, k: nat): World
    requires k <= |events|
  {
    if k == 0 then start else step(Run(step, start, events, k - 1), events[k - 1])
  }

  /** The world at the end of an interleaving of a fleet of cycles. */
  function Final(fleet: Fleet, start: World, events: seq<Event>): World {
    Run(StepperOf(fleet), start, events, |events|)
  }

  /** What every step keeps holds from any point of a run onwards. */
  lemma {:induction false} KeptFrom(step: Stepper, inv: World -> bool, start: World, events: seq<Event>, k: nat, m: nat)
    requires forall w, e :: inv(w) ==> inv(step(w, e))
    requires k <= m <= |events| && inv(Run(step, start, events, k))
    ensures inv(Run(step, start, events, m))
    decreases m - k
  {
    if k < m {
      KeptFrom(step, inv, start, events, k, m - 1);
    }
  }

  /** Any stores and locks left by the past; no cycle has begun and nothing is sent. */
  predicate Fresh(w: World) {
    w.cycles == map[] && w.sent == []
  }

  // --------------------------------------------------------------- invariant

  predicate Owned(cfg: Config, store: Store) {
    FencedAccount(cfg).Physical? &&
    var a := FencedAccount(cfg).account;
    a in store.owners && store.owners[a] == cfg.profile
  }

  ghost predicate LocalOk(cfg: Config, w: World, l: Local) {
    && (l.acquired ==> l.attempted && cfg.CanClaim() && cfg.key in w.store.markers && Owned(cfg, w.store))
    && (l.phase == Fencing || l.phase == Claiming ==> l.attempted && !l.acquired && cfg.CanClaim())
    && (l.phase == Claiming ==> Owned(cfg, w.store))
    && (l.phase == Sending ==> l.acquired)
    && (l.phase in {Passing, Fencing, Claiming, Sending} || l.acquired ==> l.locked)
    && (l.locked ==> cfg.lockPath in w.locks)
  }

  ghost predicate SentOk(fleet: Fleet, w: World, s: Submission) {
    && s.cycle in w.cycles && w.cycles[s.cycle].acquired
    && Routable(fleet(s.cycle)) && s.account == OrderAccount(fleet(s.cycle))
  }

  /** The stores only grow, and an owner is never replaced. */
  predicate Grows(w: World, next: World) {
    && w.store.markers <= next.store.markers
    && w.locks <= next.locks
    && (forall a :: a in w.store.owners ==> a in next.store.owners && next.store.owners[a] == w.store.owners[a])
  }

  lemma StepGrows(cfg: Config, w: World, c: CycleId, a: Action)
    ensures Grows(w, Step(cfg, w, c, a))
  {
  }

  /** What a step may do to the cycle that takes it. */
  lemma StepKeepsLocal(cfg: Config, w: World, c: CycleId, a: Action)
    requires c in w.cycles ==> LocalOk(cfg, w, w.cycles[c])
    ensures var next := Step(cfg, w, c, a);
            && (c in next.cycles ==> LocalOk(cfg, next, next.cycles[c]))
            && (forall d :: d != c ==> (d in next.cycles <==> d in w.cycles))
            && (forall d :: d != c && d in w.cycles ==> next.cycles[d] == w.cycles[d])
            && (c in w.cycles ==> c in next.cycles)
  {
  }

  /** A claim is won, or a lock taken, only where the key or the path was free; neither is lost. */
  lemma StepWinsOnlyFree(cfg: Config, w: World, c: CycleId, a: Action)
    requires c in w.cycles ==> LocalOk(cfg, w, w.cycles[c])
    ensures var next := Step(cfg, w, c, a);
            c in next.cycles ==>
              && (next.cycles[c].acquired ==> (c in w.cycles && w.cycles[c].acquired) || cfg.key !in w.store.markers)
              && (next.cycles[c].locked ==> (c in w.cycles && w.cycles[c].locked) || cfg.lockPath !in w.locks)
              && (c in w.cycles && w.cycles[c].acquired ==> next.cycles[c].acquired)
  {
  }

  lemma StepSends(cfg: Config, w: World, c: CycleId, a: Action)
    requires c in w.cycles ==> LocalOk(cfg, w, w.cycles[c])
    ensures var next := Step(cfg, w, c, a);
            next.sent == w.sent
            || (&& Routable(cfg) && next.sent == w.sent + [Submission(c, OrderAccount(cfg))]
                && c in next.cycles && next.cycles[c].acquired)
  {
  }

  lemma OthersStayOk(cfg: Config, w: World, next: World, l: Local)
    requires LocalOk(cfg, w, l) && Grows(w, next)
    ensures LocalOk(cfg, next, l)
  {
  }

  ghost predicate LocalsOk(fleet: Fleet, w: World) {
    forall c :: c in w.cycles ==> LocalOk(fleet(c), w, w.cycles[c])
  }

  /** No two cycles hold a claim on one key, or the same lock. */
  ghost predicate Exclusive(fleet: Fleet, w: World) {
    forall c, d :: c in w.cycles && d in w.cycles && c != d ==>
      && (w.cycles[c].acquired && w.cycles[d].acquired ==> fleet(c).key != fleet(d).key)
      && (w.cycles[c].locked && w.cycles[d].locked ==> fleet(c).lockPath != fleet(d).lockPath)
  }

  ghost predicate AllSentOk(fleet: Fleet, w: World) {
    forall i :: 0 <= i < |w.sent| ==> SentOk(fleet, w, w.sent[i])
  }

  ghost predicate Inv(fleet: Fleet, w: World) {
    LocalsOk(fleet, w) && Exclusive(fleet, w) && AllSentOk(fleet, w)
  }

  lemma StepKeepsLocals(fleet: Fleet, w: World, c: CycleId, a: Action)
    requires LocalsOk(fleet, w)
    ensures LocalsOk(fleet, Step(fleet(c), w, c, a))
  {
    var next := Step(fleet(c), w, c, a);
    StepGrows(fleet(c), w, c, a);
    StepKeepsLocal(fleet(c), w, c, a);
    forall d | d in next.cycles ensures LocalOk(fleet(d), next, next.cycles[d]) {
      if d != c {
        OthersStayOk(fleet(d), w, next, w.cycles[d]);
      }
    }
  }

  lemma StepKeepsExclusive(fleet: Fleet, w: World, c: CycleId, a: Action)
    requires LocalsOk(fleet, w) && Exclusive(fleet, w)
    ensures Exclusive(fleet, Step(fleet(c), w, c, a))
  {
    StepKeepsLocal(fleet(c), w, c, a);
    StepWinsOnlyFree(fleet(c), w, c, a);
    var next := Step(fleet(c), w, c, a);
    forall d | d in next.cycles && d != c
      ensures next.cycles[d] == w.cycles[d] && LocalOk(fleet(d), w, next.cycles[d])
    {
    }
  }

  lemma StepKeepsSent(fleet: Fleet, w: World, c: CycleId, a: Action)
    requires LocalsOk(fleet, w) && AllSentOk(fleet, w)
    ensures AllSentOk(fleet, Step(fleet(c), w, c, a))
  {
    var next := Step(fleet(c), w, c, a);
    StepKeepsLocal(fleet(c), w, c, a);
    StepWinsOnlyFree(fleet(c), w, c, a);
    StepSends(fleet(c), w, c, a);
    forall i | 0 <= i < |next.sent| ensures SentOk(fleet, next, next.sent[i]) {
      if i < |w.sent| {
        assert SentOk(fleet, w, w.sent[i]) && next.sent[i] == w.sent[i];
      }
    }
  }

  lemma StepKeepsInv(fleet: Fleet, w: World, c: CycleId, a: Action)
    requires Inv(fleet, w)
    ensures Inv(fleet, Step(fleet(c), w, c, a))
  {
    StepKeepsLocals(fleet, w, c, a);
    StepKeepsExclusive(fleet, w, c, a);
    StepKeepsSent(fleet, w, c, a);
  }

  /** Every reachable world satisfies the invariant. */
  lemma RunKeepsInv(fleet: Fleet, start: World, events: seq<Event>, k: nat)
    requires Fresh(start) && k <= |events|
    ensures Inv(fleet, Run(StepperOf(fleet), start, events, k))
  {
    var step, inv := StepperOf(fleet), w => Inv(fleet, w);
    forall w, e | inv(w) ensures inv(step(w, e)) {
      StepKeepsInv(fleet, w, e.cycle, e.action);
    }
    KeptFrom(step, inv, start, events, 0, k);
  }

  // ------------------------------------------------------------ main results

  /** At-most-once execution, over every interleaving of any number of cycles: two orders under
      one marker key, or behind one lock file, come from the same cycle. */
  lemma AtMostOneCyclePerKey(fleet: Fleet, start: World, events: seq<Event>, i: nat, j: nat)
    requires Fresh(start)
    requires var sent := Final(fleet, start, events).sent;
             && i < |sent| && j < |sent|
             && (fleet(sent[i].cycle).key == fleet(sent[j].cycle).key
                 || fleet(sent[i].cycle).lockPath == fleet(sent[j].cycle).lockPath)
    ensures var sent := Final(fleet, start, events).sent;
            sent[i].cycle == sent[j].cycle
  {
    RunKeepsInv(fleet, start, events, |events|);
    var w := Final(fleet, start, events);
    assert SentOk(fleet, w, w.sent[i]) && SentOk(fleet, w, w.sent[j]);
  }

  /** Single owner: in a fleet that reads portfolios with the repository's reader, every order names an
      account and comes from a cycle whose profile is the stored owner of that account. */
  lemma EveryOrderHasItsOwner(fleet: Fleet, start: World, events: seq<Event>, i: nat)
    requires Fresh(start) && i < |Final(fleet, start, events).sent|
    requires Wired(fleet(Final(fleet, start, events).sent[i].cycle))
    ensures var w := Final(fleet, start, events);
            && w.sent[i].account.Some?
            && var a := w.sent[i].account.value;
               a in w.store.owners && w.store.owners[a] == fleet(w.sent[i].cycle).profile
  {
    RunKeepsInv(fleet, start, events, |events|);
    var w := Final(fleet, start, events);
    assert SentOk(fleet, w, w.sent[i]);
    WiredOrdersCarryFencedAccount(fleet(w.sent[i].cycle));
  }

  /** With any reader, an order routed to an account comes from a cycle whose profile is the stored
      owner of that account; so all orders routed to one account share one profile. */
  lemma OrdersComeFromOwner(fleet: Fleet, start: World, events: seq<Event>, i: nat)
    requires Fresh(start)
    requires i < |Final(fleet, start, events).sent|
    requires Final(fleet, start, events).sent[i].account.Some?
    ensures var w := Final(fleet, start, events);
            var a := w.sent[i].account.value;
            a in w.store.owners && w.store.owners[a] == fleet(w.sent[i].cycle).profile
  {
    RunKeepsInv(fleet, start, events, |events|);
    var w := Final(fleet, start, events);
    assert SentOk(fleet, w, w.sent[i]);
    OrdersCarryFencedAccount(fleet(w.sent[i].cycle));
  }

  /** The account ids a cycle has to choose from: the configured ones, else those of its snapshot. */
  function Candidates(c: Config): seq<Account> {
    if Normalized(c.configured) != [] then Normalized(c.configured) else Normalized(c.fromSnapshot)
  }

  lemma FencedExactly(c: Config)
    ensures FencedAccount(c).Physical?
       <==> && |Candidates(c)| == 1 && Candidates(c)[0] != "" && !IsLabel(Candidates(c)[0])
            && !(c.scope != "" && SameIgnoringCase(Candidates(c)[0], c.scope))
    ensures FencedAccount(c).Physical? ==> FencedAccount(c).account == Candidates(c)[0]
  {
    if |Candidates(c)| == 1 {
      PhysicalExactly(Candidates(c)[0]);
      UpperIgnoresCase(Candidates(c)[0], c.scope);
    }
  }

  /** Over every interleaving no order comes from a cycle without exactly one account id, or whose one id is,
      ignoring case, a label, mentions a group, or is the cycle's own scope. */
  lemma LabelsNeverSend(fleet: Fleet, start: World, events: seq<Event>, i: nat)
    requires Fresh(start) && i < |Final(fleet, start, events).sent|
    ensures var c := fleet(Final(fleet, start, events).sent[i].cycle);
            && |Candidates(c)| == 1 && !IsLabel(Candidates(c)[0])
            && !(c.scope != "" && SameIgnoringCase(Candidates(c)[0], c.scope))
  {
    RunKeepsInv(fleet, start, events, |events|);
    var w := Final(fleet, start, events);
    assert SentOk(fleet, w, w.sent[i]);
    FencedExactly(fleet(w.sent[i].cycle));
  }

  /** Only live cycles with an active claim ever send; a dry run sends nothing. */
  lemma OnlyClaimantsSend(fleet: Fleet, start: World, events: seq<Event>, i: nat)
    requires Fresh(start) && i < |Final(fleet, start, events).sent|
    ensures var w := Final(fleet, start, events);
            var cfg := fleet(w.sent[i].cycle);
            cfg.CanClaim() && cfg.key in w.store.markers
  {
    RunKeepsInv(fleet, start, events, |events|);
    var w := Final(fleet, start, events);
    assert SentOk(fleet, w, w.sent[i]);
  }

  /** A cycle that has sent an order is never refused afterwards: its next intent is cleared. */
  lemma NoRefusalAfterFirstOrder(fleet: Fleet, start: World, events: seq<Event>, i: nat)
    requires Fresh(start) && i < |Final(fleet, start, events).sent|
    ensures var w := Final(fleet, start, events);
            var c := w.sent[i].cycle;
            && c in w.cycles
            && (w.cycles[c].phase == Passing ==> Step(fleet(c), w, c, SubmitIntent).cycles[c].phase == Sending)
  {
    RunKeepsInv(fleet, start, events, |events|);
    var w := Final(fleet, start, events);
    assert SentOk(fleet, w, w.sent[i]);
  }

  predicate Settled(l: Local) {
    l.attempted && l.phase != Fencing && l.phase != Claiming
  }

  /** The latch: once a cycle's claim is settled its outcome never changes, and no later intent
      of it touches the stores. */
  lemma ClaimIsLatched(fleet: Fleet, w: World, c: CycleId, d: CycleId, a: Action)
    requires Inv(fleet, w) && c in w.cycles && Settled(w.cycles[c])
    ensures var next := Step(fleet(d), w, d, a);
            && c in next.cycles && Settled(next.cycles[c])
            && next.cycles[c].acquired == w.cycles[c].acquired
            && (c == d && !a.Finish? ==> next.store == w.store)
  {
  }

  /** The latch over a whole run. */
  lemma ClaimStaysLatched(fleet: Fleet, start: World, events: seq<Event>, k: nat, m: nat, c: CycleId)
    requires Fresh(start) && k <= m <= |events|
    requires var w := Run(StepperOf(fleet), start, events, k); c in w.cycles && Settled(w.cycles[c])
    ensures var w := Run(StepperOf(fleet), start, events, k);
            var later := Run(StepperOf(fleet), start, events, m);
            && c in later.cycles && Settled(later.cycles[c])
            && later.cycles[c].acquired == w.cycles[c].acquired
  {
    var step := StepperOf(fleet);
    var outcome := Run(step, start, events, k).cycles[c].acquired;
    var inv := w => LatchedAt(fleet, w, c, outcome);
    forall w, e | inv(w) ensures inv(step(w, e)) {
      StepKeepsInv(fleet, w, e.cycle, e.action);
      ClaimIsLatched(fleet, w, c, e.cycle, e.action);
    }
    RunKeepsInv(fleet, start, events, k);
    KeptFrom(step, inv, start, events, k, m);
  }

  ghost predicate LatchedAt(fleet: Fleet, w: World, c: CycleId, outcome: bool) {
    Inv(fleet, w) && c in w.cycles && Settled(w.cycles[c]) && w.cycles[c].acquired == outcome
  }

  /** Over, with nothing sent by the cycle since the first n orders. */
  predicate OverSince(w: World, c: CycleId, n: nat) {
    && c in w.cycles && (w.cycles[c].phase == Done || w.cycles[c].phase == Crashed)
    && n <= |w.sent| && forall i :: n <= i < |w.sent| ==> w.sent[i].cycle != c
  }

  lemma StaysOver(fleet: Fleet, w: World, c: CycleId, n: nat, e: Event)
    requires OverSince(w, c, n)
    ensures OverSince(StepperOf(fleet)(w, e), c, n)
  {
    var next := Step(fleet(e.cycle), w, e.cycle, e.action);
    assert StepperOf(fleet)(w, e) == next;
    if e.cycle == c {
      assert next.sent == w.sent;
      assert next.cycles[c].phase in {Done, Crashed};
    } else {
      assert next.cycles[c] == w.cycles[c];
      assert |next.sent| > |w.sent| ==> next.sent[..|w.sent|] == w.sent && |next.sent| == |w.sent| + 1 && next.sent[|w.sent|].cycle == e.cycle;
    }
  }

  lemma OverTouchesNothing(cfg: Config, w: World, c: CycleId, a: Action, n: nat)
    requires OverSince(w, c, n)
    ensures var next := Step(cfg, w, c, a);
            next.store == w.store && next.locks == w.locks && next.sent == w.sent
  {
  }

  /** A cycle whose read says that it is recorded is over at once: whatever follows, it never sends, and no event of
      it touches a store or a lock. */
  lemma {:induction false} RecordedCycleDoesNothing(fleet: Fleet, start: World, events: seq<Event>, k: nat, m: nat, c: CycleId)
    requires k < m <= |events| && events[k] == Event(c, Start(true))
    requires fleet(c).key != "" && fleet(c).hasStore
    requires c !in Run(StepperOf(fleet), start, events, k).cycles
    requires forall i :: 0 <= i < |Run(StepperOf(fleet), start, events, k).sent| ==>
               Run(StepperOf(fleet), start, events, k).sent[i].cycle != c
    ensures OverSince(Run(StepperOf(fleet), start, events, m), c, 0)
    ensures m < |events| && events[m].cycle == c ==>
              var before, after := Run(StepperOf(fleet), start, events, m), Run(StepperOf(fleet), start, events, m + 1);
              after.store == before.store && after.locks == before.locks
  {
    if m > k + 1 {
      RecordedCycleDoesNothing(fleet, start, events, k, m - 1, c);
      StaysOver(fleet, Run(StepperOf(fleet), start, events, m - 1), c, 0, events[m - 1]);
    }
    assert OverSince(Run(StepperOf(fleet), start, events, m), c, 0);
    if m < |events| && events[m].cycle == c {
      OverTouchesNothing(fleet(c), Run(StepperOf(fleet), start, events, m), c, events[m].action, 0);
    }
  }

  /** A recorded finish leaves the cycle's marker, for good. */
  lemma FinishLeavesItsMarker(fleet: Fleet, start: World, events: seq<Event>, k: nat, m: nat, c: CycleId)
    requires k < m <= |events| && events[k] == Event(c, Finish(true))
    requires fleet(c).key != "" && fleet(c).hasStore
    requires var w := Run(StepperOf(fleet), start, events, k); c in w.cycles && w.cycles[c].phase == Passing
    ensures fleet(c).key in Run(StepperOf(fleet), start, events, m).store.markers
  {
    var step := StepperOf(fleet);
    var key := fleet(c).key;
    var inv := (w: World) => key in w.store.markers;
    forall w, e | inv(w) ensures inv(step(w, e)) {
      StepGrows(fleet(e.cycle), w, e.cycle, e.action);
    }
    assert inv(Run(step, start, events, k + 1));
    KeptFrom(step, inv, start, events, k + 1, m);
  }

  // ---- cycles that do send, and cycles that are over

  /** A cycle not yet begun that may claim, with one physical account, free or its own, a free key and a free lock. */
  predicate Clear(cfg: Config, w: World, c: CycleId) {
    && c !in w.cycles && Routable(cfg) && cfg.CanClaim() && FencedAccount(cfg).Physical?
    && cfg.key !in w.store.markers && cfg.lockPath !in w.locks
    && (FencedAccount(cfg).account in w.store.owners ==> w.store.owners[FencedAccount(cfg).account] == cfg.profile)
  }

  /** The cycle begins, takes its lock, asks to submit, and both its store calls answer. */
  function Opened(cfg: Config, w: World, c: CycleId): World {
    var passing := Step(cfg, Step(cfg, w, c, Start(false)), c, TakeLock);
    Step(cfg, Step(cfg, Step(cfg, passing, c, SubmitIntent), c, Fence(Answered)), c, Claim(Answered))
  }

  /** The order that is cleared is delivered, then n more intents are submitted and delivered. */
  function Delivered(cfg: Config, cleared: World, c: CycleId, n: nat): World {
    if n == 0 then Step(cfg, cleared, c, Deliver)
    else Step(cfg, Step(cfg, Delivered(cfg, cleared, c, n - 1), c, SubmitIntent), c, Deliver)
  }

  /** Cleared to hand over its first order. */
  predicate Cleared(w: World, c: CycleId) {
    c in w.cycles && w.cycles[c] == Local(Sending, true, true, true)
  }

  lemma AClearCycleOpens(cfg: Config, w: World, c: CycleId)
    requires Clear(cfg, w, c)
    ensures Cleared(Opened(cfg, w, c), c) && Opened(cfg, w, c).sent == w.sent
  {
    var passing := Step(cfg, Step(cfg, w, c, Start(false)), c, TakeLock);
    assert passing.cycles[c] == Local(Passing, false, false, true) && passing.store == w.store && passing.sent == w.sent;
    var claiming := Step(cfg, Step(cfg, passing, c, SubmitIntent), c, Fence(Answered));
    assert claiming.cycles[c] == Local(Claiming, true, false, true);
    assert claiming.store.markers == w.store.markers && claiming.sent == w.sent;
  }

  /** One more intent of a cycle that holds its claim. */
  lemma OneMoreOrder(cfg: Config, w: World, c: CycleId)
    requires Routable(cfg) && !cfg.dryRun && c in w.cycles && w.cycles[c] == Local(Passing, true, true, true)
    ensures var next := Step(cfg, Step(cfg, w, c, SubmitIntent), c, Deliver);
            && c in next.cycles && next.cycles[c] == Local(Passing, true, true, true)
            && next.sent == w.sent + [Submission(c, OrderAccount(cfg))]
  {
    assert Cleared(Step(cfg, w, c, SubmitIntent), c);
  }

  function Copies(o: Submission, n: nat): seq<Submission> {
    seq(n, i => o)
  }

  lemma {:induction false} AClearedCycleSends(cfg: Config, w: World, c: CycleId, n: nat)
    requires Cleared(w, c) && Routable(cfg) && !cfg.dryRun
    ensures var after := Delivered(cfg, w, c, n);
            && c in after.cycles && after.cycles[c] == Local(Passing, true, true, true)
            && after.sent == w.sent + Copies(Submission(c, OrderAccount(cfg)), n + 1)
  {
    var o := Submission(c, OrderAccount(cfg));
    if n == 0 {
      assert Copies(o, 1) == [o];
    } else {
      AClearedCycleSends(cfg, w, c, n - 1);
      OneMoreOrder(cfg, Delivered(cfg, w, c, n - 1), c);
      assert Copies(o, n + 1) == Copies(o, n) + [o];
    }
  }

  /** A clear cycle that takes its steps undisturbed sends all its orders, under its account. */
  lemma AClearCycleSends(cfg: Config, w: World, c: CycleId, n: nat)
    requires Clear(cfg, w, c)
    ensures Delivered(cfg, Opened(cfg, w, c), c, n).sent == w.sent + Copies(Submission(c, OrderAccount(cfg)), n + 1)
  {
    AClearCycleOpens(cfg, w, c);
    AClearedCycleSends(cfg, Opened(cfg, w, c), c, n);
  }

  /** A store call that raises refuses the cycle; one that raises after it took effect has taken it: the account has
      its owner, or the key its marker, as if it had answered. */
  lemma ALostReplyRefuses(cfg: Config, w: World, c: CycleId, reply: Reply)
    requires c in w.cycles && LocalOk(cfg, w, w.cycles[c]) && FencedAccount(cfg).Physical? && reply != Answered
    ensures var next, account := Step(cfg, w, c, Fence(reply)), FencedAccount(cfg).account;
            w.cycles[c].phase == Fencing ==>
              && Settled(next.cycles[c]) && !next.cycles[c].acquired && next.store.markers == w.store.markers
              && (account in next.store.owners <==> account in w.store.owners || reply == RaisedAfter)
    ensures var next := Step(cfg, w, c, Claim(reply));
            w.cycles[c].phase == Claiming ==>
              && Settled(next.cycles[c]) && !next.cycles[c].acquired && next.store.owners == w.store.owners
              && (cfg.key in next.store.markers <==> cfg.key in w.store.markers || reply == RaisedAfter)
  {
  }

  /** A cycle refused once never sends, whatever follows. */
  lemma RefusedNeverSends(fleet: Fleet, start: World, events: seq<Event>, k: nat, i: nat, c: CycleId)
    requires Fresh(start) && k <= |events| && i < |Final(fleet, start, events).sent|
    requires var w := Run(StepperOf(fleet), start, events, k);
             c in w.cycles && Settled(w.cycles[c]) && !w.cycles[c].acquired
    ensures Final(fleet, start, events).sent[i].cycle != c
  {
    ClaimStaysLatched(fleet, start, events, k, |events|, c);
    RunKeepsInv(fleet, start, events, |events|);
    assert SentOk(fleet, Final(fleet, start, events), Final(fleet, start, events).sent[i]);
  }

  lemma EndsIt(cfg: Config, w: World, c: CycleId, a: Action)
    requires c in w.cycles && (a == Crash || (a.Finish? && w.cycles[c].phase == Passing))
    ensures OverSince(Step(cfg, w, c, a), c, |w.sent|)
  {
  }

  /** After a crash in any phase, or a finish, nothing more is sent by the cycle. */
  lemma NothingAfterTheEnd(fleet: Fleet, start: World, events: seq<Event>, k: nat, m: nat, c: CycleId)
    requires k < m <= |events| && events[k].cycle == c && c in Run(StepperOf(fleet), start, events, k).cycles
    requires || events[k].action == Crash
             || (events[k].action.Finish? && Run(StepperOf(fleet), start, events, k).cycles[c].phase == Passing)
    ensures OverSince(Run(StepperOf(fleet), start, events, m), c, |Run(StepperOf(fleet), start, events, k).sent|)
  {
    var step, n := StepperOf(fleet), |Run(StepperOf(fleet), start, events, k).sent|;
    var inv := (w: World) => OverSince(w, c, n);
    forall w, e | inv(w) ensures inv(step(w, e)) {
      StaysOver(fleet, w, c, n, e);
    }
    EndsIt(fleet(c), Run(step, start, events, k), c, events[k].action);
    assert inv(Run(step, start, events, k + 1));
    KeptFrom(step, inv, start, events, k + 1, m);
  }

  /** A dry-run cycle fences nothing, claims nothing and sends nothing; the only marker it can
      leave is the record of its own finish, under its own key. */
  lemma DryRunTouchesNothing(fleet: Fleet, w: World, c: CycleId, a: Action)
    requires Inv(fleet, w) && fleet(c).dryRun
    ensures var next := Step(fleet(c), w, c, a);
            && next.sent == w.sent
            && next.store.owners == w.store.owners
            && next.store.markers <= w.store.markers + {fleet(c).key}
            && (!a.Finish? ==> next.store.markers == w.store.markers)
  {
  }

  /** The marker key of a dry run is never the key of a live cycle. */
  ghost predicate ModesAreSeparate(fleet: Fleet) {
    forall c, d :: fleet(c).dryRun && !fleet(d).dryRun && fleet(c).key != "" ==> fleet(c).key != fleet(d).key
  }

  /** So no dry run, whatever it records, takes the marker of a live cycle away. */
  lemma DryRunsLeaveLiveMarkersFree(fleet: Fleet, w: World, c: CycleId, d: CycleId, a: Action)
    requires Inv(fleet, w) && ModesAreSeparate(fleet) && fleet(c).dryRun && !fleet(d).dryRun
    ensures fleet(d).key in Step(fleet(c), w, c, a).store.markers <==> fleet(d).key in w.store.markers
  {
    DryRunTouchesNothing(fleet, w, c, a);
    StepGrows(fleet(c), w, c, a);
  }

  // ------------------------------------------------------ imperative closure

  /** The shared store: create-if-absent markers, first-writer-wins owners. */
  class MarkerStore {
    var markers: set<Key>
    var owners: map<Account, Profile>

    constructor ()
      ensures markers == {} && owners == map[]
    {
      markers, owners := {}, map[];
    }

    method ClaimMarker(key: Key) returns (created: bool)
      modifies this`markers
      ensures created <==> key !in old(markers)
      ensures markers == old(markers) + {key}
    {
      created := key !in markers;
      markers := markers + {key};
    }

    method ClaimOwner(account: Account, profile: Profile) returns (owner: Profile)
      modifies this`owners
      ensures owners == OwnerAfter(old(owners), account, profile)
      ensures account in owners && owner == owners[account]
    {
      if account !in owners {
        owners := owners[account := profile];
      }
      owner := owners[account];
    }
  }

  datatype Acquisition = Granted | Denied | Raised

  datatype Claimed = Claimed(answer: Acquisition, acquired: bool, store: Store)

  /** What the closure answers and leaves in the stores, when every store call answers. */
  function Closure(cfg: Config, attempted: bool, acquired: bool, s: Store): Claimed {
    if attempted then Claimed(if acquired then Granted else Denied, acquired, s)
    else if !cfg.CanClaim() then Claimed(Denied, acquired, s)
    else if !FencedAccount(cfg).Physical? then Claimed(Raised, acquired, s)
    else
      var account := FencedAccount(cfg).account;
      var fenced := s.(owners := OwnerAfter(s.owners, account, cfg.profile));
      if fenced.owners[account] != cfg.profile then Claimed(Raised, acquired, fenced)
      else
        var created := cfg.key !in s.markers;
        Claimed(if created then Granted else Denied, created, fenced.(markers := s.markers + {cfg.key}))
  }

  /** A first call is granted exactly when the cycle may claim, its account is a physical one that is free
      or its own, and the key is free; a later call repeats the outcome. */
  lemma GrantedExactly(cfg: Config, attempted: bool, acquired: bool, s: Store)
    ensures Closure(cfg, attempted, acquired, s).answer == Granted
       <==> if attempted then acquired
            else && cfg.CanClaim() && FencedAccount(cfg).Physical? && cfg.key !in s.markers
                 && (FencedAccount(cfg).account in s.owners ==> s.owners[FencedAccount(cfg).account] == cfg.profile)
  {
  }

  function Alone(cfg: Config, l: Local, s: Store): World {
    World(s, {cfg.lockPath}, map[0 := l], [])
  }

  /** The closure takes exactly the steps submit, fence and claim of the transition system. */
  lemma ClosureTakesTheSteps(cfg: Config, attempted: bool, acquired: bool, s: Store)
    requires !cfg.dryRun && (acquired ==> attempted)
    ensures var c := Closure(cfg, attempted, acquired, s);
            var first := Step(cfg, Alone(cfg, Local(Passing, attempted, acquired, true), s), 0, SubmitIntent);
            var second := Step(cfg, first, 0, Fence(Answered));
            Step(cfg, second, 0, Claim(Answered))
            == Alone(cfg, Local(if c.answer == Granted then Sending else Passing, true, c.acquired, true), c.store)
  {
    forall l, m, t ensures WithLocal(Alone(cfg, l, t), 0, m) == Alone(cfg, m, t) {
      assert map[0 := l][0 := m] == map[0 := m];
    }
    var w := Alone(cfg, Local(Passing, attempted, acquired, true), s);
    var first := Step(cfg, w, 0, SubmitIntent);
    if attempted {
      assert first == Alone(cfg, Local(if acquired then Sending else Passing, true, acquired, true), s);
    } else if cfg.CanClaim() && FencedAccount(cfg).Physical? {
      assert first == Alone(cfg, Local(Fencing, true, false, true), s);
      var account := FencedAccount(cfg).account;
      var fenced := s.(owners := OwnerAfter(s.owners, account, cfg.profile));
      var owned := fenced.owners[account] == cfg.profile;
      var second := Step(cfg, first, 0, Fence(Answered));
      assert second == Alone(cfg, Local(if owned then Claiming else Passing, true, false, true), fenced);
    } else {
      assert first == Alone(cfg, Local(Passing, true, false, true), s);
    }
  }

  /** The claim closure of one cycle, with its latch. */
  class Claimant {
    const cfg: Config
    const store: MarkerStore
    var attempted: bool
    var acquired: bool

    constructor (cfg: Config, store: MarkerStore)
      ensures this.cfg == cfg && this.store == store && !attempted && !acquired
    {
      this.cfg, this.store, attempted, acquired := cfg, store, false, false;
    }

    method Acquire() returns (r: Acquisition)
      requires acquired ==> attempted
      modifies this, store
      ensures attempted && (r == Granted <==> acquired)
      ensures Claimed(r, acquired, Store(store.markers, store.owners))
           == Closure(cfg, old(attempted), old(acquired), Store(old(store.markers), old(store.owners)))
      ensures old(attempted) ==> acquired == old(acquired) && r != Raised
      ensures old(attempted) ==> store.markers == old(store.markers) && store.owners == old(store.owners)
    {
      if attempted {
        return if acquired then Granted else Denied;
      }
      attempted := true;
      if !cfg.CanClaim() {
        return Denied;
      }
      var resolution := FencedAccount(cfg);
      if !resolution.Physical? {
        return Raised;
      }
      var owner := store.ClaimOwner(resolution.account, cfg.profile);
      if owner != cfg.profile {
        return Raised;
      }
      acquired := store.ClaimMarker(cfg.key);
      r := if acquired then Granted else Denied;
    }
  }
}
