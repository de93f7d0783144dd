/** The leaf-certificate cache of proxy/internals/certs/certs.go: a map from host names to
    certificates, guarded by a singleflight group, used by any number of goroutines at once.

    Every atomic action of a caller is one event of a transition system.  The singleflight group
    follows the contract of `Do`: the first caller for a key runs the function, later callers join
    its flight, and the flight can be joined until it is removed, some time after the function has
    returned.  Times are nanoseconds since the Unix epoch. */
module CertCache {
  import opened Common
  import opened Hosts

  const SECOND: int := 1_000_000_000
  const VALIDITY: int := 7 * 24 * 3600 * SECOND
  const RENEW_BEFORE: int := 24 * 3600 * SECOND

  /** A leaf certificate. `id` stands for pointer identity: no two issued leaves share it. */
  datatype Cert = Cert(id: nat, serverName: string, notAfter: int)

  /** What a call returns. `vetted` records when the certificate was last found to have at least
      RENEW_BEFORE left: at an expiry check or, for a fresh leaf, when its validity was computed. */
  datatype Outcome = Ok(cert: Cert, vetted: int) | Failed

  /** NotAfter is read back from the encoded certificate, which holds whole seconds only. */
  function NotAfterFor(now: int): (r: int)
    ensures now + 604_799_000_000_000 < r <= now + 604_800_000_000_000 && r % 1_000_000_000 == 0
  {
    (now + VALIDITY) / SECOND * SECOND
  }

  predicate IsExpiringSoon(c: Option<Cert>, now: int) {
    c.None? || c.value.notAfter - now < RENEW_BEFORE
  }

  // ---------------------------------------------------------------------------------- machine

  /** Where the goroutine that runs the flight's function stands. */
  datatype Stage =
    | Rechecking
    | Rechecked(hit: Option<Cert>)
    | Generating
    | Signing(issuedAt: int)
    | Storing(leaf: Cert, issuedAt: int)
    | Finishing(outcome: Outcome)
    | Published

  datatype Pc =
    | Called
    | Looked(hit: Option<Cert>)
    | Entering
    | Leading(flight: nat, stage: Stage)
    | Waiting(flight: nat)
    | Returned(outcome: Outcome, via: Option<nat>)

  /** A goroutine inside GetOrCreateCert(host), called at `since`. */
  datatype Caller = Caller(host: Host, since: int, pc: Pc)

  datatype Flight = Flight(host: Host, leader: nat, openedAt: int, result: Option<Outcome>)

  datatype Issue = Issue(host: Host, at: int, cert: Cert)

  /** `made` and `log` are history: the host of each leaf by id, and the stored issuances in order. */
  datatype State = State(
    now: int,
    cache: map<Host, Cert>,
    table: map<Host, nat>,
    flights: seq<Flight>,
    callers: map<nat, Caller>,
    made: seq<Host>,
    log: seq<Issue>)

  datatype Event =
    | Tick(delta: nat)              // the wall clock moves on
    | Invoke(t: nat, host: Host)    // goroutine t calls GetOrCreateCert(host)
    | Advance(t: nat)               // t performs its next action
    | IssueFails(t: nat)            // key generation, signing or parsing fails in t
    | Leave(t: nat)                 // t has consumed its result

  function Entry(s: State, h: Host): Option<Cert> {
    if h in s.cache then Some(s.cache[h]) else None
  }

  predicate Enabled(s: State, e: Event) {
    match e
    case Tick(_) => true
    case Invoke(t, _) => t !in s.callers
    case Advance(t) =>
      t in s.callers && !s.callers[t].pc.Returned? &&
      (s.callers[t].pc.Waiting? ==>
         s.callers[t].pc.flight < |s.flights| && s.flights[s.callers[t].pc.flight].result.Some?)
    case IssueFails(t) =>
      && t in s.callers && s.callers[t].pc.Leading?
      && (s.callers[t].pc.stage.Generating? || s.callers[t].pc.stage.Signing?)
    case Leave(t) => t in s.callers && s.callers[t].pc.Returned?
  }

  function Move(s: State, t: nat, c: Caller, pc: Pc): State { s.(callers := s.callers[t := c.(pc := pc)]) }

  /** The next action of a goroutine that runs the flight's function. */
  function Lead(s: State, t: nat, c: Caller): State
    requires c.pc.Leading?
  {
    var f := c.pc.flight;
    match c.pc.stage
    case Rechecking => Move(s, t, c, Leading(f, Rechecked(Entry(s, c.host))))
    case Rechecked(hit) =>
      Move(s, t, c, Leading(f, if IsExpiringSoon(hit, s.now) then Generating else Finishing(Ok(hit.value, s.now))))
    case Generating => Move(s, t, c, Leading(f, Signing(s.now)))
    case Signing(at) =>
      Move(s, t, c, Leading(f, Storing(Cert(|s.made|, ServerName(c.host), NotAfterFor(at)), at)))
        .(made := s.made + [c.host])
    case Storing(cert, at) =>
      Move(s, t, c, Leading(f, Finishing(Ok(cert, at))))
        .(cache := s.cache[c.host := cert], log := s.log + [Issue(c.host, at, cert)])
    case Finishing(r) =>
      if f < |s.flights| then
        Move(s, t, c, Leading(f, Published)).(flights := s.flights[f := s.flights[f].(result := Some(r))])
      else s
    case Published =>
      if f < |s.flights| && s.flights[f].result.Some? then
        Move(s, t, c, Returned(s.flights[f].result.value, Some(f))).(table := s.table - {c.host})
      else s
  }

  function Apply(s: State, e: Event): State
    requires Enabled(s, e)
  {
    match e
    case Tick(delta) => s.(now := s.now + delta)
    case Invoke(t, h) => s.(callers := s.callers[t := Caller(h, s.now, Called)])
    case IssueFails(t) => Move(s, t, s.callers[t], Leading(s.callers[t].pc.flight, Finishing(Failed)))
    case Leave(t) => s.(callers := s.callers - {t})
    case Advance(t) =>
      var c := s.callers[t];
      match c.pc
      case Called => Move(s, t, c, Looked(Entry(s, c.host)))
      case Looked(hit) =>
        Move(s, t, c, if IsExpiringSoon(hit, s.now) then Entering else Returned(Ok(hit.value, s.now), None))
      case Entering =>
        if c.host in s.table then Move(s, t, c, Waiting(s.table[c.host]))
        else Move(s, t, c, Leading(|s.flights|, Rechecking))
               .(table := s.table[c.host := |s.flights|], flights := s.flights + [Flight(c.host, t, s.now, None)])
      case Waiting(f) => Move(s, t, c, Returned(s.flights[f].result.value, Some(f)))
      case Leading(_, _) => Lead(s, t, c)
  }

  predicate Init(s: State) {
    s.cache == map[] && s.table == map[] && s.flights == [] && s.callers == map[] && s.made == [] && s.log == []
  }

  ghost predicate Next(s: State, s': State) { exists e :: Enabled(s, e) && s' == Apply(s, e) }

  ghost predicate IsRun(run: seq<State>) {
    |run| > 0 && Init(run[0]) && forall i :: 0 <= i < |run| - 1 ==> Next(run[i], run[i + 1])
  }

  // -------------------------------------------------------------------------------- invariant

  /** An outcome vouches for its certificate: named for the host, and RENEW_BEFORE left when vetted. */
  predicate Sound(s: State, h: Host, r: Outcome) {
    r.Ok? ==>
      r.cert.serverName == ServerName(h) && r.cert.notAfter - r.vetted >= RENEW_BEFORE && r.vetted <= s.now
  }

  predicate Expiring(s: State, h: Host, at: int) { IsExpiringSoon(Entry(s, h), at) }

  predicate Belongs(s: State, h: Host, c: Cert) {
    c.id < |s.made| && s.made[c.id] == h && c.serverName == ServerName(h)
  }

  predicate Holds(s: State, h: Host, r: Outcome) {
    r.Ok? ==> h in s.cache && s.cache[h] == r.cert
  }

  /** A leader's flight is the one in the table, and its local knowledge still matches the cache. */
  predicate LeaderOk(s: State, t: nat, c: Caller)
    requires c.pc.Leading?
  {
    && c.host in s.table && s.table[c.host] == c.pc.flight && c.pc.flight < |s.flights|
    && s.flights[c.pc.flight].leader == t && s.flights[c.pc.flight].host == c.host
    && s.flights[c.pc.flight].openedAt <= s.now
    && (c.pc.stage.Published? <==> s.flights[c.pc.flight].result.Some?)
    && match c.pc.stage
       case Rechecking => true
       case Rechecked(hit) => hit == Entry(s, c.host)
       case Generating => Expiring(s, c.host, s.now)
       case Signing(at) => s.flights[c.pc.flight].openedAt <= at <= s.now && Expiring(s, c.host, at)
       case Storing(cert, at) =>
         && s.flights[c.pc.flight].openedAt <= at <= s.now && Expiring(s, c.host, at)
         && Belongs(s, c.host, cert) && cert.notAfter == NotAfterFor(at)
       case Finishing(r) =>
         Sound(s, c.host, r) && Holds(s, c.host, r) && (r.Ok? ==> s.flights[c.pc.flight].openedAt <= r.vetted)
       case Published => Holds(s, c.host, s.flights[c.pc.flight].result.value)
  }

  predicate CallerOk(s: State, t: nat, c: Caller) {
    && c.since <= s.now
    && match c.pc
       case Called => true
       case Looked(hit) => hit.Some? ==> Belongs(s, c.host, hit.value)
       case Entering => true
       case Leading(_, _) => LeaderOk(s, t, c)
       case Waiting(f) => f < |s.flights| && s.flights[f].host == c.host
       case Returned(r, via) =>
         && Sound(s, c.host, r)
         && (r.Failed? ==> via.Some?)
         && (via.None? && r.Ok? ==> c.since <= r.vetted)
         && (via.Some? ==> via.value < |s.flights| && s.flights[via.value].host == c.host
                           && s.flights[via.value].result == Some(r))
  }

  predicate FlightOk(s: State, f: nat)
    requires f < |s.flights|
  {
    var fl := s.flights[f];
    && fl.openedAt <= s.now
    && (fl.result.None? ==> fl.host in s.table && s.table[fl.host] == f)
    && (fl.result.Some? ==> Sound(s, fl.host, fl.result.value)
                            && (fl.result.value.Ok? ==> fl.openedAt <= fl.result.value.vetted))
  }

  /** The flight in the table for `h` is being led by the goroutine it names. */
  predicate TableOk(s: State, h: Host)
    requires h in s.table
  {
    && s.table[h] < |s.flights|
    && var fl := s.flights[s.table[h]];
       fl.host == h && fl.leader in s.callers
       && s.callers[fl.leader].pc.Leading? && s.callers[fl.leader].host == h
  }

  /** Two issuances are further apart than this, up to two nanoseconds of rounding. */
  const GAP: int := VALIDITY - RENEW_BEFORE - SECOND

  /** The cache that a sequence of successful issuances, and nothing else, leaves behind. */
  function Replay(log: seq<Issue>): map<Host, Cert> {
    if log == [] then map[] else
      Replay(log[..|log| - 1])[log[|log| - 1].host := log[|log| - 1].cert]
  }

  predicate LogOk(s: State) {
    && (forall i :: 0 <= i < |s.log| ==>
          s.log[i].host in s.cache && s.log[i].cert.notAfter == NotAfterFor(s.log[i].at)
          && s.log[i].cert.notAfter <= s.cache[s.log[i].host].notAfter)
    && (forall i, j :: 0 <= i < j < |s.log| && s.log[i].host == s.log[j].host ==>
          s.log[j].at - s.log[i].at > GAP + 1)
  }

  ghost predicate CallersOk(s: State) { forall t :: t in s.callers ==> CallerOk(s, t, s.callers[t]) }

  ghost predicate FlightsOk(s: State) { forall f :: 0 <= f < |s.flights| ==> FlightOk(s, f) }

  ghost predicate TablesOk(s: State) { forall h :: h in s.table ==> TableOk(s, h) }

  ghost predicate CacheOk(s: State) {
    s.cache == Replay(s.log) && forall h :: h in s.cache ==> Belongs(s, h, s.cache[h])
  }

  ghost predicate Inv(s: State) {
    CallersOk(s) && FlightsOk(s) && TablesOk(s) && CacheOk(s) && LogOk(s)
  }

  /** What a goroutine knows survives any change that leaves its own host's data alone. */
  lemma CallerFrame(s: State, s': State, t: nat, c: Caller)
    requires CallerOk(s, t, c) && s.now <= s'.now && s.made <= s'.made && |s.flights| <= |s'.flights|
    requires forall f :: 0 <= f < |s.flights| ==>
               s'.flights[f].host == s.flights[f].host
               && (s.flights[f].result.Some? ==> s'.flights[f].result == s.flights[f].result)
    requires c.pc.Leading? ==>
               Entry(s', c.host) == Entry(s, c.host) && s'.flights[c.pc.flight] == s.flights[c.pc.flight]
               && c.host in s'.table && s'.table[c.host] == s.table[c.host]
    ensures CallerOk(s', t, c)
  {
    if c.pc.Leading? {
      assert LeaderOk(s, t, c);
      match c.pc.stage
      case Published => assert Holds(s, c.host, s.flights[c.pc.flight].result.value);
      case Finishing(r) => assert Holds(s, c.host, r);
      case _ =>
    }
  }

  lemma LeadersDiffer(s: State, t: nat, c: Caller, u: nat, d: Caller)
    requires c.pc.Leading? && d.pc.Leading? && CallerOk(s, t, c) && CallerOk(s, u, d)
    requires c.host == d.host || c.pc.flight == d.pc.flight
    ensures t == u
  {}

  /** Every event other than a leader's own action. */
  predicate SideStep(s: State, e: Event) {
    Enabled(s, e) && !(e.Advance? && s.callers[e.t].pc.Leading?)
  }

  lemma SideStepKeepsOther(s: State, e: Event, u: nat)
    requires SideStep(s, e) && u in s.callers && (e.Tick? || e.t != u) && CallerOk(s, u, s.callers[u])
    ensures CallerOk(Apply(s, e), u, s.callers[u])
  {
    var s' := Apply(s, e);
    assert s'.cache == s.cache && s'.made == s.made && s.flights <= s'.flights && s.now <= s'.now;
    assert s.callers[u].pc.Leading? ==> s'.table[s.callers[u].host] == s.table[s.callers[u].host];
    hide Apply, SideStep;
    CallerFrame(s, s', u, s.callers[u]);
  }

  lemma SideStepKeepsOwn(s: State, e: Event)
    requires SideStep(s, e) && !e.Tick? && e.t in Apply(s, e).callers && CacheOk(s) && FlightsOk(s) && TablesOk(s)
    requires e.t in s.callers ==> CallerOk(s, e.t, s.callers[e.t])
    ensures CallerOk(Apply(s, e), e.t, Apply(s, e).callers[e.t])
  {
    if e.Advance? && s.callers[e.t].pc.Waiting? { assert FlightOk(s, s.callers[e.t].pc.flight); }
  }

  lemma SideStepKeepsFlights(s: State, e: Event)
    requires SideStep(s, e) && FlightsOk(s)
    ensures FlightsOk(Apply(s, e))
  {
    var s' := Apply(s, e);
    forall f | 0 <= f < |s'.flights| ensures FlightOk(s', f) {
      if f < |s.flights| { assert FlightOk(s, f); }
    }
  }

  lemma SideStepKeepsTable(s: State, e: Event)
    requires SideStep(s, e) && TablesOk(s)
    ensures TablesOk(Apply(s, e))
  {
    var s' := Apply(s, e);
    forall h | h in s'.table ensures TableOk(s', h) {
      if h in s.table { assert TableOk(s, h); }
    }
  }

  lemma SideStepKeepsCallers(s: State, e: Event)
    requires CallersOk(s) && CacheOk(s) && FlightsOk(s) && TablesOk(s) && SideStep(s, e)
    ensures CallersOk(Apply(s, e))
  {
    var s' := Apply(s, e);
    assert Enabled(s, e);
    hide Apply, CallerOk, FlightsOk, TablesOk, CacheOk, SideStep, Enabled;
    forall t | t in s'.callers ensures CallerOk(s', t, s'.callers[t]) {
      if !e.Tick? && t == e.t {
        SideStepKeepsOwn(s, e);
      } else {
        OthersAreUntouched(s, e, t);
        SideStepKeepsOther(s, e, t);
      }
    }
  }

  lemma SideStepKeepsInv(s: State, e: Event)
    requires Inv(s) && SideStep(s, e)
    ensures Inv(Apply(s, e))
  {
    hide Apply, Enabled, CallersOk, TablesOk, FlightsOk, SideStep;
    SideStepKeepsCache(s, e);
    SideStepKeepsFlights(s, e);
    SideStepKeepsTable(s, e);
    SideStepKeepsCallers(s, e);
  }

  lemma SideStepKeepsCache(s: State, e: Event)
    requires SideStep(s, e)
    ensures var s' := Apply(s, e); s'.cache == s.cache && s'.made == s.made && s'.log == s.log
  {}

  lemma OthersAreUntouched(s: State, e: Event, u: nat)
    requires Enabled(s, e) && u in Apply(s, e).callers && (e.Tick? || e.t != u)
    ensures u in s.callers && Apply(s, e).callers[u] == s.callers[u]
  {
    hide Lead, IsExpiringSoon, ServerName, NotAfterFor;
    if e.Advance? && s.callers[e.t].pc.Leading? { LeadMovesOne(s, e.t, s.callers[e.t]); }
  }

  predicate Early(stage: Stage) {
    stage.Rechecking? || stage.Rechecked? || stage.Generating? || stage.Signing?
  }

  lemma EarlyLeadKeepsOwn(s: State, t: nat, c: Caller)
    requires c.pc.Leading? && CallerOk(s, t, c) && CacheOk(s) && Early(c.pc.stage)
    ensures CallerOk(Lead(s, t, c), t, Lead(s, t, c).callers[t])
  {
    hide Replay, ServerName, NotAfterFor, TableOk, FlightOk;
    if c.pc.stage.Rechecked? && c.host in s.cache { assert Belongs(s, c.host, s.cache[c.host]); }
  }

  lemma LateLeadKeepsOwn(s: State, t: nat, c: Caller)
    requires c.pc.Leading? && CallerOk(s, t, c) && FlightOk(s, c.pc.flight) && !Early(c.pc.stage)
    ensures CallerOk(Lead(s, t, c), t, Lead(s, t, c).callers[t])
  {
    hide ServerName, NotAfterFor;
  }

  lemma LeadKeepsOther(s: State, t: nat, c: Caller, u: nat, d: Caller)
    requires c.pc.Leading? && CallerOk(s, t, c) && CallerOk(s, u, d) && u != t
    ensures CallerOk(Lead(s, t, c), u, d)
  {
    if d.pc.Leading? && (c.host == d.host || c.pc.flight == d.pc.flight) { LeadersDiffer(s, t, c, u, d); }
    var s' := Lead(s, t, c);
    assert s.now == s'.now && s.made <= s'.made && |s.flights| == |s'.flights|;
    assert forall f :: 0 <= f < |s.flights| && f != c.pc.flight ==> s'.flights[f] == s.flights[f];
    assert s'.flights[c.pc.flight].host == s.flights[c.pc.flight].host;
    assert s.flights[c.pc.flight].result.Some? ==> s'.flights[c.pc.flight] == s.flights[c.pc.flight];
    assert d.pc.Leading? ==> Entry(s', d.host) == Entry(s, d.host) && s'.table[d.host] == s.table[d.host];
    hide Lead, CallerOk;
    CallerFrame(s, s', u, d);
  }

  /** What the leader of a flight leaves alone: other goroutines and flights, and the table until its
      own flight is over. */
  lemma LeadMovesOne(s: State, t: nat, c: Caller)
    requires c.pc.Leading? && t in s.callers && s.callers[t] == c
    ensures var s' := Lead(s, t, c); s'.callers == s.callers[t := s'.callers[t]] && s'.callers[t].host == c.host
  {
    hide IsExpiringSoon, NotAfterFor, ServerName, Entry;
    var pc := Lead(s, t, c).callers[t].pc;
    assert Lead(s, t, c).callers == s.callers[t := c.(pc := pc)];
  }

  lemma LeadKeepsOthersFlights(s: State, t: nat, c: Caller)
    requires c.pc.Leading?
    ensures var s' := Lead(s, t, c);
            && |s'.flights| == |s.flights|
            && forall f :: 0 <= f < |s.flights| ==>
                 s'.flights[f].leader == s.flights[f].leader && s'.flights[f].host == s.flights[f].host
  {
    hide IsExpiringSoon, NotAfterFor, ServerName;
  }

  lemma LeadClearsTable(s: State, t: nat, c: Caller)
    requires c.pc.Leading? && t in s.callers && s.callers[t] == c
    ensures var s' := Lead(s, t, c);
            s'.table == if s'.callers[t].pc.Leading? then s.table else s.table - {c.host}
  {
    hide IsExpiringSoon, NotAfterFor, ServerName;
  }

  lemma LeadKeepsFlights(s: State, t: nat, c: Caller)
    requires c.pc.Leading? && CallerOk(s, t, c) && FlightsOk(s)
    ensures FlightsOk(Lead(s, t, c))
  {
    hide IsExpiringSoon, NotAfterFor, ServerName, Belongs, Expiring, Holds;
    var s' := Lead(s, t, c);
    forall f | 0 <= f < |s'.flights| ensures FlightOk(s', f) { assert FlightOk(s, f); }
  }

  lemma LeadKeepsTable(s: State, t: nat, c: Caller)
    requires c.pc.Leading? && t in s.callers && s.callers[t] == c && CallerOk(s, t, c) && TablesOk(s)
    ensures TablesOk(Lead(s, t, c))
  {
    hide Lead, CallerOk;
    LeadMovesOne(s, t, c);
    LeadKeepsOthersFlights(s, t, c);
    LeadClearsTable(s, t, c);
    var s' := Lead(s, t, c);
    forall h | h in s'.table ensures TableOk(s', h) { assert TableOk(s, h); }
  }

  lemma LeadKeepsCache(s: State, t: nat, c: Caller)
    requires c.pc.Leading? && CallerOk(s, t, c) && CacheOk(s)
    ensures CacheOk(Lead(s, t, c))
  {
    var s' := Lead(s, t, c);
    if c.pc.stage.Storing? {
      assert s'.log[..|s'.log| - 1] == s.log;
      assert Belongs(s, c.host, c.pc.stage.leaf);
      StoreKeepsCache(s, s', c.host, c.pc.stage.leaf);
    } else {
      assert s'.log == s.log && s'.cache == s.cache && s.made <= s'.made;
      hide Lead, CallerOk;
    }
  }

  lemma StoreKeepsCache(s: State, s': State, h: Host, cert: Cert)
    requires CacheOk(s) && Belongs(s, h, cert) && s'.made == s.made && s'.cache == s.cache[h := cert]
    requires |s'.log| > 0 && s'.log[..|s'.log| - 1] == s.log
    requires s'.log[|s'.log| - 1].host == h && s'.log[|s'.log| - 1].cert == cert
    ensures CacheOk(s')
  {}

  lemma StoreKeepsLog(s: State, t: nat, c: Caller)
    requires c.pc.Leading? && CallerOk(s, t, c) && LogOk(s)
    ensures LogOk(Lead(s, t, c))
  {
    if c.pc.stage.Storing? {
      forall i | 0 <= i < |s.log| && s.log[i].host == c.host
        ensures c.pc.stage.issuedAt - s.log[i].at > GAP + 1 && s.log[i].cert.notAfter <= c.pc.stage.leaf.notAfter
      {
        assert s.cache[c.host].notAfter - c.pc.stage.issuedAt < RENEW_BEFORE;
      }
    }
  }

  lemma LeadKeepsInv(s: State, t: nat)
    requires Inv(s) && t in s.callers && s.callers[t].pc.Leading?
    ensures Inv(Lead(s, t, s.callers[t]))
  {
    var c := s.callers[t];
    var s' := Lead(s, t, c);
    assert s'.callers.Keys == s.callers.Keys && forall u :: u in s.callers && u != t ==> s'.callers[u] == s.callers[u]
      by { hide Inv; }
    assert CallerOk(s, t, c) && FlightOk(s, c.pc.flight);
    hide Lead, CallerOk, TableOk, FlightOk;
    forall u | u in s'.callers ensures CallerOk(s', u, s'.callers[u]) {
      if u == t && Early(c.pc.stage) { EarlyLeadKeepsOwn(s, t, c); }
      else if u == t { LateLeadKeepsOwn(s, t, c); }
      else { LeadKeepsOther(s, t, c, u, s.callers[u]); }
    }
    LeadKeepsFlights(s, t, c);
    LeadKeepsTable(s, t, c);
    LeadKeepsCache(s, t, c);
    StoreKeepsLog(s, t, c);
  }

  lemma InvStep(s: State, e: Event)
    requires Inv(s) && Enabled(s, e)
    ensures Inv(Apply(s, e))
  {
    if e.Advance? && s.callers[e.t].pc.Leading? {
      LeadKeepsInv(s, e.t);
    } else {
      SideStepKeepsInv(s, e);
    }
  }

  // ----------------------------------------------------------------------- what every run keeps

  lemma RunKeepsInv(run: seq<State>, i: nat)
    requires IsRun(run) && i < |run|
    ensures Inv(run[i])
    decreases i, 0
  {
    if i > 0 {
      var e := StepOf(run, i - 1);
      InvStep(run[i - 1], e);
    }
  }

  /** The event that leads from run[i] to run[i + 1]. */
  lemma StepOf(run: seq<State>, i: nat) returns (e: Event)
    requires IsRun(run) && i < |run| - 1
    ensures Inv(run[i]) && Enabled(run[i], e) && run[i + 1] == Apply(run[i], e)
    decreases i, 1
  {
    RunKeepsInv(run, i);
    assert Next(run[i], run[i + 1]);
    e :| Enabled(run[i], e) && run[i + 1] == Apply(run[i], e);
  }

  /** In every interleaving, two successful issuances for one host are further apart than the
      validity less the renewal window less one second of rounding: seven days less one, less that. */
  lemma IssuancesAreSpaced(run: seq<State>, n: nat, i: nat, j: nat)
    requires IsRun(run) && n < |run| && i < j < |run[n].log|
    requires run[n].log[i].host == run[n].log[j].host
    ensures run[n].log[j].at - run[n].log[i].at > VALIDITY - RENEW_BEFORE - SECOND + 1 == 518_399_000_000_001
  {
    RunKeepsInv(run, n);
  }

  /** Never two goroutines inside the flight function for one host. */
  lemma OneLeaderPerHost(run: seq<State>, n: nat, t: nat, u: nat)
    requires IsRun(run) && n < |run| && t in run[n].callers && u in run[n].callers
    requires run[n].callers[t].pc.Leading? && run[n].callers[u].pc.Leading?
    requires run[n].callers[t].host == run[n].callers[u].host
    ensures t == u
  {
    RunKeepsInv(run, n);
    LeadersDiffer(run[n], t, run[n].callers[t], u, run[n].callers[u]);
  }

  /** Only stored issuances ever reach the cache, so an error never does, and two hosts never share
      an entry. Each entry is named for the host it is filed under. */
  lemma CacheHoldsOnlyIssuedLeaves(run: seq<State>, n: nat)
    requires IsRun(run) && n < |run|
    ensures run[n].cache == Replay(run[n].log)
    ensures forall h :: h in run[n].cache ==> run[n].cache[h].serverName == ServerName(h)
    ensures forall h, k :: h in run[n].cache && k in run[n].cache && h != k ==> run[n].cache[h] != run[n].cache[k]
  {
    RunKeepsInv(run, n);
    forall h, k | h in run[n].cache && k in run[n].cache && h != k ensures run[n].cache[h] != run[n].cache[k] {
      assert Belongs(run[n], h, run[n].cache[h]) && Belongs(run[n], k, run[n].cache[k]);
    }
  }

  /** A published result never changes, so all callers of one flight, leader and joiners, get one
      result: callers seen at different times in a run too. */
  lemma FlightSharesOneOutcome(run: seq<State>, m: nat, n: nat, t: nat, u: nat)
    requires IsRun(run) && m <= n < |run| && t in run[m].callers && u in run[n].callers
    requires run[m].callers[t].pc.Returned? && run[n].callers[u].pc.Returned?
    requires run[m].callers[t].pc.via.Some? && run[m].callers[t].pc.via == run[n].callers[u].pc.via
    ensures run[m].callers[t].pc.outcome == run[n].callers[u].pc.outcome
    ensures run[m].callers[t].host == run[n].callers[u].host
  {
    RunKeepsInv(run, m);
    RunKeepsInv(run, n);
    assert CallerOk(run[m], t, run[m].callers[t]) && CallerOk(run[n], u, run[n].callers[u]);
    ResultsStay(run, m, n, run[m].callers[t].pc.via.value);
  }

  lemma {:induction false} ResultsStay(run: seq<State>, m: nat, n: nat, f: nat)
    requires IsRun(run) && m <= n < |run| && f < |run[m].flights| && run[m].flights[f].result.Some?
    ensures f < |run[n].flights| && run[n].flights[f] == run[m].flights[f]
    decreases n
  {
    hide Inv, Apply, IsRun;
    if m < n {
      ResultsStay(run, m, n - 1, f);
      var e := StepOf(run, n - 1);
      ResultStays(run[n - 1], e, f);
    }
  }

  lemma ResultStays(s: State, e: Event, f: nat)
    requires Inv(s) && Enabled(s, e) && f < |s.flights| && s.flights[f].result.Some?
    ensures f < |Apply(s, e).flights| && Apply(s, e).flights[f] == s.flights[f]
  {
    if e.Advance? && s.callers[e.t].pc.Leading? { assert CallerOk(s, e.t, s.callers[e.t]); }
  }

  /** A joiner waits on a flight that its leader can still carry forward. */
  lemma NoCallerIsStranded(run: seq<State>, n: nat, t: nat)
    requires IsRun(run) && n < |run| && t in run[n].callers && run[n].callers[t].pc.Waiting?
    ensures var s := run[n];
            Enabled(s, Advance(t)) ||
            (s.callers[t].pc.flight < |s.flights| &&
             var u := s.flights[s.callers[t].pc.flight].leader;
             u in s.callers && s.callers[u].pc.Leading? && s.callers[u].pc.flight == s.callers[t].pc.flight
               && Enabled(s, Advance(u)))
  {
    RunKeepsInv(run, n);
    var s := run[n];
    assert CallerOk(s, t, s.callers[t]);
    var f := s.callers[t].pc.flight;
    assert FlightOk(s, f);
    if s.flights[f].result.None? {
      assert TableOk(s, s.flights[f].host);
      assert CallerOk(s, s.flights[f].leader, s.callers[s.flights[f].leader]);
    }
  }

  // ------------------------------------------------------------ agreement with an atomic cache

  /** Goroutine t is inside one call for h from state b on, and still is in state e. */
  ghost predicate InCall(run: seq<State>, t: nat, h: Host, b: nat, e: nat) {
    && 0 < b <= e < |run| && t !in run[b - 1].callers
    && forall i :: b <= i <= e ==> t in run[i].callers && run[i].callers[t].host == h
  }

  ghost predicate Seen(run: seq<State>, h: Host, b: nat, e: nat, c: Cert)
    requires e < |run|
  {
    exists i :: b <= i <= e && Entry(run[i], h) == Some(c)
  }

  /** The certificate that a caller is bound to hand out, once that is settled. */
  function Bound(s: State, c: Caller): Option<Cert> {
    match c.pc
    case Looked(hit) => hit
    case Waiting(f) =>
      if f < |s.flights| && s.flights[f].result.Some? && s.flights[f].result.value.Ok?
      then Some(s.flights[f].result.value.cert) else None
    case Returned(r, _) => if r.Ok? then Some(r.cert) else None
    case _ => None
  }

  /** While a flight can be joined, what it has returned is what the cache holds. */
  lemma JoinableResultIsCurrent(s: State, h: Host)
    requires Inv(s) && h in s.table && s.table[h] < |s.flights| && s.flights[s.table[h]].result.Some?
    ensures s.flights[s.table[h]].result.value.Ok? ==> Entry(s, h) == Some(s.flights[s.table[h]].result.value.cert)
  {
    assert TableOk(s, h);
    var u := s.flights[s.table[h]].leader;
    assert CallerOk(s, u, s.callers[u]);
  }

  /** A flight that gets its result in this step gets it from its leader, and can still be joined. */
  lemma FlightSettles(s: State, e: Event, f: nat)
    requires Enabled(s, e) && CallersOk(s) && f < |s.flights| && FlightOk(s, f) && s.flights[f].result.None?
    requires f < |Apply(s, e).flights| && Apply(s, e).flights[f].result.Some?
    ensures var s' := Apply(s, e);
            s'.flights[f].host in s'.table && s'.table[s'.flights[f].host] == f
            && s'.flights[f].host == s.flights[f].host
  {
    assert e.Advance? && s.callers[e.t].pc.Leading?;
    assert CallerOk(s, e.t, s.callers[e.t]);
  }

  lemma WaitersFlight(s: State, e: Event, t: nat)
    requires Enabled(s, e) && t in s.callers && t in Apply(s, e).callers && Apply(s, e).callers[t].pc.Waiting?
    ensures var c := s.callers[t]; var f := Apply(s, e).callers[t].pc.flight;
            if c.pc.Waiting? then f == c.pc.flight
            else c.pc.Entering? && c.host in Apply(s, e).table && Apply(s, e).table[c.host] == f
  {
    hide Lead, IsExpiringSoon, ServerName, NotAfterFor;
    if e.Advance? && s.callers[e.t].pc.Leading? {
      LeadMovesOne(s, e.t, s.callers[e.t]);
      LeaderNeverWaits(s, e.t, s.callers[e.t]);
    }
  }

  lemma LeaderNeverWaits(s: State, t: nat, c: Caller)
    requires c.pc.Leading? && t in s.callers && s.callers[t] == c
    ensures !Lead(s, t, c).callers[t].pc.Waiting?
  {
    hide IsExpiringSoon, NotAfterFor, ServerName;
  }

  /** A joiner's answer is settled when it joins a finished flight, or when its flight finishes:
      either way the flight can still be joined. */
  lemma JoinerSettles(s: State, e: Event, t: nat)
    requires Inv(s) && Enabled(s, e) && t in s.callers && t in Apply(s, e).callers
    requires Apply(s, e).callers[t].pc.Waiting? && Bound(s, s.callers[t]).None?
    requires Bound(Apply(s, e), Apply(s, e).callers[t]).Some?
    ensures var s' := Apply(s, e); var c' := s'.callers[t];
            c'.host in s'.table && s'.table[c'.host] == c'.pc.flight
  {
    HostIsFixed(s, e, t);
    WaitersFlight(s, e, t);
    var c := s.callers[t];
    assert CallerOk(s, t, c);
    hide Apply;
    if c.pc.Waiting? {
      assert FlightOk(s, c.pc.flight);
      if s.flights[c.pc.flight].result.Some? { ResultStays(s, e, c.pc.flight); }
      hide CallerOk, FlightOk;
      FlightSettles(s, e, c.pc.flight);
    }
  }

  /** The leader itself returns what the cache holds at that moment. */
  lemma LeaderAnswerIsCurrent(s: State, t: nat, c: Caller)
    requires c.pc.Leading? && CallerOk(s, t, c)
    requires Lead(s, t, c).callers[t].pc.Returned? && Lead(s, t, c).callers[t].pc.outcome.Ok?
    ensures Entry(Lead(s, t, c), c.host) == Some(Lead(s, t, c).callers[t].pc.outcome.cert)
  {
    assert LeaderOk(s, t, c);
    assert c.pc.stage.Published?;
  }

  /** A lookup, and a return, take what the caller already has or what the cache holds. */
  lemma OwnAnswerIsCurrent(s: State, e: Event, t: nat)
    requires Enabled(s, e) && t in s.callers && t in Apply(s, e).callers && CallerOk(s, t, s.callers[t])
    requires Bound(Apply(s, e), Apply(s, e).callers[t]).Some? && !Apply(s, e).callers[t].pc.Waiting?
    ensures var x := Bound(Apply(s, e), Apply(s, e).callers[t]);
            Entry(Apply(s, e), s.callers[t].host) == x || Bound(s, s.callers[t]) == x
  {
    if e == Advance(t) && s.callers[t].pc.Leading? {
      LeaderAnswerIsCurrent(s, t, s.callers[t]);
    } else if e == Advance(t) {
      hide CallerOk, Lead, IsExpiringSoon;
    } else {
      hide CallerOk;
      OthersKeepTheirAnswer(s, e, t);
    }
  }

  lemma OthersKeepTheirAnswer(s: State, e: Event, t: nat)
    requires Enabled(s, e) && t in s.callers && t in Apply(s, e).callers && e != Advance(t)
    requires !Apply(s, e).callers[t].pc.Waiting? && Bound(Apply(s, e), Apply(s, e).callers[t]).Some?
    ensures Bound(s, s.callers[t]) == Bound(Apply(s, e), Apply(s, e).callers[t])
  {}

  lemma HostIsFixed(s: State, e: Event, t: nat)
    requires Enabled(s, e) && t in s.callers && t in Apply(s, e).callers
    ensures Apply(s, e).callers[t].host == s.callers[t].host
  {
    hide Lead, IsExpiringSoon;
    if e.Advance? && s.callers[e.t].pc.Leading? { LeadMovesOne(s, e.t, s.callers[e.t]); }
  }

  /** When a certificate becomes a caller's answer it is in the cache at that very moment. */
  lemma BoundIsCurrent(s: State, e: Event, t: nat)
    requires Inv(s) && Enabled(s, e) && t in s.callers && t in Apply(s, e).callers
    requires Bound(Apply(s, e), Apply(s, e).callers[t]).Some?
    ensures var x := Bound(Apply(s, e), Apply(s, e).callers[t]);
            Entry(Apply(s, e), s.callers[t].host) == x || Bound(s, s.callers[t]) == x
  {
    hide Apply, CallerOk;
    HostIsFixed(s, e, t);
    if Apply(s, e).callers[t].pc.Waiting? {
      WaitersFlight(s, e, t);
      if Bound(s, s.callers[t]).None? {
        InvStep(s, e);
        JoinerSettles(s, e, t);
        JoinableResultIsCurrent(Apply(s, e), s.callers[t].host);
      } else {
        ResultStays(s, e, s.callers[t].pc.flight);
      }
    } else {
      OwnAnswerIsCurrent(s, e, t);
    }
  }

  lemma InvokedFirst(s: State, e: Event, t: nat)
    requires Enabled(s, e) && t !in s.callers && t in Apply(s, e).callers
    ensures Apply(s, e).callers[t].pc.Called?
  {}

  lemma {:induction false} BoundWasSeen(run: seq<State>, t: nat, h: Host, b: nat, e: nat)
    requires IsRun(run) && InCall(run, t, h, b, e)
    requires Bound(run[e], run[e].callers[t]).Some?
    ensures Seen(run, h, b, e, Bound(run[e], run[e].callers[t]).value)
    decreases e
  {
    hide Inv, Apply, IsRun;
    var ev := StepOf(run, e - 1);
    if b < e {
      BoundIsCurrent(run[e - 1], ev, t);
      if Entry(run[e], h) != Bound(run[e], run[e].callers[t]) {
        BoundWasSeen(run, t, h, b, e - 1);
      }
    } else {
      InvokedFirst(run[e - 1], ev, t);
    }
  }

  /** Every certificate that GetOrCreateCert(h) returns, to whichever kind of caller, was the cache
      entry for h at some instant between that call's own start and its return. */
  lemma ReturnsAnEntryOfItsOwnTime(run: seq<State>, t: nat, h: Host, b: nat, e: nat)
    requires IsRun(run) && InCall(run, t, h, b, e)
    requires run[e].callers[t].pc.Returned? && run[e].callers[t].pc.outcome.Ok?
    ensures exists i :: b <= i <= e && Entry(run[i], h) == Some(run[e].callers[t].pc.outcome.cert)
  {
    BoundWasSeen(run, t, h, b, e);
    assert Seen(run, h, b, e, run[e].callers[t].pc.outcome.cert);
  }

  /** A returned certificate carries the requested name and had RENEW_BEFORE left when vetted, so
      it still has that less the time since.  Vetting happened within the call itself on the fast
      path, and otherwise after the flight that served the call was opened. */
  lemma ReturnedLeafIsFresh(run: seq<State>, n: nat, t: nat)
    requires IsRun(run) && n < |run| && t in run[n].callers
    requires run[n].callers[t].pc.Returned? && run[n].callers[t].pc.outcome.Ok?
    ensures var s := run[n]; var c := s.callers[t]; var r := c.pc.outcome;
            && r.cert.serverName == ServerName(c.host)
            && r.vetted <= s.now && r.cert.notAfter - s.now >= 86_400_000_000_000 - (s.now - r.vetted)
            && (c.pc.via.None? ==> c.since <= r.vetted)
            && (c.pc.via.Some? ==> c.pc.via.value < |s.flights| && s.flights[c.pc.via.value].openedAt <= r.vetted)
  {
    RunKeepsInv(run, n);
    var s := run[n];
    assert CallerOk(s, t, s.callers[t]);
    if s.callers[t].pc.via.Some? { assert FlightOk(s, s.callers[t].pc.via.value); }
  }

  // ---------------------------------------------------------------------- the spacing is exact

  function Exec(s: State, es: seq<Event>): Option<State>
    decreases |es|
  {
    if es == [] then Some(s)
    else if !Enabled(s, es[0]) then None
    else Exec(Apply(s, es[0]), es[1..])
  }

  lemma {:induction false} ExecMore(s: State, es: seq<Event>, e: Event)
    requires Exec(s, es).Some? && Enabled(Exec(s, es).value, e)
    decreases |es|
    ensures Exec(s, es + [e]) == Some(Apply(Exec(s, es).value, e))
  {
    if es == [] {
      assert Exec(Apply(s, e), []) == Some(Apply(s, e));
    } else {
      assert (es + [e])[1..] == es[1..] + [e];
      ExecMore(Apply(s, es[0]), es[1..], e);
    }
  }

  ghost predicate Reachable(s: State) { exists run :: IsRun(run) && run[|run| - 1] == s }

  lemma {:induction false} ExecReaches(s: State, es: seq<Event>)
    requires Reachable(s) && Exec(s, es).Some?
    ensures Reachable(Exec(s, es).value)
    decreases |es|
  {
    if es == [] {
    } else {
      var s' := Apply(s, es[0]);
      var run :| IsRun(run) && run[|run| - 1] == s;
      var run' := run + [s'];
      forall i | 0 <= i < |run'| - 1 ensures Next(run'[i], run'[i + 1]) {
        if i < |run| - 1 { assert Next(run[i], run[i + 1]); } else { assert Enabled(s, es[0]); }
      }
      assert IsRun(run') && run'[|run'| - 1] == s';
      ExecReaches(s', es[1..]);
    }
  }

  // ------------------------------------------------------------------------ one call, undisturbed

  function AtStage(c: Caller, stage: Stage): Caller
    requires c.pc.Leading?
  {
    c.(pc := Leading(c.pc.flight, stage))
  }

  /** The cache and the singleflight group as the fields of an object, and one call on it that no
      other goroutine interrupts.  The call is one of the interleavings above: `trace` is its run. */
  class MITMProxyCerts {
    var now: int
    var cache: map<Host, Cert>
    var table: map<Host, nat>
    var flights: seq<Flight>
    ghost var callers: map<nat, Caller>
    var made: seq<Host>
    ghost var log: seq<Issue>

    ghost function Snapshot(): State
      reads this
    {
      State(now, cache, table, flights, callers, made, log)
    }

    constructor (start: int)
      ensures Init(Snapshot()) && now == start
    {
      now, cache, table, flights, callers, made, log := start, map[], map[], [], map[], [], [];
    }

    /** createCertificate: `took` passes while the key is generated, and `signs` tells whether every
        fallible step succeeds. */
    method CreateCertificate(ghost t: nat, hostname: Host, took: nat, signs: bool, ghost before: State,
                             ghost trace: seq<Event>)
      returns (leaf: Option<Cert>, issuedAt: int, ghost trace': seq<Event>)
      requires Exec(before, trace) == Some(Snapshot())
      requires t in callers && callers[t].pc.Leading? && callers[t].pc.stage.Generating? && callers[t].host == hostname
      modifies this`now, this`made, this`callers
      ensures Exec(before, trace') == Some(Snapshot()) && now == issuedAt == old(now) + took
      ensures leaf.Some? <==> signs
      ensures leaf.Some? ==> leaf.value == Cert(|old(made)|, ServerName(hostname), NotAfterFor(issuedAt))
      ensures leaf.Some? ==> callers == old(callers)[t := AtStage(old(callers)[t], Storing(leaf.value, issuedAt))]
      ensures leaf.None? ==> callers == old(callers)[t := AtStage(old(callers)[t], Finishing(Failed))]
      ensures made == if signs then old(made) + [hostname] else old(made)
    {
      ghost var c := callers[t];
      now := now + took;
      ExecMore(before, trace, Tick(took));
      trace' := trace + [Tick(took)];
      issuedAt := now;
      ExecMore(before, trace', Advance(t));
      trace' := trace' + [Advance(t)];
      callers := callers[t := AtStage(c, Signing(issuedAt))];
      if !signs {
        ExecMore(before, trace', IssueFails(t));
        trace' := trace' + [IssueFails(t)];
        callers := callers[t := AtStage(c, Finishing(Failed))];
        return None, issuedAt, trace';
      }
      ExecMore(before, trace', Advance(t));
      trace' := trace' + [Advance(t)];
      leaf := Some(Cert(|made|, ServerName(hostname), NotAfterFor(issuedAt)));
      made := made + [hostname];
      callers := callers[t := AtStage(c, Storing(leaf.value, issuedAt))];
    }

    /** The lock-free lookup in front of the singleflight group. */
    method LookUp(t: nat, hostname: Host) returns (hit: Option<Cert>, ghost trace: seq<Event>)
      requires t !in callers
      modifies this`callers
      ensures Exec(old(Snapshot()), trace) == Some(Snapshot())
      ensures hit == if IsExpiringSoon(Entry(old(Snapshot()), hostname), now) then None
              else Entry(old(Snapshot()), hostname)
      ensures var pc := if hit.None? then Entering else Returned(Ok(hit.value, now), None);
              callers == old(callers)[t := Caller(hostname, now, pc)]
    {
      ghost var before := Snapshot();
      trace := [];
      ExecMore(before, trace, Invoke(t, hostname));
      trace := trace + [Invoke(t, hostname)];
      callers := callers[t := Caller(hostname, now, Called)];
      hit := if hostname in cache then Some(cache[hostname]) else None;
      ExecMore(before, trace, Advance(t));
      trace := trace + [Advance(t)];
      callers := callers[t := Caller(hostname, now, Looked(hit))];
      ExecMore(before, trace, Advance(t));
      trace := trace + [Advance(t)];
      if IsExpiringSoon(hit, now) {
        hit := None;
        callers := callers[t := Caller(hostname, now, Entering)];
      } else {
        callers := callers[t := Caller(hostname, now, Returned(Ok(hit.value, now), None))];
      }
    }

    /** The first caller opens a flight; its re-check finds the entry as expiring as before. */
    method OpenFlight(t: nat, hostname: Host, ghost before: State, ghost trace: seq<Event>)
      returns (flight: nat, ghost trace': seq<Event>)
      requires Exec(before, trace) == Some(Snapshot())
      requires t in callers && callers[t].pc.Entering? && callers[t].host == hostname && hostname !in table
      requires IsExpiringSoon(Entry(Snapshot(), hostname), now)
      modifies this`table, this`flights, this`callers
      ensures Exec(before, trace') == Some(Snapshot())
      ensures flight == |old(flights)| && flights == old(flights) + [Flight(hostname, t, now, None)]
      ensures table == old(table)[hostname := flight]
      ensures callers == old(callers)[t := Caller(hostname, old(callers)[t].since, Leading(flight, Generating))]
    {
      ghost var since := callers[t].since;
      flight := |flights|;
      ExecMore(before, trace, Advance(t));
      trace' := trace + [Advance(t)];
      table := table[hostname := flight];
      flights := flights + [Flight(hostname, t, now, None)];
      callers := callers[t := Caller(hostname, since, Leading(flight, Rechecking))];
      var hit := if hostname in cache then Some(cache[hostname]) else None;
      ExecMore(before, trace', Advance(t));
      trace' := trace' + [Advance(t)];
      callers := callers[t := Caller(hostname, since, Leading(flight, Rechecked(hit)))];
      ExecMore(before, trace', Advance(t));
      trace' := trace' + [Advance(t)];
      callers := callers[t := Caller(hostname, since, Leading(flight, Generating))];
    }

    /** group.Do with nobody else on the key: issue, store unless that failed, and close the flight. */
    method Do(t: nat, hostname: Host, took: nat, signs: bool, ghost before: State, ghost trace: seq<Event>)
      returns (r: Outcome, ghost trace': seq<Event>)
      requires Exec(before, trace) == Some(Snapshot())
      requires t in callers && callers[t].pc.Entering? && callers[t].host == hostname && hostname !in table
      requires IsExpiringSoon(Entry(Snapshot(), hostname), now)
      modifies this
      ensures Exec(before, trace') == Some(Snapshot())
      ensures t in callers && callers.Keys == old(callers).Keys && callers[t].pc.Returned? && callers[t].pc.outcome == r
      ensures table == old(table)
      ensures if signs then
                && now == old(now) + took && r == Ok(Cert(|old(made)|, ServerName(hostname), NotAfterFor(now)), now)
                && cache == old(cache)[hostname := r.cert] && log == old(log) + [Issue(hostname, now, r.cert)]
              else r == Failed && cache == old(cache) && log == old(log)
    {
      hide Exec, Enabled, Apply, NotAfterFor, ServerName, IsExpiringSoon, Entry;
      var flight, leaf, issuedAt;
      flight, trace' := OpenFlight(t, hostname, before, trace);
      leaf, issuedAt, trace' := CreateCertificate(t, hostname, took, signs, before, trace');
      if leaf.None? {
        r := Failed;
      } else {
        r := Ok(leaf.value, issuedAt);
        trace' := Store(t, hostname, leaf.value, issuedAt, before, trace');
      }
      trace' := Finish(t, hostname, flight, r, before, trace');
      assert table == old(table);
    }

    method GetOrCreateCert(t: nat, hostname: Host, took: nat, signs: bool)
      returns (r: Outcome, ghost trace: seq<Event>)
      requires t !in callers && hostname !in table
      modifies this
      ensures Exec(old(Snapshot()), trace) == Some(Snapshot())
      ensures t in callers && callers.Keys == old(callers).Keys + {t} && callers[t].pc.Returned?
              && callers[t].pc.outcome == r
      ensures table == old(table)
      ensures var hit := Entry(old(Snapshot()), hostname);
              if !IsExpiringSoon(hit, old(now)) then
                r == Ok(hit.value, old(now)) && cache == old(cache) && log == old(log) && now == old(now)
              else if signs then
                && now == old(now) + took && r == Ok(Cert(|old(made)|, ServerName(hostname), NotAfterFor(now)), now)
                && cache == old(cache)[hostname := r.cert] && log == old(log) + [Issue(hostname, now, r.cert)]
              else r == Failed && cache == old(cache) && log == old(log)
    {
      hide Exec, Enabled, Apply, NotAfterFor, ServerName;
      var hit;
      hit, trace := LookUp(t, hostname);
      if hit.Some? {
        return Ok(hit.value, now), trace;
      }
      r, trace := Do(t, hostname, took, signs, old(Snapshot()), trace);
    }

    method Store(t: nat, hostname: Host, leaf: Cert, issuedAt: int, ghost before: State, ghost trace: seq<Event>)
      returns (ghost trace': seq<Event>)
      requires Exec(before, trace) == Some(Snapshot())
      requires t in callers && callers[t].pc.Leading? && callers[t].host == hostname
      requires callers[t].pc.stage == Storing(leaf, issuedAt)
      modifies this`cache, this`log, this`callers
      ensures Exec(before, trace') == Some(Snapshot())
      ensures cache == old(cache)[hostname := leaf] && log == old(log) + [Issue(hostname, issuedAt, leaf)]
      ensures callers == old(callers)[t := AtStage(old(callers)[t], Finishing(Ok(leaf, issuedAt)))]
    {
      ExecMore(before, trace, Advance(t));
      trace' := trace + [Advance(t)];
      cache := cache[hostname := leaf];
      log := log + [Issue(hostname, issuedAt, leaf)];
      callers := callers[t := AtStage(callers[t], Finishing(Ok(leaf, issuedAt)))];
    }

    /** The end of a flight: its result is published, and then it is removed from the table. */
    method Finish(ghost t: nat, hostname: Host, flight: nat, r: Outcome, ghost before: State, ghost trace: seq<Event>)
      returns (ghost trace': seq<Event>)
      requires Exec(before, trace) == Some(Snapshot())
      requires t in callers && callers[t].pc.Leading? && callers[t].pc.flight == flight && callers[t].host == hostname
      requires callers[t].pc.stage == Finishing(r) && flight < |flights|
      modifies this`flights, this`table, this`callers
      ensures Exec(before, trace') == Some(Snapshot())
      ensures table == old(table) - {hostname}
      ensures t in callers && callers.Keys == old(callers).Keys && callers[t].pc.Returned? && callers[t].pc.outcome == r
    {
      ghost var c := callers[t];
      ExecMore(before, trace, Advance(t));
      trace' := trace + [Advance(t)];
      flights := flights[flight := flights[flight].(result := Some(r))];
      callers := callers[t := AtStage(c, Published)];
      ExecMore(before, trace', Advance(t));
      trace' := trace' + [Advance(t)];
      table := table - {hostname};
      callers := callers[t := Caller(hostname, c.since, Returned(r, Some(flight)))];
    }
  }

  lemma ClockMoves(s: State, delta: nat)
    requires Reachable(s)
    ensures Reachable(s.(now := s.now + delta))
  {
    assert Exec(s, [Tick(delta)]) == Some(s.(now := s.now + delta));
    ExecReaches(s, [Tick(delta)]);
  }

  /** A machine on which one leaf was issued at the last nanosecond of a second. */
  method IssueLate(hostname: Host) returns (p: MITMProxyCerts)
    ensures fresh(p) && Reachable(p.Snapshot())
    ensures p.now == SECOND - 1 && p.callers.Keys == {0} && p.table == map[] && hostname in p.cache
    ensures p.cache[hostname].notAfter == VALIDITY && |p.log| == 1 && p.log[0].host == hostname && p.log[0].at == p.now
  {
    hide Exec, Enabled, Apply, ServerName;
    p := new MITMProxyCerts(SECOND - 1);
    assert Reachable(p.Snapshot()) by { assert IsRun([p.Snapshot()]); }
    ghost var start := p.Snapshot();
    var _, trace := p.GetOrCreateCert(0, hostname, 0, true);
    ExecReaches(start, trace);
  }

  /** The spacing cannot be improved: two issuances exactly two nanoseconds further apart than GAP. */
  method TightestSpacing(hostname: Host) returns (first: int, second: int, ghost end: State)
    ensures Reachable(end) && |end.log| == 2 && end.log[0].host == end.log[1].host == hostname
    ensures first == end.log[0].at && second == end.log[1].at
    ensures second - first == VALIDITY - RENEW_BEFORE - SECOND + 2
  {
    hide Exec, Enabled, Apply, ServerName, NotAfterFor;
    var p := IssueLate(hostname);
    ClockMoves(p.Snapshot(), VALIDITY - RENEW_BEFORE + 1 - p.now);
    first := p.now;
    p.now := VALIDITY - RENEW_BEFORE + 1;
    ghost var late := p.Snapshot();
    var _, trace := p.GetOrCreateCert(1, hostname, 0, true);
    ExecReaches(late, trace);
    second, end := p.now, p.Snapshot();
  }
}
