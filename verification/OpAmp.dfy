/** The OpAMP server's view of one agent: compressed status reports (section "Agent Status Compression" of the OpAMP
    specification), full-state requests and the delivery of the remote configuration. */
module OpAmp {
  import opened Base

  const SEQUENCE_MODULUS: nat := 0x1_0000_0000_0000_0000

  /** SHA-256, as a parameter. */
  type Digest = seq<nat>
  type Hash = string -> Digest

  datatype Capability = ReportsEffectiveConfig | ReportsPackageStatuses | ReportsRemoteConfig | ReportsHealth
                      | OtherCapability(bit: nat)

  datatype Health = Health(healthy: bool, startTime: nat)
  datatype RemoteConfigStatus = RemoteConfigStatus(lastHash: Digest, detail: string)
  datatype EffectiveConfig = EffectiveConfig(configMap: Option<map<string, string>>)

  /** AgentToServer; an absent field has not changed since the agent's last report. */
  datatype Report = Report(sequenceNum: nat, capabilities: set<Capability>, description: Option<string>,
                           health: Option<Health>, remoteConfigStatus: Option<RemoteConfigStatus>,
                           effectiveConfig: Option<EffectiveConfig>, packageStatuses: Option<string>)

  datatype RemoteConfig = RemoteConfig(body: string, hash: Digest)

  /** ServerToAgent, as far as a status report is answered by it. */
  datatype Response = Response(reportFullState: bool, remoteConfig: Option<RemoteConfig>, settingsOffered: bool)

  datatype AgentState = AgentState(status: Option<Report>, startedAt: nat, customConfig: string,
                         remoteConfig: Option<RemoteConfig>, watchers: seq<nat>)

  const NEW_AGENT := AgentState(None, 0, "", None, [])

  function Or<T>(reported: Option<T>, stored: Option<T>): Option<T> {
    if reported.Some? then reported else stored
  }

  // ---------------------------------------------------------------- one status report

  /** The stored status after a report: capabilities and package statuses are those of the first one, and an effective
      configuration without a map is ignored after it. */
  function Merged(status: Option<Report>, m: Report): Report {
    match status
    case None => m
    case Some(s) =>
      s.(sequenceNum := m.sequenceNum,
         description := Or(m.description, s.description),
         health := Or(m.health, s.health),
         remoteConfigStatus := Or(m.remoteConfigStatus, s.remoteConfigStatus),
         effectiveConfig := if m.effectiveConfig.Some? && m.effectiveConfig.value.configMap.Some?
                            then m.effectiveConfig else s.effectiveConfig)
  }

  predicate DescriptionChanged(status: Option<Report>, m: Report) {
    status.None? || (m.description.Some? && m.description != status.value.description)
  }

  predicate LostPrevious(status: Option<Report>, m: Report) {
    status.None? || (status.value.sequenceNum + 1) % SEQUENCE_MODULUS != m.sequenceNum
  }

  /** A field that the agent has declared to report is missing. */
  predicate Compressed(declared: set<Capability>, m: Report) {
    || (m.effectiveConfig.None? && ReportsEffectiveConfig in declared)
    || (m.packageStatuses.None? && ReportsPackageStatuses in declared)
    || (m.remoteConfigStatus.None? && ReportsRemoteConfig in declared)
    || (m.health.None? && ReportsHealth in declared)
  }

  /** The report is incomplete and an earlier one may have been lost. */
  predicate AsksFullState(status: Option<Report>, m: Report) {
    Compressed(Merged(status, m).capabilities, m) && LostPrevious(status, m)
  }

  /** calcRemoteConfig. */
  function Calculated(hash: Hash, a: AgentState): RemoteConfig {
    RemoteConfig(a.customConfig, hash(a.customConfig))
  }

  predicate ConfigChanges(a: AgentState) {
    a.remoteConfig.None? || a.remoteConfig.value.body != a.customConfig
  }

  /** processStatusUpdate: the agent and the answer.  The stored remote-config status is only compared when there is a
      remote config to compare it with. */
  function AfterReport(hash: Hash, a: AgentState, m: Report): AgentState {
    a.(status := Some(Merged(a.status, m)),
       startedAt := if m.health.Some? && m.health.value.healthy then m.health.value.startTime else a.startedAt,
       remoteConfig := if DescriptionChanged(a.status, m) then Some(Calculated(hash, a)) else a.remoteConfig,
       watchers := [])
  }

  function Answer(hash: Hash, a: AgentState, m: Report): Response
    requires a.status.Some? ==> a.remoteConfig.Some?
  {
    var s := Merged(a.status, m);
    var changed := DescriptionChanged(a.status, m);
    var config := AfterReport(hash, a, m).remoteConfig;
    var stale := s.remoteConfigStatus.Some? && s.remoteConfigStatus.value.lastHash != config.value.hash;
    Response(AsksFullState(a.status, m),
             if (changed && ConfigChanges(a)) || stale then config else None,
             changed)
  }

  // ---------------------------------------------------------------- delivery of the remote configuration

  /** What happens to an agent: a report, a configuration set by a user, a persisted configuration. */
  datatype Event = Reported(m: Report) | ConfigSet(body: string, watcher: Option<nat>) | ConfigLoaded(body: string)

  /** The agent, the watchers asked for so far, those taken for notification, and the configs sent unasked. */
  datatype World = World(agent: AgentState, asked: seq<nat>, taken: seq<nat>, pushed: seq<RemoteConfig>)

  function AfterConfigSet(hash: Hash, w: World, body: string, watcher: Option<nat>): World {
    var a := w.agent.(customConfig := body);
    var added := if watcher.Some? then [watcher.value] else [];
    var changed := ConfigChanges(a);
    World(a.(remoteConfig := Some(Calculated(hash, a)), watchers := if changed then a.watchers + added else a.watchers),
          w.asked + added,
          if changed then w.taken else w.taken + added,
          if changed then w.pushed + [Calculated(hash, a)] else w.pushed)
  }

  function Next(hash: Hash, w: World, e: Event): World {
    match e
    case Reported(m) => w.(agent := AfterReport(hash, w.agent, m), taken := w.taken + w.agent.watchers)
    case ConfigSet(body, watcher) => AfterConfigSet(hash, w, body, watcher)
    case ConfigLoaded(body) =>
      var a := w.agent.(customConfig := body);
      w.(agent := a.(remoteConfig := Some(Calculated(hash, a))))
  }

  function Run(hash: Hash, es: seq<Event>): World {
    if es == [] then World(NEW_AGENT, [], [], []) else Next(hash, Run(hash, es[..|es| - 1]), es[|es| - 1])
  }

  /** A stored status implies a remote config, and a remote config is that of the current custom config. */
  ghost predicate ConfigOk(hash: Hash, a: AgentState) {
    && (a.status.Some? ==> a.remoteConfig.Some?)
    && (a.remoteConfig.Some? ==> a.remoteConfig.value == Calculated(hash, a))
  }

  /** Over all runs: the config invariant, and every watcher asked for is waiting or has been taken, once. */
  lemma {:induction false} RunKeepsConfig(hash: Hash, es: seq<Event>)
    ensures ConfigOk(hash, Run(hash, es).agent)
    ensures multiset(Run(hash, es).asked) == multiset(Run(hash, es).taken) + multiset(Run(hash, es).agent.watchers)
  {
    if es != [] {
      RunKeepsConfig(hash, es[..|es| - 1]);
    }
  }

  /** An answer carries the configuration exactly when none had been calculated before or the agent's last reported
      hash is not that of the current one. */
  lemma AnswerCarriesConfigIff(hash: Hash, es: seq<Event>, m: Report)
    ensures var a := Run(hash, es).agent;
            ConfigOk(hash, a) &&
            var status := Merged(a.status, m).remoteConfigStatus;
            Answer(hash, a, m).remoteConfig ==
            if a.remoteConfig.None? || (status.Some? && status.value.lastHash != hash(a.customConfig))
            then Some(RemoteConfig(a.customConfig, hash(a.customConfig))) else None
  {
    RunKeepsConfig(hash, es);
  }

  /** The configuration that was set or loaded last; "" is the initial one. */
  function LastBody(es: seq<Event>): string {
    if es == [] then ""
    else
      match es[|es| - 1]
      case ConfigSet(body, _) => body
      case ConfigLoaded(body) => body
      case Reported(_) => LastBody(es[..|es| - 1])
  }

  /** A configuration that is set is news: the first thing to happen to the agent, or another text than the last. */
  predicate IsNews(es: seq<Event>, body: string) {
    es == [] || body != LastBody(es)
  }

  function Watcher(watcher: Option<nat>): seq<nat> {
    if watcher.Some? then [watcher.value] else []
  }

  lemma {:induction false} BodyFollows(hash: Hash, es: seq<Event>)
    ensures var a := Run(hash, es).agent;
            a.customConfig == LastBody(es) && ConfigOk(hash, a) && (a.remoteConfig.None? <==> es == [])
  {
    RunKeepsConfig(hash, es);
    if es != [] {
      BodyFollows(hash, es[..|es| - 1]);
    }
  }

  /** Over all runs: setting a configuration that is news sends it to the agent, with its hash, and its watcher waits
      for the next report; setting one that is not sends nothing, and its watcher is told at once. */
  lemma ConfigSetPushes(hash: Hash, es: seq<Event>, body: string, watcher: Option<nat>)
    ensures var w, t := Run(hash, es), Run(hash, es + [ConfigSet(body, watcher)]);
            && t.agent.customConfig == body && t.agent.remoteConfig == Some(RemoteConfig(body, hash(body)))
            && t.agent.status == w.agent.status && t.agent.startedAt == w.agent.startedAt
            && (if IsNews(es, body) then
                  && t.pushed == w.pushed + [RemoteConfig(body, hash(body))]
                  && t.agent.watchers == w.agent.watchers + Watcher(watcher) && t.taken == w.taken
                else
                  && t.pushed == w.pushed
                  && t.agent.watchers == w.agent.watchers && t.taken == w.taken + Watcher(watcher))
  {
    BodyFollows(hash, es);
    assert (es + [ConfigSet(body, watcher)])[..|es|] == es;
  }

  /** Nothing else sends a configuration unasked; a report takes all waiting watchers, in order. */
  lemma OthersDoNotPush(hash: Hash, es: seq<Event>, e: Event)
    requires !e.ConfigSet?
    ensures var w, t := Run(hash, es), Run(hash, es + [e]);
            && t.pushed == w.pushed
            && (e.Reported? ==> t.agent.watchers == [] && t.taken == w.taken + w.agent.watchers)
            && (e.ConfigLoaded? ==> t.agent.watchers == w.agent.watchers && t.taken == w.taken)
  {
    assert (es + [e])[..|es|] == es;
  }

  /** The start time in the last report of a healthy agent; 0 before. */
  function LastHealthyStart(es: seq<Event>): nat {
    if es == [] then 0
    else
      var e := es[|es| - 1];
      if e.Reported? && e.m.health.Some? && e.m.health.value.healthy then e.m.health.value.startTime
      else LastHealthyStart(es[..|es| - 1])
  }

  /** The description in the last report that had one; and whether there was a report at all. */
  function Described(es: seq<Event>): Option<string> {
    if es == [] then None
    else
      var e := es[|es| - 1];
      if e.Reported? && e.m.description.Some? then e.m.description else Described(es[..|es| - 1])
  }

  predicate HasReported(es: seq<Event>) {
    exists i | 0 <= i < |es| :: es[i].Reported?
  }

  lemma {:induction false} ReportsFollow(hash: Hash, es: seq<Event>)
    ensures var a := Run(hash, es).agent;
            && a.startedAt == LastHealthyStart(es) && (a.status.Some? <==> HasReported(es))
            && Described(es) == if a.status.Some? then a.status.value.description else None
  {
    if es != [] {
      ReportsFollow(hash, es[..|es| - 1]);
    }
  }

  /** Connection settings are offered in answer to the first report, and to every one with a new description. */
  lemma SettingsOfferedIff(hash: Hash, es: seq<Event>, m: Report)
    ensures ConfigOk(hash, Run(hash, es).agent)
    ensures Answer(hash, Run(hash, es).agent, m).settingsOffered <==>
            !HasReported(es) || (m.description.Some? && m.description != Described(es))
  {
    RunKeepsConfig(hash, es);
    ReportsFollow(hash, es);
  }

  /** The agent has echoed the hash of the current configuration. */
  predicate Echoed(hash: Hash, a: AgentState) {
    a.status.Some? && a.status.value.remoteConfigStatus.Some? &&
    a.status.value.remoteConfigStatus.value.lastHash == hash(a.customConfig)
  }

  /** Reports that do not deny the echo. */
  predicate Agrees(hash: Hash, body: string, e: Event) {
    e.Reported? && (e.m.remoteConfigStatus.Some? ==> e.m.remoteConfigStatus.value.lastHash == hash(body))
  }

  /** Once echoed, and while the agent reports nothing else and nobody sets another configuration, no answer carries it
      again. */
  lemma {:induction false} NothingResentAfterEcho(hash: Hash, es: seq<Event>, more: seq<Event>, m: Report)
    requires Echoed(hash, Run(hash, es).agent)
    requires forall e | e in more :: Agrees(hash, Run(hash, es).agent.customConfig, e)
    requires Agrees(hash, Run(hash, es).agent.customConfig, Reported(m))
    ensures var a := Run(hash, es + more).agent;
            && a.customConfig == Run(hash, es).agent.customConfig && Echoed(hash, a) && ConfigOk(hash, a)
            && Answer(hash, a, m).remoteConfig.None?
  {
    RunKeepsConfig(hash, es + more);
    if more == [] {
      assert es + more == es;
    } else {
      var before := more[..|more| - 1];
      var last := more[|more| - 1];
      assert last in more;
      NothingResentAfterEcho(hash, es, before, last.m);
      assert (es + more)[..|es + more| - 1] == es + before;
      RunKeepsConfig(hash, es + before);
    }
  }

  // ---------------------------------------------------------------- status compression

  /** What the agent's fields really are. */
  datatype Truth = Truth(description: Option<string>, health: Option<Health>,
                         remoteConfigStatus: Option<RemoteConfigStatus>, effectiveConfig: Option<EffectiveConfig>)

  /** An agent may leave a field out only while it is what it was at its last report. */
  predicate May<T(==)>(reported: Option<T>, last: Option<T>, now: Option<T>) {
    (last.Some? ==> now.Some?) && (reported == now || (reported.None? && last == now))
  }

  predicate Faithful(m: Report, last: Truth, now: Truth) {
    && May(m.description, last.description, now.description)
    && May(m.health, last.health, now.health)
    && May(m.remoteConfigStatus, last.remoteConfigStatus, now.remoteConfigStatus)
    && May(m.effectiveConfig, last.effectiveConfig, now.effectiveConfig)
  }

  /** The effective configuration, if there is one, has a map; the source takes over no other. */
  predicate Mapped(t: Truth) {
    t.effectiveConfig.Some? ==> t.effectiveConfig.value.configMap.Some?
  }

  const NOTHING := Truth(None, None, None, None)

  predicate Mirrors(status: Option<Report>, t: Truth) {
    status.Some? &&
    var s := status.value;
    Truth(s.description, s.health, s.remoteConfigStatus, s.effectiveConfig) == t
  }

  /** One report and what was true of the agent when it was sent. */
  datatype Sent = Sent(m: Report, now: Truth)

  ghost predicate FaithfulRun(sent: seq<Sent>) {
    sent != [] ==>
      FaithfulRun(sent[..|sent| - 1]) &&
      Faithful(sent[|sent| - 1].m, LastTruth(sent[..|sent| - 1]), sent[|sent| - 1].now)
  }

  function LastTruth(sent: seq<Sent>): Truth {
    if sent == [] then NOTHING else sent[|sent| - 1].now
  }

  function Stored(sent: seq<Sent>): Option<Report> {
    if sent == [] then None else Some(Merged(Stored(sent[..|sent| - 1]), sent[|sent| - 1].m))
  }

  /** The first effective configuration, or the last one that had a map. */
  function KeptConfig(sent: seq<Sent>): Option<EffectiveConfig> {
    if sent == [] then None
    else
      var config := sent[|sent| - 1].now.effectiveConfig;
      if |sent| == 1 || (config.Some? && config.value.configMap.Some?) then config else KeptConfig(sent[..|sent| - 1])
  }

  lemma {:induction false} NoConfigYet(sent: seq<Sent>)
    requires FaithfulRun(sent) && LastTruth(sent).effectiveConfig.None?
    ensures KeptConfig(sent).None?
  {
    if |sent| > 1 {
      NoConfigYet(sent[..|sent| - 1]);
    }
  }

  /** Compressed reporting simulates full reporting: when nothing is lost, the stored description, health and
      remote-config status are the agent's after every report, and so is its effective configuration exactly when that
      is the first one or the last one with a map. */
  lemma {:induction false} CompressionMirrors(sent: seq<Sent>)
    requires sent != [] && FaithfulRun(sent)
    ensures Stored(sent).Some? &&
            var s, t := Stored(sent).value, LastTruth(sent);
            && s.description == t.description && s.health == t.health && s.remoteConfigStatus == t.remoteConfigStatus
            && s.effectiveConfig == KeptConfig(sent)
            && (Mirrors(Stored(sent), t) <==> KeptConfig(sent) == t.effectiveConfig)
            && (Mapped(t) ==> Mirrors(Stored(sent), t))
  {
    if |sent| > 1 {
      CompressionMirrors(sent[..|sent| - 1]);
      if LastTruth(sent).effectiveConfig.None? {
        NoConfigYet(sent);
      }
    }
  }

  /** The stored effective configuration follows the report exactly when the report brings a map or nothing is stored
      to be kept instead. */
  lemma EffectiveConfigStoredIff(status: Option<Report>, m: Report)
    requires m.effectiveConfig.Some?
    ensures Merged(status, m).effectiveConfig == m.effectiveConfig <==>
            m.effectiveConfig.value.configMap.Some? || status.None? || status.value.effectiveConfig == m.effectiveConfig
  {
  }

  /** Package statuses are those of the first report, whatever follows. */
  lemma {:induction false} PackageStatusesFrozen(sent: seq<Sent>)
    requires sent != []
    ensures Stored(sent).value.packageStatuses == sent[0].m.packageStatuses
    ensures Stored(sent).value.capabilities == sent[0].m.capabilities
  {
    if |sent| > 1 {
      PackageStatusesFrozen(sent[..|sent| - 1]);
    }
  }

  // ---------------------------------------------------------------- lost reports

  /** What the server holds of the fields that the agent has declared to report, of an effective configuration if it has
      a map. */
  predicate Current(status: Report, t: Truth) {
    && (ReportsHealth in status.capabilities ==> status.health == t.health)
    && (ReportsRemoteConfig in status.capabilities ==> status.remoteConfigStatus == t.remoteConfigStatus)
    && (ReportsEffectiveConfig in status.capabilities && Mapped(t) ==> status.effectiveConfig == t.effectiveConfig)
  }

  /** The channel between an agent and the server.  `sentCount` and `gotCount` are the agent's unwrapped sequence numbers
      of the last report sent and delivered; `outstanding` says that full state has been requested and no full report
      has come since. */
  datatype Link = Link(status: Option<Report>, now: Truth, sentCount: nat, gotCount: nat, outstanding: bool)

  const FRESH_LINK := Link(None, NOTHING, 0, 0, false)

  /** The agent sends a report, which is delivered or lost. */
  datatype Transmission = Transmission(m: Report, now: Truth, delivered: bool)

  predicate CanTransmit(l: Link, x: Transmission) {
    && Faithful(x.m, l.now, x.now)
    && x.m.sequenceNum == (l.sentCount + 1) % SEQUENCE_MODULUS
    && l.sentCount + 1 - l.gotCount < SEQUENCE_MODULUS
  }

  function Transmit(l: Link, x: Transmission): Link {
    if !x.delivered then l.(now := x.now, sentCount := l.sentCount + 1)
    else
      var s := Merged(l.status, x.m);
      Link(Some(s), x.now, l.sentCount + 1, l.sentCount + 1,
           AsksFullState(l.status, x.m) || (l.outstanding && Compressed(s.capabilities, x.m)))
  }

  ghost predicate LinkOk(l: Link) {
    && l.gotCount <= l.sentCount
    && (l.status.Some? ==> l.status.value.sequenceNum == l.gotCount % SEQUENCE_MODULUS)
    && (l.status.Some? && l.gotCount == l.sentCount ==> l.outstanding || Current(l.status.value, l.now))
  }

  ghost predicate LossyRun(xs: seq<Transmission>)
    decreases |xs|, 0
  {
    xs != [] ==>
      LossyRun(xs[..|xs| - 1]) && CanTransmit(LinkAfter(xs[..|xs| - 1]), xs[|xs| - 1])
  }

  ghost function LinkAfter(xs: seq<Transmission>): Link
    requires LossyRun(xs)
    decreases |xs|, 1
  {
    if xs == [] then FRESH_LINK else Transmit(LinkAfter(xs[..|xs| - 1]), xs[|xs| - 1])
  }

  /** A gap in the sequence numbers is noticed: two counts less than the modulus apart and congruent are equal. */
  lemma GapNoticed(got: nat, sent: nat)
    requires got <= sent && sent + 1 - got < SEQUENCE_MODULUS
    ensures (got % SEQUENCE_MODULUS + 1) % SEQUENCE_MODULUS == (sent + 1) % SEQUENCE_MODULUS <==> got == sent
  {
    var n := 0x1_0000_0000_0000_0000;
    var k := sent - got;
    assert (got % n + 1) % n == (got + 1) % n;
    assert 0 < k < n ==> (got + 1) % n != (got + 1 + k) % n;
  }

  lemma TransmitKeepsLink(l: Link, x: Transmission)
    requires LinkOk(l) && CanTransmit(l, x)
    ensures LinkOk(Transmit(l, x))
    ensures x.delivered && !Compressed(Transmit(l, x).status.value.capabilities, x.m) ==>
              Current(Transmit(l, x).status.value, x.now) && !Transmit(l, x).outstanding
  {
    if x.delivered && l.status.Some? {
      GapNoticed(l.gotCount, l.sentCount);
    }
  }

  /** Whatever reports are lost: after every delivered report the stored health, remote-config status and effective
      configuration of an agent that declares them are the agent's, or full state has been requested and not come yet. */
  lemma {:induction false} CurrentOrAsked(xs: seq<Transmission>)
    requires LossyRun(xs)
    ensures LinkOk(LinkAfter(xs))
  {
    if xs != [] {
      CurrentOrAsked(xs[..|xs| - 1]);
      TransmitKeepsLink(LinkAfter(xs[..|xs| - 1]), xs[|xs| - 1]);
    }
  }

  /** A request is made once: reports that follow without a gap are not asked about again. */
  lemma InSequenceIsNotAsked(l: Link, x: Transmission)
    requires LinkOk(l) && CanTransmit(l, x) && l.status.Some? && l.gotCount == l.sentCount
    ensures !AsksFullState(l.status, x.m)
  {
    GapNoticed(l.gotCount, l.sentCount);
  }

  function TransmitAll(l: Link, xs: seq<Transmission>): Link {
    if xs == [] then l else Transmit(TransmitAll(l, xs[..|xs| - 1]), xs[|xs| - 1])
  }

  /** Reports that all arrive and all leave the health out. */
  ghost predicate SilentOnHealth(l: Link, xs: seq<Transmission>) {
    xs != [] ==>
      var x, before := xs[|xs| - 1], xs[..|xs| - 1];
      SilentOnHealth(l, before) && CanTransmit(TransmitAll(l, before), x) && x.delivered && x.m.health.None?
  }

  /** So if the answer with the request is lost, a stale health stays stale however many such reports follow, and none of
      them is asked about. */
  lemma {:induction false} LostRequestIsNotRepeated(l: Link, xs: seq<Transmission>)
    requires LinkOk(l) && l.status.Some? && l.gotCount == l.sentCount && SilentOnHealth(l, xs)
    ensures var t := TransmitAll(l, xs);
            && LinkOk(t) && t.status.Some? && t.gotCount == t.sentCount
            && t.status.value.health == l.status.value.health && t.now.health == l.now.health
            && (forall x | CanTransmit(t, x) :: !AsksFullState(t.status, x.m))
  {
    if xs != [] {
      var before, x := xs[..|xs| - 1], xs[|xs| - 1];
      LostRequestIsNotRepeated(l, before);
      TransmitKeepsLink(TransmitAll(l, before), x);
    }
    var t := TransmitAll(l, xs);
    forall x | CanTransmit(t, x) ensures !AsksFullState(t.status, x.m) {
      InSequenceIsNotAsked(t, x);
    }
  }

  /** A run that gets there: a changed health is lost, and the next report leaves it out, so that full state is asked
      for. */
  lemma HealthLost() returns (xs: seq<Transmission>)
    ensures LossyRun(xs)
    ensures var l := LinkAfter(xs);
            && LinkOk(l) && l.status.Some? && l.gotCount == l.sentCount && l.outstanding
            && l.status.value.health != l.now.health
  {
    var up, down := Some(Health(true, 1)), Some(Health(false, 1));
    var caps := {ReportsHealth};
    var x1 := Transmission(Report(1, caps, None, up, None, None, None), NOTHING.(health := up), true);
    var x2 := Transmission(Report(2, caps, None, down, None, None, None), NOTHING.(health := down), false);
    var x3 := Transmission(Report(3, caps, None, None, None, None, None), NOTHING.(health := down), true);
    xs := [x1, x2, x3];
    assert xs[..2] == [x1, x2] && [x1, x2][..1] == [x1] && [x1][..0] == [];
    assert LossyRun([]) && LossyRun([x1]);
    assert LossyRun([x1, x2]);
    CurrentOrAsked(xs);
  }

  /** After a gap the answer asks for full state exactly when a declared field is missing; otherwise the declared fields
      have just come. */
  lemma GapIsAnswered(hash: Hash, a: AgentState, m: Report, last: Truth, now: Truth)
    requires ConfigOk(hash, a) && LostPrevious(a.status, m) && Faithful(m, last, now)
    ensures var s := Merged(a.status, m);
            Answer(hash, a, m).reportFullState <==> Compressed(s.capabilities, m)
    ensures !Answer(hash, a, m).reportFullState ==> Current(Merged(a.status, m), now)
  {
  }

  /** Full state is asked for exactly of a report that follows a gap and leaves out one of the four kinds of state that
      the stored capabilities declare. */
  lemma AskedIff(hash: Hash, a: AgentState, m: Report)
    requires ConfigOk(hash, a)
    ensures var declared := if a.status.Some? then a.status.value.capabilities else m.capabilities;
            Answer(hash, a, m).reportFullState <==>
            && (a.status.None? || (a.status.value.sequenceNum + 1) % 0x1_0000_0000_0000_0000 != m.sequenceNum)
            && !((ReportsHealth in declared ==> m.health.Some?) &&
                 (ReportsEffectiveConfig in declared ==> m.effectiveConfig.Some?) &&
                 (ReportsPackageStatuses in declared ==> m.packageStatuses.Some?) &&
                 (ReportsRemoteConfig in declared ==> m.remoteConfigStatus.Some?))
  {
  }

  // ---------------------------------------------------------------- lost descriptions

  /** The description in the last report that had one, among all that were sent or those that arrived. */
  function LastDescription(xs: seq<Transmission>, arrived: bool): Option<string> {
    if xs == [] then None
    else
      var x := xs[|xs| - 1];
      if x.m.description.Some? && (arrived ==> x.delivered) then x.m.description
      else LastDescription(xs[..|xs| - 1], arrived)
  }

  /** Some report arrived as the first one or just after a lost one, and it and all that arrived since were
      incomplete. */
  ghost predicate Awaited(xs: seq<Transmission>, declared: set<Capability>) {
    exists i :: 0 <= i < |xs| && IsAsked(xs, i, declared)
  }

  ghost predicate IsAsked(xs: seq<Transmission>, i: nat, declared: set<Capability>)
    requires i < |xs|
  {
    && xs[i].delivered && (i == 0 || !xs[i - 1].delivered)
    && forall k | i <= k < |xs| && xs[k].delivered :: Compressed(declared, xs[k].m)
  }

  lemma {:induction false} DescriptionsFollow(xs: seq<Transmission>)
    requires LossyRun(xs)
    ensures var l := LinkAfter(xs);
            && l.now.description == LastDescription(xs, false)
            && LastDescription(xs, true) == if l.status.Some? then l.status.value.description else None
  {
    if xs != [] {
      DescriptionsFollow(xs[..|xs| - 1]);
    }
  }

  lemma {:induction false} CountsFollow(xs: seq<Transmission>)
    requires LossyRun(xs)
    ensures var l := LinkAfter(xs);
            && l.sentCount == |xs| && (l.gotCount == |xs| <==> xs == [] || xs[|xs| - 1].delivered)
            && (l.status.None? <==> forall i | 0 <= i < |xs| :: !xs[i].delivered)
  {
    CurrentOrAsked(xs);
    if xs != [] {
      CountsFollow(xs[..|xs| - 1]);
      CurrentOrAsked(xs[..|xs| - 1]);
    }
  }

  /** A further report that arrives is awaited still, or asked for now. */
  lemma AwaitedStep(before: seq<Transmission>, x: Transmission, declared: set<Capability>)
    ensures !x.delivered ==> (Awaited(before + [x], declared) <==> Awaited(before, declared))
    ensures x.delivered ==>
              (Awaited(before + [x], declared) <==>
               Compressed(declared, x.m) &&
               (before == [] || !before[|before| - 1].delivered || Awaited(before, declared)))
  {
    var xs, n := before + [x], |before|;
    if i :| 0 <= i < n && IsAsked(before, i, declared) && (x.delivered ==> Compressed(declared, x.m)) {
      assert IsAsked(xs, i, declared);
    }
    if i :| 0 <= i < |xs| && IsAsked(xs, i, declared) {
      if i < n {
        assert forall k | i <= k < n && before[k].delivered :: xs[k] == before[k];
        assert IsAsked(before, i, declared);
      }
      assert x.delivered ==> Compressed(declared, xs[n].m);
    }
    if x.delivered && Compressed(declared, x.m) && (n == 0 || !before[n - 1].delivered) {
      assert IsAsked(xs, n, declared);
    }
  }

  /** A report is noticed to follow a gap exactly when it is the first one or the one before it was lost. */
  lemma GapIff(before: seq<Transmission>, x: Transmission)
    requires LossyRun(before) && CanTransmit(LinkAfter(before), x)
    ensures LostPrevious(LinkAfter(before).status, x.m) <==> before == [] || !before[|before| - 1].delivered
  {
    var l := LinkAfter(before);
    CountsFollow(before);
    CurrentOrAsked(before);
    if l.status.Some? {
      GapNoticed(l.gotCount, l.sentCount);
    }
  }

  /** When full state has been asked for and has not come. */
  lemma {:induction false} OutstandingIff(xs: seq<Transmission>)
    requires LossyRun(xs)
    ensures var l := LinkAfter(xs);
            l.outstanding <==> l.status.Some? && Awaited(xs, l.status.value.capabilities)
  {
    if xs != [] {
      var before, x := xs[..|xs| - 1], xs[|xs| - 1];
      OutstandingIff(before);
      GapIff(before, x);
      assert xs == before + [x];
      if LinkAfter(xs).status.Some? {
        AwaitedStep(before, x, LinkAfter(xs).status.value.capabilities);
      }
    }
  }

  /** The description is not part of the omission check.  Over all runs with losses: the stored one is the agent's
      exactly when the last one sent is the last one that arrived; a stale one goes unnoticed exactly when, besides,
      every incomplete report after a gap has been followed by a complete one. */
  lemma DescriptionCurrentIff(xs: seq<Transmission>)
    requires LossyRun(xs) && LinkAfter(xs).status.Some?
    ensures var l := LinkAfter(xs);
            var current := l.status.value.description == l.now.description;
            && (current <==> LastDescription(xs, true) == LastDescription(xs, false))
            && (!current && !l.outstanding <==>
                LastDescription(xs, true) != LastDescription(xs, false) && !Awaited(xs, l.status.value.capabilities))
  {
    DescriptionsFollow(xs);
    OutstandingIff(xs);
  }

  /** A run in which a changed description is lost, the next report omits it, and nothing asks for it. */
  lemma DescriptionLostUnnoticed() returns (xs: seq<Transmission>)
    ensures LossyRun(xs)
    ensures var l := LinkAfter(xs);
            && l.status.Some? && l.gotCount == l.sentCount && !l.outstanding
            && l.status.value.description != l.now.description
  {
    var healthy := Some(Health(true, 1));
    var t1 := Truth(Some("a"), healthy, None, None);
    var t2 := Truth(Some("b"), healthy, None, None);
    var caps := {ReportsHealth};
    var x1 := Transmission(Report(1, caps, Some("a"), healthy, None, None, None), t1, true);
    var x2 := Transmission(Report(2, caps, Some("b"), healthy, None, None, None), t2, false);
    var x3 := Transmission(Report(3, caps, None, healthy, None, None, None), t2, true);
    xs := [x1, x2, x3];
    assert xs[..2] == [x1, x2] && [x1, x2][..1] == [x1] && [x1][..0] == [];
    assert LossyRun([]) && LossyRun([x1]);
    assert LossyRun([x1, x2]);
  }
}
