/** The GSLB record builder (`gslbDNSEndpoint` in controllers/dnsupdate.go):
    from the local health of each host, the locally exposed IPs, the targets
    peer clusters advertise and the strategy, it computes the DNS endpoints
    to publish, and it picks the status reporter for each host. */
module DnsUpdate {
  import opened Strings
  import opened Addresses
  import opened Targets
  import opened Labels

  /** Strategy type names (depresolver.RoundRobinStrategy, GeoStrategy, FailoverStrategy). */
  const RoundRobinStrategy: string := "roundRobin"
  const GeoStrategy: string := "geoip"
  const FailoverStrategy: string := "failover"

  datatype HealthStatus = Healthy | Unhealthy | NotFound

  datatype RecordType = A | AAAA

  /** An external-dns endpoint: the record the builder publishes. */
  datatype Endpoint = Endpoint(dnsName: string, recordTTL: int, recordType: RecordType,
                               targets: seq<string>, labels: map<string, string>)

  /** The strategy part of the Gslb resource. */
  datatype Strategy = Strategy(strategyType: string, primaryGeoTag: string,
                               weight: map<string, int>, dnsTtlSeconds: int)

  /** The controller's configuration the builder reads. */
  datatype Config = Config(edgeDnsZone: string, clusterGeoTag: string)

  /** One entry of the health map. */
  datatype HostHealth = HostHealth(host: string, health: HealthStatus)

  datatype Error = LookupFailed(reason: string) | ZoneMismatch(host: string, zone: string)

  datatype Result<T> = Ok(value: T) | Err(error: Error)

  /** The metrics update `updateRuntimeStatus` triggers; only the failover one is told the role. */
  datatype StatusUpdate =
    | RoundrobinStatus(health: HealthStatus, finalTargets: seq<string>)
    | GeoIPStatus(health: HealthStatus, finalTargets: seq<string>)
    | FailoverStatus(isPrimary: bool, health: HealthStatus, finalTargets: seq<string>)
    | NoStatus

  // ----- Target classification -----

  function RecordTypeOf(ip: string): RecordType {
    if IsIPv4(ip) then A else AAAA
  }

  /** The IPv4 literals of `ips`, in their order. */
  function IPv4Targets(ips: seq<string>): seq<string> {
    if ips == [] then []
    else IPv4Targets(ips[..|ips| - 1]) + (if IsIPv4(ips[|ips| - 1]) then [ips[|ips| - 1]] else [])
  }

  /** The other literals of `ips`, in their order. */
  function IPv6Targets(ips: seq<string>): seq<string> {
    if ips == [] then []
    else IPv6Targets(ips[..|ips| - 1]) + (if IsIPv4(ips[|ips| - 1]) then [] else [ips[|ips| - 1]])
  }

  /** Every local IP lands in exactly one of the two lists, IPv4 ones in the A list. */
  lemma {:induction false} ClassifyPartition(ips: seq<string>)
    ensures multiset(IPv4Targets(ips)) + multiset(IPv6Targets(ips)) == multiset(ips)
    ensures forall ip :: ip in IPv4Targets(ips) ==> IsIPv4(ip)
    ensures forall ip :: ip in IPv6Targets(ips) ==> !IsIPv4(ip)
  {
    if ips != [] {
      var init, last := ips[..|ips| - 1], ips[|ips| - 1];
      ClassifyPartition(init);
      assert ips == init + [last];
    }
  }

  /** The classification loop (dnsupdate.go:53-60). */
  method ClassifyTargets(localTargets: seq<string>) returns (localA: seq<string>, localAAAA: seq<string>)
    ensures localA == IPv4Targets(localTargets)
    ensures localAAAA == IPv6Targets(localTargets)
  {
    localA, localAAAA := [], [];
    var i := 0;
    while i < |localTargets|
      invariant 0 <= i <= |localTargets|
      invariant localA == IPv4Targets(localTargets[..i])
      invariant localAAAA == IPv6Targets(localTargets[..i])
    {
      var localTarget := localTargets[i];
      assert localTargets[..i + 1][..i] == localTargets[..i];
      if IsIPv4(localTarget) {
        localA := localA + [localTarget];
      } else {
        localAAAA := localAAAA + [localTarget];
      }
      i := i + 1;
    }
    assert localTargets[..i] == localTargets;
  }

  // ----- Strategy resolution -----

  /** The targets a host starts from: the local IPs under the cluster's geo tag when healthy. */
  function OwnTargets(config: Config, healthy: bool, localA: seq<string>, localAAAA: seq<string>): Targets {
    if healthy then Append(Append(NewTargets(), config.clusterGeoTag, localA), config.clusterGeoTag, localAAAA)
    else NewTargets()
  }

  /** The final targets of a host (dnsupdate.go:63, 69-74, 96-126). */
  function FinalTargets(strategy: Strategy, config: Config, healthy: bool,
                        localA: seq<string>, localAAAA: seq<string>, external: Targets): Targets
  {
    var own := OwnTargets(config, healthy, localA, localAAAA);
    var isPrimary := strategy.primaryGeoTag == config.clusterGeoTag;
    if Len(external) == 0 then own
    else if strategy.strategyType == RoundRobinStrategy || strategy.strategyType == GeoStrategy then
      AppendTargets(own, external)
    else if strategy.strategyType == FailoverStrategy then
      if isPrimary && healthy then own else external
    else own
  }

  /** A healthy host starts from one entry, the cluster tag holding the A then the AAAA IPs; an unhealthy one from nothing. */
  lemma OwnTargetsShape(config: Config, healthy: bool, localA: seq<string>, localAAAA: seq<string>)
    ensures OwnTargets(config, healthy, localA, localAAAA) ==
      if healthy then [Target(config.clusterGeoTag, localA + localAAAA)] else []
    ensures GetIPs(OwnTargets(config, healthy, localA, localAAAA)) == if healthy then localA + localAAAA else []
  {
    if healthy {
      var one := [Target(config.clusterGeoTag, localA + localAAAA)];
      assert GetIPs(one) == (localA + localAAAA) + GetIPs([]);
    }
  }

  /** Without external targets, or under an unknown strategy type, a host keeps its own targets. */
  lemma OwnTargetsKept(strategy: Strategy, config: Config, healthy: bool,
                       localA: seq<string>, localAAAA: seq<string>, external: Targets)
    requires Len(external) == 0 ||
      strategy.strategyType !in {RoundRobinStrategy, GeoStrategy, FailoverStrategy}
    ensures FinalTargets(strategy, config, healthy, localA, localAAAA, external) ==
      OwnTargets(config, healthy, localA, localAAAA)
  {
  }

  /** RoundRobin and Geo add every external entry to the host's own targets. */
  lemma RoundRobinAndGeoAddAllExternal(strategy: Strategy, config: Config, healthy: bool,
                                       localA: seq<string>, localAAAA: seq<string>, external: Targets, tag: string)
    requires UniqueTags(external) && Len(external) > 0
    requires strategy.strategyType == RoundRobinStrategy || strategy.strategyType == GeoStrategy
    ensures var final := FinalTargets(strategy, config, healthy, localA, localAAAA, external);
      && Lookup(final, tag) == Lookup(OwnTargets(config, healthy, localA, localAAAA), tag) + Lookup(external, tag)
      && multiset(GetIPs(final)) ==
           multiset(if healthy then localA + localAAAA else []) + multiset(GetIPs(external))
  {
    var own := OwnTargets(config, healthy, localA, localAAAA);
    OwnTargetsShape(config, healthy, localA, localAAAA);
    AppendTargetsLookup(own, external, tag);
    AppendTargetsIPs(own, external);
  }

  /** Failover on the primary cluster while healthy publishes only the local targets. */
  lemma FailoverPrimaryHealthyKeepsLocal(strategy: Strategy, config: Config,
                                         localA: seq<string>, localAAAA: seq<string>, external: Targets)
    requires strategy.strategyType == FailoverStrategy && strategy.primaryGeoTag == config.clusterGeoTag
    ensures GetIPs(FinalTargets(strategy, config, true, localA, localAAAA, external)) == localA + localAAAA
  {
    OwnTargetsShape(config, true, localA, localAAAA);
  }

  /** Failover with external targets: an unhealthy primary, and any secondary, publish exactly the external targets. */
  lemma FailoverOtherwisePublishesExternal(strategy: Strategy, config: Config, healthy: bool,
                                           localA: seq<string>, localAAAA: seq<string>, external: Targets)
    requires strategy.strategyType == FailoverStrategy && Len(external) > 0
    requires strategy.primaryGeoTag != config.clusterGeoTag || !healthy
    ensures FinalTargets(strategy, config, healthy, localA, localAAAA, external) == external
  {
  }

  /** A secondary cluster with no external targets falls back to its own (healthy) targets. */
  lemma FailoverSecondaryFallsBack(strategy: Strategy, config: Config, healthy: bool,
                                   localA: seq<string>, localAAAA: seq<string>, external: Targets)
    requires strategy.strategyType == FailoverStrategy && strategy.primaryGeoTag != config.clusterGeoTag
    requires Len(external) == 0
    ensures GetIPs(FinalTargets(strategy, config, healthy, localA, localAAAA, external)) ==
      if healthy then localA + localAAAA else []
  {
    OwnTargetsShape(config, healthy, localA, localAAAA);
  }

  // ----- Status reporting -----

  /** `updateRuntimeStatus` (dnsupdate.go:192-201): which reporter the strategy type selects. */
  function UpdateRuntimeStatus(strategyType: string, isPrimary: bool, health: HealthStatus,
                               finalTargets: seq<string>): (u: StatusUpdate)
    ensures u.RoundrobinStatus? <==> strategyType == RoundRobinStrategy
    ensures u.GeoIPStatus? <==> strategyType == GeoStrategy
    ensures u.FailoverStatus? <==> strategyType == FailoverStrategy
    ensures u.NoStatus? <==> strategyType !in {RoundRobinStrategy, GeoStrategy, FailoverStrategy}
    ensures !u.NoStatus? ==> u.health == health && u.finalTargets == finalTargets
    ensures u.FailoverStatus? ==> u.isPrimary == isPrimary
  {
    if strategyType == RoundRobinStrategy then RoundrobinStatus(health, finalTargets)
    else if strategyType == GeoStrategy then GeoIPStatus(health, finalTargets)
    else if strategyType == FailoverStrategy then FailoverStatus(isPrimary, health, finalTargets)
    else NoStatus
  }

  // ----- Record synthesis -----

  /** The two `localtargets-<host>` records of a healthy host, A then AAAA. */
  function LocalTargetRecords(host: string, ttl: int, localA: seq<string>, localAAAA: seq<string>): seq<Endpoint> {
    [Endpoint("localtargets-" + host, ttl, A, localA, map[]),
     Endpoint("localtargets-" + host, ttl, AAAA, localAAAA, map[])]
  }

  /** The record of one final-target IP, with the `strategy` label and the weight labels merged in. */
  function IPRecord(host: string, ttl: int, strategyType: string, ip: string,
                    labels: map<string, string>): Endpoint {
    Endpoint(host, ttl, RecordTypeOf(ip), [ip], map["strategy" := strategyType] + labels)
  }

  /** One record per final-target IP, in the order `GetIPs` gives them (dnsupdate.go:139-168,
      read so that every record built gets the labels and is appended). */
  function HostRecords(host: string, ttl: int, strategyType: string, ips: seq<string>,
                       labels: map<string, string>): seq<Endpoint> {
    if ips == [] then []
    else HostRecords(host, ttl, strategyType, ips[..|ips| - 1], labels) +
         [IPRecord(host, ttl, strategyType, ips[|ips| - 1], labels)]
  }

  /** Each final-target IP yields exactly one single-target record for the host, typed by its family. */
  lemma {:induction false} HostRecordsShape(host: string, ttl: int, strategyType: string, ips: seq<string>,
                                            labels: map<string, string>)
    requires "strategy" !in labels
    ensures var r := HostRecords(host, ttl, strategyType, ips, labels);
      && |r| == |ips|
      && forall j :: 0 <= j < |r| ==>
           && r[j].dnsName == host && r[j].recordTTL == ttl && r[j].targets == [ips[j]]
           && (r[j].recordType == A <==> IsIPv4(ips[j]))
           && "strategy" in r[j].labels && r[j].labels["strategy"] == strategyType
           && r[j].labels == map["strategy" := strategyType] + labels
  {
    if ips != [] {
      HostRecordsShape(host, ttl, strategyType, ips[..|ips| - 1], labels);
    }
  }

  /** The records of one host: its localtargets pair when healthy, then one record per final-target IP. */
  function HostEndpoints(strategy: Strategy, config: Config, hh: HostHealth,
                         localA: seq<string>, localAAAA: seq<string>, external: Targets): seq<Endpoint>
  {
    var healthy := hh.health == Healthy;
    var ttl := strategy.dnsTtlSeconds;
    var final := FinalTargets(strategy, config, healthy, localA, localAAAA, external);
    (if healthy then LocalTargetRecords(hh.host, ttl, localA, localAAAA) else []) +
    (if Len(final) > 0
     then HostRecords(hh.host, ttl, strategy.strategyType, GetIPs(final), WeightLabels(strategy.weight, final))
     else [])
  }

  /** The status update of one host. */
  function HostStatus(strategy: Strategy, config: Config, hh: HostHealth,
                      localA: seq<string>, localAAAA: seq<string>, external: Targets): StatusUpdate
  {
    var final := FinalTargets(strategy, config, hh.health == Healthy, localA, localAAAA, external);
    UpdateRuntimeStatus(strategy.strategyType, strategy.primaryGeoTag == config.clusterGeoTag, hh.health, GetIPs(final))
  }

  /** What `GetExternalTargets(host)` answers: the advertised targets, none for an unknown host. */
  function ExternalFor(external: map<string, Targets>, host: string): Targets {
    if host in external then external[host] else NewTargets()
  }

  /** The records of all hosts, host after host. */
  function AllEndpoints(strategy: Strategy, config: Config, hosts: seq<HostHealth>,
                        localA: seq<string>, localAAAA: seq<string>, external: map<string, Targets>): seq<Endpoint>
  {
    if hosts == [] then []
    else
      var last := hosts[|hosts| - 1];
      AllEndpoints(strategy, config, hosts[..|hosts| - 1], localA, localAAAA, external) +
      HostEndpoints(strategy, config, last, localA, localAAAA, ExternalFor(external, last.host))
  }

  /** The status updates of all hosts, host after host. */
  function AllStatus(strategy: Strategy, config: Config, hosts: seq<HostHealth>,
                     localA: seq<string>, localAAAA: seq<string>, external: map<string, Targets>): seq<StatusUpdate>
  {
    if hosts == [] then []
    else
      var last := hosts[|hosts| - 1];
      AllStatus(strategy, config, hosts[..|hosts| - 1], localA, localAAAA, external) +
      [HostStatus(strategy, config, last, localA, localAAAA, ExternalFor(external, last.host))]
  }

  /** The position of the first host outside the delegated zone (`|hosts|` when there is none). */
  function FirstOutsideZone(hosts: seq<HostHealth>, zone: string): (k: nat)
    ensures k <= |hosts|
    ensures forall j :: 0 <= j < k ==> Contains(hosts[j].host, zone)
    ensures k < |hosts| ==> !Contains(hosts[k].host, zone)
  {
    if hosts == [] then 0
    else if !Contains(hosts[0].host, zone) then 0
    else 1 + FirstOutsideZone(hosts[1..], zone)
  }

  /** What `gslbDNSEndpoint` returns: an error from a lookup or from the first host outside the zone,
      otherwise the records of every host. */
  function DNSEndpoints(strategy: Strategy, config: Config, serviceHealth: Result<seq<HostHealth>>,
                        localTargets: Result<seq<string>>, external: map<string, Targets>): Result<seq<Endpoint>>
  {
    if serviceHealth.Err? then Err(serviceHealth.error)
    else if localTargets.Err? then Err(localTargets.error)
    else
      var hosts := serviceHealth.value;
      var k := FirstOutsideZone(hosts, config.edgeDnsZone);
      if k < |hosts| then Err(ZoneMismatch(hosts[k].host, config.edgeDnsZone))
      else Ok(AllEndpoints(strategy, config, hosts, IPv4Targets(localTargets.value),
                           IPv6Targets(localTargets.value), external))
  }

  /** The status updates `gslbDNSEndpoint` makes: one per host reached before the pass stops. */
  function DNSStatusUpdates(strategy: Strategy, config: Config, serviceHealth: Result<seq<HostHealth>>,
                            localTargets: Result<seq<string>>, external: map<string, Targets>): seq<StatusUpdate>
  {
    if serviceHealth.Err? || localTargets.Err? then []
    else
      var hosts := serviceHealth.value;
      var k := FirstOutsideZone(hosts, config.edgeDnsZone);
      AllStatus(strategy, config, hosts[..k], IPv4Targets(localTargets.value),
                IPv6Targets(localTargets.value), external)
  }

  /** A position before which every host is in the zone, and at which the host is not
      (or the end), is the one `FirstOutsideZone` finds. */
  lemma FirstOutsideZoneAt(hosts: seq<HostHealth>, zone: string, i: nat)
    requires i <= |hosts|
    requires forall j :: 0 <= j < i ==> Contains(hosts[j].host, zone)
    requires i < |hosts| ==> !Contains(hosts[i].host, zone)
    ensures FirstOutsideZone(hosts, zone) == i
  {
  }

  /** The pass over `hosts[..i + 1]` is the pass over `hosts[..i]` followed by host `i`. */
  lemma AllStep(strategy: Strategy, config: Config, hosts: seq<HostHealth>, i: nat,
                localA: seq<string>, localAAAA: seq<string>, external: map<string, Targets>)
    requires i < |hosts|
    ensures AllEndpoints(strategy, config, hosts[..i + 1], localA, localAAAA, external) ==
      AllEndpoints(strategy, config, hosts[..i], localA, localAAAA, external) +
      HostEndpoints(strategy, config, hosts[i], localA, localAAAA, ExternalFor(external, hosts[i].host))
    ensures AllStatus(strategy, config, hosts[..i + 1], localA, localAAAA, external) ==
      AllStatus(strategy, config, hosts[..i], localA, localAAAA, external) +
      [HostStatus(strategy, config, hosts[i], localA, localAAAA, ExternalFor(external, hosts[i].host))]
  {
    assert hosts[..i + 1][..i] == hosts[..i];
  }

  // ----- The builder -----

  /** dnsupdate.go:165-167: copies the weight labels into a record's label map, one key at a time. */
  method MergeLabels(base: map<string, string>, extra: map<string, string>) returns (merged: map<string, string>)
    ensures merged == base + extra
  {
    merged := base;
    var todo := extra.Keys;
    ghost var done: set<string> := {};
    while todo != {}
      invariant done + todo == extra.Keys && done !! todo
      invariant merged.Keys == base.Keys + done
      invariant forall k :: k in merged ==> merged[k] == if k in done then extra[k] else base[k]
      decreases todo
    {
      var k :| k in todo;
      merged := merged[k := extra[k]];
      todo := todo - {k};
      done := done + {k};
    }
    assert merged.Keys == (base + extra).Keys;
  }

  /** The statement-level rendering of `FinalTargets`: the final targets of one host, built as the
      source builds them (dnsupdate.go:63, 69-74, 93-126); the strategy lemmas are about `FinalTargets`. */
  method ResolveTargets(strategy: Strategy, config: Config, isHealthy: bool,
                        localA: seq<string>, localAAAA: seq<string>, externalTargets: Targets)
    returns (finalTargets: Targets)
    ensures finalTargets == FinalTargets(strategy, config, isHealthy, localA, localAAAA, externalTargets)
  {
    finalTargets := NewTargets();
    var isPrimary := strategy.primaryGeoTag == config.clusterGeoTag;
    if isHealthy {
      finalTargets := Append(finalTargets, config.clusterGeoTag, localA);
      finalTargets := Append(finalTargets, config.clusterGeoTag, localAAAA);
    }
    if Len(externalTargets) > 0 {
      if strategy.strategyType == RoundRobinStrategy || strategy.strategyType == GeoStrategy {
        finalTargets := AppendTargets(finalTargets, externalTargets);
      } else if strategy.strategyType == FailoverStrategy {
        if isPrimary {
          if !isHealthy {
            finalTargets := externalTargets;
          }
        } else {
          finalTargets := externalTargets;
        }
      }
    }
  }

  /** The per-IP records of one host (dnsupdate.go:139-168): each record built gets the
      `strategy` label and the weight labels, and is appended. */
  method AppendHostRecords(gslbHosts: seq<Endpoint>, host: string, ttl: int, strategy: Strategy,
                           finalTargets: Targets)
    returns (out: seq<Endpoint>)
    ensures out == gslbHosts + if Len(finalTargets) > 0
      then HostRecords(host, ttl, strategy.strategyType, GetIPs(finalTargets), WeightLabels(strategy.weight, finalTargets))
      else []
  {
    out := gslbHosts;
    if Len(finalTargets) > 0 {
      var weightLabels := GetLabels(strategy.weight, finalTargets);
      var ips := GetIPs(finalTargets);
      var j := 0;
      while j < |ips|
        invariant 0 <= j <= |ips|
        invariant out == gslbHosts + HostRecords(host, ttl, strategy.strategyType, ips[..j], weightLabels)
      {
        var record := ips[j];
        var dnsRecord := Endpoint(host, ttl, if IsIPv4(record) then A else AAAA, [record],
                                  map["strategy" := strategy.strategyType]);
        var labels := MergeLabels(dnsRecord.labels, weightLabels);
        dnsRecord := dnsRecord.(labels := labels);
        assert ips[..j + 1][..j] == ips[..j];
        out := out + [dnsRecord];
        j := j + 1;
      }
      assert ips[..j] == ips;
    }
  }

  /** The body of the host loop (dnsupdate.go:88-168) for a host inside the zone: appends the
      host's records and gives the status update it makes. */
  method AddHost(gslbHosts: seq<Endpoint>, strategy: Strategy, config: Config, hh: HostHealth,
                 localA: seq<string>, localAAAA: seq<string>, externalTargets: Targets)
    returns (out: seq<Endpoint>, update: StatusUpdate)
    ensures out == gslbHosts + HostEndpoints(strategy, config, hh, localA, localAAAA, externalTargets)
    ensures update == HostStatus(strategy, config, hh, localA, localAAAA, externalTargets)
  {
    var ttl := strategy.dnsTtlSeconds;
    var isPrimary := strategy.primaryGeoTag == config.clusterGeoTag;
    var isHealthy := hh.health == Healthy;
    out := gslbHosts;
    if isHealthy {
      var localTargetsHost := "localtargets-" + hh.host;
      out := out + [Endpoint(localTargetsHost, ttl, A, localA, map[])];
      out := out + [Endpoint(localTargetsHost, ttl, AAAA, localAAAA, map[])];
    }
    ghost var withLocal := out;
    assert withLocal == gslbHosts + if isHealthy then LocalTargetRecords(hh.host, ttl, localA, localAAAA) else [];
    var finalTargets := ResolveTargets(strategy, config, isHealthy, localA, localAAAA, externalTargets);
    update := UpdateRuntimeStatus(strategy.strategyType, isPrimary, hh.health, GetIPs(finalTargets));
    out := AppendHostRecords(out, hh.host, ttl, strategy, finalTargets);
  }

  /** `gslbDNSEndpoint`: the lookups' results are inputs; hosts are visited in the order of
      `serviceHealth`, and every status update made is returned alongside the result. */
  method GslbDNSEndpoint(strategy: Strategy, config: Config, serviceHealth: Result<seq<HostHealth>>,
                         localTargets: Result<seq<string>>, external: map<string, Targets>)
    returns (result: Result<seq<Endpoint>>, updates: seq<StatusUpdate>)
    ensures result == DNSEndpoints(strategy, config, serviceHealth, localTargets, external)
    ensures updates == DNSStatusUpdates(strategy, config, serviceHealth, localTargets, external)
  {
    updates := [];
    if serviceHealth.Err? {
      return Err(serviceHealth.error), updates;
    }
    if localTargets.Err? {
      return Err(localTargets.error), updates;
    }
    var localA, localAAAA := ClassifyTargets(localTargets.value);
    result, updates := BuildRecords(strategy, config, serviceHealth.value, localA, localAAAA, external);
  }

  /** The host loop of `gslbDNSEndpoint` (dnsupdate.go:85-169), once both lookups have succeeded. */
  method BuildRecords(strategy: Strategy, config: Config, hosts: seq<HostHealth>,
                      localA: seq<string>, localAAAA: seq<string>, external: map<string, Targets>)
    returns (result: Result<seq<Endpoint>>, updates: seq<StatusUpdate>)
    ensures var k := FirstOutsideZone(hosts, config.edgeDnsZone);
      && result == (if k < |hosts| then Err(ZoneMismatch(hosts[k].host, config.edgeDnsZone))
                    else Ok(AllEndpoints(strategy, config, hosts, localA, localAAAA, external)))
      && updates == AllStatus(strategy, config, hosts[..k], localA, localAAAA, external)
  {
    updates := [];
    var gslbHosts: seq<Endpoint> := [];
    var i := 0;
    assert hosts[..0] == [];
    while i < |hosts|
      invariant 0 <= i <= |hosts|
      invariant i <= FirstOutsideZone(hosts, config.edgeDnsZone)
      invariant gslbHosts == AllEndpoints(strategy, config, hosts[..i], localA, localAAAA, external)
      invariant updates == AllStatus(strategy, config, hosts[..i], localA, localAAAA, external)
    {
      var host := hosts[i].host;
      if !Contains(host, config.edgeDnsZone) {
        return Err(ZoneMismatch(host, config.edgeDnsZone)), updates;
      }
      assert i + 1 <= FirstOutsideZone(hosts, config.edgeDnsZone);
      var update;
      gslbHosts, update := AddHost(gslbHosts, strategy, config, hosts[i], localA, localAAAA,
                                   ExternalFor(external, host));
      updates := updates + [update];
      AllStep(strategy, config, hosts, i, localA, localAAAA, external);
      i := i + 1;
    }
    assert hosts[..i] == hosts;
    return Ok(gslbHosts), updates;
  }

  // ----- Properties of a whole pass -----

  /** Once both lookups succeed, the pass fails exactly when some host lies outside the zone; it then
      reports the first such host and returns no records at all, whatever it built before. */
  lemma ZoneMismatchRejectsPass(strategy: Strategy, config: Config, hosts: seq<HostHealth>,
                                localTargets: seq<string>, external: map<string, Targets>)
    ensures var r := DNSEndpoints(strategy, config, Ok(hosts), Ok(localTargets), external);
      && (r.Ok? <==> forall j :: 0 <= j < |hosts| ==> Contains(hosts[j].host, config.edgeDnsZone))
      && (r.Err? ==> exists k :: 0 <= k < |hosts| && !Contains(hosts[k].host, config.edgeDnsZone) &&
                      (forall j :: 0 <= j < k ==> Contains(hosts[j].host, config.edgeDnsZone)) &&
                      r == Err(ZoneMismatch(hosts[k].host, config.edgeDnsZone)))
  {
    var k := FirstOutsideZone(hosts, config.edgeDnsZone);
    if k < |hosts| {
      assert !Contains(hosts[k].host, config.edgeDnsZone);
    }
  }

  /** A host that merely has the zone somewhere inside its name passes the zone check. */
  lemma ZoneAnywhereInHostPasses(before: string, zone: string, after: string)
    ensures Contains(before + zone + after, zone)
  {
    var s := before + zone + after;
    assert s[|before|..|before| + |zone|] == zone;
    assert OccursAt(s, zone, |before|);
    ContainsIffOccurs(s, zone);
  }

  /** For instance, `example.com.other.org` is accepted for the zone `example.com`, which it does not end with. */
  lemma ZoneCheckIsNotSuffixCheck()
    ensures Contains("app.example.com.other.org", "example.com")
    ensures "app.example.com.other.org"[|"app.example.com.other.org"| - |"example.com"|..] != "example.com"
  {
    ZoneAnywhereInHostPasses("app.", "example.com", ".other.org");
    assert "app." + "example.com" + ".other.org" == "app.example.com.other.org";
    assert "app.example.com.other.org"[14] == 'm';
  }

  /** `example.com` starts nowhere in `app.other-zone.com`: at each position the first two characters differ. */
  lemma OtherZoneNoOccurrence(i: int)
    ensures !OccursAt("app.other-zone.com", "example.com", i)
  {
    var host: string := "app.other-zone.com";
    if 0 <= i <= |host| - 11 {
      assert host[i..i + 11][0] == host[i] && host[i..i + 11][1] == host[i + 1];
    }
  }

  /** `app.other-zone.com` does not contain `example.com`. */
  lemma OtherZoneNotContained()
    ensures !Contains("app.other-zone.com", "example.com")
  {
    forall i ensures !OccursAt("app.other-zone.com", "example.com", i) {
      OtherZoneNoOccurrence(i);
    }
    ContainsIffOccurs("app.other-zone.com", "example.com");
  }

  /** A host outside the zone, such as `app.other-zone.com` for `example.com`, fails the whole pass
      with a zone mismatch, and no record is returned. */
  lemma OtherZoneFailsPass(strategy: Strategy, clusterGeoTag: string, health: HealthStatus,
                           localTargets: seq<string>, external: map<string, Targets>)
    ensures DNSEndpoints(strategy, Config("example.com", clusterGeoTag),
                         Ok([HostHealth("app.other-zone.com", health)]), Ok(localTargets), external) ==
      Err(ZoneMismatch("app.other-zone.com", "example.com"))
  {
    OtherZoneNotContained();
    FirstOutsideZoneAt([HostHealth("app.other-zone.com", health)], "example.com", 0);
  }

  /** The records of one host: a healthy host's block opens with the two localtargets records, A then
      AAAA, holding exactly the local IPv4 and IPv6 lists (even when empty); then comes one record per
      final-target IP, named after the host, carrying that single IP, typed by its family and labelled
      with the strategy and the weight labels. No per-IP record is emitted when the final targets are empty. */
  lemma HostEndpointsShape(strategy: Strategy, config: Config, hh: HostHealth,
                           localA: seq<string>, localAAAA: seq<string>, external: Targets)
    ensures var healthy := hh.health == Healthy;
      var final := FinalTargets(strategy, config, healthy, localA, localAAAA, external);
      var ips := if Len(final) > 0 then GetIPs(final) else [];
      var r := HostEndpoints(strategy, config, hh, localA, localAAAA, external);
      var n := if healthy then 2 else 0;
      && |r| == n + |ips|
      && (healthy ==>
            && r[0] == Endpoint("localtargets-" + hh.host, strategy.dnsTtlSeconds, A, localA, map[])
            && r[1] == Endpoint("localtargets-" + hh.host, strategy.dnsTtlSeconds, AAAA, localAAAA, map[]))
      && forall j :: n <= j < |r| ==>
           && r[j].dnsName == hh.host && r[j].recordTTL == strategy.dnsTtlSeconds
           && r[j].targets == [ips[j - n]]
           && (r[j].recordType == A <==> IsIPv4(ips[j - n]))
           && r[j].labels == map["strategy" := strategy.strategyType] + WeightLabels(strategy.weight, final)
           && r[j].labels["strategy"] == strategy.strategyType
  {
    var healthy := hh.health == Healthy;
    var final := FinalTargets(strategy, config, healthy, localA, localAAAA, external);
    var ips := if Len(final) > 0 then GetIPs(final) else [];
    var labels := WeightLabels(strategy.weight, final);
    WeightLabelsAvoidStrategy(strategy.weight, final);
    HostRecordsShape(hh.host, strategy.dnsTtlSeconds, strategy.strategyType, ips, labels);
  }

  /** An unhealthy host publishes no localtargets records: every record it yields is named after it. */
  lemma UnhealthyHostHasNoLocalRecords(strategy: Strategy, config: Config, hh: HostHealth,
                                       localA: seq<string>, localAAAA: seq<string>, external: Targets)
    requires hh.health != Healthy
    ensures forall e :: e in HostEndpoints(strategy, config, hh, localA, localAAAA, external) ==> e.dnsName == hh.host
  {
    HostEndpointsShape(strategy, config, hh, localA, localAAAA, external);
  }

  // ----- The scope defect at dnsupdate.go:140-168 -----

  /** The per-IP block read so that one record variable outlives the loop: each iteration overwrites
      it, and only the record of the last IP is labelled and appended. */
  function LastRecordOnly(host: string, ttl: int, strategyType: string, ips: seq<string>,
                          labels: map<string, string>): seq<Endpoint> {
    if ips == [] then [] else [IPRecord(host, ttl, strategyType, ips[|ips| - 1], labels)]
  }

  /** With two or more final-target IPs, that reading drops every IP but the last, whereas
      `HostRecords` publishes each of them. */
  lemma {:induction false} LastRecordOnlyDropsTargets(host: string, ttl: int, strategyType: string,
                                                      ips: seq<string>, labels: map<string, string>)
    requires |ips| >= 2 && ips[0] != ips[|ips| - 1]
    ensures forall e :: e in LastRecordOnly(host, ttl, strategyType, ips, labels) ==> e.targets != [ips[0]]
    ensures exists e :: e in HostRecords(host, ttl, strategyType, ips, labels) && e.targets == [ips[0]]
  {
    var r := HostRecords(host, ttl, strategyType, ips, labels);
    PrefixRecords(host, ttl, strategyType, ips, labels, 1);
    assert ips[..1] == [ips[0]];
    assert HostRecords(host, ttl, strategyType, [ips[0]], labels) ==
      HostRecords(host, ttl, strategyType, [], labels) + [IPRecord(host, ttl, strategyType, ips[0], labels)];
    assert r[0].targets == [ips[0]];
    assert r[0] in r;
  }

  /** The records of a prefix of the IPs are a prefix of the records. */
  lemma {:induction false} PrefixRecords(host: string, ttl: int, strategyType: string,
                                         ips: seq<string>, labels: map<string, string>, n: nat)
    requires n <= |ips|
    ensures |HostRecords(host, ttl, strategyType, ips, labels)| == |ips|
    ensures HostRecords(host, ttl, strategyType, ips[..n], labels) ==
      HostRecords(host, ttl, strategyType, ips, labels)[..n]
    decreases |ips|
  {
    if ips != [] {
      var init := ips[..|ips| - 1];
      if n == |ips| {
        assert ips[..n] == ips;
        PrefixRecords(host, ttl, strategyType, init, labels, 0);
      } else {
        PrefixRecords(host, ttl, strategyType, init, labels, n);
        assert init[..n] == ips[..n];
      }
    }
  }
}
