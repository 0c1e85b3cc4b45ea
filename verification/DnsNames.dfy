/** DNS names of the daemons of a clique: one name per index, a map from addresses to names, the hosts file
    that publishes it and the static file that lists all names. */
module DnsNames {
  import opened Basics
  import opened Decimal
  import opened ApiObjects
  import opened Cliques
  import opened CliqueProtocol

  const DNS_NAME_PREFIX := "compute-domain-daemon-"
  const SEPARATOR_COMMENT := "# Compute Domain Daemon mappings"

  function DnsName(index: nat): string {
    DNS_NAME_PREFIX + Print4(index)
  }

  /** The prefix, and the index with four digits, or more if it needs more. */
  predicate IsNameOf(name: string, index: int) {
    && |name| >= 26 && name[..22] == "compute-domain-daemon-" && AllDigits(name[22..])
    && Value(name[22..]) == index && (index < 10000 ==> |name| == 26)
  }

  lemma DnsNameIs(index: nat)
    ensures IsNameOf(DnsName(index), index)
  {
    Print4Is(index);
    assert DnsName(index)[..22] == DNS_NAME_PREFIX && DnsName(index)[22..] == Print4(index);
  }

  lemma DnsNameIsInjective(i: nat, k: nat)
    requires DnsName(i) == DnsName(k)
    ensures i == k
  {
    assert DnsName(i)[|DNS_NAME_PREFIX|..] == Print4(i);
    assert DnsName(k)[|DNS_NAME_PREFIX|..] == Print4(k);
    Print4IsInjective(i, k);
  }

  // ---------------------------------------------------------------------- the map

  predicate AllInDomain(daemons: seq<DaemonInfo>, max: int) {
    forall d :: d in daemons ==> 0 <= d.index < max
  }

  /** Address to name; where two daemons report one address the later one counts. */
  function Mapping(daemons: seq<DaemonInfo>): map<string, string> {
    if daemons == [] then map[]
    else
      var last := daemons[|daemons| - 1];
      Mapping(daemons[..|daemons| - 1])[last.ipAddress := DnsName(if last.index >= 0 then last.index else 0)]
  }

  predicate DistinctIps(daemons: seq<DaemonInfo>) {
    forall i, k :: 0 <= i < k < |daemons| ==> daemons[i].ipAddress != daemons[k].ipAddress
  }

  lemma {:induction false} MappingOf(daemons: seq<DaemonInfo>, max: int)
    requires DistinctIps(daemons) && AllInDomain(daemons, max)
    ensures Mapping(daemons).Keys == IpSet(daemons) && |Mapping(daemons)| == |daemons|
    ensures forall d :: d in daemons ==> Mapping(daemons)[d.ipAddress] == DnsName(d.index)
  {
    hide DnsName;
    if daemons == [] {
      assert IpSet(daemons) == {};
    } else {
      var init, last := daemons[..|daemons| - 1], daemons[|daemons| - 1];
      MappingOf(init, max);
      assert daemons == init + [last];
      assert last.ipAddress !in Mapping(init);
    }
  }

  /** In a sound clique whose daemons report distinct addresses, the map has one name for every daemon and
      no name twice. */
  lemma MappingIsInjective(daemons: seq<DaemonInfo>, cliqueId: string, max: int, a: DaemonInfo, b: DaemonInfo)
    requires CliqueOk(daemons, cliqueId, max) && DistinctIps(daemons) && a in daemons && b in daemons
    ensures |Mapping(daemons)| == |daemons|
    ensures a.ipAddress in Mapping(daemons) && b.ipAddress in Mapping(daemons)
    ensures Mapping(daemons)[a.ipAddress] == Mapping(daemons)[b.ipAddress] ==> a == b
  {
    hide DnsName;
    forall d | d in daemons ensures Fits(d, cliqueId, max) {
    }
    MappingOf(daemons, max);
    assert a.ipAddress in IpSet(daemons) && b.ipAddress in IpSet(daemons);
    if DnsName(a.index) == DnsName(b.index) {
      DnsNameIsInjective(a.index, b.index);
    }
  }

  /** The names of a static nodes file for a domain of `max` nodes. */
  function NodesConfig(max: nat): seq<string> {
    seq(max, i requires 0 <= i < max => DnsName(i))
  }

  lemma {:induction false} MappedNamesAreListed(daemons: seq<DaemonInfo>, max: nat, ip: string)
    requires AllInDomain(daemons, max) && ip in Mapping(daemons)
    ensures Mapping(daemons)[ip] in NodesConfig(max)
  {
    hide DnsName;
    var last := daemons[|daemons| - 1];
    if ip == last.ipAddress {
      assert last in daemons;
      assert NodesConfig(max)[last.index] == DnsName(last.index);
    } else {
      MappedNamesAreListed(daemons[..|daemons| - 1], max, ip);
    }
  }

  /** Over every run of the clique, a daemon keeps its DNS name while its entry persists. */
  lemma NameNeverChanges(
    domain: Domain, steps: seq<Step<Op>>, v: nat, w: nat, before: DaemonInfo, after: DaemonInfo)
    requires v <= w < |Replay(WriteIn(domain), [], steps)|
    requires before in Replay(WriteIn(domain), [], steps)[v] && after in Replay(WriteIn(domain), [], steps)[w]
    requires before.nodeName == after.nodeName
    requires forall u :: v <= u <= w ==> IndexOf(Replay(WriteIn(domain), [], steps)[u], before.nodeName).Some?
    ensures 0 <= before.index && 0 <= after.index && DnsName(after.index) == DnsName(before.index)
  {
    var versions := Replay(WriteIn(domain), [], steps);
    EveryVersionIsOk(domain, steps, v);
    EveryVersionIsOk(domain, steps, w);
    assert Fits(before, domain.cliqueId, domain.max) && Fits(after, domain.cliqueId, domain.max);
    IndexOfMember(versions[v], before);
    IndexOfMember(versions[w], after);
    IndexNeverChanges(domain, steps, v, w, before.nodeName);
  }

  // ------------------------------------------------------------------- hosts file

  predicate IsSpace(c: char) {
    || c in {' ', '\t', '\n', '\r', '\U{000B}', '\U{000C}', '\U{0085}', '\U{00A0}', '\U{1680}'}
    || '\U{2000}' <= c <= '\U{200A}'
    || c in {'\U{2028}', '\U{2029}', '\U{202F}', '\U{205F}', '\U{3000}'}
  }

  function TrimLeft(s: string): string {
    if s != "" && IsSpace(s[0]) then TrimLeft(s[1..]) else s
  }

  function TrimRight(s: string): string {
    if s != "" && IsSpace(s[|s| - 1]) then TrimRight(s[..|s| - 1]) else s
  }

  function TrimSpace(s: string): string {
    TrimRight(TrimLeft(s))
  }

  predicate OccursAt(s: string, part: string, i: nat) {
    i + |part| <= |s| && s[i..i + |part|] == part
  }

  predicate Contains(s: string, part: string) {
    exists i: nat :: i <= |s| && OccursAt(s, part, i)
  }

  lemma {:induction false} TrimLeftShape(s: string)
    ensures var t := TrimLeft(s); t == "" || !IsSpace(t[0])
  {
    if s != "" && IsSpace(s[0]) {
      TrimLeftShape(s[1..]);
    }
  }

  lemma {:induction false} TrimRightShape(s: string)
    ensures var t := TrimRight(s); t <= s && (t == "" || !IsSpace(t[|t| - 1]))
  {
    if s != "" && IsSpace(s[|s| - 1]) {
      TrimRightShape(s[..|s| - 1]);
    }
  }

  lemma TrimSpaceIsIdempotent(s: string)
    ensures TrimSpace(TrimSpace(s)) == TrimSpace(s)
  {
    TrimLeftShape(s);
    TrimRightShape(TrimLeft(s));
  }

  predicate AllSpace(s: string) {
    forall i :: 0 <= i < |s| ==> IsSpace(s[i])
  }

  lemma {:induction false} TrimLeftCuts(s: string) returns (i: nat)
    ensures i <= |s| && TrimLeft(s) == s[i..] && AllSpace(s[..i])
  {
    if s != "" && IsSpace(s[0]) {
      var k := TrimLeftCuts(s[1..]);
      i := k + 1;
      assert s[i..] == s[1..][k..] && s[..i] == [s[0]] + s[1..][..k];
    } else {
      i := 0;
      assert s[0..] == s;
    }
  }

  lemma {:induction false} TrimRightCuts(s: string) returns (j: nat)
    ensures j <= |s| && TrimRight(s) == s[..j] && AllSpace(s[j..])
  {
    if s != "" && IsSpace(s[|s| - 1]) {
      j := TrimRightCuts(s[..|s| - 1]);
      assert s[..|s| - 1][..j] == s[..j] && s[j..] == s[..|s| - 1][j..] + [s[|s| - 1]];
    } else {
      j := |s|;
      assert s[..j] == s;
    }
  }

  /** Exactly the blanks at both ends are cut. */
  lemma TrimSpaceIs(s: string) returns (i: nat, j: nat)
    ensures i <= j <= |s| && TrimSpace(s) == s[i..j] && AllSpace(s[..i]) && AllSpace(s[j..])
    ensures i < j ==> !IsSpace(s[i]) && !IsSpace(s[j - 1])
  {
    i := TrimLeftCuts(s);
    var k := TrimRightCuts(s[i..]);
    j := i + k;
    assert s[i..][..k] == s[i..j] && s[i..][k..] == s[j..];
    TrimRightShape(s[i..]);
    TrimLeftShape(s);
    if i < j {
      assert s[i..j][0] == s[i] && s[i..j][|s[i..j]| - 1] == s[j - 1] && s[i..][0] == s[i];
    }
  }

  /** A solid part, one without blanks at its ends, survives trimming. */
  predicate Solid(part: string) {
    part != "" && !IsSpace(part[0]) && !IsSpace(part[|part| - 1])
  }

  lemma {:induction false} ContainsAfterTrimLeft(s: string, part: string)
    requires Solid(part)
    ensures Contains(TrimLeft(s), part) <==> Contains(s, part)
  {
    if s != "" && IsSpace(s[0]) {
      ContainsAfterTrimLeft(s[1..], part);
      if i: nat :| i <= |s[1..]| && OccursAt(s[1..], part, i) {
        assert s[i + 1..i + 1 + |part|] == s[1..][i..i + |part|];
        assert OccursAt(s, part, i + 1);
      }
      if i: nat :| i <= |s| && OccursAt(s, part, i) {
        assert part[0] == s[i..i + |part|][0] == s[i];
        assert i > 0;
        var t := s[1..];
        assert t[i - 1..i - 1 + |part|] == s[i..i + |part|];
        assert OccursAt(t, part, i - 1);
      }
    }
  }

  lemma {:induction false} ContainsAfterTrimRight(s: string, part: string)
    requires Solid(part)
    ensures Contains(TrimRight(s), part) <==> Contains(s, part)
  {
    if s != "" && IsSpace(s[|s| - 1]) {
      var t := s[..|s| - 1];
      ContainsAfterTrimRight(t, part);
      if i: nat :| i <= |t| && OccursAt(t, part, i) {
        assert s[i..i + |part|] == t[i..i + |part|];
        assert OccursAt(s, part, i);
      }
      if i: nat :| i <= |s| && OccursAt(s, part, i) {
        assert s[i..i + |part|][|part| - 1] == s[i + |part| - 1];
        assert i + |part| < |s|;
        assert t[i..i + |part|] == s[i..i + |part|] == part;
        assert OccursAt(t, part, i);
      }
    }
  }

  predicate IsOurs(line: string) {
    Contains(TrimSpace(line), DNS_NAME_PREFIX)
  }

  lemma OursMentionsThePrefix(line: string)
    ensures IsOurs(line) <==> Contains(line, DNS_NAME_PREFIX)
  {
    assert Solid(DNS_NAME_PREFIX);
    ContainsAfterTrimLeft(line, DNS_NAME_PREFIX);
    ContainsAfterTrimRight(TrimLeft(line), DNS_NAME_PREFIX);
  }

  /** The lines that belong to others, trimmed, in order. */
  function Foreign(lines: seq<string>): seq<string> {
    if lines == [] then []
    else
      var init := Foreign(lines[..|lines| - 1]);
      var last := lines[|lines| - 1];
      if IsOurs(last) then init else init + [TrimSpace(last)]
  }

  lemma {:induction false} ForeignConcat(a: seq<string>, b: seq<string>)
    ensures Foreign(a + b) == Foreign(a) + Foreign(b)
  {
    hide IsOurs, TrimSpace;
    if b == [] {
      assert a + b == a;
    } else {
      assert (a + b)[..|a + b| - 1] == a + b[..|b| - 1];
      ForeignConcat(a, b[..|b| - 1]);
    }
  }

  lemma {:induction false} ForeignIsIdempotent(lines: seq<string>)
    ensures Foreign(Foreign(lines)) == Foreign(lines)
    ensures forall line :: line in Foreign(lines) ==> !IsOurs(line)
  {
    if lines != [] {
      var init, last := lines[..|lines| - 1], lines[|lines| - 1];
      ForeignIsIdempotent(init);
      TrimSpaceIsIdempotent(last);
      hide IsOurs, TrimSpace;
      if !IsOurs(last) {
        TrimmedIsNotOurs(last);
        assert Foreign(lines)[..|Foreign(lines)| - 1] == Foreign(init);
      }
    }
  }

  lemma TrimmedIsNotOurs(line: string)
    ensures IsOurs(TrimSpace(line)) <==> IsOurs(line)
  {
    TrimSpaceIsIdempotent(line);
  }

  lemma {:induction false} OwnLinesAreNotForeign(lines: seq<string>)
    requires forall line :: line in lines ==> IsOurs(line)
    ensures Foreign(lines) == []
  {
    hide IsOurs;
    if lines != [] {
      OwnLinesAreNotForeign(lines[..|lines| - 1]);
      assert lines[|lines| - 1] in lines;
    }
  }

  lemma SeparatorIsForeign()
    ensures !IsOurs(SEPARATOR_COMMENT) && TrimSpace(SEPARATOR_COMMENT) == SEPARATOR_COMMENT
    ensures !IsOurs("") && TrimSpace("") == ""
  {
    assert forall i :: 0 <= i < |SEPARATOR_COMMENT| ==> SEPARATOR_COMMENT[i] != 'c';
    assert DNS_NAME_PREFIX[0] == 'c';
    forall i: nat | i <= |SEPARATOR_COMMENT| ensures !OccursAt(SEPARATOR_COMMENT, DNS_NAME_PREFIX, i) {
      if i + |DNS_NAME_PREFIX| <= |SEPARATOR_COMMENT| {
        assert SEPARATOR_COMMENT[i..i + |DNS_NAME_PREFIX|][0] == SEPARATOR_COMMENT[i];
      }
    }
  }

  function Entry(ip: string, dnsName: string): string {
    ip + "\t" + dnsName
  }

  lemma EntryIsOurs(ip: string, index: nat)
    ensures IsOurs(Entry(ip, DnsName(index)))
  {
    var line := Entry(ip, DnsName(index));
    assert line[|ip| + 1..] == DnsName(index);
    assert line[|ip| + 1..|ip| + 1 + |DNS_NAME_PREFIX|] == DNS_NAME_PREFIX;
    assert OccursAt(line, DNS_NAME_PREFIX, |ip| + 1);
    OursMentionsThePrefix(line);
  }

  ghost predicate NamesOnly(m: map<string, string>) {
    forall ip :: ip in m ==> exists i: nat :: m[ip] == DnsName(i)
  }

  lemma {:induction false} MappingHasNamesOnly(daemons: seq<DaemonInfo>)
    ensures NamesOnly(Mapping(daemons))
  {
    hide DnsName;
    if daemons != [] {
      MappingHasNamesOnly(daemons[..|daemons| - 1]);
    }
  }

  /** The hosts file says exactly what the map says about daemons. */
  ghost predicate Publishes(hosts: seq<string>, m: map<string, string>) {
    && (forall ip :: ip in m ==> Entry(ip, m[ip]) in hosts)
    && (forall line :: line in hosts && IsOurs(line) ==> exists ip :: ip in m && line == Entry(ip, m[ip]))
  }

  /** The cached map and the hosts file. */
  datatype DnsState = DnsState(names: map<string, string>, hosts: seq<string>)

  /** What one update may do, depending on whether the file can be rewritten. */
  ghost predicate MayUpdate(
    cliqueId: string, max: int, s: DnsState, daemons: seq<DaemonInfo>, r: Result<bool>, t: DnsState)
  {
    var own := Kept(daemons, InClique(cliqueId));
    if !AllInDomain(own, max) then r == Err(OutOfRange) && t == s
    else if s.names == Mapping(own) then r == Ok(false) && t == s
    else
      && t.names == Mapping(own)
      && if r.Ok? then r.value && Publishes(t.hosts, t.names) && Foreign(t.hosts) == Foreign(s.hosts) + [SEPARATOR_COMMENT, ""]
         else r.error == FileFailure && t.hosts == s.hosts
  }

  /** After a success the file agrees with the map exactly if it was rewritten now or agreed before. */
  lemma FileAgreesIff(cliqueId: string, max: int, s: DnsState, daemons: seq<DaemonInfo>, r: Result<bool>, t: DnsState)
    requires MayUpdate(cliqueId, max, s, daemons, r, t) && r.Ok?
    ensures Publishes(t.hosts, t.names) <==> r.value || Publishes(s.hosts, s.names)
  {
  }

  /** A rewrite that fails, and then any number of calls with the same daemons: each of them reports that
      nothing changed, and the file never says what the map says. */
  lemma FailedRewriteIsNotMadeUpFor(cliqueId: string, max: int, s: DnsState, daemons: seq<DaemonInfo>) returns (t: DnsState)
    requires var own := Kept(daemons, InClique(cliqueId));
             AllInDomain(own, max) && s.names != Mapping(own) && !Publishes(s.hosts, Mapping(own))
    ensures MayUpdate(cliqueId, max, s, daemons, Err(FileFailure), t)
    ensures !Publishes(t.hosts, t.names)
    ensures forall r, u :: MayUpdate(cliqueId, max, t, daemons, r, u) <==> r == Ok(false) && u == t
  {
    t := DnsState(Mapping(Kept(daemons, InClique(cliqueId))), s.hosts);
  }

  // ---------------------------------------------------------------------- the manager

  class DNSNameManager {
    const cliqueId: string
    const maxNodes: nat
    var ipToDnsName: map<string, string>
    var hosts: seq<string>
    var nodesConfig: seq<string>

    /** How often a file could not be read or written. */
    ghost var faults: nat

    ghost predicate Valid()
      reads this`ipToDnsName
    {
      NamesOnly(ipToDnsName)
    }

    constructor (cliqueId: string, maxNodes: nat, hosts: seq<string>)
      ensures Valid() && ipToDnsName == map[]
      ensures this.cliqueId == cliqueId && this.maxNodes == maxNodes && this.hosts == hosts
    {
      this.cliqueId, this.maxNodes, this.ipToDnsName, this.hosts, this.nodesConfig := cliqueId, maxNodes, map[], hosts, [];
      this.faults := 0;
    }

    method ConstructDnsName(daemon: DaemonInfo) returns (r: Result<string>)
      ensures r.Ok? <==> 0 <= daemon.index < maxNodes
      ensures r.Ok? ==> r.value == DnsName(daemon.index) && IsNameOf(r.value, daemon.index)
      ensures r.Err? ==> r.error == OutOfRange
    {
      hide DnsName, IsNameOf;
      if daemon.index < 0 {
        return Err(OutOfRange);
      }
      if daemon.index >= maxNodes {
        return Err(OutOfRange);
      }
      DnsNameIs(daemon.index);
      return Ok(DnsName(daemon.index));
    }

    /** An index outside the domain changes nothing. Otherwise the map becomes that of this clique's
        daemons, and the hosts file is rewritten exactly when the map changed. A failed rewrite is not
        made up for: the file agrees with the map after a successful call only if this call rewrote it
        or it agreed before. */
    method UpdateDnsNameMappings(daemons: seq<DaemonInfo>) returns (r: Result<bool>)
      requires Valid()
      modifies this`ipToDnsName, this`hosts, this`faults
      ensures Valid()
      ensures r.Err? && r.error == OutOfRange <==> exists d :: d in daemons && d.cliqueId == cliqueId && !(0 <= d.index < maxNodes)
      ensures r.Err? ==> r.error == OutOfRange || (r.error == FileFailure && faults > old(faults))
      ensures r.Ok? ==> NamesDaemons(ipToDnsName, daemons, cliqueId)
      ensures MayUpdate(cliqueId, maxNodes, old(DnsState(ipToDnsName, hosts)), daemons, r, DnsState(ipToDnsName, hosts))
      ensures r.Ok? ==> (Publishes(hosts, ipToDnsName) <==> r.value || old(Publishes(hosts, ipToDnsName)))
      ensures hosts == old(hosts) || Foreign(hosts) == Foreign(old(hosts)) + [SEPARATOR_COMMENT, ""]
    {
      hide DnsName, Publishes, Foreign, NamesDaemons, Mapping;
      var m :- BuildMapping(daemons);
      if m == ipToDnsName {
        return Ok(false);
      }
      MappingHasNamesOnly(Kept(daemons, InClique(cliqueId)));
      ipToDnsName := m;
      var updated := UpdateHostsFile();
      if updated.Err? {
        return Err(updated.error);
      }
      return Ok(true);
    }

    /** The map of this clique's daemons. */
    method BuildMapping(daemons: seq<DaemonInfo>) returns (r: Result<map<string, string>>)
      ensures var own := Kept(daemons, InClique(cliqueId));
              && (r.Ok? <==> AllInDomain(own, maxNodes))
              && (r.Ok? ==> r.value == Mapping(own))
      ensures r.Ok? ==> NamesDaemons(r.value, daemons, cliqueId)
      ensures r.Err? ==> r.error == OutOfRange && exists d :: d in daemons && d.cliqueId == cliqueId && !(0 <= d.index < maxNodes)
      ensures r.Ok? ==> forall d :: d in daemons && d.cliqueId == cliqueId ==> 0 <= d.index < maxNodes
    {
      hide DnsName, NamesDaemons;
      var own: seq<DaemonInfo> := [];
      for i := 0 to |daemons|
        invariant own == Kept(daemons[..i], InClique(cliqueId))
      {
        assert daemons[..i + 1][..i] == daemons[..i];
        if daemons[i].cliqueId == cliqueId {
          own := own + [daemons[i]];
        }
      }
      assert daemons[..|daemons|] == daemons;
      KeptMembers(daemons, InClique(cliqueId));
      var m: map<string, string> := map[];
      for i := 0 to |own|
        invariant m == Mapping(own[..i]) && AllInDomain(own[..i], maxNodes)
      {
        assert own[..i + 1] == own[..i] + [own[i]] && own[..i + 1][..i] == own[..i] && own[i] in own;
        var dnsName := ConstructDnsName(own[i]);
        if dnsName.Err? {
          return Err(OutOfRange);
        }
        m := m[own[i].ipAddress := dnsName.value];
      }
      assert own[..|own|] == own;
      MappingNamesDaemons(daemons, cliqueId, maxNodes);
      return Ok(m);
    }

    /** Everybody else's lines stay, trimmed and in order; all lines about daemons are replaced by those of
        the map. */
    method UpdateHostsFile() returns (r: Result<()>)
      requires Valid()
      modifies this`hosts, this`faults
      ensures r.Err? ==> hosts == old(hosts) && r.error == FileFailure && faults > old(faults)
      ensures r.Ok? ==> forall ip :: ip in ipToDnsName ==> ip + "\t" + ipToDnsName[ip] in hosts
      ensures r.Ok? ==> forall line :: line in hosts && Contains(line, "compute-domain-daemon-") ==>
                          exists ip :: ip in ipToDnsName && line == ip + "\t" + ipToDnsName[ip]
      ensures r.Ok? ==> forall line :: line in old(hosts) && !Contains(line, "compute-domain-daemon-") ==> TrimSpace(line) in hosts
      ensures r.Ok? ==> Publishes(hosts, ipToDnsName)
      ensures r.Ok? ==> Foreign(hosts) == Foreign(old(hosts)) + [SEPARATOR_COMMENT, ""]
    {
      if * {
        faults := faults + 1;
        return Err(FileFailure);
      }
      hide DnsName, IsOurs, TrimSpace, Entry, Contains;
      var preserved: seq<string> := [];
      for i := 0 to |hosts|
        modifies {}
        invariant preserved == Foreign(hosts[..i])
      {
        assert hosts[..i + 1][..i] == hosts[..i];
        if IsOurs(hosts[i]) {
          continue;
        }
        preserved := preserved + [TrimSpace(hosts[i])];
      }
      assert hosts[..|hosts|] == hosts;
      var entries := HostEntries();
      if * {
        faults := faults + 1;
        return Err(FileFailure);
      }
      ForeignAfterRewrite(hosts, entries);
      hide Publishes;
      RewrittenHosts(hosts, preserved, entries, ipToDnsName);
      hosts := preserved + [SEPARATOR_COMMENT] + entries + [""];
      return Ok(());
    }

    /** The lines of the map, in any order. */
    method HostEntries() returns (entries: seq<string>)
      requires Valid()
      ensures forall line :: line in entries ==> IsOurs(line) && exists ip :: ip in ipToDnsName && line == Entry(ip, ipToDnsName[ip])
      ensures forall ip :: ip in ipToDnsName ==> Entry(ip, ipToDnsName[ip]) in entries
    {
      hide DnsName, IsOurs, Entry;
      entries := [];
      var ips := ipToDnsName.Keys;
      while ips != {}
        invariant ips <= ipToDnsName.Keys
        invariant forall line :: line in entries ==>
                    IsOurs(line) && exists ip :: ip in ipToDnsName && line == Entry(ip, ipToDnsName[ip])
        invariant forall ip :: ip in ipToDnsName && ip !in ips ==> Entry(ip, ipToDnsName[ip]) in entries
      {
        var ip :| ip in ips;
        ips := ips - {ip};
        var index: nat :| ipToDnsName[ip] == DnsName(index);
        EntryIsOurs(ip, index);
        entries := entries + [Entry(ip, ipToDnsName[ip])];
      }
    }

    /** One name for every index of the domain. */
    method WriteNodesConfig() returns (r: Result<()>)
      modifies this`nodesConfig, this`faults
      ensures r.Ok? ==> nodesConfig == NodesConfig(maxNodes)
      ensures r.Ok? ==> |nodesConfig| == maxNodes && forall i :: 0 <= i < maxNodes ==> IsNameOf(nodesConfig[i], i)
      ensures r.Err? ==> faults > old(faults)
    {
      hide DnsName, IsNameOf;
      if * {
        faults := faults + 1;
        return Err(FileFailure);
      }
      nodesConfig := [];
      for i := 0 to maxNodes
        invariant nodesConfig == NodesConfig(i) && faults >= old(faults)
        invariant forall k :: 0 <= k < i ==> IsNameOf(nodesConfig[k], k)
      {
        DnsNameIs(i);
        if * {
          faults := faults + 1;
          return Err(FileFailure);
        }
        nodesConfig := nodesConfig + [DnsName(i)];
      }
      return Ok(());
    }
  }

  /** The map has the addresses of this clique's daemons, and under each the name of one that has it. */
  ghost predicate NamesDaemons(m: map<string, string>, daemons: seq<DaemonInfo>, cliqueId: string) {
    && (forall d :: d in daemons && d.cliqueId == cliqueId ==> d.ipAddress in m)
    && (forall ip :: ip in m ==>
          exists d :: d in daemons && d.cliqueId == cliqueId && d.ipAddress == ip && IsNameOf(m[ip], d.index))
  }

  lemma {:induction false} MappingNames(own: seq<DaemonInfo>, max: int)
    requires AllInDomain(own, max)
    ensures forall d :: d in own ==> d.ipAddress in Mapping(own)
    ensures forall ip :: ip in Mapping(own) ==> exists d :: d in own && d.ipAddress == ip && IsNameOf(Mapping(own)[ip], d.index)
  {
    hide DnsName, IsNameOf;
    if own != [] {
      var init, last := own[..|own| - 1], own[|own| - 1];
      assert own == init + [last];
      assert last in own;
      MappingNames(init, max);
      DnsNameIs(last.index);
    }
  }

  lemma MappingNamesDaemons(daemons: seq<DaemonInfo>, cliqueId: string, max: int)
    requires AllInDomain(Kept(daemons, InClique(cliqueId)), max)
    ensures NamesDaemons(Mapping(Kept(daemons, InClique(cliqueId))), daemons, cliqueId)
  {
    hide IsNameOf, Mapping;
    KeptMembers(daemons, InClique(cliqueId));
    MappingNames(Kept(daemons, InClique(cliqueId)), max);
  }

  lemma RewrittenHosts(hosts: seq<string>, preserved: seq<string>, entries: seq<string>, m: map<string, string>)
    requires preserved == Foreign(hosts)
    requires forall line :: line in entries ==> IsOurs(line) && exists ip :: ip in m && line == Entry(ip, m[ip])
    requires forall ip :: ip in m ==> Entry(ip, m[ip]) in entries
    ensures Publishes(preserved + [SEPARATOR_COMMENT] + entries + [""], m)
    ensures var r := preserved + [SEPARATOR_COMMENT] + entries + [""];
            && (forall ip :: ip in m ==> ip + "\t" + m[ip] in r)
            && (forall line :: line in r && Contains(line, "compute-domain-daemon-") ==> exists ip :: ip in m && line == ip + "\t" + m[ip])
            && (forall line :: line in hosts && !Contains(line, "compute-domain-daemon-") ==> TrimSpace(line) in r)
  {
    SeparatorIsForeign();
    hide TrimSpace, Contains, IsOurs;
    ForeignIsIdempotent(hosts);
    var r := preserved + [SEPARATOR_COMMENT] + entries + [""];
    assert forall line :: line in r && IsOurs(line) ==> line in entries;
    assert Publishes(r, m);
    forall ip | ip in m ensures ip + "\t" + m[ip] in r {
      assert Entry(ip, m[ip]) in entries;
    }
    forall line | line in r && Contains(line, "compute-domain-daemon-") ensures exists ip :: ip in m && line == ip + "\t" + m[ip] {
      OursMentionsThePrefix(line);
      var ip :| ip in m && line == Entry(ip, m[ip]);
    }
    forall line | line in hosts && !Contains(line, "compute-domain-daemon-") ensures TrimSpace(line) in r {
      OursMentionsThePrefix(line);
      ForeignHas(hosts, line);
    }
  }

  lemma {:induction false} ForeignHas(hosts: seq<string>, line: string)
    requires line in hosts && !IsOurs(line)
    ensures TrimSpace(line) in Foreign(hosts)
  {
    hide TrimSpace, IsOurs;
    if line != hosts[|hosts| - 1] {
      ForeignHas(hosts[..|hosts| - 1], line);
    }
  }

  lemma ForeignAfterRewrite(hosts: seq<string>, entries: seq<string>)
    requires forall line :: line in entries ==> IsOurs(line)
    ensures Foreign(Foreign(hosts) + [SEPARATOR_COMMENT] + entries + [""]) == Foreign(hosts) + [SEPARATOR_COMMENT, ""]
  {
    SeparatorIsForeign();
    hide IsOurs, TrimSpace;
    ForeignIsIdempotent(hosts);
    OwnLinesAreNotForeign(entries);
    ForeignConcat(Foreign(hosts), [SEPARATOR_COMMENT]);
    ForeignConcat(Foreign(hosts) + [SEPARATOR_COMMENT], entries);
    ForeignConcat(Foreign(hosts) + [SEPARATOR_COMMENT] + entries, [""]);
    assert Foreign([SEPARATOR_COMMENT]) == [SEPARATOR_COMMENT] && Foreign([""]) == [""];
  }
}
